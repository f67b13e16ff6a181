/** NDEF records: the header layout of src/ndef.c, the serialiser and the reader of src/cmdline.c. */
module Ndef {
  import opened Bytes
  import opened Base64

  // ----- Reading a record: src/ndef.c -----

  const MB := 128
  const ME := 64
  const CF := 32
  const SR := 16
  const IL := 8

  /** `ndef_hdr_len` */
  function HeaderLen(flags: byte): (n: nat)
    ensures 3 <= n <= 7
  {
    1 + 2 + (if HasBit(flags, SR) then 0 else 3) + (if HasBit(flags, IL) then 1 else 0)
  }

  /** `ndef_rec_type_off`, counted from the byte after the flags. */
  function TypeOff(flags: byte): nat
  {
    6 - (if HasBit(flags, SR) then 3 else 0) - (if HasBit(flags, IL) then 0 else 1)
  }

  /** `ndef_rec_payload_len` */
  function PayloadLen(m: seq<byte>): nat
    requires m != [] && |m| >= HeaderLen(m[0])
  {
    if HasBit(m[0], SR) then m[2] else FromBe32(m[2..6])
  }

  /** `ndef_rec_id_len` */
  function IdLen(m: seq<byte>): nat
    requires m != [] && |m| >= HeaderLen(m[0])
  {
    if !HasBit(m[0], IL) then 0 else if HasBit(m[0], SR) then m[3] else m[6]
  }

  /** `ndef_rec_len` */
  function RecLen(m: seq<byte>): (n: nat)
    requires m != [] && |m| >= HeaderLen(m[0])
    ensures n >= 3
  {
    HeaderLen(m[0]) + m[1] + PayloadLen(m) + IdLen(m)
  }

  /** The offset of the type, and of the payload right behind it, from the start of the record. */
  function TypeStart(m: seq<byte>): nat
    requires m != []
  {
    1 + TypeOff(m[0])
  }

  function PayloadStart(m: seq<byte>): nat
    requires |m| >= 2
  {
    TypeStart(m) + m[1]
  }

  function IdStart(m: seq<byte>): nat
    requires |m| >= 2 && |m| >= HeaderLen(m[0])
  {
    PayloadStart(m) + PayloadLen(m)
  }

  /** The type starts right behind the header, and the views of type, payload and id tile the record. */
  lemma ViewsTileRecord(m: seq<byte>)
    requires |m| >= 2 && |m| >= HeaderLen(m[0])
    ensures TypeStart(m) == HeaderLen(m[0])
    ensures IdStart(m) + IdLen(m) == RecLen(m)
  {
  }

  // ----- Writing a message: build_ndef_msg -----

  datatype Flags = Flags(mb: bool, me: bool, cf: bool, sr: bool, il: bool)

  /** A record as given by the user; type, id and payload are base64 text. */
  datatype RecordParam = RecordParam(flags: Flags, tnf: Tnf, typ: string, id: string, payload: string)

  type Tnf = t: int | 0 <= t < 8

  function FlagByte(f: Flags, tnf: Tnf): byte
  {
    (if f.mb then 128 else 0) + (if f.me then 64 else 0) + (if f.cf then 32 else 0)
    + (if f.sr then 16 else 0) + (if f.il then 8 else 0) + tnf
  }

  lemma FlagByteBits(f: Flags, tnf: Tnf)
    ensures var b := FlagByte(f, tnf);
      HasBit(b, MB) == f.mb && HasBit(b, ME) == f.me && HasBit(b, CF) == f.cf && HasBit(b, SR) == f.sr
      && HasBit(b, IL) == f.il && b % 8 == tnf
  {
  }

  /** A record as it is written: the header byte and the decoded fields. */
  datatype Rec = Rec(flags: byte, typ: seq<byte>, id: seq<byte>, payload: seq<byte>)
  {
    /** Fields the header can describe: one-byte lengths, and no id without the IL flag. */
    predicate Describable() {
      |typ| < 256 && |id| < 256 && |payload| < 256
    }

    predicate Consistent() {
      HasBit(flags, IL) || id == []
    }
  }

  /** The header the setters leave behind; every length is cut to one byte on the way. */
  function Header(r: Rec): (h: seq<byte>)
    ensures |h| == HeaderLen(r.flags)
  {
    [r.flags, |r.typ| % 256]
    + (if HasBit(r.flags, SR) then [|r.payload| % 256] else Be32(|r.payload| % 256))
    + (if HasBit(r.flags, IL) then [|r.id| % 256] else [])
  }

  /** The id goes before the payload. */
  function RecordBytes(r: Rec): (m: seq<byte>)
    ensures |m| == HeaderLen(r.flags) + |r.typ| + |r.id| + |r.payload|
  {
    Header(r) + r.typ + r.id + r.payload
  }

  function Serialize(rs: seq<Rec>): seq<byte>
  {
    if rs == [] then [] else RecordBytes(rs[0]) + Serialize(rs[1..])
  }

  /** The number of bytes `ndef_create_rec` writes; it uses the long layout for short records and the reverse. */
  function CreateSpan(flags: byte): nat
  {
    1 + (if HasBit(flags, SR) then 5 else 2) + (if HasBit(flags, IL) then 1 else 0)
  }

  /** The layout in which a header is created is that of the other value of SR. */
  lemma LayoutsAreSwapped(flags: byte, other: byte)
    requires HasBit(other, 0x10) != HasBit(flags, 0x10) && HasBit(other, 0x08) == HasBit(flags, 0x08)
    ensures CreateSpan(flags) == HeaderLen(other)
  {
    hide HasBit;
  }

  /** The flags of record `i`: MB on the first, ME on the last, IL when there is an id, besides the user's own. */
  function FlagsAt(recs: seq<RecordParam>, i: nat): Flags
    requires i < |recs|
  {
    var f := recs[i].flags;
    Flags(f.mb || i == 0, f.me || i + 1 == |recs|, f.cf, f.sr, f.il || recs[i].id != [])
  }

  /** `size_t` */
  const SIZE_MODULUS := 0x1_0000_0000_0000_0000

  /** Decoding a field: `Outside` means that bytes leave the buffer. */
  datatype Field = Got(bytes: seq<byte>) | Bad | Full | Outside

  /**
   * Decodes one field. `room` is what is left of the budget, `space` what is left of the buffer. A field behind the
   * budget is given the room in `size_t`, which is huge.
   */
  function DecodeField(text: string, room: int, space: nat): (f: Field)
    requires room <= space < SIZE_MODULUS
    ensures f.Got? ==> |f.bytes| == 3 * DigitRun(text) / 4 <= space
    ensures f.Got? && 0 <= room ==> |f.bytes| <= room
  {
    var olen: nat := room % SIZE_MODULUS;
    if olen > space && Touched(DigitRun(text)) > space then Outside
    else
      match Decode(text, olen)
      case NoRoom => Full
      case NotBase64 => Bad
      case Decoded(bytes) => Got(bytes)
  }

  datatype RecordOutcome = Fields(rec: Rec) | BadRecord | NoSpace | PastEnd

  function OutcomeOf(f: Field): RecordOutcome
    requires !f.Got?
  {
    if f.Bad? then BadRecord else if f.Full? then NoSpace else PastEnd
  }

  /** The number of bytes a text decodes to, if it decodes at all. */
  function DecodedLen(text: string): nat
  {
    3 * DigitRun(text) / 4
  }

  /** The size of a record, before anything is decoded. */
  function NamesSize(p: RecordParam, flags: byte): nat
  {
    HeaderLen(flags) + DecodedLen(p.typ) + (if HasBit(flags, IL) then DecodedLen(p.id) else 0)
  }

  function RecordSize(p: RecordParam, flags: byte): nat
  {
    NamesSize(p, flags) + DecodedLen(p.payload)
  }

  /** Decodes type and id of a record that starts with its header; the payload is left empty. */
  function DecodeNames(p: RecordParam, flags: byte, room: int, space: nat): (r: RecordOutcome)
    requires room <= space < SIZE_MODULUS
    ensures r.Fields? ==> r.rec.flags == flags && r.rec.Consistent() && r.rec.payload == []
    ensures r.Fields? ==> |RecordBytes(r.rec)| == NamesSize(p, flags) <= space
    ensures r.Fields? && HeaderLen(flags) <= room ==> |RecordBytes(r.rec)| <= room
  {
    var h := HeaderLen(flags);
    if h > space then PastEnd
    else
      var t := DecodeField(p.typ, room - h, space - h);
      if !t.Got? then OutcomeOf(t)
      else
        var n := h + |t.bytes|;
        var id := if HasBit(flags, IL) then DecodeField(p.id, room - n, space - n) else Got([]);
        if !id.Got? then OutcomeOf(id) else Fields(Rec(flags, t.bytes, id.bytes, []))
  }

  /** Decodes all fields of a record. */
  function DecodeRecord(p: RecordParam, flags: byte, room: int, space: nat): (r: RecordOutcome)
    requires room <= space < SIZE_MODULUS
    ensures r.Fields? ==> r.rec.flags == flags && r.rec.Consistent()
    ensures r.Fields? ==> |RecordBytes(r.rec)| == RecordSize(p, flags) <= space
    ensures r.Fields? && HeaderLen(flags) <= room ==> |RecordBytes(r.rec)| <= room
    ensures r.Fields? && HasBit(flags, SR) ==> |r.rec.payload| < 256
  {
    var names := DecodeNames(p, flags, room, space);
    if !names.Fields? then names
    else
      var n := |RecordBytes(names.rec)|;
      var payload := DecodeField(p.payload, room - n, space - n);
      if !payload.Got? then OutcomeOf(payload)
      else if |payload.bytes| > 255 && HasBit(flags, SR) then BadRecord
      else Fields(names.rec.(payload := payload.bytes))
  }

  /** `Stopped` is a failed assertion on the room, `Overrun` a header or a field that leaves the buffer. */
  datatype Build = Built(recs: seq<Rec>) | Rejected | Stopped | Overrun

  /** A build result behind records that are already written. */
  function Prepend(done: seq<Rec>, b: Build): Build
  {
    if b.Built? then Built(done + b.recs) else b
  }

  /** The records from number `i` on, written from offset `off` into a budget of `len` and a buffer of `size` bytes. */
  function BuildFrom(recs: seq<RecordParam>, i: nat, off: nat, len: nat, size: nat): (b: Build)
    requires i <= |recs| && off <= size && len <= size < SIZE_MODULUS
    ensures b.Built? ==> off + |Serialize(b.recs)| <= size && |b.recs| == |recs| - i
    ensures b.Built? ==> forall k :: 0 <= k < |b.recs| ==> b.recs[k].Consistent()
    decreases |recs| - i
  {
    if i == |recs| then Built([])
    else
      var flags := FlagByte(FlagsAt(recs, i), recs[i].tnf);
      if off + CreateSpan(flags) > size then Overrun
      else
        match DecodeRecord(recs[i], flags, len - off, size - off)
        case PastEnd => Overrun
        case BadRecord => Rejected
        case NoSpace => Stopped
        case Fields(r) =>
          Prepend([r], BuildFrom(recs, i + 1, off + |RecordBytes(r)|, len, size))
  }

  datatype BuildResult = Offset(n: nat) | Failure | AssertionFailed | PastBuffer

  /** `ndef_create_rec(buf + off, flags, tnf, 0, 0, 0)`; the layouts are swapped, so it may write past the header. */
  method CreateRec(buf: array<byte>, off: nat, flags: byte) returns (h: nat)
    requires off + CreateSpan(flags) <= buf.Length
    modifies buf
    ensures h == HeaderLen(flags)
    ensures buf[off] == flags
    ensures forall i :: 0 <= i < off || off + CreateSpan(flags) <= i < buf.Length ==> buf[i] == old(buf[i])
  {
    buf[off] := flags;
    buf[off + 1] := 0;
    if HasBit(flags, SR) {
      buf[off + 2], buf[off + 3], buf[off + 4], buf[off + 5] := 0, 0, 0, 0;
      if HasBit(flags, IL) {
        buf[off + 6] := 0;
      }
    } else {
      buf[off + 2] := 0;
      if HasBit(flags, IL) {
        buf[off + 3] := 0;
      }
    }
    h := HeaderLen(flags);
  }

  /** `ndef_rec_set_type_len`, `ndef_rec_set_id_len` and `ndef_rec_set_payload_len` write into the header only. */
  method SetField(buf: array<byte>, off: nat, w: seq<byte>, ghost start: nat, ghost body: seq<byte>)
    requires off + |w| <= start && Holds(buf[..], start, body)
    modifies buf
    ensures Holds(buf[..], start, body)
    ensures Holds(buf[..], off, w) && (w != [] ==> buf[off] == w[0])
    ensures forall i :: 0 <= i < off || off + |w| <= i < buf.Length ==> buf[i] == old(buf[i])
  {
    ghost var was := buf[..];
    Copy(buf, off, w);
    assert forall i :: 0 <= i < buf.Length ==> buf[i] == buf[..][i];
    assert buf[start..start + |body|] == was[start..start + |body|];
  }

  /** What decoding a field at `at` does to a buffer that holds `body` before it, from `start` on. */
  ghost predicate PutsField(f: Field, r: BuildResult, buf: seq<byte>, at: nat, start: nat, body: seq<byte>)
  {
    match f
    case Got(bytes) => r == Offset(at + |bytes|) && Holds(buf, start, body + bytes)
    case Bad => r == Failure
    case Full => r == AssertionFailed
    case Outside => r == PastBuffer
  }

  /** Decodes one field behind the fields already written. */
  method PutField(s: string, buf: array<byte>, at: nat, len: nat, ghost start: nat, ghost body: seq<byte>)
    returns (r: BuildResult)
    requires at <= buf.Length && len <= buf.Length < SIZE_MODULUS
    requires start + |body| == at && Holds(buf[..], start, body)
    modifies buf
    ensures PutsField(DecodeField(s, len - at, buf.Length - at), r, buf[..], at, start, body)
    ensures forall i :: 0 <= i < start ==> buf[i] == old(buf[i])
  {
    hide Touched, DigitRun;
    ghost var was := buf[..];
    var olen: nat := (len - at) % SIZE_MODULUS;
    if olen > buf.Length - at && Touched(DigitRun(s)) > buf.Length - at {
      return PastBuffer;
    }
    var d := DecodeBase64(s, buf, at, olen);
    if !d.Length? {
      return if d.Invalid? then Failure else AssertionFailed;
    }
    assert buf[start..at] == was[start..at];
    ghost var bytes := Decode(s, olen).bytes;
    assert buf[at..][..|bytes|] == buf[at..at + |bytes|];
    HoldsConcat(buf[..], start, body, bytes);
    r := Offset(at + d.n);
  }

  /** What writing one record does to the buffer, for the caller of the loop body of `build_ndef_msg`. */
  ghost predicate WritesRecord(o: RecordOutcome, r: BuildResult, buf: seq<byte>, off: nat)
  {
    match o
    case Fields(rec) => r == Offset(off + |RecordBytes(rec)|) && Holds(buf, off, RecordBytes(rec))
    case BadRecord => r == Failure
    case NoSpace => r == AssertionFailed
    case PastEnd => r == PastBuffer
  }

  function PayloadLenField(flags: byte, plen: byte): seq<byte>
  {
    if HasBit(flags, SR) then [plen] else Be32(plen)
  }

  /** The header is complete except for the payload length. */
  ghost predicate NamesInHeader(b: seq<byte>, off: nat, rec: Rec)
  {
    && off + HeaderLen(rec.flags) <= |b|
    && b[off] == rec.flags && b[off + 1] == |rec.typ| % 256
    && (HasBit(rec.flags, IL) ==> b[off + HeaderLen(rec.flags) - 1] == |rec.id| % 256)
  }

  lemma RecordAssembled(b: seq<byte>, off: nat, rec: Rec)
    requires NamesInHeader(b, off, rec)
    requires Holds(b, off + 2, PayloadLenField(rec.flags, |rec.payload| % 256))
    requires Holds(b, off + HeaderLen(rec.flags), rec.typ + rec.id + rec.payload)
    ensures Holds(b, off, RecordBytes(rec))
  {
    var plen := PayloadLenField(rec.flags, |rec.payload| % 256);
    assert Holds(b, off, [b[off], b[off + 1]]);
    HoldsConcat(b, off, [b[off], b[off + 1]], plen);
    if HasBit(rec.flags, IL) {
      assert Holds(b, off + HeaderLen(rec.flags) - 1, [b[off + HeaderLen(rec.flags) - 1]]);
      HoldsConcat(b, off, [b[off], b[off + 1]] + plen, [b[off + HeaderLen(rec.flags) - 1]]);
    }
    assert Holds(b, off, Header(rec));
    HoldsConcat(b, off, Header(rec), rec.typ + rec.id + rec.payload);
    assert RecordBytes(rec) == Header(rec) + (rec.typ + rec.id + rec.payload);
  }

  /** Fills in the payload length: an 8-bit argument even when the field has four bytes. */
  method FinishRecord(buf: array<byte>, off: nat, flags: byte, plen: nat, ghost rec: Rec)
    requires NamesInHeader(buf[..], off, rec) && flags == rec.flags && plen == |rec.payload|
    requires Holds(buf[..], off + HeaderLen(flags), rec.typ + rec.id + rec.payload)
    modifies buf
    ensures Holds(buf[..], off, RecordBytes(rec))
    ensures forall i :: 0 <= i < off ==> buf[i] == old(buf[i])
  {
    SetField(buf, off + 2, PayloadLenField(flags, plen % 256), off + HeaderLen(flags), rec.typ + rec.id + rec.payload);
    RecordAssembled(buf[..], off, rec);
  }

  /** The header holds the flags and the type's length. */
  ghost predicate TypeInHeader(b: seq<byte>, off: nat, flags: byte, typ: seq<byte>)
  {
    off + HeaderLen(flags) <= |b| && b[off] == flags && b[off + 1] == |typ| % 256
  }

  /** Header and type of a record. */
  method WriteType(text: string, flags: byte, buf: array<byte>, off: nat, len: nat) returns (r: BuildResult)
    requires len <= buf.Length < SIZE_MODULUS
    requires off + HeaderLen(flags) <= buf.Length && off + CreateSpan(flags) <= buf.Length
    modifies buf
    ensures var (at, f) := (off + HeaderLen(flags),
                            DecodeField(text, len - off - HeaderLen(flags), buf.Length - off - HeaderLen(flags)));
      && PutsField(f, r, buf[..], at, at, [])
      && (f.Got? ==> TypeInHeader(buf[..], off, flags, f.bytes))
    ensures forall i :: 0 <= i < off ==> buf[i] == old(buf[i])
  {
    hide DecodeField;
    var h := CreateRec(buf, off, flags);
    var at := off + h;
    r := PutField(text, buf, at, len, at, []);
    if r.Offset? {
      ghost var typ := DecodeField(text, len - at, buf.Length - at).bytes;
      assert [] + typ == typ;
      SetField(buf, off + 1, [(r.n - at) % 256], at, typ);
    }
  }

  /** Decodes the id behind the type and sets its length, the last byte of the header. */
  method WriteId(text: string, flags: byte, buf: array<byte>, off: nat, at: nat, len: nat, ghost typ: seq<byte>)
    returns (r: BuildResult)
    requires HasBit(flags, IL) && at <= buf.Length && len <= buf.Length < SIZE_MODULUS
    requires at == off + HeaderLen(flags) + |typ|
    requires Holds(buf[..], off + HeaderLen(flags), typ) && TypeInHeader(buf[..], off, flags, typ)
    modifies buf
    ensures var f := DecodeField(text, len - at, buf.Length - at);
      && PutsField(f, r, buf[..], at, off + HeaderLen(flags), typ)
      && (f.Got? ==> NamesInHeader(buf[..], off, Rec(flags, typ, f.bytes, [])))
    ensures forall i :: 0 <= i < off ==> buf[i] == old(buf[i])
  {
    hide DecodeField;
    var start := off + HeaderLen(flags);
    r := PutField(text, buf, at, len, start, typ);
    if r.Offset? {
      SetField(buf, start - 1, [(r.n - at) % 256], start, typ + DecodeField(text, len - at, buf.Length - at).bytes);
    }
  }

  /** The first half of the loop body of `build_ndef_msg`: header, type, and the id if flagged. */
  method WriteNames(p: RecordParam, flags: byte, buf: array<byte>, off: nat, len: nat) returns (r: BuildResult)
    requires off + CreateSpan(flags) <= buf.Length && len <= buf.Length < SIZE_MODULUS
    modifies buf
    ensures match DecodeNames(p, flags, len - off, buf.Length - off)
      case BadRecord => r == Failure
      case NoSpace => r == AssertionFailed
      case PastEnd => r == PastBuffer
      case Fields(rec) =>
        && r == Offset(off + |RecordBytes(rec)|)
        && Holds(buf[..], off + HeaderLen(flags), rec.typ + rec.id) && NamesInHeader(buf[..], off, rec)
    ensures forall i :: 0 <= i < off ==> buf[i] == old(buf[i])
  {
    hide DecodeField, CreateSpan, RecordBytes, Header, HasBit, HeaderLen, NamesSize;
    var at := off + HeaderLen(flags);
    if at > buf.Length {
      return PastBuffer;
    }
    r := WriteType(p.typ, flags, buf, off, len);
    if !r.Offset? {
      return;
    }
    ghost var typ := DecodeField(p.typ, len - at, buf.Length - at).bytes;
    assert [] + typ == typ;
    if HasBit(flags, IL) {
      r := WriteId(p.id, flags, buf, off, r.n, len, typ);
    } else {
      assert typ + [] == typ;
      assert DecodeNames(p, flags, len - off, buf.Length - off) == Fields(Rec(flags, typ, [], []));
    }
  }

  /** The second half of the loop body: the payload, then its length. */
  method WritePayload(text: string, flags: byte, buf: array<byte>, off: nat, at: nat, len: nat, ghost names: Rec)
    returns (r: BuildResult)
    requires names.flags == flags && names.payload == []
    requires at <= buf.Length && len <= buf.Length < SIZE_MODULUS && at == off + |RecordBytes(names)|
    requires Holds(buf[..], off + HeaderLen(flags), names.typ + names.id) && NamesInHeader(buf[..], off, names)
    modifies buf
    ensures var f := DecodeField(text, len - at, buf.Length - at);
      if f.Got? && (|f.bytes| <= 255 || !HasBit(flags, SR))
      then r == Offset(at + |f.bytes|) && Holds(buf[..], off, RecordBytes(names.(payload := f.bytes)))
      else r == if f.Got? || f.Bad? then Failure else if f.Full? then AssertionFailed else PastBuffer
    ensures forall i :: 0 <= i < off ==> buf[i] == old(buf[i])
  {
    hide DecodeField, CreateSpan, PayloadLenField, Header, RecordBytes, HasBit, HeaderLen;
    r := PutField(text, buf, at, len, off + HeaderLen(flags), names.typ + names.id);
    if !r.Offset? {
      return;
    } else if r.n - at > 255 && HasBit(flags, SR) {
      return Failure;
    }
    FinishRecord(buf, off, flags, r.n - at, names.(payload := DecodeField(text, len - at, buf.Length - at).bytes));
  }

  /** The loop body of `build_ndef_msg`. */
  method WriteRecord(p: RecordParam, flags: byte, buf: array<byte>, off: nat, len: nat) returns (r: BuildResult)
    requires off + CreateSpan(flags) <= buf.Length && len <= buf.Length < SIZE_MODULUS
    modifies buf
    ensures WritesRecord(DecodeRecord(p, flags, len - off, buf.Length - off), r, buf[..], off)
    ensures forall i :: 0 <= i < off ==> buf[i] == old(buf[i])
  {
    hide DecodeField, DecodeNames, CreateSpan, PayloadLenField, Header, RecordBytes, HasBit, HeaderLen;
    r := WriteNames(p, flags, buf, off, len);
    if r.Offset? {
      r := WritePayload(p.payload, flags, buf, off, r.n, len, DecodeNames(p, flags, len - off, buf.Length - off).rec);
    }
  }

  /** With the records `done` written, the build that ends as `o` goes on at number `i` and offset `off`. */
  ghost predicate Building(o: Build, recs: seq<RecordParam>, i: nat, off: nat, len: nat, size: nat, done: seq<Rec>)
  {
    && i <= |recs| && off == |Serialize(done)| <= size && len <= size < SIZE_MODULUS
    && o == Prepend(done, BuildFrom(recs, i, off, len, size))
  }

  lemma BuildingStep(o: Build, recs: seq<RecordParam>, i: nat, off: nat, len: nat, size: nat, done: seq<Rec>)
    requires Building(o, recs, i, off, len, size, done) && i < |recs|
    ensures off == |Serialize(done)| <= size && len <= size < SIZE_MODULUS
    ensures var b := FlagByte(FlagsAt(recs, i), recs[i].tnf);
      if off + CreateSpan(b) > size then o == Overrun
      else
        match DecodeRecord(recs[i], b, len - off, size - off)
        case PastEnd => o == Overrun
        case BadRecord => o == Rejected
        case NoSpace => o == Stopped
        case Fields(r) =>
          && Serialize(done + [r]) == Serialize(done) + RecordBytes(r)
          && Building(o, recs, i + 1, off + |RecordBytes(r)|, len, size, done + [r])
  {
    hide DecodeRecord, CreateSpan, RecordBytes, BuildFrom, FlagByte, FlagsAt, HasBit, Serialize;
    BuildStep(recs, i, off, len, size);
    var b := FlagByte(FlagsAt(recs, i), recs[i].tnf);
    var d := DecodeRecord(recs[i], b, len - off, size - off);
    if off + CreateSpan(b) <= size && d.Fields? {
      SerializeAppend(done, d.rec);
      PrependAppend(done, d.rec, BuildFrom(recs, i + 1, off + |RecordBytes(d.rec)|, len, size));
    }
  }

  lemma BuildingEnd(o: Build, recs: seq<RecordParam>, off: nat, len: nat, size: nat, done: seq<Rec>)
    requires Building(o, recs, |recs|, off, len, size, done)
    ensures o == Built(done) && off == |Serialize(done)|
  {
    assert done + [] == done;
  }

  ghost predicate BuildsTo(b: Build, r: BuildResult, buf: seq<byte>, base: nat)
  {
    match b
    case Built(rs) => r == Offset(|Serialize(rs)|) && Holds(buf, base, Serialize(rs))
    case Rejected => r == Failure
    case Stopped => r == AssertionFailed
    case Overrun => r == PastBuffer
  }

  /** `build_ndef_msg(recs, |recs|, buf + base, len)` */
  method BuildNdefMsg(recs: seq<RecordParam>, buf: array<byte>, base: nat, len: nat) returns (r: BuildResult)
    requires base + len <= buf.Length < SIZE_MODULUS
    modifies buf
    ensures BuildsTo(BuildFrom(recs, 0, 0, len, buf.Length - base), r, buf[..], base)
    ensures buf[..base] == old(buf[..base])
  {
    ghost var o := BuildFrom(recs, 0, 0, len, buf.Length - base);
    assert Building(o, recs, 0, 0, len, buf.Length - base, []);
    assert Serialize([]) == [];
    r := BuildLoop(recs, buf, base, len, o);
  }

  /** The loop of `build_ndef_msg`; `o` is the outcome the records lead to. */
  method BuildLoop(recs: seq<RecordParam>, buf: array<byte>, base: nat, len: nat, ghost o: Build)
    returns (r: BuildResult)
    requires base + len <= buf.Length < SIZE_MODULUS
    requires Building(o, recs, 0, 0, len, buf.Length - base, []) && Serialize([]) == []
    modifies buf
    ensures BuildsTo(o, r, buf[..], base)
    ensures buf[..base] == old(buf[..base])
  {
    hide DecodeRecord, CreateSpan, RecordBytes, BuildFrom, FlagByte, FlagsAt, HasBit, Serialize, Building;
    var off: nat, size: nat := 0, buf.Length - base;
    ghost var done: seq<Rec> := [];
    for i := 0 to |recs|
      invariant Building(o, recs, i, off, len, size, done)
      invariant Holds(buf[..], base, Serialize(done))
      invariant buf[..base] == old(buf[..base])
    {
      var flags := FlagByte(FlagsAt(recs, i), recs[i].tnf);
      BuildingStep(o, recs, i, off, len, size, done);
      if off + CreateSpan(flags) > size {
        return PastBuffer;
      }
      r := WriteNext(recs[i], flags, buf, base, off, len, Serialize(done));
      if !r.Offset? {
        return;
      }
      done := done + [DecodeRecord(recs[i], flags, len - off, size - off).rec];
      off := r.n;
    }
    BuildingEnd(o, recs, off, len, size, done);
    r := Offset(off);
  }

  /** Adds a record behind those already in the buffer. */
  method WriteNext(p: RecordParam, flags: byte, buf: array<byte>, base: nat, off: nat, len: nat, ghost text: seq<byte>)
    returns (r: BuildResult)
    requires base + len <= buf.Length < SIZE_MODULUS && base + off + CreateSpan(flags) <= buf.Length
    requires |text| == off && Holds(buf[..], base, text)
    modifies buf
    ensures match DecodeRecord(p, flags, len - off, buf.Length - base - off)
      case BadRecord => r == Failure
      case NoSpace => r == AssertionFailed
      case PastEnd => r == PastBuffer
      case Fields(rec) => r == Offset(off + |RecordBytes(rec)|) && Holds(buf[..], base, text + RecordBytes(rec))
    ensures buf[..base] == old(buf[..base])
  {
    hide DecodeRecord, CreateSpan, RecordBytes, HasBit;
    ghost var was := buf[..];
    r := WriteRecord(p, flags, buf, base + off, base + len);
    if r.Offset? {
      HoldsKept(was, buf[..], base, text);
      HoldsConcat(buf[..], base, text, RecordBytes(DecodeRecord(p, flags, len - off, buf.Length - base - off).rec));
      r := Offset(r.n - base);
    }
  }

  lemma BuildEnd(recs: seq<RecordParam>, off: nat, len: nat, size: nat)
    requires off <= size && len <= size < SIZE_MODULUS
    ensures BuildFrom(recs, |recs|, off, len, size) == Built([])
  {
  }

  lemma BuildStep(recs: seq<RecordParam>, i: nat, off: nat, len: nat, size: nat)
    requires i < |recs| && off <= size && len <= size < SIZE_MODULUS
    ensures var flags := FlagByte(FlagsAt(recs, i), recs[i].tnf);
      BuildFrom(recs, i, off, len, size) ==
        if off + CreateSpan(flags) > size then Overrun
        else
          match DecodeRecord(recs[i], flags, len - off, size - off)
          case PastEnd => Overrun
          case BadRecord => Rejected
          case NoSpace => Stopped
          case Fields(r) => Prepend([r], BuildFrom(recs, i + 1, off + |RecordBytes(r)|, len, size))
  {
  }

  lemma PrependAppend(done: seq<Rec>, r: Rec, b: Build)
    ensures Prepend(done, Prepend([r], b)) == Prepend(done + [r], b)
  {
    if b.Built? {
      assert done + ([r] + b.recs) == done + [r] + b.recs;
    }
  }

  lemma {:induction false} SerializeAppend(rs: seq<Rec>, r: Rec)
    ensures Serialize(rs + [r]) == Serialize(rs) + RecordBytes(r)
  {
    if rs == [] {
      assert [] + [r] == [r] && [r][1..] == [];
      assert Serialize([r]) == RecordBytes(r) + Serialize([]);
    } else {
      assert (rs + [r])[1..] == rs[1..] + [r];
      SerializeAppend(rs[1..], r);
    }
  }
}
