/** When a message is built and what its bytes are, told from the user's texts and flags. */
module NdefBuild {
  import opened Bytes
  import opened Base64
  import opened Ndef
  import opened NdefWalk

  // ----- When a build succeeds -----

  /** Digits, and then nothing or a padding character. */
  predicate TextOk(text: string)
  {
    DigitRun(text) == |text| || text[DigitRun(text)] == '='
  }

  /**
   * A text can be decoded: what decoding touches stays in the `room` that is left of the budget, or behind the budget,
   * in the `space` that is left of the buffer.
   */
  predicate TextFits(text: string, room: int, space: int)
  {
    && TextOk(text)
    && (if room < 0 then Touched(DigitRun(text)) <= space
        else Touched(DigitRun(text)) <= room && (0 < room || text == ""))
  }

  /** The size of the header: three more bytes for a long record, one more for the length of an id. */
  function HeaderSize(p: RecordParam): nat
  {
    3 + (if p.flags.sr then 0 else 3) + (if HasId(p) then 1 else 0)
  }

  predicate HasId(p: RecordParam)
  {
    p.flags.il || p.id != ""
  }

  /** The size of header, type and id, and of the record. */
  function NamesLen(p: RecordParam): nat
  {
    HeaderSize(p) + DecodedLen(p.typ) + if HasId(p) then DecodedLen(p.id) else 0
  }

  function RecordLen(p: RecordParam): nat
  {
    NamesLen(p) + DecodedLen(p.payload)
  }

  predicate NamesFit(p: RecordParam, room: int, space: int)
  {
    var h, n := HeaderSize(p), HeaderSize(p) + DecodedLen(p.typ);
    TextFits(p.typ, room - h, space - h) && (HasId(p) ==> TextFits(p.id, room - n, space - n))
  }

  predicate PayloadFits(p: RecordParam, room: int, space: int)
  {
    TextFits(p.payload, room - NamesLen(p), space - NamesLen(p)) && (p.flags.sr ==> DecodedLen(p.payload) <= 255)
  }

  /** Header, in the layout of a long record, and texts fit, and a short record has a short payload. */
  predicate RecordFits(p: RecordParam, room: int, space: int)
  {
    6 + (if HasId(p) then 1 else 0) <= space && NamesFit(p, room, space) && PayloadFits(p, room, space)
  }

  predicate MessageFits(recs: seq<RecordParam>, i: nat, off: nat, len: nat, size: nat)
    requires i <= |recs|
    decreases |recs| - i
  {
    i == |recs| || (RecordFits(recs[i], len - off, size - off) && MessageFits(recs, i + 1, off + RecordLen(recs[i]), len, size))
  }

  lemma FieldGotIff(text: string, room: int, space: nat)
    requires -0x1_0000_0000 <= room <= space < 0x1_0000_0000
    ensures DecodeField(text, room, space).Got? <==> TextFits(text, room, space)
  {
    if room < 0 {
      assert room % SIZE_MODULUS == SIZE_MODULUS + room;
    } else {
      assert room % SIZE_MODULUS == room;
    }
  }

  /** The flags agree with what the user gave. */
  predicate FlagsAgree(p: RecordParam, flags: byte)
  {
    (HasBit(flags, SR) <==> p.flags.sr) && (HasBit(flags, IL) <==> HasId(p))
  }

  lemma HeaderAgrees(p: RecordParam, flags: byte)
    requires FlagsAgree(p, flags)
    ensures HeaderLen(flags) == HeaderSize(p) <= 7
    ensures (if CreateSpan(flags) < HeaderLen(flags) then HeaderLen(flags) else CreateSpan(flags))
         == 6 + if HasId(p) then 1 else 0
    ensures NamesSize(p, flags) == NamesLen(p) && RecordSize(p, flags) == RecordLen(p)
  {
    hide HasBit;
  }

  lemma TooLong(text: string, room: int, space: nat)
    requires room <= space && DecodedLen(text) > space
    ensures !TextFits(text, room, space)
  {
  }

  lemma NamesNeed(p: RecordParam, flags: byte, h: nat, n: nat, room: int, space: nat)
    requires room <= space < SIZE_MODULUS && h == HeaderLen(flags) <= space && n == h + DecodedLen(p.typ)
    ensures DecodeNames(p, flags, room, space).Fields? <==>
        && DecodeField(p.typ, room - h, space - h).Got?
        && (HasBit(flags, IL) ==> n <= space && DecodeField(p.id, room - n, space - n).Got?)
  {
    hide DecodeField, HeaderLen, HasBit, RecordBytes, NamesSize;
  }

  lemma NamesGotIff(p: RecordParam, flags: byte, room: int, space: nat)
    requires FlagsAgree(p, flags) && HeaderLen(flags) <= space
    requires -0x1000_0000 <= room <= space < 0x1000_0000
    ensures DecodeNames(p, flags, room, space).Fields? <==> NamesFit(p, room, space)
  {
    HeaderAgrees(p, flags);
    assert HasBit(flags, IL) <==> HasId(p);
    var h := HeaderSize(p);
    var n := h + DecodedLen(p.typ);
    NamesNeed(p, flags, h, n, room, space);
    NamesFitMeans(p, h, n, room, space);
    hide DecodeField, DecodeNames, TextFits, HeaderLen, HeaderSize, HasBit, DecodedLen, HasId, FlagsAgree, NamesFit;
    FieldGotIff(p.typ, room - h, space - h);
    if n <= space {
      FieldGotIff(p.id, room - n, space - n);
    } else {
      TooLong(p.typ, room - h, space - h);
    }
  }

  lemma NamesFitMeans(p: RecordParam, h: nat, n: nat, room: int, space: int)
    requires h == HeaderSize(p) && n == h + DecodedLen(p.typ)
    ensures NamesFit(p, room, space)
       <==> TextFits(p.typ, room - h, space - h) && (HasId(p) ==> TextFits(p.id, room - n, space - n))
  {
  }

  lemma PayloadGotIff(p: RecordParam, flags: byte, room: int, space: nat)
    requires FlagsAgree(p, flags) && -0x1000_0000 <= room <= space < 0x1000_0000
    requires DecodeNames(p, flags, room, space).Fields?
    ensures DecodeRecord(p, flags, room, space).Fields? <==> PayloadFits(p, room, space)
  {
    HeaderAgrees(p, flags);
    hide DecodeField, DecodeNames, TextFits, RecordBytes, NamesLen, HasBit, NamesSize, HasId;
    FieldGotIff(p.payload, room - NamesLen(p), space - NamesLen(p));
  }

  lemma HeaderNeeded(p: RecordParam, flags: byte, room: int, space: nat)
    requires room <= space < SIZE_MODULUS
    ensures DecodeNames(p, flags, room, space).Fields? ==> HeaderLen(flags) <= space
    ensures DecodeRecord(p, flags, room, space).Fields? ==> DecodeNames(p, flags, room, space).Fields?
  {
    hide DecodeField;
  }

  lemma RecordGotIff(p: RecordParam, flags: byte, room: int, space: nat)
    requires FlagsAgree(p, flags) && -0x1000_0000 <= room <= space < 0x1000_0000
    ensures CreateSpan(flags) <= space && DecodeRecord(p, flags, room, space).Fields? <==> RecordFits(p, room, space)
  {
    HeaderAgrees(p, flags);
    HeaderNeeded(p, flags, room, space);
    hide DecodeRecord, DecodeNames, CreateSpan, HeaderLen, HasBit, FlagsAgree, NamesFit, PayloadFits, HasId;
    if HeaderLen(flags) <= space {
      NamesGotIff(p, flags, room, space);
      if DecodeNames(p, flags, room, space).Fields? {
        PayloadGotIff(p, flags, room, space);
      }
    }
  }

  lemma FlagsAtAgree(recs: seq<RecordParam>, i: nat)
    requires i < |recs|
    ensures FlagsAgree(recs[i], FlagByte(FlagsAt(recs, i), recs[i].tnf))
  {
    FlagByteBits(FlagsAt(recs, i), recs[i].tnf);
    hide FlagByte, HasBit;
  }

  /** A message is built exactly when its texts and flags fit. */
  lemma {:induction false} BuiltIff(recs: seq<RecordParam>, i: nat, off: nat, len: nat, size: nat)
    requires i <= |recs| && off <= size && len <= size < 0x1000_0000
    ensures BuildFrom(recs, i, off, len, size).Built? <==> MessageFits(recs, i, off, len, size)
    decreases |recs| - i
  {
    hide DecodeRecord, FlagByte, FlagsAt, RecordBytes, CreateSpan, BuildFrom, RecordFits, RecordLen, RecordSize, FlagsAgree;
    if i == |recs| {
      BuildEnd(recs, off, len, size);
    } else {
      var flags := FlagByte(FlagsAt(recs, i), recs[i].tnf);
      BuildStep(recs, i, off, len, size);
      FlagsAtAgree(recs, i);
      RecordGotIff(recs[i], flags, len - off, size - off);
      HeaderAgrees(recs[i], flags);
      if RecordFits(recs[i], len - off, size - off) {
        BuiltIff(recs, i + 1, off + RecordLen(recs[i]), len, size);
      }
    }
  }

  // ----- What the bytes are -----

  /**
   * Section 3.2 of NFC Forum NDEF 1.0, with the order of id and payload that the code has: flags, length of the type,
   * length of the payload in one or four bytes, length of the id if there is one, type, id, payload.
   */
  lemma RecordLayout(r: Rec)
    requires r.Describable()
    ensures HasBit(r.flags, 16) && !HasBit(r.flags, 8) ==>
      RecordBytes(r) == [r.flags, |r.typ|, |r.payload|] + r.typ + r.id + r.payload
    ensures HasBit(r.flags, 16) && HasBit(r.flags, 8) ==>
      RecordBytes(r) == [r.flags, |r.typ|, |r.payload|, |r.id|] + r.typ + r.id + r.payload
    ensures !HasBit(r.flags, 16) && !HasBit(r.flags, 8) ==>
      RecordBytes(r) == [r.flags, |r.typ|, 0, 0, 0, |r.payload|] + r.typ + r.id + r.payload
    ensures !HasBit(r.flags, 16) && HasBit(r.flags, 8) ==>
      RecordBytes(r) == [r.flags, |r.typ|, 0, 0, 0, |r.payload|, |r.id|] + r.typ + r.id + r.payload
  {
    hide HasBit;
    assert Be32(|r.payload|) == [0, 0, 0, |r.payload|];
  }

  /** The header byte in bits: MB, ME, CF, SR, IL, and three bits for the type name format. */
  lemma HeaderByte(f: Flags, tnf: Tnf)
    ensures FlagByte(f, tnf) == (if f.mb then 0x80 else 0) + (if f.me then 0x40 else 0) + (if f.cf then 0x20 else 0)
                                + (if f.sr then 0x10 else 0) + (if f.il then 0x08 else 0) + tnf
    ensures MB == 0x80 && ME == 0x40 && CF == 0x20 && SR == 0x10 && IL == 0x08
  {
  }

  lemma FieldDecoded(x: seq<byte>, room: int, space: nat)
    requires -SIZE_MODULUS / 2 <= room <= space < SIZE_MODULUS / 2
    requires Touched(|Groups(x)|) <= if 0 <= room then room else space
    ensures DecodeField(RfcEncode(x), room, space) == Got(x)
  {
    hide Decode, RfcEncode, Groups, Digits, Padding, Touched;
    StandardRoundTrip(x, room % SIZE_MODULUS);
    assert Touched(DigitRun(RfcEncode(x))) == Touched(|Groups(x)|) by {
      RfcDigits(x);
    }
  }

  lemma RfcDigits(x: seq<byte>)
    ensures DigitRun(RfcEncode(x)) == |Groups(x)|
  {
    hide Digits, Groups, Values;
    DigitsAreDigits(Groups(x), Padding(|Groups(x)|));
  }

  /** Decoding touches one byte more than it makes, unless the text has no padding. */
  lemma TouchedBy(x: seq<byte>)
    ensures Touched(|Groups(x)|) == if |x| % 3 == 0 then |x| else |x| + 1
  {
    SextetCount(Bits(x));
    SizeOfQuads(|x| / 3, |x| % 3);
  }

  lemma SizeOfQuads(q: nat, r: nat)
    requires r < 3
    ensures (8 * (3 * q + r) + 5) / 6 == 4 * q + if r == 0 then 0 else r + 1
    ensures Touched(4 * q + if r == 0 then 0 else r + 1) == 3 * q + if r == 0 then 0 else r + 1
  {
    assert 8 * (3 * q + r) + 5 == 6 * (4 * q) + (8 * r + 5);
  }

  lemma {:induction false} SextetCount(s: seq<bit>)
    ensures |Sextets(s)| == (|s| + 5) / 6
  {
    if |s| > 6 {
      SextetCount(s[6..]);
    }
  }

  /** A message of one record without id, with standard texts. */
  function OneRecord(short: bool, tnf: Tnf, t: seq<byte>, x: seq<byte>): seq<RecordParam>
  {
    [RecordParam(Flags(false, false, false, short, false), tnf, RfcEncode(t), "", RfcEncode(x))]
  }

  lemma OneFlags(short: bool, tnf: Tnf, t: seq<byte>, x: seq<byte>)
    ensures FlagByte(FlagsAt(OneRecord(short, tnf, t, x), 0), tnf) == (if short then 0xD0 else 0xC0) + tnf
  {
  }

  lemma PlainFlags(p: RecordParam, flags: byte)
    requires FlagsAgree(p, flags) && !p.flags.il && p.id == ""
    ensures !HasBit(flags, IL) && (HasBit(flags, SR) <==> p.flags.sr) && HeaderLen(flags) <= 6
  {
  }

  /** If there is room for it, one record is built as it was given; a short one only with at most 255 payload bytes. */
  lemma OneRecordBuilt(short: bool, tnf: Tnf, t: seq<byte>, x: seq<byte>, len: nat)
    requires 8 + |t| + |x| <= len < 0x1_0000
    ensures BuildFrom(OneRecord(short, tnf, t, x), 0, 0, len, len) ==
      if short && |x| > 255 then Rejected else Built([Rec((if short then 0xD0 else 0xC0) + tnf, t, [], x)])
  {
    hide Groups, RfcEncode, DecodeRecord, BuildFrom, HasBit, FlagByte, FlagsAt, Touched, DecodeField, HeaderLen, RecordBytes,
      CreateSpan;
    var recs, flags := OneRecord(short, tnf, t, x), (if short then 0xD0 else 0xC0) + tnf;
    OneFlags(short, tnf, t, x);
    FlagsAtAgree(recs, 0);
    HeaderAgrees(recs[0], flags);
    BuildStep(recs, 0, 0, len, len);
    TouchedBy(t);
    TouchedBy(x);
    assert !HasBit(flags, IL) && (HasBit(flags, SR) <==> short) && HeaderLen(flags) <= 6 by {
      PlainFlags(recs[0], flags);
    }
    PlainRecord(recs[0], flags, t, x, len, len);
    if !(short && |x| > 255) {
      var r := Rec(flags, t, [], x);
      assert |RecordBytes(r)| <= len;
      BuildEnd(recs, |RecordBytes(r)|, len, len);
      assert [r] + [] == [r];
    }
  }

  /** A record without id and with standard texts that fit is decoded to the bytes they stand for. */
  lemma PlainRecord(p: RecordParam, flags: byte, t: seq<byte>, x: seq<byte>, room: int, space: nat)
    requires p.typ == RfcEncode(t) && p.payload == RfcEncode(x)
    requires !HasBit(flags, IL) && -0x1_0000 <= room <= space < 0x1_0000
    requires var h := HeaderLen(flags);
      && h + Touched(|Groups(t)|) <= space && h + |t| + Touched(|Groups(x)|) <= space
      && (h <= room ==> h + Touched(|Groups(t)|) <= room && h + |t| + Touched(|Groups(x)|) <= room)
    ensures DecodeRecord(p, flags, room, space)
         == if |x| > 255 && HasBit(flags, SR) then BadRecord else Fields(Rec(flags, t, [], x))
    ensures |RecordBytes(Rec(flags, t, [], x))| == HeaderLen(flags) + |t| + |x|
  {
    hide Groups, RfcEncode, DecodeField, Touched, HeaderLen;
    var h := HeaderLen(flags);
    FieldDecoded(t, room - h, space - h);
    FieldDecoded(x, room - h - |t|, space - h - |t|);
  }

  /** The first example: a long record of eight bytes, and the same as a short one of five. */
  lemma LongAndShort()
    ensures Serialize([Rec(0xC1, [0x54], [], [0x00])]) == [0xC1, 0x01, 0x00, 0x00, 0x00, 0x01, 0x54, 0x00]
    ensures Serialize([Rec(0xD1, [0x54], [], [0x00])]) == [0xD1, 0x01, 0x01, 0x54, 0x00]
  {
    RecordLayout(Rec(0xC1, [0x54], [], [0x00]));
    RecordLayout(Rec(0xD1, [0x54], [], [0x00]));
  }

  // ----- Why a message is not built -----

  /** A text that is not base64 is refused; one that does not fit fails an assertion of the decoder. */
  lemma TypeRefused(recs: seq<RecordParam>, len: nat, size: nat)
    requires recs != [] && 7 <= size && len <= size < 0x1000_0000 && HeaderSize(recs[0]) < len
    ensures var room := len - HeaderSize(recs[0]);
      && (Touched(DigitRun(recs[0].typ)) > room ==> BuildFrom(recs, 0, 0, len, size) == Stopped)
      && (Touched(DigitRun(recs[0].typ)) <= room && !TextOk(recs[0].typ) ==> BuildFrom(recs, 0, 0, len, size) == Rejected)
  {
    hide BuildFrom, FlagByte, FlagsAt, HasBit, HeaderLen, HeaderSize, CreateSpan, FlagsAgree, DecodeRecord, TextOk, Touched;
    var flags := FlagByte(FlagsAt(recs, 0), recs[0].tnf);
    BuildStep(recs, 0, 0, len, size);
    FlagsAtAgree(recs, 0);
    HeaderAgrees(recs[0], flags);
    TypeDecides(recs[0], flags, len, size);
  }

  lemma TypeDecides(p: RecordParam, flags: byte, len: nat, size: nat)
    requires HeaderLen(flags) < len <= size < SIZE_MODULUS
    ensures Touched(DigitRun(p.typ)) > len - HeaderLen(flags) ==> DecodeRecord(p, flags, len, size) == NoSpace
    ensures Touched(DigitRun(p.typ)) <= len - HeaderLen(flags) && !TextOk(p.typ) ==>
      DecodeRecord(p, flags, len, size) == BadRecord
  {
    hide HeaderLen, HasBit, Touched;
    var room: nat := len - HeaderLen(flags);
    assert room % SIZE_MODULUS == room;
  }

  // ----- What is printed -----

  /**
   * A record without id that was made from standard texts is printed with the same texts, exactly if the encoder can
   * write them; its number is the user's type name format, and its id is empty.
   */
  lemma PrintedAsGiven(p: RecordParam, r: Rec, t: seq<byte>, x: seq<byte>)
    requires MadeFrom(p, r) && p.typ == RfcEncode(t) && p.payload == RfcEncode(x) && r.id == [] && r.flags % 8 == p.tnf
    ensures Seen(r).tnf == p.tnf && Seen(r).id == ""
    ensures Seen(r).typ == p.typ <==> TailBitsSet(t)
    ensures Seen(r).payload == p.payload <==> TailBitsSet(x)
  {
    hide RfcEncode, TailBitsSet, Groups;
    assert r.typ == t && r.payload == x;
    EncodeIsStandardIff(t);
    EncodeIsStandardIff(x);
    FieldsRecoveredIff(r);
    NothingEncoded();
  }

  lemma NothingEncoded()
    ensures Encode([]) == ""
  {
    EncodedSize([]);
  }

  /** A message that is cut off inside a record is printed up to this record, and then reported as too short. */
  lemma CutShort(r: Rec, tail: seq<byte>, n: nat)
    requires r.Consistent() && r.Describable() && 0 < n < |RecordBytes(r)|
    ensures Walk(RecordBytes(r) + tail, 0, n) == WalkResult(Short, [Seen(r)])
  {
    var mem := RecordBytes(r) + tail;
    assert mem[0..] == mem;
    hide RecordBytes, Seen;
    WalkStep(mem, 0, n, r, tail);
  }

  /** Texts of more than 384 bytes do not fit the walker's buffers, and fail an assertion before anything is printed. */
  lemma LongTextStops(mem: seq<byte>, n: nat)
    requires Readable(mem) && n > 0
    ensures |TypeView(mem)| > 384 || |IdView(mem)| > 384 || |PayloadView(mem)| > 384
       <==> Walk(mem, 0, n) == WalkResult(TextTooLong, [])
  {
    assert mem[0..] == mem;
    FitsTextIff(|TypeView(mem)|);
    FitsTextIff(|IdView(mem)|);
    FitsTextIff(|PayloadView(mem)|);
    hide Readable, TypeView, IdView, PayloadView, ViewOf, FitsText, RecLen;
  }

  lemma FitsTextIff(n: nat)
    ensures FitsText(n) <==> n <= 384
  {
  }
}
