/** The record walker of src/cmdline.c, and what it sees of a message built by the same file. */
module NdefWalk {
  import opened Bytes
  import opened Base64
  import opened Ndef

  /** What is printed of one record; type, id and payload as base64 text. */
  datatype View = View(tnf: int, typ: string, id: string, payload: string)

  /**
   * `Short` is the error return, `TextTooLong` a failed assertion in the base64 encoder. `Overread` stands for
   * a header or field that lies outside of the memory.
   */
  datatype Status = Done | Short | TextTooLong | Overread

  datatype WalkResult = WalkResult(status: Status, views: seq<View>)

  /** The size of each of the walker's text buffers. */
  const TEXT_SIZE := 512

  predicate FitsText(n: nat)
  {
    4 * Quanta(n) <= TEXT_SIZE
  }

  /** The record at the start of `m` lies in `m`. */
  predicate Readable(m: seq<byte>)
  {
    |m| >= 2 && |m| >= HeaderLen(m[0]) && |m| >= RecLen(m)
  }

  function TypeView(m: seq<byte>): seq<byte>
    requires Readable(m)
  {
    ViewsTileRecord(m);
    m[TypeStart(m)..TypeStart(m) + m[1]]
  }

  function PayloadView(m: seq<byte>): seq<byte>
    requires Readable(m)
  {
    ViewsTileRecord(m);
    m[PayloadStart(m)..PayloadStart(m) + PayloadLen(m)]
  }

  function IdView(m: seq<byte>): seq<byte>
    requires Readable(m)
  {
    ViewsTileRecord(m);
    m[IdStart(m)..IdStart(m) + IdLen(m)]
  }

  function ViewOf(m: seq<byte>): View
    requires Readable(m)
  {
    View(m[0] % 8, Encode(TypeView(m)), Encode(IdView(m)), Encode(PayloadView(m)))
  }

  predicate TextsFit(m: seq<byte>)
    requires Readable(m)
  {
    FitsText(|TypeView(m)|) && FitsText(|IdView(m)|) && FitsText(|PayloadView(m)|)
  }

  /** The walk over `remain` bytes of the memory, starting at `off`. */
  function Walk(mem: seq<byte>, off: nat, remain: int): WalkResult
    requires off <= |mem|
    decreases remain
  {
    if remain == 0 then WalkResult(Done, [])
    else if remain < 1 then WalkResult(Short, [])
    else if !Readable(mem[off..]) then WalkResult(Overread, [])
    else if !TextsFit(mem[off..]) then WalkResult(TextTooLong, [])
    else
      var n := RecLen(mem[off..]);
      var rest := Walk(mem, off + n, remain - n);
      rest.(views := [ViewOf(mem[off..])] + rest.views)
  }

  /** The loop of `nfc_recv_process_ndef_cb`; `views` is what has been printed when it returns. */
  method WalkRecords(mem: seq<byte>, len: nat) returns (r: WalkResult)
    ensures r == Walk(mem, 0, len)
  {
    hide TextsFit, ViewOf;
    var type64, id64, payload64 := new char[TEXT_SIZE], new char[TEXT_SIZE], new char[TEXT_SIZE];
    var off: nat, remain: int, views := 0, len, [];
    while remain != 0
      invariant off <= |mem|
      invariant var rest := Walk(mem, off, remain); Walk(mem, 0, len) == rest.(views := views + rest.views)
      decreases remain
    {
      if remain < 1 {
        assert views + [] == views;
        return WalkResult(Short, views);
      }
      var ndef := mem[off..];
      if !Readable(ndef) {
        assert views + [] == views;
        return WalkResult(Overread, views);
      }
      if !TextsFit(ndef) {
        assert views + [] == views;
        return WalkResult(TextTooLong, views);
      }
      var view := PrintRecord(ndef, type64, id64, payload64);
      var reclen := RecLen(ndef);
      ghost var rest := Walk(mem, off + reclen, remain - reclen);
      assert views + ([view] + rest.views) == views + [view] + rest.views;
      views := views + [view];
      remain := remain - reclen;
      off := off + reclen;
    }
    assert views + [] == views;
    r := WalkResult(Done, views);
  }

  /** Encodes and prints the three fields of a record. */
  method PrintRecord(ndef: seq<byte>, type64: array<char>, id64: array<char>, payload64: array<char>)
    returns (view: View)
    requires Readable(ndef) && TextsFit(ndef)
    requires type64.Length == id64.Length == payload64.Length == TEXT_SIZE
    modifies type64, id64, payload64
    ensures view == ViewOf(ndef)
  {
    var tlen := EncodeBase64(TypeView(ndef), type64);
    var typ := type64[..tlen];
    var ilen := EncodeBase64(IdView(ndef), id64);
    var id := id64[..ilen];
    var plen := EncodeBase64(PayloadView(ndef), payload64);
    view := View(ndef[0] % 8, typ, id, payload64[..plen]);
  }

  // ----- Building, then walking -----

  /** Where the reader looks for the payload and the id: it takes the id and payload bytes in the other order. */
  function PayloadSeen(r: Rec): seq<byte>
  {
    (r.id + r.payload)[..|r.payload|]
  }

  function IdSeen(r: Rec): seq<byte>
  {
    (r.id + r.payload)[|r.payload|..]
  }

  function Seen(r: Rec): View
  {
    View(r.flags % 8, Encode(r.typ), Encode(IdSeen(r)), Encode(PayloadSeen(r)))
  }

  function AllSeen(rs: seq<Rec>): (views: seq<View>)
    ensures |views| == |rs|
  {
    if rs == [] then [] else [Seen(rs[0])] + AllSeen(rs[1..])
  }

  /** The reader reads back the lengths the setters stored. */
  lemma HeaderReadsBack(r: Rec, rest: seq<byte>)
    requires r.Consistent() && (HasBit(r.flags, SR) ==> |r.payload| < 256)
    ensures var m := RecordBytes(r) + rest;
      && |m| >= HeaderLen(r.flags) >= 3 && m[0] == r.flags && m[1] == |r.typ| % 256
      && PayloadLen(m) == |r.payload| % 256 && IdLen(m) == |r.id| % 256
  {
    var m := RecordBytes(r) + rest;
    var h := Header(r);
    assert m == h + (r.typ + r.id + r.payload + rest);
    assert forall i :: 0 <= i < |h| ==> m[i] == h[i];
    if !HasBit(r.flags, SR) {
      assert m[2..6] == h[2..6] == Be32(|r.payload| % 256);
      Be32RoundTrip(|r.payload| % 256);
    }
  }

  /** The reader finds the end of a record exactly when all three fields are shorter than 256 bytes. */
  lemma RecLenIff(r: Rec, rest: seq<byte>)
    requires r.Consistent() && (HasBit(r.flags, SR) ==> |r.payload| < 256)
    ensures var m := RecordBytes(r) + rest;
      |m| >= HeaderLen(m[0]) && (RecLen(m) == |RecordBytes(r)| <==> r.Describable())
  {
    HeaderReadsBack(r, rest);
    ShorterModulo(|r.typ|);
    ShorterModulo(|r.id|);
    ShorterModulo(|r.payload|);
  }

  lemma ShorterModulo(n: nat)
    ensures n % 256 <= n && (n % 256 == n <==> n < 256)
  {
  }

  lemma Slices(h: seq<byte>, t: seq<byte>, b: seq<byte>, p: nat, rest: seq<byte>)
    requires p <= |b|
    ensures var (m, n) := (h + t + b + rest, |h| + |t|);
      m[|h|..n] == t && m[n..n + p] == b[..p] && m[n + p..n + |b|] == b[p..]
  {
    var m, n := h + t + b + rest, |h| + |t|;
    Middle(h, t, b + rest);
    assert m == h + t + (b + rest);
    Middle(h + t, b[..p], b[p..] + rest);
    assert m == h + t + b[..p] + (b[p..] + rest);
    Middle(h + t + b[..p], b[p..], rest);
    assert m == h + t + b[..p] + b[p..] + rest;
  }

  lemma Middle(a: seq<byte>, s: seq<byte>, b: seq<byte>)
    ensures (a + s + b)[|a|..|a| + |s|] == s
  {
  }

  lemma RecordReadable(r: Rec, m: seq<byte>)
    requires r.Consistent() && r.Describable()
    requires RecordBytes(r) <= m
    ensures Readable(m) && m[0] == r.flags && m[1] == |r.typ| && RecLen(m) == |RecordBytes(r)|
    ensures PayloadLen(m) == |r.payload| && IdLen(m) == |r.id|
    ensures TypeStart(m) == |Header(r)|
  {
    hide Header, HasBit, Be32, RecordBytes;
    var rest := m[|RecordBytes(r)|..];
    assert m == RecordBytes(r) + rest;
    HeaderReadsBack(r, rest);
    RecLenIff(r, rest);
    ViewsTileRecord(m);
  }

  /** What the reader sees of one record: the type as written, then id and payload swapped. */
  lemma RecordSeen(r: Rec, rest: seq<byte>)
    requires r.Consistent() && r.Describable()
    ensures var m := RecordBytes(r) + rest;
      && Readable(m) && TextsFit(m) && RecLen(m) == |RecordBytes(r)|
      && TypeView(m) == r.typ && PayloadView(m) == PayloadSeen(r) && IdView(m) == IdSeen(r) && ViewOf(m) == Seen(r)
  {
    hide Header, Encode, HasBit, RecLen, HeaderLen, TypeOff, PayloadLen, IdLen, Readable, TypeStart;
    var m := RecordBytes(r) + rest;
    RecordReadable(r, m);
    Slices(Header(r), r.typ, r.id + r.payload, |r.payload|, rest);
    assert m == Header(r) + r.typ + (r.id + r.payload) + rest;
  }

  /** Payload and id are both seen as written exactly when their two orders make the same bytes. */
  lemma FieldsRecoveredIff(r: Rec)
    ensures PayloadSeen(r) == r.payload && IdSeen(r) == r.id <==> r.id + r.payload == r.payload + r.id
    ensures PayloadSeen(r) + IdSeen(r) == r.id + r.payload
    ensures r.id == [] ==> PayloadSeen(r) == r.payload && IdSeen(r) == []
  {
    var s := r.id + r.payload;
    assert s == s[..|r.payload|] + s[|r.payload|..];
    assert r.id + r.payload == r.payload + r.id ==>
        (r.payload + r.id)[..|r.payload|] == r.payload && (r.payload + r.id)[|r.payload|..] == r.id;
  }

  /** When id and payload have the same length, each is shown in the place of the other. */
  lemma SwapIsSeen(r: Rec)
    requires |r.id| == |r.payload|
    ensures PayloadSeen(r) == r.id && IdSeen(r) == r.payload
  {
  }

  /** A record of which neither id nor payload is recovered. */
  lemma SwappedRecord()
    ensures var r := Rec(IL + SR, [], [1], [2]);
      r.Consistent() && r.Describable() && PayloadSeen(r) == [1] && IdSeen(r) == [2]
  {
    SwapIsSeen(Rec(IL + SR, [], [1], [2]));
  }

  /** One step of the walk, at a record that starts with `r`. */
  lemma WalkStep(mem: seq<byte>, off: nat, remain: int, r: Rec, tail: seq<byte>)
    requires off <= |mem| && mem[off..] == RecordBytes(r) + tail && remain > 0
    requires r.Consistent() && r.Describable()
    ensures off + |RecordBytes(r)| <= |mem|
    ensures var rest := Walk(mem, off + |RecordBytes(r)|, remain - |RecordBytes(r)|);
      Walk(mem, off, remain) == rest.(views := [Seen(r)] + rest.views)
  {
    hide Readable, TextsFit, ViewOf, RecLen, RecordBytes, Seen;
    RecordSeen(r, tail);
  }

  lemma WalkCons(r: Rec, s: seq<byte>, views: seq<View>, pre: seq<byte>, post: seq<byte>)
    requires r.Consistent() && r.Describable()
    requires Walk(pre + RecordBytes(r) + s + post, |pre| + |RecordBytes(r)|, |s|) == WalkResult(Done, views)
    ensures Walk(pre + (RecordBytes(r) + s) + post, |pre|, |RecordBytes(r) + s|) == WalkResult(Done, [Seen(r)] + views)
  {
    hide Walk, RecordBytes, Seen;
    var mem := pre + (RecordBytes(r) + s) + post;
    assert mem == pre + RecordBytes(r) + s + post;
    assert mem[|pre|..] == RecordBytes(r) + (s + post);
    WalkStep(mem, |pre|, |RecordBytes(r) + s|, r, s + post);
  }

  lemma WalkNothing(mem: seq<byte>, off: nat)
    requires off <= |mem|
    ensures Walk(mem, off, 0) == WalkResult(Done, [])
  {
  }

  /** Walking a serialised message, anywhere in memory, visits every record once and ends exactly at its end. */
  lemma {:induction false} WalkSerialized(rs: seq<Rec>, pre: seq<byte>, post: seq<byte>)
    requires forall k :: 0 <= k < |rs| ==> rs[k].Consistent() && rs[k].Describable()
    ensures Walk(pre + Serialize(rs) + post, |pre|, |Serialize(rs)|) == WalkResult(Done, AllSeen(rs))
  {
    hide RecordBytes, Seen, Walk;
    if rs == [] {
      WalkNothing(pre + [] + post, |pre|);
    } else {
      WalkSerialized(rs[1..], pre + RecordBytes(rs[0]), post);
      WalkCons(rs[0], Serialize(rs[1..]), AllSeen(rs[1..]), pre, post);
    }
  }

  /** The flag bits on the records of a built message: MB and ME are added to the ends, IL to records with an id. */
  lemma {:induction false} BuiltFlags(recs: seq<RecordParam>, i: nat, off: nat, len: nat, size: nat, k: nat)
    requires i <= |recs| && off <= size && len <= size < SIZE_MODULUS
    requires BuildFrom(recs, i, off, len, size).Built? && i + k < |recs|
    ensures var b := BuildFrom(recs, i, off, len, size).recs[k].flags;
      && (HasBit(b, MB) <==> recs[i + k].flags.mb || i + k == 0)
      && (HasBit(b, ME) <==> recs[i + k].flags.me || i + k + 1 == |recs|)
      && (HasBit(b, IL) <==> recs[i + k].flags.il || recs[i + k].id != [])
      && (HasBit(b, SR) <==> recs[i + k].flags.sr)
      && (HasBit(b, CF) <==> recs[i + k].flags.cf)
      && b % 8 == recs[i + k].tnf
    decreases k
  {
    hide DecodeRecord, FlagByte, RecordBytes, CreateSpan, BuildFrom, HasBit;
    BuildStep(recs, i, off, len, size);
    var flags := FlagByte(FlagsAt(recs, i), recs[i].tnf);
    var r := DecodeRecord(recs[i], flags, len - off, size - off).rec;
    FlagByteBits(FlagsAt(recs, i), recs[i].tnf);
    if k > 0 {
      BuiltFlags(recs, i + 1, off + |RecordBytes(r)|, len, size, k - 1);
    }
  }

  /** Standard base64 text of `x` became the field `bytes`. */
  ghost predicate StandsFor(text: string, bytes: seq<byte>)
  {
    forall x :: text == RfcEncode(x) ==> bytes == x
  }

  /** Every record of the message holds what its texts stand for. */
  ghost predicate MadeFrom(p: RecordParam, r: Rec)
  {
    StandsFor(p.typ, r.typ) && StandsFor(p.payload, r.payload) && (p.id != [] ==> StandsFor(p.id, r.id))
  }

  lemma TextDecoded(text: string, room: int, space: nat)
    requires room <= space < SIZE_MODULUS && DecodeField(text, room, space).Got?
    ensures StandsFor(text, DecodeField(text, room, space).bytes)
  {
    hide Decode, RfcEncode;
    forall x | text == RfcEncode(x)
      ensures DecodeField(text, room, space).bytes == x
    {
      DecodedIsOriginal(x, room % SIZE_MODULUS);
    }
  }

  lemma RecordMadeFrom(p: RecordParam, flags: byte, room: int, space: nat)
    requires room <= space < SIZE_MODULUS && DecodeRecord(p, flags, room, space).Fields?
    requires p.id != [] ==> HasBit(flags, IL)
    ensures MadeFrom(p, DecodeRecord(p, flags, room, space).rec)
  {
    hide DecodeField, StandsFor, HasBit;
    var h, r := HeaderLen(flags), DecodeRecord(p, flags, room, space).rec;
    TextDecoded(p.typ, room - h, space - h);
    if HasBit(flags, IL) {
      TextDecoded(p.id, room - h - |r.typ|, space - h - |r.typ|);
    }
    var n := |RecordBytes(DecodeNames(p, flags, room, space).rec)|;
    TextDecoded(p.payload, room - n, space - n);
  }

  lemma {:induction false} BuiltFields(recs: seq<RecordParam>, i: nat, off: nat, len: nat, size: nat, k: nat)
    requires i <= |recs| && off <= size && len <= size < SIZE_MODULUS
    requires BuildFrom(recs, i, off, len, size).Built? && i + k < |recs|
    ensures MadeFrom(recs[i + k], BuildFrom(recs, i, off, len, size).recs[k])
    decreases k
  {
    hide DecodeRecord, FlagByte, RecordBytes, CreateSpan, BuildFrom, HasBit, MadeFrom;
    BuildStep(recs, i, off, len, size);
    var flags := FlagByte(FlagsAt(recs, i), recs[i].tnf);
    var r := DecodeRecord(recs[i], flags, len - off, size - off).rec;
    FlagByteBits(FlagsAt(recs, i), recs[i].tnf);
    RecordMadeFrom(recs[i], flags, len - off, size - off);
    if k > 0 {
      BuiltFields(recs, i + 1, off + |RecordBytes(r)|, len, size, k - 1);
    }
  }

  /** A message that fits into 255 bytes has only fields the header can describe. */
  lemma {:induction false} SmallMessageDescribable(rs: seq<Rec>)
    requires |Serialize(rs)| < 256
    ensures forall k :: 0 <= k < |rs| ==> rs[k].Describable()
  {
    if rs != [] {
      SmallMessageDescribable(rs[1..]);
      assert forall k :: 0 < k < |rs| ==> rs[k] == rs[1..][k - 1];
    }
  }

  lemma {:induction false} AllSeenAt(rs: seq<Rec>, k: nat)
    requires k < |rs|
    ensures AllSeen(rs)[k] == Seen(rs[k])
  {
    if k > 0 {
      AllSeenAt(rs[1..], k - 1);
    }
  }

  /**
   * Building, then walking: if every field is shorter than 256 bytes and the user set neither MB nor ME, the walk
   * over the built message, anywhere in memory, ends exactly at its end and shows one record for each given one, made
   * from its texts, with MB on the first only and ME on the last only.
   */
  lemma BuildThenWalk(recs: seq<RecordParam>, rs: seq<Rec>, len: nat, size: nat, pre: seq<byte>, post: seq<byte>)
    requires len <= size < SIZE_MODULUS && BuildFrom(recs, 0, 0, len, size) == Built(rs)
    requires forall k :: 0 <= k < |rs| ==> rs[k].Describable()
    requires forall k :: 0 <= k < |recs| ==> !recs[k].flags.mb && !recs[k].flags.me
    ensures Walk(pre + Serialize(rs) + post, |pre|, |Serialize(rs)|) == WalkResult(Done, AllSeen(rs))
    ensures |AllSeen(rs)| == |rs| == |recs|
    ensures forall k :: 0 <= k < |recs| ==> AllSeen(rs)[k] == Seen(rs[k]) && MadeFrom(recs[k], rs[k])
    ensures forall k :: 0 <= k < |recs| ==>
      (HasBit(rs[k].flags, MB) <==> k == 0) && (HasBit(rs[k].flags, ME) <==> k + 1 == |recs|)
  {
    hide Walk, Serialize, Seen, AllSeen, MadeFrom, HasBit, BuildFrom;
    WalkSerialized(rs, pre, post);
    forall k | 0 <= k < |recs|
      ensures AllSeen(rs)[k] == Seen(rs[k]) && MadeFrom(recs[k], rs[k])
      ensures (HasBit(rs[k].flags, MB) <==> k == 0) && (HasBit(rs[k].flags, ME) <==> k + 1 == |recs|)
    {
      AllSeenAt(rs, k);
      BuiltFields(recs, 0, 0, len, size, k);
      BuiltFlags(recs, 0, 0, len, size, k);
    }
  }
}
