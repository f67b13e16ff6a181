/**
 * A SNEP put from end to end: base64 fields, NDEF message, SNEP request, I PDU, and at the other side the receive
 * buffer and the record walker.
 */
module Delivery {
  import opened Bytes
  import opened Base64
  import opened Ndef
  import opened NdefWalk
  import opened NdefBuild
  import opened Llcp
  import opened Endpoint
  import opened EndpointProofs
  import opened EndpointRuns

  /** The budget of `create_i_pdu` for the whole PDU. */
  const BUDGET := 200

  /** What is left of the budget for the NDEF message. */
  const NDEF_ROOM := BUDGET - INFO_HEADER - SNEP_HEADER

  /** Where the NDEF message begins in the buffer of a PDU. */
  const NDEF_AT := INFO_HEADER + SNEP_HEADER

  /** The records of a put request that is created in a buffer of `size` bytes. */
  function BuildMessage(recs: seq<RecordParam>, size: nat): (b: Build)
    requires BUDGET <= size <= PDU_SIZE
    ensures b.Built? ==> |Serialize(b.recs)| <= size - NDEF_AT && |b.recs| == |recs|
    ensures b.Built? ==> forall i :: 0 <= i < |b.recs| ==> b.recs[i].Consistent()
  {
    BuildFrom(recs, 0, 0, NDEF_ROOM, size - NDEF_AT)
  }

  /** The put request with the built records. */
  function PutRequest(b: Build): seq<byte>
    requires b.Built? ==> |Serialize(b.recs)| <= PDU_SIZE
  {
    if b.Built? then SnepMessage(REQ_PUT, Serialize(b.recs)) else []
  }

  /** A creator ends as the build does; if all records are built, `text` stands at `at`. */
  ghost predicate Creates(b: Build, r: BuildResult, buf: seq<byte>, at: nat, text: seq<byte>)
  {
    match b
    case Built(_) => r == Offset(|text|) && Holds(buf, at, text)
    case Rejected => r == Failure
    case Stopped => r == AssertionFailed
    case Overrun => r == PastBuffer
  }

  /** `create_snep_cp`, with the message at `INFO_HEADER`: the NDEF message first, then the header before it. */
  method CreateSnepPut(recs: seq<RecordParam>, buf: array<byte>) returns (r: BuildResult)
    requires BUDGET <= buf.Length <= PDU_SIZE
    modifies buf
    ensures var b := BuildMessage(recs, buf.Length); Creates(b, r, buf[..], INFO_HEADER, PutRequest(b))
    ensures buf[..INFO_HEADER] == old(buf[..INFO_HEADER])
  {
    hide BuildFrom, Be32;
    ghost var b, was := BuildMessage(recs, buf.Length), buf[..];
    var at := NDEF_AT;
    r := BuildNdefMsg(recs, buf, at, NDEF_ROOM);
    assert buf[..INFO_HEADER] == buf[..at][..INFO_HEADER];
    if r.Offset? {
      ghost var ndef := Serialize(b.recs);
      SetField(buf, INFO_HEADER, [VERSION, REQ_PUT] + Be32(r.n), at, ndef);
      HoldsConcat(buf[..], INFO_HEADER, [VERSION, REQ_PUT] + Be32(r.n), ndef);
      r := Offset(SNEP_HEADER + r.n);
    }
  }

  /** The I PDU that carries a built message, as `SendPut` sends it on a link. */
  function PutPdu(b: Build, k: Key, l: Link): Pdu
    requires b.Built? ==> |Serialize(b.recs)| <= PDU_SIZE
  {
    InfoPdu(l, k, Message(PutRequest(b)))
  }

  /** `create_i_pdu` with `create_snep_cp`, in the buffer of a queued PDU or of an NCI packet. */
  method CreateIPdu(recs: seq<RecordParam>, k: Key, l: Link, buf: array<byte>) returns (r: BuildResult)
    requires BUDGET <= buf.Length <= PDU_SIZE
    modifies buf
    ensures var b := BuildMessage(recs, buf.Length); Creates(b, r, buf[..], 0, Pack(PutPdu(b, k, l)))
  {
    hide BuildMessage, SnepMessage, PutRequest;
    ghost var b := BuildMessage(recs, buf.Length);
    ghost var header := [k.0 * 4 + I / 4, I % 4 * 64 + k.1, SeqByte(l.vs, l.vr)];
    buf[0], buf[1] := k.0 * 4 + I / 4, I % 4 * 64 + k.1;
    buf[2] := SeqByte(l.vs, l.vr);
    assert buf[..INFO_HEADER] == header;
    r := CreateSnepPut(recs, buf);
    if r.Offset? {
      r := Offset(INFO_HEADER + r.n);
      HoldsConcat(buf[..], 0, header, PutRequest(b));
      assert Pack(PutPdu(b, k, l)) == header + PutRequest(b);
    }
  }

  // ----- The budget -----

  function FlagsOf(recs: seq<RecordParam>, i: nat): byte
    requires i < |recs|
  {
    FlagByte(FlagsAt(recs, i), recs[i].tnf)
  }

  /**
   * No header of the records from number `i` on ends behind the budget. A caller can tell from the lengths of the
   * texts.
   */
  predicate HeadersFit(recs: seq<RecordParam>, i: nat, off: nat, len: nat)
    requires i <= |recs|
    decreases |recs| - i
  {
    i == |recs| ||
      (off + HeaderLen(FlagsOf(recs, i)) <= len
       && HeadersFit(recs, i + 1, off + RecordSize(recs[i], FlagsOf(recs, i)), len))
  }

  /** A build that succeeds keeps to the budget exactly when no header ends behind it. */
  lemma {:induction false} BudgetKeptIff(recs: seq<RecordParam>, i: nat, off: nat, len: nat, size: nat)
    requires i <= |recs| && off <= len <= size < SIZE_MODULUS && BuildFrom(recs, i, off, len, size).Built?
    ensures off + |Serialize(BuildFrom(recs, i, off, len, size).recs)| <= len <==> HeadersFit(recs, i, off, len)
    decreases |recs| - i
  {
    hide DecodeRecord, FlagByte, FlagsAt, RecordBytes, BuildFrom, HasBit, RecordSize;
    if i == |recs| {
      BuildEnd(recs, off, len, size);
    } else {
      BuildStep(recs, i, off, len, size);
      var r := DecodeRecord(recs[i], FlagsOf(recs, i), len - off, size - off).rec;
      SerializeCons(r, BuildFrom(recs, i + 1, off + |RecordBytes(r)|, len, size).recs);
      if off + HeaderLen(FlagsOf(recs, i)) <= len {
        BudgetKeptIff(recs, i + 1, off + |RecordBytes(r)|, len, size);
      }
    }
  }

  lemma SerializeCons(r: Rec, rs: seq<Rec>)
    ensures Serialize([r] + rs) == RecordBytes(r) + Serialize(rs)
  {
    assert ([r] + rs)[1..] == rs;
  }

  /** Then the end of the buffer is never reached: all buffers that are large enough give the same message. */
  lemma {:induction false} BufferIsLargeEnough(recs: seq<RecordParam>, i: nat, off: nat, len: nat, m: nat, n: nat)
    requires i <= |recs| && off <= len && len + 7 <= m < SIZE_MODULUS && len + 7 <= n < SIZE_MODULUS
    requires HeadersFit(recs, i, off, len)
    ensures BuildFrom(recs, i, off, len, m) == BuildFrom(recs, i, off, len, n) != Overrun
    decreases |recs| - i
  {
    hide DecodeRecord, FlagByte, FlagsAt, RecordBytes, BuildFrom, HasBit, RecordSize;
    if i == |recs| {
      BuildEnd(recs, off, len, m);
      BuildEnd(recs, off, len, n);
    } else {
      BuildStep(recs, i, off, len, m);
      BuildStep(recs, i, off, len, n);
      SpaceIsIrrelevant(recs[i], FlagsOf(recs, i), len - off, m - off, n - off);
      var d := DecodeRecord(recs[i], FlagsOf(recs, i), len - off, m - off);
      if d.Fields? {
        BufferIsLargeEnough(recs, i + 1, off + |RecordBytes(d.rec)|, len, m, n);
      }
    }
  }

  lemma NamesInBudget(p: RecordParam, flags: byte, room: nat, m: nat, n: nat)
    requires HeaderLen(flags) <= room <= m < SIZE_MODULUS && room <= n < SIZE_MODULUS
    ensures DecodeNames(p, flags, room, m) == DecodeNames(p, flags, room, n) != PastEnd
  {
    hide DecodeField, HasBit, HeaderLen, RecordBytes, Header;
    var h := HeaderLen(flags);
    FieldInBudget(p.typ, room - h, m - h, n - h);
    var t := DecodeField(p.typ, room - h, m - h);
    if t.Got? {
      var i := h + |t.bytes|;
      FieldInBudget(p.id, room - i, m - i, n - i);
    }
  }

  lemma SpaceIsIrrelevant(p: RecordParam, flags: byte, room: nat, m: nat, n: nat)
    requires HeaderLen(flags) <= room <= m < SIZE_MODULUS && room <= n < SIZE_MODULUS
    ensures DecodeRecord(p, flags, room, m) == DecodeRecord(p, flags, room, n) != PastEnd
  {
    hide DecodeField, DecodeNames, HasBit, HeaderLen, RecordBytes, NamesSize;
    NamesInBudget(p, flags, room, m, n);
    var names := DecodeNames(p, flags, room, m);
    if names.Fields? {
      var j := |RecordBytes(names.rec)|;
      FieldInBudget(p.payload, room - j, m - j, n - j);
    }
  }

  lemma FieldInBudget(text: string, room: nat, m: nat, n: nat)
    requires room <= m < SIZE_MODULUS && room <= n < SIZE_MODULUS
    ensures DecodeField(text, room, m) == DecodeField(text, room, n) != Outside
  {
  }

  /** The budget of a put request: the PDU keeps to it exactly when no header ends behind it. */
  lemma PduKeepsBudgetIff(recs: seq<RecordParam>, b: Build, size: nat, k: Key, l: Link)
    requires BUDGET <= size <= PDU_SIZE && b == BuildMessage(recs, size) && b.Built?
    ensures |Pack(PutPdu(b, k, l))| <= 200 <==> HeadersFit(recs, 0, 0, 191)
    ensures |Pack(PutPdu(b, k, l))| <= size
  {
    hide BuildFrom, HeadersFit, Serialize;
    BudgetKeptIff(recs, 0, 0, NDEF_ROOM, size - NDEF_AT);
  }

  /** Two short records with the standard texts of the given bytes. */
  function TwoRecords(x: seq<byte>, t: seq<byte>, y: seq<byte>): (recs: seq<RecordParam>)
    ensures |recs| == 2
  {
    var short := Flags(false, false, false, true, false);
    [RecordParam(short, 1, RfcEncode([0x54]), "", RfcEncode(x)), RecordParam(short, 1, RfcEncode(t), "", RfcEncode(y))]
  }

  /** The records that are made of two short ones. */
  function TwoBuilt(x: seq<byte>, t: seq<byte>, y: seq<byte>): (rs: seq<Rec>)
    ensures |rs| == 2
  {
    [Rec(MB + SR + 1, [0x54], [], x), Rec(ME + SR + 1, t, [], y)]
  }

  lemma TwoFlags(x: seq<byte>, t: seq<byte>, y: seq<byte>)
    ensures FlagsOf(TwoRecords(x, t, y), 0) == MB + SR + 1 && FlagsOf(TwoRecords(x, t, y), 1) == ME + SR + 1
    ensures HasBit(MB + SR + 1, SR) && !HasBit(MB + SR + 1, IL) && HasBit(ME + SR + 1, SR) && !HasBit(ME + SR + 1, IL)
  {
  }

  /** A record that can be decoded is followed by the others. */
  lemma BuildOne(recs: seq<RecordParam>, i: nat, off: nat, len: nat, size: nat, r: Rec)
    requires i < |recs| && off + 7 <= size && len <= size < SIZE_MODULUS
    requires DecodeRecord(recs[i], FlagsOf(recs, i), len - off, size - off) == Fields(r)
    ensures BuildFrom(recs, i, off, len, size) == Prepend([r], BuildFrom(recs, i + 1, off + |RecordBytes(r)|, len, size))
  {
    hide BuildFrom, DecodeRecord, FlagByte, FlagsAt, HasBit;
    BuildStep(recs, i, off, len, size);
  }

  lemma BuildTwo(recs: seq<RecordParam>, len: nat, size: nat, r: Rec, q: Rec)
    requires |recs| == 2 && len <= size < SIZE_MODULUS && |RecordBytes(r)| + 7 <= size
    requires |RecordBytes(r)| + |RecordBytes(q)| <= size
    requires DecodeRecord(recs[0], FlagsOf(recs, 0), len, size) == Fields(r)
    requires DecodeRecord(recs[1], FlagsOf(recs, 1), len - |RecordBytes(r)|, size - |RecordBytes(r)|) == Fields(q)
    ensures BuildFrom(recs, 0, 0, len, size) == Built([r, q])
  {
    hide BuildFrom, DecodeRecord, FlagsOf, RecordBytes;
    BuildOne(recs, 0, 0, len, size, r);
    BuildOne(recs, 1, |RecordBytes(r)|, len, size, q);
    BuildEnd(recs, |RecordBytes(r)| + |RecordBytes(q)|, len, size);
    assert [q] + [] == [q] && [r] + [q] == [r, q];
  }

  /**
   * A message that is built beyond the budget: the first record ends one byte before the budget does, so the header of
   * the second ends behind it and its fields are given a room that has wrapped around.
   */
  lemma BeyondBudget(x: seq<byte>, t: seq<byte>, y: seq<byte>)
    requires |x| == 186 && |y| <= 255
    requires Touched(|Groups(t)|) <= 54 && |t| + Touched(|Groups(y)|) <= 54 && |t| + |y| <= 54
    ensures BuildMessage(TwoRecords(x, t, y), PDU_SIZE) == Built(TwoBuilt(x, t, y))
    ensures |Serialize(TwoBuilt(x, t, y))| == 193 + |t| + |y|
  {
    hide TwoRecords, TwoBuilt, Groups, RfcEncode, DecodeRecord, BuildFrom, HasBit, RecordBytes, Touched, FlagsOf, Serialize;
    var recs, r, q := TwoRecords(x, t, y), TwoBuilt(x, t, y)[0], TwoBuilt(x, t, y)[1];
    FirstOfTwo(x, t, y);
    SecondOfTwo(x, t, y);
    BuildTwo(recs, NDEF_ROOM, PDU_SIZE - NDEF_AT, r, q);
    TwoSerialized(r, q);
    assert TwoBuilt(x, t, y) == [r, q];
  }

  lemma ShortHeader(flags: byte)
    requires HasBit(flags, SR) && !HasBit(flags, IL)
    ensures HeaderLen(flags) == 3
  {
  }

  lemma FirstOfTwo(x: seq<byte>, t: seq<byte>, y: seq<byte>)
    requires |x| == 186
    ensures DecodeRecord(TwoRecords(x, t, y)[0], FlagsOf(TwoRecords(x, t, y), 0), NDEF_ROOM, PDU_SIZE - NDEF_AT)
         == Fields(TwoBuilt(x, t, y)[0])
    ensures |RecordBytes(TwoBuilt(x, t, y)[0])| == 190
  {
    TwoFlags(x, t, y);
    TouchedBy([0x54]);
    TouchedBy(x);
    hide Groups, RfcEncode, DecodeRecord, HasBit, RecordBytes, Touched, FlagsOf;
    ShortHeader(MB + SR + 1);
    PlainRecord(TwoRecords(x, t, y)[0], MB + SR + 1, [0x54], x, NDEF_ROOM, PDU_SIZE - NDEF_AT);
  }

  lemma SecondOfTwo(x: seq<byte>, t: seq<byte>, y: seq<byte>)
    requires |y| <= 255 && Touched(|Groups(t)|) <= 54 && |t| + Touched(|Groups(y)|) <= 54
    ensures DecodeRecord(TwoRecords(x, t, y)[1], FlagsOf(TwoRecords(x, t, y), 1), NDEF_ROOM - 190, PDU_SIZE - NDEF_AT - 190)
         == Fields(TwoBuilt(x, t, y)[1])
    ensures |RecordBytes(TwoBuilt(x, t, y)[1])| == 3 + |t| + |y|
  {
    TwoFlags(x, t, y);
    hide Groups, RfcEncode, DecodeRecord, HasBit, RecordBytes, Touched, FlagsOf;
    ShortHeader(ME + SR + 1);
    PlainRecord(TwoRecords(x, t, y)[1], ME + SR + 1, t, y, NDEF_ROOM - 190, PDU_SIZE - NDEF_AT - 190);
  }

  lemma TwoSerialized(r: Rec, q: Rec)
    ensures |Serialize([r, q])| == |RecordBytes(r)| + |RecordBytes(q)|
  {
    hide RecordBytes;
    SerializeCons(r, [q]);
    SerializeCons(q, []);
    assert [r] + [q] == [r, q] && [q] + [] == [q];
  }

  /** Four bytes too many: the PDU has 204 bytes instead of at most 200. */
  lemma BudgetIsMissed(x: seq<byte>, k: Key, l: Link)
    requires |x| == 186
    ensures var b := BuildMessage(TwoRecords(x, [0x54], [0]), PDU_SIZE);
      b.Built? && |Pack(PutPdu(b, k, l))| == 204
  {
    TouchedBy([0x54]);
    TouchedBy([0]);
    hide BuildMessage, Groups, Serialize, Touched, RfcEncode;
    BeyondBudget(x, [0x54], [0]);
  }

  /** And a PDU can fill its buffer, so that it is never sent. */
  lemma BufferIsFilled(x: seq<byte>, t: seq<byte>, y: seq<byte>, k: Key, l: Link)
    requires |x| == 186 && |t| == 3 && |y| == 51
    ensures var b := BuildMessage(TwoRecords(x, t, y), PDU_SIZE);
      b.Built? && |Pack(PutPdu(b, k, l))| == PDU_SIZE && OnWire(PutPdu(b, k, l)) == []
  {
    TouchedBy(t);
    TouchedBy(y);
    hide BuildMessage, Groups, Serialize, Touched, RfcEncode;
    BeyondBudget(x, t, y);
  }

  /** Such a message is accepted by the builder, and then lost in a run like any other: the host gets a SYMM for it. */
  lemma BuiltMessageIsLost(x: seq<byte>, t: seq<byte>, y: seq<byte>, k: Key)
    requires |x| == 186 && |t| == 3 && |y| == 51
    ensures BuildMessage(TwoRecords(x, t, y), PDU_SIZE).Built?
    ensures var run := Run(OpeningOf(k, PutRequest(BuildMessage(TwoRecords(x, t, y), PDU_SIZE))) + [Timeout]);
      && run.Some? && run.value.h.wire == [ConnectPdu(k), SYMM_PDU]
      && run.value.xmitQ == [] && run.value.links[k].xmitQ == [] && run.value.h.dropped == multiset{}
  {
    hide BuildMessage, TwoRecords, PutRequest, Run;
    BufferIsFilled(x, t, y, k, FRESH_LINK);
    FullBufferIsLost(k, PutRequest(BuildMessage(TwoRecords(x, t, y), PDU_SIZE)));
  }

  // ----- The other side -----

  /** Storing at most 255 bytes keeps the buffer's size and puts the bytes at its front. */
  lemma StoredInLink(l: Link, data: seq<byte>)
    requires |data| < RBUF_SIZE && |l.rbuf| == RBUF_SIZE
    ensures StoreInLink(l, data).rlen == |data| && StoreInLink(l, data).rbuf[..|data|] == data
    ensures StoreInLink(l, data).status == l.status && |StoreInLink(l, data).rbuf| == RBUF_SIZE
  {
  }

  /** A put request for SAP 4 leaves exactly its information field in the receive buffer of the link. */
  lemma PutIsStored(s: State, p: Pdu, b: byte, data: seq<byte>)
    requires |data| < RBUF_SIZE && |s.links[HostKeyOf(p)].rbuf| == RBUF_SIZE
    requires p.ptype == I && p.dsap == SAP_SNEP && p.info == [b] + SnepMessage(REQ_PUT, data)
    ensures Accepts(s, p) && Delivered(p) == Handling(Some(data), Some(RSP_SUCCESS))
    ensures var l := Process(s, p).links[HostKeyOf(p)];
      && l.rlen == |data| <= |l.rbuf| == RBUF_SIZE && l.rbuf[..l.rlen] == data
      && l.status == s.links[HostKeyOf(p)].status
  {
    assert p.info[1..] == SnepMessage(REQ_PUT, data);
    PutRoundTrip(data);
    var l := s.links[HostKeyOf(p)];
    StoredInLink(l.(vr := (l.vr + 1) % 16), data);
    assert Delivered(p) == SapSnep(p.info[1..]);
    hide SapSnep, SnepMessage, StoreInLink, Be32;
  }

  lemma WalkStored(l: Link, rs: seq<Rec>)
    requires |Serialize(rs)| < 256 && |l.rbuf| == RBUF_SIZE
    requires l.rlen == |Serialize(rs)| && l.rbuf[..l.rlen] == Serialize(rs)
    requires forall i :: 0 <= i < |rs| ==> rs[i].Consistent()
    ensures Walk(l.rbuf, 0, l.rlen) == WalkResult(Done, AllSeen(rs))
  {
    hide Walk, RecordBytes, Serialize, AllSeen, HasBit;
    SmallMessageDescribable(rs);
    WalkSerialized(rs, [], l.rbuf[l.rlen..]);
    assert [] + Serialize(rs) + l.rbuf[l.rlen..] == l.rbuf;
  }

  /**
   * The endpoint accepts the PDU and its handler answers with success; then the link holds the message, its status is
   * what it was, and the walker shows every record.
   */
  ghost predicate Arrives(s: State, p: Pdu, rs: seq<Rec>)
  {
    && p.ptype == I && Accepts(s, p) && Delivered(p).reply == Some(RSP_SUCCESS)
    && Holding(Process(s, p).links[HostKeyOf(p)], s.links[HostKeyOf(p)].status, rs)
  }

  ghost predicate Holding(l: Link, status: Endpoint.Status, rs: seq<Rec>)
  {
    && l.status == status && |l.rbuf| == RBUF_SIZE
    && l.rlen == |Serialize(rs)| && l.rbuf[..l.rlen] == Serialize(rs)
    && Walk(l.rbuf, 0, l.rlen) == WalkResult(Done, AllSeen(rs))
  }

  /**
   * End to end: whatever message is built, its PDU reaches the host's side exactly when it does not fill its buffer;
   * then it arrives at every endpoint that a run can lead to, and its fields are those the texts stand for.
   */
  lemma EndToEnd(recs: seq<RecordParam>, b: Build, size: nat, k: Key, l: Link, events: seq<Event>, s: State)
    requires BUDGET <= size <= PDU_SIZE && b == BuildMessage(recs, size) && b.Built?
    requires k.0 == SAP_SNEP && Run(events) == Some(s)
    ensures FitsBuffer(Message(PutRequest(b)))
    ensures OnWire(PutPdu(b, k, l)) == [] <==> |Pack(PutPdu(b, k, l))| == PDU_SIZE
    ensures |Pack(PutPdu(b, k, l))| < PDU_SIZE ==>
      OnWire(PutPdu(b, k, l)) == [PutPdu(b, k, l)] && Parse(Pack(PutPdu(b, k, l))) == PutPdu(b, k, l)
    ensures Arrives(s, PutPdu(b, k, l), b.recs)
    ensures |b.recs| == |recs| && forall i :: 0 <= i < |recs| ==> MadeFrom(recs[i], b.recs[i])
  {
    hide Run, MadeFrom, Process, Accepts, Serialize, SapSnep, Invariant, LinkOk, Parse, AllSeen, BuildFrom, Delivered;
    var rs, p := b.recs, PutPdu(b, k, l);
    EightBits(p);
    hide Pack, Len8;
    forall i | 0 <= i < |recs|
      ensures MadeFrom(recs[i], rs[i])
    {
      BuiltFields(recs, 0, 0, NDEF_ROOM, size - NDEF_AT, i);
    }
    RunKeeps(events);
    LinkInvariant(s, HostKeyOf(p));
    BufferSize(HostKeyOf(p), s.links[HostKeyOf(p)]);
    PutIsStored(s, p, SeqByte(l.vs, l.vr), Serialize(rs));
    ParsePack(p);
    WalkStored(Process(s, p).links[HostKeyOf(p)], rs);
  }

  lemma BufferSize(k: Key, l: Link)
    requires LinkOk(k, l)
    ensures |l.rbuf| == RBUF_SIZE
  {
  }
}
