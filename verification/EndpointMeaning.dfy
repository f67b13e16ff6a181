/**
 * What the endpoint does with a PDU or a request, told in bytes and in the fields of one link, without the steps of
 * the model: the numbers of PDU types and response codes are those of NFC Forum LLCP 1.1 and SNEP 1.0.
 */
module EndpointMeaning {
  import opened Bytes
  import opened Llcp
  import opened Endpoint
  import opened EndpointProofs

  // ----- Bytes -----

  /** CONNECT, I and SYMM as they are sent. */
  lemma SentBytes(k: Key, info: seq<byte>)
    ensures Pack(ConnectPdu(k)) == [k.0 * 4 + 1, k.1]
    ensures Pack(Pdu(k.0, 12, k.1, info)) == [k.0 * 4 + 3, k.1] + info
    ensures Pack(SYMM_PDU) == [0, 0]
  {
  }

  // ----- PDUs of the host -----

  /** A put request of a supported version with the right length, in the information field of an I PDU. */
  predicate IsPut(info: seq<byte>)
  {
    |info| >= 7 && info[1] <= 0x10 && info[2] == 0x02 && LengthField(info[1..]) + 6 == |info| - 1 && |info| - 7 < 256
  }

  /** A response code that is not answered. */
  predicate IsSuccess(info: seq<byte>)
  {
    |info| >= 7 && info[1] <= 0x10 && info[2] == 0x81 && LengthField(info[1..]) + 6 == |info| - 1
  }

  /** The first `len` bytes of the packet answer the PDU, on a link that was `was`. */
  ghost predicate Answers(p: Pdu, was: Link, len: nat, packet: seq<byte>)
  {
    && len <= |packet|
    && (p.ptype == 4 ==> len == 2 && packet[..2] == [p.ssap * 4 + 1, 128 + p.dsap])
    && (p.ptype == 5 ==> len == 3 && packet[..3] == [p.ssap * 4 + 1, 192 + p.dsap, 0])
    && (p.ptype in {0, 6, 7, 8, 13, 14} ==> len == 0)
    && (p.ptype == 12 && p.dsap != 4 ==> len == 0)
    && (p.ptype == 12 && p.dsap == 4 ==> len == if IsSuccess(p.info) then 0 else 9)
    && (p.ptype == 12 && len == 9 ==>
          && packet[..3] == [p.ssap * 4 + 3, p.dsap, was.vs % 16 * 16 + (was.vr + 1) % 16]
          && packet[8] == 0x10)
  }

  /** The link `l` holds `data` at the front of its receive buffer; the rest of the buffer stays. */
  ghost predicate Receives(was: Link, l: Link, data: seq<byte>)
  {
    && l == was.(vr := (was.vr + 1) % 16, rlen := l.rlen, rbuf := l.rbuf)
    && l.rlen == |data|
    && (|was.rbuf| == 256 ==> |l.rbuf| == 256 && l.rbuf[..|data|] == data && l.rbuf[|data|..] == was.rbuf[|data|..])
  }

  /** What a PDU makes of its link. */
  ghost predicate Handled(p: Pdu, was: Link, l: Link)
  {
    && (p.ptype in {0, 8} ==> l == was)
    && (p.ptype == 4 ==> l == Link(Connected, 0, 0, 0, 0, 0, was.rbuf, []))
    && (p.ptype == 5 || p.ptype == 7 ==> l == was.(status := Disconnected))
    && (p.ptype == 6 ==> was.status == Connecting && l == Link(Connected, 0, 0, 0, 0, 0, was.rbuf, []))
    && (p.ptype == 12 && p.dsap != 4 ==> p.info != [] && Receives(was, l, p.info[1..]))
    && (p.ptype == 12 && p.dsap == 4 && IsPut(p.info) ==> Receives(was, l, p.info[7..]))
    && (p.ptype == 12 && p.dsap == 4 && !IsPut(p.info) ==> l == was.(vr := (was.vr + 1) % 16))
    && (p.ptype in {13, 14} ==> p.info != [] && l == was.(vsa := p.info[0] % 16))
  }

  lemma DeliveredMeans(p: Pdu)
    requires p.ptype == 12 && Complete(p) && |p.info| < 0x1_0000
    ensures p.dsap != 4 ==> Delivered(p) == Handling(Some(p.info[1..]), None)
    ensures p.dsap == 4 ==> (Delivered(p).stored == if IsPut(p.info) then Some(p.info[7..]) else None)
    ensures p.dsap == 4 ==> (Delivered(p).reply.None? <==> IsSuccess(p.info))
  {
    if p.dsap == 4 {
      var d := p.info[1..];
      assert d[0] == p.info[1] && d[1] == p.info[2] && d[6..] == p.info[7..];
      AnswerCodes(d);
      StoredMeans(d);
      hide SapSnep, LengthField;
    }
  }

  lemma StoredMeans(info: seq<byte>)
    requires 6 <= |info| < 0x1_0000
    ensures SapSnep(info).stored ==
      if info[0] <= 0x10 && info[1] == 0x02 && LengthField(info) + 6 == |info| && |info| - 6 < 256 then Some(info[6..])
      else None
  {
    assert FromBe32(info[2..6]) == LengthField(info);
  }

  lemma StoreReceives(l: Link, data: seq<byte>)
    requires |data| < 256
    ensures Receives(l, StoreInLink(l.(vr := (l.vr + 1) % 16), data), data)
  {
  }

  lemma HostOnMeans(p: Pdu, l: Link)
    requires Complete(p) && |p.info| < 0x1_0000 && (p.ptype == 6 ==> l.status == Connecting)
    ensures Handled(p, l, HostOn(l, p))
  {
    if p.ptype == 12 {
      DeliveredMeans(p);
      if Delivered(p).stored.Some? {
        StoreReceives(l, Delivered(p).stored.value);
      }
      hide Delivered, StoreInLink, Receives, IsPut, IsSuccess;
    }
  }

  /** The PDUs that have a handler are known by their types, and taken if their fixed fields are there. */
  lemma HandledTypes(p: Pdu)
    ensures Complete(p) <==>
      || p.ptype in {0, 4, 5, 6}
      || (p.ptype in {7, 13, 14} && |p.info| >= 1)
      || (p.ptype == 8 && |p.info| >= 4)
      || (p.ptype == 12 && if p.dsap == 4 then |p.info| >= 7 else 1 <= |p.info| <= 256)
  {
  }

  /** When an event may come. */
  lemma EnabledMeans(s: State, e: Event)
    ensures Enabled(s, e) <==> match e
      case Host(p) => Complete(p) && (p.ptype == 6 ==> s.links[(p.ssap, p.dsap)].status == Connecting)
      case UserConnect(k) => s.links[k].status == Disconnected
      case UserPut(_, c) => if c.Message? then |c.bytes| <= 253 else |c.junk| == 252
      case Timeout => s.timer
      case Clearing => true
  {
  }

  /** The reply of the model begins the packet. */
  ghost predicate Answered(r: Reply, len: nat, packet: seq<byte>)
  {
    match r
    case NoReply => len == 0
    case Reply(p) => len == |Pack(p)| && Pack(p) <= packet
  }

  lemma ResponseMeans(r: Pdu, len: nat, packet: seq<byte>)
    requires Answered(Reply(r), len, packet) && r.ptype == 12 && |r.info| == 7
    ensures len == 9 <= |packet| && packet[..3] == [r.dsap * 4 + 3, r.ssap, r.info[0]] && packet[8] == r.info[6]
  {
    var m := Pack(r);
    assert packet[..9] == m && m == [r.dsap * 4 + 3, r.ssap] + r.info;
    assert packet[..3] == m[..3] && packet[8] == m[8] == r.info[6];
  }

  lemma ReplyMeans(s: State, p: Pdu, was: seq<byte>, len: nat, packet: seq<byte>)
    requires Accepts(s, p) && |p.info| < 0x1_0000 && |was| == PDU_SIZE == |packet|
    requires Answered(ReplyTo(s, p, was), len, packet)
    ensures Answers(p, s.links[HostKeyOf(p)], len, packet)
  {
    HandledTypes(p);
    if p.ptype == 12 {
      DeliveredMeans(p);
      hide Delivered, IsSuccess, IsPut;
      if ReplyTo(s, p, was).Reply? {
        ResponseMeans(ReplyTo(s, p, was).pdu, len, packet);
      }
      hide Pack, Complete;
    } else {
      hide Delivered, IsSuccess, IsPut;
    }
  }

  /** Everything a PDU of the host does: its link, the other links, the queue, the turn, and nothing is sent. */
  ghost predicate Processed(s: State, p: Pdu, t: State)
  {
    var k := (p.ssap, p.dsap);
    && Handled(p, s.links[k], t.links[k])
    && (forall j: Key :: j != k ==> t.links[j] == s.links[j])
    && t.xmitQ == (if p.ptype == 6 then s.xmitQ + s.links[k].xmitQ else s.xmitQ)
    && t.xmitNext && t.timer && t.h.wire == s.h.wire
    && (t.lastDsap, t.lastSsap) == if p.ptype == 0 then (s.lastDsap, s.lastSsap) else (p.ssap, p.dsap)
  }

  lemma ProcessFields(s: State, p: Pdu)
    requires Accepts(s, p)
    ensures Process(s, p).xmitQ == if p.ptype == 6 then s.xmitQ + s.links[HostKeyOf(p)].xmitQ else s.xmitQ
    ensures Process(s, p).xmitNext && Process(s, p).timer && Process(s, p).h.wire == s.h.wire
    ensures (Process(s, p).lastDsap, Process(s, p).lastSsap)
         == if p.ptype == 0 then (s.lastDsap, s.lastSsap) else (p.ssap, p.dsap)
  {
    hide HostOn, LogOn;
  }

  lemma HandleLink(s: State, p: Pdu, j: Key)
    requires Accepts(s, p)
    ensures Handle(s, p).links[j] == if j == HostKeyOf(p) then HostOn(s.links[j], p) else s.links[j]
  {
    hide HostOn, LogOn, Accepts;
  }

  lemma ProcessLinks(s: State, p: Pdu, j: Key)
    requires Accepts(s, p)
    ensures Process(s, p).links[j] == if j == HostKeyOf(p) then HostOn(s.links[j], p) else s.links[j]
  {
    HandleLink(s, p, j);
    hide HostOn, Handle, Accepts;
  }

  lemma ProcessMeans(s: State, p: Pdu)
    requires Accepts(s, p) && |p.info| < 0x1_0000
    ensures Processed(s, p, Process(s, p))
  {
    ProcessFields(s, p);
    ProcessLinks(s, p, HostKeyOf(p));
    HostOnMeans(p, s.links[HostKeyOf(p)]);
    hide HostOn, Handled, Process;
    forall j: Key | j != HostKeyOf(p)
      ensures Process(s, p).links[j] == s.links[j]
    {
      ProcessLinks(s, p, j);
    }
  }

  /** All that is said of a PDU of the host and of the packet that answers it. */
  lemma AllMeans(s: State, p: Pdu, was: seq<byte>, len: nat, packet: seq<byte>)
    requires Accepts(s, p) && |was| == PDU_SIZE == |packet| && Answered(ReplyTo(s, p, was), len, packet)
    ensures |p.info| < 0x1_0000 ==>
      Answers(p, s.links[HostKeyOf(p)], len, packet) && Processed(s, p, Process(s, p))
  {
    hide Answers, Processed, Process, Answered, ReplyTo;
    if |p.info| < 0x1_0000 {
      ProcessMeans(s, p);
      ReplyMeans(s, p, was, len, packet);
    }
  }

  // ----- Requests of the user -----

  /** A PDU is sent at once when it is our turn, unless its length of 256 reads 0 in 8 bits; else it is queued. */
  ghost predicate Emitted(s: State, p: Pdu, t: State)
  {
    && !t.xmitNext && (s.xmitNext ==> !t.timer) && (!s.xmitNext ==> t.timer == s.timer)
    && t.xmitQ == (if s.xmitNext then s.xmitQ else s.xmitQ + [p])
    && t.h.wire == s.h.wire + if s.xmitNext && |p.info| != 254 then [p] else []
  }

  ghost predicate NothingEmitted(s: State, t: State)
  {
    t.xmitNext == s.xmitNext && t.timer == s.timer && t.xmitQ == s.xmitQ && t.h.wire == s.h.wire
  }

  ghost predicate OnlyLink(s: State, k: Key, l: Link, t: State)
  {
    t.links[k] == l && forall j: Key :: j != k ==> t.links[j] == s.links[j]
  }

  /** A CONNECT request: the link is connecting, and the PDU goes out. */
  ghost predicate Connects(s: State, k: Key, t: State)
  {
    OnlyLink(s, k, s.links[k].(status := Connecting), t) && Emitted(s, Pdu(k.0, 4, k.1, []), t)
  }

  /**
   * A put request: an I PDU with the link's numbers and the message. It goes out on a connected link, and waits on
   * any other; a disconnected one is connected first. N(S) advances if the message could be made.
   */
  ghost predicate Puts(s: State, k: Key, c: Creation, t: State)
  {
    var l := s.links[k];
    var p := Pdu(k.0, 12, k.1, [l.vs % 16 * 16 + l.vr % 16] + if c.Message? then c.bytes else c.junk);
    var m := l.(vs := if c.Message? then (l.vs + 1) % 16 else l.vs);
    match l.status
    case Disconnected =>
      OnlyLink(s, k, m.(status := Connecting, xmitQ := l.xmitQ + [p]), t) && Emitted(s, Pdu(k.0, 4, k.1, []), t)
    case Connecting => OnlyLink(s, k, m.(xmitQ := l.xmitQ + [p]), t) && NothingEmitted(s, t)
    case Connected => OnlyLink(s, k, m, t) && Emitted(s, p, t)
    case Disconnecting => OnlyLink(s, k, l, t) && NothingEmitted(s, t)
  }

  lemma EmitMeans(s: State, p: Pdu)
    requires |Pack(p)| <= 256
    ensures Emitted(s, p, Emit(s, p))
  {
    EightBits(p);
    hide Len8;
  }

  lemma ConnectMeans(s: State, k: Key)
    ensures Connects(s, k, SendConnect(s, k))
  {
    EmitMeans(s, ConnectPdu(k));
    EmitFields(s, ConnectPdu(k));
    hide Emit;
  }

  lemma PutOnMeans(l: Link, k: Key, c: Creation)
    ensures InfoPdu(l, k, c)
         == Pdu(k.0, 12, k.1, [l.vs % 16 * 16 + l.vr % 16] + if c.Message? then c.bytes else c.junk)
    ensures FitsBuffer(c) ==> |Pack(InfoPdu(l, k, c))| <= 256
    ensures CountLink(l, c) == l.(vs := if c.Message? then (l.vs + 1) % 16 else l.vs)
  {
  }

  lemma PutOnIs(l: Link, k: Key, c: Creation)
    ensures var q := l.xmitQ + [InfoPdu(l, k, c)];
      PutOn(l, k, c) == match l.status
        case Disconnected => CountLink(l, c).(status := Connecting, xmitQ := q)
        case Connecting => CountLink(l, c).(xmitQ := q)
        case Connected => CountLink(l, c)
        case Disconnecting => l
  {
    hide InfoPdu, CountLink;
  }

  lemma PutMeans(s: State, k: Key, c: Creation)
    requires FitsBuffer(c)
    ensures Puts(s, k, c, SendPut(s, k, c))
  {
    hide InfoPdu, CountLink, CountLog, Emit, Pack, SendPut, Created, PutOn, ConnectPdu;
    var l := s.links[k];
    var p := InfoPdu(l, k, c);
    var t := SetLog(s, k, PutOn(l, k, c), CountLog(l, k, s.h.logs[k], c));
    PutOnMeans(l, k, c);
    PutOnIs(l, k, c);
    PutIs(s, k, c);
    CreatedFields(t, p);
    ConnectIs(k);
    match l.status
    case Connected =>
      EmitMeans(t, p);
      EmitFields(t, p);
    case Disconnected =>
      EmitMeans(Created(t, p), ConnectPdu(k));
      EmitFields(Created(t, p), ConnectPdu(k));
    case _ =>
  }

  lemma ConnectIs(k: Key)
    ensures ConnectPdu(k) == Pdu(k.0, 4, k.1, []) && |Pack(ConnectPdu(k))| <= 256
  {
  }

  lemma CreatedFields(s: State, p: Pdu)
    ensures Created(s, p).links == s.links && Created(s, p).xmitQ == s.xmitQ && Created(s, p).h.wire == s.h.wire
    ensures Created(s, p).xmitNext == s.xmitNext && Created(s, p).timer == s.timer
  {
  }

  lemma PutIs(s: State, k: Key, c: Creation)
    ensures var (l, p) := (s.links[k], InfoPdu(s.links[k], k, c));
      var t := SetLog(s, k, PutOn(l, k, c), CountLog(l, k, s.h.logs[k], c));
      SendPut(s, k, c) == match l.status
        case Disconnected => Emit(Created(t, p), ConnectPdu(k))
        case Connecting => Created(t, p)
        case Connected => Emit(t, p)
        case Disconnecting => s
  {
    hide InfoPdu, PutOn, CountLog, Emit, Created;
  }

  /**
   * The timer: the oldest queued PDU leaves the queue and is sent. A SYMM is sent if there is none, or if the length
   * of 256 reads 0 in 8 bits.
   */
  ghost predicate Fired(s: State, t: State)
  {
    && !t.xmitNext && !t.timer && t.links == s.links
    && t.xmitQ == (if s.xmitQ == [] then [] else s.xmitQ[1..])
    && t.h.wire == s.h.wire + [if s.xmitQ == [] || |s.xmitQ[0].info| == 254 then Pdu(0, 0, 0, []) else s.xmitQ[0]]
  }

  lemma TimerMeans(s: State)
    requires SizesOk(s)
    ensures Fired(s, TimerFires(s))
  {
    if s.xmitQ != [] {
      EightBits(s.xmitQ[0]);
    }
  }
}
