/**
 * The LLCP side of an NFC-DEP remote endpoint (src/nfc-re.c) as a transition system. `Step` says what one event does
 * to the endpoint; a failed assertion of the C code makes an event not enabled.
 */
module Endpoint {
  import opened Bytes
  import opened Llcp

  datatype Status = Disconnected | Connecting | Connected | Disconnecting

  /** A data link is found by its remote SAP and its local SAP. */
  type Key = (Sap, Sap)

  /** `struct llcp_data_link` */
  datatype Link = Link(status: Status, vs: nat, vsa: nat, vr: nat, vra: nat, rlen: byte, rbuf: seq<byte>, xmitQ: seq<Pdu>)

  /** `llcp_clear_data_link` */
  function ClearLink(l: Link): Link
  {
    l.(vs := 0, vsa := 0, vr := 0, vra := 0, rlen := 0)
  }

  /** `llcp_init_data_link`; whatever was queued is forgotten. */
  function InitLink(l: Link): Link
  {
    ClearLink(l.(status := Disconnected, xmitQ := []))
  }

  /** A link that the host connects. */
  function ConnectedLink(l: Link): Link
  {
    InitLink(l).(status := Connected)
  }

  /** A link on which the host accepts a connection; its pending PDUs move away. */
  function AcceptedLink(l: Link): Link
  {
    ClearLink(l).(status := Connected, xmitQ := [])
  }

  const FRESH_LINK := Link(Disconnected, 0, 0, 0, 0, 0, Zeros(RBUF_SIZE), [])

  /** The 64 x 64 table of data links. */
  type Links = m: map<Key, Link> | forall k: Key :: k in m ghost witness FreshLinks()

  ghost function FreshLinks(): (m: map<Key, Link>)
    ensures forall k: Key :: k in m && m[k] == FRESH_LINK
  {
    var m := map d: Sap, s: Sap | true :: (d, s) := FRESH_LINK;
    assert forall k: Key :: k == (k.0, k.1) && k in m;
    m
  }

  /**
   * Since a link was last cleared: the I PDUs made for it, whether the last one could not be made, and how many were
   * received.
   */
  datatype LinkLog = LinkLog(made: seq<Pdu>, lastFailed: bool, received: nat)

  const FRESH_LOG := LinkLog([], false, 0)

  type Logs = m: map<Key, LinkLog> | forall k: Key :: k in m ghost witness FreshLogs()

  ghost function FreshLogs(): (m: map<Key, LinkLog>)
    ensures forall k: Key :: k in m && m[k] == FRESH_LOG
  {
    var m := map d: Sap, s: Sap | true :: (d, s) := FRESH_LOG;
    assert forall k: Key :: k == (k.0, k.1) && k in m;
    m
  }

  /**
   * What happened so far; the C code keeps none of it. `created` are the PDUs made by send requests, `entered` those
   * that were sent at once or put into the endpoint's queue, in this order, `wire` the PDUs sent to the host on the
   * endpoint's own account, `dropped` those lost when a link was initialised, `overtaken` the links on which a PDU was
   * sent ahead of queued ones, `invited` the links the host has connected, `received` the number of PDUs processed.
   */
  datatype History = History(created: seq<Pdu>, entered: seq<Pdu>, wire: seq<Pdu>, dropped: multiset<Pdu>,
                             overtaken: set<Key>, invited: set<Key>, received: nat, logs: Logs)

  /** `struct nfc_re`, as far as LLCP is concerned; `timer` says whether the SYMM timeout is pending. */
  datatype State = State(links: Links, lastDsap: Sap, lastSsap: Sap, xmitNext: bool, timer: bool, xmitQ: seq<Pdu>,
                         h: History)

  /** The link of a PDU sent by the endpoint; its DSAP is the remote one. */
  function KeyOf(p: Pdu): Key
  {
    (p.dsap, p.ssap)
  }

  /** The link of a PDU sent by the host; its SSAP is the remote one. */
  function HostKeyOf(p: Pdu): Key
  {
    (p.ssap, p.dsap)
  }

  function SetLink(s: State, k: Key, l: Link): State
  {
    s.(links := s.links[k := l])
  }

  function SetStatus(s: State, k: Key, status: Status): State
  {
    SetLink(s, k, s.links[k].(status := status))
  }

  function SetLog(s: State, k: Key, l: Link, log: LinkLog): State
  {
    SetLink(s, k, l).(h := s.h.(logs := s.h.logs[k := log]))
  }

  /** `llcp_init_data_link` on a link of the endpoint. */
  function InitAt(s: State, k: Key): State
  {
    var t := SetLog(s, k, InitLink(s.links[k]), FRESH_LOG);
    t.(h := t.h.(dropped := t.h.dropped + multiset(s.links[k].xmitQ)))
  }

  // ----- Sending -----

  /** The size of a buffer for a PDU, in a queue or in an NCI packet. */
  const PDU_SIZE := 256

  /** The length of a PDU as a queued PDU or an NCI packet keeps it: in 8 bits. */
  function Len8(p: Pdu): byte
  {
    |Pack(p)| % 256
  }

  /** What of a PDU reaches the host: nothing if its length reads 0. */
  function OnWire(p: Pdu): (q: seq<Pdu>)
  {
    if Len8(p) == 0 then [] else [p]
  }

  /** The 8-bit length loses nothing of a PDU that fits its buffer, or all of it. */
  lemma EightBits(p: Pdu)
    requires |Pack(p)| <= PDU_SIZE
    ensures OnWire(p) == [] <==> |Pack(p)| == PDU_SIZE
    ensures OnWire(p) != [] ==> Pack(p)[..Len8(p)] == Pack(p)
  {
  }

  predicate Overtakes(s: State, k: Key)
  {
    s.xmitNext && exists p :: p in s.xmitQ && KeyOf(p) == k
  }

  /** `send_pdu_from_re` for a PDU just created: sent at once when it is our turn, queued otherwise. */
  function Emit(s: State, p: Pdu): State
  {
    var h := s.h.(created := s.h.created + [p], entered := s.h.entered + [p]);
    if s.xmitNext then
      var over := if Overtakes(s, KeyOf(p)) then {KeyOf(p)} else {};
      s.(xmitNext := false, timer := false, h := h.(wire := h.wire + OnWire(p), overtaken := h.overtaken + over))
    else
      s.(xmitQ := s.xmitQ + [p], h := h)
  }

  function ConnectPdu(k: Key): Pdu
  {
    Pdu(k.0, CONNECT, k.1, [])
  }

  /** `send_pdu_from_re` with `create_connect_dta` */
  function SendConnect(s: State, k: Key): State
  {
    SetStatus(Emit(s, ConnectPdu(k)), k, Connecting)
  }

  /** What the creator of the SNEP message left: the message, or an error and some bytes that go out nevertheless. */
  datatype Creation = Message(bytes: seq<byte>) | Failed(junk: seq<byte>)

  /** LLCP header and sequence byte */
  const INFO_HEADER := 3

  /** The message fits the buffer. After an error the length is -1, in 8 bits 255. */
  predicate FitsBuffer(c: Creation)
  {
    if c.Message? then INFO_HEADER + |c.bytes| <= PDU_SIZE else INFO_HEADER + |c.junk| == 255
  }

  /** `create_i_pdu`: the sequence numbers are those of the link now. */
  function InfoPdu(l: Link, k: Key, c: Creation): Pdu
  {
    Pdu(k.0, I, k.1, [SeqByte(l.vs, l.vr)] + (if c.Message? then c.bytes else c.junk))
  }

  /** `create_i_pdu` advances V(S) if the message was made. */
  function CountLink(l: Link, c: Creation): Link
  {
    if c.Failed? then l else l.(vs := (l.vs + 1) % 16)
  }

  function CountLog(l: Link, k: Key, log: LinkLog, c: Creation): LinkLog
  {
    if c.Failed? then log.(lastFailed := true)
    else log.(made := log.made + [InfoPdu(l, k, c)], lastFailed := false)
  }

  /** What `send_snep_over_llcp` does to its link: the PDU waits there unless the link is connected. */
  function PutOn(l: Link, k: Key, c: Creation): Link
  {
    var q := l.xmitQ + [InfoPdu(l, k, c)];
    match l.status
    case Disconnected => CountLink(l, c).(status := Connecting, xmitQ := q)
    case Connecting => CountLink(l, c).(xmitQ := q)
    case Connected => CountLink(l, c)
    case Disconnecting => l
  }

  /** A PDU that waits on its link. */
  function Created(s: State, p: Pdu): State
  {
    s.(h := s.h.(created := s.h.created + [p]))
  }

  /** `send_snep_over_llcp` */
  function SendPut(s: State, k: Key, c: Creation): State
  {
    var l := s.links[k];
    var p := InfoPdu(l, k, c);
    var t := SetLog(s, k, PutOn(l, k, c), CountLog(l, k, s.h.logs[k], c));
    match l.status
    case Disconnected => Emit(Created(t, p), ConnectPdu(k))
    case Connecting => Created(t, p)
    case Connected => Emit(t, p)
    case Disconnecting => s
  }

  const SYMM_PDU := Pdu(SAP_LM, SYMM, SAP_LM, [])

  /** `xmit_next_cb`: the oldest queued PDU. A SYMM goes out if there is none, or if its length reads 0. */
  function TimerFires(s: State): State
  {
    var p := if s.xmitQ == [] || Len8(s.xmitQ[0]) == 0 then SYMM_PDU else s.xmitQ[0];
    var rest := if s.xmitQ == [] then [] else s.xmitQ[1..];
    s.(xmitNext := false, timer := false, xmitQ := rest, h := s.h.(wire := s.h.wire + [p]))
  }

  // ----- Receiving -----

  /** The PDU has a handler, and the fixed fields it reads are there. */
  predicate Complete(p: Pdu)
  {
    if p.ptype == SYMM || p.ptype == CONNECT || p.ptype == DISC || p.ptype == CC then true
    else if p.ptype == DM || p.ptype == RR || p.ptype == RNR then |p.info| >= 1
    else if p.ptype == FRMR then |p.info| >= 4
    else if p.ptype == I then
      |p.info| >= 1 && (if p.dsap == SAP_SNEP then |p.info| - 1 >= SNEP_HEADER else |p.info| - 1 < RBUF_SIZE)
    else false
  }

  /** The handlers' own assertions, and the bytes of fixed fields they read. */
  predicate Accepts(s: State, p: Pdu)
  {
    Complete(p) && (p.ptype == CC ==> s.links[HostKeyOf(p)].status == Connecting)
  }

  /** `llcp_dl_write_rbuf` */
  function StoreInLink(l: Link, data: seq<byte>): Link
    requires |data| < RBUF_SIZE
  {
    l.(rlen := |data|, rbuf := if |data| <= |l.rbuf| then Splice(l.rbuf, 0, data) else l.rbuf)
  }

  /** What an I PDU carries into its link, and the code of the SNEP response if there is one. */
  function Delivered(p: Pdu): (d: Handling)
    requires p.ptype == I && Complete(p)
    ensures d.stored.Some? ==> |d.stored.value| < RBUF_SIZE
  {
    if p.dsap == SAP_SNEP then SapSnep(p.info[1..]) else Handling(Some(p.info[1..]), None)
  }

  /** `process_ptype_i`: the number is counted, and the data stored if the handler takes them. */
  function ReceivedOn(l: Link, p: Pdu): Link
    requires p.ptype == I && Complete(p)
  {
    var t, stored := l.(vr := (l.vr + 1) % 16), Delivered(p).stored;
    if stored.Some? then StoreInLink(t, stored.value) else t
  }

  /** What a PDU of the host does to its link: the handlers, by PDU type. */
  function HostOn(l: Link, p: Pdu): Link
    requires Complete(p)
  {
    if p.ptype == CONNECT then ConnectedLink(l)
    else if p.ptype == DISC || p.ptype == DM then l.(status := Disconnected)
    else if p.ptype == CC then AcceptedLink(l)
    else if p.ptype == I then ReceivedOn(l, p)
    else if p.ptype == RR || p.ptype == RNR then l.(vsa := p.info[0] % 16)
    else l
  }

  function LogOn(log: LinkLog, p: Pdu): LinkLog
  {
    if p.ptype == CONNECT || p.ptype == CC then FRESH_LOG
    else if p.ptype == I then log.(received := log.received + 1)
    else log
  }

  /** The handlers; after a CC the pending PDUs of the link move behind those of the endpoint. */
  function Handle(s: State, p: Pdu): State
    requires Accepts(s, p)
  {
    var k := HostKeyOf(p);
    var l := s.links[k];
    var t := SetLog(s, k, HostOn(l, p), LogOn(s.h.logs[k], p));
    if p.ptype == CONNECT then
      t.(h := t.h.(dropped := t.h.dropped + multiset(l.xmitQ), invited := t.h.invited + {k}))
    else if p.ptype == CC then
      t.(xmitQ := s.xmitQ + l.xmitQ, h := t.h.(entered := t.h.entered + l.xmitQ))
    else t
  }

  /** `update_last_saps`, called by every handler but the one for SYMM. */
  function Remember(s: State, p: Pdu): State
  {
    if p.ptype == SYMM then s else s.(lastDsap := p.ssap, lastSsap := p.dsap)
  }

  /** `process_llcp`: every PDU of the host gives us the right to send and starts the timer. */
  function Process(s: State, p: Pdu): State
    requires Accepts(s, p)
  {
    Remember(Handle(s, p), p).(xmitNext := true, timer := true, h := Handle(s, p).h.(received := s.h.received + 1))
  }

  /** How many bytes of a PDU its handler takes: the header and its fixed fields. A CC has none, but counts for one. */
  function Consumed(p: Pdu): (n: byte)
    requires Complete(p)
  {
    if p.ptype == SYMM || p.ptype == CONNECT || p.ptype == DISC then 2 else if p.ptype == FRMR then 6 else 3
  }

  /** No handler takes more than the PDU has, except from a CC without options. */
  lemma ConsumedIff(p: Pdu)
    requires Complete(p)
    ensures Consumed(p) <= |Pack(p)| <==> !(p.ptype == CC && p.info == [])
  {
  }

  /** The PDU returned to the host, if any. */
  datatype Reply = NoReply | Reply(pdu: Pdu)

  /** Where a SNEP response is put, counted from the LLCP header: behind the place where it belongs. */
  const RESPONSE_AT := 8

  /**
   * The answer to a PDU of the host, from the state before. V(S) is not advanced by a SNEP response. Of the response
   * itself only the first byte is sent, behind five bytes of what `was` in the packet's memory.
   */
  function ReplyTo(s: State, p: Pdu, was: seq<byte>): Reply
    requires Accepts(s, p) && |was| == PDU_SIZE
  {
    if p.ptype == CONNECT then Reply(Pdu(p.ssap, CC, p.dsap, []))
    else if p.ptype == DISC then Reply(Pdu(p.ssap, DM, p.dsap, [0]))
    else if p.ptype == I && Delivered(p).reply.Some? then
      var l := s.links[HostKeyOf(p)];
      Reply(Pdu(p.ssap, I, p.dsap, [SeqByte(l.vs, (l.vr + 1) % 16)] + was[INFO_HEADER..RESPONSE_AT] + [VERSION]))
    else NoReply
  }

  // ----- Runs -----

  function KeyAt(n: nat): Key
    requires n < 4096
  {
    (n / 64, n % 64)
  }

  /** `nfc_clear_re`, after the first `n` links. */
  function InitFirst(s: State, n: nat): State
    requires n <= 4096
  {
    if n == 0 then s else InitAt(InitFirst(s, n - 1), KeyAt(n - 1))
  }

  /** `nfc_clear_re` */
  function Clear(s: State): State
  {
    InitFirst(s, 4096).(lastDsap := SAP_LM, lastSsap := SAP_LM)
  }

  datatype Event = Host(pdu: Pdu) | UserConnect(key: Key) | UserPut(key: Key, snep: Creation) | Timeout | Clearing

  predicate Enabled(s: State, e: Event)
  {
    match e
    case Host(p) => Accepts(s, p)
    case UserConnect(k) => s.links[k].status == Disconnected
    case UserPut(_, c) => FitsBuffer(c)
    case Timeout => s.timer
    case Clearing => true
  }

  function Step(s: State, e: Event): State
    requires Enabled(s, e)
  {
    match e
    case Host(p) => Process(s, p)
    case UserConnect(k) => SendConnect(s, k)
    case UserPut(k, c) => SendPut(s, k, c)
    case Timeout => TimerFires(s)
    case Clearing => Clear(s)
  }

  /** The endpoint after its links were first initialised. */
  ghost function Start(): State
  {
    State(FreshLinks(), SAP_LM, SAP_LM, false, false, [], History([], [], [], multiset{}, {}, {}, 0, FreshLogs()))
  }

  /** The state after a run; none if one of the events is not enabled when it comes. */
  ghost function Run(events: seq<Event>): Option<State>
  {
    if events == [] then Some(Start())
    else
      var n := |events| - 1;
      match Run(events[..n])
      case None => None
      case Some(s) => if Enabled(s, events[n]) then Some(Step(s, events[n])) else None
  }
}
