/** The numbers of a link's I PDUs, told from the events of a run and from what the host sees. */
module EndpointNumbers {
  import opened Bytes
  import opened Llcp
  import opened Endpoint
  import opened EndpointProofs
  import opened EndpointRuns

  /**
   * An I PDU created for a link, whether its message could be made, and how many I PDUs of the host the link had
   * received before, since its numbers last started again.
   */
  datatype Put = Put(pdu: Pdu, made: bool, received: nat)

  /** The events after which the sequence numbers of link `k` start again. */
  predicate Restarts(e: Event, k: Key)
  {
    e == Clearing || (e.Host? && HostKeyOf(e.pdu) == k && e.pdu.ptype in {CONNECT, CC})
  }

  /** The I PDUs of the host on link `k` since its numbers last started again. */
  function ReceivedSince(events: seq<Event>, k: Key): nat
  {
    if events == [] then 0
    else
      var e, n := events[|events| - 1], ReceivedSince(events[..|events| - 1], k);
      if Restarts(e, k) then 0
      else if e.Host? && e.pdu.ptype == I && HostKeyOf(e.pdu) == k then n + 1
      else n
  }

  /** The I PDUs created for link `k` since its numbers last started again. */
  ghost function PutsSince(events: seq<Event>, k: Key): seq<Put>
    requires Run(events).Some?
  {
    if events == [] then []
    else
      var n := |events| - 1;
      var e, puts := events[n], PutsSince(events[..n], k);
      if Restarts(e, k) then []
      else if e.UserPut? && e.key == k then
        puts + [Put(InfoPdu(Run(events[..n]).value.links[k], k, e.snep), e.snep.Message?, ReceivedSince(events[..n], k))]
      else puts
  }

  /** What had been created, for all links, when the numbers of link `k` last started again. */
  ghost function CreatedBefore(events: seq<Event>, k: Key): seq<Pdu>
    requires Run(events).Some?
  {
    if events == [] then []
    else
      var n := |events| - 1;
      if Restarts(events[n], k) then Run(events).value.h.created else CreatedBefore(events[..n], k)
  }

  function Pdus(puts: seq<Put>): (q: seq<Pdu>)
    ensures |q| == |puts| && forall i :: 0 <= i < |q| ==> q[i] == puts[i].pdu
  {
    seq(|puts|, i requires 0 <= i < |puts| => puts[i].pdu)
  }

  /** Those whose message could be made. */
  function Made(puts: seq<Put>): seq<Pdu>
  {
    if puts == [] then []
    else Made(puts[..|puts| - 1]) + if puts[|puts| - 1].made then [puts[|puts| - 1].pdu] else []
  }

  lemma MadeAppend(puts: seq<Put>, p: Put)
    ensures Made(puts + [p]) == Made(puts) + if p.made then [p.pdu] else []
  {
    assert (puts + [p])[..|puts|] == puts;
  }

  // ----- One event -----

  lemma NeverDisconnecting(s: State, k: Key)
    requires Invariant(s)
    ensures s.links[k].status != Disconnecting
  {
    LinkInvariant(s, k);
  }

  lemma PutLog(s: State, j: Key, c: Creation, k: Key)
    requires s.links[j].status != Disconnecting
    ensures SendPut(s, j, c).h.logs[k] == if j == k then CountLog(s.links[k], k, s.h.logs[k], c) else s.h.logs[k]
  {
    hide InfoPdu, PutOn, CountLog, OnWire, Overtakes;
  }

  lemma {:induction false} InitFirstLogs(s: State, n: nat, k: Key)
    requires n <= 4096
    ensures InitFirst(s, n).h.logs[k] == if Index(k) < n then FRESH_LOG else s.h.logs[k]
  {
    hide Index, KeyAt, InitLink, InitAt;
    if n > 0 {
      InitFirstLogs(s, n - 1, k);
      InitFields(InitFirst(s, n - 1), KeyAt(n - 1));
      KeyAtIndex(k);
      IndexOfKeyAt(n - 1);
    }
  }

  lemma HandleLog(s: State, p: Pdu, k: Key)
    requires Accepts(s, p)
    ensures Handle(s, p).h.logs[k] == if HostKeyOf(p) == k then LogOn(s.h.logs[k], p) else s.h.logs[k]
  {
    hide HostOn, LogOn;
  }

  /** What an event does to the log of a link. */
  lemma StepLog(s: State, e: Event, k: Key)
    requires Invariant(s) && Enabled(s, e)
    ensures var (l, t) := (s.h.logs[k], Step(s, e).h.logs[k]);
      if Restarts(e, k) then t == FRESH_LOG
      else if e.UserPut? && e.key == k then t == CountLog(s.links[k], k, l, e.snep)
      else if e.Host? && HostKeyOf(e.pdu) == k && e.pdu.ptype == I then t == l.(received := l.received + 1)
      else t == l
  {
    hide Invariant, InitFirst, Handle, SendPut, Accepts, CountLog, Emit, TimerFires;
    if e.UserPut? {
      NeverDisconnecting(s, e.key);
    }
    match e
    case Host(p) => HandleLog(s, p, k);
    case UserConnect(j) => EmitFields(s, ConnectPdu(j));
    case UserPut(j, c) => PutLog(s, j, c, k);
    case Timeout => TimerFields(s);
    case Clearing => InitFirstLogs(s, 4096, k);
  }

  lemma PutCreatesData(s: State, j: Key, c: Creation, k: Key)
    requires s.links[j].status != Disconnecting
    ensures Sel(SendPut(s, j, c).h.created, k, DataOnly)
         == Sel(s.h.created, k, DataOnly) + if j == k then Sel([InfoPdu(s.links[k], k, c)], k, DataOnly) else []
  {
    var p := InfoPdu(s.links[j], j, c);
    assert KeyOf(p) == j;
    hide Sel, InfoPdu, PutOn, CountLog, OnWire, Overtakes, Len8;
    SelOne(p, k, DataOnly);
    SelOne(ConnectPdu(j), k, DataOnly);
    SelAppend(s.h.created, [p], k, DataOnly);
    SelAppend(s.h.created + [p], [ConnectPdu(j)], k, DataOnly);
  }

  lemma ConnectIsNoData(j: Key, k: Key)
    ensures !Chosen(ConnectPdu(j), k, DataOnly)
  {
  }

  /** An event creates an I PDU for a link exactly when it is a put on this link. */
  lemma StepCreates(s: State, e: Event, k: Key)
    requires Invariant(s) && Enabled(s, e)
    ensures Sel(Step(s, e).h.created, k, DataOnly)
         == Sel(s.h.created, k, DataOnly)
            + if e.UserPut? && e.key == k then Sel([InfoPdu(s.links[k], k, e.snep)], k, DataOnly) else []
    ensures Restarts(e, k) ==> Step(s, e).h.created == s.h.created
  {
    hide Invariant, InitFirst, Handle, SendPut, Accepts, Sel, InfoPdu, Emit, TimerFires, Chosen;
    if e.UserPut? {
      NeverDisconnecting(s, e.key);
    }
    match e
    case Host(p) => HandleFields(s, p);
    case UserConnect(j) =>
      EmitFields(s, ConnectPdu(j));
      SelAppend(s.h.created, [ConnectPdu(j)], k, DataOnly);
      SelOne(ConnectPdu(j), k, DataOnly);
      ConnectIsNoData(j, k);
    case UserPut(j, c) => PutCreatesData(s, j, c, k);
    case Timeout => TimerFields(s);
    case Clearing => InitFirstFields(s, 4096);
  }

  // ----- Runs -----

  /** The log holds the I PDUs created since the numbers started again, those of failed creators left out. */
  lemma {:induction false} LogIsOfPuts(events: seq<Event>, s: State, k: Key)
    requires Run(events) == Some(s)
    ensures s.h.logs[k].made == Made(PutsSince(events, k))
    ensures s.h.logs[k].lastFailed <==> PutsSince(events, k) != [] && !PutsSince(events, k)[|PutsSince(events, k)| - 1].made
  {
    hide Step, Enabled, Restarts, InfoPdu, Invariant, ReceivedSince;
    if events == [] {
      assert Start().h.logs[k] == FRESH_LOG;
    } else {
      var n := |events| - 1;
      var r, e, puts := Run(events[..n]).value, events[n], PutsSince(events[..n], k);
      LogIsOfPuts(events[..n], r, k);
      RunKeeps(events[..n]);
      StepLog(r, e, k);
      if e.UserPut? {
        MadeAppend(puts, Put(InfoPdu(r.links[k], k, e.snep), e.snep.Message?, ReceivedSince(events[..n], k)));
      }
    }
  }

  /** V(R) of a link is the number of I PDUs the host sent on it, mod 16. */
  lemma {:induction false} ReceivedIsCounted(events: seq<Event>, s: State, k: Key)
    requires Run(events) == Some(s)
    ensures s.h.logs[k].received == ReceivedSince(events, k)
    ensures s.links[k].vr == ReceivedSince(events, k) % 16
  {
    hide Step, Enabled, Restarts, CountLog, Invariant;
    RunKeeps(events);
    LinkInvariant(s, k);
    if events != [] {
      var n := |events| - 1;
      var r, e := Run(events[..n]).value, events[n];
      ReceivedIsCounted(events[..n], r, k);
      RunKeeps(events[..n]);
      StepLog(r, e, k);
      CountReceivesNothing(r.links[k], k, r.h.logs[k], e);
      RestartIsNoPut(e, k);
    }
  }

  lemma CountReceivesNothing(l: Link, k: Key, log: LinkLog, e: Event)
    ensures e.UserPut? ==> CountLog(l, k, log, e.snep).received == log.received
  {
  }

  lemma RestartIsNoPut(e: Event, k: Key)
    ensures Restarts(e, k) ==> !e.UserPut? && !(e.Host? && e.pdu.ptype == I)
  {
  }

  /** These I PDUs are the last ones created for the link. */
  lemma {:induction false} PutsAreCreated(events: seq<Event>, s: State, k: Key)
    requires Run(events) == Some(s)
    ensures Sel(s.h.created, k, DataOnly)
         == Sel(CreatedBefore(events, k), k, DataOnly) + Sel(Pdus(PutsSince(events, k)), k, DataOnly)
  {
    hide Step, Enabled, Restarts, InfoPdu, Invariant, Sel, ReceivedSince;
    SelNone([], k, DataOnly);
    if events == [] {
      assert Pdus([]) == [];
    } else {
      var n := |events| - 1;
      var r, e, puts := Run(events[..n]).value, events[n], PutsSince(events[..n], k);
      PutsAreCreated(events[..n], r, k);
      RunKeeps(events[..n]);
      StepCreates(r, e, k);
      if Restarts(e, k) {
        assert Pdus([]) == [];
      } else if e.UserPut? && e.key == k {
        var p := InfoPdu(r.links[k], k, e.snep);
        assert Pdus(puts + [Put(p, e.snep.Message?, ReceivedSince(events[..n], k))]) == Pdus(puts) + [p];
        SelAppend(Pdus(puts), [p], k, DataOnly);
      }
    }
  }

  /** N(R) of an I PDU. */
  function Nr(p: Pdu): int
  {
    if p.info == [] then -1 else p.info[0] % 16
  }

  /**
   * Every one carries as N(S) the number of messages made before it, and as N(R) the number of I PDUs received before
   * it, both mod 16.
   */
  ghost predicate PutsNumbered(puts: seq<Put>, k: Key)
  {
    forall j :: 0 <= j < |puts| ==>
      && KeyOf(puts[j].pdu) == k && puts[j].pdu.ptype == I
      && Ns(puts[j].pdu) == |Made(puts[..j])| % 16 && Nr(puts[j].pdu) == puts[j].received % 16
  }

  lemma NumberedMore(puts: seq<Put>, k: Key, p: Put)
    requires PutsNumbered(puts, k)
    requires KeyOf(p.pdu) == k && p.pdu.ptype == I && Ns(p.pdu) == |Made(puts)| % 16 && Nr(p.pdu) == p.received % 16
    ensures PutsNumbered(puts + [p], k)
  {
    hide Made, Ns, Nr;
    forall j | 0 <= j <= |puts|
      ensures (puts + [p])[..j] == puts[..j]
    {
    }
    assert puts[..|puts|] == puts;
  }

  lemma {:induction false} PutsAreNumbered(events: seq<Event>, s: State, k: Key)
    requires Run(events) == Some(s)
    ensures PutsNumbered(PutsSince(events, k), k)
  {
    hide Step, Enabled, Restarts, InfoPdu, Invariant, PutsNumbered, Made, Ns, Nr, ReceivedSince;
    if events == [] {
      NoneNumbered(k);
    } else {
      var n := |events| - 1;
      var r, e, puts := Run(events[..n]).value, events[n], PutsSince(events[..n], k);
      PutsAreNumbered(events[..n], r, k);
      NoneNumbered(k);
      if e.UserPut? && e.key == k {
        RunKeeps(events[..n]);
        LinkInvariant(r, k);
        LogIsOfPuts(events[..n], r, k);
        assert FitsBuffer(e.snep) by {
          Requires(r, e);
        }
        InfoNumbered(r.links[k], k, r.h.logs[k], e.snep);
        ReceivedIsCounted(events[..n], r, k);
        InfoAcknowledges(r.links[k], k, e.snep);
        NumberedMore(puts, k, Put(InfoPdu(r.links[k], k, e.snep), e.snep.Message?, ReceivedSince(events[..n], k)));
      }
    }
  }

  lemma InfoAcknowledges(l: Link, k: Key, c: Creation)
    ensures Nr(InfoPdu(l, k, c)) == l.vr % 16
  {
  }

  lemma NoneNumbered(k: Key)
    ensures PutsNumbered([], k)
  {
  }

  lemma Requires(s: State, e: Event)
    requires Enabled(s, e) && e.UserPut?
    ensures FitsBuffer(e.snep)
  {
  }

  lemma {:induction false} AllChosen(q: seq<Pdu>, k: Key)
    requires forall i :: 0 <= i < |q| ==> Chosen(q[i], k, DataOnly)
    ensures Sel(q, k, DataOnly) == q
  {
    hide Chosen;
    if q != [] {
      AllChosen(q[1..], k);
    }
  }

  /**
   * What the host sees: of the I PDUs of a link on the wire, those that were created since the numbers last started
   * again carry as N(S), one after the other, the number of messages made before them, mod 16; so 0, 1, 2, ... if no
   * creator failed.
   */
  lemma NumbersOnWire(events: seq<Event>, s: State, k: Key, n: nat)
    requires Run(events) == Some(s) && !EverLoses(events, k) && !EverJumps(events, k)
    requires AllFit(Pdus(PutsSince(events, k)))
    requires |Sel(CreatedBefore(events, k), k, DataOnly)| <= n < |Sel(s.h.wire, k, DataOnly)|
    ensures var j := n - |Sel(CreatedBefore(events, k), k, DataOnly)|;
      && j < |PutsSince(events, k)|
      && Sel(s.h.wire, k, DataOnly)[n] == PutsSince(events, k)[j].pdu
      && Ns(Sel(s.h.wire, k, DataOnly)[n]) == |Made(PutsSince(events, k)[..j])| % 16
      && Nr(Sel(s.h.wire, k, DataOnly)[n]) == PutsSince(events, k)[j].received % 16
  {
    hide Run, Sel, Made, Ns, Nr, EverLoses, EverJumps, Len8;
    var puts := PutsSince(events, k);
    PutsAreCreated(events, s, k);
    PutsAreNumbered(events, s, k);
    AllChosen(Pdus(puts), k);
    FirstInFirstOut(events, s, k);
    var w, b := Sel(s.h.wire, k, DataOnly), Sel(CreatedBefore(events, k), k, DataOnly);
    assert w[n] == (b + Pdus(puts))[n];
  }

  /** If no creator failed, this number is the position. */
  lemma {:induction false} AllMade(puts: seq<Put>)
    requires forall i :: 0 <= i < |puts| ==> puts[i].made
    ensures |Made(puts)| == |puts|
  {
    if puts != [] {
      AllMade(puts[..|puts| - 1]);
    }
  }

  /** So the host sees 0, 1, 2, ... mod 16 if no creator failed since the numbers started again. */
  lemma ConsecutiveOnWire(events: seq<Event>, s: State, k: Key, n: nat)
    requires Run(events) == Some(s) && !EverLoses(events, k) && !EverJumps(events, k)
    requires AllFit(Pdus(PutsSince(events, k)))
    requires forall i :: 0 <= i < |PutsSince(events, k)| ==> PutsSince(events, k)[i].made
    requires |Sel(CreatedBefore(events, k), k, DataOnly)| <= n < |Sel(s.h.wire, k, DataOnly)|
    ensures Ns(Sel(s.h.wire, k, DataOnly)[n]) == (n - |Sel(CreatedBefore(events, k), k, DataOnly)|) % 16
  {
    hide Run, Sel, Made, Ns, EverLoses, EverJumps, Len8, PutsSince, CreatedBefore;
    NumbersOnWire(events, s, k, n);
    AllMade(PutsSince(events, k)[..n - |Sel(CreatedBefore(events, k), k, DataOnly)|]);
  }

  /** A SNEP response carries the numbers of its link: N(S) of the next message, and N(R) with the request counted. */
  lemma ResponseNumbers(events: seq<Event>, s: State, p: Pdu, was: seq<byte>)
    requires Run(events) == Some(s) && Accepts(s, p) && |was| == PDU_SIZE && p.ptype == I
    requires ReplyTo(s, p, was).Reply?
    ensures var (k, r) := (HostKeyOf(p), ReplyTo(s, p, was).pdu);
      && r.dsap == p.ssap && r.ssap == p.dsap && r.ptype == 12
      && Ns(r) == |Made(PutsSince(events, k))| % 16 && Nr(r) == (ReceivedSince(events, k) + 1) % 16
  {
    hide Run, Invariant, ReplyTo, LinkOk, Made, PutsSince, ReceivedSince, Accepts, Delivered, Ns, Nr;
    var k := HostKeyOf(p);
    RunKeeps(events);
    VsOfLog(s, k);
    LogIsOfPuts(events, s, k);
    ReceivedIsCounted(events, s, k);
    ResponseOf(s, p, was);
    NextMod(ReceivedSince(events, k));
    NextMod(|s.h.logs[k].made|);
  }

  lemma VsOfLog(s: State, k: Key)
    requires Invariant(s)
    ensures s.links[k].vs == |s.h.logs[k].made| % 16
  {
    LinkInvariant(s, k);
  }

  lemma ResponseOf(s: State, p: Pdu, was: seq<byte>)
    requires Accepts(s, p) && |was| == PDU_SIZE && p.ptype == I && ReplyTo(s, p, was).Reply?
    ensures var (l, r) := (s.links[HostKeyOf(p)], ReplyTo(s, p, was).pdu);
      && r.dsap == p.ssap && r.ssap == p.dsap && r.ptype == 12
      && Ns(r) == l.vs % 16 && Nr(r) == (l.vr + 1) % 16
  {
    hide Delivered;
  }
}
