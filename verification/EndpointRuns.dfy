/** Theorems about whole runs of the endpoint, and the exact limits of sending, ordering and numbering. */
module EndpointRuns {
  import opened Bytes
  import opened Llcp
  import opened Endpoint
  import opened EndpointProofs

  // ----- Turns and links -----

  /** What was sent on the endpoint's own account was paid for by PDUs of the host; the timer runs while it is our turn. */
  lemma TurnTaking(events: seq<Event>, s: State)
    requires Run(events) == Some(s)
    ensures (s.xmitNext <==> s.timer) && |s.h.wire| + (if s.xmitNext then 1 else 0) <= s.h.received
  {
    hide LinksOk, LogsOk, QueuesOk, Run;
    RunKeeps(events);
  }

  lemma DataLinks(events: seq<Event>, s: State, k: Key)
    requires Run(events) == Some(s)
    ensures s.links[k].status != Disconnecting && (s.links[k].status == Connected ==> s.links[k].xmitQ == [])
    ensures s.links[k].vs < 16 && s.links[k].vr < 16 && s.links[k].vsa < 16 && s.links[k].vra < 16
  {
    hide Invariant, LogOk, Run;
    RunKeeps(events);
    LinkInvariant(s, k);
  }

  /** Since a link was cleared, the n-th I PDU made carries N(S) = n mod 16, and V(R) is the number received mod 16. */
  lemma Numbering(events: seq<Event>, s: State, k: Key, n: nat)
    requires Run(events) == Some(s)
    ensures s.links[k].vr == s.h.logs[k].received % 16
    ensures n < |s.h.logs[k].made| ==> Ns(s.h.logs[k].made[n]) == n % 16
  {
    hide Invariant, LinkOk, Run;
    RunKeeps(events);
    LinkInvariant(s, k);
  }

  /** A PDU of the host changes only the link that the reply is sent on. */
  lemma ReplyStaysOnLink(s: State, p: Pdu, was: seq<byte>)
    requires Accepts(s, p) && |was| == PDU_SIZE
    ensures forall k: Key :: k != HostKeyOf(p) ==> Process(s, p).links[k] == s.links[k]
    ensures ReplyTo(s, p, was).Reply? ==> KeyOf(ReplyTo(s, p, was).pdu) == HostKeyOf(p)
  {
    hide HostOn, Delivered;
  }

  /** A SNEP response and the next I PDU made on its link carry the same N(S). */
  lemma ResponseNumberIsReused(s: State, p: Pdu, was: seq<byte>, c: Creation)
    requires Accepts(s, p) && |was| == PDU_SIZE && p.ptype == I && ReplyTo(s, p, was).Reply?
    ensures Ns(ReplyTo(s, p, was).pdu) == Ns(InfoPdu(Process(s, p).links[HostKeyOf(p)], HostKeyOf(p), c))
  {
    hide Delivered;
  }

  /**
   * The host cannot tell success from failure: all requests on a link that are answered at all get the same reply,
   * whether their information field was stored, was too long, or was of an unknown kind or version.
   */
  lemma ResponsesAreAlike(s: State, p: Pdu, q: Pdu, was: seq<byte>)
    requires Accepts(s, p) && Accepts(s, q) && |was| == PDU_SIZE && p.ptype == I && q.ptype == I
    requires HostKeyOf(p) == HostKeyOf(q) && Delivered(p).reply.Some? && Delivered(q).reply.Some?
    ensures ReplyTo(s, p, was) == ReplyTo(s, q, was)
  {
    hide Delivered;
  }

  // ----- What a run loses, sends out of turn, and was asked by the host -----

  /** The events that lose PDUs of link `k`. */
  ghost predicate Loses(s: State, e: Event, k: Key)
  {
    s.links[k].xmitQ != [] && (e == Clearing || ConnectsTo(e, k))
  }

  /** The host connects link `k`. */
  predicate ConnectsTo(e: Event, k: Key)
  {
    e.Host? && e.pdu.ptype == CONNECT && HostKeyOf(e.pdu) == k
  }

  /** The events that send a PDU of link `k` ahead of queued ones. */
  ghost predicate Jumps(s: State, e: Event, k: Key)
  {
    s.xmitNext && (exists p :: p in s.xmitQ && KeyOf(p) == k) &&
    (e == UserConnect(k) || (e.UserPut? && e.key == k && s.links[k].status in {Disconnected, Connected}))
  }

  ghost predicate EverLoses(events: seq<Event>, k: Key)
    requires Run(events).Some?
  {
    var n := |events| - 1;
    events != [] && (EverLoses(events[..n], k) || Loses(Run(events[..n]).value, events[n], k))
  }

  ghost predicate EverJumps(events: seq<Event>, k: Key)
    requires Run(events).Some?
  {
    var n := |events| - 1;
    events != [] && (EverJumps(events[..n], k) || Jumps(Run(events[..n]).value, events[n], k))
  }

  predicate EverInvited(events: seq<Event>, k: Key)
  {
    exists i :: 0 <= i < |events| && ConnectsTo(events[i], k)
  }

  function Index(k: Key): (n: nat)
    ensures n < 4096
  {
    k.0 * 64 + k.1
  }

  lemma IndexOfKeyAt(n: nat)
    requires n < 4096
    ensures Index(KeyAt(n)) == n
  {
  }

  lemma KeyAtIndex(k: Key)
    ensures KeyAt(Index(k)) == k
  {
  }

  /** The first `n` links are initialised, the others are untouched. */
  lemma {:induction false} InitFirstLinks(s: State, n: nat, k: Key)
    requires n <= 4096
    ensures InitFirst(s, n).links[k] == if Index(k) < n then InitLink(s.links[k]) else s.links[k]
  {
    hide Index, KeyAt, InitLink;
    if n > 0 {
      InitFirstLinks(s, n - 1, k);
      KeyAtIndex(k);
      IndexOfKeyAt(n - 1);
    }
  }

  lemma InitAtDrops(s: State, j: Key, k: Key)
    requires LinkOk(j, s.links[j])
    ensures Lossless(InitAt(s, j), k) <==> Lossless(s, k) && (j == k ==> s.links[k].xmitQ == [])
  {
    var q := s.links[j].xmitQ;
    assert InitAt(s, j).h.dropped == s.h.dropped + multiset(q);
    assert q != [] ==> q[0] in multiset(q);
  }

  lemma {:induction false} InitFirstDrops(s: State, n: nat, k: Key)
    requires n <= 4096 && Invariant(s)
    ensures Lossless(InitFirst(s, n), k) <==> Lossless(s, k) && (Index(k) < n ==> s.links[k].xmitQ == [])
  {
    hide Index, KeyAt, InitLink, Invariant, Lossless, InitAt;
    if n > 0 {
      var t := InitFirst(s, n - 1);
      InitFirstDrops(s, n - 1, k);
      InitFirstKeeps(s, n - 1);
      LinkInvariant(t, KeyAt(n - 1));
      InitAtDrops(t, KeyAt(n - 1), k);
      InitFirstLinks(s, n - 1, k);
      IndexOfKeyAt(n - 1);
      KeyAtIndex(k);
    }
  }

  lemma {:induction false} InitFirstFields(s: State, n: nat)
    requires n <= 4096
    ensures InitFirst(s, n).h == s.h.(dropped := InitFirst(s, n).h.dropped, logs := InitFirst(s, n).h.logs)
  {
    if n > 0 {
      InitFirstFields(s, n - 1);
    }
  }

  lemma HandleDrops(s: State, p: Pdu)
    requires Accepts(s, p)
    ensures Handle(s, p).h.dropped
         == s.h.dropped + if p.ptype == CONNECT then multiset(s.links[HostKeyOf(p)].xmitQ) else multiset{}
    ensures Handle(s, p).h.invited == s.h.invited + if p.ptype == CONNECT then {HostKeyOf(p)} else {}
    ensures Handle(s, p).h.entered
         == s.h.entered + if p.ptype == CC then s.links[HostKeyOf(p)].xmitQ else []
    ensures Handle(s, p).h.overtaken == s.h.overtaken && Handle(s, p).h.created == s.h.created
  {
  }

  lemma PutFields(s: State, k: Key, c: Creation)
    ensures SendPut(s, k, c).h.dropped == s.h.dropped && SendPut(s, k, c).h.invited == s.h.invited
    ensures s.h.entered <= SendPut(s, k, c).h.entered && s.h.overtaken <= SendPut(s, k, c).h.overtaken
  {
    hide InfoPdu, CountLog, PutOn, OnWire, ConnectPdu, Overtakes;
  }

  lemma StepLoses(s: State, e: Event, k: Key)
    requires Invariant(s) && Enabled(s, e)
    ensures Lossless(Step(s, e), k) <==> Lossless(s, k) && !Loses(s, e, k)
  {
    hide Invariant, InitFirst, Handle, SendPut, Accepts;
    match e
    case Host(p) =>
      HandleDrops(s, p);
      LinkInvariant(s, HostKeyOf(p));
      var q := s.links[HostKeyOf(p)].xmitQ;
      assert q != [] ==> q[0] in multiset(q) && KeyOf(q[0]) == HostKeyOf(p);
    case UserPut(j, c) => PutFields(s, j, c);
    case Clearing => InitFirstDrops(s, 4096, k);
    case _ =>
      assert Step(s, e).h.dropped == s.h.dropped;
  }

  lemma EmitOvertakes(s: State, p: Pdu, j: Key)
    ensures j in Emit(s, p).h.overtaken <==> j in s.h.overtaken || (j == KeyOf(p) && Overtakes(s, j))
  {
  }

  lemma PutOvertakes(s: State, k: Key, c: Creation, j: Key)
    ensures j in SendPut(s, k, c).h.overtaken <==> j in s.h.overtaken || Jumps(s, UserPut(k, c), j)
  {
    var p, l := InfoPdu(s.links[k], k, c), s.links[k];
    var t := SetLog(s, k, PutOn(l, k, c), CountLog(l, k, s.h.logs[k], c));
    assert KeyOf(p) == k && KeyOf(ConnectPdu(k)) == k;
    EmitOvertakes(t, p, j);
    EmitOvertakes(Created(t, p), ConnectPdu(k), j);
    SameOvertaking(s, t);
    SameOvertaking(s, Created(t, p));
    hide CountLink, CountLog, InfoPdu, ConnectPdu, Emit, PutOn, Overtakes;
  }

  lemma StepJumps(s: State, e: Event, k: Key)
    requires Enabled(s, e)
    ensures k in Step(s, e).h.overtaken <==> k in s.h.overtaken || Jumps(s, e, k)
  {
    hide InitFirst, Handle, SendPut, Accepts, Emit;
    match e
    case Host(p) => HandleFields(s, p);
    case UserConnect(j) => EmitOvertakes(s, ConnectPdu(j), k);
    case UserPut(j, c) => PutOvertakes(s, j, c, k);
    case Clearing => InitFirstFields(s, 4096);
    case Timeout =>
  }

  lemma {:induction false} RunLosesIff(events: seq<Event>, k: Key)
    requires Run(events).Some?
    ensures Lossless(Run(events).value, k) <==> !EverLoses(events, k)
  {
    hide Step, Loses, Enabled, Invariant;
    var n := |events| - 1;
    if events != [] {
      RunLosesIff(events[..n], k);
      RunKeeps(events[..n]);
      StepLoses(Run(events[..n]).value, events[n], k);
    }
  }

  lemma {:induction false} RunJumpsIff(events: seq<Event>, k: Key)
    requires Run(events).Some?
    ensures k in Run(events).value.h.overtaken <==> EverJumps(events, k)
  {
    hide Step, Jumps, Enabled;
    var n := |events| - 1;
    if events != [] {
      RunJumpsIff(events[..n], k);
      StepJumps(Run(events[..n]).value, events[n], k);
    }
  }

  /** What no event takes back. */
  ghost predicate Grows(s: State, t: State)
  {
    s.h.entered <= t.h.entered && s.h.overtaken <= t.h.overtaken
  }

  lemma StepGrows(s: State, e: Event, k: Key)
    requires Enabled(s, e)
    ensures Grows(s, Step(s, e))
    ensures k in Step(s, e).h.invited <==> k in s.h.invited || ConnectsTo(e, k)
  {
    hide InitFirst, Handle, SendPut, Accepts;
    match e
    case Host(p) => HandleDrops(s, p);
    case UserConnect(j) => EmitFields(s, ConnectPdu(j));
    case UserPut(j, c) => PutFields(s, j, c);
    case Clearing => InitFirstFields(s, 4096);
    case Timeout =>
  }

  lemma {:induction false} RunInvitedIff(events: seq<Event>, k: Key)
    requires Run(events).Some?
    ensures k in Run(events).value.h.invited <==> EverInvited(events, k)
  {
    hide Step, Enabled, ConnectsTo;
    var n := |events| - 1;
    if events != [] {
      RunInvitedIff(events[..n], k);
      StepGrows(Run(events[..n]).value, events[n], k);
      assert EverInvited(events, k) <==> EverInvited(events[..n], k) || ConnectsTo(events[n], k);
    }
  }

  lemma {:induction false} RunGrows(events: seq<Event>, more: seq<Event>)
    requires Run(events + more).Some?
    ensures Run(events).Some? && Grows(Run(events).value, Run(events + more).value)
  {
    hide Step, Enabled;
    if more == [] {
      assert events + more == events;
    } else {
      var n := |more| - 1;
      var all := events + more;
      assert all[..|all| - 1] == events + more[..n];
      RunGrows(events, more[..n]);
      StepGrows(Run(events + more[..n]).value, more[n], (0, 0));
    }
  }

  // ----- The main theorems on sending -----

  /**
   * Every PDU made for a link and shorter than its buffer is sent, queued, or pending on the link, as often as it was
   * made.
   */
  lemma Conservation(events: seq<Event>, s: State, p: Pdu)
    requires Run(events) == Some(s) && p.ptype != SYMM && !EverLoses(events, KeyOf(p))
    requires |Pack(p)| < PDU_SIZE
    ensures multiset(s.h.created)[p]
         == multiset(s.h.wire)[p] + multiset(s.xmitQ)[p] + multiset(s.links[KeyOf(p)].xmitQ)[p]
  {
    hide Run, LinksOk, LogsOk, SizesOk, MadeOk, OrderOk, AttemptOk, ConnectOk, TurnsOk;
    RunKeeps(events);
    RunLosesIff(events, KeyOf(p));
    assert multiset(s.h.created)[p] == Located(s, p);
  }

  /** A PDU that fills its buffer has length 0 in 8 bits, and never reaches the host. */
  lemma FullBufferIsNeverSent(events: seq<Event>, s: State, p: Pdu)
    requires Run(events) == Some(s) && |Pack(p)| == PDU_SIZE
    ensures p !in s.h.wire
  {
    hide Run, LinksOk, LogsOk, Conserved, MadeOk, OrderOk, AttemptOk, ConnectOk, TurnsOk, Pack;
    RunKeeps(events);
    assert Len8(p) == 0;
  }

  /** No message of the run fills its buffer. */
  predicate SmallMessages(events: seq<Event>)
  {
    forall i :: 0 <= i < |events| && events[i].UserPut? && events[i].snep.Message? ==>
      INFO_HEADER + |events[i].snep.bytes| < PDU_SIZE
  }

  predicate AllFit(q: seq<Pdu>)
  {
    forall i :: 0 <= i < |q| ==> Len8(q[i]) != 0
  }

  lemma PutCreates(s: State, k: Key, c: Creation)
    ensures var p := InfoPdu(s.links[k], k, c);
      SendPut(s, k, c).h.created in {s.h.created, s.h.created + [p], s.h.created + [p] + [ConnectPdu(k)]}
  {
    hide InfoPdu, CountLog, PutOn, OnWire, ConnectPdu, Overtakes;
  }

  lemma StepCreatesSmall(s: State, e: Event)
    requires Enabled(s, e) && AllFit(s.h.created) && SmallMessages([e])
    ensures AllFit(Step(s, e).h.created)
  {
    hide InitFirst, Handle, Accepts, SendPut, Emit;
    match e
    case Host(p) => HandleFields(s, p);
    case Clearing => InitFirstFields(s, 4096);
    case UserConnect(k) => EmitFields(s, ConnectPdu(k));
    case UserPut(k, c) =>
      assert e == [e][0];
      assert 0 < |Pack(InfoPdu(s.links[k], k, c))| < PDU_SIZE;
      PutCreates(s, k, c);
    case Timeout =>
  }

  /** If no message fills its buffer, no PDU of the run is lost by its length. */
  lemma {:induction false} SmallMessagesFit(events: seq<Event>, s: State)
    requires Run(events) == Some(s) && SmallMessages(events)
    ensures AllFit(s.h.created)
  {
    hide Step, Enabled, Len8;
    var n := |events| - 1;
    if events != [] {
      assert events[n].UserPut? ==> SmallMessages([events[n]]);
      SmallMessagesFit(events[..n], Run(events[..n]).value);
      StepCreatesSmall(Run(events[..n]).value, events[n]);
    }
  }

  /**
   * The I PDUs of a link that do not fill their buffer are sent in the order they were made, and those not yet sent
   * are queued in that order.
   */
  lemma FirstInFirstOut(events: seq<Event>, s: State, k: Key)
    requires Run(events) == Some(s) && !EverLoses(events, k) && !EverJumps(events, k)
    ensures Sel(s.h.wire, k, DataOnly) + Sel(s.xmitQ, k, DataOnly) + Sel(s.links[k].xmitQ, k, DataOnly)
         == Sel(s.h.created, k, DataOnly)
  {
    hide Run, LinksOk, LogsOk, SizesOk, Conserved, AttemptOk, ConnectOk, TurnsOk, Sel, Lossless;
    RunKeeps(events);
    RunLosesIff(events, k);
    RunJumpsIff(events, k);
    SelAppend(s.h.wire, s.xmitQ, k, DataOnly);
    SelTwice(Outgoing(s), k);
    SelTwice(s.h.entered, k);
  }

  /** CONNECT and I PDUs of a link are sent in the order in which they entered the endpoint's queue. */
  lemma SentAsEntered(events: seq<Event>, s: State, k: Key)
    requires Run(events) == Some(s) && !EverJumps(events, k)
    ensures Sel(s.h.wire, k, Everything) + Sel(s.xmitQ, k, Everything) == Sel(s.h.entered, k, Everything)
  {
    hide Run, LinksOk, LogsOk, SizesOk, Conserved, MadeOk, AttemptOk, ConnectOk, TurnsOk, Sel;
    RunKeeps(events);
    RunJumpsIff(events, k);
    SelAppend(s.h.wire, s.xmitQ, k, Everything);
  }

  /**
   * Every attempt to connect: while it lasts, the last PDU of the link that is sent or queued is its CONNECT. When the
   * host accepts, the PDUs that were pending follow right behind, in every continuation of the run that sends nothing
   * on the link out of turn.
   */
  lemma ConnectLeads(events: seq<Event>, cc: Event, more: seq<Event>, s: State, t: State, k: Key)
    requires Run(events) == Some(s) && s.links[k].status == Connecting
    requires cc.Host? && cc.pdu.ptype == CC && HostKeyOf(cc.pdu) == k
    requires Run(events + [cc] + more) == Some(t) && !EverJumps(events + [cc] + more, k)
    ensures ConnectLast(Outgoing(s), k)
    ensures Sel(Outgoing(s), k, Everything) + Sel(s.links[k].xmitQ, k, Everything) <= Sel(Outgoing(t), k, Everything)
  {
    hide Run, Sel, Invariant, Step, Enabled, Outgoing;
    var all := events + [cc] + more;
    RunGrows(events + [cc], more);
    var mid := Run(events + [cc]).value;
    CcRun(events, cc, s, k);
    RunJumpsIff(all, k);
    RunKeeps(events);
    RunKeeps(all);
    OrderInvariant(s, k);
    OrderInvariant(t, k);
    var rest := t.h.entered[|mid.h.entered|..];
    assert t.h.entered == s.h.entered + s.links[k].xmitQ + rest;
    SelThree(s.h.entered, s.links[k].xmitQ, rest, k, Everything);
  }

  lemma CcRun(events: seq<Event>, cc: Event, s: State, k: Key)
    requires Run(events) == Some(s) && Run(events + [cc]).Some?
    requires cc.Host? && cc.pdu.ptype == CC && HostKeyOf(cc.pdu) == k
    ensures Run(events + [cc]).value.h.entered == s.h.entered + s.links[k].xmitQ
    ensures Grows(s, Run(events + [cc]).value)
  {
    assert (events + [cc])[..|events|] == events;
    HandleDrops(s, cc.pdu);
    RunGrows(events, [cc]);
    hide Handle;
  }

  /** On a link the host never connected, the first PDU that is sent is a CONNECT. */
  lemma ConnectIsFirst(events: seq<Event>, s: State, k: Key)
    requires Run(events) == Some(s) && !EverJumps(events, k) && !EverInvited(events, k)
    ensures ConnectFirst(s.h.wire, k)
  {
    hide Run, LinksOk, LogsOk, SizesOk, Conserved, MadeOk, OrderOk, AttemptOk, TurnsOk, Sel;
    RunKeeps(events);
    RunInvitedIff(events, k);
    SentAsEntered(events, s, k);
  }

  // ----- Where ordering and numbering end -----

  lemma {:induction false} Rotation(p: Pdu, q: seq<Pdu>)
    ensures [p] + q == q + [p] <==> forall i :: 0 <= i < |q| ==> q[i] == p
  {
    if q != [] {
      var r := q[1..];
      Rotation(p, r);
      assert q == [q[0]] + r;
      if [p] + q == q + [p] {
        assert ([p] + q)[0] == p && (q + [p])[0] == q[0];
        assert ([p] + q)[1..] == q && (q + [p])[1..] == r + [p];
      }
      if forall i :: 0 <= i < |q| ==> q[i] == p {
        assert forall i :: 0 <= i < |r| ==> r[i] == q[i + 1];
      }
    }
  }

  /** Where an emitted PDU stands among those of its link. */
  lemma EmitPlaces(s: State, p: Pdu, k: Key, kind: Kind)
    requires Chosen(p, k, kind)
    ensures Sel(Outgoing(s), k, kind) == Sel(s.h.wire, k, kind) + Sel(s.xmitQ, k, kind)
    ensures var (w, q) := (Sel(s.h.wire, k, kind), Sel(s.xmitQ, k, kind));
      Sel(Outgoing(Emit(s, p)), k, kind) == if s.xmitNext then w + [p] + q else w + q + [p]
  {
    hide Sel, Len8;
    SelOne(p, k, kind);
    SelAppend(s.h.wire, s.xmitQ, k, kind);
    if s.xmitNext {
      assert Outgoing(Emit(s, p)) == s.h.wire + [p] + s.xmitQ;
      SelThree(s.h.wire, [p], s.xmitQ, k, kind);
    } else {
      assert Outgoing(Emit(s, p)) == s.h.wire + s.xmitQ + [p];
      SelThree(s.h.wire, s.xmitQ, [p], k, kind);
    }
  }

  /** It is our turn, and PDUs of the link that differ from `p` are queued. */
  predicate Differs(s: State, p: Pdu, k: Key, kind: Kind)
  {
    s.xmitNext && exists i :: 0 <= i < |Sel(s.xmitQ, k, kind)| && Sel(s.xmitQ, k, kind)[i] != p
  }

  /**
   * Emitting a CONNECT or an I PDU keeps the PDUs of its link in the order of entry exactly when it is not our turn,
   * or no other PDU of the link is queued.
   */
  lemma EntryOrderKeptIff(s: State, k: Key, p: Pdu)
    requires Chosen(p, k, Everything) && Sel(Outgoing(s), k, Everything) == Sel(s.h.entered, k, Everything)
    ensures Sel(Outgoing(Emit(s, p)), k, Everything) == Sel(Emit(s, p).h.entered, k, Everything)
       <==> !Differs(s, p, k, Everything)
  {
    hide Sel, Chosen, Emit, Outgoing;
    EmitPlaces(s, p, k, Everything);
    EmitFields(s, p);
    SelOne(p, k, Everything);
    SelAppend(s.h.entered, [p], k, Everything);
    InsertedIff(Sel(s.h.wire, k, Everything), p, Sel(s.xmitQ, k, Everything));
  }

  /**
   * Sending on a connected link whose I PDUs are in order of creation keeps that order exactly when it is not our
   * turn, or no other I PDU of the link is queued.
   */
  lemma OrderKeptIff(s: State, k: Key, p: Pdu)
    requires s.links[k].xmitQ == [] && Chosen(p, k, DataOnly)
    requires Sel(Outgoing(s), k, DataOnly) == Sel(s.h.created, k, DataOnly)
    ensures Sel(Outgoing(Emit(s, p)), k, DataOnly) == Sel(Emit(s, p).h.created, k, DataOnly)
       <==> !Differs(s, p, k, DataOnly)
  {
    hide Sel, Chosen, Emit, Outgoing;
    EmitPlaces(s, p, k, DataOnly);
    EmitFields(s, p);
    SelOne(p, k, DataOnly);
    SelAppend(s.h.created, [p], k, DataOnly);
    InsertedIff(Sel(s.h.wire, k, DataOnly), p, Sel(s.xmitQ, k, DataOnly));
  }

  lemma InsertedIff(w: seq<Pdu>, p: Pdu, q: seq<Pdu>)
    ensures w + [p] + q == w + q + [p] <==> forall i :: 0 <= i < |q| ==> q[i] == p
  {
    Rotation(p, q);
    assert (w + [p] + q)[|w|..] == [p] + q && (w + q + [p])[|w|..] == q + [p];
    assert w + [p] + q == w + ([p] + q) && w + q + [p] == w + (q + [p]);
  }

  /**
   * When the connection is accepted the numbers start again at 0. That continues the numbers of the pending PDUs
   * exactly when V(S) was 0, or 15 if the last pending PDU could not be made.
   */
  lemma NumbersContinueIff(events: seq<Event>, s: State, k: Key, c: Creation)
    requires Run(events) == Some(s) && s.links[k].status == Connecting && s.links[k].xmitQ != []
    ensures Continues(s.links[k], k, c) <==> s.links[k].vs == if s.h.logs[k].lastFailed then 15 else 0
  {
    hide Run, Invariant, Continues;
    RunKeeps(events);
    LinkInvariant(s, k);
    LinkContinues(s.links[k], k, s.h.logs[k], c);
  }

  /** The number of the next PDU, once the connection is accepted, is that of the last pending PDU plus one. */
  predicate Continues(l: Link, k: Key, c: Creation)
  {
    l.xmitQ != [] && Ns(InfoPdu(AcceptedLink(l), k, c)) == (Ns(l.xmitQ[|l.xmitQ| - 1]) + 1) % 16
  }

  lemma LinkContinues(l: Link, k: Key, log: LinkLog, c: Creation)
    requires LogOk(k, l, log) && l.xmitQ != []
    ensures Continues(l, k, c) <==> l.vs == if log.lastFailed then 15 else 0
  {
    NumberAfterCc(l, k, c);
    hide InfoPdu, Ns, AcceptedLink, Numbered;
  }

  lemma NumberAfterCc(l: Link, k: Key, c: Creation)
    ensures Ns(InfoPdu(AcceptedLink(l), k, c)) == 0
  {
  }

  lemma RunOne(events: seq<Event>, e: Event, all: seq<Event>)
    requires Run(events).Some? && Enabled(Run(events).value, e) && all == events + [e]
    ensures Run(all) == Some(Step(Run(events).value, e))
  {
    assert all[..|all| - 1] == events;
  }

  const HOST_SYMM := Host(Pdu(SAP_LM, SYMM, SAP_LM, []))

  function HostCc(k: Key): Pdu
  {
    Pdu(k.1, CC, k.0, [])
  }

  /** Connecting, and the first PDU moved to the endpoint's queue: it is our turn and `a` waits there. */
  function OpeningOf(k: Key, a: seq<byte>): seq<Event>
  {
    [UserPut(k, Message(a)), HOST_SYMM, Timeout, Host(HostCc(k))]
  }

  function Numbered0(k: Key, data: seq<byte>): Pdu
  {
    Pdu(k.0, I, k.1, [0] + data)
  }

  /** A link that has counted no PDU, and where the PDUs are. */
  ghost predicate At(s: State, k: Key, status: Status, pending: seq<Pdu>, queued: seq<Pdu>, wire: seq<Pdu>, turn: bool)
  {
    && s.links[k].status == status && s.links[k].vr == 0 && s.links[k].xmitQ == pending
    && s.xmitQ == queued && s.h.wire == wire && s.xmitNext == turn && s.timer == turn
    && s.h.dropped == multiset{} && s.h.overtaken == {}
  }

  lemma QueueConnect(s: State, k: Key)
    requires !s.xmitNext
    ensures SendConnect(s, k).xmitQ == s.xmitQ + [ConnectPdu(k)] && SendConnect(s, k).h.wire == s.h.wire
    ensures SendConnect(s, k).h.created == s.h.created + [ConnectPdu(k)]
    ensures SendConnect(s, k).h.dropped == s.h.dropped && SendConnect(s, k).h.overtaken == s.h.overtaken
    ensures SendConnect(s, k).links[k] == s.links[k].(status := Connecting)
    ensures !SendConnect(s, k).xmitNext && SendConnect(s, k).timer == s.timer
  {
  }

  lemma FirstInfo(l: Link, k: Key, a: seq<byte>)
    requires l.vs == 0 && l.vr == 0
    ensures InfoPdu(l, k, Message(a)) == Numbered0(k, a)
  {
  }

  lemma OpenPut(s: State, k: Key, a: seq<byte>)
    requires At(s, k, Disconnected, [], [], [], false) && s.links[k].vs == 0 && s.h.created == []
    ensures At(SendPut(s, k, Message(a)), k, Connecting, [Numbered0(k, a)], [ConnectPdu(k)], [], false)
    ensures SendPut(s, k, Message(a)).h.created == [Numbered0(k, a)] + [ConnectPdu(k)]
  {
    var c := Message(a);
    FirstInfo(s.links[k], k, a);
    hide ConnectPdu, PendInfo, SendPut, SendConnect, InfoPdu, Numbered0;
    PendFields(s, k, c);
    QueueConnect(PendInfo(s, k, c), k);
    PutOnDisconnected(s, k, c);
  }

  lemma OpenSymm(s: State, k: Key, status: Status, pending: seq<Pdu>, queued: seq<Pdu>, wire: seq<Pdu>)
    requires At(s, k, status, pending, queued, wire, false)
    ensures At(Process(s, HOST_SYMM.pdu), k, status, pending, queued, wire, true)
    ensures Process(s, HOST_SYMM.pdu).h.created == s.h.created
  {
  }

  lemma OpenTimeout(s: State, k: Key, status: Status, pending: seq<Pdu>, p: Pdu)
    requires At(s, k, status, pending, [p], [], true) && Len8(p) != 0
    ensures At(TimerFires(s), k, status, pending, [], [p], false) && TimerFires(s).h.created == s.h.created
  {
    hide Len8;
  }

  lemma OpenCc(s: State, k: Key, pending: seq<Pdu>, wire: seq<Pdu>)
    requires At(s, k, Connecting, pending, [], wire, false)
    ensures At(Process(s, HostCc(k)), k, Connected, [], pending, wire, true)
    ensures Process(s, HostCc(k)).h.created == s.h.created && Process(s, HostCc(k)).links[k].vs == 0
  {
    assert HostKeyOf(HostCc(k)) == k;
  }

  lemma NoEvents()
    ensures Run([]) == Some(Start())
  {
  }

  lemma ConnectFits(k: Key)
    ensures Len8(ConnectPdu(k)) != 0
  {
  }

  lemma Opening(k: Key, a: seq<byte>) returns (s: State)
    requires FitsBuffer(Message(a))
    ensures Run(OpeningOf(k, a)) == Some(s)
    ensures At(s, k, Connected, [], [Numbered0(k, a)], [ConnectPdu(k)], true) && s.links[k].vs == 0
    ensures s.h.created == [Numbered0(k, a)] + [ConnectPdu(k)]
  {
    hide SendPut, Process, TimerFires, Numbered0, ConnectPdu, Run, Len8;
    var e := OpeningOf(k, a);
    NoEvents();
    ConnectFits(k);
    OpenPut(Start(), k, a);
    RunOne([], e[0], e[..1]);
    var s1 := SendPut(Start(), k, Message(a));
    OpenSymm(s1, k, Connecting, [Numbered0(k, a)], [ConnectPdu(k)], []);
    RunOne(e[..1], e[1], e[..2]);
    var s2 := Process(s1, HOST_SYMM.pdu);
    OpenTimeout(s2, k, Connecting, [Numbered0(k, a)], ConnectPdu(k));
    RunOne(e[..2], e[2], e[..3]);
    var s3 := TimerFires(s2);
    OpenCc(s3, k, [Numbered0(k, a)], [ConnectPdu(k)]);
    RunOne(e[..3], e[3], e);
    s := Process(s3, HostCc(k));
  }

  lemma JumpingPut(s: State, k: Key, b: seq<byte>, p: Pdu)
    requires At(s, k, Connected, [], [p], [ConnectPdu(k)], true) && s.links[k].vs == 0
    requires INFO_HEADER + |b| < PDU_SIZE
    ensures Outgoing(SendPut(s, k, Message(b))) == [ConnectPdu(k)] + [Numbered0(k, b)] + [p]
    ensures SendPut(s, k, Message(b)).h.created == s.h.created + [Numbered0(k, b)]
  {
    var c, q := Message(b), Numbered0(k, b);
    FirstInfo(s.links[k], k, b);
    assert OnWire(q) == [q];
    hide Numbered0, ConnectPdu, InfoPdu, PutOn, CountLog, OnWire;
  }

  /** A run in which the second message for a link reaches the host before the first, with the same N(S). */
  lemma MessagesSwap(k: Key, a: seq<byte>, b: seq<byte>)
    requires INFO_HEADER + |a| < PDU_SIZE && INFO_HEADER + |b| < PDU_SIZE
    ensures Run(OpeningOf(k, a) + [UserPut(k, Message(b))]).Some?
    ensures Sel(Run(OpeningOf(k, a) + [UserPut(k, Message(b))]).value.h.created, k, DataOnly)
         == [Numbered0(k, a), Numbered0(k, b)]
    ensures Sel(Outgoing(Run(OpeningOf(k, a) + [UserPut(k, Message(b))]).value), k, DataOnly)
         == [Numbered0(k, b), Numbered0(k, a)]
  {
    hide Run, Sel, SendPut;
    var s := Opening(k, a);
    var e := UserPut(k, Message(b));
    RunOne(OpeningOf(k, a), e, OpeningOf(k, a) + [e]);
    JumpingPut(s, k, b, Numbered0(k, a));
    var p, c, q := Numbered0(k, a), ConnectPdu(k), Numbered0(k, b);
    SelOne(p, k, DataOnly);
    SelOne(q, k, DataOnly);
    SelOne(c, k, DataOnly);
    SelThree([p], [c], [q], k, DataOnly);
    SelThree([c], [q], [p], k, DataOnly);
  }

  /**
   * A run in which a message of 253 bytes is lost: its PDU fills the buffer, its length reads 0, and when it is to be
   * sent a SYMM goes out in its place. In the end it is nowhere.
   */
  lemma FullBufferIsLost(k: Key, a: seq<byte>)
    requires INFO_HEADER + |a| == PDU_SIZE
    ensures Run(OpeningOf(k, a) + [Timeout]).Some?
    ensures var s := Run(OpeningOf(k, a) + [Timeout]).value;
      && Numbered0(k, a) in s.h.created && s.h.wire == [ConnectPdu(k), SYMM_PDU]
      && s.xmitQ == [] && s.links[k].xmitQ == [] && s.h.dropped == multiset{}
  {
    hide Run;
    var s := Opening(k, a);
    var p := Numbered0(k, a);
    assert Len8(p) == 0 && p == s.h.created[0];
    hide Len8, Numbered0, ConnectPdu;
    RunOne(OpeningOf(k, a), Timeout, OpeningOf(k, a) + [Timeout]);
  }

  function HostDisc(k: Key): Pdu
  {
    Pdu(k.1, DISC, k.0, [])
  }

  /** The host disconnects the link while `a` is still queued, and the user connects it again. */
  function Reconnecting(k: Key, a: seq<byte>): seq<Event>
  {
    OpeningOf(k, a) + [Host(HostDisc(k)), UserConnect(k)]
  }

  lemma Disconnect(s: State, k: Key, queued: seq<Pdu>, wire: seq<Pdu>)
    requires At(s, k, Connected, [], queued, wire, true)
    ensures At(Process(s, HostDisc(k)), k, Disconnected, [], queued, wire, true)
    ensures Process(s, HostDisc(k)).h.entered == s.h.entered
  {
    assert HostKeyOf(HostDisc(k)) == k;
  }

  lemma JumpingConnect(s: State, k: Key, p: Pdu)
    requires At(s, k, Disconnected, [], [p], [ConnectPdu(k)], true)
    ensures SendConnect(s, k).links[k].status == Connecting
    ensures Outgoing(SendConnect(s, k)) == [ConnectPdu(k)] + [ConnectPdu(k)] + [p]
    ensures SendConnect(s, k).h.entered == s.h.entered + [ConnectPdu(k)]
  {
    ConnectFits(k);
    hide ConnectPdu, Len8;
  }

  /**
   * A run in which a CONNECT overtakes: the message entered the queue before the second CONNECT and goes out behind
   * it, so the last PDU of the connecting link is not the CONNECT.
   */
  lemma ConnectJumps(k: Key, a: seq<byte>)
    requires INFO_HEADER + |a| < PDU_SIZE
    ensures Run(Reconnecting(k, a)).Some?
    ensures var (s, c, p) := (Run(Reconnecting(k, a)).value, ConnectPdu(k), Numbered0(k, a));
      && s.links[k].status == Connecting && !ConnectLast(Outgoing(s), k)
      && Sel(Outgoing(s), k, Everything) == [c, c, p] && Sel(s.h.entered, k, Everything) == [c, p, c]
  {
    hide Run, Sel, Process, SendConnect, Outgoing;
    var s := Opening(k, a);
    var c, p, e := ConnectPdu(k), Numbered0(k, a), OpeningOf(k, a);
    assert Chosen(c, k, Everything) && Chosen(p, k, Everything);
    SelOne(c, k, Everything);
    SelOne(p, k, Everything);
    OpeningEntered(e, s, k, p);
    RunOne(e, Host(HostDisc(k)), e + [Host(HostDisc(k))]);
    Disconnect(s, k, [p], [c]);
    var t := Process(s, HostDisc(k));
    JumpingConnect(t, k, p);
    assert e + [Host(HostDisc(k))] + [UserConnect(k)] == Reconnecting(k, a);
    RunOne(e + [Host(HostDisc(k))], UserConnect(k), Reconnecting(k, a));
    SelThree([c], [c], [p], k, Everything);
    SelAppend(s.h.entered, [c], k, Everything);
  }

  /** Nothing was sent out of turn so far, so the order of entry is that of what goes out. */
  lemma OpeningEntered(events: seq<Event>, s: State, k: Key, p: Pdu)
    requires Run(events) == Some(s) && At(s, k, Connected, [], [p], [ConnectPdu(k)], true)
    ensures Sel(s.h.entered, k, Everything) == Sel([ConnectPdu(k)], k, Everything) + Sel([p], k, Everything)
  {
    hide Run, Sel, Invariant;
    RunKeeps(events);
    OrderInvariant(s, k);
    SelAppend([ConnectPdu(k)], [p], k, Everything);
  }
}
