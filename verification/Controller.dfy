/**
 * The NCI controller: two nested state machines, discovery ids and the active endpoint and interface (src/nfc-nci.c,
 * src/nfc.c, src/nfc-rf.c and the notification callbacks of src/cmdline.c). A failed assertion of the C code makes an
 * event not enabled: `Step` returns no state.
 */
module Controller {
  import opened Bytes

  datatype Fsm = Idle | Reset | Initialized

  /** RF states, Figure 10 of NFC Forum NCI 1.0. */
  datatype Rf = RfIdle | Discovery | W4AllDiscoveries | W4HostSelect | PollActive | ListenActive | ListenSleep

  datatype Tech = A | B | F
  datatype Mode = Poll(tech: Tech) | Listen(tech: Tech)
  datatype Interface = Frame | IsoDep | NfcDep

  const PROTO_T1T: byte := 1
  const PROTO_T2T: byte := 2
  const PROTO_T3T: byte := 3
  const PROTO_ISO_DEP: byte := 4
  const PROTO_NFC_DEP: byte := 5

  datatype Endpoint = Endpoint(proto: byte, mode: Mode)
  datatype RfInterface = RfInterface(iface: Interface, mode: Mode)

  const ENDPOINTS := 6
  const INTERFACES := 8

  type ReIndex = i: int | 0 <= i < ENDPOINTS
  type RfIndex = i: int | 0 <= i < INTERFACES

  /** `nfc_res` */
  function EndpointAt(i: ReIndex): (e: Endpoint)
    ensures 1 <= e.proto <= 5
  {
    if i < 2 then Endpoint(PROTO_NFC_DEP, Listen(F))
    else if i == 2 then Endpoint(PROTO_T1T, Listen(A))
    else if i == 3 then Endpoint(PROTO_T2T, Listen(A))
    else if i == 4 then Endpoint(PROTO_T3T, Listen(F))
    else Endpoint(PROTO_ISO_DEP, Listen(A))
  }

  /** The interfaces `nfc_device_init` sets up. */
  function RfTable(): (t: seq<RfInterface>)
    ensures |t| == INTERFACES
  {
    [ RfInterface(NfcDep, Poll(A)), RfInterface(NfcDep, Poll(F)),
      RfInterface(Frame, Poll(A)), RfInterface(Frame, Poll(B)), RfInterface(Frame, Poll(F)),
      RfInterface(IsoDep, Poll(A)), RfInterface(IsoDep, Poll(B)), RfInterface(IsoDep, Poll(F)) ]
  }

  /** `re_ids` are the discovery ids of the endpoints, 0 for none; `id` is the last one handed out. */
  datatype State = State(fsm: Fsm, rf: Rf, id: byte, re_ids: seq<byte>, activeRe: Option<ReIndex>, activeRf: Option<RfIndex>)

  /** `nfc_device_init` */
  function Init(): State
  {
    State(Idle, RfIdle, 0, [0, 0, 0, 0, 0, 0], None, None)
  }

  // ----- Building blocks -----

  /** `nfc_rf_state_transition` and the assertion on its result. */
  function Transition(s: State, from: set<Rf>, to: Rf): Option<State>
  {
    if s.rf in from then Some(s.(rf := to)) else None
  }

  /** `nfc_device_incr_id` hands out 1 to 254 in turn. */
  function NextId(id: byte): (n: byte)
    ensures 1 <= n <= 254
  {
    id % 254 + 1
  }

  /** Gives endpoint `re` the next id if it has none. */
  function Identify(s: State, re: ReIndex): (t: State)
    requires |s.re_ids| == ENDPOINTS
  {
    if s.re_ids[re] != 0 then s else s.(id := NextId(s.id), re_ids := s.re_ids[re := NextId(s.id)])
  }

  /** The first position of `id` from `i` on. */
  function FindId(ids: seq<byte>, id: byte, i: nat): (r: Option<nat>)
    requires i <= |ids|
    ensures r.Some? ==> i <= r.value < |ids| && ids[r.value] == id
    ensures r.None? ==> id !in ids[i..]
    decreases |ids| - i
  {
    if i == |ids| then None else if ids[i] == id then Some(i) else FindId(ids, id, i + 1)
  }

  function InterfaceFor(proto: byte): Interface
  {
    if proto == PROTO_ISO_DEP then IsoDep else if proto == PROTO_NFC_DEP then NfcDep else Frame
  }

  /** `nfc_find_rf_by_protocol_and_mode`, from interface `i` on. */
  function FindRf(proto: byte, mode: Mode, i: nat): (r: Option<RfIndex>)
    requires i <= INTERFACES
    decreases INTERFACES - i
  {
    if i == INTERFACES then None
    else if RfTable()[i] == RfInterface(InterfaceFor(proto), Poll(mode.tech)) then Some(i)
    else FindRf(proto, mode, i + 1)
  }

  // ----- Events -----

  datatype More = LastOne | LimitReached | MoreToCome
  datatype DeactType = ToIdle | ToSleep | ToSleepAf | ToDiscovery | UnknownType

  datatype Event =
    | CoreReset(rfconfig: bool)
    | CoreInit
    | RfDiscover
    | RfSelect(id: byte, proto: byte)
    | RfDeactivate(typ: DeactType)
    | Data
    | DiscoveryNtf(re: ReIndex, more: More)
    | ActivatedNtf(which: Option<ReIndex>, rf: Option<RfIndex>)

  datatype Outcome = Accepted | Rejected | SemanticError | Notified(id: byte) | NotSent | Handled(re: Option<ReIndex>)

  /** The state after an event and what is answered. */
  datatype Next = Next(state: State, outcome: Outcome)

  function After(s: Option<State>, o: Outcome): Option<Next>
  {
    if s.Some? then Some(Next(s.value, o)) else None
  }

  /** `init_process_oid_rf_discover_select_cmd` */
  function Select(s: State, id: byte, proto: byte): Option<Next>
    requires |s.re_ids| == ENDPOINTS
  {
    var found := FindId(s.re_ids, id, 0);
    if id == 0 || id == 255 || found.None? || EndpointAt(found.value).proto != proto then Some(Next(s, Rejected))
    else
      var rf := FindRf(proto, EndpointAt(found.value).mode, 0);
      if rf.None? then Some(Next(s.(activeRf := None), Rejected))
      else After(Transition(s.(activeRe := Some(found.value), activeRf := rf), {W4HostSelect}, W4HostSelect), Accepted)
  }

  /** The RF states a deactivation may start from, and the one it leads to; no start for a failed assertion. */
  function Deactivation(rf: Rf, typ: DeactType): (set<Rf>, Rf)
  {
    match typ
    case ToIdle => ({Discovery, W4AllDiscoveries, W4HostSelect, PollActive, ListenActive, ListenSleep}, RfIdle)
    case ToSleep => ({PollActive, ListenActive}, if rf == PollActive then W4HostSelect else ListenSleep)
    case ToSleepAf => ({PollActive, ListenActive}, if rf == PollActive then W4HostSelect else ListenSleep)
    case ToDiscovery => ({PollActive, ListenActive}, Discovery)
    case UnknownType => ({}, RfIdle)
  }

  /** `init_process_oid_rf_deactivate_cmd` */
  function Deactivate(s: State, typ: DeactType): Option<Next>
  {
    var (from, to) := Deactivation(s.rf, typ);
    After(Transition(s.(activeRe := None, activeRf := None, re_ids := [0, 0, 0, 0, 0, 0]), from, to), Accepted)
  }

  /** `nfc_create_rf_discovery_ntf` */
  function Discovered(s: State, re: ReIndex, more: More): Option<Next>
    requires |s.re_ids| == ENDPOINTS
  {
    if s.re_ids[re] != 0 then Some(Next(s, NotSent))
    else
      var t := Identify(s, re);
      var to := if more == MoreToCome then W4AllDiscoveries else W4HostSelect;
      if s.rf == Discovery && more != MoreToCome then None
      else After(Transition(t, {Discovery, W4AllDiscoveries}, to), Notified(t.id))
  }

  /** `nfc_create_rf_intf_activated_ntf`, once the interface is chosen. */
  function Activate(s: State, re: ReIndex, rf: RfIndex): Option<Next>
    requires |s.re_ids| == ENDPOINTS
  {
    var t := Identify(s, re).(activeRf := Some(rf));
    var moved := if RfTable()[rf].mode.Poll? then Transition(t, {Discovery, W4HostSelect}, PollActive)
                 else Transition(t, {Discovery, ListenSleep}, ListenActive);
    if moved.None? || (s.activeRe.Some? && s.activeRe != Some(re)) then None
    else Some(Next(moved.value.(activeRe := Some(re)), Notified(t.re_ids[re])))
  }

  /** `nfc_rf_intf_activated_ntf_cb` */
  function Activated(s: State, which: Option<ReIndex>, rf: Option<RfIndex>): Option<Next>
    requires |s.re_ids| == ENDPOINTS
  {
    if which.None? && s.activeRe.None? then Some(Next(s, NotSent))
    else
      var re := if which.Some? then which.value else s.activeRe.value;
      var chosen := if s.activeRf.Some? then s.activeRf
                    else if rf.Some? then rf
                    else FindRf(EndpointAt(re).proto, EndpointAt(re).mode, 0);
      if chosen.None? then Some(Next(s, NotSent)) else Activate(s, re, chosen.value)
  }

  /** A command of the host. Before initialisation all but one are answered with a semantic error. */
  function Command(s: State, e: Event): Option<Next>
    requires |s.re_ids| == ENDPOINTS
  {
    match e
    case CoreReset(rfconfig) =>
      if s.fsm == Reset then Some(Next(s, SemanticError))
      else Some(Next(s.(fsm := Reset, rf := if rfconfig then RfIdle else s.rf), Accepted))
    case CoreInit =>
      Some(if s.fsm == Reset then Next(s.(fsm := Initialized), Accepted) else Next(s, SemanticError))
    case RfDiscover =>
      if s.fsm != Initialized then Some(Next(s, SemanticError)) else After(Transition(s, {RfIdle}, Discovery), Accepted)
    case RfSelect(id, proto) => if s.fsm != Initialized then Some(Next(s, SemanticError)) else Select(s, id, proto)
    case RfDeactivate(typ) => if s.fsm != Initialized then Some(Next(s, SemanticError)) else Deactivate(s, typ)
    case _ => None
  }

  function Step(s: State, e: Event): Option<Next>
    requires |s.re_ids| == ENDPOINTS
  {
    match e
    case Data => After(Transition(s, {PollActive, ListenActive}, s.rf), Handled(s.activeRe))
    case DiscoveryNtf(re, more) => Discovered(s, re, more)
    case ActivatedNtf(which, rf) => Activated(s, which, rf)
    case _ => Command(s, e)
  }

  /** The state after a run; none if one of the events is not enabled when it comes. */
  function Run(events: seq<Event>): Option<State>
  {
    if events == [] then Some(Init())
    else
      var n := |events| - 1;
      match Run(events[..n])
      case None => None
      case Some(s) =>
        if |s.re_ids| == ENDPOINTS && Step(s, events[n]).Some? then Some(Step(s, events[n]).value.state) else None
  }

  // ----- Invariants -----

  /** How many ids were handed out after `x`, up to `id`. */
  function Age(id: byte, x: byte): nat
  {
    (id - x + 254) % 254
  }

  ghost function Identified(ids: seq<byte>): set<nat>
  {
    set i: nat | i < |ids| && ids[i] != 0
  }

  /** The ids in use are the latest ones: no more were handed out since than are in use. */
  ghost predicate IdsOk(s: State)
  {
    && |s.re_ids| == ENDPOINTS && s.id <= 254
    && (forall i :: 0 <= i < ENDPOINTS ==> s.re_ids[i] <= 254)
    && (forall i, j :: 0 <= i < j < ENDPOINTS && s.re_ids[i] != 0 ==> s.re_ids[i] != s.re_ids[j])
    && (forall i :: 0 <= i < ENDPOINTS && s.re_ids[i] != 0 ==> Age(s.id, s.re_ids[i]) < |Identified(s.re_ids)|)
  }

  ghost predicate ActiveOk(s: State)
    requires |s.re_ids| == ENDPOINTS
  {
    && (s.activeRe.None? <==> s.activeRf.None?)
    && (s.activeRe.Some? ==> s.re_ids[s.activeRe.value] != 0)
    && (s.rf == PollActive ==> s.activeRe.Some?)
    && (s.rf == W4AllDiscoveries ==> exists i :: 0 <= i < ENDPOINTS && s.re_ids[i] != 0)
  }

  ghost predicate Invariant(s: State)
  {
    && IdsOk(s) && ActiveOk(s)
    && s.rf != ListenActive && s.rf != ListenSleep
    && (s.fsm == Idle ==> s.rf == RfIdle)
  }

  lemma AgeStep(id: byte, x: byte)
    requires 1 <= x <= 254 && id <= 254 && Age(id, x) < 253
    ensures Age(NextId(id), x) == Age(id, x) + 1
    ensures NextId(id) != x && Age(NextId(id), NextId(id)) == 0
  {
  }

  lemma IdentifiedGrows(ids: seq<byte>, re: ReIndex, id: byte)
    requires |ids| == ENDPOINTS && ids[re] == 0 && id != 0
    ensures |Identified(ids)| < ENDPOINTS && |Identified(ids[re := id])| == |Identified(ids)| + 1
  {
    var a, all := Identified(ids), {0, 1, 2, 3, 4, 5};
    assert Identified(ids[re := id]) == a + {re};
    assert a <= all - {re};
    Smaller(a, all - {re});
  }

  lemma {:induction false} Smaller(a: set<nat>, b: set<nat>)
    requires a <= b
    ensures |a| <= |b|
  {
    if a != {} {
      var x :| x in a;
      Smaller(a - {x}, b - {x});
    }
  }

  lemma IdentifyKeepsIds(s: State, re: ReIndex)
    requires IdsOk(s)
    ensures IdsOk(Identify(s, re)) && Identify(s, re).re_ids[re] != 0
  {
    if s.re_ids[re] == 0 {
      var id, t := NextId(s.id), Identify(s, re);
      IdentifiedGrows(s.re_ids, re, id);
      hide Identified, Age, NextId;
      forall i | 0 <= i < ENDPOINTS && s.re_ids[i] != 0
        ensures s.re_ids[i] != id && Age(id, s.re_ids[i]) < |Identified(t.re_ids)|
      {
        AgeStep(s.id, s.re_ids[i]);
      }
      assert Age(id, id) == 0 by {
        AgeSelf(id);
      }
    }
  }

  lemma AgeSelf(id: byte)
    ensures Age(id, id) == 0
  {
  }

  lemma InterfacesPoll(rf: RfIndex)
    ensures RfTable()[rf].mode.Poll?
  {
  }

  lemma CommandKeeps(s: State, e: Event)
    requires Invariant(s) && Command(s, e).Some?
    ensures Invariant(Command(s, e).value.state)
  {
    if e.RfSelect? && FindId(s.re_ids, e.id, 0).Some? {
      InterfaceFound(FindId(s.re_ids, e.id, 0).value);
    }
  }

  lemma DiscoveredKeeps(s: State, re: ReIndex, more: More)
    requires Invariant(s) && Discovered(s, re, more).Some?
    ensures Invariant(Discovered(s, re, more).value.state)
  {
    IdentifyKeepsIds(s, re);
    hide IdsOk;
  }

  lemma ActivateKeeps(s: State, re: ReIndex, rf: RfIndex)
    requires Invariant(s) && Activate(s, re, rf).Some?
    ensures Invariant(Activate(s, re, rf).value.state)
  {
    IdentifyKeepsIds(s, re);
    InterfacesPoll(rf);
    hide IdsOk, RfTable;
  }

  lemma StepKeeps(s: State, e: Event)
    requires Invariant(s) && Step(s, e).Some?
    ensures Invariant(Step(s, e).value.state)
  {
    match e
    case Data => assert Step(s, e).value.state == s;
    case DiscoveryNtf(re, more) => DiscoveredKeeps(s, re, more);
    case ActivatedNtf(which, rf) => ActivatedKeeps(s, which, rf);
    case _ => CommandKeeps(s, e);
  }

  lemma ActivatedKeeps(s: State, which: Option<ReIndex>, rf: Option<RfIndex>)
    requires Invariant(s) && Activated(s, which, rf).Some?
    ensures Invariant(Activated(s, which, rf).value.state)
  {
    hide Invariant, RfTable, FindRf, Activate;
    if which.Some? || s.activeRe.Some? {
      var re := if which.Some? then which.value else s.activeRe.value;
      InterfaceFound(re);
      var chosen := if s.activeRf.Some? then s.activeRf
                    else if rf.Some? then rf
                    else FindRf(EndpointAt(re).proto, EndpointAt(re).mode, 0);
      ActivateKeeps(s, re, chosen.value);
    }
  }

  /** Every reachable state satisfies the invariant. */
  lemma {:induction false} RunKeeps(events: seq<Event>)
    ensures Run(events).Some? ==> Invariant(Run(events).value)
  {
    hide Step, Invariant;
    if events == [] {
      StartKeeps();
    } else {
      var n := |events| - 1;
      RunKeeps(events[..n]);
      if Run(events).Some? {
        StepKeeps(Run(events[..n]).value, events[n]);
      }
    }
  }

  lemma StartKeeps()
    ensures Invariant(Init())
  {
  }

  // ----- The main theorems -----

  /** Whatever id an endpoint has, it is the only one with that id, and it is the one found by it. */
  lemma IdsAreUnique(events: seq<Event>, s: State, i: ReIndex)
    requires Run(events) == Some(s)
    ensures |s.re_ids| == ENDPOINTS && s.re_ids[i] <= 254
    ensures s.re_ids[i] != 0 ==> FindId(s.re_ids, s.re_ids[i], 0) == Some(i)
    ensures forall j: ReIndex :: j != i && s.re_ids[j] != 0 ==> s.re_ids[i] != s.re_ids[j]
  {
    hide Run, ActiveOk;
    RunKeeps(events);
    var r := FindId(s.re_ids, s.re_ids[i], 0);
    assert s.re_ids[0..] == s.re_ids;
    hide FindId;
    assert r.Some?;
  }

  /** Endpoint and interface are active together; every data packet that is accepted has an endpoint with an id. */
  lemma ActiveTogether(events: seq<Event>, s: State)
    requires Run(events) == Some(s)
    ensures s.activeRe.Some? <==> s.activeRf.Some?
    ensures |s.re_ids| == ENDPOINTS && (s.activeRe.Some? ==> s.re_ids[s.activeRe.value] != 0)
    ensures Step(s, Data).Some? <==> s.rf == PollActive
    ensures Step(s, Data).Some? ==> Step(s, Data).value.outcome.re.Some?
    ensures s.rf == W4AllDiscoveries ==> exists i: ReIndex :: s.re_ids[i] != 0
  {
    hide Run;
    RunKeeps(events);
    if s.rf == W4AllDiscoveries {
      var i :| 0 <= i < ENDPOINTS && s.re_ids[i] != 0;
      var r: ReIndex := i;
      assert s.re_ids[r] != 0;
    }
  }

  /** No run listens, and before the first reset no run leaves the RF state idle. */
  lemma NeverListens(events: seq<Event>, s: State)
    requires Run(events) == Some(s)
    ensures s.rf != ListenActive && s.rf != ListenSleep && (s.fsm == Idle ==> s.rf == RfIdle)
  {
    hide Run, IdsOk, ActiveOk;
    RunKeeps(events);
  }

  /** The moves of the RF state machine without those of listening and of a reset. */
  const MOVES: set<(Rf, Rf)> := {
    (RfIdle, Discovery),
    (Discovery, W4AllDiscoveries), (Discovery, PollActive), (Discovery, RfIdle),
    (W4AllDiscoveries, W4HostSelect), (W4AllDiscoveries, RfIdle),
    (W4HostSelect, PollActive), (W4HostSelect, RfIdle),
    (PollActive, W4HostSelect), (PollActive, Discovery), (PollActive, RfIdle) }

  lemma MovesOnly(s: State, e: Event)
    requires Invariant(s) && Step(s, e).Some? && Step(s, e).value.state.rf != s.rf
    ensures (s.rf, Step(s, e).value.state.rf) in MOVES || (e == CoreReset(true) && Step(s, e).value.state.rf == RfIdle)
  {
    assert |s.re_ids| == ENDPOINTS;
    hide IdsOk, FindRf, FindId;
    assert forall rf: RfIndex :: RfTable()[rf].mode.Poll?;
  }

  // ----- Every event, told without the steps of the code -----

  /** The interface that serves each endpoint, and the protocol to select it by. */
  const SERVED_BY: seq<RfIndex> := [1, 1, 2, 2, 4, 5]
  const SELECTED_BY: seq<byte> := [5, 5, 1, 2, 3, 4]

  /** A command that is not allowed yet changes nothing. */
  predicate TooEarly(s: State, t: State, o: Outcome)
  {
    s.fsm != Initialized && t == s && o == SemanticError
  }

  predicate Resets(s: State, rfconfig: bool, t: State, o: Outcome)
  {
    if s.fsm == Reset then t == s && o == SemanticError
    else t == s.(fsm := Reset, rf := if rfconfig then RfIdle else s.rf) && o == Accepted
  }

  predicate Initializes(s: State, t: State, o: Outcome)
  {
    if s.fsm == Reset then t == s.(fsm := Initialized) && o == Accepted else t == s && o == SemanticError
  }

  predicate StartsDiscovery(s: State, t: State, o: Outcome)
  {
    TooEarly(s, t, o) || (s.fsm == Initialized && s.rf == RfIdle && t == s.(rf := Discovery) && o == Accepted)
  }

  /** Endpoint `i` has the id and speaks the protocol. */
  predicate Selectable(s: State, id: byte, proto: byte, i: ReIndex)
  {
    |s.re_ids| == ENDPOINTS && 1 <= id <= 254 && s.re_ids[i] == id && proto == SELECTED_BY[i]
  }

  ghost predicate Selects(s: State, id: byte, proto: byte, t: State, o: Outcome)
  {
    || TooEarly(s, t, o)
    || (s.fsm == Initialized && (forall i: ReIndex :: !Selectable(s, id, proto, i)) && t == s && o == Rejected)
    || (s.fsm == Initialized && s.rf == W4HostSelect && o == Accepted
        && exists i: ReIndex :: Selectable(s, id, proto, i) && t == s.(activeRe := Some(i), activeRf := Some(SERVED_BY[i])))
  }

  /** A deactivation forgets endpoint, interface and ids. To sleep and to discovery it starts while active only. */
  predicate Deactivates(s: State, typ: DeactType, t: State, o: Outcome)
  {
    || TooEarly(s, t, o)
    || (s.fsm == Initialized && o == Accepted && typ != UnknownType
        && (if typ == ToIdle then s.rf != RfIdle else s.rf == PollActive)
        && t == State(Initialized, if typ == ToIdle then RfIdle else if typ == ToDiscovery then Discovery else W4HostSelect,
                      s.id, [0, 0, 0, 0, 0, 0], None, None))
  }

  predicate Handles(s: State, t: State, o: Outcome)
  {
    s.rf == PollActive && s.activeRe.Some? && t == s && o == Handled(s.activeRe)
  }

  /** An endpoint without id gets the next one, in turn from 1 to 254. */
  function WithId(s: State, re: ReIndex): State
    requires |s.re_ids| == ENDPOINTS
  {
    var id := if s.id == 254 then 1 else (s.id + 1) % 256;
    if s.re_ids[re] == 0 then s.(id := id, re_ids := s.re_ids[re := id]) else s
  }

  predicate Discovers(s: State, re: ReIndex, more: More, t: State, o: Outcome)
    requires |s.re_ids| == ENDPOINTS
  {
    if s.re_ids[re] != 0 then t == s && o == NotSent
    else
      && (s.rf == W4AllDiscoveries || (s.rf == Discovery && more == MoreToCome))
      && t == WithId(s, re).(rf := if more == MoreToCome then W4AllDiscoveries else W4HostSelect)
      && o == Notified(t.re_ids[re])
  }

  /** An endpoint is activated with the interface that is active, or given, or serves it. */
  predicate Activates(s: State, which: Option<ReIndex>, rf: Option<RfIndex>, t: State, o: Outcome)
    requires |s.re_ids| == ENDPOINTS
  {
    if which.None? && s.activeRe.None? then t == s && o == NotSent
    else
      var re := if which.Some? then which.value else s.activeRe.value;
      && s.rf in {Discovery, W4HostSelect} && s.activeRe in {None, Some(re)}
      && t == WithId(s, re).(rf := PollActive, activeRe := Some(re),
                             activeRf := if s.activeRf.Some? then s.activeRf else if rf.Some? then rf else Some(SERVED_BY[re]))
      && o == Notified(t.re_ids[re])
  }

  /** What NCI says of every event: the states it may come in, the state it leads to, and the answer. */
  ghost predicate Allowed(s: State, e: Event, t: State, o: Outcome)
    requires |s.re_ids| == ENDPOINTS
  {
    match e
    case CoreReset(rfconfig) => Resets(s, rfconfig, t, o)
    case CoreInit => Initializes(s, t, o)
    case RfDiscover => StartsDiscovery(s, t, o)
    case RfSelect(id, proto) => Selects(s, id, proto, t, o)
    case RfDeactivate(typ) => Deactivates(s, typ, t, o)
    case Data => Handles(s, t, o)
    case DiscoveryNtf(re, more) => Discovers(s, re, more, t, o)
    case ActivatedNtf(which, rf) => Activates(s, which, rf, t, o)
  }

  lemma {:induction false} FirstRf(proto: byte, mode: Mode, i: nat, k: RfIndex)
    requires i <= k && RfTable()[k] == RfInterface(InterfaceFor(proto), Poll(mode.tech))
    requires forall j :: i <= j < k ==> RfTable()[j] != RfInterface(InterfaceFor(proto), Poll(mode.tech))
    ensures FindRf(proto, mode, i) == Some(k)
    decreases k - i
  {
    hide RfTable;
    if i < k {
      FirstRf(proto, mode, i + 1, k);
    }
  }

  /** Every endpoint is served by its interface. */
  lemma InterfaceFound(re: ReIndex)
    ensures FindRf(EndpointAt(re).proto, EndpointAt(re).mode, 0) == Some(SERVED_BY[re])
    ensures EndpointAt(re).proto == SELECTED_BY[re]
  {
    FirstRf(EndpointAt(re).proto, EndpointAt(re).mode, 0, SERVED_BY[re]);
  }

  lemma IdentifyIsWithId(s: State, re: ReIndex)
    requires |s.re_ids| == ENDPOINTS && s.id <= 254
    ensures Identify(s, re) == WithId(s, re)
  {
  }

  lemma SelectAllowed(s: State, id: byte, proto: byte, t: State, o: Outcome)
    requires IdsOk(s)
    ensures Command(s, RfSelect(id, proto)) == Some(Next(t, o)) <==> Selects(s, id, proto, t, o)
  {
    hide Age, Identified;
    var found := FindId(s.re_ids, id, 0);
    assert s.re_ids[0..] == s.re_ids;
    if found.Some? && 1 <= id <= 254 {
      var i: ReIndex := found.value;
      InterfaceFound(i);
      assert forall j: ReIndex :: s.re_ids[j] == id ==> j == i;
      assert Selectable(s, id, proto, i) <==> EndpointAt(i).proto == proto;
    }
    hide FindId, FindRf, RfTable, EndpointAt;
  }

  lemma DeactivateAllowed(s: State, typ: DeactType, t: State, o: Outcome)
    requires IdsOk(s) && s.rf != ListenActive && s.rf != ListenSleep
    ensures Command(s, RfDeactivate(typ)) == Some(Next(t, o)) <==> Deactivates(s, typ, t, o)
  {
  }

  lemma DiscoveredAllowed(s: State, re: ReIndex, more: More, t: State, o: Outcome)
    requires IdsOk(s)
    ensures Discovered(s, re, more) == Some(Next(t, o)) <==> Discovers(s, re, more, t, o)
  {
    IdentifyIsWithId(s, re);
  }

  /** `Activates`, once endpoint and interface are known. */
  predicate ActivatesWith(s: State, re: ReIndex, rf: RfIndex, t: State, o: Outcome)
    requires |s.re_ids| == ENDPOINTS
  {
    && s.rf in {Discovery, W4HostSelect} && s.activeRe in {None, Some(re)}
    && t == WithId(s, re).(rf := PollActive, activeRe := Some(re), activeRf := Some(rf))
    && o == Notified(t.re_ids[re])
  }

  lemma ActivateAllowed(s: State, re: ReIndex, rf: RfIndex, t: State, o: Outcome)
    requires |s.re_ids| == ENDPOINTS && s.id <= 254
    ensures Activate(s, re, rf) == Some(Next(t, o)) <==> ActivatesWith(s, re, rf, t, o)
  {
    IdentifyIsWithId(s, re);
    InterfacesPoll(rf);
    hide RfTable, Identify;
  }

  lemma ActivatedAllowed(s: State, which: Option<ReIndex>, rf: Option<RfIndex>, t: State, o: Outcome)
    requires IdsOk(s)
    ensures Activated(s, which, rf) == Some(Next(t, o)) <==> Activates(s, which, rf, t, o)
  {
    assert |s.re_ids| == ENDPOINTS && s.id <= 254;
    hide RfTable, FindRf, EndpointAt, IdsOk, Activate, WithId;
    if which.Some? || s.activeRe.Some? {
      var re := if which.Some? then which.value else s.activeRe.value;
      InterfaceFound(re);
      ActivateAllowed(s, re, if s.activeRf.Some? then s.activeRf.value else if rf.Some? then rf.value else SERVED_BY[re], t, o);
    }
  }

  /** In every reachable state an event does exactly what is allowed, and it is enabled exactly when something is. */
  lemma StepsAreAllowed(events: seq<Event>, s: State, e: Event, t: State, o: Outcome)
    requires Run(events) == Some(s)
    ensures |s.re_ids| == ENDPOINTS
    ensures Step(s, e) == Some(Next(t, o)) <==> Allowed(s, e, t, o)
  {
    RunKeeps(events);
    assert IdsOk(s) && s.rf != ListenActive && s.rf != ListenSleep && (s.rf == PollActive ==> s.activeRe.Some?);
    hide Run, Invariant, ActiveOk, Selects, Deactivates, Deactivate, Select, Activates, Activated, Discovered, Discovers;
    match e
    case RfSelect(id, proto) => SelectAllowed(s, id, proto, t, o);
    case RfDeactivate(typ) => DeactivateAllowed(s, typ, t, o);
    case DiscoveryNtf(re, more) => DiscoveredAllowed(s, re, more, t, o);
    case ActivatedNtf(which, rf) => ActivatedAllowed(s, which, rf, t, o);
    case _ =>
  }

  /** The ids go round: 1 to 254, and 1 again. */
  lemma IdsGoRound(id: byte)
    requires id <= 254
    ensures NextId(id) == if id == 254 then 1 else id + 1
  {
  }

  /**
   * A reset leaves the active endpoint and all ids as they are. Only a deactivation or a selection changes the active
   * endpoint; until then no other endpoint can be activated.
   */
  lemma ActiveEndpointStays(s: State, e: Event)
    requires Invariant(s) && s.activeRe.Some? && Step(s, e).Some?
    requires e.RfDeactivate? || e.RfSelect? ==> Step(s, e).value.outcome != Accepted
    ensures Step(s, e).value.state.activeRe == s.activeRe
    ensures forall i: ReIndex :: s.re_ids[i] != 0 ==> Step(s, e).value.state.re_ids[i] == s.re_ids[i]
    ensures e.ActivatedNtf? && e.which.Some? ==> e.which == s.activeRe
  {
    assert |s.re_ids| == ENDPOINTS;
    hide IdsOk, RfTable, FindRf, FindId, NextId;
    if e.RfSelect? && FindId(s.re_ids, e.id, 0).Some? {
      InterfaceFound(FindId(s.re_ids, e.id, 0).value);
    }
  }
}
