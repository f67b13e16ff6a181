/** Links do not interfere: what a run does to one link is what its own events do to it. */
module EndpointLinks {
  import opened Bytes
  import opened Llcp
  import opened Endpoint
  import opened EndpointProofs
  import opened EndpointRuns

  /** The events that concern link `k`. */
  predicate Concerns(e: Event, k: Key)
  {
    match e
    case Host(p) => HostKeyOf(p) == k && p.ptype != SYMM
    case UserConnect(j) => j == k
    case UserPut(j, _) => j == k
    case Timeout => false
    case Clearing => true
  }

  /** One link on its own: no table, no queue of the endpoint, no turns. */
  function LinkStep(l: Link, k: Key, e: Event): Link
  {
    match e
    case Clearing => InitLink(l)
    case UserConnect(_) => l.(status := Connecting)
    case UserPut(_, c) => PutOn(l, k, c)
    case Timeout => l
    case Host(p) => if Complete(p) then HostOn(l, p) else l
  }

  /** Link `k` after the events that concern it, the others left out. */
  function LinkAfter(events: seq<Event>, k: Key): Link
  {
    if events == [] then FRESH_LINK
    else
      var n := |events| - 1;
      var l := LinkAfter(events[..n], k);
      if Concerns(events[n], k) then LinkStep(l, k, events[n]) else l
  }

  lemma PutLinks(s: State, j: Key, c: Creation, k: Key)
    ensures SendPut(s, j, c).links[k] == if j == k then PutOn(s.links[k], k, c) else s.links[k]
  {
    hide InfoPdu, CountLog, CountLink, OnWire, Overtakes;
  }

  lemma SymmLeaves(l: Link, p: Pdu)
    requires p.ptype == SYMM
    ensures HostOn(l, p) == l
  {
  }

  lemma StepLinks(s: State, e: Event, k: Key)
    requires Enabled(s, e)
    ensures Step(s, e).links[k] == if Concerns(e, k) then LinkStep(s.links[k], k, e) else s.links[k]
  {
    hide InitFirst, SendPut, HostOn, PutOn, InitLink, LogOn, Emit;
    match e
    case Host(p) =>
      if p.ptype == SYMM {
        SymmLeaves(s.links[k], p);
      }
    case UserConnect(j) => EmitFields(s, ConnectPdu(j));
    case UserPut(j, c) => PutLinks(s, j, c, k);
    case Timeout => TimerFields(s);
    case Clearing => InitFirstLinks(s, 4096, k);
  }

  /** After every run each link is what its own events make of it. */
  lemma {:induction false} LinksAreIndependent(events: seq<Event>, s: State, k: Key)
    requires Run(events) == Some(s)
    ensures s.links[k] == LinkAfter(events, k)
  {
    hide Step, Enabled, LinkStep, Concerns;
    var n := |events| - 1;
    if events != [] {
      LinksAreIndependent(events[..n], Run(events[..n]).value, k);
      StepLinks(Run(events[..n]).value, events[n], k);
    }
  }

  /** The link of the last PDU of the host that was not SYMM, since the last clearing. */
  function LastHostLink(events: seq<Event>): Key
  {
    if events == [] then (SAP_LM, SAP_LM)
    else
      var e := events[|events| - 1];
      if e == Clearing then (SAP_LM, SAP_LM)
      else if e.Host? && e.pdu.ptype != SYMM then HostKeyOf(e.pdu)
      else LastHostLink(events[..|events| - 1])
  }

  lemma StepSaps(s: State, e: Event)
    requires Enabled(s, e)
    ensures (Step(s, e).lastDsap, Step(s, e).lastSsap) ==
      if e == Clearing then (SAP_LM, SAP_LM)
      else if e.Host? && e.pdu.ptype != SYMM then HostKeyOf(e.pdu)
      else (s.lastDsap, s.lastSsap)
  {
  }

  /** A put request without SAPs goes to the link that the host used last. */
  lemma {:induction false} DefaultLink(events: seq<Event>, s: State)
    requires Run(events) == Some(s)
    ensures (s.lastDsap, s.lastSsap) == LastHostLink(events)
  {
    hide Step, Enabled;
    var n := |events| - 1;
    if events != [] {
      DefaultLink(events[..n], Run(events[..n]).value);
      StepSaps(Run(events[..n]).value, events[n]);
    }
  }

  /** A stored message stays until data arrive on its link or the link starts again. */
  lemma MessageStays(s: State, e: Event, k: Key)
    requires Enabled(s, e) && e != Clearing
    requires e.Host? && HostKeyOf(e.pdu) == k ==> e.pdu.ptype !in {I, CONNECT, CC}
    ensures Step(s, e).links[k].rlen == s.links[k].rlen && Step(s, e).links[k].rbuf == s.links[k].rbuf
  {
    StepLinks(s, e, k);
    assert e.Host? ==> Complete(e.pdu);
    hide Step, Enabled, InfoPdu, Delivered;
  }
}
