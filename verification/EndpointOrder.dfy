/** What every run keeps of the order of PDUs, whether or not something overtakes. */
module EndpointOrder {
  import opened Bytes
  import opened Llcp
  import opened Endpoint
  import opened EndpointProofs
  import opened EndpointRuns

  // ----- Subsequences -----

  /** `a` can be had from `b` by leaving elements out. */
  predicate Subseq(a: seq<Pdu>, b: seq<Pdu>)
  {
    a == [] || (b != [] && ((a[0] == b[0] && Subseq(a[1..], b[1..])) || Subseq(a, b[1..])))
  }

  lemma {:induction false} SubseqSame(a: seq<Pdu>)
    ensures Subseq(a, a)
  {
    if a != [] {
      SubseqSame(a[1..]);
    }
  }

  lemma {:induction false} SubseqLonger(a: seq<Pdu>, x: seq<Pdu>, b: seq<Pdu>)
    requires Subseq(a, b)
    ensures Subseq(a, x + b)
  {
    if x == [] {
      assert x + b == b;
    } else {
      assert (x + b)[1..] == x[1..] + b;
      SubseqLonger(a, x[1..], b);
    }
  }

  lemma {:induction false} SubseqInserted(a: seq<Pdu>, x: seq<Pdu>, b: seq<Pdu>)
    ensures Subseq(a + b, a + x + b)
  {
    if a == [] {
      assert a + b == b && a + x + b == x + b;
      SubseqSame(b);
      SubseqLonger(b, x, b);
    } else {
      assert (a + b)[1..] == a[1..] + b && (a + x + b)[1..] == a[1..] + x + b;
      SubseqInserted(a[1..], x, b);
    }
  }

  lemma {:induction false} SubseqTrans(a: seq<Pdu>, b: seq<Pdu>, c: seq<Pdu>)
    requires Subseq(a, b) && Subseq(b, c)
    ensures Subseq(a, c)
    decreases |c|
  {
    if a != [] {
      if b[0] == c[0] && Subseq(b[1..], c[1..]) {
        if a[0] == b[0] && Subseq(a[1..], b[1..]) {
          SubseqTrans(a[1..], b[1..], c[1..]);
        } else {
          SubseqTrans(a, b[1..], c[1..]);
        }
      } else {
        SubseqTrans(a, b, c[1..]);
      }
    }
  }

  lemma {:induction false} SubseqIn(a: seq<Pdu>, b: seq<Pdu>, p: Pdu)
    requires Subseq(a, b) && p in a
    ensures p in b
    decreases |b|
  {
    if a[0] == b[0] && Subseq(a[1..], b[1..]) {
      if p != a[0] {
        assert p in a[1..];
        SubseqIn(a[1..], b[1..], p);
      }
    } else {
      SubseqIn(a, b[1..], p);
    }
  }

  /** Where the first part ends and the second begins. */
  lemma {:induction false} SubseqSplit(a: seq<Pdu>, x: seq<Pdu>, b: seq<Pdu>) returns (i: nat)
    requires Subseq(a + x, b)
    ensures i <= |b| && Subseq(a, b[..i]) && Subseq(x, b[i..])
    decreases |b|
  {
    if a == [] {
      assert a + x == x && b[0..] == b;
      i := 0;
    } else {
      assert (a + x)[1..] == a[1..] + x && (a + x)[0] == a[0];
      if a[0] == b[0] && Subseq(a[1..] + x, b[1..]) {
        i := SubseqSplit(a[1..], x, b[1..]);
        assert b[..i + 1][1..] == b[1..][..i] && b[i + 1..] == b[1..][i..];
      } else {
        i := SubseqSplit(a, x, b[1..]);
        assert b[..i + 1][1..] == b[1..][..i] && b[i + 1..] == b[1..][i..];
      }
      i := i + 1;
    }
  }

  // ----- Nothing is ever reordered -----

  /** What a link has sent or queued, apart from PDUs that fill their buffer. */
  function Out(s: State, k: Key): seq<Pdu>
  {
    Sel(Outgoing(s), k, Everything)
  }

  lemma EmitInserts(s: State, p: Pdu, k: Key)
    ensures Subseq(Out(s, k), Out(Emit(s, p), k))
    ensures Chosen(p, k, Everything) ==> p in Out(Emit(s, p), k)
  {
    hide Sel, Chosen, Len8;
    var w, q := s.h.wire, s.xmitQ;
    SelAppend(w, q, k, Everything);
    SelOne(p, k, Everything);
    if s.xmitNext {
      var c := OnWire(p);
      assert Outgoing(Emit(s, p)) == w + c + q;
      if Chosen(p, k, Everything) {
        ChosenIsSent(p, k);
      }
      SelThree(w, c, q, k, Everything);
      SubseqInserted(Sel(w, k, Everything), Sel(c, k, Everything), Sel(q, k, Everything));
    } else {
      assert Outgoing(Emit(s, p)) == w + q + [p];
      SelAppend(w + q, [p], k, Everything);
      SubseqPrefix(Out(s, k), Sel([p], k, Everything));
    }
  }

  lemma ChosenIsSent(p: Pdu, k: Key)
    requires Chosen(p, k, Everything)
    ensures OnWire(p) == [p]
  {
  }

  lemma SubseqPrefix(a: seq<Pdu>, x: seq<Pdu>)
    ensures Subseq(a, a + x)
  {
    SubseqInserted(a, x, []);
    assert a + [] == a && a + x + [] == a + x;
  }

  lemma HandleQueues(s: State, p: Pdu)
    requires Accepts(s, p)
    ensures Handle(s, p).xmitQ == if p.ptype == CC then s.xmitQ + s.links[HostKeyOf(p)].xmitQ else s.xmitQ
    ensures Handle(s, p).h.wire == s.h.wire
    ensures Process(s, p).xmitQ == Handle(s, p).xmitQ && Process(s, p).h.wire == s.h.wire
  {
    hide HostOn, LogOn;
  }

  lemma HandleAppends(s: State, p: Pdu)
    requires Accepts(s, p)
    ensures Outgoing(Process(s, p)) == Outgoing(Handle(s, p))
         == Outgoing(s) + if p.ptype == CC then s.links[HostKeyOf(p)].xmitQ else []
  {
    hide Process, Handle, Accepts;
    HandleQueues(s, p);
  }

  lemma HandleInserts(s: State, p: Pdu, k: Key)
    requires Accepts(s, p)
    ensures Subseq(Out(s, k), Out(Handle(s, p), k))
  {
    hide Sel;
    var x := if p.ptype == CC then s.links[HostKeyOf(p)].xmitQ else [];
    HandleAppends(s, p);
    hide Handle, Outgoing;
    SelAppend(Outgoing(s), x, k, Everything);
    SubseqPrefix(Out(s, k), Sel(x, k, Everything));
  }

  lemma PutInserts(s: State, j: Key, c: Creation, k: Key)
    ensures Subseq(Out(s, k), Out(SendPut(s, j, c), k))
    ensures j == k && s.links[k].status == Disconnected ==> ConnectPdu(k) in Out(SendPut(s, j, c), k)
  {
    hide Sel, Emit, PutOn, CountLog, InfoPdu, Len8;
    var l, p := s.links[j], InfoPdu(s.links[j], j, c);
    var t := SetLog(s, j, PutOn(l, j, c), CountLog(l, j, s.h.logs[j], c));
    assert Out(t, k) == Out(s, k) && Out(Created(t, p), k) == Out(s, k);
    SubseqSame(Out(s, k));
    EmitInserts(t, p, k);
    EmitInserts(Created(t, p), ConnectPdu(j), k);
    ConnectChosen(k);
  }

  lemma ConnectChosen(k: Key)
    ensures Chosen(ConnectPdu(k), k, Everything)
  {
  }

  lemma {:induction false} InitFirstQueue(s: State, n: nat)
    requires n <= 4096
    ensures InitFirst(s, n).xmitQ == s.xmitQ
  {
    if n > 0 {
      InitFirstQueue(s, n - 1);
    }
  }

  /** An event inserts PDUs among those that were sent or are queued, and removes and moves none of them. */
  lemma StepInserts(s: State, e: Event, k: Key)
    requires Enabled(s, e)
    ensures Subseq(Out(s, k), Out(Step(s, e), k))
  {
    hide Sel, InitFirst, Handle, SendPut, Emit, TimerFires, Accepts;
    match e
    case Host(p) =>
      HandleInserts(s, p, k);
      assert Out(Process(s, p), k) == Out(Handle(s, p), k);
    case UserConnect(j) =>
      EmitInserts(s, ConnectPdu(j), k);
      assert Out(SendConnect(s, j), k) == Out(Emit(s, ConnectPdu(j)), k);
    case UserPut(j, c) => PutInserts(s, j, c, k);
    case Timeout =>
      TimerOrders(s, k);
      SubseqSame(Out(s, k));
    case Clearing =>
      InitFirstFields(s, 4096);
      InitFirstQueue(s, 4096);
      assert Out(Clear(s), k) == Out(s, k);
      SubseqSame(Out(s, k));
  }

  /** In every run what a link has sent or queued stays in its order; overtaking only inserts. */
  lemma {:induction false} NothingIsReordered(events: seq<Event>, more: seq<Event>, k: Key)
    requires Run(events + more).Some?
    ensures Run(events).Some? && Subseq(Out(Run(events).value, k), Out(Run(events + more).value, k))
  {
    hide Step, Enabled, Out, Subseq;
    RunGrows(events, more);
    if more == [] {
      assert events + more == events;
      SubseqSame(Out(Run(events).value, k));
    } else {
      var n := |more| - 1;
      var all, s := events + more, Run(events).value;
      assert all[..|all| - 1] == events + more[..n];
      NothingIsReordered(events, more[..n], k);
      var t := Run(events + more[..n]).value;
      StepInserts(t, more[n], k);
      SubseqTrans(Out(s, k), Out(t, k), Out(Step(t, more[n]), k));
    }
  }

  // ----- A CONNECT always leads -----

  lemma StartsConnecting(s: State, e: Event, k: Key)
    requires Enabled(s, e) && Step(s, e).links[k].status == Connecting && s.links[k].status != Connecting
    ensures ConnectPdu(k) in Out(Step(s, e), k)
  {
    hide InitFirst, Emit, SendPut, Out, HostOn, Accepts;
    match e
    case UserConnect(j) =>
      EmitFields(s, ConnectPdu(j));
      EmitInserts(s, ConnectPdu(k), k);
      ConnectChosen(k);
      SameOut(Emit(s, ConnectPdu(j)), SendConnect(s, j), k);
    case UserPut(j, c) =>
      PutStatus(s, j, c, k);
      PutInserts(s, j, c, k);
    case Host(p) => HostStatus(s, p, k);
    case Clearing => InitFirstLinks(s, 4096, k);
    case Timeout =>
  }

  lemma SameOut(s: State, t: State, k: Key)
    requires s.h.wire == t.h.wire && s.xmitQ == t.xmitQ
    ensures Out(s, k) == Out(t, k)
  {
  }

  lemma PutStatus(s: State, j: Key, c: Creation, k: Key)
    ensures SendPut(s, j, c).links[k].status
         == if j == k && s.links[k].status == Disconnected then Connecting else s.links[k].status
  {
    hide InfoPdu, CountLog, OnWire, Overtakes;
  }

  lemma HostStatus(s: State, p: Pdu, k: Key)
    requires Accepts(s, p)
    ensures Handle(s, p).links[k].status in {s.links[k].status, Connected, Disconnected}
  {
    hide Delivered;
  }

  lemma {:induction false} ConnectIsOut(events: seq<Event>, s: State, k: Key)
    requires Run(events) == Some(s) && s.links[k].status == Connecting
    ensures ConnectPdu(k) in Out(s, k)
  {
    hide Step, Enabled, Out, Subseq;
    if events != [] {
      var n := |events| - 1;
      var r := Run(events[..n]).value;
      if r.links[k].status == Connecting {
        ConnectIsOut(events[..n], r, k);
        StepInserts(r, events[n], k);
        SubseqIn(Out(r, k), Out(s, k), ConnectPdu(k));
      } else {
        StartsConnecting(r, events[n], k);
      }
    }
  }

  /**
   * In every run, with or without overtaking: the PDUs that are pending when the host accepts a connection go out in
   * their order, behind a CONNECT of the link that was sent or queued before.
   */
  lemma ConnectAlwaysLeads(events: seq<Event>, cc: Event, more: seq<Event>, s: State, t: State, k: Key)
    returns (i: nat)
    requires Run(events) == Some(s) && s.links[k].status == Connecting
    requires cc.Host? && cc.pdu.ptype == CC && HostKeyOf(cc.pdu) == k
    requires Run(events + [cc] + more) == Some(t)
    ensures ConnectPdu(k) in Out(s, k)
    ensures i <= |Out(t, k)| && ConnectPdu(k) in Out(t, k)[..i]
    ensures Subseq(Sel(s.links[k].xmitQ, k, Everything), Out(t, k)[i..])
  {
    hide Run, Subseq, Sel, Out;
    ConnectIsOut(events, s, k);
    NothingIsReordered(events + [cc], more, k);
    CcAppends(events, cc, s, k);
    i := SubseqSplit(Out(s, k), Sel(s.links[k].xmitQ, k, Everything), Out(t, k));
    SubseqIn(Out(s, k), Out(t, k)[..i], ConnectPdu(k));
  }

  lemma CcAppends(events: seq<Event>, cc: Event, s: State, k: Key)
    requires Run(events) == Some(s) && Run(events + [cc]).Some?
    requires cc.Host? && cc.pdu.ptype == CC && HostKeyOf(cc.pdu) == k
    ensures Out(Run(events + [cc]).value, k) == Out(s, k) + Sel(s.links[k].xmitQ, k, Everything)
  {
    assert (events + [cc])[..|events|] == events;
    HandleAppends(s, cc.pdu);
    hide Sel, Process, Outgoing, Accepts;
    SelAppend(Outgoing(s), s.links[k].xmitQ, k, Everything);
  }
}
