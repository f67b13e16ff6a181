/** What every run of the endpoint keeps. */
module EndpointProofs {
  import opened Bytes
  import opened Llcp
  import opened Endpoint

  // ----- Selecting PDUs -----

  /** The PDUs of a link that carry data, or all that are not SYMM; in both cases only those whose length fits 8 bits. */
  datatype Kind = DataOnly | Everything

  predicate Chosen(p: Pdu, k: Key, kind: Kind)
  {
    KeyOf(p) == k && Len8(p) != 0 && (if kind == DataOnly then p.ptype == I else p.ptype != SYMM)
  }

  /** The chosen PDUs of `q`, in order. */
  function Sel(q: seq<Pdu>, k: Key, kind: Kind): seq<Pdu>
  {
    if q == [] then [] else (if Chosen(q[0], k, kind) then [q[0]] else []) + Sel(q[1..], k, kind)
  }

  lemma {:induction false} SelAppend(a: seq<Pdu>, b: seq<Pdu>, k: Key, kind: Kind)
    ensures Sel(a + b, k, kind) == Sel(a, k, kind) + Sel(b, k, kind)
  {
    hide Chosen;
    if a == [] {
      assert a + b == b;
    } else {
      assert (a + b)[1..] == a[1..] + b;
      SelAppend(a[1..], b, k, kind);
    }
  }

  lemma SelOne(p: Pdu, k: Key, kind: Kind)
    ensures Sel([p], k, kind) == if Chosen(p, k, kind) then [p] else []
  {
    assert [p][1..] == [];
  }

  lemma {:induction false} SelNone(q: seq<Pdu>, k: Key, kind: Kind)
    requires forall i :: 0 <= i < |q| ==> !Chosen(q[i], k, kind)
    ensures Sel(q, k, kind) == []
  {
    hide Chosen;
    if q != [] {
      SelNone(q[1..], k, kind);
    }
  }

  /** Data can be chosen from what was chosen already. */
  lemma {:induction false} SelTwice(q: seq<Pdu>, k: Key)
    ensures Sel(Sel(q, k, Everything), k, DataOnly) == Sel(q, k, DataOnly)
  {
    hide Chosen;
    if q != [] {
      SelTwice(q[1..], k);
      var head := if Chosen(q[0], k, Everything) then [q[0]] else [];
      SelAppend(head, Sel(q[1..], k, Everything), k, DataOnly);
      SelOne(q[0], k, DataOnly);
      assert Chosen(q[0], k, DataOnly) ==> Chosen(q[0], k, Everything) by {
        DataIsChosen(q[0], k);
      }
    }
  }

  lemma DataIsChosen(p: Pdu, k: Key)
    ensures Chosen(p, k, DataOnly) ==> Chosen(p, k, Everything)
  {
  }

  // ----- Invariants, one per concern -----

  ghost predicate LinkOk(k: Key, l: Link)
  {
    && l.status != Disconnecting
    && (l.status == Connected ==> l.xmitQ == [])
    && l.vs < 16 && l.vsa < 16 && l.vr < 16 && l.vra < 16
    && |l.rbuf| == RBUF_SIZE
    && forall i :: 0 <= i < |l.xmitQ| ==>
         l.xmitQ[i].ptype == I && KeyOf(l.xmitQ[i]) == k && |Pack(l.xmitQ[i])| <= PDU_SIZE
  }

  /** Data links: never disconnecting, nothing pending while connected, variables below 16. */
  ghost predicate LinksOk(s: State)
  {
    forall k: Key :: LinkOk(k, s.links[k])
  }

  /** Taking turns: the timer runs exactly while it is our turn, and every PDU sent was paid for by one received. */
  ghost predicate TurnsOk(s: State)
  {
    && (s.xmitNext <==> s.timer)
    && |s.h.wire| + (if s.xmitNext then 1 else 0) <= s.h.received
  }

  /** What is queued fits its buffer, and what was sent has a length in 8 bits. */
  ghost predicate SizesOk(s: State)
  {
    && (forall i :: 0 <= i < |s.xmitQ| ==> |Pack(s.xmitQ[i])| <= PDU_SIZE)
    && (forall i :: 0 <= i < |s.h.wire| ==> Len8(s.h.wire[i]) != 0)
  }

  /** Where the copies of a PDU are: on the wire, in one of the two queues it can be in, or lost. */
  ghost function Located(s: State, p: Pdu): nat
  {
    multiset(s.h.wire)[p] + multiset(s.xmitQ)[p] + multiset(s.links[KeyOf(p)].xmitQ)[p] + s.h.dropped[p]
  }

  /** Conservation: every PDU whose length fits 8 bits is in exactly one place, as often as it was created. */
  ghost predicate Conserved(s: State)
  {
    forall p: Pdu :: p.ptype != SYMM && Len8(p) != 0 ==> multiset(s.h.created)[p] == Located(s, p)
  }

  ghost predicate Numbered(k: Key, made: seq<Pdu>)
  {
    forall i :: 0 <= i < |made| ==> KeyOf(made[i]) == k && made[i].ptype == I && Ns(made[i]) == i % 16
  }

  /** V(S) follows the number of the last pending PDU, or is this number if the PDU could not be made. */
  ghost predicate LastOk(l: Link, log: LinkLog)
  {
    l.xmitQ != [] ==> (Ns(l.xmitQ[|l.xmitQ| - 1]) + if log.lastFailed then 0 else 1) % 16 == l.vs
  }

  /** Numbering: the k-th I PDU made since a link was cleared carries N(S) = k mod 16, V(R) counts what was received. */
  ghost predicate LogOk(k: Key, l: Link, log: LinkLog)
  {
    && l.vs == |log.made| % 16 && l.vr == log.received % 16
    && Numbered(k, log.made)
    && LastOk(l, log)
  }

  ghost predicate LogsOk(s: State)
  {
    forall k: Key :: LogOk(k, s.links[k], s.h.logs[k])
  }

  /** What was sent and is about to be sent, in the order it reaches the host if nothing is overtaken. */
  function Outgoing(s: State): seq<Pdu>
  {
    s.h.wire + s.xmitQ
  }

  ghost predicate Lossless(s: State, k: Key)
  {
    forall p :: p in s.h.dropped ==> KeyOf(p) != k
  }

  /** Without loss on a link, its I PDUs enter the endpoint's queue in the order they were made. */
  ghost predicate MadeOk(s: State)
  {
    forall k: Key :: Lossless(s, k) ==>
      Sel(s.h.entered, k, DataOnly) + Sel(s.links[k].xmitQ, k, DataOnly) == Sel(s.h.created, k, DataOnly)
  }

  /** Without overtaking on a link, its PDUs go out in the order they entered the endpoint's queue. */
  ghost predicate OrderOk(s: State)
  {
    forall k: Key :: k !in s.h.overtaken ==> Sel(Outgoing(s), k, Everything) == Sel(s.h.entered, k, Everything)
  }

  /** While a link is connecting, the last of its PDUs that entered the queue is the CONNECT. */
  ghost predicate AttemptOk(s: State)
  {
    forall k: Key :: s.links[k].status == Connecting ==> ConnectLast(s.h.entered, k)
  }

  predicate ConnectLast(q: seq<Pdu>, k: Key)
  {
    var r := Sel(q, k, Everything);
    r != [] && r[|r| - 1] == ConnectPdu(k)
  }

  predicate ConnectFirst(q: seq<Pdu>, k: Key)
  {
    var r := Sel(q, k, Everything);
    r != [] ==> r[0] == ConnectPdu(k)
  }

  /** On a link the host never connected, a CONNECT is the first PDU, and data presuppose it. */
  ghost predicate ConnectOk(s: State)
  {
    forall k: Key :: k !in s.h.invited ==>
      && ConnectFirst(s.h.entered, k)
      && (s.links[k].status != Disconnected ==> Sel(s.h.entered, k, Everything) != [])
  }

  /** The invariants about the contents of the queues. */
  ghost predicate QueuesOk(s: State)
  {
    SizesOk(s) && Conserved(s) && MadeOk(s) && OrderOk(s) && AttemptOk(s) && ConnectOk(s)
  }

  ghost predicate Invariant(s: State)
  {
    LinksOk(s) && TurnsOk(s) && LogsOk(s) && QueuesOk(s)
  }

  lemma OrderInvariant(s: State, k: Key)
    requires Invariant(s)
    ensures k !in s.h.overtaken ==> Sel(Outgoing(s), k, Everything) == Sel(s.h.entered, k, Everything)
    ensures s.links[k].status == Connecting ==> ConnectLast(s.h.entered, k)
  {
    hide Sel, ConnectLast;
  }

  lemma LinkInvariant(s: State, k: Key)
    requires Invariant(s)
    ensures LinkOk(k, s.links[k]) && LogOk(k, s.links[k], s.h.logs[k])
  {
  }

  // ----- Changing one link -----

  /** What a link may become without touching a PDU. */
  ghost predicate MayBecome(s: State, k: Key, l: Link, log: LinkLog)
  {
    && LinkOk(k, l) && LogOk(k, l, log) && l.xmitQ == s.links[k].xmitQ
    && (l.status == Connecting ==> ConnectLast(s.h.entered, k))
    && (l.status in {s.links[k].status, Disconnected} || k in s.h.invited || ConnectLast(s.h.entered, k))
  }

  lemma SetLogKeeps(s: State, k: Key, l: Link, log: LinkLog)
    requires Invariant(s) && MayBecome(s, k, l, log)
    ensures Invariant(SetLog(s, k, l, log))
  {
    hide LinkOk, LogOk, Sel, Len8;
    var t := SetLog(s, k, l, log);
    assert Conserved(t) by {
      forall p: Pdu | p.ptype != SYMM && Len8(p) != 0
        ensures multiset(t.h.created)[p] == Located(t, p)
      {
        assert Located(t, p) == Located(s, p);
      }
    }
    assert MadeOk(t) by {
      assert forall j: Key :: Lossless(t, j) == Lossless(s, j);
    }
    assert OrderOk(t) && AttemptOk(t) && ConnectOk(t) && LinksOk(t) && LogsOk(t);
  }

  lemma SetLinkKeeps(s: State, k: Key, l: Link)
    requires Invariant(s) && MayBecome(s, k, l, s.h.logs[k])
    ensures Invariant(SetLink(s, k, l))
  {
    hide Invariant, MayBecome;
    SetLogKeeps(s, k, l, s.h.logs[k]);
    assert s.h.logs[k := s.h.logs[k]] == s.h.logs;
  }

  /** Fields that the invariants on queues do not mention. */
  lemma QueuesKept(s: State, t: State)
    requires QueuesOk(s)
    requires t.links == s.links && t.xmitQ == s.xmitQ
    requires t.h == s.h.(received := t.h.received, invited := t.h.invited) && s.h.invited <= t.h.invited
    ensures QueuesOk(t)
  {
    hide Sel, Len8;
    assert forall p: Pdu :: Located(t, p) == Located(s, p);
    assert Outgoing(t) == Outgoing(s) && forall k: Key :: Lossless(t, k) == Lossless(s, k);
    assert Conserved(t) && MadeOk(t) && OrderOk(t);
    assert AttemptOk(t) && ConnectOk(t);
  }

  lemma SapsKeep(s: State, dsap: Sap, ssap: Sap)
    requires Invariant(s)
    ensures Invariant(s.(lastDsap := dsap, lastSsap := ssap))
  {
    var t := s.(lastDsap := dsap, lastSsap := ssap);
    QueuesKept(s, t);
    hide LinkOk, LogOk, QueuesOk;
    assert LinksOk(t) && LogsOk(t) && TurnsOk(t);
  }

  lemma InviteKeeps(s: State, k: Key)
    requires Invariant(s)
    ensures Invariant(s.(h := s.h.(invited := s.h.invited + {k})))
  {
    var t := s.(h := s.h.(invited := s.h.invited + {k}));
    QueuesKept(s, t);
    hide LinkOk, LogOk, QueuesOk;
    assert LinksOk(t) && LogsOk(t) && TurnsOk(t);
  }

  lemma TurnKeeps(s: State)
    requires Invariant(s) && |s.h.wire| <= s.h.received
    ensures Invariant(s.(xmitNext := true, timer := true, h := s.h.(received := s.h.received + 1)))
  {
    var t := s.(xmitNext := true, timer := true, h := s.h.(received := s.h.received + 1));
    QueuesKept(s, t);
    hide LinkOk, LogOk, QueuesOk;
    assert LinksOk(t) && LogsOk(t) && TurnsOk(t);
  }

  // ----- Initialising a link -----

  lemma InitConserves(s: State, k: Key)
    requires Conserved(s) && LinkOk(k, s.links[k])
    ensures Conserved(InitAt(s, k))
  {
    hide Len8;
    var t := InitAt(s, k);
    forall p: Pdu | p.ptype != SYMM && Len8(p) != 0
      ensures multiset(t.h.created)[p] == Located(t, p)
    {
      assert multiset(s.h.created)[p] == Located(s, p);
      assert KeyOf(p) != k ==> p !in s.links[k].xmitQ;
    }
  }

  lemma InitKeepsMade(s: State, k: Key)
    requires MadeOk(s) && LinkOk(k, s.links[k])
    ensures MadeOk(InitAt(s, k))
  {
    hide Sel;
    var t, q := InitAt(s, k), s.links[k].xmitQ;
    assert forall i :: 0 <= i < |q| ==> q[i] in t.h.dropped && KeyOf(q[i]) == k;
    forall j: Key | Lossless(t, j)
      ensures Sel(t.h.entered, j, DataOnly) + Sel(t.links[j].xmitQ, j, DataOnly) == Sel(t.h.created, j, DataOnly)
    {
      assert j == k ==> q == [];
      assert Lossless(s, j);
    }
  }

  lemma InitKeepsQueues(s: State, k: Key)
    requires QueuesOk(s) && LinkOk(k, s.links[k])
    ensures QueuesOk(InitAt(s, k))
  {
    InitConserves(s, k);
    InitKeepsMade(s, k);
    hide Sel, Conserved, MadeOk, LinkOk, Len8, Pack;
    var t := InitAt(s, k);
    assert OrderOk(t) && AttemptOk(t) && ConnectOk(t) && SizesOk(t);
  }

  lemma InitKeepsLinks(s: State, k: Key)
    requires LinksOk(s) && LogsOk(s)
    ensures LinksOk(InitAt(s, k)) && LogsOk(InitAt(s, k))
  {
    InitKeepsLink(k, s.links[k]);
    InitFields(s, k);
    hide LinkOk, LogOk, InitLink, InitAt;
  }

  lemma InitKeeps(s: State, k: Key)
    requires Invariant(s)
    ensures Invariant(InitAt(s, k))
  {
    assert LinkOk(k, s.links[k]);
    InitKeepsQueues(s, k);
    InitKeepsLinks(s, k);
    InitFields(s, k);
    hide QueuesOk, LinksOk, LogsOk, InitAt;
  }

  lemma InitFields(s: State, k: Key)
    ensures InitAt(s, k).links == s.links[k := InitLink(s.links[k])]
    ensures InitAt(s, k).h.logs == s.h.logs[k := FRESH_LOG]
    ensures InitAt(s, k).xmitNext == s.xmitNext && InitAt(s, k).timer == s.timer
    ensures InitAt(s, k).h.wire == s.h.wire && InitAt(s, k).h.received == s.h.received
  {
  }

  lemma InitKeepsLink(k: Key, l: Link)
    requires LinkOk(k, l)
    ensures LinkOk(k, InitLink(l)) && LogOk(k, InitLink(l), FRESH_LOG)
  {
  }

  lemma {:induction false} InitFirstKeeps(s: State, n: nat)
    requires n <= 4096 && Invariant(s)
    ensures Invariant(InitFirst(s, n))
  {
    hide Invariant, InitAt;
    if n > 0 {
      InitFirstKeeps(s, n - 1);
      InitKeeps(InitFirst(s, n - 1), KeyAt(n - 1));
    }
  }

  // ----- Sending -----

  /** What may be emitted: a CONNECT, or an I PDU of a connected link. */
  predicate MayEmit(s: State, p: Pdu)
  {
    && |Pack(p)| <= PDU_SIZE
    && (p == ConnectPdu(KeyOf(p)) || (p.ptype == I && s.links[KeyOf(p)].status == Connected))
  }

  lemma EmitFields(s: State, p: Pdu)
    ensures Emit(s, p).h.created == s.h.created + [p] && Emit(s, p).h.entered == s.h.entered + [p]
    ensures Emit(s, p).links == s.links && Emit(s, p).h.logs == s.h.logs && s.h.overtaken <= Emit(s, p).h.overtaken
    ensures Emit(s, p).h.dropped == s.h.dropped && Emit(s, p).h.invited == s.h.invited
  {
  }

  lemma EmitConserves(s: State, p: Pdu)
    requires Conserved(s)
    ensures Conserved(Emit(s, p))
  {
    hide Len8;
    var t := Emit(s, p);
    forall q: Pdu | q.ptype != SYMM && Len8(q) != 0
      ensures multiset(t.h.created)[q] == Located(t, q)
    {
      assert multiset(s.h.created)[q] == Located(s, q);
    }
  }

  lemma EmitKeepsSizes(s: State, p: Pdu)
    requires SizesOk(s) && |Pack(p)| <= PDU_SIZE
    ensures SizesOk(Emit(s, p))
  {
    hide Len8, Pack;
  }

  lemma EmitKeepsMade(s: State, p: Pdu)
    requires MadeOk(s) && LinksOk(s) && MayEmit(s, p)
    ensures MadeOk(Emit(s, p))
  {
    hide Sel, Emit, Len8;
    EmitFields(s, p);
    var t := Emit(s, p);
    forall j: Key | Lossless(t, j)
      ensures Sel(t.h.entered, j, DataOnly) + Sel(t.links[j].xmitQ, j, DataOnly) == Sel(t.h.created, j, DataOnly)
    {
      assert Lossless(s, j) && LinkOk(j, s.links[j]);
      SelAppend(s.h.entered, [p], j, DataOnly);
      SelAppend(s.h.created, [p], j, DataOnly);
      SelOne(p, j, DataOnly);
      if s.links[j].xmitQ == [] {
        SelNone([], j, DataOnly);
      }
    }
  }

  /** A PDU that goes out at once does not overtake one of its link, or the link counts as overtaken. */
  lemma EmitKeepsOrderOf(s: State, p: Pdu, j: Key)
    requires Sel(Outgoing(s), j, Everything) == Sel(s.h.entered, j, Everything) && j !in Emit(s, p).h.overtaken
    ensures Sel(Outgoing(Emit(s, p)), j, Everything) == Sel(Emit(s, p).h.entered, j, Everything)
  {
    hide Sel, Len8;
    var t, w, q := Emit(s, p), s.h.wire, s.xmitQ;
    SelAppend(s.h.entered, [p], j, Everything);
    SelAppend(w, q, j, Everything);
    SelOne(p, j, Everything);
    if s.xmitNext {
      var c := OnWire(p);
      assert Outgoing(t) == w + c + q;
      SelAppend(w + c, q, j, Everything);
      SelAppend(w, c, j, Everything);
      SelNone([], j, Everything);
      if j == KeyOf(p) {
        SelNone(q, j, Everything);
      }
    } else {
      assert Outgoing(t) == w + q + [p];
      SelAppend(w + q, [p], j, Everything);
    }
  }

  lemma EmitOrders(s: State, p: Pdu)
    requires OrderOk(s)
    ensures OrderOk(Emit(s, p))
  {
    hide Sel, Emit, Outgoing;
    EmitFields(s, p);
    forall j: Key | j !in Emit(s, p).h.overtaken
      ensures Sel(Outgoing(Emit(s, p)), j, Everything) == Sel(Emit(s, p).h.entered, j, Everything)
    {
      EmitKeepsOrderOf(s, p, j);
    }
  }

  lemma EmitConnects(s: State, p: Pdu)
    requires AttemptOk(s) && ConnectOk(s) && MayEmit(s, p)
    ensures AttemptOk(Emit(s, p)) && ConnectOk(Emit(s, p))
  {
    hide Sel, Emit, Len8;
    EmitFields(s, p);
    var t := Emit(s, p);
    forall j: Key
      ensures Sel(t.h.entered, j, Everything)
           == Sel(s.h.entered, j, Everything) + if Chosen(p, j, Everything) then [p] else []
    {
      SelAppend(s.h.entered, [p], j, Everything);
      SelOne(p, j, Everything);
    }
  }

  lemma EmitKeeps(s: State, p: Pdu)
    requires Invariant(s) && MayEmit(s, p)
    ensures Invariant(Emit(s, p))
  {
    EmitConserves(s, p);
    EmitKeepsSizes(s, p);
    EmitKeepsMade(s, p);
    EmitOrders(s, p);
    EmitConnects(s, p);
    EmitKeepsTurns(s, p);
    EmitFields(s, p);
    hide Conserved, SizesOk, MadeOk, OrderOk, AttemptOk, ConnectOk, LinkOk, LogOk, TurnsOk, Emit;
  }

  lemma EmitKeepsTurns(s: State, p: Pdu)
    requires TurnsOk(s)
    ensures TurnsOk(Emit(s, p))
  {
  }

  lemma ConnectEntered(q: seq<Pdu>, k: Key)
    ensures ConnectLast(q + [ConnectPdu(k)], k)
  {
    SelAppend(q, [ConnectPdu(k)], k, Everything);
    SelOne(ConnectPdu(k), k, Everything);
  }

  lemma StatusKeepsLink(k: Key, l: Link, log: LinkLog, status: Status)
    requires LinkOk(k, l) && LogOk(k, l, log)
    requires status != Disconnecting && (status == Connected ==> l.xmitQ == [])
    ensures LinkOk(k, l.(status := status)) && LogOk(k, l.(status := status), log)
  {
  }

  lemma SendConnectKeeps(s: State, k: Key)
    requires Invariant(s) && s.links[k].status == Disconnected
    ensures Invariant(SendConnect(s, k))
  {
    var p := ConnectPdu(k);
    assert MayEmit(s, p);
    hide Invariant, Emit, ConnectLast, MayEmit, LinkOk, LogOk;
    var t := Emit(s, p);
    EmitKeeps(s, p);
    EmitFields(s, p);
    ConnectEntered(s.h.entered, k);
    LinkInvariant(t, k);
    StatusKeepsLink(k, t.links[k], t.h.logs[k], Connecting);
    SetLinkKeeps(t, k, t.links[k].(status := Connecting));
  }

  // ----- SNEP put requests -----

  lemma InfoNumbered(l: Link, k: Key, log: LinkLog, c: Creation)
    requires LogOk(k, l, log) && FitsBuffer(c)
    ensures KeyOf(InfoPdu(l, k, c)) == k && InfoPdu(l, k, c).ptype == I && Ns(InfoPdu(l, k, c)) == |log.made| % 16
    ensures |Pack(InfoPdu(l, k, c))| <= PDU_SIZE
  {
  }

  /** The link and log that `create_i_pdu` leaves, once the PDU is pending. */
  lemma CountKeepsLog(l: Link, k: Key, log: LinkLog, c: Creation, q: seq<Pdu>)
    requires LogOk(k, l, log) && FitsBuffer(c)
    requires q == l.xmitQ + [InfoPdu(l, k, c)] || q == []
    ensures LogOk(k, CountLink(l, c).(xmitQ := q), CountLog(l, k, log, c))
  {
    var p, made := InfoPdu(l, k, c), log.made;
    InfoNumbered(l, k, log, c);
    assert Numbered(k, CountLog(l, k, log, c).made) by {
      assert Numbered(k, made + [p]);
    }
    hide Numbered, InfoPdu, Ns;
    NextMod(|made|);
  }

  lemma NextMod(n: nat)
    ensures (n % 16 + 1) % 16 == (n + 1) % 16 && n % 16 % 16 == n % 16
  {
  }

  /** A PDU that is pending on its link, before the link's status is set. */
  function PendInfo(s: State, k: Key, c: Creation): State
  {
    var l := s.links[k];
    var q := l.xmitQ + [InfoPdu(l, k, c)];
    Created(SetLog(s, k, CountLink(l, c).(xmitQ := q), CountLog(l, k, s.h.logs[k], c)), InfoPdu(l, k, c))
  }

  lemma PendFields(s: State, k: Key, c: Creation)
    ensures PendInfo(s, k, c).links[k].xmitQ == s.links[k].xmitQ + [InfoPdu(s.links[k], k, c)]
    ensures PendInfo(s, k, c).links[k].status == s.links[k].status
    ensures PendInfo(s, k, c).links[k].vr == s.links[k].vr
    ensures forall j: Key :: j != k ==> PendInfo(s, k, c).links[j] == s.links[j]
    ensures PendInfo(s, k, c).h == s.h.(created := s.h.created + [InfoPdu(s.links[k], k, c)], logs := PendInfo(s, k, c).h.logs)
    ensures PendInfo(s, k, c).xmitQ == s.xmitQ
    ensures PendInfo(s, k, c).xmitNext == s.xmitNext && PendInfo(s, k, c).timer == s.timer
  {
  }

  lemma PendConserves(s: State, k: Key, c: Creation)
    requires Conserved(s)
    ensures Conserved(PendInfo(s, k, c))
  {
    hide PendInfo, Len8;
    PendFields(s, k, c);
    var t, p := PendInfo(s, k, c), InfoPdu(s.links[k], k, c);
    assert KeyOf(p) == k;
    hide InfoPdu;
    forall q: Pdu | q.ptype != SYMM && Len8(q) != 0
      ensures multiset(t.h.created)[q] == Located(t, q)
    {
      assert multiset(s.h.created)[q] == Located(s, q);
    }
  }

  lemma PendKeepsMade(s: State, k: Key, c: Creation)
    requires MadeOk(s)
    ensures MadeOk(PendInfo(s, k, c))
  {
    hide PendInfo, Sel;
    PendFields(s, k, c);
    var t, p := PendInfo(s, k, c), InfoPdu(s.links[k], k, c);
    assert KeyOf(p) == k;
    hide InfoPdu, Len8;
    forall j: Key | Lossless(t, j)
      ensures Sel(t.h.entered, j, DataOnly) + Sel(t.links[j].xmitQ, j, DataOnly) == Sel(t.h.created, j, DataOnly)
    {
      assert Lossless(s, j);
      SelAppend(s.h.created, [p], j, DataOnly);
      SelAppend(s.links[j].xmitQ, [p], j, DataOnly);
      SelOne(p, j, DataOnly);
    }
  }

  lemma PendKeepsQueues(s: State, k: Key, c: Creation)
    requires QueuesOk(s)
    ensures QueuesOk(PendInfo(s, k, c))
  {
    PendConserves(s, k, c);
    PendKeepsMade(s, k, c);
    PendFields(s, k, c);
    hide Conserved, MadeOk, Sel, InfoPdu, PendInfo, Len8, Pack;
    var t := PendInfo(s, k, c);
    assert Outgoing(t) == Outgoing(s);
    assert SizesOk(t) && OrderOk(t) && AttemptOk(t) && ConnectOk(t);
  }

  lemma PendKeepsLink(l: Link, k: Key, log: LinkLog, c: Creation)
    requires LinkOk(k, l) && LogOk(k, l, log) && l.status != Connected && FitsBuffer(c)
    ensures var m := CountLink(l, c).(xmitQ := l.xmitQ + [InfoPdu(l, k, c)]);
      LinkOk(k, m) && LogOk(k, m, CountLog(l, k, log, c))
  {
    InfoNumbered(l, k, log, c);
    CountKeepsLog(l, k, log, c, l.xmitQ + [InfoPdu(l, k, c)]);
    hide LogOk, InfoPdu, CountLog;
  }

  lemma PendKeepsLinks(s: State, k: Key, c: Creation)
    requires LinksOk(s) && LogsOk(s) && s.links[k].status != Connected && FitsBuffer(c)
    ensures LinksOk(PendInfo(s, k, c)) && LogsOk(PendInfo(s, k, c))
  {
    var l, log := s.links[k], s.h.logs[k];
    PendKeepsLink(l, k, log, c);
    hide InfoPdu, LinkOk, LogOk, CountLink, CountLog;
  }

  lemma PendKeeps(s: State, k: Key, c: Creation)
    requires Invariant(s) && s.links[k].status != Connected && FitsBuffer(c)
    ensures Invariant(PendInfo(s, k, c))
  {
    PendKeepsQueues(s, k, c);
    PendKeepsLinks(s, k, c);
    PendFields(s, k, c);
    hide QueuesOk, LinksOk, LogsOk, PendInfo, InfoPdu;
  }

  lemma CountKeeps(s: State, k: Key, c: Creation)
    requires Invariant(s) && s.links[k].status == Connected && FitsBuffer(c)
    ensures Invariant(SetLog(s, k, CountLink(s.links[k], c), CountLog(s.links[k], k, s.h.logs[k], c)))
  {
    hide Invariant, LogOk, InfoPdu, CountLog, ConnectLast;
    var l, log := s.links[k], s.h.logs[k];
    LinkInvariant(s, k);
    CountKeepsLog(l, k, log, c, l.xmitQ);
    SetLogKeeps(s, k, CountLink(l, c), CountLog(l, k, log, c));
  }

  /** On a link that is not connected: the PDU waits, then a CONNECT is sent. */
  lemma PutOnDisconnected(s: State, k: Key, c: Creation)
    requires s.links[k].status == Disconnected
    ensures SendPut(s, k, c) == SendConnect(PendInfo(s, k, c), k)
  {
    hide InfoPdu, CountLog, ConnectPdu, Overtakes, OnWire;
    var l, log := s.links[k], s.h.logs[k];
    var q := l.xmitQ + [InfoPdu(l, k, c)];
    assert s.links[k := PutOn(l, k, c)] == s.links[k := CountLink(l, c).(xmitQ := q)][k := PutOn(l, k, c)];
    SameOvertaking(PendInfo(s, k, c), Created(SetLog(s, k, PutOn(l, k, c), CountLog(l, k, log, c)), InfoPdu(l, k, c)));
  }

  lemma SameOvertaking(s: State, t: State)
    requires s.xmitNext == t.xmitNext && s.xmitQ == t.xmitQ
    ensures forall k: Key :: Overtakes(s, k) == Overtakes(t, k)
  {
  }

  lemma SendPutKeeps(s: State, k: Key, c: Creation)
    requires Invariant(s) && FitsBuffer(c)
    ensures Invariant(SendPut(s, k, c))
  {
    LinkInvariant(s, k);
    InfoNumbered(s.links[k], k, s.h.logs[k], c);
    hide Invariant, Emit, LogOk, InfoPdu, Pack;
    var status := s.links[k].status;
    if status == Connected {
      CountKeeps(s, k, c);
      EmitKeeps(SetLog(s, k, PutOn(s.links[k], k, c), CountLog(s.links[k], k, s.h.logs[k], c)), InfoPdu(s.links[k], k, c));
    } else {
      PendKeeps(s, k, c);
      if status == Disconnected {
        PutOnDisconnected(s, k, c);
        PendFields(s, k, c);
        SendConnectKeeps(PendInfo(s, k, c), k);
      }
    }
  }

  // ----- The timer -----

  lemma TimerFields(s: State)
    ensures TimerFires(s).links == s.links
    ensures TimerFires(s).h == s.h.(wire := TimerFires(s).h.wire)
  {
  }

  lemma NotChosen(p: Pdu, k: Key, kind: Kind)
    requires p.ptype == SYMM || Len8(p) == 0
    ensures !Chosen(p, k, kind)
  {
  }

  lemma SelThree(a: seq<Pdu>, b: seq<Pdu>, c: seq<Pdu>, k: Key, kind: Kind)
    ensures Sel(a + b + c, k, kind) == Sel(a, k, kind) + Sel(b, k, kind) + Sel(c, k, kind)
  {
    SelAppend(a + b, c, k, kind);
    SelAppend(a, b, k, kind);
  }

  lemma TimerOrders(s: State, k: Key)
    ensures Sel(Outgoing(TimerFires(s)), k, Everything) == Sel(Outgoing(s), k, Everything)
  {
    var t, q := TimerFires(s), s.xmitQ;
    var p, lost := t.h.wire[|s.h.wire|..], if q == [] then [] else [q[0]];
    assert t.h.wire == s.h.wire + p && q == lost + t.xmitQ;
    assert p == lost || (p == [SYMM_PDU] && (lost == [] || Len8(lost[0]) == 0));
    hide TimerFires, Sel, Chosen, Len8;
    if p != lost {
      NotChosen(SYMM_PDU, k, Everything);
      SelNone(p, k, Everything);
      if lost != [] {
        NotChosen(lost[0], k, Everything);
      }
      SelNone(lost, k, Everything);
    }
    assert Outgoing(s) == s.h.wire + lost + t.xmitQ;
    SelThree(s.h.wire, lost, t.xmitQ, k, Everything);
    SelThree(s.h.wire, p, t.xmitQ, k, Everything);
  }

  lemma TimerConserves(s: State)
    requires Conserved(s)
    ensures Conserved(TimerFires(s))
  {
    hide Len8;
    var t := TimerFires(s);
    assert s.xmitQ != [] ==> s.xmitQ == [s.xmitQ[0]] + s.xmitQ[1..];
    forall q: Pdu | q.ptype != SYMM && Len8(q) != 0
      ensures multiset(t.h.created)[q] == Located(t, q)
    {
      assert multiset(s.h.created)[q] == Located(s, q);
    }
  }

  lemma TimerKeepsSizes(s: State)
    requires SizesOk(s)
    ensures SizesOk(TimerFires(s))
  {
    hide Pack;
    assert Len8(SYMM_PDU) != 0 by {
      SymmFits();
    }
    hide Len8;
  }

  lemma SymmFits()
    ensures Len8(SYMM_PDU) != 0
  {
  }

  lemma TimerKeeps(s: State)
    requires Invariant(s) && s.timer
    ensures Invariant(TimerFires(s))
  {
    TimerConserves(s);
    TimerKeepsSizes(s);
    TimerFields(s);
    var t := TimerFires(s);
    assert TurnsOk(t);
    hide LinkOk, LogOk, Conserved, SizesOk, Sel, TimerFires, Outgoing;
    forall k: Key
      ensures Sel(Outgoing(t), k, Everything) == Sel(Outgoing(s), k, Everything)
    {
      TimerOrders(s, k);
    }
    assert forall k: Key :: Lossless(t, k) == Lossless(s, k);
    assert MadeOk(t) && OrderOk(t) && AttemptOk(t) && ConnectOk(t);
  }

  // ----- The connection is accepted -----

  /** `process_ptype_cc` */
  function OnCc(s: State, k: Key): State
  {
    var l := s.links[k];
    SetLog(s, k, AcceptedLink(l), FRESH_LOG).(xmitQ := s.xmitQ + l.xmitQ,
      h := s.h.(entered := s.h.entered + l.xmitQ, logs := s.h.logs[k := FRESH_LOG]))
  }

  lemma CcConserves(s: State, k: Key)
    requires Conserved(s) && LinkOk(k, s.links[k])
    ensures Conserved(OnCc(s, k))
  {
    hide Len8;
    var t := OnCc(s, k);
    forall q: Pdu | q.ptype != SYMM && Len8(q) != 0
      ensures multiset(t.h.created)[q] == Located(t, q)
    {
      assert multiset(s.h.created)[q] == Located(s, q);
      assert KeyOf(q) != k ==> q !in s.links[k].xmitQ;
    }
  }

  /** The pending PDUs enter the queue: on their own link behind the others, on other links nothing changes. */
  lemma CcEnters(s: State, k: Key, j: Key, kind: Kind)
    requires LinkOk(k, s.links[k])
    ensures Sel(OnCc(s, k).h.entered, j, kind) == Sel(s.h.entered, j, kind) + Sel(s.links[k].xmitQ, j, kind)
    ensures Sel(Outgoing(OnCc(s, k)), j, kind) == Sel(Outgoing(s), j, kind) + Sel(s.links[k].xmitQ, j, kind)
    ensures j != k ==> Sel(s.links[k].xmitQ, j, kind) == []
  {
    hide Sel;
    var q := s.links[k].xmitQ;
    SelAppend(s.h.entered, q, j, kind);
    assert Outgoing(OnCc(s, k)) == Outgoing(s) + q;
    SelAppend(Outgoing(s), q, j, kind);
    if j != k {
      SelNone(q, j, kind);
    }
  }

  lemma CcKeepsMade(s: State, k: Key)
    requires MadeOk(s) && LinkOk(k, s.links[k])
    ensures MadeOk(OnCc(s, k))
  {
    hide Sel, Len8;
    var t := OnCc(s, k);
    forall j: Key | Lossless(t, j)
      ensures Sel(t.h.entered, j, DataOnly) + Sel(t.links[j].xmitQ, j, DataOnly) == Sel(t.h.created, j, DataOnly)
    {
      assert Lossless(s, j);
      CcEnters(s, k, j, DataOnly);
      SelNone([], j, DataOnly);
    }
  }

  lemma CcOrders(s: State, k: Key)
    requires OrderOk(s) && LinkOk(k, s.links[k])
    ensures OrderOk(OnCc(s, k))
  {
    var t := OnCc(s, k);
    hide Sel, Outgoing, LinkOk;
    forall j: Key | j !in t.h.overtaken
      ensures Sel(Outgoing(t), j, Everything) == Sel(t.h.entered, j, Everything)
    {
      CcEnters(s, k, j, Everything);
    }
  }

  lemma CcLinks(s: State, k: Key)
    ensures OnCc(s, k).links[k].status == Connected && forall j: Key :: j != k ==> OnCc(s, k).links[j] == s.links[j]
    ensures OnCc(s, k).h.invited == s.h.invited
  {
  }

  lemma CcKeepsAttempts(s: State, k: Key)
    requires AttemptOk(s) && LinkOk(k, s.links[k])
    ensures AttemptOk(OnCc(s, k))
  {
    hide Sel, LinkOk, OnCc;
    CcLinks(s, k);
    var t := OnCc(s, k);
    forall j: Key | t.links[j].status == Connecting
      ensures ConnectLast(t.h.entered, j)
    {
      CcEnters(s, k, j, Everything);
    }
  }

  lemma CcConnects(s: State, k: Key)
    requires AttemptOk(s) && ConnectOk(s) && LinkOk(k, s.links[k]) && s.links[k].status == Connecting
    ensures ConnectOk(OnCc(s, k))
  {
    hide Sel, LinkOk, OnCc;
    CcLinks(s, k);
    assert ConnectLast(s.h.entered, k);
    var t := OnCc(s, k);
    forall j: Key | j !in t.h.invited
      ensures ConnectFirst(t.h.entered, j)
      ensures t.links[j].status != Disconnected ==> Sel(t.h.entered, j, Everything) != []
    {
      CcEnters(s, k, j, Everything);
    }
  }

  lemma CcKeeps(s: State, k: Key)
    requires Invariant(s) && s.links[k].status == Connecting
    ensures Invariant(OnCc(s, k))
  {
    CcConserves(s, k);
    CcKeepsMade(s, k);
    CcOrders(s, k);
    CcKeepsAttempts(s, k);
    CcConnects(s, k);
    CcKeepsSizes(s, k);
    CcKeepsLink(k, s.links[k]);
    var t := OnCc(s, k);
    hide Conserved, MadeOk, OrderOk, AttemptOk, ConnectOk, LogOk, LinkOk, SizesOk, AcceptedLink;
    assert LinksOk(t) && LogsOk(t) && TurnsOk(t);
  }

  lemma CcKeepsLink(k: Key, l: Link)
    requires LinkOk(k, l)
    ensures LinkOk(k, AcceptedLink(l)) && LogOk(k, AcceptedLink(l), FRESH_LOG)
  {
  }

  lemma CcKeepsSizes(s: State, k: Key)
    requires SizesOk(s) && LinkOk(k, s.links[k])
    ensures SizesOk(OnCc(s, k))
  {
    hide Pack, Len8;
  }

  // ----- The handlers -----

  /** `process_ptype_connect` */
  lemma ConnectKeeps(s: State, p: Pdu)
    requires Invariant(s) && p.ptype == CONNECT && Accepts(s, p)
    ensures Invariant(Handle(s, p))
  {
    hide Invariant, ConnectLast;
    var k := HostKeyOf(p);
    InitKeeps(s, k);
    InviteKeeps(InitAt(s, k), k);
    var t := InitAt(s, k);
    var u := t.(h := t.h.(invited := t.h.invited + {k}));
    LinkInvariant(u, k);
    SetLinkKeeps(u, k, u.links[k].(status := Connected));
    assert s.links[k := InitLink(s.links[k])][k := ConnectedLink(s.links[k])] == s.links[k := ConnectedLink(s.links[k])];
  }

  lemma HostOnKeeps(k: Key, l: Link, log: LinkLog, p: Pdu)
    requires Complete(p) && p.ptype != CONNECT && p.ptype != CC && LinkOk(k, l) && LogOk(k, l, log)
    ensures LinkOk(k, HostOn(l, p)) && LogOk(k, HostOn(l, p), LogOn(log, p))
    ensures HostOn(l, p).xmitQ == l.xmitQ && HostOn(l, p).status in {l.status, Disconnected}
  {
    hide Delivered, Pack, Numbered;
  }

  /** The handlers that leave all PDUs where they are. */
  lemma OthersKeep(s: State, p: Pdu)
    requires Invariant(s) && Accepts(s, p) && p.ptype != CONNECT && p.ptype != CC
    ensures Invariant(Handle(s, p))
  {
    var k := HostKeyOf(p);
    LinkInvariant(s, k);
    assert s.links[k].status == Connecting ==> ConnectLast(s.h.entered, k);
    hide Invariant, ConnectLast, LinkOk, LogOk, HostOn, LogOn;
    HostOnKeeps(k, s.links[k], s.h.logs[k], p);
    SetLogKeeps(s, k, HostOn(s.links[k], p), LogOn(s.h.logs[k], p));
  }

  lemma HandleKeeps(s: State, p: Pdu)
    requires Invariant(s) && Accepts(s, p)
    ensures Invariant(Handle(s, p))
  {
    if p.ptype == CONNECT {
      ConnectKeeps(s, p);
    } else if p.ptype == CC {
      hide Invariant;
      CcKeeps(s, HostKeyOf(p));
      assert Handle(s, p) == OnCc(s, HostKeyOf(p));
    } else {
      OthersKeep(s, p);
    }
  }

  lemma HandleFields(s: State, p: Pdu)
    requires Accepts(s, p)
    ensures Handle(s, p).h.wire == s.h.wire && Handle(s, p).h.received == s.h.received
    ensures Handle(s, p).h.overtaken == s.h.overtaken && Handle(s, p).h.created == s.h.created
  {
  }

  lemma SentIsPaidFor(s: State)
    requires Invariant(s)
    ensures |s.h.wire| + (if s.xmitNext then 1 else 0) <= s.h.received
  {
  }

  lemma ProcessKeeps(s: State, p: Pdu)
    requires Invariant(s) && Accepts(s, p)
    ensures Invariant(Process(s, p))
  {
    hide Invariant, Handle, Accepts;
    var t := Handle(s, p);
    HandleKeeps(s, p);
    HandleFields(s, p);
    SentIsPaidFor(s);
    if p.ptype != SYMM {
      SapsKeep(t, p.ssap, p.dsap);
    }
    TurnKeeps(Remember(t, p));
  }

  // ----- Runs -----

  lemma StepKeeps(s: State, e: Event)
    requires Invariant(s) && Enabled(s, e)
    ensures Invariant(Step(s, e))
  {
    hide Invariant, Process, SendConnect, SendPut, TimerFires, InitFirst;
    match e
    case Host(p) => ProcessKeeps(s, p);
    case UserConnect(k) => SendConnectKeeps(s, k);
    case UserPut(k, c) => SendPutKeeps(s, k, c);
    case Timeout => TimerKeeps(s);
    case Clearing =>
      InitFirstKeeps(s, 4096);
      SapsKeep(InitFirst(s, 4096), SAP_LM, SAP_LM);
  }

  lemma StartKeeps()
    ensures Invariant(Start())
  {
    var s := Start();
    hide Sel, Len8;
    assert Outgoing(s) == [];
    forall k: Key, kind: Kind
      ensures Sel([], k, kind) == []
    {
      SelNone([], k, kind);
    }
    forall k: Key
      ensures LinkOk(k, s.links[k]) && LogOk(k, s.links[k], s.h.logs[k])
    {
    }
    assert QueuesOk(s);
  }

  /** Every state that a run reaches satisfies all the invariants. */
  lemma {:induction false} RunKeeps(events: seq<Event>)
    ensures Run(events).Some? ==> Invariant(Run(events).value)
  {
    hide Invariant, Step, Enabled, Start;
    if events == [] {
      StartKeeps();
    } else {
      var n := |events| - 1;
      RunKeeps(events[..n]);
      if Run(events[..n]).Some? && Enabled(Run(events[..n]).value, events[n]) {
        StepKeeps(Run(events[..n]).value, events[n]);
      }
    }
  }
}
