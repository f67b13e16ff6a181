/** The remote endpoint as the C code keeps it (src/nfc-re.c): every method is proved to be the step of the model. */
module EndpointDevice {
  import opened Bytes
  import opened Llcp
  import opened Endpoint
  import opened EndpointProofs
  import opened EndpointRuns
  import opened EndpointMeaning
  import opened NdefWalk

  lemma NumbersAfter(l: Link, p: Pdu)
    requires p.ptype == I && Complete(p)
    ensures ReceivedOn(l, p).vs == l.vs && ReceivedOn(l, p).vr == (l.vr + 1) % 16
  {
  }

  /** On a link that is connecting the PDU waits. */
  lemma PutOnConnecting(s: State, k: Key, c: Creation)
    requires s.links[k].status == Connecting
    ensures SendPut(s, k, c) == PendInfo(s, k, c)
  {
    hide InfoPdu, CountLog;
  }

  /** Making the PDU and then putting it into the queue of its link. */
  lemma PendInSteps(s: State, k: Key, c: Creation)
    ensures var l := s.links[k];
      var t := SetLog(s, k, CountLink(l, c), CountLog(l, k, s.h.logs[k], c));
      var p := InfoPdu(l, k, c);
      Created(SetLink(t, k, t.links[k].(xmitQ := t.links[k].xmitQ + [p])), p) == PendInfo(s, k, c)
  {
    hide InfoPdu, CountLog;
    var l := s.links[k];
    var m := CountLink(l, c).(xmitQ := l.xmitQ + [InfoPdu(l, k, c)]);
    assert s.links[k := CountLink(l, c)][k := m] == s.links[k := m];
  }

  /** `sizeof(struct llcp_pdu)` */
  const HEADER_LEN: byte := 2

  class RemoteEndpoint {
    const links: array2<Link>
    var lastDsap: Sap
    var lastSsap: Sap
    var xmitNext: bool
    var timerMade: bool
    var timerPending: bool
    var xmitQ: seq<Pdu>
    var sent: seq<Pdu>
    ghost var now: State

    /** Every field agrees with the state `now` of the model; `sent` is what `cb.send_dta` was given. */
    ghost predicate Valid()
      reads this, links
    {
      && links.Length0 == 64 && links.Length1 == 64 && (timerPending ==> timerMade)
      && (forall d: Sap, s: Sap :: links[d, s] == now.links[(d, s)])
      && lastDsap == now.lastDsap && lastSsap == now.lastSsap
      && xmitNext == now.xmitNext && timerPending == now.timer && xmitQ == now.xmitQ
      && sent == now.h.wire
    }

    constructor ()
      ensures Valid() && fresh(links) && now == Start()
    {
      links := new Link[64, 64]((i, j) => FRESH_LINK);
      lastDsap, lastSsap, xmitNext, timerMade, timerPending, xmitQ, sent := SAP_LM, SAP_LM, false, false, false, [], [];
      now := Start();
    }

    /** Writes one entry of the table. */
    method Put(k: Key, l: Link)
      requires Valid()
      modifies this`now, links
      ensures Valid() && now == SetLink(old(now), k, l)
    {
      links[k.0, k.1] := l;
      now := SetLink(now, k, l);
    }

    /** `llcp_init_data_link` */
    method InitDataLink(k: Key)
      requires Valid()
      modifies this`now, links
      ensures Valid() && now == InitAt(old(now), k)
    {
      ghost var t := InitAt(now, k);
      Put(k, InitLink(links[k.0, k.1]));
      now := t;
    }

    /** `nfc_clear_re` */
    method ClearRe()
      requires Valid()
      modifies this, links
      ensures Valid() && now == Clear(old(now))
    {
      hide InitAt, KeyAt;
      ghost var s := now;
      for d: int := 0 to 64
        invariant Valid() && now == InitFirst(s, d * 64)
      {
        for l: int := 0 to 64
          invariant Valid() && now == InitFirst(s, d * 64 + l)
        {
          KeyAtIndex((d, l));
          InitDataLink((d, l));
        }
      }
      lastDsap, lastSsap := SAP_LM, SAP_LM;
      now := Clear(s);
    }

    // ----- Sending -----

    /**
     * `send_pdu_from_re`, for the PDU that the creator made. A packet without payload, when the length reads 0, is not
     * recorded in `sent`.
     */
    method SendPdu(p: Pdu)
      requires Valid()
      modifies this
      ensures Valid() && now == Emit(old(now), p)
    {
      hide Pack;
      now := Emit(now, p);
      if xmitNext {
        var l := |Pack(p)| % 256;
        if l != 0 {
          sent := sent + [p];
        }
        xmitNext := false;
        if timerMade {
          timerPending := false;
        }
      } else {
        xmitQ := xmitQ + [p];
      }
    }

    /** `create_connect_dta`; its assertion is the precondition. */
    method CreateConnect(k: Key) returns (p: Pdu)
      requires Valid() && links[k.0, k.1].status == Disconnected
      modifies this`now, links
      ensures Valid() && p == ConnectPdu(k) && now == SetStatus(old(now), k, Connecting)
    {
      Put(k, links[k.0, k.1].(status := Connecting));
      p := Pdu(k.0, CONNECT, k.1, []);
    }

    /** `nfc_re_send_llcp_connect` */
    method SendLlcpConnect(k: Key)
      requires Valid() && links[k.0, k.1].status == Disconnected
      modifies this, links
      ensures Valid() && now == SendConnect(old(now), k) && Connects(old(now), k, now)
    {
      ConnectMeans(now, k);
      hide Connects;
      var p := CreateConnect(k);
      SendPdu(p);
    }

    /** `create_i_pdu`, given what the creator of the message leaves. */
    method CreateInfo(k: Key, c: Creation) returns (p: Pdu)
      requires Valid()
      modifies this`now, links
      ensures Valid() && p == InfoPdu(old(now).links[k], k, c)
      ensures now == SetLog(old(now), k, CountLink(old(now).links[k], c), CountLog(old(now).links[k], k, old(now).h.logs[k], c))
    {
      var l := links[k.0, k.1];
      ghost var t := SetLog(now, k, CountLink(now.links[k], c), CountLog(now.links[k], k, now.h.logs[k], c));
      var header := [SeqByte(l.vs, l.vr)];
      if c.Failed? {
        p := Pdu(k.0, I, k.1, header + c.junk);
      } else {
        Put(k, l.(vs := (l.vs + 1) % 16));
        p := Pdu(k.0, I, k.1, header + c.bytes);
      }
      now := t;
    }

    /** The PDU goes to the end of its link's queue. */
    method Enqueue(k: Key, p: Pdu)
      requires Valid()
      modifies this`now, links
      ensures Valid()
      ensures now == Created(SetLink(old(now), k, old(now).links[k].(xmitQ := old(now).links[k].xmitQ + [p])), p)
    {
      Put(k, links[k.0, k.1].(xmitQ := links[k.0, k.1].xmitQ + [p]));
      now := Created(now, p);
    }

    /** The PDU is made and waits on its link. */
    method PendPut(k: Key, c: Creation)
      requires Valid()
      modifies this`now, links
      ensures Valid() && now == PendInfo(old(now), k, c)
    {
      hide InfoPdu, CountLink, CountLog, PendInfo;
      PendInSteps(now, k, c);
      var p := CreateInfo(k, c);
      Enqueue(k, p);
    }

    /** `nfc_re_send_snep_put` over LLCP */
    method SendSnepPut(k: Key, c: Creation)
      requires Valid() && Enabled(now, UserPut(k, c))
      modifies this, links
      ensures Valid() && now == Step(old(now), UserPut(k, c)) && Puts(old(now), k, c, now)
    {
      PutMeans(now, k, c);
      hide InfoPdu, CountLog, Emit, PendInfo, SendConnect, Puts, Connects;
      var status := links[k.0, k.1].status;
      if status == Disconnected {
        PutOnDisconnected(now, k, c);
        PendFields(now, k, c);
        PendPut(k, c);
        SendLlcpConnect(k);
      } else if status == Connecting {
        PutOnConnecting(now, k, c);
        PendPut(k, c);
      } else if status == Connected {
        var p := CreateInfo(k, c);
        SendPdu(p);
      }
    }

    /** `fetch_pdu_from_re` and `xmit_pdu_or_symm_from_re`, when the timer fires: a queued PDU is gone in any case. */
    method XmitNext() returns (p: Pdu)
      requires Valid() && Enabled(now, Timeout)
      modifies this
      ensures Valid() && now == Step(old(now), Timeout)
      ensures sent == old(sent) + [p] && (SizesOk(old(now)) ==> Fired(old(now), now))
    {
      if SizesOk(now) {
        TimerMeans(now);
      }
      hide Pack, Fired, SizesOk;
      timerPending := false;
      var len := 0;
      if xmitQ != [] {
        p := xmitQ[0];
        len := |Pack(p)| % 256;
        xmitQ := xmitQ[1..];
      }
      if len == 0 {
        p := SYMM_PDU;
      }
      sent := sent + [p];
      xmitNext := false;
      now := TimerFires(now);
    }

    // ----- Receiving -----

    /** `process_ptype_connect` */
    method ProcessConnect(p: Pdu)
      requires Valid() && p.ptype == CONNECT
      modifies this`now, links
      ensures Valid() && now == Handle(old(now), p)
    {
      ghost var t := Handle(now, p);
      var k := HostKeyOf(p);
      InitDataLink(k);
      Put(k, links[k.0, k.1].(status := Connected));
      now := t;
    }

    /** The first pending PDU of a link moves to the end of the endpoint's queue. */
    method MoveFirst(k: Key)
      requires Valid() && links[k.0, k.1].xmitQ != []
      modifies this`now, this`xmitQ, links
      ensures Valid()
      ensures now == SetLink(old(now), k, old(now).links[k].(xmitQ := old(now).links[k].xmitQ[1..]))
                       .(xmitQ := old(now).xmitQ + [old(now).links[k].xmitQ[0]])
    {
      var l := links[k.0, k.1];
      var p := l.xmitQ[0];
      Put(k, l.(xmitQ := l.xmitQ[1..]));
      xmitQ := xmitQ + [p];
      now := now.(xmitQ := xmitQ);
    }

    /** The pending PDUs of a link move one by one to the endpoint's queue. */
    method MovePending(k: Key)
      requires Valid()
      modifies this`now, this`xmitQ, links
      ensures Valid()
      ensures now == SetLink(old(now), k, old(now).links[k].(xmitQ := []))
                       .(xmitQ := old(now).xmitQ + old(now).links[k].xmitQ)
    {
      ghost var s := now;
      while links[k.0, k.1].xmitQ != []
        invariant Valid() && xmitQ + links[k.0, k.1].xmitQ == s.xmitQ + s.links[k].xmitQ
        invariant now == SetLink(s, k, s.links[k].(xmitQ := links[k.0, k.1].xmitQ)).(xmitQ := xmitQ)
        decreases |links[k.0, k.1].xmitQ|
      {
        MoveFirst(k);
      }
    }

    /** `process_ptype_cc`; its assertion is the precondition. */
    method ProcessCc(p: Pdu)
      requires Valid() && p.ptype == CC && links[p.ssap, p.dsap].status == Connecting
      modifies this`now, this`xmitQ, links
      ensures Valid() && now == Handle(old(now), p)
    {
      ghost var t := Handle(now, p);
      var k := HostKeyOf(p);
      Put(k, ClearLink(links[k.0, k.1]));
      Put(k, links[k.0, k.1].(status := Connected));
      MovePending(k);
      now := t;
    }

    /** The link after an I PDU, and the code of the response if there is one. */
    method Deliver(l: Link, p: Pdu) returns (m: Link, code: Option<byte>)
      requires p.ptype == I && Complete(p)
      ensures m == ReceivedOn(l, p) && code == Delivered(p).reply
    {
      hide SapSnep, StoreInLink;
      m := l.(vr := (l.vr + 1) % 16);
      var info := p.info[1..];
      code := None;
      if p.dsap == SAP_SNEP {
        var handling := SapSnep(info);
        assert handling == Delivered(p);
        if handling.stored.Some? {
          m := StoreInLink(m, handling.stored.value);
        }
        code := handling.reply;
      } else {
        m := StoreInLink(m, info);
      }
    }

    /** `process_ptype_i`; the response goes into the packet `rsp`, behind its place. */
    method ProcessInfo(p: Pdu, rsp: array<byte>) returns (len: nat)
      requires Valid() && p.ptype == I && Accepts(now, p) && rsp.Length == PDU_SIZE
      modifies this`now, links, rsp
      ensures Valid() && now == Handle(old(now), p)
      ensures Answered(ReplyTo(old(now), p, old(rsp[..])), len, rsp[..])
    {
      ghost var t := Handle(now, p);
      assert rsp[..][INFO_HEADER..RESPONSE_AT] == rsp[INFO_HEADER..RESPONSE_AT];
      var k := HostKeyOf(p);
      var l, code := Deliver(links[k.0, k.1], p);
      NumbersAfter(links[k.0, k.1], p);
      hide Delivered, StoreInLink, Pack, ReceivedOn;
      len := 0;
      if code.Some? {
        len := Respond(rsp, Pdu(p.ssap, I, p.dsap, [SeqByte(l.vs, l.vr)]), code.value);
      }
      Put(k, l);
      now := t;
    }

    /** `snep_create_msg` for a response, at `info + 6`, and then `llcp_create_pdu_i` around it. */
    method Respond(rsp: array<byte>, header: Pdu, code: byte) returns (len: nat)
      requires rsp.Length == PDU_SIZE && |header.info| == 1
      modifies rsp
      ensures Answered(Reply(header.(info := header.info + old(rsp[INFO_HEADER..RESPONSE_AT]) + [VERSION])), len, rsp[..])
      ensures rsp[8..14] == [0x10, code, 0, 0, 0, 0]
    {
      ghost var was := rsp[..];
      Copy(rsp, RESPONSE_AT, [VERSION, code] + Be32(0));
      assert rsp[RESPONSE_AT] == rsp[RESPONSE_AT..RESPONSE_AT + 6][0] == VERSION;
      assert rsp[INFO_HEADER..RESPONSE_AT] == was[INFO_HEADER..RESPONSE_AT];
      assert rsp[8..14] == [0x10, code, 0, 0, 0, 0];
      len := WriteReply(rsp, header);
      len := len + SNEP_HEADER;
      assert rsp[..len] == rsp[..INFO_HEADER] + rsp[INFO_HEADER..RESPONSE_AT] + [rsp[RESPONSE_AT]];
    }

    /** `llcp_create_pdu`, with the fixed fields of the PDU. */
    method WriteReply(rsp: array<byte>, p: Pdu) returns (len: nat)
      requires |Pack(p)| <= rsp.Length
      modifies rsp
      ensures Answered(Reply(p), len, rsp[..]) && len == |Pack(p)|
      ensures forall i :: len <= i < rsp.Length ==> rsp[i] == old(rsp[i])
    {
      Copy(rsp, 0, Pack(p));
      len := |Pack(p)|;
      assert rsp[0..0 + len] == rsp[..len];
      assert forall i :: 0 <= i < rsp.Length ==> rsp[i] == rsp[..][i];
    }

    /** The handlers that only write to their link. */
    method WriteLink(p: Pdu, l: Link)
      requires Valid() && Accepts(now, p) && p.ptype !in {CONNECT, CC} && l == HostOn(links[p.ssap, p.dsap], p)
      modifies this`now, links
      ensures Valid() && now == Handle(old(now), p)
    {
      hide HostOn;
      ghost var t := Handle(now, p);
      Put(HostKeyOf(p), l);
      now := t;
    }

    /** The handlers, by PDU type. */
    method Dispatch(p: Pdu, rsp: array<byte>) returns (len: nat)
      requires Valid() && Accepts(now, p) && rsp.Length == PDU_SIZE
      modifies this`now, this`xmitQ, links, rsp
      ensures Valid() && now == Handle(old(now), p)
      ensures Answered(ReplyTo(old(now), p, old(rsp[..])), len, rsp[..])
    {
      hide Pack, Delivered, ReceivedOn, Handle;
      var l := links[p.ssap, p.dsap];
      len := 0;
      if p.ptype == CONNECT {
        ProcessConnect(p);
        len := WriteReply(rsp, Pdu(p.ssap, CC, p.dsap, []));
      } else if p.ptype == DISC {
        WriteLink(p, l.(status := Disconnected));
        len := WriteReply(rsp, Pdu(p.ssap, DM, p.dsap, [0]));
      } else if p.ptype == CC {
        ProcessCc(p);
      } else if p.ptype == DM {
        WriteLink(p, l.(status := Disconnected));
      } else if p.ptype == I {
        len := ProcessInfo(p, rsp);
      } else if p.ptype == RR || p.ptype == RNR {
        WriteLink(p, l.(vsa := p.info[0] % 16));
      } else {
        WriteLink(p, l);
      }
    }

    /** How many bytes of a PDU its handler takes. */
    method BytesTaken(p: Pdu) returns (consumed: byte)
      requires Complete(p)
      ensures consumed == Consumed(p)
    {
      consumed := HEADER_LEN;
      if p.ptype == FRMR {
        consumed := consumed + 4;
      } else if p.ptype != SYMM && p.ptype != CONNECT && p.ptype != DISC {
        consumed := consumed + 1;
      }
    }

    /** `update_last_saps`, and the end of `process_llcp`: it is our turn, and the timer runs. */
    method TakeTurn(p: Pdu, ghost s: State)
      requires Valid() && Accepts(s, p) && now == Handle(s, p)
      modifies this
      ensures Valid() && now == Process(s, p) && xmitNext && timerPending
    {
      hide Handle, Accepts;
      ghost var t := Process(s, p);
      if p.ptype != SYMM {
        lastDsap, lastSsap := p.ssap, p.dsap;
      }
      xmitNext := true;
      PrepareTimeout();
      now := t;
    }

    /**
     * `process_llcp`; a PDU without a handler, or that a handler's assertion refuses, is not enabled. The host sends
     * PDUs of at most 255 bytes.
     */
    method ProcessLlcp(p: Pdu, rsp: array<byte>) returns (len: nat, consumed: byte)
      requires Valid() && Enabled(now, Host(p)) && rsp.Length == PDU_SIZE
      modifies this, links, rsp
      ensures Valid() && now == Step(old(now), Host(p))
      ensures consumed == Consumed(p) == if p.ptype in {0, 4, 5} then 2 else if p.ptype == 8 then 6 else 3
      ensures Answered(ReplyTo(old(now), p, old(rsp[..])), len, rsp[..])
      ensures |p.info| < 0x1_0000 ==>
        && Answers(p, old(links[p.ssap, p.dsap]), len, rsp[..])
        && Handled(p, old(links[p.ssap, p.dsap]), links[p.ssap, p.dsap])
        && Processed(old(now), p, now)
      ensures xmitNext && timerPending
    {
      ghost var s, was := now, rsp[..];
      assert Complete(p);
      hide Handle, Accepts, ReplyTo, Answered, Answers, Handled, Process, Complete;
      len := Dispatch(p, rsp);
      consumed := BytesTaken(p);
      TakeTurn(p, s);
      AllMeans(s, p, was, len, rsp[..]);
    }

    /** `nfc_re_recv_snep_put` over LLCP, with the record walker; its assertion is the precondition. */
    method RecvSnepPut(k: Key) returns (r: WalkResult)
      requires Valid() && links[k.0, k.1].status == Connected
      ensures r == Walk(now.links[k].rbuf, 0, now.links[k].rlen)
    {
      r := WalkRecords(links[k.0, k.1].rbuf, links[k.0, k.1].rlen);
    }

    /** `prepare_xmit_timeout` */
    method PrepareTimeout()
      requires timerPending ==> timerMade
      modifies this`timerMade, this`timerPending
      ensures timerPending && timerMade
    {
      if !timerMade {
        timerMade := true;
      }
      if !timerPending {
        timerPending := true;
      }
    }
  }
}
