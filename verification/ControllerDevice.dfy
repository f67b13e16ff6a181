/** The controller as the C code keeps it (`struct nfc_device`): every handler is proved to be the step of the model. */
module ControllerDevice {
  import opened Bytes
  import opened Controller

  class NfcDevice {
    var fsm: Fsm
    var rf: Rf
    var id: byte
    var activeRe: Option<ReIndex>
    var activeRf: Option<RfIndex>
    const re_ids: array<byte>
    const interfaces: array<RfInterface>

    ghost predicate Valid()
      reads this, re_ids, interfaces
    {
      re_ids.Length == ENDPOINTS && interfaces[..] == RfTable()
    }

    ghost function View(): State
      reads this, re_ids
    {
      State(fsm, rf, id, re_ids[..], activeRe, activeRf)
    }

    /** An event is enabled in the present state: no assertion fails. */
    ghost predicate Enabled(e: Event)
      reads this, re_ids, interfaces
    {
      Valid() && Step(View(), e).Some?
    }

    /** `nfc_device_init` */
    constructor ()
      ensures Valid() && View() == Init() && fresh(re_ids) && fresh(interfaces)
      ensures fsm == Idle && rf == RfIdle && id == 0 && activeRe == None && activeRf == None
      ensures re_ids[..] == [0, 0, 0, 0, 0, 0]
    {
      fsm, rf, id, activeRe, activeRf := Idle, RfIdle, 0, None, None;
      re_ids := new byte[ENDPOINTS](_ => 0);
      interfaces := new RfInterface[INTERFACES](i requires 0 <= i < INTERFACES => RfTable()[i]);
    }

    /** `nfc_get_re_by_id` */
    method GetReById(which: byte) returns (r: Option<ReIndex>)
      requires Valid() && which != 0 && which < 255
      ensures r == FindId(re_ids[..], which, 0)
    {
      for i: nat := 0 to ENDPOINTS
        invariant FindId(re_ids[..], which, 0) == FindId(re_ids[..], which, i)
      {
        if re_ids[i] == which {
          return Some(i);
        }
      }
      r := None;
    }

    /** `nfc_find_rf_by_protocol_and_mode` */
    method FindRfFor(proto: byte, mode: Mode) returns (r: Option<RfIndex>)
      requires Valid() && 1 <= proto <= 5
      ensures r == FindRf(proto, mode, 0)
    {
      var iface := InterfaceFor(proto);
      for i: nat := 0 to INTERFACES
        invariant FindRf(proto, mode, 0) == FindRf(proto, mode, i)
      {
        assert interfaces[i] == interfaces[..][i];
        if interfaces[i].iface == iface && interfaces[i].mode == Poll(mode.tech) {
          return Some(i);
        }
      }
      r := None;
    }

    /** `nfc_rf_state_transition`; a return of false is what the callers' assertions refuse. */
    method RfTransition(from: set<Rf>, to: Rf) returns (ok: bool)
      modifies this`rf
      ensures ok <==> Transition(old(View()), from, to).Some?
      ensures rf == if ok then to else old(rf)
    {
      ok := rf in from;
      if ok {
        rf := to;
      }
    }

    /** The id of an endpoint, from `nfc_device_incr_id` if it has none yet. */
    method IdentifyRe(re: ReIndex)
      requires Valid()
      modifies this`id, re_ids
      ensures Valid() && View() == Identify(old(View()), re)
    {
      if re_ids[re] == 0 {
        id := id % 254 + 1;
        re_ids[re] := id;
      }
    }

    /** `idle_process_oid_core_reset_cmd` and `init_process_oid_core_reset_cmd`, or a semantic error */
    method CoreReset(rfconfig: bool) returns (o: Outcome)
      requires Valid()
      modifies this`fsm, this`rf
      ensures Valid() && Step(old(View()), Event.CoreReset(rfconfig)) == Some(Next(View(), o))
    {
      if fsm == Reset {
        return SemanticError;
      }
      fsm := Reset;
      if rfconfig {
        rf := RfIdle;
      }
      o := Accepted;
    }

    /** `reset_process_oid_core_init_cmd`, or a semantic error */
    method CoreInit() returns (o: Outcome)
      requires Valid()
      modifies this`fsm
      ensures Valid() && Step(old(View()), Event.CoreInit) == Some(Next(View(), o))
    {
      if fsm != Reset {
        return SemanticError;
      }
      fsm := Initialized;
      o := Accepted;
    }

    /** `init_process_oid_rf_discover_cmd` */
    method RfDiscover() returns (o: Outcome)
      requires Enabled(Event.RfDiscover)
      modifies this`rf
      ensures Valid() && Step(old(View()), Event.RfDiscover) == Some(Next(View(), o))
    {
      if fsm != Initialized {
        return SemanticError;
      }
      var ok := RfTransition({RfIdle}, Discovery);
      o := Accepted;
    }

    /** `init_process_oid_rf_discover_select_cmd` */
    method RfSelect(which: byte, proto: byte) returns (o: Outcome)
      requires Enabled(Event.RfSelect(which, proto))
      modifies this
      ensures Valid() && Step(old(View()), Event.RfSelect(which, proto)) == Some(Next(View(), o))
    {
      hide FindId, FindRf, RfTable;
      if fsm != Initialized {
        return SemanticError;
      }
      if which == 0 || which == 255 {
        return Rejected;
      }
      var re := GetReById(which);
      if re.None? || EndpointAt(re.value).proto != proto {
        return Rejected;
      }
      activeRf := FindRfFor(proto, EndpointAt(re.value).mode);
      if activeRf.None? {
        return Rejected;
      }
      var ok := RfTransition({W4HostSelect}, W4HostSelect);
      activeRe := re;
      o := Accepted;
    }

    /** `init_process_oid_rf_deactivate_cmd` */
    method RfDeactivate(typ: DeactType) returns (o: Outcome)
      requires Enabled(Event.RfDeactivate(typ))
      modifies this, re_ids
      ensures Valid() && Step(old(View()), Event.RfDeactivate(typ)) == Some(Next(View(), o))
    {
      if fsm != Initialized {
        return SemanticError;
      }
      var (from, to) := Deactivation(rf, typ);
      var ok := RfTransition(from, to);
      activeRe, activeRf := None, None;
      for i := 0 to ENDPOINTS
        invariant Valid() && rf == to && fsm == old(fsm) && id == old(id) && activeRe == None && activeRf == None
        invariant forall k :: 0 <= k < i ==> re_ids[k] == 0
      {
        re_ids[i] := 0;
      }
      assert re_ids[..] == [0, 0, 0, 0, 0, 0];
      o := Accepted;
    }

    /** `process_nci_dta`, up to the endpoint that gets the data */
    method ProcessData() returns (re: Option<ReIndex>)
      requires Enabled(Data)
      modifies this`rf
      ensures Valid() && Step(old(View()), Data) == Some(Next(View(), Handled(re)))
    {
      var ok := RfTransition({PollActive, ListenActive}, rf);
      re := activeRe;
    }

    /** `nfc_create_rf_discovery_ntf` */
    method DiscoveryNtf(re: ReIndex, more: More) returns (o: Outcome)
      requires Enabled(Event.DiscoveryNtf(re, more))
      modifies this`id, this`rf, re_ids
      ensures Valid() && Step(old(View()), Event.DiscoveryNtf(re, more)) == Some(Next(View(), o))
    {
      if re_ids[re] != 0 {
        return NotSent;
      }
      IdentifyRe(re);
      o := Notified(re_ids[re]);
      if rf == Discovery {
        var ok := RfTransition({Discovery}, W4AllDiscoveries);
      } else {
        var ok := RfTransition({W4AllDiscoveries}, if more == MoreToCome then W4AllDiscoveries else W4HostSelect);
      }
    }

    /** `nfc_create_rf_intf_activated_ntf` */
    method ActivateRe(re: ReIndex)
      requires Valid() && activeRf.Some? && Activate(View(), re, activeRf.value).Some?
      modifies this`id, this`rf, this`activeRe, re_ids
      ensures Valid() && Activate(old(View()), re, old(activeRf).value) == Some(Next(View(), Notified(re_ids[re])))
    {
      IdentifyRe(re);
      var ok;
      assert interfaces[activeRf.value] == interfaces[..][activeRf.value];
      if interfaces[activeRf.value].mode.Poll? {
        ok := RfTransition({Discovery, W4HostSelect}, PollActive);
      } else {
        ok := RfTransition({Discovery, ListenSleep}, ListenActive);
      }
      if activeRe.None? {
        activeRe := Some(re);
      }
    }

    /** `nfc_rf_intf_activated_ntf_cb` */
    method ActivatedNtf(which: Option<ReIndex>, index: Option<RfIndex>) returns (o: Outcome)
      requires Enabled(Event.ActivatedNtf(which, index))
      modifies this, re_ids
      ensures Valid() && Step(old(View()), Event.ActivatedNtf(which, index)) == Some(Next(View(), o))
    {
      hide FindRf, RfTable;
      if which.None? && activeRe.None? {
        return NotSent;
      }
      var re := if which.Some? then which.value else activeRe.value;
      if activeRf.None? {
        if index.None? {
          activeRf := FindRfFor(EndpointAt(re).proto, EndpointAt(re).mode);
          if activeRf.None? {
            return NotSent;
          }
        } else {
          activeRf := index;
        }
      }
      ActivateRe(re);
      o := Notified(re_ids[re]);
    }
  }
}
