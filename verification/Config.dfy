/**
 * The configuration store of the controller: a table that gives every parameter a slot in one array of 128 bytes
 * (src/nfc-nci.c, src/nfc.c), and its refinement of a map from parameters to values.
 */
module Config {
  import opened Bytes

  const STORE_SIZE := 128

  /** Where a parameter is stored; a parameter without bytes is unknown. */
  datatype Slot = Slot(off: nat, size: nat)

  /** `config_id_value` */
  function SlotOf(id: byte): (s: Slot)
    ensures s.off + s.size < STORE_SIZE
  {
    if id == 0x00 then Slot(0, 2)
    else if id == 0x28 then Slot(2, 1)
    else if id == 0x29 then Slot(3, 20)
    else if id == 0x30 then Slot(23, 1)
    else if id == 0x31 then Slot(24, 1)
    else if id == 0x32 then Slot(25, 1)
    else if id == 0x38 then Slot(26, 1)
    else if id == 0x50 then Slot(27, 1)
    else if id == 0x51 then Slot(28, 8)
    else if id == 0x58 then Slot(36, 1)
    else if id == 0x60 then Slot(37, 1)
    else if id == 0x61 then Slot(38, 20)
    else if id == 0x80 then Slot(58, 1)
    else if id == 0xa5 then Slot(59, 1)
    else if id == 0xb7 then Slot(60, 3)
    else if id == 0xb9 then Slot(63, 33)
    else if id == 0xc5 then Slot(96, 1)
    else if id == 0xca then Slot(97, 20)
    else if id == 0xcb then Slot(117, 1)
    else Slot(0, 0)
  }

  predicate Known(id: byte)
  {
    SlotOf(id).size > 0
  }

  /** A parameter of a CORE_SET_CONFIG command. */
  datatype Field = Field(id: byte, val: seq<byte>)

  /**
   * The bytes that a field writes. For an empty value the C code takes the default, all zero, but of the length of
   * the slot's offset instead of its size.
   */
  function Written(f: Field): seq<byte>
  {
    if f.val == [] then Zeros(SlotOf(f.id).off) else f.val
  }

  /** The assertions of `nfc_nci_device_set` */
  predicate Accepted(f: Field)
  {
    Known(f.id) && |Written(f)| <= SlotOf(f.id).size
  }

  // ----- The array -----

  function WriteField(d: seq<byte>, f: Field): (r: seq<byte>)
    requires |d| == STORE_SIZE && Accepted(f)
    ensures |r| == STORE_SIZE
  {
    Splice(d, SlotOf(f.id).off, Written(f))
  }

  function WriteAll(d: seq<byte>, fs: seq<Field>): (r: seq<byte>)
    requires |d| == STORE_SIZE && forall i :: 0 <= i < |fs| ==> Accepted(fs[i])
    ensures |r| == STORE_SIZE
    decreases |fs|
  {
    if fs == [] then d else WriteAll(WriteField(d, fs[0]), fs[1..])
  }

  /** `Refused` is a failed assertion, `PastEnd` a field that is not in the packet. */
  datatype Status = AllSet | Refused | PastEnd

  /** What `n` fields of the packet from `off` on do. */
  function SetFrom(d: seq<byte>, param: seq<byte>, off: nat, n: nat): (r: (Status, seq<byte>))
    requires |d| == STORE_SIZE && off <= |param|
    ensures |r.1| == STORE_SIZE
    decreases n
  {
    if n == 0 then (AllSet, d)
    else if off + 2 > |param| || off + 2 + param[off + 1] > |param| then (PastEnd, d)
    else
      var f := Field(param[off], param[off + 2..off + 2 + param[off + 1]]);
      if Accepted(f) then SetFrom(WriteField(d, f), param, off + 2 + param[off + 1], n - 1) else (Refused, d)
  }

  class ConfigStore {
    const data: array<byte>

    ghost predicate Valid()
    {
      data.Length == STORE_SIZE
    }

    constructor ()
      ensures Valid() && fresh(data) && data.Length == 128 && data[..] == Zeros(128)
    {
      data := new byte[STORE_SIZE](_ => 0);
    }

    /** `nfc_nci_device_set`, with its assertions as the precondition */
    method Set(id: byte, value: seq<byte>)
      requires Valid() && Known(id) && |value| <= SlotOf(id).size
      modifies data
      ensures data[..] == Splice(old(data[..]), SlotOf(id).off, value)
    {
      Copy(data, SlotOf(id).off, value);
    }

    /** `nfc_nci_device_get` */
    method Get(id: byte) returns (value: seq<byte>)
      requires Valid() && Known(id)
      ensures value == Content(data[..], id)
    {
      value := data[SlotOf(id).off..SlotOf(id).off + SlotOf(id).size];
    }

    /** The loop of `init_process_oid_core_set_config_cmd`, with its 8-bit offset. */
    method SetConfig(nparams: byte, param: seq<byte>) returns (status: Status)
      requires Valid() && |param| <= 255
      modifies data
      ensures (status, data[..]) == SetFrom(old(data[..]), param, 0, nparams)
    {
      hide SlotOf, SetFrom, Written;
      var off: byte := 0;
      ghost var was := data[..];
      for i: nat := 0 to nparams
        invariant off <= |param|
        invariant SetFrom(was, param, 0, nparams) == SetFrom(data[..], param, off, nparams - i)
      {
        SetStep(data[..], param, off, nparams - i);
        if off + 2 > |param| || off + 2 + param[off + 1] > |param| {
          return PastEnd;
        }
        var f := Field(param[off], param[off + 2..off + 2 + param[off + 1]]);
        if !Accepted(f) {
          return Refused;
        }
        Set(f.id, Written(f));
        off := (off + 2 + param[off + 1]) % 256;
      }
      SetEnd(data[..], param, off);
      status := AllSet;
    }
  }

  lemma SetEnd(d: seq<byte>, param: seq<byte>, off: nat)
    requires |d| == STORE_SIZE && off <= |param|
    ensures SetFrom(d, param, off, 0) == (AllSet, d)
  {
  }

  lemma SetStep(d: seq<byte>, param: seq<byte>, off: nat, n: nat)
    requires |d| == STORE_SIZE && off <= |param| && n > 0
    ensures SetFrom(d, param, off, n) ==
      if off + 2 > |param| || off + 2 + param[off + 1] > |param| then (PastEnd, d)
      else
        var f := Field(param[off], param[off + 2..off + 2 + param[off + 1]]);
        if Accepted(f) then SetFrom(WriteField(d, f), param, off + 2 + param[off + 1], n - 1) else (Refused, d)
  {
  }

  // ----- The map -----

  /** The value of one parameter. */
  function Content(d: seq<byte>, id: byte): (v: seq<byte>)
    requires |d| == STORE_SIZE
    ensures |v| == SlotOf(id).size
  {
    d[SlotOf(id).off..SlotOf(id).off + SlotOf(id).size]
  }

  type Values = map<byte, seq<byte>>

  /** The values of all known parameters. */
  ghost function Abstract(d: seq<byte>): Values
    requires |d| == STORE_SIZE
  {
    map id: byte | Known(id) :: Content(d, id)
  }

  /**
   * A value replaces the front of the old one; a full value replaces all of it. An empty value zeroes the first three
   * bytes of parameter 0x29 and does nothing to the others.
   */
  function NewValue(was: seq<byte>, f: Field): seq<byte>
  {
    if 0 < |f.val| <= |was| then f.val + was[|f.val|..]
    else if f.val == [] && f.id == 0x29 && |was| >= 3 then [0, 0, 0] + was[3..]
    else was
  }

  ghost function Put(m: Values, f: Field): Values
    requires f.id in m
  {
    m[f.id := NewValue(m[f.id], f)]
  }

  ghost function PutAll(m: Values, fs: seq<Field>): Values
    requires forall i :: 0 <= i < |fs| ==> fs[i].id in m
    decreases |fs|
  {
    if fs == [] then m else PutAll(Put(m, fs[0]), fs[1..])
  }

  /** Slots lie one behind the other, in the order of the parameters. */
  lemma SlotsAreDisjoint(a: byte, b: byte)
    requires a < b && Known(a) && Known(b)
    ensures SlotOf(a).off + SlotOf(a).size <= SlotOf(b).off
  {
  }

  lemma OutsideSplice(d: seq<byte>, off: nat, w: seq<byte>, i: nat, j: nat)
    requires off + |w| <= |d| && i <= j <= |d| && (j <= off || off + |w| <= i)
    ensures Splice(d, off, w)[i..j] == d[i..j]
  {
    hide Splice;
  }

  lemma OtherContent(d: seq<byte>, f: Field, id: byte)
    requires |d| == STORE_SIZE && Accepted(f) && Known(id) && id != f.id
    ensures Content(WriteField(d, f), id) == Content(d, id)
  {
    if id < f.id {
      SlotsAreDisjoint(id, f.id);
    } else {
      SlotsAreDisjoint(f.id, id);
    }
    hide SlotOf;
    OutsideSplice(d, SlotOf(f.id).off, Written(f), SlotOf(id).off, SlotOf(id).off + SlotOf(id).size);
  }

  lemma OwnContent(d: seq<byte>, f: Field)
    requires |d| == STORE_SIZE && Accepted(f)
    ensures Content(WriteField(d, f), f.id) == NewValue(Content(d, f.id), f)
  {
    var s, w := SlotOf(f.id), Written(f);
    if f.val == [] {
      EmptyValueIff(f.id);
      assert w == if f.id == 0x29 then [0, 0, 0] else [];
    }
    hide SlotOf, Written;
    var t := WriteField(d, f);
    assert t[s.off..s.off + s.size] == t[s.off..s.off + |w|] + t[s.off + |w|..s.off + s.size];
    assert t[s.off + |w|..s.off + s.size] == d[s.off + |w|..s.off + s.size] == Content(d, f.id)[|w|..];
  }

  lemma WriteRefinesPut(d: seq<byte>, f: Field)
    requires |d| == STORE_SIZE && Accepted(f)
    ensures Abstract(WriteField(d, f)) == Put(Abstract(d), f)
  {
    hide SlotOf, WriteField, Content, NewValue, Written;
    forall id: byte | Known(id)
      ensures Content(WriteField(d, f), id) == if id == f.id then NewValue(Content(d, id), f) else Content(d, id)
    {
      if id == f.id {
        OwnContent(d, f);
      } else {
        OtherContent(d, f, id);
      }
    }
  }

  /** The array refines the map: writing fields in order is putting their values in order. */
  lemma {:induction false} WriteAllRefinesPutAll(d: seq<byte>, fs: seq<Field>)
    requires |d| == STORE_SIZE && forall i :: 0 <= i < |fs| ==> Accepted(fs[i])
    ensures forall i :: 0 <= i < |fs| ==> fs[i].id in Abstract(d)
    ensures Abstract(WriteAll(d, fs)) == PutAll(Abstract(d), fs)
    decreases |fs|
  {
    hide SlotOf, WriteField, Content, Put;
    if fs != [] {
      WriteRefinesPut(d, fs[0]);
      WriteAllRefinesPutAll(WriteField(d, fs[0]), fs[1..]);
    }
  }

  // ----- The command -----

  /** A field as it stands in a packet. */
  function Raw(f: Field): seq<byte>
    requires |f.val| < 256
  {
    [f.id, |f.val|] + f.val
  }

  function FieldBytes(fs: seq<Field>): seq<byte>
    requires forall i :: 0 <= i < |fs| ==> |fs[i].val| < 256
  {
    if fs == [] then [] else Raw(fs[0]) + FieldBytes(fs[1..])
  }

  lemma FieldAt(pre: seq<byte>, f: Field, rest: seq<byte>)
    requires |f.val| < 256
    ensures var (p, n) := (pre + Raw(f) + rest, |pre|);
      |p| >= n + 2 + |f.val| && p[n] == f.id && p[n + 1] == |f.val| && p[n + 2..n + 2 + |f.val|] == f.val
  {
    var p := pre + [f.id, |f.val|] + f.val + rest;
    assert p == pre + Raw(f) + rest;
    assert p[|pre| + 2..|pre| + 2 + |f.val|] == f.val;
  }

  lemma Regroup(pre: seq<byte>, raw: seq<byte>, more: seq<byte>, rest: seq<byte>)
    ensures pre + (raw + more) + rest == pre + raw + more + rest == pre + raw + (more + rest)
  {
  }

  /** A well-formed list of accepted fields is written in order. */
  lemma {:induction false} SetFromWritesAll(d: seq<byte>, fs: seq<Field>, pre: seq<byte>, rest: seq<byte>)
    requires |d| == STORE_SIZE && forall i :: 0 <= i < |fs| ==> Accepted(fs[i])
    requires forall i :: 0 <= i < |fs| ==> |fs[i].val| < 256
    ensures SetFrom(d, pre + FieldBytes(fs) + rest, |pre|, |fs|) == (AllSet, WriteAll(d, fs))
    decreases |fs|
  {
    hide SlotOf, WriteField, Accepted, Written, SetFrom;
    var param := pre + FieldBytes(fs) + rest;
    if fs == [] {
      SetEnd(d, param, |pre|);
    } else {
      SetStep(d, param, |pre|, |fs|);
      Regroup(pre, Raw(fs[0]), FieldBytes(fs[1..]), rest);
      FieldAt(pre, fs[0], FieldBytes(fs[1..]) + rest);
      SetFromWritesAll(WriteField(d, fs[0]), fs[1..], pre + Raw(fs[0]), rest);
    }
  }

  /** The values after a command are those of the map after its fields. */
  lemma SetConfigRefinesMap(d: seq<byte>, fs: seq<Field>, rest: seq<byte>)
    requires |d| == STORE_SIZE && forall i :: 0 <= i < |fs| ==> Accepted(fs[i])
    requires forall i :: 0 <= i < |fs| ==> |fs[i].val| < 256
    ensures SetFrom(d, FieldBytes(fs) + rest, 0, |fs|).0 == AllSet
    ensures forall i :: 0 <= i < |fs| ==> fs[i].id in Abstract(d)
    ensures Abstract(SetFrom(d, FieldBytes(fs) + rest, 0, |fs|).1) == PutAll(Abstract(d), fs)
  {
    hide SlotOf, WriteField, Accepted, Written, Content, Put, PutAll, SetFrom;
    assert [] + FieldBytes(fs) + rest == FieldBytes(fs) + rest;
    SetFromWritesAll(d, fs, [], rest);
    WriteAllRefinesPutAll(d, fs);
  }

  lemma {:induction false} OthersUntouched(d: seq<byte>, fs: seq<Field>, id: byte)
    requires |d| == STORE_SIZE && Known(id)
    requires forall i :: 0 <= i < |fs| ==> Accepted(fs[i]) && fs[i].id != id
    ensures Content(WriteAll(d, fs), id) == Content(d, id)
    decreases |fs|
  {
    hide SlotOf, WriteField, Content, Written;
    if fs != [] {
      OthersUntouched(WriteField(d, fs[0]), fs[1..], id);
      OtherContent(d, fs[0], id);
    }
  }

  /** The field is the last one for its parameter, among others for any parameters. */
  lemma {:induction false} LastWrite(d: seq<byte>, before: seq<Field>, f: Field, after: seq<Field>)
    requires |d| == STORE_SIZE && forall i :: 0 <= i < |before| ==> Accepted(before[i])
    requires Accepted(f) && forall i :: 0 <= i < |after| ==> Accepted(after[i]) && after[i].id != f.id
    ensures Content(WriteAll(d, before + [f] + after), f.id) == NewValue(Content(WriteAll(d, before), f.id), f)
    decreases |before|
  {
    hide SlotOf, WriteField, Content, Written, NewValue;
    var fs := before + [f] + after;
    if before == [] {
      assert fs[0] == f && fs[1..] == after;
      OthersUntouched(WriteField(d, f), after, f.id);
      OwnContent(d, f);
    } else {
      assert fs[0] == before[0] && fs[1..] == before[1..] + [f] + after;
      LastWrite(WriteField(d, before[0]), before[1..], f, after);
    }
  }

  /** The parameter's value after a command whose fields stand at the front of the packet. */
  ghost function ReadBack(d: seq<byte>, fs: seq<Field>, rest: seq<byte>, id: byte): seq<byte>
    requires |d| == STORE_SIZE && forall i :: 0 <= i < |fs| ==> |fs[i].val| < 256
  {
    Content(SetFrom(d, FieldBytes(fs) + rest, 0, |fs|).1, id)
  }

  /**
   * What is read after a command is what the packet said: a full value is the value sent last, a shorter one its
   * front, and what lies behind it is what the fields before had left.
   */
  lemma LastWriteWins(d: seq<byte>, before: seq<Field>, f: Field, after: seq<Field>, rest: seq<byte>)
    requires |d| == STORE_SIZE && forall i :: 0 <= i < |before| ==> Accepted(before[i]) && |before[i].val| < 256
    requires Accepted(f) && |f.val| < 256
    requires forall i :: 0 <= i < |after| ==> Accepted(after[i]) && after[i].id != f.id && |after[i].val| < 256
    ensures var v, was := ReadBack(d, before + [f] + after, rest, f.id), ReadBack(d, before, rest, f.id);
      && |v| == |was| == SlotOf(f.id).size
      && (|f.val| == |v| ==> v == f.val)
      && (f.val != [] ==> v[..|f.val|] == f.val && v[|f.val|..] == was[|f.val|..])
      && (f.val == [] && f.id == 0x29 ==> v[..3] == [0, 0, 0] && v[3..] == was[3..])
      && (f.val == [] && f.id != 0x29 ==> v == was)
  {
    AcceptedSize(f);
    hide SlotOf, WriteField, Content, Written, Accepted, SetFrom;
    var fs := before + [f] + after;
    assert [] + FieldBytes(fs) + rest == FieldBytes(fs) + rest;
    assert [] + FieldBytes(before) + rest == FieldBytes(before) + rest;
    SetFromWritesAll(d, fs, [], rest);
    SetFromWritesAll(d, before, [], rest);
    LastWrite(d, before, f, after);
  }

  lemma AcceptedSize(f: Field)
    requires Accepted(f)
    ensures |f.val| <= SlotOf(f.id).size && SlotOf(f.id).size > 0 && (f.id == 0x29 ==> SlotOf(f.id).size >= 3)
  {
  }

  /** A field is accepted exactly if its parameter has a slot that holds the value, and two parameters take no value. */
  lemma AcceptedIff(f: Field)
    ensures Accepted(f) <==> |f.val| <= SlotOf(f.id).size && (if f.val == [] then f.id in {0x00, 0x29} else Known(f.id))
  {
    EmptyValueIff(f.id);
  }

  /** At the first field that is not accepted the command stops; the fields before it are stored, those behind it not. */
  lemma {:induction false} StopsAtRefusal(d: seq<byte>, fs: seq<Field>, bad: Field, pre: seq<byte>, rest: seq<byte>, n: nat)
    requires |d| == STORE_SIZE && forall i :: 0 <= i < |fs| ==> Accepted(fs[i]) && |fs[i].val| < 256
    requires !Accepted(bad) && |bad.val| < 256 && n > |fs|
    ensures SetFrom(d, pre + FieldBytes(fs) + (Raw(bad) + rest), |pre|, n) == (Refused, WriteAll(d, fs))
    decreases |fs|
  {
    hide SlotOf, WriteField, Accepted, Written, SetFrom;
    var more := Raw(bad) + rest;
    var param := pre + FieldBytes(fs) + more;
    SetStep(d, param, |pre|, n);
    if fs == [] {
      Regroup(pre, [], Raw(bad), rest);
      assert param == pre + Raw(bad) + rest;
      FieldAt(pre, bad, rest);
    } else {
      Regroup(pre, Raw(fs[0]), FieldBytes(fs[1..]), more);
      FieldAt(pre, fs[0], FieldBytes(fs[1..]) + more);
      StopsAtRefusal(WriteField(d, fs[0]), fs[1..], bad, pre + Raw(fs[0]), rest, n - 1);
    }
  }

  /** A command that says more fields than the packet holds ends where the packet does. */
  lemma {:induction false} StopsAtEnd(d: seq<byte>, fs: seq<Field>, pre: seq<byte>, rest: seq<byte>, n: nat)
    requires |d| == STORE_SIZE && forall i :: 0 <= i < |fs| ==> Accepted(fs[i]) && |fs[i].val| < 256
    requires n > |fs| && (|rest| < 2 || |rest| < 2 + rest[1] as int)
    ensures SetFrom(d, pre + FieldBytes(fs) + rest, |pre|, n) == (PastEnd, WriteAll(d, fs))
    decreases |fs|
  {
    hide SlotOf, WriteField, Accepted, Written, SetFrom;
    var param := pre + FieldBytes(fs) + rest;
    SetStep(d, param, |pre|, n);
    if fs == [] {
      assert param == pre + rest;
    } else {
      Regroup(pre, Raw(fs[0]), FieldBytes(fs[1..]), rest);
      FieldAt(pre, fs[0], FieldBytes(fs[1..]) + rest);
      StopsAtEnd(WriteField(d, fs[0]), fs[1..], pre + Raw(fs[0]), rest, n - 1);
    }
  }

  /** The slots fill the first 118 bytes without a gap. */
  lemma SlotsArePacked(n: nat) returns (id: byte)
    requires n < 118
    ensures SlotOf(id).off <= n < SlotOf(id).off + SlotOf(id).size
  {
    id := if n < 2 then 0x00 else if n < 3 then 0x28 else if n < 23 then 0x29 else if n < 24 then 0x30
          else if n < 25 then 0x31 else if n < 26 then 0x32 else if n < 27 then 0x38 else if n < 28 then 0x50
          else if n < 36 then 0x51 else if n < 37 then 0x58 else if n < 38 then 0x60 else if n < 58 then 0x61
          else if n < 59 then 0x80 else if n < 60 then 0xa5 else if n < 63 then 0xb7 else if n < 96 then 0xb9
          else if n < 97 then 0xc5 else if n < 117 then 0xca else 0xcb;
  }

  /** An empty value is accepted for two parameters only, and resets neither of them. */
  lemma EmptyValueIff(id: byte)
    ensures Accepted(Field(id, [])) <==> id == 0x00 || id == 0x29
    ensures Accepted(Field(id, [])) ==> |Written(Field(id, []))| < SlotOf(id).size
  {
  }
}
