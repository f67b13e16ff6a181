/** Memory and commands of type 1 and type 2 tags (src/nfc-tag.c). */
module TagT1tT2t {
  import opened Bytes

  const NDEF_TLV: byte := 0x03
  const TERMINATOR_TLV: byte := 0xFE

  /** `Refused` is a failed assertion, `Overrun` a message that passes it and does not fit the data area. */
  datatype SetResult = Stored | Refused | Overrun

  /** What a reader makes of the data area: the value of the NDEF TLV at its start. */
  function Message(data: seq<byte>): Option<seq<byte>>
  {
    if |data| < 2 || data[0] != NDEF_TLV || |data| < 2 + data[1] as int then None else Some(data[2..2 + data[1] as int])
  }

  /** The message with its framing, and zeros up to `n` bytes. */
  function Framed(msg: seq<byte>, n: nat): (s: seq<byte>)
    requires |msg| + 3 <= n && |msg| < 256
    ensures |s| == n
  {
    [NDEF_TLV, |msg|] + msg + [TERMINATOR_TLV] + Zeros(n - |msg| - 3)
  }

  lemma FramedMessage(msg: seq<byte>, n: nat)
    requires |msg| + 3 <= n && |msg| < 256
    ensures Message(Framed(msg, n)) == Some(msg)
  {
    var s := Framed(msg, n);
    assert s[1] == |msg| && s[2..2 + |msg|] == msg;
  }

  /** Writes message, framing and zeros from `off` to `end`, with a moving offset. */
  method WriteFramed(mem: array<byte>, off: nat, end: nat, msg: seq<byte>)
    requires off + |msg| + 3 <= end <= mem.Length && |msg| < 256
    modifies mem
    ensures mem[..] == Splice(old(mem[..]), off, Framed(msg, end - off))
  {
    ghost var was := mem[..];
    var offset := off;
    mem[offset], mem[offset + 1] := NDEF_TLV, |msg|;
    assert Holds(mem[..], off, [NDEF_TLV, |msg|]);
    offset := offset + 2;
    Append(mem, off, [NDEF_TLV, |msg|], msg);
    offset := offset + |msg|;
    Append(mem, off, [NDEF_TLV, |msg|] + msg, [TERMINATOR_TLV]);
    offset := offset + 1;
    Append(mem, off, [NDEF_TLV, |msg|] + msg + [TERMINATOR_TLV], Zeros(end - offset));
    SpliceHeld(was, mem[..], off, Framed(msg, end - off));
  }

  /** Writes `s` behind what is already written. */
  method Append(mem: array<byte>, off: nat, done: seq<byte>, s: seq<byte>)
    requires off + |done| + |s| <= mem.Length && Holds(mem[..], off, done)
    modifies mem
    ensures Holds(mem[..], off, done + s)
    ensures forall i :: 0 <= i < mem.Length && !(off + |done| <= i < off + |done| + |s|) ==> mem[i] == old(mem[i])
  {
    ghost var was := mem[..];
    Copy(mem, off + |done|, s);
    assert forall i :: 0 <= i < mem.Length ==> mem[i] == mem[..][i];
    HoldsKept(was, mem[..], off, done);
    HoldsConcat(mem[..], off, done, s);
  }

  // ----- Type 1 -----

  const T1T_SIZE := 120
  const T1T_DATA := 8
  const T1T_DATA_SIZE := 96
  const T1T_CC: seq<byte> := [0xE1, 0x10, 0x0E, 0x00]
  const T1T_HR: seq<byte> := [0x11, 0x00]

  /** The longest message that fits with capability container, length and terminator. */
  const T1T_MAX := 89

  /** `set_t1t_data` */
  method SetT1t(mem: array<byte>, msg: seq<byte>) returns (r: SetResult)
    requires mem.Length == T1T_SIZE
    modifies mem
    ensures r == if |msg| >= 96 then Refused else if |msg| > 89 then Overrun else Stored
    ensures r == Stored ==> mem[..] == T1tWith(old(mem[..]), msg)
  {
    if |msg| >= T1T_DATA_SIZE {
      return Refused;
    } else if |msg| > T1T_MAX {
      return Overrun;
    }
    Copy(mem, T1T_DATA, T1T_CC);
    WriteFramed(mem, T1T_DATA + |T1T_CC|, T1T_DATA + T1T_DATA_SIZE, msg);
    r := Stored;
  }

  /** The memory after a message is set: uid and reserved bytes stay. */
  function T1tWith(mem: seq<byte>, msg: seq<byte>): (m: seq<byte>)
    requires |mem| == T1T_SIZE && |msg| <= T1T_MAX
    ensures |m| == T1T_SIZE
  {
    Splice(Splice(mem, T1T_DATA, T1T_CC), T1T_DATA + |T1T_CC|, Framed(msg, T1T_DATA_SIZE - |T1T_CC|))
  }

  /** `process_t1t_rall` */
  method Rall(mem: array<byte>) returns (payload: seq<byte>, status: byte)
    requires mem.Length == T1T_SIZE
    ensures payload == T1T_HR + mem[..] && status == 0
    ensures payload[..2] == [0x11, 0x00] && payload[2..] == mem[..]
  {
    var rsp := new byte[2 + T1T_SIZE];
    rsp[0], rsp[1] := T1T_HR[0], T1T_HR[1];
    for i := 0 to T1T_SIZE
      invariant rsp[..2] == T1T_HR && rsp[2..2 + i] == mem[..i]
    {
      rsp[2 + i] := mem[i];
      assert rsp[2..2 + i + 1] == rsp[2..2 + i] + [mem[i]];
    }
    assert rsp[..] == rsp[..2] + rsp[2..2 + T1T_SIZE];
    payload, status := rsp[..], 0;
  }

  /** Whatever was in memory: after a message is set, reading all memory and stripping the framing gives it back. */
  lemma T1tReadBack(mem: seq<byte>, msg: seq<byte>)
    requires |mem| == T1T_SIZE && |msg| <= T1T_MAX
    ensures var payload := T1T_HR + T1tWith(mem, msg);
      && Message(payload[2 + T1T_DATA + |T1T_CC|..2 + T1T_DATA + T1T_DATA_SIZE]) == Some(msg)
      && payload[2 + T1T_DATA..][..|T1T_CC|] == T1T_CC
      && payload[2..][..T1T_DATA] == mem[..T1T_DATA]
  {
    var m := T1tWith(mem, msg);
    FramedMessage(msg, T1T_DATA_SIZE - |T1T_CC|);
    assert (T1T_HR + m)[2..] == m;
    assert m[T1T_DATA + |T1T_CC|..T1T_DATA + T1T_DATA_SIZE] == Framed(msg, T1T_DATA_SIZE - |T1T_CC|);
    assert (T1T_HR + m)[2 + T1T_DATA + |T1T_CC|..2 + T1T_DATA + T1T_DATA_SIZE]
        == m[T1T_DATA + |T1T_CC|..T1T_DATA + T1T_DATA_SIZE];
  }

  /**
   * Byte by byte: the capability container E1 10 0E 00 at 8, then TLV 03 with length and message, terminator FE, and
   * zeros up to the reserved bytes at 104.
   */
  lemma T1tLayout(mem: seq<byte>, msg: seq<byte>)
    requires |mem| == T1T_SIZE && |msg| <= T1T_MAX
    ensures var m, n := T1tWith(mem, msg), 14 + |msg|;
      && m[..8] == mem[..8] && m[8..12] == [0xE1, 0x10, 0x0E, 0x00] && m[12] == 0x03 && m[13] == |msg|
      && m[14..n] == msg && m[n] == 0xFE && (forall i :: n < i < 104 ==> m[i] == 0) && m[104..] == mem[104..]
  {
    var f := Framed(msg, 92);
    var m := T1tWith(mem, msg);
    assert m[12..104] == f;
    assert forall i :: 0 <= i < 92 ==> m[12 + i] == f[i];
  }

  // ----- Type 2 -----

  const T2T_SIZE := 64
  const T2T_DATA := 16
  const T2T_DATA_SIZE := 48
  const T2T_MAX := 45
  const T2T_READ := 16

  /** `set_t2t_data` */
  method SetT2t(mem: array<byte>, msg: seq<byte>) returns (r: SetResult)
    requires mem.Length == T2T_SIZE
    modifies mem
    ensures r == if |msg| >= 48 then Refused else if |msg| > 45 then Overrun else Stored
    ensures r == Stored ==> mem[..] == T2tWith(old(mem[..]), msg)
  {
    if |msg| >= T2T_DATA_SIZE {
      return Refused;
    } else if |msg| > T2T_MAX {
      return Overrun;
    }
    WriteFramed(mem, T2T_DATA, T2T_DATA + T2T_DATA_SIZE, msg);
    r := Stored;
  }

  function T2tWith(mem: seq<byte>, msg: seq<byte>): (m: seq<byte>)
    requires |mem| == T2T_SIZE && |msg| <= T2T_MAX
    ensures |m| == T2T_SIZE
  {
    Splice(mem, T2T_DATA, Framed(msg, T2T_DATA_SIZE))
  }

  /** What a read at block `bno` finds: 16 bytes, or fewer at the end of memory. */
  function BlockRead(mem: seq<byte>, bno: byte): (s: seq<byte>)
    requires |mem| == T2T_SIZE
    ensures |s| <= T2T_READ
  {
    if bno * 4 >= T2T_SIZE then [] else if bno * 4 + T2T_READ >= T2T_SIZE then mem[bno * 4..] else mem[bno * 4..][..T2T_READ]
  }

  /** `process_t2t_read`; behind the end of memory the response keeps what it held. */
  method ReadBlock(mem: array<byte>, bno: byte, payload: array<byte>) returns (status: byte)
    requires mem.Length == T2T_SIZE && payload.Length == T2T_READ && mem != payload
    modifies payload
    ensures var s := BlockRead(mem[..], bno); payload[..] == s + old(payload[..])[|s|..]
    ensures status == 0
  {
    ghost var was := payload[..];
    var offset: nat := bno as int * 4;
    var i := 0;
    while i < T2T_READ && offset < T2T_SIZE
      invariant i <= T2T_READ && offset == bno as int * 4 + i && (i > 0 ==> offset <= T2T_SIZE)
      invariant payload[i..] == was[i..] && forall k :: 0 <= k < i ==> payload[k] == mem[bno as int * 4 + k]
    {
      payload[i] := mem[offset];
      i, offset := i + 1, offset + 1;
    }
    assert |BlockRead(mem[..], bno)| == i;
    assert payload[..] == payload[..i] + payload[i..];
    status := 0;
  }

  /** A read begins at the block, of four bytes, and ends after 16 bytes or with the memory of 64 bytes. */
  lemma BlockReadIs(mem: seq<byte>, bno: byte)
    requires |mem| == T2T_SIZE
    ensures bno <= 12 ==> BlockRead(mem, bno) == mem[4 * bno as int..4 * bno as int + 16]
    ensures 12 < bno < 16 ==> BlockRead(mem, bno) == mem[4 * bno as int..64]
    ensures bno >= 16 ==> BlockRead(mem, bno) == []
  {
  }

  /** Four reads, each of 16 bytes, give the whole memory. */
  lemma FourReads(mem: seq<byte>)
    requires |mem| == T2T_SIZE
    ensures BlockRead(mem, 0) + BlockRead(mem, 4) + BlockRead(mem, 8) + BlockRead(mem, 12) == mem
  {
  }

  /** The message is read back from block 4 on. */
  lemma T2tReadBack(mem: seq<byte>, msg: seq<byte>)
    requires |mem| == T2T_SIZE && |msg| <= T2T_MAX
    ensures var m := T2tWith(mem, msg);
      && Message(BlockRead(m, 4) + BlockRead(m, 8) + BlockRead(m, 12)) == Some(msg)
      && BlockRead(m, 0) == BlockRead(mem, 0)
  {
    var m := T2tWith(mem, msg);
    FramedMessage(msg, T2T_DATA_SIZE);
    assert BlockRead(m, 4) + BlockRead(m, 8) + BlockRead(m, 12) == m[T2T_DATA..T2T_SIZE] == Framed(msg, T2T_DATA_SIZE);
  }

  /** Byte by byte: TLV 03 with length and message at 16, terminator FE, and zeros. */
  lemma T2tLayout(mem: seq<byte>, msg: seq<byte>)
    requires |mem| == T2T_SIZE && |msg| <= T2T_MAX
    ensures var m, n := T2tWith(mem, msg), 18 + |msg|;
      && m[..16] == mem[..16] && m[16] == 0x03 && m[17] == |msg| && m[18..n] == msg && m[n] == 0xFE
      && forall i :: n < i < 64 ==> m[i] == 0
  {
    var f := Framed(msg, 48);
    var m := T2tWith(mem, msg);
    assert m[16..64] == f;
    assert forall i :: 0 <= i < 48 ==> m[16 + i] == f[i];
  }
}
