/** Memory of a type 3 tag, its attribute block, and the Check command (src/nfc-tag.c). */
module TagT3t {
  import opened Bytes

  const SIZE := 1024
  const BLOCK := 16
  const LN_OFF := 11
  const CS_OFF := 14

  /** Version, blocks per command, number of blocks, unused, write flag and read/write flag. */
  const HEADER: seq<byte> := [0x10, 0x04, 0x01, 0x00, 0x0d, 0, 0, 0, 0, 0x00, 0x01]

  /** The checksum of an empty tag. */
  const EMPTY_CS: seq<byte> := [0x00, 0x23]

  // ----- The attribute block -----

  function Sum(s: seq<byte>): (n: nat)
    ensures n <= 255 * |s|
  {
    if s == [] then 0 else Sum(s[..|s| - 1]) + s[|s| - 1]
  }

  function Be16(n: nat): (s: seq<byte>)
    requires n < 0x1_0000
    ensures |s| == 2 && FromBe16(s) == n
  {
    [n / 256, n % 256]
  }

  function FromBe16(s: seq<byte>): nat
    requires |s| == 2
  {
    s[0] as int * 256 + s[1] as int
  }

  /** LN, the length of the stored message. */
  function Ln(mem: seq<byte>): nat
    requires |mem| >= BLOCK
  {
    mem[LN_OFF] as int * 0x1_0000 + FromBe16(mem[LN_OFF + 1..LN_OFF + 3])
  }

  /** The checksum is the sum of the bytes before it, and LN is `n`. */
  ghost predicate AttributeOk(mem: seq<byte>, n: nat)
    requires |mem| == SIZE
  {
    FromBe16(mem[CS_OFF..BLOCK]) == Sum(mem[..CS_OFF]) && Ln(mem) == n
  }

  predicate Fits(msg: seq<byte>)
  {
    |msg| < SIZE - BLOCK
  }

  /** LN for a message that fits. */
  function LnBytes(n: nat): (s: seq<byte>)
    requires n < 0x1_0000
    ensures |s| == 3
  {
    [0] + Be16(n)
  }

  /** The memory after a message is set; what lies behind the message stays. */
  function With(mem: seq<byte>, msg: seq<byte>): (m: seq<byte>)
    requires |mem| == SIZE && Fits(msg)
    ensures |m| == SIZE
  {
    var a := Splice(mem, LN_OFF, LnBytes(|msg|));
    Splice(Splice(a, CS_OFF, Be16(Sum(a[..CS_OFF]))), BLOCK, msg)
  }

  /** `set_t3t_data`; false when its assertion fails. */
  method SetT3t(mem: array<byte>, msg: seq<byte>) returns (ok: bool)
    requires mem.Length == SIZE
    modifies mem
    ensures ok <==> |msg| < 1008
    ensures mem[..] == if ok then With(old(mem[..]), msg) else old(mem[..])
  {
    if !(|msg| < SIZE - BLOCK) {
      return false;
    }
    var len := |msg|;
    Copy(mem, LN_OFF, [len / 0x1_0000 % 256, len / 256 % 256, len % 256]);
    assert [len / 0x1_0000 % 256, len / 256 % 256, len % 256] == LnBytes(len);
    var cs := SumUp(mem);
    Copy(mem, CS_OFF, [cs / 256 % 256, cs % 256]);
    assert [cs / 256 % 256, cs % 256] == Be16(cs);
    Copy(mem, BLOCK, msg);
    ok := true;
  }

  /** The loop over the bytes before the checksum, in 16 bits. */
  method SumUp(mem: array<byte>) returns (cs: nat)
    requires mem.Length == SIZE
    ensures cs == Sum(mem[..CS_OFF]) < 0x1_0000
  {
    cs := 0;
    for i := 0 to CS_OFF
      invariant cs == Sum(mem[..i])
    {
      assert mem[..i + 1][..i] == mem[..i];
      cs := (cs + mem[i]) % 0x1_0000;
    }
  }

  /** `nfc_tag_format` for type 3 */
  function Formatted(): (m: seq<byte>)
    ensures |m| == SIZE
  {
    HEADER + [0, 0, 0] + EMPTY_CS + Zeros(SIZE - BLOCK)
  }

  method Format(mem: array<byte>)
    requires mem.Length == SIZE
    modifies mem
    ensures mem[..] == Formatted()
  {
    Copy(mem, BLOCK, Zeros(SIZE - BLOCK));
    ghost var was := mem[..];
    Copy(mem, 0, HEADER + [0, 0, 0] + EMPTY_CS);
    assert mem[..] == mem[..BLOCK] + mem[BLOCK..];
  }

  lemma WithIsOk(mem: seq<byte>, msg: seq<byte>)
    requires |mem| == SIZE && Fits(msg)
    ensures AttributeOk(With(mem, msg), |msg|)
    ensures With(mem, msg)[BLOCK..BLOCK + |msg|] == msg && With(mem, msg)[..LN_OFF] == mem[..LN_OFF]
  {
    hide Sum;
    var a := Splice(mem, LN_OFF, LnBytes(|msg|));
    var m := With(mem, msg);
    assert m[..CS_OFF] == a[..CS_OFF];
    assert m[CS_OFF..BLOCK] == Be16(Sum(a[..CS_OFF]));
    assert m[LN_OFF..CS_OFF] == a[LN_OFF..CS_OFF] == LnBytes(|msg|);
    assert m[LN_OFF + 1..LN_OFF + 3] == m[LN_OFF..CS_OFF][1..] == Be16(|msg|);
  }

  /** Byte by byte: LN in three bytes at 11, the checksum in two bytes at 14, the message at 16; the rest stays. */
  lemma AttributeBytes(mem: seq<byte>, msg: seq<byte>)
    requires |mem| == SIZE && Fits(msg)
    ensures var m := With(mem, msg);
      && m[..11] == mem[..11] && m[11] == 0 && m[12] == |msg| / 256 && m[13] == |msg| % 256
      && m[14] as int * 256 + m[15] as int == Sum(m[..14])
      && m[16..16 + |msg|] == msg && m[16 + |msg|..] == mem[16 + |msg|..]
  {
    hide Sum;
    var a := Splice(mem, LN_OFF, LnBytes(|msg|));
    var m := With(mem, msg);
    assert m[..14] == a[..14];
    assert m[14..16] == Be16(Sum(a[..14]));
    assert m[11..14] == a[11..14] == LnBytes(|msg|);
    assert forall i :: 0 <= i < 3 ==> m[11 + i] == LnBytes(|msg|)[i];
  }

  /** An empty tag, byte by byte. */
  lemma FormattedBytes()
    ensures Formatted()[..16] == [0x10, 0x04, 0x01, 0x00, 0x0d, 0, 0, 0, 0, 0x00, 0x01, 0, 0, 0, 0x00, 0x23]
    ensures forall i :: 16 <= i < SIZE ==> Formatted()[i] == 0
  {
  }

  lemma FormattedIsOk()
    ensures AttributeOk(Formatted(), 0) && Formatted()[..LN_OFF] == HEADER
  {
    var m := Formatted();
    assert m[..CS_OFF] == HEADER + [0, 0, 0];
    assert m[CS_OFF..BLOCK] == EMPTY_CS && m[LN_OFF + 1..LN_OFF + 3] == [0, 0];
    SumOfHeader();
  }

  lemma SumStep(s: seq<byte>, b: byte)
    ensures Sum(s + [b]) == Sum(s) + b
  {
    assert (s + [b])[..|s|] == s;
  }

  lemma {:induction false} SumZeros(s: seq<byte>, n: nat)
    ensures Sum(s + Zeros(n)) == Sum(s)
  {
    hide Sum;
    if n == 0 {
      assert s + Zeros(0) == s;
    } else {
      SumZeros(s, n - 1);
      assert s + Zeros(n) == (s + Zeros(n - 1)) + [0];
      SumStep(s + Zeros(n - 1), 0);
    }
  }

  /** Version, the two block counts, number of blocks and read/write flag add up to the constant checksum. */
  lemma SumOfHeader()
    ensures Sum(HEADER + [0, 0, 0]) == FromBe16(EMPTY_CS)
  {
    var a: seq<byte> := [0x10] + [0x04] + [0x01] + [0x00] + [0x0d];
    SumStep([], 0x10);
    SumStep([0x10], 0x04);
    SumStep([0x10] + [0x04], 0x01);
    SumStep([0x10] + [0x04] + [0x01], 0x00);
    SumStep([0x10] + [0x04] + [0x01] + [0x00], 0x0d);
    assert [] + [0x10] == [0x10];
    SumZeros(a, 5);
    SumStep(a + Zeros(5), 0x01);
    SumZeros(HEADER, 3);
    assert HEADER == a + Zeros(5) + [0x01] && HEADER + [0, 0, 0] == HEADER + Zeros(3);
  }

  datatype Op = SetMessage(msg: seq<byte>) | FormatTag

  /** A tag after a number of operations; messages that do not fit are refused. */
  function After(ops: seq<Op>): (m: seq<byte>)
    ensures |m| == SIZE
  {
    if ops == [] then Formatted()
    else
      var m := After(ops[..|ops| - 1]);
      match ops[|ops| - 1]
      case FormatTag => Formatted()
      case SetMessage(msg) => if Fits(msg) then With(m, msg) else m
  }

  /** The message that was last set, empty after a format. */
  function LastMessage(ops: seq<Op>): (msg: seq<byte>)
    ensures Fits(msg)
  {
    if ops == [] then []
    else
      match ops[|ops| - 1]
      case FormatTag => []
      case SetMessage(msg) => if Fits(msg) then msg else LastMessage(ops[..|ops| - 1])
  }

  /** After any operations checksum and LN are right, the constants are in place, and the last message is stored. */
  lemma {:induction false} AttributesStay(ops: seq<Op>)
    ensures AttributeOk(After(ops), |LastMessage(ops)|)
    ensures After(ops)[..LN_OFF] == HEADER
    ensures After(ops)[BLOCK..BLOCK + |LastMessage(ops)|] == LastMessage(ops)
  {
    hide With, Formatted, AttributeOk;
    FormattedIsOk();
    if ops != [] {
      AttributesStay(ops[..|ops| - 1]);
      var op := ops[|ops| - 1];
      if op.SetMessage? && Fits(op.msg) {
        WithIsOk(After(ops[..|ops| - 1]), op.msg);
      }
    }
  }

  // ----- The Check command -----

  /** A block list element: two bytes when the top bit of the first is set, else three. */
  datatype Block = Short(head: byte, bn: byte) | Long(head: byte, wide: nat)
  {
    predicate Valid() {
      if Short? then head >= 128 else head < 128 && wide < 0x1_0000
    }

    function Number(): nat {
      if Short? then bn else wide
    }

    function Encoding(): seq<byte>
      requires Valid()
    {
      if Short? then [head, bn] else [head] + Be16(wide)
    }
  }

  function BlockAt(mem: seq<byte>, bn: nat): (s: seq<byte>)
    requires |mem| == SIZE && bn < SIZE / BLOCK
    ensures |s| == BLOCK
  {
    mem[bn * BLOCK..bn * BLOCK + BLOCK]
  }

  datatype Checked = Blocks(data: seq<byte>, used: nat) | OutOfBounds

  /** The length of the element at the front of a block list, and its block number. */
  function Element(bl: seq<byte>): Option<(nat, nat)>
  {
    if bl == [] then None
    else if bl[0] >= 128 then if |bl| < 2 then None else Some((2, bl[1] as int))
    else if |bl| < 3 then None else Some((3, bl[1] as int * 256 + bl[2] as int))
  }

  /** What `n` elements of a block list collect. */
  function Collect(mem: seq<byte>, bl: seq<byte>, n: nat): (c: Checked)
    requires |mem| == SIZE
    ensures c.Blocks? ==> |c.data| == BLOCK * n && c.used <= |bl|
    decreases n
  {
    if n == 0 then Blocks([], 0)
    else if Element(bl).None? || Element(bl).value.1 >= SIZE / BLOCK then OutOfBounds
    else
      var (k, bn) := Element(bl).value;
      match Collect(mem, bl[k..], n - 1)
      case OutOfBounds => OutOfBounds
      case Blocks(data, used) => Blocks(BlockAt(mem, bn) + data, k + used)
  }

  /** Collected elements in front of further ones. */
  function Behind(data: seq<byte>, used: nat, c: Checked): Checked
  {
    if c.Blocks? then Blocks(data + c.data, used + c.used) else c
  }

  lemma CollectStep(mem: seq<byte>, bl: seq<byte>, n: nat, data: seq<byte>, used: nat)
    requires |mem| == SIZE && n > 0
    ensures Element(bl).None? || Element(bl).value.1 >= SIZE / BLOCK ==>
      Behind(data, used, Collect(mem, bl, n)) == OutOfBounds
    ensures Element(bl).Some? && Element(bl).value.1 < SIZE / BLOCK ==>
      var (k, bn) := Element(bl).value;
      Behind(data, used, Collect(mem, bl, n))
        == Behind(data + BlockAt(mem, bn), used + k, Collect(mem, bl[k..], n - 1))
  {
    if Element(bl).Some? && Element(bl).value.1 < SIZE / BLOCK {
      var (k, bn) := Element(bl).value;
      var c := Collect(mem, bl[k..], n - 1);
      if c.Blocks? {
        assert data + (BlockAt(mem, bn) + c.data) == data + BlockAt(mem, bn) + c.data;
      }
    }
  }

  const CHECK_HEADER := 11
  const RESPONSE_HEADER := 13
  const MAX_BLOCKS := 15
  const PACKET := 256

  /** Where the number of blocks stands: behind the service codes, of two bytes each. */
  function TailAt(cmd: seq<byte>): nat
    requires |cmd| >= CHECK_HEADER
  {
    CHECK_HEADER + 2 * cmd[10] as int
  }

  /** The blocks a Check command asks for; out of bounds when the response or a read leaves its memory. */
  function CheckOf(mem: seq<byte>, cmd: seq<byte>): Checked
    requires |mem| == SIZE
  {
    if |cmd| < CHECK_HEADER || |cmd| <= TailAt(cmd) || cmd[TailAt(cmd)] > MAX_BLOCKS then OutOfBounds
    else Collect(mem, cmd[TailAt(cmd) + 1..], cmd[TailAt(cmd)])
  }

  /** Length, code, the tag's id, two status bytes and the number of blocks; then the blocks and a status byte. */
  function Response(id: seq<byte>, n: nat, data: seq<byte>): seq<byte>
    requires n <= MAX_BLOCKS
  {
    ResponseHeader(id, n) + data + [0]
  }

  datatype CheckResult = Answered(len: nat, consumed: nat) | Unanswered

  /** The loop of `process_t3t_check`, with its 8-bit indices: `i` into the block list, `j` into the response. */
  method CollectBlocks(mem: array<byte>, bl: seq<byte>, n: byte, rsp: array<byte>) returns (c: CheckResult)
    requires mem.Length == SIZE && rsp.Length == PACKET && mem != rsp && n <= MAX_BLOCKS && |bl| < 256
    modifies rsp
    ensures Collect(mem[..], bl, n) == OutOfBounds <==> c == Unanswered
    ensures c.Answered? ==> c.consumed == Collect(mem[..], bl, n).used && c.len == BLOCK * n
    ensures c.Answered? ==> rsp[RESPONSE_HEADER..RESPONSE_HEADER + BLOCK * n] == Collect(mem[..], bl, n).data
  {
    hide Collect, Element, BlockAt;
    var i: byte, j: byte := 0, 0;
    ghost var all, data := Collect(mem[..], bl, n), [];
    assert all == Behind([], 0, all) && bl[0..] == bl by {
      BehindNothing(all);
    }
    for bidx := 0 to n
      invariant j == BLOCK * bidx && i <= |bl|
      invariant RESPONSE_HEADER + |data| <= PACKET && rsp[RESPONSE_HEADER..RESPONSE_HEADER + j] == data && |data| == j
      invariant all == Behind(data, i, Collect(mem[..], bl[i..], n - bidx))
    {
      CollectStep(mem[..], bl[i..], n - bidx, data, i);
      var e := ElementOf(bl[i..]);
      if e.None? || e.value.1 >= SIZE / BLOCK {
        return Unanswered;
      }
      var (k, bn) := e.value;
      PutBlock(mem, bn, rsp, j, data);
      data := data + BlockAt(mem[..], bn);
      assert bl[i..][k..] == bl[i + k..];
      i := (i + k) % 256;
      j := (j + BLOCK) % 256;
    }
    CollectNothing(mem[..], bl[i..]);
    assert data + [] == data;
    c := Answered(j, i);
  }

  lemma BehindNothing(c: Checked)
    ensures Behind([], 0, c) == c
  {
    if c.Blocks? {
      assert [] + c.data == c.data;
    }
  }

  lemma CollectNothing(mem: seq<byte>, bl: seq<byte>)
    requires |mem| == SIZE
    ensures Collect(mem, bl, 0) == Blocks([], 0)
  {
  }

  /** The branches on the length bit. */
  method ElementOf(bl: seq<byte>) returns (e: Option<(nat, nat)>)
    ensures e == Element(bl)
    ensures e.Some? ==> 2 <= e.value.0 <= 3 && e.value.0 <= |bl|
  {
    if bl == [] || |bl| < (if bl[0] / 128 == 1 then 2 else 3) {
      return None;
    }
    if bl[0] / 128 == 1 {
      e := Some((2, bl[1] as int));
    } else {
      e := Some((3, bl[1] as int * 256 + bl[2] as int));
    }
  }

  method PutBlock(mem: array<byte>, bn: nat, rsp: array<byte>, j: nat, ghost data: seq<byte>)
    requires mem.Length == SIZE && bn < SIZE / BLOCK && RESPONSE_HEADER + j + BLOCK <= rsp.Length && |data| == j
    requires rsp[RESPONSE_HEADER..RESPONSE_HEADER + j] == data && mem != rsp
    modifies rsp
    ensures rsp[RESPONSE_HEADER..RESPONSE_HEADER + j + BLOCK] == data + BlockAt(mem[..], bn)
  {
    ghost var was := rsp[..];
    Copy(rsp, RESPONSE_HEADER + j, mem[bn * BLOCK..bn * BLOCK + BLOCK]);
    assert rsp[RESPONSE_HEADER..RESPONSE_HEADER + j] == was[RESPONSE_HEADER..RESPONSE_HEADER + j];
    assert rsp[RESPONSE_HEADER..RESPONSE_HEADER + j + BLOCK]
        == rsp[RESPONSE_HEADER..RESPONSE_HEADER + j] + rsp[RESPONSE_HEADER + j..RESPONSE_HEADER + j + BLOCK];
  }

  /** The answer is in the packet, and the command is consumed exactly. */
  ghost predicate Answers(r: CheckResult, rsp: seq<byte>, cmd: seq<byte>, c: Checked)
    requires |cmd| >= CHECK_HEADER && |cmd| > TailAt(cmd) && cmd[TailAt(cmd)] <= MAX_BLOCKS
  {
    && c.Blocks? && r.Answered? && r.len <= |rsp|
    && rsp[..r.len] == Response(cmd[2..10], cmd[TailAt(cmd)], c.data)
    && r.consumed == TailAt(cmd) + 1 + c.used <= |cmd|
  }

  /** `process_t3t_check`; unanswered stands for reads and writes outside of memory. */
  method ProcessCheck(mem: array<byte>, cmd: seq<byte>, rsp: array<byte>) returns (r: CheckResult)
    requires mem.Length == SIZE && rsp.Length == PACKET && mem != rsp && |cmd| <= 255
    modifies rsp
    ensures CheckOf(mem[..], cmd) == OutOfBounds <==> r == Unanswered
    ensures CheckOf(mem[..], cmd).Blocks? ==> Answers(r, rsp[..], cmd, CheckOf(mem[..], cmd))
  {
    hide Collect, Response;
    if |cmd| < CHECK_HEADER || |cmd| <= TailAt(cmd) || cmd[TailAt(cmd)] > MAX_BLOCKS {
      return Unanswered;
    }
    var at := TailAt(cmd);
    r := CollectBlocks(mem, cmd[at + 1..], cmd[at], rsp);
    if r == Unanswered {
      return;
    }
    WriteResponse(rsp, cmd[2..10], cmd[at], CheckOf(mem[..], cmd).data);
    r := Answered(RESPONSE_HEADER + r.len + 1, at + 1 + r.consumed);
  }

  /** The fields in front of the blocks. */
  function ResponseHeader(id: seq<byte>, n: nat): seq<byte>
    requires n <= MAX_BLOCKS
  {
    [RESPONSE_HEADER + BLOCK * n + 1, 0x07] + id + [0, 0, n]
  }

  method WriteHeader(rsp: array<byte>, id: seq<byte>, nbl: byte)
    requires rsp.Length == PACKET && |id| == 8 && nbl <= MAX_BLOCKS
    modifies rsp
    ensures rsp[..RESPONSE_HEADER] == ResponseHeader(id, nbl)
    ensures forall i :: RESPONSE_HEADER <= i < rsp.Length ==> rsp[i] == old(rsp[i])
  {
    Copy(rsp, 2, id);
    assert forall i :: 0 <= i < rsp.Length ==> rsp[i] == rsp[..][i];
    rsp[0], rsp[1] := RESPONSE_HEADER + BLOCK * nbl + 1, 0x07;
    rsp[10], rsp[11], rsp[12] := 0, 0, nbl;
    assert rsp[2..10] == id;
    assert rsp[..RESPONSE_HEADER] == rsp[..2] + rsp[2..10] + rsp[10..RESPONSE_HEADER];
  }

  /** The fields around the blocks. */
  method WriteResponse(rsp: array<byte>, id: seq<byte>, nbl: byte, ghost data: seq<byte>)
    requires rsp.Length == PACKET && |id| == 8 && nbl <= MAX_BLOCKS && |data| == BLOCK * nbl as int
    requires rsp[RESPONSE_HEADER..RESPONSE_HEADER + |data|] == data
    modifies rsp
    ensures rsp[..RESPONSE_HEADER + BLOCK * nbl as int + 1] == Response(id, nbl, data)
  {
    ghost var was := rsp[..];
    var n: nat := RESPONSE_HEADER + BLOCK * nbl as int;
    WriteHeader(rsp, id, nbl);
    rsp[n] := 0;
    hide ResponseHeader;
    assert rsp[RESPONSE_HEADER..n] == was[RESPONSE_HEADER..n];
    assert rsp[..n + 1] == rsp[..RESPONSE_HEADER] + rsp[RESPONSE_HEADER..n] + [rsp[n]];
  }

  // ----- What a reader gets -----

  function Encoded(blocks: seq<Block>): seq<byte>
    requires forall i :: 0 <= i < |blocks| ==> blocks[i].Valid()
  {
    if blocks == [] then [] else blocks[0].Encoding() + Encoded(blocks[1..])
  }

  function Gathered(mem: seq<byte>, blocks: seq<Block>): (s: seq<byte>)
    requires |mem| == SIZE && forall i :: 0 <= i < |blocks| ==> blocks[i].Number() < SIZE / BLOCK
    ensures |s| == BLOCK * |blocks|
  {
    if blocks == [] then [] else BlockAt(mem, blocks[0].Number()) + Gathered(mem, blocks[1..])
  }

  lemma ElementOfEncoding(b: Block, rest: seq<byte>)
    requires b.Valid()
    ensures Element(b.Encoding() + rest) == Some((|b.Encoding()|, b.Number()))
    ensures (b.Encoding() + rest)[|b.Encoding()|..] == rest
  {
    if b.Long? {
      assert b.Encoding()[1..] == Be16(b.wide);
    }
  }

  /** A list of blocks, of either kind, is taken apart completely, and every block is read. */
  lemma {:induction false} CollectEncoded(mem: seq<byte>, blocks: seq<Block>, rest: seq<byte>)
    requires |mem| == SIZE
    requires forall i :: 0 <= i < |blocks| ==> blocks[i].Valid() && blocks[i].Number() < SIZE / BLOCK
    ensures Collect(mem, Encoded(blocks) + rest, |blocks|) == Blocks(Gathered(mem, blocks), |Encoded(blocks)|)
  {
    hide Element, BlockAt;
    if blocks != [] {
      var b, more := blocks[0], Encoded(blocks[1..]) + rest;
      CollectEncoded(mem, blocks[1..], rest);
      ElementOfEncoding(b, more);
      assert Encoded(blocks) + rest == b.Encoding() + more;
    }
  }

  lemma SliceBehind(a: seq<byte>, b: seq<byte>, i: nat, j: nat)
    requires i <= j <= |b|
    ensures (a + b)[|a| + i..|a| + j] == b[i..j]
  {
  }

  /** Block number `k` of the answer is the one number `k` of the list asks for. */
  lemma {:induction false} GatheredAt(mem: seq<byte>, blocks: seq<Block>, k: nat)
    requires |mem| == SIZE && k < |blocks|
    requires forall i :: 0 <= i < |blocks| ==> blocks[i].Number() < SIZE / BLOCK
    ensures Gathered(mem, blocks)[BLOCK * k..BLOCK * k + BLOCK] == BlockAt(mem, blocks[k].Number())
  {
    hide BlockAt;
    var rest := Gathered(mem, blocks[1..]);
    if k > 0 {
      GatheredAt(mem, blocks[1..], k - 1);
      SliceBehind(BlockAt(mem, blocks[0].Number()), rest, BLOCK * (k - 1), BLOCK * k);
    }
  }

  /** A Check command for the given services and blocks. */
  function CheckCommand(id: seq<byte>, services: seq<byte>, blocks: seq<Block>): seq<byte>
    requires |id| == 8 && |services| % 2 == 0 && |services| < 512 && |blocks| <= 255
    requires forall i :: 0 <= i < |blocks| ==> blocks[i].Valid()
  {
    [0, 0x06] + id + [|services| / 2] + services + [|blocks|] + Encoded(blocks)
  }

  /**
   * Up to 15 blocks in range are answered, whatever the mixture of elements, and the command is consumed exactly; more
   * do not fit the packet.
   */
  lemma CheckAnswers(mem: seq<byte>, id: seq<byte>, services: seq<byte>, blocks: seq<Block>, rest: seq<byte>)
    requires |mem| == SIZE && |id| == 8 && |services| % 2 == 0 && |services| < 512 && |blocks| <= 255
    requires forall i :: 0 <= i < |blocks| ==> blocks[i].Valid() && blocks[i].Number() < 64
    ensures var cmd := CheckCommand(id, services, blocks);
      && CheckOf(mem, cmd + rest)
         == (if |blocks| <= 15 then Blocks(Gathered(mem, blocks), |Encoded(blocks)|) else OutOfBounds)
      && TailAt(cmd + rest) + 1 + |Encoded(blocks)| == |cmd| && (cmd + rest)[2..10] == id
  {
    hide Collect, Gathered, Encoded;
    var cmd := CheckCommand(id, services, blocks) + rest;
    var at := CHECK_HEADER + |services|;
    assert cmd[10] == |services| / 2 && cmd[at] == |blocks|;
    assert cmd[at + 1..] == Encoded(blocks) + rest;
    CollectEncoded(mem, blocks, rest);
  }

  /** The blocks `a`, `a + 1`, ... */
  function Range(a: nat, n: nat): (bs: seq<Block>)
    requires a + n <= SIZE / BLOCK
    ensures |bs| == n && forall i :: 0 <= i < n ==> bs[i].Valid() && bs[i].Number() == a + i
  {
    seq(n, i requires 0 <= i < n => Short(128, a + i))
  }

  lemma {:induction false} GatheredRange(mem: seq<byte>, a: nat, n: nat)
    requires |mem| == SIZE && a + n <= SIZE / BLOCK
    ensures Gathered(mem, Range(a, n)) == mem[a * BLOCK..(a + n) * BLOCK]
    decreases n
  {
    if n > 0 {
      GatheredRange(mem, a + 1, n - 1);
      assert Range(a, n)[1..] == Range(a + 1, n - 1);
    }
  }

  function Total(counts: seq<nat>): nat
  {
    if counts == [] then 0 else counts[0] + Total(counts[1..])
  }

  /**
   * What a reader takes from a response: its first byte is its length, then come 07, the tag's id, two status bytes 0,
   * the number of blocks, the blocks, and one more status byte.
   */
  function BlocksIn(packet: seq<byte>, id: seq<byte>): Option<seq<byte>>
  {
    if |packet| >= 14 && |packet| == 14 + 16 * packet[12] as int && packet[0] == |packet| && packet[1] == 0x07
       && packet[2..10] == id && packet[10] == 0 && packet[11] == 0 && packet[|packet| - 1] == 0
    then Some(packet[13..|packet| - 1]) else None
  }

  lemma BlocksInResponse(id: seq<byte>, n: nat, data: seq<byte>)
    requires |id| == 8 && n <= MAX_BLOCKS && |data| == 16 * n
    ensures BlocksIn(Response(id, n, data), id) == Some(data)
  {
    var p := Response(id, n, data);
    assert |p| == 14 + 16 * n && p[2..10] == id && p[12] == n;
    assert p[13..|p| - 1] == data;
  }

  /** What the tag answers to a Check command for the blocks from `a` on, as a reader takes it from the packet. */
  function Answer(mem: seq<byte>, id: seq<byte>, services: seq<byte>, a: nat, n: nat): Option<seq<byte>>
    requires |mem| == SIZE && |id| == 8 && |services| % 2 == 0 && |services| < 512
    requires n <= 15 && a + n <= SIZE / BLOCK
  {
    match CheckOf(mem, CheckCommand(id, services, Range(a, n)))
    case OutOfBounds => None
    case Blocks(data, _) => BlocksIn(Response(id, n, data), id)
  }

  lemma AnswerIsMemory(mem: seq<byte>, id: seq<byte>, services: seq<byte>, a: nat, n: nat)
    requires |mem| == SIZE && |id| == 8 && |services| % 2 == 0 && |services| < 512
    requires n <= 15 && a + n <= SIZE / BLOCK
    ensures Answer(mem, id, services, a, n) == Some(mem[a * BLOCK..(a + n) * BLOCK])
  {
    hide CheckOf, CheckCommand, Gathered, Range, BlocksIn, Response;
    CheckAnswers(mem, id, services, Range(a, n), []);
    assert CheckCommand(id, services, Range(a, n)) + [] == CheckCommand(id, services, Range(a, n));
    GatheredRange(mem, a, n);
    BlocksInResponse(id, n, Gathered(mem, Range(a, n)));
  }

  predicate Portions(counts: seq<nat>)
  {
    forall i :: 0 <= i < |counts| ==> counts[i] <= 15
  }

  /** The answers to one Check command after the other, each for the next few blocks, up to one that is not answered. */
  function ReadRuns(mem: seq<byte>, id: seq<byte>, services: seq<byte>, a: nat, counts: seq<nat>): Option<seq<byte>>
    requires |mem| == SIZE && |id| == 8 && |services| % 2 == 0 && |services| < 512
    requires Portions(counts) && a + Total(counts) <= SIZE / BLOCK
    decreases |counts|
  {
    if counts == [] then Some([])
    else
      var first := Answer(mem, id, services, a, counts[0]);
      var rest := ReadRuns(mem, id, services, a + counts[0], counts[1..]);
      if first.None? || rest.None? then None else Some(first.value + rest.value)
  }

  lemma {:induction false} ReadRunsIsMemory(mem: seq<byte>, id: seq<byte>, services: seq<byte>, a: nat, counts: seq<nat>)
    requires |mem| == SIZE && |id| == 8 && |services| % 2 == 0 && |services| < 512
    requires Portions(counts) && a + Total(counts) <= SIZE / BLOCK
    ensures ReadRuns(mem, id, services, a, counts) == Some(mem[a * BLOCK..(a + Total(counts)) * BLOCK])
    decreases |counts|
  {
    hide Answer;
    if counts == [] {
      assert mem[a * BLOCK..a * BLOCK] == [];
    } else {
      var b := a + counts[0];
      AnswerIsMemory(mem, id, services, a, counts[0]);
      ReadRunsIsMemory(mem, id, services, b, counts[1..]);
      Adjacent(mem, a * BLOCK, b * BLOCK, (b + Total(counts[1..])) * BLOCK);
    }
  }

  lemma Adjacent(mem: seq<byte>, a: nat, b: nat, c: nat)
    requires a <= b <= c <= |mem|
    ensures mem[a..b] + mem[b..c] == mem[a..c]
  {
  }

  /** A message inside a region is at the front of the region's end. */
  lemma FrontOfRegion(mem: seq<byte>, a: nat, b: nat, n: nat)
    requires a + n <= b <= |mem|
    ensures mem[a..b][..n] == mem[a..a + n]
  {
  }

  lemma LnOfBlock(mem: seq<byte>)
    requires |mem| == SIZE
    ensures Ln(mem[..BLOCK]) == Ln(mem)
  {
    assert mem[..BLOCK][LN_OFF + 1..LN_OFF + 3] == mem[LN_OFF + 1..LN_OFF + 3];
  }

  /**
   * After any operations on the tag, a reader that takes LN from the answer for block 0, and then asks for enough
   * blocks, in any portions of at most 15, has the last message.
   */
  lemma ReadBack(ops: seq<Op>, id: seq<byte>, services: seq<byte>, counts: seq<nat>)
    requires |id| == 8 && |services| % 2 == 0 && |services| < 512 && Portions(counts)
    requires 1 + Total(counts) <= SIZE / BLOCK && Total(counts) * BLOCK >= |LastMessage(ops)|
    ensures Answer(After(ops), id, services, 0, 1).Some? && |Answer(After(ops), id, services, 0, 1).value| == BLOCK
    ensures Ln(Answer(After(ops), id, services, 0, 1).value) == |LastMessage(ops)|
    ensures ReadRuns(After(ops), id, services, 1, counts).Some?
    ensures LastMessage(ops) <= ReadRuns(After(ops), id, services, 1, counts).value
  {
    hide After, LastMessage, Sum, Answer, ReadRuns, Ln;
    var m, n := After(ops), |LastMessage(ops)|;
    AttributesStay(ops);
    AnswerIsMemory(m, id, services, 0, 1);
    LnOfBlock(m);
    assert m[0 * BLOCK..1 * BLOCK] == m[..BLOCK];
    ReadRunsIsMemory(m, id, services, 1, counts);
    FrontOfRegion(m, BLOCK, (1 + Total(counts)) * BLOCK, n);
  }
}
