/** The base64 codec of src/base64.c. */
module Base64 {
  import opened Bytes

  type sextet = v: int | 0 <= v < 64
  type bit = v: int | 0 <= v <= 1

  const PAD: char := '='

  /** The standard alphabet: A-Z, a-z, 0-9, '+', '/'. */
  function Digit(v: sextet): char
  {
    if v < 26 then ('A' as int + v) as char
    else if v < 52 then ('a' as int + v - 26) as char
    else if v < 62 then ('0' as int + v - 52) as char
    else if v == 62 then '+' else '/'
  }

  predicate IsDigit(c: char)
  {
    'A' <= c <= 'Z' || 'a' <= c <= 'z' || '0' <= c <= '9' || c == '+' || c == '/'
  }

  function Value(c: char): sextet
    requires IsDigit(c)
  {
    if 'A' <= c <= 'Z' then c as int - 'A' as int
    else if 'a' <= c <= 'z' then c as int - 'a' as int + 26
    else if '0' <= c <= '9' then c as int - '0' as int + 52
    else if c == '+' then 62 else 63
  }

  function Digits(s: seq<sextet>): (r: string)
    ensures |r| == |s|
  {
    seq(|s|, i requires 0 <= i < |s| => Digit(s[i]))
  }

  function Padding(n: nat): (r: string)
    ensures (n + |r|) % 4 == 0 && |r| < 4
    ensures forall i :: 0 <= i < |r| ==> r[i] == PAD
  {
    seq((4 - n % 4) % 4, _ => PAD)
  }

  // ----- Section 4 of RFC 4648: byte strings and digit strings as one string of bits -----

  /** The bits of a byte, most significant bit first. */
  function ByteBits(b: byte): (s: seq<bit>)
    ensures |s| == 8
  {
    [b / 128, b / 64 % 2, b / 32 % 2, b / 16 % 2, b / 8 % 2, b / 4 % 2, b / 2 % 2, b % 2]
  }

  function SextetBits(v: sextet): (s: seq<bit>)
    ensures |s| == 6
  {
    [v / 32, v / 16 % 2, v / 8 % 2, v / 4 % 2, v / 2 % 2, v % 2]
  }

  function Bits(x: seq<byte>): (s: seq<bit>)
    ensures |s| == 8 * |x|
  {
    if x == [] then [] else ByteBits(x[0]) + Bits(x[1..])
  }

  function AllSextetBits(s: seq<sextet>): (r: seq<bit>)
    ensures |r| == 6 * |s|
  {
    if s == [] then [] else SextetBits(s[0]) + AllSextetBits(s[1..])
  }

  function At(s: seq<bit>, i: nat): bit
  {
    if i < |s| then s[i] else 0
  }

  /** Up to six bits as a number, with zero bits added on the right. */
  function Sextet(s: seq<bit>): sextet
  {
    32 * At(s, 0) + 16 * At(s, 1) + 8 * At(s, 2) + 4 * At(s, 3) + 2 * At(s, 4) + At(s, 5)
  }

  function Octet(s: seq<bit>): byte
  {
    128 * At(s, 0) + 64 * At(s, 1) + 32 * At(s, 2) + 16 * At(s, 3)
    + 8 * At(s, 4) + 4 * At(s, 5) + 2 * At(s, 6) + At(s, 7)
  }

  /** Cuts a bit string into groups of six; the last group is filled up with zero bits. */
  function Sextets(s: seq<bit>): (r: seq<sextet>)
    ensures s == [] <==> r == []
  {
    if s == [] then []
    else if |s| <= 6 then [Sextet(s)]
    else [Sextet(s[..6])] + Sextets(s[6..])
  }

  /** Cuts a bit string into groups of eight; bits that do not fill a byte are dropped. */
  function Octets(s: seq<bit>): seq<byte>
  {
    if |s| < 8 then [] else [Octet(s[..8])] + Octets(s[8..])
  }

  function Groups(x: seq<byte>): seq<sextet>
  {
    Sextets(Bits(x))
  }

  /** What RFC 4648 prescribes: every group becomes a digit, then padding. */
  function RfcEncode(x: seq<byte>): string
  {
    Digits(Groups(x)) + Padding(|Groups(x)|)
  }

  // ----- What the C encoder produces -----

  /** The C encoder leaves out the last group when its six bits are all zero. */
  function Trim(s: seq<sextet>): seq<sextet>
  {
    if s != [] && s[|s| - 1] == 0 then s[..|s| - 1] else s
  }

  function Encode(x: seq<byte>): string
  {
    Digits(Trim(Groups(x))) + Padding(|Trim(Groups(x))|)
  }

  lemma Half(c: nat, d: nat)
    requires c / 2 == d
    ensures c == 2 * d + c % 2
  {
  }

  lemma Halves(b: byte)
    ensures b == 2 * (b / 2) + b % 2
    ensures b / 2 == 2 * (b / 4) + b / 2 % 2
    ensures b / 4 == 2 * (b / 8) + b / 4 % 2
    ensures b / 8 == 2 * (b / 16) + b / 8 % 2
    ensures b / 16 == 2 * (b / 32) + b / 16 % 2
    ensures b / 32 == 2 * (b / 64) + b / 32 % 2
    ensures b / 64 == 2 * (b / 128) + b / 64 % 2
    ensures b / 128 == b / 128 % 2
  {
    Half(b, b / 2); Half(b / 2, b / 4); Half(b / 4, b / 8); Half(b / 8, b / 16);
    Half(b / 16, b / 32); Half(b / 32, b / 64); Half(b / 64, b / 128);
  }

  /** The encoder's shifts and masks select runs of bits. */
  lemma ShiftsSelectBits(p: seq<bit>, c: byte)
    requires |p| == 0 || |p| == 2 || |p| == 4
    ensures var n := 6 - |p|;
      && Sextet(p + ByteBits(c)[..n]) == Sextet(p) + (if n == 6 then c / 4 else if n == 4 then c / 16 else c / 64)
      && Sextet(ByteBits(c)[n..]) == if n == 6 then c % 4 * 16 else if n == 4 then c % 16 * 4 else c % 64
  {
    if |p| == 0 {
      ShiftTwo(p, c);
    } else if |p| == 2 {
      ShiftFour(p, c);
    } else {
      ShiftSix(p, c);
    }
  }

  lemma ShiftTwo(p: seq<bit>, c: byte)
    requires |p| == 0
    ensures Sextet(p + ByteBits(c)[..6]) == c / 4 && Sextet(ByteBits(c)[6..]) == c % 4 * 16
  {
    Halves(c);
    assert c % 4 == c - c / 4 * 4;
  }

  lemma ShiftFour(p: seq<bit>, c: byte)
    requires |p| == 2
    ensures Sextet(p + ByteBits(c)[..4]) == Sextet(p) + c / 16 && Sextet(ByteBits(c)[4..]) == c % 16 * 4
  {
    Halves(c);
    assert c % 16 == c - c / 16 * 16;
  }

  lemma ShiftSix(p: seq<bit>, c: byte)
    requires |p| == 4
    ensures Sextet(p + ByteBits(c)[..2]) == Sextet(p) + c / 64 && Sextet(ByteBits(c)[2..]) == c % 64
  {
    Halves(c);
    assert c % 64 == c - c / 64 * 64;
  }

  /** One step of the encoder: with fewer than six bits pending, the next byte completes a group. */
  lemma PendingStep(p: seq<bit>, w: seq<bit>, t: seq<bit>)
    requires |p| < 6 && |w| == 8
    ensures Sextets(p + (w + t)) == [Sextet(p + w[..6 - |p|])] + Sextets(w[6 - |p|..] + t)
  {
    var s := p + (w + t);
    assert s[..6] == p + w[..6 - |p|];
    assert s[6..] == w[6 - |p|..] + t;
  }

  lemma FullGroup(p: seq<bit>, t: seq<bit>)
    requires |p| == 6
    ensures Sextets(p + t) == [Sextet(p)] + Sextets(t)
  {
    assert (p + t)[..6] == p && (p + t)[6..] == t;
    if t == [] {
      assert p + t == p;
    }
  }

  lemma BitsStep(x: seq<byte>, i: nat)
    requires i < |x|
    ensures Bits(x[i..]) == ByteBits(x[i]) + Bits(x[i + 1..])
  {
    assert x[i..][1..] == x[i + 1..];
  }

  /** With fewer than six bits `p` pending, the next byte completes one group and leaves the bits `carry`. */
  lemma ConsumeByte(p: seq<bit>, x: seq<byte>, next: nat) returns (carry: seq<bit>)
    requires |p| == 0 || |p| == 2 || |p| == 4
    requires next < |x|
    ensures |carry| == |p| + 2
    ensures Sextet(p) + Upper(x[next], |p| + 2) < 64
    ensures Sextets(p + Bits(x[next..])) == [Sextet(p) + Upper(x[next], |p| + 2)] + Sextets(carry + Bits(x[next + 1..]))
    ensures Sextet(carry) == Lower(x[next], |p| + 2)
  {
    BitsStep(x, next);
    PendingStep(p, ByteBits(x[next]), Bits(x[next + 1..]));
    ShiftsSelectBits(p, x[next]);
    carry := ByteBits(x[next])[6 - |p|..];
  }

  /** `c >> shift` */
  function Upper(c: byte, shift: nat): sextet
    requires shift == 2 || shift == 4 || shift == 6
  {
    if shift == 2 then c / 4 else if shift == 4 then c / 16 else c / 64
  }

  /** The low `shift` bits of `c`, moved to the top of a group. */
  function Lower(c: byte, shift: nat): sextet
    requires shift == 2 || shift == 4 || shift == 6
  {
    if shift == 2 then c % 4 * 16 else if shift == 4 then c % 16 * 4 else c % 64
  }

  /** The encoder between two digits: its position in the input, its shift, and the bits not yet written. */
  ghost predicate EncoderState(x: seq<byte>, next: nat, shift: int, rest: int, pending: seq<bit>)
  {
    && next <= |x|
    && shift in {0, 2, 4, 6}
    && |pending| == (if shift == 0 then 6 else shift - 2)
    && rest == Sextet(pending)
    && (shift == 2 ==> next < |x| || x == [])
  }

  /** One iteration of `encode_base64`'s main loop; the branch for shift 0 consumes no input. */
  method NextDigit(x: seq<byte>, next: nat, shift: int, rest: sextet, ghost pending: seq<bit>)
    returns (group: sextet, next': nat, shift': int, rest': sextet, ghost pending': seq<bit>)
    requires EncoderState(x, next, shift, rest, pending) && next < |x|
    ensures EncoderState(x, next', shift', rest', pending')
    ensures next' == (if shift == 0 then next else next + 1) && (shift == 0 ==> shift' == 2)
    ensures Sextets(pending + Bits(x[next..])) == [group] + Sextets(pending' + Bits(x[next'..]))
  {
    if shift == 0 {
      FullGroup(pending, Bits(x[next..]));
      assert [] + Bits(x[next..]) == Bits(x[next..]);
      group, rest', next', pending' := rest, 0, next, [];
    } else {
      pending' := ConsumeByte(pending, x, next);
      group := rest + Upper(x[next], shift);
      rest' := Lower(x[next], shift);
      next' := next + 1;
    }
    shift' := (shift + 2) % 8;
  }

  /** The main loop of `encode_base64` writes every group but the last, which stays in `rest`. */
  method EmitGroups(x: seq<byte>, out: array<char>) returns (len: nat, rest: sextet)
    requires |Groups(x)| <= out.Length
    modifies out
    ensures x == [] ==> len == rest == 0
    ensures x != [] ==> len + 1 == |Groups(x)| && rest == Groups(x)[len]
    ensures out[..len] == Digits(Groups(x)[..len])
    ensures forall i :: len <= i < out.Length ==> out[i] == old(out[i])
  {
    hide Digit;
    var shift, next := 2, 0;
    len, rest := 0, 0;
    ghost var groups := Groups(x);
    ghost var pending: seq<bit> := [];
    assert x[next..] == x && pending + Bits(x) == Bits(x);
    while next < |x|
      invariant EncoderState(x, next, shift, rest, pending)
      invariant len <= |groups| && (x == [] ==> len == 0)
      invariant groups[len..] == Sextets(pending + Bits(x[next..]))
      invariant out[..len] == Digits(groups[..len])
      invariant forall i :: len <= i < out.Length ==> out[i] == old(out[i])
      decreases |x| - next, 8 - shift
    {
      var group;
      ghost var tail := groups[len..];
      group, next, shift, rest, pending := NextDigit(x, next, shift, rest, pending);
      assert groups[len] == tail[0] == group && groups[len + 1..] == tail[1..];
      out[len] := Digit(group);
      len := len + 1;
    }
    if x != [] {
      assert pending + Bits(x[next..]) == pending;
      assert groups[len..] == [rest];
    }
  }

  method EncodeBase64(x: seq<byte>, out: array<char>) returns (len: nat)
    requires 4 * Quanta(|x|) <= out.Length
    modifies out
    ensures len == |Encode(x)| <= out.Length
    ensures out[..len] == Encode(x)
    ensures forall i :: len <= i < out.Length ==> out[i] == old(out[i])
  {
    hide Sextets, Bits, Digit, Padding;
    EncodedSize(x);
    if x != [] {
      LastGroup(x);
    }
    var rest;
    len, rest := EmitGroups(x, out);
    if rest != 0 {
      out[len] := Digit(rest);
      len := len + 1;
    }
    assert out[..len] == Digits(Trim(Groups(x)));
    len := AppendPadding(x, out, len);
  }

  /** The padding loop at the end of `encode_base64`. */
  method AppendPadding(ghost x: seq<byte>, out: array<char>, digits: nat) returns (len: nat)
    requires digits <= |Encode(x)| <= out.Length
    requires out[..digits] == Digits(Trim(Groups(x)))
    modifies out
    ensures len == |Encode(x)|
    ensures out[..len] == Encode(x)
    ensures forall i :: len <= i < out.Length ==> out[i] == old(out[i])
  {
    hide Sextets, Bits, Digit;
    len := digits;
    while len % 4 != 0
      invariant digits <= len <= |Encode(x)|
      invariant out[..len] == Encode(x)[..len]
      invariant forall i :: len <= i < out.Length ==> out[i] == old(out[i])
      decreases |Encode(x)| - len
    {
      out[len] := PAD;
      len := len + 1;
    }
  }

  /** The low bits of the last byte, those that end up in the last group, are not all zero. */
  predicate TailBitsSet(x: seq<byte>)
  {
    x == [] ||
    var b := x[|x| - 1];
    match |x| % 3
    case 1 => b % 4 != 0
    case 2 => b % 16 != 0
    case _ => b % 64 != 0
  }

  /** Three bytes make exactly four groups. */
  lemma Quantum(u: seq<bit>, v: seq<bit>, w: seq<bit>, t: seq<bit>)
    requires |u| == |v| == |w| == 8
    ensures Sextets(u + (v + (w + t)))
         == [Sextet(u[..6]), Sextet(u[6..] + v[..4]), Sextet(v[4..] + w[..2]), Sextet(w[2..])] + Sextets(t)
  {
    hide Sextet, Sextets;
    assert [] + (u + (v + (w + t))) == u + (v + (w + t)) && [] + u[..6] == u[..6];
    PendingStep([], u, v + (w + t));
    PendingStep(u[6..], v, w + t);
    PendingStep(v[4..], w, t);
    FullGroup(w[2..], t);
  }

  lemma QuantumOfBytes(x: seq<byte>)
    requires |x| >= 3
    ensures |Groups(x)| == 4 + |Groups(x[3..])| && Groups(x)[4..] == Groups(x[3..])
    ensures Groups(x)[3] == x[2] % 64
  {
    assert x[0..] == x;
    BitsStep(x, 0);
    BitsStep(x, 1);
    BitsStep(x, 2);
    Quantum(ByteBits(x[0]), ByteBits(x[1]), ByteBits(x[2]), Bits(x[3..]));
    ShiftsSelectBits(ByteBits(x[1])[4..], x[2]);
  }

  function Quanta(n: nat): nat
  {
    (n + 2) / 3
  }

  lemma ShortGroups(x: seq<byte>)
    requires 1 <= |x| <= 2
    ensures |Groups(x)| == |x| + 1
    ensures Groups(x)[|x|] == if |x| == 1 then x[0] % 4 * 16 else x[1] % 16 * 4
  {
    assert x[0..] == x && [] + Bits(x) == Bits(x);
    BitsStep(x, 0);
    PendingStep([], ByteBits(x[0]), Bits(x[1..]));
    ShiftsSelectBits([], x[0]);
    var p := ByteBits(x[0])[6..];
    if |x| == 2 {
      BitsStep(x, 1);
      PendingStep(p, ByteBits(x[1]), []);
      ShiftsSelectBits(p, x[1]);
      assert Bits(x[2..]) == [] && ByteBits(x[1])[4..] + [] == ByteBits(x[1])[4..];
    } else {
      assert p + Bits(x[1..]) == p;
    }
  }

  lemma TailStep(x: seq<byte>)
    requires |x| > 3
    ensures TailBitsSet(x) == TailBitsSet(x[3..])
    ensures Quanta(|x|) == 1 + Quanta(|x| - 3)
  {
    assert |x[3..]| % 3 == |x| % 3;
    assert x[3..][|x| - 4] == x[|x| - 1];
  }

  /** Of the four groups of the last quantum at least two are there, and the last one holds the tail bits. */
  lemma {:induction false} LastGroup(x: seq<byte>)
    requires x != []
    ensures 4 * Quanta(|x|) - 2 <= |Groups(x)| <= 4 * Quanta(|x|)
    ensures Groups(x)[|Groups(x)| - 1] == 0 <==> !TailBitsSet(x)
  {
    if |x| < 3 {
      ShortGroups(x);
    } else {
      QuantumOfBytes(x);
      if |x| > 3 {
        LastGroup(x[3..]);
        TailStep(x);
        assert Groups(x)[|Groups(x)| - 1] == Groups(x)[4..][|Groups(x[3..])| - 1];
      }
    }
  }

  lemma PaddedLength(n: nat, q: nat)
    requires 4 * q - 4 < n <= 4 * q
    ensures n + |Padding(n)| == 4 * q
  {
  }

  /** Every encoding is padded to whole quanta of four characters, three bytes each. */
  lemma EncodedSize(x: seq<byte>)
    ensures |Encode(x)| == 4 * Quanta(|x|)
    ensures |RfcEncode(x)| == 4 * Quanta(|x|)
  {
    if x != [] {
      LastGroup(x);
      PaddedLength(|Groups(x)|, Quanta(|x|));
      PaddedLength(|Trim(Groups(x))|, Quanta(|x|));
    }
  }

  /** The encoder meets section 4 of RFC 4648 exactly on the inputs whose tail bits are set. */
  lemma EncodeIsStandardIff(x: seq<byte>)
    ensures Encode(x) == RfcEncode(x) <==> TailBitsSet(x)
  {
    if x != [] {
      LastGroup(x);
      EncodedSize(x);
      var n := |Groups(x)|;
      if !TailBitsSet(x) {
        // the last digit's place is taken by a padding character
        assert Encode(x)[n - 1] == PAD;
        assert RfcEncode(x)[n - 1] == Digit(Groups(x)[n - 1]);
      }
    }
  }

  // ----- Decoding -----

  datatype Decoding = Decoded(bytes: seq<byte>) | NotBase64 | NoRoom

  /** The longest prefix of digits, given by its length. */
  function DigitRun(s: string): (n: nat)
    ensures n <= |s|
    ensures forall i :: 0 <= i < n ==> IsDigit(s[i])
    ensures n < |s| ==> !IsDigit(s[n])
  {
    if s == [] || !IsDigit(s[0]) then 0 else 1 + DigitRun(s[1..])
  }

  function Values(s: string): (r: seq<sextet>)
    requires forall i :: 0 <= i < |s| ==> IsDigit(s[i])
    ensures |r| == |s|
  {
    seq(|s|, i requires 0 <= i < |s| => Value(s[i]))
  }

  /** The number of output bytes `k` digits touch, counting a byte that is not complete. */
  function Touched(k: nat): nat
  {
    (3 * k + 3) / 4
  }

  lemma {:induction false} OctetCount(s: seq<bit>)
    ensures |Octets(s)| == |s| / 8
  {
    if |s| >= 8 {
      OctetCount(s[8..]);
    }
  }

  /** The result of decoding `s` into `room` bytes. A failing assertion on the room is `NoRoom`. */
  function Decode(s: string, room: nat): (d: Decoding)
    ensures d.Decoded? ==> |d.bytes| == 3 * DigitRun(s) / 4 <= Touched(DigitRun(s)) <= room
  {
    var k := DigitRun(s);
    if (s != [] && room == 0) || Touched(k) > room then NoRoom
    else if k < |s| && s[k] != PAD then NotBase64
    else
      OctetCount(AllSextetBits(Values(s[..k])));
      Decoded(Octets(AllSextetBits(Values(s[..k]))))
  }

  /** The decoder's shifts and masks append bits to the byte under construction. */
  lemma AppendWhole(p: seq<bit>, v: sextet)
    requires |p| == 0 || |p| == 2
    ensures Octet(p + SextetBits(v)) == if |p| == 0 then v as int * 4 else Octet(p) + v
  {
    Halves(v);
  }

  lemma AppendTwo(p: seq<bit>, v: sextet)
    requires |p| == 6
    ensures Octet(p + SextetBits(v)[..2]) == Octet(p) + v / 16
    ensures Octet(SextetBits(v)[2..]) == v as int * 16 % 256
  {
    Halves(v);
    assert v as int * 16 == 256 * (v / 16) + 16 * (v % 16);
    assert v % 16 == v - v / 16 * 16;
  }

  lemma AppendFour(p: seq<bit>, v: sextet)
    requires |p| == 4
    ensures Octet(p + SextetBits(v)[..4]) == Octet(p) + v / 4
    ensures Octet(SextetBits(v)[4..]) == v as int * 64 % 256
  {
    Halves(v);
    assert v % 4 == v - v / 4 * 4;
    assert v as int * 64 == 256 * (v / 4) + 64 * (v % 4);
  }

  lemma SextetStep(v: seq<sextet>, k: nat)
    requires k < |v|
    ensures AllSextetBits(v[k..]) == SextetBits(v[k]) + AllSextetBits(v[k + 1..])
  {
    assert v[k..][1..] == v[k + 1..];
  }

  /** Bits that complete a byte can be cut off. */
  lemma FullOctet(p: seq<bit>, w: seq<bit>, t: seq<bit>)
    requires |p| < 8 <= |p| + |w|
    ensures Octets(p + (w + t)) == [Octet(p + w[..8 - |p|])] + Octets(w[8 - |p|..] + t)
  {
    var s := p + (w + t);
    assert s[..8] == p + w[..8 - |p|];
    assert s[8..] == w[8 - |p|..] + t;
  }

  /** The decoder after `k` digits: `len` whole bytes are done and `pending` holds the bits of the next one. */
  ghost predicate DecoderState(k: nat, len: nat, shift: int, pending: seq<bit>)
  {
    && shift in {0, 2, 4, 6}
    && |pending| == (if shift == 0 then 0 else 8 - shift)
    && 8 * len + |pending| == 6 * k
  }

  /** One digit completes at most one byte. */
  lemma DigitStep(v: seq<sextet>, k: nat, len: nat, shift: int, p: seq<bit>) returns (p': seq<bit>)
    requires k < |v| && DecoderState(k, len, shift, p)
    ensures Touched(k) == len + (if shift == 0 then 0 else 1)
    ensures shift == 0 ==>
      && DecoderState(k + 1, len, 2, p') && Octet(p') == v[k] as int * 4 && Touched(k + 1) == len + 1
      && p + AllSextetBits(v[k..]) == p' + AllSextetBits(v[k + 1..])
    ensures shift == 6 ==>
      && DecoderState(k + 1, len + 1, 0, p') && Octet(p) + v[k] < 256 && Touched(k + 1) == len + 1
      && Octets(p + AllSextetBits(v[k..])) == [Octet(p) + v[k]] + Octets(p' + AllSextetBits(v[k + 1..]))
    ensures shift == 2 || shift == 4 ==>
      var down := if shift == 2 then v[k] / 16 else v[k] / 4;
      && DecoderState(k + 1, len + 1, shift + 2, p') && Octet(p) + down < 256 && Touched(k + 1) == len + 2
      && Octet(p') == (if shift == 2 then v[k] as int * 16 % 256 else v[k] as int * 64 % 256)
      && Octets(p + AllSextetBits(v[k..])) == [Octet(p) + down] + Octets(p' + AllSextetBits(v[k + 1..]))
  {
    var w, t := SextetBits(v[k]), AllSextetBits(v[k + 1..]);
    SextetStep(v, k);
    if shift == 0 {
      AppendWhole(p, v[k]);
      p' := w;
      assert p + (w + t) == w + t && p + w == w;
    } else {
      p' := w[8 - |p|..];
      FullOctet(p, w, t);
      if shift == 6 {
        AppendWhole(p, v[k]);
        assert w[..6] == w;
      } else if shift == 2 {
        AppendTwo(p, v[k]);
      } else {
        AppendFour(p, v[k]);
      }
    }
  }

  datatype DecodeResult = Length(n: nat) | Invalid | OutOfRoom

  /** What a caller of `decode_base64` sees, compared with the specification. */
  ghost predicate DecodesTo(d: Decoding, r: DecodeResult, out: seq<byte>)
  {
    match d
    case Decoded(bytes) => r == Length(|bytes|) && bytes <= out
    case NotBase64 => r == Invalid
    case NoRoom => r == OutOfRoom
  }

  /** `done` and the bits still to come make up the whole output. */
  ghost predicate Progress(v: seq<sextet>, k: nat, pending: seq<bit>, done: seq<byte>)
  {
    k <= |v| && Octets(AllSextetBits(v)) == done + Octets(pending + AllSextetBits(v[k..]))
  }

  lemma ProgressStep(v: seq<sextet>, k: nat, p: seq<bit>, p': seq<bit>, done: seq<byte>, made: seq<byte>)
    requires Progress(v, k, p, done) && k < |v|
    requires Octets(p + AllSextetBits(v[k..])) == made + Octets(p' + AllSextetBits(v[k + 1..]))
    ensures Progress(v, k + 1, p', done + made)
  {
  }

  lemma ProgressStart(v: seq<sextet>)
    ensures Progress(v, 0, [], [])
  {
    assert v[0..] == v && [] + AllSextetBits(v) == AllSextetBits(v);
  }

  lemma ProgressEnd(v: seq<sextet>, pending: seq<bit>, done: seq<byte>)
    requires Progress(v, |v|, pending, done) && |pending| < 8
    ensures done == Octets(AllSextetBits(v))
  {
    assert v[|v|..] == [] && pending + [] == pending;
  }

  /** One iteration of `decode_base64`: adds a digit to the byte under construction, `out[off + len]`. */
  method PutDigit(ghost v: seq<sextet>, ghost k: nat, c: sextet, out: array<byte>, off: nat, room: nat,
                  len: nat, shift: int, ghost pending: seq<bit>)
    returns (ok: bool, len': nat, shift': int, ghost pending': seq<bit>)
    requires k < |v| && c == v[k] && (off + room <= out.Length || off + Touched(k + 1) <= out.Length)
    requires DecoderState(k, len, shift, pending) && Touched(k) <= room && off + len <= out.Length
    requires shift != 0 ==> off + len < out.Length && out[off + len] == Octet(pending)
    requires Progress(v, k, pending, out[off..off + len])
    modifies out
    ensures ok == (Touched(k + 1) <= room)
    ensures forall i :: 0 <= i < off + len || off + Touched(k + 1) <= i < out.Length ==> out[i] == old(out[i])
    ensures ok ==>
      && DecoderState(k + 1, len', shift', pending') && off + len' <= out.Length
      && (shift' != 0 ==> off + len' < out.Length && out[off + len'] == Octet(pending'))
      && Progress(v, k + 1, pending', out[off..off + len'])
  {
    hide Octets, AllSextetBits, SextetBits, Octet, Touched, Progress;
    pending' := DigitStep(v, k, len, shift, pending);
    len', shift', ok := len, shift, false;
    ghost var done := out[off..off + len];
    if len >= room {
      return;
    }
    if shift == 0 {
      shift' := 2;
      out[off + len] := c as int * 4;
    } else if shift == 6 {
      shift' := 0;
      out[off + len] := out[off + len] + c;
      len' := len + 1;
    } else {
      out[off + len] := out[off + len] + (if shift == 2 then c / 16 else c / 4);
      len' := len + 1;
      if len' >= room {
        return;
      }
      shift' := shift + 2;
      out[off + len'] := c as int * (if shift' == 4 then 16 else 64) % 256;
    }
    ok := true;
    assert out[off..off + len] == done;
    assert out[off..off + len'] == done + out[off + len..off + len'];
    ProgressStep(v, k, pending, pending', done, out[off + len..off + len']);
  }

  /** The loop of `decode_base64`, up to the first character that is not a digit; `v` are the digits' values. */
  method DecodeDigits(s: string, ghost v: seq<sextet>, out: array<byte>, off: nat, room: nat)
    returns (ok: bool, k: nat, len: nat)
    requires off <= out.Length && (off + room <= out.Length || off + Touched(|v|) <= out.Length)
    requires |v| <= |s| && (|v| < |s| ==> !IsDigit(s[|v|]))
    requires forall i :: 0 <= i < |v| ==> IsDigit(s[i]) && Value(s[i]) == v[i]
    modifies out
    ensures ok == (Touched(|v|) <= room)
    ensures ok ==> k == |v| && off + len <= out.Length && out[off..off + len] == Octets(AllSextetBits(v))
    ensures forall i :: 0 <= i < off || off + Touched(|v|) <= i < out.Length ==> out[i] == old(out[i])
  {
    hide Octets, AllSextetBits, Octet, Progress;
    var shift := 0;
    ok, k, len := true, 0, 0;
    ghost var pending: seq<bit> := [];
    ProgressStart(v);
    assert out[off..off + len] == [];
    while k < |s| && IsDigit(s[k])
      invariant k <= |v| && Touched(k) <= room
      invariant DecoderState(k, len, shift, pending) && off + len <= out.Length
      invariant shift != 0 ==> off + len < out.Length && out[off + len] == Octet(pending)
      invariant Progress(v, k, pending, out[off..off + len])
      invariant forall i :: 0 <= i < off || off + Touched(|v|) <= i < out.Length ==> out[i] == old(out[i])
    {
      TouchedMonotone(k + 1, |v|);
      ok, len, shift, pending := PutDigit(v, k, Value(s[k]), out, off, room, len, shift, pending);
      if !ok {
        return;
      }
      k := k + 1;
    }
    ProgressEnd(v, pending, out[off..off + len]);
  }

  /**
   * `decode_base64(s, |s|, out + off, room)`; only the touched bytes of the output change. The room may be larger than
   * the memory as long as the digits do not reach its end.
   */
  method DecodeBase64(s: string, out: array<byte>, off: nat, room: nat) returns (r: DecodeResult)
    requires off <= out.Length && (off + room <= out.Length || off + Touched(DigitRun(s)) <= out.Length)
    modifies out
    ensures DecodesTo(Decode(s, room), r, out[off..])
    ensures forall i :: 0 <= i < off || off + Touched(DigitRun(s)) <= i < out.Length ==> out[i] == old(out[i])
  {
    if s != [] && room == 0 {
      return OutOfRoom;
    }
    var ok, k, len := DecodeDigits(s, Values(s[..DigitRun(s)]), out, off, room);
    if !ok {
      return OutOfRoom;
    }
    if k < |s| && s[k] != PAD {
      return Invalid;
    }
    assert out[off..][..len] == out[off..off + len];
    r := Length(len);
  }

  lemma TouchedMonotone(k: nat, n: nat)
    requires k <= n
    ensures Touched(k) <= Touched(n)
  {
  }

  // ----- Round trips -----

  lemma OctetOfByte(b: byte)
    ensures Octet(ByteBits(b)) == b
  {
    Halves(b);
  }

  lemma {:induction false} OctetsOfBits(x: seq<byte>, t: seq<bit>)
    requires |t| < 8
    ensures Octets(Bits(x) + t) == x
  {
    if x != [] {
      var s := Bits(x) + t;
      assert s[..8] == ByteBits(x[0]) && s[8..] == Bits(x[1..]) + t;
      OctetOfByte(x[0]);
      OctetsOfBits(x[1..], t);
    }
  }

  lemma SextetOfBits(g: seq<bit>)
    requires |g| <= 6
    ensures |g| <= |SextetBits(Sextet(g))| && SextetBits(Sextet(g))[..|g|] == g
  {
    var v := Sextet(g);
    assert v / 16 == 2 * At(g, 0) + At(g, 1);
    assert v / 8 == 4 * At(g, 0) + 2 * At(g, 1) + At(g, 2);
    assert v / 4 == 8 * At(g, 0) + 4 * At(g, 1) + 2 * At(g, 2) + At(g, 3);
    assert v / 2 == 16 * At(g, 0) + 8 * At(g, 1) + 4 * At(g, 2) + 2 * At(g, 3) + At(g, 4);
  }

  /** Cutting into groups loses no bit; fewer than six bits are added. */
  lemma {:induction false} SextetsKeepBits(s: seq<bit>)
    ensures |s| <= |AllSextetBits(Sextets(s))| < |s| + 6
    ensures AllSextetBits(Sextets(s))[..|s|] == s
  {
    hide Sextet, SextetBits;
    if s == [] {
    } else if |s| <= 6 {
      SextetOfBits(s);
      assert AllSextetBits([Sextet(s)]) == SextetBits(Sextet(s)) + AllSextetBits([]);
    } else {
      SextetOfBits(s[..6]);
      SextetsKeepBits(s[6..]);
      assert Sextets(s)[1..] == Sextets(s[6..]);
      assert s == s[..6] + s[6..];
    }
  }

  lemma {:induction false} SextetBitsPrefix(v: seq<sextet>, k: nat)
    requires k <= |v|
    ensures AllSextetBits(v[..k]) == AllSextetBits(v)[..6 * k]
  {
    if k > 0 {
      SextetBitsPrefix(v[1..], k - 1);
      assert v[..k][1..] == v[1..][..k - 1];
    }
  }

  lemma {:induction false} BitsPrefix(x: seq<byte>, k: nat)
    requires k <= |x|
    ensures Bits(x[..k]) == Bits(x)[..8 * k]
  {
    if k > 0 {
      BitsPrefix(x[1..], k - 1);
      assert x[..k][1..] == x[1..][..k - 1];
    }
  }

  lemma {:induction false} DigitsAreDigits(v: seq<sextet>, p: string)
    requires forall i :: 0 <= i < |p| ==> p[i] == PAD
    ensures DigitRun(Digits(v) + p) == |v|
    ensures Values((Digits(v) + p)[..|v|]) == v
  {
    var s := Digits(v) + p;
    var n := DigitRun(s);
    assert forall i :: 0 <= i < |v| ==> s[i] == Digit(v[i]) && IsDigit(s[i]) && Value(s[i]) == v[i];
    assert |v| < |s| ==> s[|v|] == p[0];
  }

  lemma DecodeDigitsOf(v: seq<sextet>, room: nat)
    requires Touched(|v|) <= room
    ensures Decode(Digits(v) + Padding(|v|), room) == Decoded(Octets(AllSextetBits(v)))
  {
    hide Octets, AllSextetBits, DigitRun, Values;
    DigitsAreDigits(v, Padding(|v|));
  }

  /** The decoder undoes the standard encoding of every byte string. */
  lemma StandardRoundTrip(x: seq<byte>, room: nat)
    requires Touched(|Groups(x)|) <= room
    ensures Decode(RfcEncode(x), room) == Decoded(x)
  {
    hide Octets, AllSextetBits, Bits, Sextets, Decode, Digits, Padding;
    var v := Groups(x);
    DecodeDigitsOf(v, room);
    SextetsKeepBits(Bits(x));
    var s := AllSextetBits(v);
    assert s == Bits(x) + s[8 * |x|..];
    OctetsOfBits(x, s[8 * |x|..]);
  }

  /** Whatever room the decoder had, it returns the bytes that were encoded, or nothing. */
  lemma DecodedIsOriginal(x: seq<byte>, room: nat)
    requires Decode(RfcEncode(x), room).Decoded?
    ensures Decode(RfcEncode(x), room).bytes == x
  {
    DigitsAreDigits(Groups(x), Padding(|Groups(x)|));
    StandardRoundTrip(x, room);
  }

  /** What `decode_base64` returns for the output of `encode_base64`: the last byte is lost when its tail bits are zero. */
  lemma EncodeThenDecode(x: seq<byte>, room: nat)
    requires Touched(|Trim(Groups(x))|) <= room
    ensures Decode(Encode(x), room) == Decoded(if TailBitsSet(x) then x else x[..|x| - 1])
  {
    if TailBitsSet(x) {
      EncodeIsStandardIff(x);
      if x != [] {
        LastGroup(x);
      }
      StandardRoundTrip(x, room);
    } else {
      hide Octets, AllSextetBits, Bits, Sextets, Decode, Digits, Padding;
      LastGroup(x);
      var v, n := Groups(x), |x| - 1;
      DecodeDigitsOf(Trim(v), room);
      SextetBitsPrefix(v, |v| - 1);
      SextetsKeepBits(Bits(x));
      BitsPrefix(x, n);
      var s := AllSextetBits(Trim(v));
      assert s == Bits(x)[..|s|];
      assert s == Bits(x[..n]) + s[8 * n..];
      OctetsOfBits(x[..n], s[8 * n..]);
    }
  }

  /** The round trip is exact precisely on the inputs whose tail bits are set. */
  lemma RoundTripIff(x: seq<byte>, room: nat)
    requires Touched(|Trim(Groups(x))|) <= room
    ensures Decode(Encode(x), room) == Decoded(x) <==> TailBitsSet(x)
  {
    EncodeThenDecode(x, room);
  }

  /** A byte string the emulator cannot hand out and take back: the single byte zero. */
  lemma ZeroByteIsLost()
    ensures Decode(Encode([0]), 2) == Decoded([])
    ensures Encode([0]) == "A===" && RfcEncode([0]) == "AA=="
  {
    ShortGroups([0]);
    ShiftsSelectBits([], 0);
    assert Groups([0]) == [0, 0];
    EncodeThenDecode([0], 2);
    assert Padding(1) == "===" && Padding(2) == "==";
  }

  // ----- The standard, told by arithmetic -----

  /** Table 1 of section 4 of RFC 4648: five runs of characters, and `Value` finds the place of a digit in it. */
  lemma StandardAlphabet(v: sextet, c: char)
    ensures Digit(0) == 'A' && Digit(26) == 'a' && Digit(52) == '0' && Digit(62) == '+' && Digit(63) == '/' && PAD == '='
    ensures v !in {25, 51, 61, 62, 63} ==> Digit(v + 1) as int == Digit(v) as int + 1
    ensures IsDigit(Digit(v)) && Value(Digit(v)) == v
    ensures IsDigit(c) ==> Digit(Value(c)) == c
  {
  }

  /** Three bytes are 24 bits, and these are four digits; one or two bytes are filled up with zero bits. */
  function Quads(x: seq<byte>): string
  {
    if x == [] then ""
    else if |x| == 1 then [Digit(x[0] / 4), Digit(x[0] % 4 * 16)] + "=="
    else if |x| == 2 then [Digit(x[0] / 4), Digit(x[0] % 4 * 16 + x[1] / 16), Digit(x[1] % 16 * 4)] + "="
    else [ Digit(x[0] / 4), Digit(x[0] % 4 * 16 + x[1] / 16), Digit(x[1] % 16 * 4 + x[2] / 64), Digit(x[2] % 64) ]
         + Quads(x[3..])
  }

  lemma DigitsAppend(a: seq<sextet>, b: seq<sextet>)
    ensures Digits(a + b) == Digits(a) + Digits(b)
  {
  }

  lemma FirstQuad(x: seq<byte>)
    requires |x| >= 3
    ensures Groups(x) == [ x[0] / 4, x[0] % 4 * 16 + x[1] / 16, x[1] % 16 * 4 + x[2] / 64, x[2] % 64 ] + Groups(x[3..])
  {
    hide Sextet, ByteBits;
    EmptySextet();
    assert x[0..] == x;
    BitsStep(x, 0);
    BitsStep(x, 1);
    BitsStep(x, 2);
    Quantum(ByteBits(x[0]), ByteBits(x[1]), ByteBits(x[2]), Bits(x[3..]));
    assert [] + ByteBits(x[0])[..6] == ByteBits(x[0])[..6];
    ShiftsSelectBits([], x[0]);
    ShiftsSelectBits(ByteBits(x[0])[6..], x[1]);
    ShiftsSelectBits(ByteBits(x[1])[4..], x[2]);
  }

  lemma ShortQuad(x: seq<byte>)
    requires 1 <= |x| <= 2
    ensures Groups(x) == if |x| == 1 then [x[0] / 4, x[0] % 4 * 16]
                         else [x[0] / 4, x[0] % 4 * 16 + x[1] / 16, x[1] % 16 * 4]
  {
    hide Sextet, ByteBits;
    assert x[0..] == x && [] + Bits(x) == Bits(x) && [] + ByteBits(x[0])[..6] == ByteBits(x[0])[..6];
    BitsStep(x, 0);
    PendingStep([], ByteBits(x[0]), Bits(x[1..]));
    ShiftsSelectBits([], x[0]);
    EmptySextet();
    var p := ByteBits(x[0])[6..];
    if |x| == 2 {
      BitsStep(x, 1);
      PendingStep(p, ByteBits(x[1]), []);
      ShiftsSelectBits(p, x[1]);
      assert Bits(x[2..]) == [] && ByteBits(x[1])[4..] + [] == ByteBits(x[1])[4..];
    } else {
      assert p + Bits(x[1..]) == p;
    }
  }

  lemma EmptySextet()
    ensures Sextet([]) == 0
  {
  }

  /** The definition by bit strings is the arithmetic one. */
  lemma {:induction false} StandardByArithmetic(x: seq<byte>)
    ensures RfcEncode(x) == Quads(x)
  {
    hide Groups, Digit;
    if x == [] {
      EncodedSize([]);
    } else if |x| < 3 {
      ShortQuad(x);
      assert Padding(|Groups(x)|) == if |x| == 1 then "==" else "=";
    } else {
      StandardByArithmetic(x[3..]);
      QuadStep(x);
    }
  }

  lemma QuadStep(x: seq<byte>)
    requires |x| >= 3
    ensures RfcEncode(x)
         == [ Digit(x[0] / 4), Digit(x[0] % 4 * 16 + x[1] / 16), Digit(x[1] % 16 * 4 + x[2] / 64), Digit(x[2] % 64) ]
            + RfcEncode(x[3..])
  {
    hide Groups, Digit;
    FirstQuad(x);
    var q: seq<sextet> := [ x[0] / 4, x[0] % 4 * 16 + x[1] / 16, x[1] % 16 * 4 + x[2] / 64, x[2] % 64 ];
    DigitsAppend(q, Groups(x[3..]));
    assert Digits(q) == [ Digit(q[0]), Digit(q[1]), Digit(q[2]), Digit(q[3]) ];
    assert Padding(|Groups(x)|) == Padding(|Groups(x[3..])|);
  }

  /** Behind the digits of a text, a padding character hides the rest, and any other character is refused. */
  lemma BehindDigits(v: seq<sextet>, c: char, rest: string, room: nat)
    requires Touched(|v|) <= room && room > 0 && !IsDigit(c)
    ensures Decode(Digits(v) + [c] + rest, room)
         == if c == '=' then Decoded(Octets(AllSextetBits(v))) else NotBase64
  {
    hide Octets, AllSextetBits, DigitRun, Values;
    RunEnds(v, [c] + rest);
    assert Digits(v) + ([c] + rest) == Digits(v) + [c] + rest;
  }

  lemma RunEnds(v: seq<sextet>, t: string)
    requires t != [] && !IsDigit(t[0])
    ensures DigitRun(Digits(v) + t) == |v| && Values((Digits(v) + t)[..|v|]) == v
  {
    var s := Digits(v) + t;
    var n := DigitRun(s);
    assert forall i :: 0 <= i < |v| ==> s[i] == Digit(v[i]) && IsDigit(s[i]) && Value(s[i]) == v[i];
    assert s[|v|] == t[0];
  }
}
