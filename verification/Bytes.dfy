/** Bytes, big-endian words and the small result types shared by all modules. */
module Bytes {

  type byte = b: int | 0 <= b < 256

  datatype Option<+T> = None | Some(value: T)

  /** The four bytes of a 32-bit word, most significant byte first. */
  function Be32(n: nat): (s: seq<byte>)
    requires n < 0x1_0000_0000
    ensures |s| == 4
  {
    [n / 0x100_0000, n / 0x1_0000 % 0x100, n / 0x100 % 0x100, n % 0x100]
  }

  function FromBe32(s: seq<byte>): (n: nat)
    requires |s| == 4
    ensures n < 0x1_0000_0000
  {
    s[0] as int * 0x100_0000 + s[1] as int * 0x1_0000 + s[2] as int * 0x100 + s[3] as int
  }

  /** Most significant byte first: the last byte counts ones, and the others make up the rest. */
  lemma Be32Shift(n: nat, b: byte)
    requires n < 0x100_0000
    ensures Be32(n * 256 + b) == Be32(n)[1..] + [b] && Be32(n)[0] == 0
  {
    var m: nat := n * 256 + b;
    assert m / 256 == n && m % 256 == b;
    assert m / 0x1_0000 == n / 256 && m / 0x100_0000 == n / 0x1_0000;
    assert Be32(m) == [n / 0x1_0000, n / 256 % 256, n % 256, b];
    assert n / 0x1_0000 % 0x100 == n / 0x1_0000;
  }

  lemma Be32RoundTrip(n: nat)
    requires n < 0x1_0000_0000
    ensures FromBe32(Be32(n)) == n
  {
    var a, b, c := n / 0x100, n / 0x1_0000, n / 0x100_0000;
    assert n == 0x100 * a + n % 0x100 && a == 0x100 * b + a % 0x100 && b == 0x100 * c + b % 0x100;
  }

  /** True when the bit of weight `w` (a power of two) is set in `b`. */
  predicate HasBit(b: byte, w: int)
    requires w > 0
  {
    b / w % 2 == 1
  }

  /** `memcpy(a + off, s, |s|)` on the contents of `a`. */
  function Splice(a: seq<byte>, off: nat, s: seq<byte>): (r: seq<byte>)
    requires off + |s| <= |a|
    ensures |r| == |a|
    ensures r[off..off + |s|] == s
    ensures forall i :: 0 <= i < |a| && !(off <= i < off + |s|) ==> r[i] == a[i]
  {
    a[..off] + s + a[off + |s|..]
  }

  /** The bytes from `off` on are `t`. */
  ghost predicate Holds(b: seq<byte>, off: nat, t: seq<byte>)
  {
    off + |t| <= |b| && b[off..off + |t|] == t
  }

  lemma HoldsConcat(b: seq<byte>, off: nat, s: seq<byte>, t: seq<byte>)
    requires Holds(b, off, s) && Holds(b, off + |s|, t)
    ensures Holds(b, off, s + t)
  {
    assert b[off..off + |s + t|] == b[off..off + |s|] + b[off + |s|..off + |s| + |t|];
  }

  /** Changing other bytes keeps it. */
  lemma HoldsKept(a: seq<byte>, b: seq<byte>, off: nat, t: seq<byte>)
    requires Holds(a, off, t) && |a| == |b|
    requires forall i :: off <= i < off + |t| ==> a[i] == b[i]
    ensures Holds(b, off, t)
  {
  }

  /** A buffer that holds `t` and is otherwise unchanged is the old one with `t` put into it. */
  lemma SpliceHeld(a: seq<byte>, b: seq<byte>, off: nat, t: seq<byte>)
    requires Holds(b, off, t) && |a| == |b|
    requires forall i :: 0 <= i < |a| && !(off <= i < off + |t|) ==> b[i] == a[i]
    ensures b == Splice(a, off, t)
  {
    assert b == b[..off] + b[off..off + |t|] + b[off + |t|..];
  }

  function Zeros(n: nat): (s: seq<byte>)
    ensures |s| == n
    ensures forall i :: 0 <= i < n ==> s[i] == 0
  {
    seq(n, _ => 0)
  }

  /** `memcpy(a + off, s, |s|)`: copies `s` into the array in place. */
  method Copy(a: array<byte>, off: nat, s: seq<byte>)
    requires off + |s| <= a.Length
    modifies a
    ensures a[..] == Splice(old(a[..]), off, s)
  {
    ghost var was := a[..];
    for i := 0 to |s|
      invariant a[off..off + i] == s[..i]
      invariant forall k :: 0 <= k < a.Length && !(off <= k < off + i) ==> a[k] == was[k]
    {
      a[off + i] := s[i];
      assert a[off..off + i + 1] == a[off..off + i] + [s[i]];
    }
    assert a[off..off + |s|] == s;
    assert a[..] == Splice(was, off, s);
  }
}
