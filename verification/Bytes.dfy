/** Bytes, 32-bit words and big-endian values of byte strings. */
module Bytes {

  type byte = x: int | 0 <= x < 256

  /** One coded binary decision. */
  type bit = x: int | 0 <= x < 2

  const WORD := 0x1_0000_0000

  type word = x: int | 0 <= x < WORD

  datatype Option<+T> = None | Some(value: T)

  /** Truncation to an unsigned 32-bit word. */
  function U32(x: int): word {
    x % WORD
  }

  function Pow2(n: nat): (p: nat)
    ensures p >= 1
  {
    if n == 0 then 1 else 2 * Pow2(n - 1)
  }

  /** Bit k of a number: (x >> k) & 1. */
  function BitAt(x: nat, k: nat): bit {
    x / Pow2(k) % 2
  }

  lemma {:induction false} Pow2Add(a: nat, b: nat)
    ensures Pow2(a + b) == Pow2(a) * Pow2(b)
  {
    if a > 0 {
      Pow2Add(a - 1, b);
    }
  }

  lemma {:induction false} Pow2Table()
    ensures Pow2(0) == 1 && Pow2(1) == 2 && Pow2(2) == 4 && Pow2(3) == 8 && Pow2(4) == 16
    ensures Pow2(5) == 32 && Pow2(6) == 64 && Pow2(7) == 128 && Pow2(8) == 256
    ensures Pow2(11) == 0x800 && Pow2(12) == 0x1000 && Pow2(13) == 0x2000
    ensures Pow2(18) == 0x4_0000 && Pow2(19) == 0x8_0000 && Pow2(31) == 0x8000_0000 && Pow2(32) == WORD
    ensures Pow2(30) == 0x4000_0000 && Pow2(26) == 0x400_0000
  {
    Pow2Add(8, 3);
    Pow2Add(8, 5);
    Pow2Add(13, 13);
    Pow2Add(13, 5);
    Pow2Add(26, 4);
    assert Pow2(12) == 2 * Pow2(11) && Pow2(19) == 2 * Pow2(18);
    assert Pow2(31) == 2 * Pow2(30) && Pow2(32) == 2 * Pow2(31);
  }

  lemma {:induction false} Pow2Small()
    ensures Pow2(0) == 1 && Pow2(3) == 8 && Pow2(4) == 16 && Pow2(6) == 64 && Pow2(8) == 256
  {
  }

  lemma {:induction false} DivUnique(a: nat, d: nat, q: nat, r: nat)
    requires d > 0 && a == q * d + r && r < d
    ensures a / d == q && a % d == r
  {
    var e := a / d - q;
    assert e * d == r - a % d by {
      assert (a / d - q) * d == a / d * d - q * d;
    }
    assert e * d < d && e * d + d > 0;
    assert e == 0;
  }

  lemma {:induction false} Pow2Monotone(a: nat, b: nat)
    requires a <= b
    ensures Pow2(a) <= Pow2(b)
  {
    if a < b {
      Pow2Monotone(a, b - 1);
    }
  }

  /** The number that a byte string denotes in base 256, first byte most significant. */
  function Val(s: seq<byte>): nat {
    if s == [] then 0 else 256 * Val(s[..|s| - 1]) + s[|s| - 1]
  }

  lemma {:induction false} ValSnoc(s: seq<byte>, b: byte)
    ensures Val(s + [b]) == 256 * Val(s) + b
  {
    assert (s + [b])[..|s|] == s;
  }

  /** Reading one more byte of a fixed input extends the value by one base-256 digit. */
  lemma {:induction false} ValNext(s: seq<byte>, n: nat)
    requires n < |s|
    ensures Val(s[..n + 1]) == 256 * Val(s[..n]) + s[n]
  {
    assert s[..n + 1][..n] == s[..n];
  }

  function Cap(n: nat): (p: nat)
    ensures p >= 1
  {
    if n == 0 then 1 else 256 * Cap(n - 1)
  }

  lemma {:induction false} ValBound(s: seq<byte>)
    ensures Val(s) < Cap(|s|)
  {
    if s != [] {
      ValBound(s[..|s| - 1]);
    }
  }

  /** A byte string whose value fits in one byte less starts with 0. */
  lemma {:induction false} LeadingZero(s: seq<byte>)
    requires s != [] && Val(s) < Cap(|s| - 1)
    ensures s[0] == 0
  {
    if |s| > 1 {
      LeadingZero(s[..|s| - 1]);
    } else {
      assert s[..0] == [];
    }
  }

  function Repeat(b: byte, n: nat): (s: seq<byte>)
    ensures |s| == n && forall i :: 0 <= i < n ==> s[i] == b
  {
    seq(n, i => b)
  }

  lemma {:induction false} RepeatSnoc(b: byte, n: nat)
    ensures Repeat(b, n + 1) == Repeat(b, n) + [b]
  {
  }

  /** Adding a carry to a run of 0xFF bytes turns them into zeros and bumps the byte before. */
  lemma {:induction false} CarryRun(s: seq<byte>, c: byte, n: nat)
    requires c < 255
    ensures Val(s + [c] + Repeat(0xFF, n)) + 1 == Val(s + [c + 1] + Repeat(0, n))
  {
    if n == 0 {
      ValSnoc(s, c);
      ValSnoc(s, c + 1);
      assert s + [c] + Repeat(0xFF, 0) == s + [c];
      assert s + [c + 1] + Repeat(0, 0) == s + [c + 1];
    } else {
      CarryRun(s, c, n - 1);
      RepeatSnoc(0xFF, n - 1);
      RepeatSnoc(0, n - 1);
      assert s + [c] + Repeat(0xFF, n) == (s + [c] + Repeat(0xFF, n - 1)) + [0xFF];
      assert s + [c + 1] + Repeat(0, n) == (s + [c + 1] + Repeat(0, n - 1)) + [0];
      ValSnoc(s + [c] + Repeat(0xFF, n - 1), 0xFF);
      ValSnoc(s + [c + 1] + Repeat(0, n - 1), 0);
    }
  }
}
