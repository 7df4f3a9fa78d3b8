/** Common prefixes of suffixes and their lexicographic order, up to a length limit. */
module Suffixes {
  import opened Bytes

  /** Byte j of the suffix at a. */
  function At(t: seq<byte>, a: nat, j: nat): byte
    requires a + j < |t|
  {
    t[a + j]
  }

  /** How many of the first n bytes at a and b agree before the first difference. */
  function Lcp(t: seq<byte>, a: nat, b: nat, n: nat): (k: nat)
    requires a + n <= |t| && b + n <= |t|
    ensures k <= n
    decreases n, a
  {
    if n == 0 || t[a] != t[b] then 0 else 1 + Lcp(t, a + 1, b + 1, n - 1)
  }

  lemma {:induction false} LcpAgrees(t: seq<byte>, a: nat, b: nat, n: nat)
    requires a + n <= |t| && b + n <= |t|
    ensures forall j :: 0 <= j < Lcp(t, a, b, n) ==> At(t, a, j) == At(t, b, j)
    ensures Lcp(t, a, b, n) < n ==> At(t, a, Lcp(t, a, b, n)) != At(t, b, Lcp(t, a, b, n))
    decreases n
  {
    if n > 0 && t[a] == t[b] {
      LcpAgrees(t, a + 1, b + 1, n - 1);
      forall j | 0 <= j < Lcp(t, a, b, n)
        ensures At(t, a, j) == At(t, b, j)
      {
        if j > 0 {
          assert At(t, a + 1, j - 1) == At(t, b + 1, j - 1);
        }
      }
    }
  }

  /** Bytes that agree are part of the common prefix; the first that do not end it. */
  lemma {:induction false} LcpIs(t: seq<byte>, a: nat, b: nat, n: nat, k: nat)
    requires a + n <= |t| && b + n <= |t| && k <= n
    requires forall j :: 0 <= j < k ==> At(t, a, j) == At(t, b, j)
    ensures Lcp(t, a, b, n) >= k
    ensures k < n && At(t, a, k) != At(t, b, k) ==> Lcp(t, a, b, n) == k
  {
    LcpAgrees(t, a, b, n);
  }

  lemma {:induction false} LcpShorter(t: seq<byte>, a: nat, b: nat, n: nat, m: nat)
    requires a + n <= |t| && b + n <= |t| && m <= n
    ensures Lcp(t, a, b, m) == if Lcp(t, a, b, n) < m then Lcp(t, a, b, n) else m
  {
    LcpAgrees(t, a, b, n);
    var k := Lcp(t, a, b, n);
    LcpIs(t, a, b, m, if k < m then k else m);
  }

  lemma {:induction false} LcpSymmetric(t: seq<byte>, a: nat, b: nat, n: nat)
    requires a + n <= |t| && b + n <= |t|
    ensures Lcp(t, a, b, n) == Lcp(t, b, a, n)
  {
    LcpAgrees(t, a, b, n);
    LcpIs(t, b, a, n, Lcp(t, a, b, n));
  }

  /** The n bytes at a are lexicographically at most those at b. */
  predicate Below(t: seq<byte>, a: nat, b: nat, n: nat)
    requires a + n <= |t| && b + n <= |t|
  {
    var k := Lcp(t, a, b, n);
    k == n || At(t, a, k) < At(t, b, k)
  }

  lemma {:induction false} BelowTotal(t: seq<byte>, a: nat, b: nat, n: nat)
    requires a + n <= |t| && b + n <= |t|
    ensures Below(t, a, b, n) || Below(t, b, a, n)
    ensures Lcp(t, a, b, n) == n ==> Below(t, a, b, n) && Below(t, b, a, n)
  {
    LcpAgrees(t, a, b, n);
    LcpSymmetric(t, a, b, n);
  }

  /** Between a and c lies only what shares with each of them at least what they share. */
  lemma {:induction false} Sandwich(t: seq<byte>, a: nat, b: nat, c: nat, n: nat)
    requires a + n <= |t| && b + n <= |t| && c + n <= |t|
    requires Below(t, a, b, n) && Below(t, b, c, n)
    ensures Lcp(t, a, c, n) <= Lcp(t, b, c, n) && Lcp(t, a, c, n) <= Lcp(t, a, b, n)
  {
    LcpAgrees(t, a, c, n);
    LcpAgrees(t, b, c, n);
    LcpAgrees(t, a, b, n);
  }

  lemma {:induction false} BelowTransitive(t: seq<byte>, a: nat, b: nat, c: nat, n: nat)
    requires a + n <= |t| && b + n <= |t| && c + n <= |t|
    requires Below(t, a, b, n) && Below(t, b, c, n)
    ensures Below(t, a, c, n)
  {
    Sandwich(t, a, b, c, n);
    LcpAgrees(t, a, c, n);
    LcpAgrees(t, b, c, n);
    LcpAgrees(t, a, b, n);
  }

  /** Suffixes ordered on n bytes are ordered on fewer. */
  lemma {:induction false} BelowShorter(t: seq<byte>, a: nat, b: nat, n: nat, m: nat)
    requires a + n <= |t| && b + n <= |t| && m <= n && Below(t, a, b, n)
    ensures Below(t, a, b, m)
  {
    LcpShorter(t, a, b, n, m);
  }

  /** Whatever lies between two suffixes shares with c at least the less of what they share. */
  lemma {:induction false} Between(t: seq<byte>, lo: nat, q: nat, hi: nat, c: nat, n: nat)
    requires lo + n <= |t| && q + n <= |t| && hi + n <= |t| && c + n <= |t|
    requires Below(t, lo, q, n) && Below(t, q, hi, n) && Below(t, lo, c, n) && Below(t, c, hi, n)
    ensures var x, y := Lcp(t, lo, c, n), Lcp(t, hi, c, n);
            Lcp(t, q, c, n) >= if x < y then x else y
  {
    BelowTotal(t, q, c, n);
    if Below(t, q, c, n) {
      Sandwich(t, lo, q, c, n);
    } else {
      Sandwich(t, c, q, hi, n);
      LcpSymmetric(t, c, q, n);
      LcpSymmetric(t, c, hi, n);
    }
  }
}
