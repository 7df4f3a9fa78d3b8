/**
 * Which contexts share a probability. The encoder and the decoder choose their cells by the same
 * functions, so a round trip says nothing about the choice; these laws fix it without naming the
 * formulas, as the format of the stream demands.
 */
module CoderChoice {
  import opened Bytes
  import opened Cells
  import opened RangeSpec
  import opened DecSpec
  import opened Packets

  // ----- high bits of a byte -----

  /** a and b agree in every bit from m up to n. */
  ghost predicate SameBits(a: nat, b: nat, m: nat, n: nat) {
    forall k: nat :: m <= k < n ==> BitAt(a, k) == BitAt(b, k)
  }

  /** One more bit: x >> m is twice x >> (m + 1) plus bit m. */
  lemma {:induction false} ShiftStep(x: nat, m: nat)
    ensures x / Pow2(m) == 2 * (x / Pow2(m + 1)) + BitAt(x, m)
  {
    Halve(x, Pow2(m), x / Pow2(m) / 2, x / Pow2(m) % 2, x % Pow2(m));
  }

  lemma {:induction false} Halve(x: nat, p: nat, h: nat, b: bit, r: nat)
    requires r < p && x == (2 * h + b) * p + r
    ensures x / (2 * p) == h
  {
    assert (2 * h + b) * p == h * (2 * p) + b * p;
    assert b * p <= p;
    DivUnique(x, 2 * p, h, b * p + r);
  }

  /** Numbers below 2^n have the same bits from m on exactly when they agree after a shift by m. */
  lemma {:induction false} HighBits(a: nat, b: nat, m: nat, n: nat)
    requires m <= n && a < Pow2(n) && b < Pow2(n)
    ensures a / Pow2(m) == b / Pow2(m) <==> SameBits(a, b, m, n)
    decreases n - m
  {
    if m == n {
      DivUnique(a, Pow2(n), 0, a);
      DivUnique(b, Pow2(n), 0, b);
    } else {
      hide Pow2, BitAt;
      HighBits(a, b, m + 1, n);
      ShiftStep(a, m);
      ShiftStep(b, m);
      assert SameBits(a, b, m, n) <==> SameBits(a, b, m + 1, n) && BitAt(a, m) == BitAt(b, m);
    }
  }

  lemma {:induction false} RowColumn(x: nat, u: nat, y: nat, v: nat, w: nat)
    requires u < w && v < w
    ensures x * w + u == y * w + v <==> x == y && u == v
  {
    DivUnique(x * w + u, w, x, u);
    DivUnique(y * w + v, w, y, v);
  }

  // ----- literals -----

  /** The first cell of the coder in row x and column u of a table of width w. */
  ghost function Place(x: int, u: int, w: int): int {
    768 * (x * w + u)
  }

  lemma {:induction false} Places(x: nat, u: nat, y: nat, v: nat, w: nat)
    requires u < w && v < w
    ensures Place(x, u, w) == Place(y, v, w) <==> x == y && u == v
    ensures Place(x, u, w) != Place(y, v, w) ==>
              Place(x, u, w) + 768 <= Place(y, v, w) || Place(y, v, w) + 768 <= Place(x, u, w)
  {
    RowColumn(x, u, y, v, w);
  }

  /** The high bits of the byte choose the column. */
  ghost function Column(lc: nat, a: byte): int
    requires lc <= 8
  {
    a / Pow2(8 - lc)
  }

  lemma {:induction false} ColumnBits(lc: nat, a: byte, b: byte)
    requires lc <= 8
    ensures 0 <= Column(lc, a) < Pow2(lc) && 0 <= Column(lc, b) < Pow2(lc)
    ensures Column(lc, a) == Column(lc, b) <==> SameBits(a, b, 8 - lc, 8)
  {
    hide BitAt, SameBits, Pow2;
    Pow2Of8();
    Pow2Add(8 - lc, lc);
    QuotientBelow(a, Pow2(8 - lc), Pow2(lc));
    QuotientBelow(b, Pow2(8 - lc), Pow2(lc));
    HighBits(a, b, 8 - lc, 8);
  }

  lemma {:induction false} QuotientBelow(a: nat, p: nat, w: nat)
    requires 0 < p && a < p * w
    ensures 0 <= a / p < w
  {
    if a / p >= w {
      MulMono(w, a / p, p);
    }
  }

  lemma {:induction false} LitPlace(pr: Props, p: nat, a: byte)
    requires ValidProps(pr)
    ensures LitProbs(pr, p, a) == Place(p % Pow2(pr.lp), Column(pr.lc, a), Pow2(pr.lc))
  {
  }

  ghost predicate SameLiteralContext(pr: Props, p: nat, a: byte, q: nat, b: byte)
    requires ValidProps(pr)
  {
    p % Pow2(pr.lp) == q % Pow2(pr.lp) && SameBits(a, b, 8 - pr.lc, 8)
  }

  /** Literals share a coder exactly when their positions agree in the lp low bits and the bytes
      before them in the lc high bits; different coders do not overlap. */
  lemma {:induction false} LiteralSharing(pr: Props, p: nat, a: byte, q: nat, b: byte)
    requires ValidProps(pr)
    ensures LitProbs(pr, p, a) == LitProbs(pr, q, b) <==> SameLiteralContext(pr, p, a, q, b)
    ensures LitProbs(pr, p, a) != LitProbs(pr, q, b) ==>
              LitProbs(pr, p, a) + 768 <= LitProbs(pr, q, b) || LitProbs(pr, q, b) + 768 <= LitProbs(pr, p, a)
  {
    hide Pow2, LitProbs, Place, Column, SameBits;
    LitPlace(pr, p, a);
    LitPlace(pr, q, b);
    ColumnBits(pr.lc, a, b);
    Places(p % Pow2(pr.lp), Column(pr.lc, a), q % Pow2(pr.lp), Column(pr.lc, b), Pow2(pr.lc));
  }

  /** The same for what follows two texts. */
  lemma {:induction false} LiteralSharingAfter(pr: Props, s: seq<byte>, t: seq<byte>)
    requires ValidProps(pr) && s != [] && t != []
    ensures LitBase(pr, s) == LitBase(pr, t) <==>
              SameLiteralContext(pr, |s|, s[|s| - 1], |t|, t[|t| - 1])
  {
    LiteralSharing(pr, |s|, s[|s| - 1], |t|, t[|t| - 1]);
  }

  lemma {:induction false} FirstPlace(pr: Props)
    requires ValidProps(pr)
    ensures LitProbs(pr, 0, 0) == 0
  {
    hide Pow2, LitProbs;
    LitPlace(pr, 0, 0);
    DivUnique(0, Pow2(pr.lp), 0, 0);
    DivUnique(0, Pow2(8 - pr.lc), 0, 0);
  }

  /** A first literal is coded as one at a multiple of 2^lp after a byte without high bits. */
  lemma {:induction false} FirstLiteral(pr: Props, t: seq<byte>)
    requires ValidProps(pr) && t != []
    ensures LitBase(pr, []) == LitBase(pr, t) <==> SameLiteralContext(pr, 0, 0, |t|, t[|t| - 1])
  {
    hide LitProbs, SameLiteralContext;
    LiteralSharing(pr, 0, 0, |t|, t[|t| - 1]);
    FirstPlace(pr);
  }

  // ----- positions, lengths, probabilities -----

  /** The low n bits of a number are what it leaves modulo 2^n. */
  lemma {:induction false} LowBits(p: nat, q: nat, n: nat)
    ensures p % Pow2(n) == q % Pow2(n) <==> SameBits(p, q, 0, n)
  {
    if n == 0 {
      assert p % 1 == q % 1;
    } else {
      hide Pow2, BitAt;
      LowBits(p, q, n - 1);
      ModSplit(p, n);
      ModSplit(q, n);
      RowColumn(BitAt(p, n - 1), p % Pow2(n - 1), BitAt(q, n - 1), q % Pow2(n - 1), Pow2(n - 1));
      assert SameBits(p, q, 0, n) <==> SameBits(p, q, 0, n - 1) && BitAt(p, n - 1) == BitAt(q, n - 1);
    }
  }

  /** Packets share the cells that depend on the position exactly when their positions agree in
      the pb low bits. */
  lemma {:induction false} PositionSharing(pr: Props, p: nat, q: nat)
    ensures PosState(pr, p) == PosState(pr, q) <==> SameBits(p, q, 0, pr.pb)
  {
    LowBits(p, q, pr.pb);
  }

  /** Matches share their slot tree exactly when they are equally long or both longer than 4. */
  lemma {:induction false} LengthSharing(len: nat, k: nat)
    requires LEN_MIN <= len && LEN_MIN <= k
    ensures LenState(len) == LenState(k) <==> len == k || (len > 4 && k > 4)
  {
  }

  /** Both bits are treated alike: exchanging their parts mirrors the probability. Every 0 raises it
      and every 1 lowers it until the limits 2017 and 31 are reached. */
  lemma {:induction false} Adaptation(p: Prob)
    ensures Adapt(2048 - p, 0) == 2048 - Adapt(p, 1)
    ensures Adapt(p, 0) >= p && (Adapt(p, 0) == p <==> p == 2017)
    ensures Adapt(p, 1) <= p && (Adapt(p, 1) == p <==> p == 31)
  {
  }

  /** The range is divided in proportion to the probability of 0: the parts of p and of its mirror
      make up the range but for the remainder, and more probability is more range. */
  lemma {:induction false} Division(r: word, p: Prob, q: Prob)
    requires TOP <= r
    ensures Bound(r, p) + Bound(r, 2048 - p) == r - r % 2048
    ensures Bound(r, p) < Bound(r, q) <==> p < q
  {
    var k := r / 2048;
    assert k * p + k * (2048 - p) == k * 2048;
    if p < q {
      assert k * q - k * p == k * (q - p) > 0;
    } else {
      assert k * p - k * q == k * (p - q) >= 0;
    }
  }
}
