/**
 * LZMA_REQUIRED_INPUT_MAX: no packet takes more than 20 bytes of input. The measure is the range:
 * an adaptive bit divides it by at most 67, a direct bit by at most 2.001, a byte read multiplies
 * it by 256, and it always stays below 2^32.
 */
module InputBound {
  import opened Bytes
  import opened Cells
  import opened RangeSpec
  import opened Slots
  import opened Packets
  import opened DecSpec
  import opened Stream
  import opened Locality

  const REQUIRED_INPUT_MAX := 20

  function Power(x: real, n: nat): (p: real)
    requires x >= 1.0
    ensures p >= 1.0
  {
    if n == 0 then 1.0 else (MulReal(x, Power(x, n - 1)); x * Power(x, n - 1))
  }

  lemma {:induction false} MulReal(x: real, y: real)
    requires x >= 1.0 && y >= 1.0
    ensures x * y >= x && x * y >= y
  {
    assert (x - 1.0) * y >= 0.0;
    assert x * (y - 1.0) >= 0.0;
  }

  lemma {:induction false} MulLe(a: real, b: real, k: real)
    requires a <= b && k >= 0.0
    ensures a * k <= b * k
  {
    assert (b - a) * k >= 0.0;
  }

  lemma {:induction false} AssocReal(a: real, b: real, c: real)
    ensures a * (b * c) == (a * b) * c
  {
  }

  lemma {:induction false} PowerAdd(x: real, m: nat, n: nat)
    requires x >= 1.0
    ensures Power(x, m + n) == Power(x, m) * Power(x, n)
    decreases m
  {
    if m > 0 {
      PowerAdd(x, m - 1, n);
      AssocReal(x, Power(x, m - 1), Power(x, n));
    }
  }

  /** What a adaptive and d direct bits can cost. */
  function Cost(a: nat, d: nat): (c: real)
    ensures c >= 1.0
  {
    MulReal(Power(67.0, a), Power(2.001, d));
    Power(67.0, a) * Power(2.001, d)
  }

  lemma {:induction false} CostAdd(a: nat, d: nat, a2: nat, d2: nat)
    ensures Cost(a + a2, d + d2) == Cost(a, d) * Cost(a2, d2)
  {
    hide Power;
    PowerAdd(67.0, a, a2);
    PowerAdd(2.001, d, d2);
    Interchange(Power(67.0, a), Power(67.0, a2), Power(2.001, d), Power(2.001, d2));
  }

  lemma {:induction false} Interchange(p: real, q: real, r: real, s: real)
    ensures (p * q) * (r * s) == (p * r) * (q * s)
  {
    assert (p * q) * (r * s) == p * (q * (r * s));
    assert q * (r * s) == r * (q * s);
    assert p * (r * (q * s)) == (p * r) * (q * s);
  }

  /** From s to t the decoder took at most a adaptive and d direct bits. */
  ghost predicate Within(s: Src, t: Src, a: nat, d: nat) {
    s.pos <= t.pos && s.range as real * Cap(t.pos - s.pos) as real <= t.range as real * Cost(a, d)
  }

  lemma {:induction false} CapAdd(m: nat, n: nat)
    ensures Cap(m + n) == Cap(m) * Cap(n)
    decreases m
  {
    if m > 0 {
      CapAdd(m - 1, n);
      assert Cap(m + n) == 256 * (Cap(m - 1) * Cap(n)) == (256 * Cap(m - 1)) * Cap(n);
    }
  }

  lemma {:induction false} Compose(s: Src, t: Src, u: Src, a: nat, d: nat, a2: nat, d2: nat)
    requires Within(s, t, a, d) && Within(t, u, a2, d2)
    ensures Within(s, u, a + a2, d + d2)
  {
    hide Cap, Cost, Power;
    var m, n := t.pos - s.pos, u.pos - t.pos;
    CapAdd(m, n);
    CostAdd(a, d, a2, d2);
    var sr, tr, ur := s.range as real, t.range as real, u.range as real;
    var cm, cn, w, w2 := Cap(m) as real, Cap(n) as real, Cost(a, d), Cost(a2, d2);
    assert Cap(u.pos - s.pos) as real == cm * cn;
    ChainLe(sr, cm, tr, w, cn, ur, w2);
  }

  lemma {:induction false} ChainLe(sr: real, cm: real, tr: real, w: real, cn: real, ur: real, w2: real)
    requires sr * cm <= tr * w && tr * cn <= ur * w2 && cn >= 0.0 && w >= 0.0
    ensures sr * (cm * cn) <= ur * (w * w2)
  {
    MulLe(sr * cm, tr * w, cn);
    MulLe(tr * cn, ur * w2, w);
    assert sr * (cm * cn) == sr * cm * cn;
    assert tr * w * cn == tr * cn * w;
    assert ur * w2 * w == ur * (w * w2);
  }

  lemma {:induction false} NoCost(s: Src)
    ensures Within(s, s, 0, 0)
  {
  }

  lemma {:induction false} NormCost(inp: seq<byte>, s: Src)
    requires Norm(inp, s).Got?
    ensures Within(s, Norm(inp, s).src, 0, 0)
  {
    assert Cap(1) == 256;
  }

  lemma {:induction false} CostOne()
    ensures Cost(1, 0) == 67.0 && Cost(0, 1) == 2.001
  {
    assert Power(67.0, 1) == 67.0 * Power(67.0, 0);
    assert Power(2.001, 1) == 2.001 * Power(2.001, 0);
  }

  lemma {:induction false} BitCost(inp: seq<byte>, s: Src, c: Cell)
    requires DecBit(inp, s, c).Got?
    ensures Within(s, DecBit(inp, s, c).src, 1, 0)
  {
    hide Cost, Power, Adapt, Index;
    CostOne();
    NormCost(inp, s);
    var n := Norm(inp, s).src;
    var r := DecBit(inp, s, c).src;
    assert n.range <= 67 * r.range by { RangePart(inp, s, c); }
    assert Within(n, r, 1, 0) by { assert Cap(0) == 1; }
    Compose(s, n, r, 0, 0, 1, 0);
  }

  lemma {:induction false} RangePart(inp: seq<byte>, s: Src, c: Cell)
    requires DecBit(inp, s, c).Got?
    ensures Norm(inp, s).Got? && Norm(inp, s).src.range <= 67 * DecBit(inp, s, c).src.range
    ensures DecBit(inp, s, c).src.pos == Norm(inp, s).src.pos
  {
    hide Adapt, Index;
    var r: int := Norm(inp, s).src.range;
    var q := r / 2048;
    assert r <= 2048 * q + 2047 && q >= 8192;
  }

  lemma {:induction false} DirectCost(inp: seq<byte>, s: Src)
    requires DecDirect(inp, s).Got?
    ensures Within(s, DecDirect(inp, s).src, 0, 1)
  {
    hide Cost, Power, Halve;
    CostOne();
    NormCost(inp, s);
    var n := Norm(inp, s).src;
    var r := DecDirect(inp, s).src;
    assert n.range <= 2 * r.range + 1 && r.range >= 1000;
    assert Within(n, r, 0, 1) by { assert Cap(0) == 1; }
    Compose(s, n, r, 0, 0, 0, 1);
  }

  lemma {:induction false} TreeCost(inp: seq<byte>, s: Src, t: Tree, limit: nat, i: nat, n: nat)
    requires 1 <= i < limit && n > 0 && Level(i, n, limit) && DecTree(inp, s, t, limit, i).Got?
    ensures Within(s, DecTree(inp, s, t, limit, i).src, n, 0)
    decreases n
  {
    hide DecBit, Node, Within, Level;
    BitCost(inp, s, Node(t, i));
    var r := DecBit(inp, s, Node(t, i));
    var j := 2 * i + r.value;
    LevelStep(i, n, limit, r.value);
    if j < limit {
      LevelEnd(j, n - 1, limit);
      TreeCost(inp, r.src, t, limit, j, n - 1);
      Compose(s, r.src, DecTree(inp, r.src, t, limit, j).src, 1, 0, n - 1, 0);
    } else {
      MoreCost(s, r.src, 1, 0, n);
    }
  }

  lemma {:induction false} LevelEnd(j: nat, n: nat, limit: nat)
    requires Level(j, n, limit) && j < limit
    ensures n > 0
  {
  }

  lemma {:induction false} MoreCost(s: Src, t: Src, a: nat, d: nat, a2: nat)
    requires Within(s, t, a, d) && a <= a2
    ensures Within(s, t, a2, d)
  {
    hide Cap, Cost, Power;
    CostAdd(a, d, a2 - a, 0);
    var w, w2 := Cost(a, d), Cost(a2 - a, 0);
    MulReal(w, w2);
    MulLe(w, w * w2, t.range as real);
    assert t.range as real * w == w * (t.range as real);
  }

  lemma {:induction false} ReverseCost(inp: seq<byte>, s: Src, t: Tree, n: nat, i: nat, mask: nat, acc: nat)
    requires DecReverse(inp, s, t, n, i, mask, acc).Got?
    ensures Within(s, DecReverse(inp, s, t, n, i, mask, acc).src, n, 0)
    decreases n
  {
    hide DecBit, Node, Within;
    if n == 0 {
      NoCost(s);
    } else {
      BitCost(inp, s, Node(t, i));
      var r := DecBit(inp, s, Node(t, i));
      var acc1 := if r.value == 1 then acc + mask else acc;
      ReverseCost(inp, r.src, t, n - 1, 2 * i + r.value, 2 * mask, acc1);
      Compose(s, r.src, DecReverse(inp, s, t, n, i, mask, acc).src, 1, 0, n - 1, 0);
    }
  }

  lemma {:induction false} DirectBitsCost(inp: seq<byte>, s: Src, n: nat, acc: nat)
    requires DecDirectBits(inp, s, n, acc).Got?
    ensures Within(s, DecDirectBits(inp, s, n, acc).src, 0, n)
    decreases n
  {
    hide DecDirect, Within;
    if n == 0 {
      NoCost(s);
    } else {
      DirectCost(inp, s);
      var r := DecDirect(inp, s);
      DirectBitsCost(inp, r.src, n - 1, 2 * acc + r.value);
      Compose(s, r.src, DecDirectBits(inp, s, n, acc).src, 0, 1, 0, n - 1);
    }
  }

  lemma {:induction false} MatchedCost(inp: seq<byte>, s: Src, base: nat, sym: nat, x: nat, offs: nat, n: nat)
    requires 1 <= sym < 0x100 && (offs == 0 || offs == 0x100) && n > 0 && Level(sym, n, 0x100)
    requires DecMatched(inp, s, base, sym, x, offs).Got?
    ensures Within(s, DecMatched(inp, s, base, sym, x, offs).src, n, 0)
    decreases n
  {
    hide DecBit, AndOffs, NextOffs, Within, Level;
    var mbit := AndOffs(2 * x, offs);
    AndOffsRange(2 * x, offs);
    var c := Lit(base + (offs + mbit + sym));
    BitCost(inp, s, c);
    var r := DecBit(inp, s, c);
    var j := 2 * sym + r.value;
    LevelStep(sym, n, 0x100, r.value);
    if j < 0x100 {
      LevelEnd(j, n - 1, 0x100);
      MatchedCost(inp, r.src, base, j, 2 * x, NextOffs(offs, mbit, r.value), n - 1);
      Compose(s, r.src, DecMatched(inp, s, base, sym, x, offs).src, 1, 0, n - 1, 0);
    } else {
      MoreCost(s, r.src, 1, 0, n);
    }
  }

  lemma {:induction false} RootLevels()
    ensures Level(1, 3, 8) && Level(1, 6, 64) && Level(1, 8, 0x100)
  {
    Pow2Small();
  }

  lemma {:induction false} LenCost(inp: seq<byte>, s: Src, rep: bool, ps: nat)
    requires DecLen(inp, s, rep, ps).Got?
    ensures Within(s, DecLen(inp, s, rep, ps).src, 10, 0)
  {
    hide DecBit, DecTree, Within, Level;
    RootLevels();
    var e := DecLen(inp, s, rep, ps).src;
    BitCost(inp, s, Choice(rep));
    var r := DecBit(inp, s, Choice(rep));
    if r.value == 0 {
      TreeCost(inp, r.src, LowTree(rep, ps), 8, 1, 3);
      Compose(s, r.src, e, 1, 0, 3, 0);
      MoreCost(s, e, 4, 0, 10);
    } else {
      BitCost(inp, r.src, Choice2(rep));
      var r2 := DecBit(inp, r.src, Choice2(rep));
      Compose(s, r.src, r2.src, 1, 0, 1, 0);
      if r2.value == 0 {
        TreeCost(inp, r2.src, MidTree(rep, ps), 8, 1, 3);
        Compose(s, r2.src, e, 2, 0, 3, 0);
        MoreCost(s, e, 5, 0, 10);
      } else {
        TreeCost(inp, r2.src, HighTree(rep), 256, 1, 8);
        Compose(s, r2.src, e, 2, 0, 8, 0);
      }
    }
  }

  /** At most 5 adaptive bits, or 4 and at most 26 direct bits. */
  lemma {:induction false} FooterCost(inp: seq<byte>, s: Src, slot: nat)
    requires START_POS_MODEL <= slot < 64 && DecFooter(inp, s, slot).Got?
    ensures Within(s, DecFooter(inp, s, slot).src, 5, 0) || Within(s, DecFooter(inp, s, slot).src, 4, 26)
  {
    hide DecReverse, DecDirectBits, Within, SlotBase;
    var n := FooterBits(slot);
    var e := DecFooter(inp, s, slot).src;
    if slot < END_POS_MODEL {
      ReverseCost(inp, s, SpecTree(SlotBase(slot) - slot - 1), n, 1, 1, SlotBase(slot));
      MoreCost(s, e, n, 0, 5);
    } else {
      var r := DecDirectBits(inp, s, n - 4, 2 + slot % 2);
      DirectBitsCost(inp, s, n - 4, 2 + slot % 2);
      ReverseCost(inp, r.src, AlignTree, 4, 1, 1, r.value * 16);
      Compose(s, r.src, e, 0, n - 4, 4, 0);
      MoreDirect(s, e, 4, n - 4, 26);
    }
  }

  lemma {:induction false} MoreDirect(s: Src, t: Src, a: nat, d: nat, d2: nat)
    requires Within(s, t, a, d) && d <= d2
    ensures Within(s, t, a, d2)
  {
    hide Cap, Cost, Power;
    CostAdd(a, d, 0, d2 - d);
    var w, w2 := Cost(a, d), Cost(0, d2 - d);
    MulReal(w, w2);
    MulLe(w, w * w2, t.range as real);
    assert t.range as real * w == w * (t.range as real);
  }

  lemma {:induction false} DistCost(inp: seq<byte>, s: Src, lenSym: nat)
    requires DecDist(inp, s, lenSym).Got?
    ensures Within(s, DecDist(inp, s, lenSym).src, 11, 0) || Within(s, DecDist(inp, s, lenSym).src, 10, 26)
  {
    hide DecTree, DecFooter, Within, Level;
    RootLevels();
    var t := PosSlotTree(if lenSym < 4 then lenSym else 3);
    var r := DecTree(inp, s, t, 64, 1);
    var e := DecDist(inp, s, lenSym).src;
    TreeCost(inp, s, t, 64, 1, 6);
    if r.value - 64 < START_POS_MODEL {
      MoreCost(s, e, 6, 0, 11);
    } else {
      FooterCost(inp, r.src, r.value - 64);
      if Within(r.src, e, 5, 0) {
        Compose(s, r.src, e, 6, 0, 5, 0);
      } else {
        Compose(s, r.src, e, 6, 0, 4, 26);
      }
    }
  }

  lemma {:induction false} LiteralCost(inp: seq<byte>, s: Src, pr: Props, v: View)
    requires ValidProps(pr) && ViewOk(v) && DecLiteral(inp, s, pr, v).Got?
    ensures Within(s, DecLiteral(inp, s, pr, v).src, 8, 0)
  {
    hide DecTree, DecMatched, LitBase, Within, Level;
    RootLevels();
    var base := LitBase(pr, v.hist);
    if v.state < NUM_LIT_STATES {
      TreeCost(inp, s, LitTree(base), 0x100, 1, 8);
    } else {
      MatchedCost(inp, s, base, 1, v.hist[|v.hist| - v.reps[0]], 0x100, 8);
    }
  }

  lemma {:induction false} RepIndexCost(inp: seq<byte>, s: Src, st: nat, ps: nat)
    requires DecRepIndex(inp, s, st, ps).Got?
    ensures Within(s, DecRepIndex(inp, s, st, ps).src, 3, 0)
  {
    hide DecBit, Within;
    var e := DecRepIndex(inp, s, st, ps).src;
    var r := DecBit(inp, s, IsRepG0(st));
    BitCost(inp, s, IsRepG0(st));
    if r.value == 0 {
      BitCost(inp, r.src, IsRep0Long(st, ps));
      Compose(s, r.src, e, 1, 0, 1, 0);
      MoreCost(s, e, 2, 0, 3);
    } else {
      var r2 := DecBit(inp, r.src, IsRepG1(st));
      BitCost(inp, r.src, IsRepG1(st));
      Compose(s, r.src, r2.src, 1, 0, 1, 0);
      if r2.value == 0 {
        MoreCost(s, e, 2, 0, 3);
      } else {
        BitCost(inp, r2.src, IsRepG2(st));
        Compose(s, r2.src, e, 2, 0, 1, 0);
      }
    }
  }

  /** The longest packets: 23 adaptive bits, or 22 adaptive and 26 direct bits. */
  ghost predicate AtMostOnePacket(s: Src, t: Src) {
    Within(s, t, 23, 0) || Within(s, t, 22, 26)
  }

  lemma {:induction false} PacketCost(inp: seq<byte>, s: Src, pr: Props, v: View)
    requires ValidProps(pr) && ViewOk(v) && DecPacket(inp, s, pr, v).Got?
    ensures AtMostOnePacket(s, DecPacket(inp, s, pr, v).src)
  {
    hide DecBit, DecLiteral, DecLen, DecDist, DecRepIndex, Within, PosState, ViewOk;
    var ps := PosState(pr, |v.hist|);
    var e := DecPacket(inp, s, pr, v).src;
    var r := DecBit(inp, s, IsMatch(v.state, ps));
    BitCost(inp, s, IsMatch(v.state, ps));
    if r.value == 0 {
      LiteralCost(inp, r.src, pr, v);
      Compose(s, r.src, e, 1, 0, 8, 0);
      MoreCost(s, e, 9, 0, 23);
    } else {
      var r2 := DecBit(inp, r.src, IsRep(v.state));
      BitCost(inp, r.src, IsRep(v.state));
      Compose(s, r.src, r2.src, 1, 0, 1, 0);
      if r2.value == 0 {
        var l := DecLen(inp, r2.src, false, ps);
        LenCost(inp, r2.src, false, ps);
        Compose(s, r2.src, l.src, 2, 0, 10, 0);
        DistCost(inp, l.src, l.value);
        if Within(l.src, e, 11, 0) {
          Compose(s, l.src, e, 12, 0, 11, 0);
        } else {
          Compose(s, l.src, e, 12, 0, 10, 26);
        }
      } else {
        var i := DecRepIndex(inp, r2.src, v.state, ps);
        RepIndexCost(inp, r2.src, v.state, ps);
        Compose(s, r2.src, i.src, 2, 0, 3, 0);
        if i.value == -1 {
          MoreCost(s, e, 5, 0, 23);
        } else {
          LenCost(inp, i.src, true, ps);
          Compose(s, i.src, e, 5, 0, 10, 0);
          MoreCost(s, e, 15, 0, 23);
        }
      }
    }
  }

  lemma {:induction false} Powers67()
    ensures Power(67.0, 22) <= 14.92e39
    ensures Power(67.0, 23) <= 1000.0e39
  {
    PowerAdd(67.0, 1, 1);
    PowerAdd(67.0, 2, 2);
    PowerAdd(67.0, 4, 4);
    PowerAdd(67.0, 8, 8);
    PowerAdd(67.0, 16, 4);
    PowerAdd(67.0, 20, 2);
    PowerAdd(67.0, 22, 1);
    assert Power(67.0, 1) == 67.0;
    assert Power(67.0, 2) == 4489.0;
    assert Power(67.0, 4) == 20151121.0;
    assert Power(67.0, 8) == 406067677556641.0;
  }

  lemma {:induction false} Powers2001()
    ensures Power(2.001, 26) <= 68.0e6
  {
    PowerAdd(2.001, 1, 1);
    PowerAdd(2.001, 2, 2);
    PowerAdd(2.001, 4, 4);
    PowerAdd(2.001, 8, 8);
    PowerAdd(2.001, 16, 8);
    PowerAdd(2.001, 24, 2);
    assert Power(2.001, 1) == 2.001;
    assert Power(2.001, 2) == 4.004001;
  }

  lemma {:induction false} CapStrict(m: nat, n: nat)
    requires m <= n
    ensures Cap(m) <= Cap(n)
    decreases n
  {
    if m < n {
      CapStrict(m, n - 1);
    }
  }

  lemma {:induction false} Cap21()
    ensures Cap(21) as real >= 3.74e50
  {
    CapAdd(2, 2);
    CapAdd(4, 4);
    CapAdd(8, 8);
    CapAdd(16, 4);
    CapAdd(20, 1);
    assert Cap(2) == 0x1_0000;
    assert Cap(4) == 0x1_0000_0000;
  }

  lemma {:induction false} CostBound()
    ensures Cost(23, 0) <= 1.02e48 && Cost(22, 26) <= 1.02e48
  {
    hide Power;
    Powers67();
    Powers2001();
    PowerZero();
    var p, q := Power(67.0, 22), Power(2.001, 26);
    MulLe(p, 14.92e39, q);
    MulLe(q, 68.0e6, 14.92e39);
    assert p * q <= 14.92e39 * q;
    assert 14.92e39 * q <= 14.92e39 * 68.0e6;
    assert 14.92e39 * 68.0e6 <= 1.02e48;
    assert Cost(22, 26) == p * q;
  }

  lemma {:induction false} PowerZero()
    ensures Power(2.001, 0) == 1.0
  {
  }

  lemma {:induction false} Squeeze(sr: real, c: real, tr: real, w: real)
    requires sr >= 16777216.0 && c >= 0.0 && sr * c <= tr * w && w <= 1.02e48 && 0.0 <= tr <= 4294967296.0
    ensures c < 3.0e50
  {
    MulLe(16777216.0, sr, c);
    MulLe(w, 1.02e48, tr);
    assert tr * w == w * tr;
    assert 16777216.0 * c <= 1.02e48 * tr;
  }

  /** Counting bytes: a normalized range cannot have grown by 21 of them. */
  lemma {:induction false} AtMost20(s: Src, t: Src)
    requires s.range >= TOP && AtMostOnePacket(s, t)
    ensures t.pos <= s.pos + REQUIRED_INPUT_MAX
  {
    hide Cap, Cost, Power;
    CostBound();
    Cap21();
    var k := t.pos - s.pos;
    var w := if Within(s, t, 23, 0) then Cost(23, 0) else Cost(22, 26);
    Squeeze(s.range as real, Cap(k) as real, t.range as real, w);
    if k >= 21 {
      CapStrict(21, k);
    }
  }

  /** One whole step, its trailing normalization included, takes at most 20 bytes. */
  lemma {:induction false} StepTakesAtMost20(inp: seq<byte>, pr: Props, s: Src, v: View)
    requires ValidProps(pr) && ViewOk(v) && s.range >= TOP
    requires DecPacket(inp, s, pr, v).Got? && Norm(inp, DecPacket(inp, s, pr, v).src).Got?
    ensures Norm(inp, DecPacket(inp, s, pr, v).src).src.pos <= s.pos + REQUIRED_INPUT_MAX
  {
    hide DecPacket, Norm, Within, ViewOk;
    var t := DecPacket(inp, s, pr, v).src;
    var u := Norm(inp, t).src;
    PacketCost(inp, s, pr, v);
    NormCost(inp, t);
    if Within(s, t, 23, 0) {
      Compose(s, t, u, 23, 0, 0, 0);
    } else {
      Compose(s, t, u, 22, 26, 0, 0);
    }
    AtMost20(s, u);
  }

  /** The decoder never runs short on 20 bytes: the fast path of LzmaDec_DecodeToDic needs no
      check of its input while that many are left. */
  lemma {:induction false} TwentyBytesSuffice(inp: seq<byte>, pr: Props, dicSize: nat, d: Dec)
    requires ValidProps(pr) && ViewOk(d.view) && d.src.range >= TOP
    requires d.src.pos + REQUIRED_INPUT_MAX <= |inp|
    ensures !Step(inp, pr, dicSize, d).NeedInput?
    ensures EndPos(Step(inp, pr, dicSize, d), d.src.pos) <= d.src.pos + REQUIRED_INPUT_MAX
  {
    hide DecPacket, Norm, NextView, ViewOk, InWindow, WellFormed;
    // with enough padding nothing runs short, and what is then read lies in the first 20 bytes
    var padded := inp + Repeat(0, 1000);
    var p := DecPacket(padded, d.src, pr, d.view);
    assert p.Got?;
    assert Norm(padded, p.src).Got?;
    StepTakesAtMost20(padded, pr, d.src, d.view);
    var e := Norm(padded, p.src).src.pos;
    assert SamePrefix(padded, inp, e);
    SamePrefixLess(padded, inp, e, p.src.pos);
    PacketLocal(padded, inp, d.src, pr, d.view);
    NormLocal(padded, inp, p.src);
  }
}
