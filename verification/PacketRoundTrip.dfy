/** The decoder, reading the steps of a packet's script, returns that packet. */
module PacketRoundTrip {
  import opened Bytes
  import opened Cells
  import opened RangeSpec
  import opened Slots
  import opened Packets
  import opened DecSpec

  /** The decoder's context for an encoder context: distances grow by 1. */
  function ViewOf(c: Ctx): (v: View)
    requires CtxOk(c)
    ensures ViewOk(v)
  {
    View(c.state, seq(4, i requires 0 <= i < 4 => c.reps[i] + 1), c.hist)
  }

  lemma {:induction false} DivCancel(a: nat, d: nat, k: nat)
    requires d > 0 && k > 0
    ensures d * k > 0 && a * k / (d * k) == a / d
  {
    var q := a / d;
    var r := a % d;
    assert a * k == q * (d * k) + r * k by {
      assert a == q * d + r;
      assert (q * d + r) * k == q * (d * k) + r * k;
    }
    assert r * k < d * k by {
      MulMono(r + 1, d, k);
      assert (r + 1) * k == r * k + k;
    }
    DivUnique(a * k, d * k, q, r * k);
  }

  /** x is the match byte shifted left past its 8 - n bits that were already used. */
  ghost predicate Shifted(x: nat, matchByte: nat, n: nat) {
    n <= 8 && x == matchByte * Pow2(8 - n)
  }

  /** Bit 8 after the next shift is the next unused bit of the match byte. */
  lemma {:induction false} ShiftedBit(x: nat, matchByte: nat, n: nat)
    requires n >= 1 && Shifted(x, matchByte, n)
    ensures 2 * x / 0x100 % 2 == BitAt(matchByte, n - 1)
    ensures Shifted(2 * x, matchByte, n - 1)
  {
    Pow2Table();
    Pow2Add(n - 1, 9 - n);
    assert Pow2(9 - n) == 2 * Pow2(8 - n);
    assert 2 * (matchByte * Pow2(8 - n)) == matchByte * Pow2(9 - n);
    DivCancel(matchByte, Pow2(n - 1), Pow2(9 - n));
  }

  lemma {:induction false} MatchedStep(base: nat, n: nat, sym: nat, matchByte: nat, m: nat, same: bool)
    requires n > 0
    ensures var b: bit := BitAt(sym, n - 1);
            var mb: bit := BitAt(matchByte, n - 1);
            var node := if same then 0x100 + 0x100 * mb + m else m;
            MatchedOps(base, n, sym, matchByte, m, same)
            == [Bit(Lit(base + node), b)] + MatchedOps(base, n - 1, sym, matchByte, 2 * m + b, same && b == mb)
  {
    hide BitAt;
  }

  /** One step of the decoder's loop, when it reads bit b. */
  lemma {:induction false} DecMatchedStep(inp: seq<byte>, s: Src, base: nat, m: nat, x: nat, mb: bit, same: bool, b: bit)
    requires 1 <= m < 0x100 && 2 * x / 0x100 % 2 == mb
    ensures var offs := if same then 0x100 else 0;
            var r := DecBit(inp, s, Lit(base + if same then 0x100 + 0x100 * mb + m else m));
            r.Got? && r.value == b ==>
              DecMatched(inp, s, base, m, x, offs)
              == if 2 * m + b < 0x100 then DecMatched(inp, r.src, base, 2 * m + b, 2 * x, if same && b == mb then 0x100 else 0)
                 else Got(2 * m + b, r.src)
  {
    hide DecBit, AndOffs, NextOffs;
    MaskedBit(x, mb, same, b);
  }

  lemma {:induction false} DescendStep(m: nat, sym: nat, n: nat)
    ensures Descend(m, sym, 0) == m
    ensures n > 0 ==> Descend(m, sym, n) == Descend(2 * m + BitAt(sym, n - 1), sym, n - 1)
  {
    hide BitAt;
  }

  lemma {:induction false} MatchedFollow(inp: seq<byte>, s: Src, base: nat, n: nat, sym: nat, matchByte: nat, x: nat, m: nat, same: bool)
    requires 1 <= n <= 8 && m >= 1 && Level(m, n, 0x100) && Shifted(x, matchByte, n)
    requires Follow(inp, s, MatchedOps(base, n, sym, matchByte, m, same)).Some?
    ensures m < 0x100
    ensures DecMatched(inp, s, base, m, x, if same then 0x100 else 0)
            == Got(Descend(m, sym, n), Follow(inp, s, MatchedOps(base, n, sym, matchByte, m, same)).value)
    decreases n
  {
    hide *;
    var b: bit := BitAt(sym, n - 1);
    var mb: bit := BitAt(matchByte, n - 1);
    var node := if same then 0x100 + 0x100 * mb + m else m;
    var rest := MatchedOps(base, n - 1, sym, matchByte, 2 * m + b, same && b == mb);
    LevelStep(m, n, 0x100, b);
    ShiftedBit(x, matchByte, n);
    MatchedStep(base, n, sym, matchByte, m, same);
    DecOpOfBit(inp, s, Lit(base + node), b);
    FollowCons(inp, s, Bit(Lit(base + node), b), rest);
    DecMatchedStep(inp, s, base, m, x, mb, same, b);
    DescendStep(m, sym, n);
    var s1 := DecBit(inp, s, Lit(base + node)).src;
    if n > 1 {
      MatchedFollow(inp, s1, base, n - 1, sym, matchByte, 2 * x, 2 * m + b, same && b == mb);
    } else {
      DescendStep(2 * m + b, sym, 0);
      MatchedEnd(base, sym, matchByte, 2 * m + b, same && b == mb);
      FollowNil(inp, s1);
    }
  }

  lemma {:induction false} MatchedEnd(base: nat, sym: nat, matchByte: nat, m: nat, same: bool)
    ensures MatchedOps(base, 0, sym, matchByte, m, same) == []
  {
  }

  /** The masks of the decoder keep exactly the encoder's condition: all bits equal so far. */
  lemma {:induction false} MaskedBit(x: nat, mb: bit, same: bool, b: bit)
    requires 2 * x / 0x100 % 2 == mb
    ensures var offs := if same then 0x100 else 0;
            var mbit := AndOffs(2 * x, offs);
            && mbit == (if same then 0x100 * mb else 0)
            && NextOffs(offs, mbit, b) == if same && b == mb then 0x100 else 0
  {
  }

  lemma {:induction false} PlainLiteralFollow(inp: seq<byte>, s: Src, base: nat, b: byte)
    requires Follow(inp, s, TreeOps(LitTree(base), 8, b, 1)).Some?
    ensures DecTree(inp, s, LitTree(base), 0x100, 1)
            == Got(0x100 + b, Follow(inp, s, TreeOps(LitTree(base), 8, b, 1)).value)
  {
    hide *;
    Pow2Small();
    RootFollow(inp, s, LitTree(base), 8, 0x100, b);
  }

  lemma {:induction false} MatchedLiteralFollow(inp: seq<byte>, s: Src, base: nat, b: byte, matchByte: byte)
    requires Follow(inp, s, MatchedOps(base, 8, b, matchByte, 1, true)).Some?
    ensures DecMatched(inp, s, base, 1, matchByte, 0x100)
            == Got(0x100 + b, Follow(inp, s, MatchedOps(base, 8, b, matchByte, 1, true)).value)
  {
    hide *;
    Pow2Small();
    LevelRoot(8);
    DescendSmall(1, b, 8);
    ShiftedStart(matchByte);
    MatchedFollow(inp, s, base, 8, b, matchByte, matchByte, 1, true);
  }

  lemma {:induction false} ShiftedStart(matchByte: nat)
    ensures Shifted(matchByte, matchByte, 8)
  {
  }

  lemma {:induction false} LiteralFollow(inp: seq<byte>, s: Src, pr: Props, c: Ctx, b: byte)
    requires ValidProps(pr) && CtxOk(c)
    requires Follow(inp, s, LiteralOps(pr, c, b)).Some?
    ensures DecLiteral(inp, s, pr, ViewOf(c)) == Got(Literal(b), Follow(inp, s, LiteralOps(pr, c, b)).value)
  {
    hide DecBit, LitBase, MatchedOps, DecMatched, TreeOps, DecTree, Follow;
    var base := LitBase(pr, c.hist);
    if c.state < NUM_LIT_STATES {
      PlainLiteralFollow(inp, s, base, b);
    } else {
      MatchedLiteralFollow(inp, s, base, b, c.hist[|c.hist| - 1 - c.reps[0]]);
    }
  }

  // ----- lengths -----

  /** DecLen by cases of its choice bits. */
  lemma {:induction false} DecLenCases(inp: seq<byte>, s: Src, rep: bool, ps: nat)
    ensures var r := DecBit(inp, s, Choice(rep));
            && (r.Got? && r.value == 0 ==>
                  var t := DecTree(inp, r.src, LowTree(rep, ps), 8, 1);
                  t.Got? ==> DecLen(inp, s, rep, ps) == Got(t.value - 8, t.src))
            && (r.Got? && r.value == 1 ==>
                  var r2 := DecBit(inp, r.src, Choice2(rep));
                  && (r2.Got? && r2.value == 0 ==>
                        var t := DecTree(inp, r2.src, MidTree(rep, ps), 8, 1);
                        t.Got? ==> DecLen(inp, s, rep, ps) == Got(t.value, t.src))
                  && (r2.Got? && r2.value == 1 ==>
                        var t := DecTree(inp, r2.src, HighTree(rep), 256, 1);
                        t.Got? ==> DecLen(inp, s, rep, ps) == Got(t.value - 240, t.src)))
  {
    hide DecBit, DecTree;
  }

  lemma {:induction false} LowLenFollow(inp: seq<byte>, s: Src, rep: bool, sym: nat, ps: nat, tree: seq<Op>)
    requires sym < 8 && tree == TreeOps(LowTree(rep, ps), 3, sym, 1)
    requires Follow(inp, s, [Bit(Choice(rep), 0)] + tree).Some?
    ensures DecLen(inp, s, rep, ps) == Got(sym, Follow(inp, s, [Bit(Choice(rep), 0)] + tree).value)
  {
    hide *;
    Pow2Small();
    DecOpOfBit(inp, s, Choice(rep), 0);
    FollowCons(inp, s, Bit(Choice(rep), 0), tree);
    RootFollow(inp, DecBit(inp, s, Choice(rep)).src, LowTree(rep, ps), 3, 8, sym);
    DecLenCases(inp, s, rep, ps);
  }

  lemma {:induction false} DecOpOfBit(inp: seq<byte>, s: Src, c: Cell, b: bit)
    ensures DecOp(inp, s, Bit(c, b)) == DecBit(inp, s, c)
  {
    hide DecBit;
  }

  lemma {:induction false} TwoBitsFollow(inp: seq<byte>, s: Src, c1: Cell, b1: bit, c2: Cell, b2: bit, rest: seq<Op>)
    requires Follow(inp, s, [Bit(c1, b1), Bit(c2, b2)] + rest).Some?
    ensures var r := DecBit(inp, s, c1);
            && r.Got? && r.value == b1
            && var r2 := DecBit(inp, r.src, c2);
            && r2.Got? && r2.value == b2
            && Follow(inp, s, [Bit(c1, b1), Bit(c2, b2)] + rest) == Follow(inp, r2.src, rest)
  {
    hide *;
    assert [Bit(c1, b1), Bit(c2, b2)] + rest == [Bit(c1, b1)] + ([Bit(c2, b2)] + rest);
    DecOpOfBit(inp, s, c1, b1);
    FollowCons(inp, s, Bit(c1, b1), [Bit(c2, b2)] + rest);
    var s1 := DecBit(inp, s, c1).src;
    DecOpOfBit(inp, s1, c2, b2);
    FollowCons(inp, s1, Bit(c2, b2), rest);
  }

  lemma {:induction false} MidLenFollow(inp: seq<byte>, s: Src, rep: bool, sym: nat, ps: nat, tree: seq<Op>)
    requires 8 <= sym < 16 && tree == TreeOps(MidTree(rep, ps), 3, sym - 8, 1)
    requires Follow(inp, s, [Bit(Choice(rep), 1), Bit(Choice2(rep), 0)] + tree).Some?
    ensures DecLen(inp, s, rep, ps) == Got(sym, Follow(inp, s, [Bit(Choice(rep), 1), Bit(Choice2(rep), 0)] + tree).value)
  {
    hide *;
    Pow2Small();
    TwoBitsFollow(inp, s, Choice(rep), 1, Choice2(rep), 0, tree);
    RootFollow(inp, DecBit(inp, DecBit(inp, s, Choice(rep)).src, Choice2(rep)).src, MidTree(rep, ps), 3, 8, sym - 8);
    DecLenCases(inp, s, rep, ps);
  }

  lemma {:induction false} HighLenFollow(inp: seq<byte>, s: Src, rep: bool, sym: nat, ps: nat, tree: seq<Op>)
    requires 16 <= sym < 272 && tree == TreeOps(HighTree(rep), 8, sym - 16, 1)
    requires Follow(inp, s, [Bit(Choice(rep), 1), Bit(Choice2(rep), 1)] + tree).Some?
    ensures DecLen(inp, s, rep, ps) == Got(sym, Follow(inp, s, [Bit(Choice(rep), 1), Bit(Choice2(rep), 1)] + tree).value)
  {
    hide *;
    Pow2Small();
    TwoBitsFollow(inp, s, Choice(rep), 1, Choice2(rep), 1, tree);
    RootFollow(inp, DecBit(inp, DecBit(inp, s, Choice(rep)).src, Choice2(rep)).src, HighTree(rep), 8, 0x100, sym - 16);
    DecLenCases(inp, s, rep, ps);
  }

  lemma {:induction false} LenFollow(inp: seq<byte>, s: Src, rep: bool, sym: nat, ps: nat)
    requires sym < 272 && Follow(inp, s, LenOps(rep, sym, ps)).Some?
    ensures DecLen(inp, s, rep, ps) == Got(sym, Follow(inp, s, LenOps(rep, sym, ps)).value)
  {
    hide DecLen, TreeOps, Follow, Pow2;
    if sym < 8 {
      LowLenFollow(inp, s, rep, sym, ps, TreeOps(LowTree(rep, ps), 3, sym, 1));
    } else if sym < 16 {
      MidLenFollow(inp, s, rep, sym, ps, TreeOps(MidTree(rep, ps), 3, sym - 8, 1));
    } else {
      HighLenFollow(inp, s, rep, sym, ps, TreeOps(HighTree(rep), 8, sym - 16, 1));
    }
  }

  // ----- distances -----

  /** Direct bits above four align bits make up the footer. */
  lemma {:induction false} FooterSplit(slot: nat, reduced: nat)
    requires slot >= END_POS_MODEL && reduced < Pow2(FooterBits(slot))
    ensures Descend(2 + slot % 2, reduced / 16, FooterBits(slot) - 4) * 16 + reduced % 16 == SlotBase(slot) + reduced
  {
    var n, lead := FooterBits(slot), 2 + slot % 2;
    Pow2Small();
    Pow2Add(n - 4, 4);
    var p := Pow2(n - 4);
    DescendSmall(lead, reduced / 16, n - 4);
    assert lead * (p * 16) == lead * p * 16;
    assert SlotBase(slot) == lead * Pow2(n);
  }

  lemma {:induction false} ModelOrder()
    ensures 2 <= START_POS_MODEL <= END_POS_MODEL < 64
  {
  }

  lemma {:induction false} LenRange(len: nat)
    requires LEN_MIN <= len <= LEN_MAX
    ensures len - LEN_MIN < 272
  {
  }

  lemma {:induction false} DecFooterCases(inp: seq<byte>, s: Src, slot: nat)
    requires START_POS_MODEL <= slot < 64
    ensures slot < END_POS_MODEL ==>
              DecFooter(inp, s, slot)
              == DecReverse(inp, s, SpecTree(SlotBase(slot) - slot - 1), FooterBits(slot), 1, 1, SlotBase(slot))
    ensures slot >= END_POS_MODEL ==>
              var d := DecDirectBits(inp, s, FooterBits(slot) - 4, 2 + slot % 2);
              d.Got? ==> DecFooter(inp, s, slot) == DecReverse(inp, d.src, AlignTree, 4, 1, 1, d.value * 16)
  {
    hide DecReverse, DecDirectBits, SlotBase;
  }

  lemma {:induction false} NearFooterFollow(inp: seq<byte>, s: Src, slot: nat, n: nat, reduced: nat, ops: seq<Op>)
    requires START_POS_MODEL <= slot < END_POS_MODEL && n == FooterBits(slot) && reduced < Pow2(n)
    requires ops == ReverseOps(SpecTree(SlotBase(slot) - slot - 1), n, reduced, 1)
    requires Follow(inp, s, ops).Some?
    ensures DecFooter(inp, s, slot) == Got(SlotBase(slot) + reduced, Follow(inp, s, ops).value)
  {
    hide *;
    ModelOrder();
    WeightedSmall(reduced, n, 1);
    ReverseFollow(inp, s, SpecTree(SlotBase(slot) - slot - 1), n, reduced, 1, 1, SlotBase(slot));
    DecFooterCases(inp, s, slot);
  }

  lemma {:induction false} AlignFollow(inp: seq<byte>, s: Src, low: nat, acc: nat)
    requires low < 16 && Follow(inp, s, ReverseOps(AlignTree, 4, low, 1)).Some?
    ensures DecReverse(inp, s, AlignTree, 4, 1, 1, acc) == Got(acc + low, Follow(inp, s, ReverseOps(AlignTree, 4, low, 1)).value)
  {
    hide *;
    Pow2Small();
    WeightedSmall(low, 4, 1);
    ReverseFollow(inp, s, AlignTree, 4, low, 1, 1, acc);
  }

  lemma {:induction false} FarFooterFollow(inp: seq<byte>, s: Src, slot: nat, n: nat, reduced: nat, high: seq<Op>, low: seq<Op>)
    requires END_POS_MODEL <= slot < 64 && n == FooterBits(slot) >= 4 && reduced < Pow2(n)
    requires high == DirectOps(reduced / 16, n - 4) && low == ReverseOps(AlignTree, 4, reduced % 16, 1)
    requires Follow(inp, s, high + low).Some?
    ensures DecFooter(inp, s, slot) == Got(SlotBase(slot) + reduced, Follow(inp, s, high + low).value)
  {
    hide *;
    ModelOrder();
    FooterSplit(slot, reduced);
    FollowConcat(inp, s, high, low);
    DirectFollow(inp, s, n - 4, reduced / 16, 2 + slot % 2);
    var d := Descend(2 + slot % 2, reduced / 16, n - 4);
    AlignFollow(inp, Follow(inp, s, high).value, reduced % 16, d * 16);
    DecFooterCases(inp, s, slot);
  }

  lemma {:induction false} FooterFollow(inp: seq<byte>, s: Src, dist: nat, slot: nat)
    requires START_POS_MODEL <= slot < 64
    requires SlotBase(slot) <= dist < SlotBase(slot) + Pow2(FooterBits(slot))
    requires Follow(inp, s, FooterOps(slot, dist)).Some?
    ensures DecFooter(inp, s, slot) == Got(dist, Follow(inp, s, FooterOps(slot, dist)).value)
  {
    hide SlotBase, Pow2, DecFooter, Follow, DirectOps, ReverseOps;
    var n, reduced := FooterBits(slot), dist - SlotBase(slot);
    if slot < END_POS_MODEL {
      NearFooterFollow(inp, s, slot, n, reduced, FooterOps(slot, dist));
    } else {
      FarFooterFollow(inp, s, slot, n, reduced, DirectOps(reduced / 16, n - 4), ReverseOps(AlignTree, 4, reduced % 16, 1));
    }
  }

  lemma {:induction false} SlotRange64(dist: nat)
    requires dist < WORD
    ensures Slot(dist) < 64
  {
    Pow2Table();
    SlotRange(dist, 32);
  }

  lemma {:induction false} SmallSlot(dist: nat)
    requires Slot(dist) < START_POS_MODEL
    ensures Slot(dist) == dist
  {
    if dist >= 4 {
      SlotBounds(dist);
    }
  }

  lemma {:induction false} DecDistCases(inp: seq<byte>, s: Src, len: nat)
    requires len >= LEN_MIN
    ensures var t := DecTree(inp, s, PosSlotTree(LenState(len)), 64, 1);
            t.Got? ==>
              DecDist(inp, s, len - LEN_MIN)
              == if t.value - 64 < START_POS_MODEL then Got(t.value - 64, t.src)
                 else DecFooter(inp, t.src, t.value - 64)
  {
    hide DecTree, DecFooter;
  }

  lemma {:induction false} SlotFollow(inp: seq<byte>, s: Src, len: nat, slot: nat, tree: seq<Op>, rest: seq<Op>)
    requires len >= LEN_MIN && slot < 64 && tree == TreeOps(PosSlotTree(LenState(len)), 6, slot, 1)
    requires Follow(inp, s, tree + rest).Some?
    ensures var f := Follow(inp, s, tree);
            && f.Some?
            && Follow(inp, s, tree + rest) == Follow(inp, f.value, rest)
            && DecDist(inp, s, len - LEN_MIN)
               == if slot < START_POS_MODEL then Got(slot, f.value) else DecFooter(inp, f.value, slot)
  {
    hide *;
    Pow2Small();
    FollowConcat(inp, s, tree, rest);
    RootFollow(inp, s, PosSlotTree(LenState(len)), 6, 64, slot);
    DecDistCases(inp, s, len);
  }

  lemma {:induction false} DistOpsShape(len: nat, dist: nat)
    requires len >= LEN_MIN
    ensures Slot(dist) < START_POS_MODEL ==> DistOps(len, dist) == TreeOps(PosSlotTree(LenState(len)), 6, Slot(dist), 1) + []
    ensures Slot(dist) >= START_POS_MODEL ==>
              && dist >= SlotBase(Slot(dist))
              && DistOps(len, dist) == TreeOps(PosSlotTree(LenState(len)), 6, Slot(dist), 1) + FooterOps(Slot(dist), dist)
  {
    hide TreeOps, FooterOps, Slot, SlotBase;
    if Slot(dist) >= START_POS_MODEL {
      SlotAtLeast4(dist);
    }
  }

  lemma {:induction false} FollowNil(inp: seq<byte>, s: Src)
    ensures Follow(inp, s, []) == Some(s)
  {
  }

  lemma {:induction false} DistFollow(inp: seq<byte>, s: Src, len: nat, dist: nat)
    requires len >= LEN_MIN && dist < WORD
    requires Follow(inp, s, DistOps(len, dist)).Some?
    ensures DecDist(inp, s, len - LEN_MIN) == Got(dist, Follow(inp, s, DistOps(len, dist)).value)
  {
    hide *;
    ModelOrder();
    var slot := Slot(dist);
    var tree := TreeOps(PosSlotTree(LenState(len)), 6, slot, 1);
    SlotRange64(dist);
    DistOpsShape(len, dist);
    if slot < START_POS_MODEL {
      SmallSlot(dist);
      SlotFollow(inp, s, len, slot, tree, []);
      FollowNil(inp, Follow(inp, s, tree).value);
    } else {
      FarAway(dist);
      SlotFollow(inp, s, len, slot, tree, FooterOps(slot, dist));
      FooterFollow(inp, Follow(inp, s, tree).value, dist, slot);
    }
  }

  lemma {:induction false} FarAway(dist: nat)
    requires Slot(dist) >= START_POS_MODEL
    ensures SlotBase(Slot(dist)) <= dist < SlotBase(Slot(dist)) + Pow2(FooterBits(Slot(dist)))
  {
    SlotBounds(dist);
  }

  // ----- packets -----

  lemma {:induction false} RepFollow(inp: seq<byte>, s: Src, state: nat, ps: nat, idx: nat, long: bit)
    requires idx < 4 && (idx > 0 ==> long == 1)
    requires Follow(inp, s, RepOps(state, ps, idx, long)).Some?
    ensures DecRepIndex(inp, s, state, ps)
            == Got(if idx == 0 then long - 1 else idx, Follow(inp, s, RepOps(state, ps, idx, long)).value)
  {
    hide DecBit, Follow;
    var ops := RepOps(state, ps, idx, long);
    assert ops == [ops[0], ops[1]] + ops[2..];
    TwoBitsFollow(inp, s, ops[0].cell, ops[0].b, ops[1].cell, ops[1].b, ops[2..]);
    var s2 := DecBit(inp, DecBit(inp, s, ops[0].cell).src, ops[1].cell).src;
    if idx >= 2 {
      assert ops[2..] == [ops[2]] + [];
      FollowCons(inp, s2, ops[2], []);
      FollowNil(inp, DecBit(inp, s2, ops[2].cell).src);
    } else {
      assert ops[2..] == [];
      FollowNil(inp, s2);
    }
  }

  /** DecPacket by cases of its opening bits. */
  lemma {:induction false} DecPacketCases(inp: seq<byte>, s: Src, pr: Props, v: View, ps: nat)
    requires ValidProps(pr) && ViewOk(v) && ps == PosState(pr, |v.hist|)
    ensures var r := DecBit(inp, s, IsMatch(v.state, ps));
            && (r.Got? && r.value == 0 ==> DecPacket(inp, s, pr, v) == DecLiteral(inp, r.src, pr, v))
            && (r.Got? && r.value == 1 ==>
                  var r2 := DecBit(inp, r.src, IsRep(v.state));
                  && (r2.Got? && r2.value == 0 ==>
                        var l := DecLen(inp, r2.src, false, ps);
                        l.Got? ==>
                          var d := DecDist(inp, l.src, l.value);
                          d.Got? ==> DecPacket(inp, s, pr, v) == Got(Match(l.value + LEN_MIN, d.value), d.src))
                  && (r2.Got? && r2.value == 1 ==>
                        var i := DecRepIndex(inp, r2.src, v.state, ps);
                        && (i.Got? && i.value == -1 ==> DecPacket(inp, s, pr, v) == Got(ShortRep, i.src))
                        && (i.Got? && i.value >= 0 ==>
                              var l := DecLen(inp, i.src, true, ps);
                              l.Got? ==> DecPacket(inp, s, pr, v) == Got(Rep(i.value, l.value + LEN_MIN), l.src))))
  {
    hide DecBit, DecLiteral, DecLen, DecDist, DecRepIndex;
  }

  lemma {:induction false} LiteralPacketFollow(inp: seq<byte>, s: Src, pr: Props, c: Ctx, ps: nat, b: byte)
    requires ValidProps(pr) && CtxOk(c) && ps == PosState(pr, |c.hist|)
    requires Follow(inp, s, [Bit(IsMatch(c.state, ps), 0)] + LiteralOps(pr, c, b)).Some?
    ensures DecPacket(inp, s, pr, ViewOf(c))
            == Got(Literal(b), Follow(inp, s, [Bit(IsMatch(c.state, ps), 0)] + LiteralOps(pr, c, b)).value)
  {
    hide *;
    ViewFields(c);
    DecOpOfBit(inp, s, IsMatch(c.state, ps), 0);
    FollowCons(inp, s, Bit(IsMatch(c.state, ps), 0), LiteralOps(pr, c, b));
    LiteralFollow(inp, DecBit(inp, s, IsMatch(c.state, ps)).src, pr, c, b);
    DecPacketCases(inp, s, pr, ViewOf(c), ps);
  }

  lemma {:induction false} ViewFields(c: Ctx)
    requires CtxOk(c)
    ensures ViewOf(c).state == c.state && ViewOf(c).hist == c.hist
  {
  }

  lemma {:induction false} MatchTail(inp: seq<byte>, s: Src, ps: nat, len: nat, dist: nat)
    requires LEN_MIN <= len <= LEN_MAX && dist < WORD
    requires Follow(inp, s, LenOps(false, len - LEN_MIN, ps) + DistOps(len, dist)).Some?
    ensures var l := DecLen(inp, s, false, ps);
            && l.Got? && l.value == len - LEN_MIN
            && DecDist(inp, l.src, len - LEN_MIN)
               == Got(dist, Follow(inp, s, LenOps(false, len - LEN_MIN, ps) + DistOps(len, dist)).value)
  {
    hide *;
    LenRange(len);
    FollowConcat(inp, s, LenOps(false, len - LEN_MIN, ps), DistOps(len, dist));
    LenFollow(inp, s, false, len - LEN_MIN, ps);
    DistFollow(inp, Follow(inp, s, LenOps(false, len - LEN_MIN, ps)).value, len, dist);
  }

  lemma {:induction false} MatchPacketFollow(inp: seq<byte>, s: Src, pr: Props, c: Ctx, ps: nat, len: nat, dist: nat, rest: seq<Op>)
    requires ValidProps(pr) && CtxOk(c) && ps == PosState(pr, |c.hist|) && LEN_MIN <= len <= LEN_MAX && dist < WORD
    requires rest == LenOps(false, len - LEN_MIN, ps) + DistOps(len, dist)
    requires Follow(inp, s, [Bit(IsMatch(c.state, ps), 1), Bit(IsRep(c.state), 0)] + rest).Some?
    ensures DecPacket(inp, s, pr, ViewOf(c))
            == Got(Match(len, dist), Follow(inp, s, [Bit(IsMatch(c.state, ps), 1), Bit(IsRep(c.state), 0)] + rest).value)
  {
    hide *;
    ViewFields(c);
    TwoBitsFollow(inp, s, IsMatch(c.state, ps), 1, IsRep(c.state), 0, rest);
    var s2 := DecBit(inp, DecBit(inp, s, IsMatch(c.state, ps)).src, IsRep(c.state)).src;
    MatchTail(inp, s2, ps, len, dist);
    DecPacketCases(inp, s, pr, ViewOf(c), ps);
  }

  lemma {:induction false} RepTail(inp: seq<byte>, s: Src, state: nat, ps: nat, idx: nat, len: nat)
    requires idx < 4 && LEN_MIN <= len <= LEN_MAX
    requires Follow(inp, s, RepOps(state, ps, idx, 1) + LenOps(true, len - LEN_MIN, ps)).Some?
    ensures var i := DecRepIndex(inp, s, state, ps);
            && i.Got? && i.value == idx
            && DecLen(inp, i.src, true, ps)
               == Got(len - LEN_MIN, Follow(inp, s, RepOps(state, ps, idx, 1) + LenOps(true, len - LEN_MIN, ps)).value)
  {
    hide *;
    LenRange(len);
    FollowConcat(inp, s, RepOps(state, ps, idx, 1), LenOps(true, len - LEN_MIN, ps));
    RepFollow(inp, s, state, ps, idx, 1);
    LenFollow(inp, Follow(inp, s, RepOps(state, ps, idx, 1)).value, true, len - LEN_MIN, ps);
  }

  lemma {:induction false} RepPacketFollow(inp: seq<byte>, s: Src, pr: Props, c: Ctx, ps: nat, idx: nat, len: nat, rest: seq<Op>)
    requires ValidProps(pr) && CtxOk(c) && ps == PosState(pr, |c.hist|) && idx < 4 && LEN_MIN <= len <= LEN_MAX
    requires rest == RepOps(c.state, ps, idx, 1) + LenOps(true, len - LEN_MIN, ps)
    requires Follow(inp, s, [Bit(IsMatch(c.state, ps), 1), Bit(IsRep(c.state), 1)] + rest).Some?
    ensures DecPacket(inp, s, pr, ViewOf(c))
            == Got(Rep(idx, len), Follow(inp, s, [Bit(IsMatch(c.state, ps), 1), Bit(IsRep(c.state), 1)] + rest).value)
  {
    hide *;
    ViewFields(c);
    TwoBitsFollow(inp, s, IsMatch(c.state, ps), 1, IsRep(c.state), 1, rest);
    var s2 := DecBit(inp, DecBit(inp, s, IsMatch(c.state, ps)).src, IsRep(c.state)).src;
    RepTail(inp, s2, c.state, ps, idx, len);
    DecPacketCases(inp, s, pr, ViewOf(c), ps);
  }

  lemma {:induction false} ShortRepFollow(inp: seq<byte>, s: Src, pr: Props, c: Ctx, ps: nat)
    requires ValidProps(pr) && CtxOk(c) && ps == PosState(pr, |c.hist|)
    requires Follow(inp, s, [Bit(IsMatch(c.state, ps), 1), Bit(IsRep(c.state), 1)] + RepOps(c.state, ps, 0, 0)).Some?
    ensures DecPacket(inp, s, pr, ViewOf(c))
            == Got(ShortRep, Follow(inp, s, [Bit(IsMatch(c.state, ps), 1), Bit(IsRep(c.state), 1)] + RepOps(c.state, ps, 0, 0)).value)
  {
    hide *;
    ViewFields(c);
    TwoBitsFollow(inp, s, IsMatch(c.state, ps), 1, IsRep(c.state), 1, RepOps(c.state, ps, 0, 0));
    var s2 := DecBit(inp, DecBit(inp, s, IsMatch(c.state, ps)).src, IsRep(c.state)).src;
    RepFollow(inp, s2, c.state, ps, 0, 0);
    DecPacketCases(inp, s, pr, ViewOf(c), ps);
  }

  /** The packet round trip: reading the script of a packet gives back the packet. */
  lemma {:induction false} PacketFollow(inp: seq<byte>, s: Src, pr: Props, c: Ctx, pk: Packet)
    requires ValidProps(pr) && CtxOk(c) && WellFormed(pk)
    requires Follow(inp, s, PacketOps(pr, c, pk)).Some?
    ensures DecPacket(inp, s, pr, ViewOf(c)) == Got(pk, Follow(inp, s, PacketOps(pr, c, pk)).value)
  {
    hide DecPacket, LiteralOps, LenOps, DistOps, RepOps, Follow, ViewOf, PosState, CtxOk, ValidProps;
    var st, ps := c.state, PosState(pr, |c.hist|);
    match pk
    case Literal(b) =>
      LiteralPacketFollow(inp, s, pr, c, ps, b);
    case ShortRep =>
      ShortRepFollow(inp, s, pr, c, ps);
    case Rep(idx, len) =>
      var rest := RepOps(st, ps, idx, 1) + LenOps(true, len - LEN_MIN, ps);
      assert PacketOps(pr, c, pk) == [Bit(IsMatch(st, ps), 1), Bit(IsRep(st), 1)] + rest;
      RepPacketFollow(inp, s, pr, c, ps, idx, len, rest);
    case Match(len, dist) =>
      var rest := LenOps(false, len - LEN_MIN, ps) + DistOps(len, dist);
      assert PacketOps(pr, c, pk) == [Bit(IsMatch(st, ps), 1), Bit(IsRep(st), 0)] + rest;
      MatchPacketFollow(inp, s, pr, c, ps, len, dist, rest);
  }
}
