/** What LzmaDec_DecodeReal reads for one packet, as a function of the input and the state. */
module DecSpec {
  import opened Bytes
  import opened Cells
  import opened RangeSpec
  import opened Slots
  import opened Packets

  /** TREE_DECODE before its final subtraction: walks down until the node number reaches limit. */
  function DecTree(inp: seq<byte>, s: Src, t: Tree, limit: nat, i: nat): (r: Out<nat>)
    requires 1 <= i < limit
    ensures r.Got? ==> limit <= r.value < 2 * limit && |r.src.probs| == |s.probs|
    ensures r.Got? ==> s.pos <= r.src.pos <= s.pos + limit - i
    ensures |inp| >= s.pos + limit - i ==> r.Got?
    ensures r.Got? && s.pos <= |inp| ==> r.src.pos <= |inp|
    decreases limit - i, s.pos
  {
    var (b, s1) :- DecBit(inp, s, Node(t, i));
    var j := 2 * i + b;
    if j < limit then DecTree(inp, s1, t, limit, j) else Got(j, s1)
  }

  /** A reverse bit tree: bit k of the symbol is read k-th and added as mask = 2^k to acc. */
  function DecReverse(inp: seq<byte>, s: Src, t: Tree, n: nat, i: nat, mask: nat, acc: nat): (r: Out<nat>)
    ensures r.Got? ==> acc <= r.value && |r.src.probs| == |s.probs|
    ensures r.Got? ==> s.pos <= r.src.pos <= s.pos + n
    ensures |inp| >= s.pos + n ==> r.Got?
    ensures r.Got? && s.pos <= |inp| ==> r.src.pos <= |inp|
    decreases n, acc
  {
    if n == 0 then Got(acc, s)
    else
      var (b, s1) :- DecBit(inp, s, Node(t, i));
      DecReverse(inp, s1, t, n - 1, 2 * i + b, 2 * mask, if b == 1 then acc + mask else acc)
  }

  function DecDirectBits(inp: seq<byte>, s: Src, n: nat, acc: nat): (r: Out<nat>)
    ensures r.Got? ==> |r.src.probs| == |s.probs|
    ensures r.Got? ==> s.pos <= r.src.pos <= s.pos + n
    ensures |inp| >= s.pos + n ==> r.Got?
    ensures r.Got? && s.pos <= |inp| ==> r.src.pos <= |inp|
    decreases n, acc
  {
    if n == 0 then Got(acc, s)
    else
      var (b, s1) :- DecDirect(inp, s);
      DecDirectBits(inp, s1, n - 1, 2 * acc + b)
  }

  /** x & offs for offs 0 or 0x100. */
  function AndOffs(x: nat, offs: nat): (r: nat)
    requires offs == 0 || offs == 0x100
    ensures r == 0 || r == 0x100
  {
    if offs == 0x100 && x / 0x100 % 2 == 1 then 0x100 else 0
  }

  /** offs & ~bit after a 0, offs & bit after a 1. */
  function NextOffs(offs: nat, mbit: nat, b: bit): (r: nat)
    requires (offs == 0 || offs == 0x100) && (mbit == 0 || mbit == offs)
    ensures r == 0 || r == 0x100
  {
    if b == 0 then (if mbit == 0x100 then 0 else offs)
    else mbit
  }

  /** A literal decoded with the help of the byte at distance rep0. */
  function DecMatched(inp: seq<byte>, s: Src, base: nat, sym: nat, matchByte: nat, offs: nat): (r: Out<nat>)
    requires 1 <= sym < 0x100 && (offs == 0 || offs == 0x100)
    ensures r.Got? ==> 0x100 <= r.value < 0x200 && |r.src.probs| == |s.probs|
    ensures r.Got? ==> s.pos <= r.src.pos <= s.pos + 0x100 - sym
    ensures |inp| >= s.pos + 0x100 - sym ==> r.Got?
    ensures r.Got? && s.pos <= |inp| ==> r.src.pos <= |inp|
    decreases 0x100 - sym, s.pos
  {
    var mb := 2 * matchByte;
    var mbit := AndOffs(mb, offs);
    var (b, s1) :- DecBit(inp, s, Lit(base + (offs + mbit + sym)));
    var j := 2 * sym + b;
    if j < 0x100 then DecMatched(inp, s1, base, j, mb, NextOffs(offs, mbit, b)) else Got(j, s1)
  }

  function DecLen(inp: seq<byte>, s: Src, rep: bool, posState: nat): (r: Out<nat>)
    ensures r.Got? ==> r.value < 272 && |r.src.probs| == |s.probs|
    ensures r.Got? ==> s.pos <= r.src.pos
    ensures |inp| >= s.pos + 300 ==> r.Got? && r.src.pos <= s.pos + 300
    ensures r.Got? && s.pos <= |inp| ==> r.src.pos <= |inp|
  {
    var (c, s1) :- DecBit(inp, s, Choice(rep));
    if c == 0 then
      var (t, s2) :- DecTree(inp, s1, LowTree(rep, posState), 8, 1);
      Got(t - 8, s2)
    else
      var (c2, s2) :- DecBit(inp, s1, Choice2(rep));
      if c2 == 0 then
        var (t, s3) :- DecTree(inp, s2, MidTree(rep, posState), 8, 1);
        Got(t - 8 + 8, s3)
      else
        var (t, s3) :- DecTree(inp, s2, HighTree(rep), 256, 1);
        Got(t - 256 + 16, s3)
  }

  /** The bits after the slot; the result is the distance minus 1. */
  function DecFooter(inp: seq<byte>, s: Src, slot: nat): (r: Out<nat>)
    requires START_POS_MODEL <= slot < 64
    ensures r.Got? ==> |r.src.probs| == |s.probs|
    ensures r.Got? ==> s.pos <= r.src.pos <= s.pos + 40
    ensures |inp| >= s.pos + 40 ==> r.Got?
    ensures r.Got? && s.pos <= |inp| ==> r.src.pos <= |inp|
  {
    var n := FooterBits(slot);
    if slot < END_POS_MODEL then
      DecReverse(inp, s, SpecTree(SlotBase(slot) - slot - 1), n, 1, 1, SlotBase(slot))
    else
      var (d, s1) :- DecDirectBits(inp, s, n - 4, 2 + slot % 2);
      DecReverse(inp, s1, AlignTree, 4, 1, 1, d * 16)
  }

  function DecDist(inp: seq<byte>, s: Src, lenSym: nat): (r: Out<nat>)
    ensures r.Got? ==> |r.src.probs| == |s.probs|
    ensures r.Got? ==> s.pos <= r.src.pos
    ensures |inp| >= s.pos + 110 ==> r.Got? && r.src.pos <= s.pos + 110
    ensures r.Got? && s.pos <= |inp| ==> r.src.pos <= |inp|
  {
    var (t, s1) :- DecTree(inp, s, PosSlotTree(if lenSym < 4 then lenSym else 3), 64, 1);
    var slot := t - 64;
    if slot < START_POS_MODEL then Got(slot, s1) else DecFooter(inp, s1, slot)
  }

  /** The decoder's context: distances in reps are the real ones. */
  datatype View = View(state: nat, reps: seq<nat>, hist: seq<byte>)

  ghost predicate ViewOk(v: View) {
    && v.state < NUM_STATES && |v.reps| == 4
    && (v.state >= NUM_LIT_STATES ==> v.hist != [])
    && forall i :: 0 <= i < 4 ==> v.reps[i] == 1 || 1 <= v.reps[i] <= |v.hist|
  }

  function DecLiteral(inp: seq<byte>, s: Src, pr: Props, v: View): (r: Out<Packet>)
    requires ValidProps(pr) && ViewOk(v)
    ensures r.Got? ==> r.value.Literal? && |r.src.probs| == |s.probs|
    ensures r.Got? ==> s.pos <= r.src.pos
    ensures |inp| >= s.pos + 300 ==> r.Got? && r.src.pos <= s.pos + 300
    ensures r.Got? && s.pos <= |inp| ==> r.src.pos <= |inp|
  {
    var base := LitBase(pr, v.hist);
    if v.state < NUM_LIT_STATES then
      var (t, s1) :- DecTree(inp, s, LitTree(base), 0x100, 1);
      Got(Literal(t - 0x100), s1)
    else
      var (t, s1) :- DecMatched(inp, s, base, 1, v.hist[|v.hist| - v.reps[0]], 0x100);
      Got(Literal(t - 0x100), s1)
  }

  /** Which recent distance a repeated match uses; -1 stands for the one-byte form. */
  function DecRepIndex(inp: seq<byte>, s: Src, state: nat, posState: nat): (r: Out<int>)
    ensures r.Got? ==> -1 <= r.value < 4 && |r.src.probs| == |s.probs|
    ensures r.Got? ==> s.pos <= r.src.pos <= s.pos + 3
    ensures |inp| >= s.pos + 3 ==> r.Got?
    ensures r.Got? && s.pos <= |inp| ==> r.src.pos <= |inp|
  {
    var (g0, s1) :- DecBit(inp, s, IsRepG0(state));
    if g0 == 0 then
      var (long, s2) :- DecBit(inp, s1, IsRep0Long(state, posState));
      Got(long - 1, s2)
    else
      var (g1, s2) :- DecBit(inp, s1, IsRepG1(state));
      if g1 == 0 then Got(1, s2)
      else
        var (g2, s3) :- DecBit(inp, s2, IsRepG2(state));
        Got(2 + g2, s3)
  }

  /** What follows the bit that says that the packet is not a literal. */
  function DecCopy(inp: seq<byte>, s: Src, state: nat, posState: nat): (r: Out<Packet>)
    ensures r.Got? ==> |r.src.probs| == |s.probs| && s.pos <= r.src.pos
    ensures |inp| >= s.pos + 499 ==> r.Got? && r.src.pos <= s.pos + 499
    ensures r.Got? && s.pos <= |inp| ==> r.src.pos <= |inp|
  {
    var (rep, s1) :- DecBit(inp, s, IsRep(state));
    if rep == 0 then
      var (len, s2) :- DecLen(inp, s1, false, posState);
      var (dist, s3) :- DecDist(inp, s2, len);
      Got(Match(len + LEN_MIN, dist), s3)
    else
      var (idx, s2) :- DecRepIndex(inp, s1, state, posState);
      if idx == -1 then Got(ShortRep, s2)
      else
        var (len, s3) :- DecLen(inp, s2, true, posState);
        Got(Rep(idx, len + LEN_MIN), s3)
  }

  function DecPacket(inp: seq<byte>, s: Src, pr: Props, v: View): (r: Out<Packet>)
    requires ValidProps(pr) && ViewOk(v)
    ensures r.Got? ==> |r.src.probs| == |s.probs| && s.pos <= r.src.pos
    ensures |inp| >= s.pos + 500 ==> r.Got? && r.src.pos <= s.pos + 500
    ensures r.Got? && s.pos <= |inp| ==> r.src.pos <= |inp|
  {
    var ps := PosState(pr, |v.hist|);
    var (m, s1) :- DecBit(inp, s, IsMatch(v.state, ps));
    if m == 0 then DecLiteral(inp, s1, pr, v) else DecCopy(inp, s1, v.state, ps)
  }

  // ----- the decoder undoes the encoder's scripts -----

  lemma {:induction false} FollowCons(inp: seq<byte>, s: Src, op: Op, rest: seq<Op>)
    ensures Follow(inp, s, [op] + rest) ==
            var r := DecOp(inp, s, op);
            if r.Got? && r.value == op.b then Follow(inp, r.src, rest) else None
  {
    assert ([op] + rest)[1..] == rest;
  }

  // The values that the three kinds of bit strings denote, following the reading loops.

  /** The node reached from m by the n low bits of sym, most significant first. */
  function Descend(m: nat, sym: nat, n: nat): nat
    decreases n, sym
  {
    if n == 0 then m else Descend(2 * m + BitAt(sym, n - 1), sym, n - 1)
  }

  /** The sum of mask * 2^k over the bits k < n set in sym. */
  function Weighted(sym: nat, n: nat, mask: nat): nat
    decreases n, sym
  {
    if n == 0 then 0 else (if sym % 2 == 1 then mask else 0) + Weighted(sym / 2, n - 1, 2 * mask)
  }

  lemma {:induction false} ModSplit(sym: nat, n: nat)
    requires n > 0
    ensures sym % Pow2(n) == BitAt(sym, n - 1) * Pow2(n - 1) + sym % Pow2(n - 1)
  {
    var p := Pow2(n - 1);
    var q := sym / p;
    var b := q % 2;
    assert q == 2 * (q / 2) + b;
    assert sym == q / 2 * (2 * p) + (b * p + sym % p) by {
      assert sym == q * p + sym % p;
      assert (2 * (q / 2) + b) * p == q / 2 * (2 * p) + b * p;
    }
    assert b * p + sym % p < 2 * p;
    DivUnique(sym, 2 * p, q / 2, b * p + sym % p);
  }

  lemma {:induction false} DescendValue(m: nat, sym: nat, n: nat)
    ensures Descend(m, sym, n) == m * Pow2(n) + sym % Pow2(n)
    decreases n
  {
    hide BitAt, Pow2;
    if n > 0 {
      var b := BitAt(sym, n - 1);
      DescendValue(2 * m + b, sym, n - 1);
      ModSplit(sym, n);
      LeadStep(m, b, n);
    } else {
      Pow2Zero(sym, m);
    }
  }

  lemma {:induction false} Pow2Zero(sym: nat, m: nat)
    ensures sym % Pow2(0) == 0 && m * Pow2(0) == m
  {
  }

  lemma {:induction false} LeadStep(m: nat, b: bit, n: nat)
    requires n > 0
    ensures (2 * m + b) * Pow2(n - 1) == m * Pow2(n) + b * Pow2(n - 1)
  {
    var p := Pow2(n - 1);
    assert (2 * m + b) * p == m * (2 * p) + b * p;
  }

  /** A symbol of at most n bits read below the leading ones of lead. */
  lemma {:induction false} DescendSmall(lead: nat, sym: nat, n: nat)
    requires sym < Pow2(n)
    ensures Descend(lead, sym, n) == lead * Pow2(n) + sym
  {
    hide Pow2, Descend;
    DescendValue(lead, sym, n);
    DivUnique(sym, Pow2(n), 0, sym);
  }

  lemma {:induction false} WeightedSmall(sym: nat, n: nat, mask: nat)
    requires sym < Pow2(n)
    ensures Weighted(sym, n, mask) == mask * sym
    decreases n
  {
    if n > 0 {
      var h, b := sym / 2, sym % 2;
      WeightedSmall(h, n - 1, 2 * mask);
      MaskStep(mask, h, b);
    }
  }

  lemma {:induction false} MaskStep(mask: nat, h: nat, b: nat)
    ensures mask * (2 * h + b) == 2 * mask * h + mask * b
    ensures mask * 0 == 0 && mask * 1 == mask
  {
  }

  /** Node m of a tree of the given limit has exactly n levels below it. */
  ghost predicate Level(m: nat, n: nat, limit: nat) {
    m >= 1 && limit <= m * Pow2(n) && (m + 1) * Pow2(n) <= 2 * limit
  }

  lemma {:induction false} LevelStep(m: nat, n: nat, limit: nat, b: bit)
    requires n > 0 && Level(m, n, limit)
    ensures m < limit && Level(2 * m + b, n - 1, limit)
    ensures n == 1 ==> limit <= 2 * m + b
  {
    NodeStep(m, n, limit, b);
    var p := Pow2(n - 1);
    assert (2 * m + b) * p == m * (2 * p) + b * p;
  }

  lemma {:induction false} LevelRoot(n: nat)
    ensures Level(1, n, Pow2(n))
  {
  }

  lemma {:induction false} TreeFollow(inp: seq<byte>, s: Src, t: Tree, n: nat, sym: nat, m: nat, limit: nat)
    requires n > 0 && m >= 1 && Level(m, n, limit)
    requires Follow(inp, s, TreeOps(t, n, sym, m)).Some?
    ensures m < limit
    ensures DecTree(inp, s, t, limit, m) == Got(Descend(m, sym, n), Follow(inp, s, TreeOps(t, n, sym, m)).value)
    decreases n
  {
    hide DecBit, DecTree, Pow2, BitAt, Level, Node;
    var b: bit := BitAt(sym, n - 1);
    LevelStep(m, n, limit, b);
    TreeNext(inp, s, t, limit, m);
    FollowCons(inp, s, Bit(Node(t, m), b), TreeOps(t, n - 1, sym, 2 * m + b));
    if n > 1 {
      LevelStep(2 * m + b, n - 1, limit, 0);
      TreeFollow(inp, DecBit(inp, s, Node(t, m)).src, t, n - 1, sym, 2 * m + b, limit);
    }
  }

  /** A whole tree of n levels, entered at its root. */
  lemma {:induction false} RootFollow(inp: seq<byte>, s: Src, t: Tree, n: nat, limit: nat, sym: nat)
    requires n > 0 && limit == Pow2(n) && limit > 1 && sym < limit
    requires Follow(inp, s, TreeOps(t, n, sym, 1)).Some?
    ensures DecTree(inp, s, t, limit, 1) == Got(limit + sym, Follow(inp, s, TreeOps(t, n, sym, 1)).value)
  {
    hide *;
    LevelRoot(n);
    TreeFollow(inp, s, t, n, sym, 1, limit);
    DescendSmall(1, sym, n);
  }

  lemma {:induction false} ReverseFollow(inp: seq<byte>, s: Src, t: Tree, n: nat, sym: nat, m: nat, mask: nat, acc: nat)
    requires m >= 1 && Follow(inp, s, ReverseOps(t, n, sym, m)).Some?
    ensures DecReverse(inp, s, t, n, m, mask, acc)
            == Got(acc + Weighted(sym, n, mask), Follow(inp, s, ReverseOps(t, n, sym, m)).value)
    decreases n
  {
    hide DecBit;
    if n > 0 {
      var b: bit := sym % 2;
        FollowCons(inp, s, Bit(Node(t, m), b), ReverseOps(t, n - 1, sym / 2, 2 * m + b));
      var s1 := DecBit(inp, s, Node(t, m)).src;
      ReverseFollow(inp, s1, t, n - 1, sym / 2, 2 * m + b, 2 * mask, if b == 1 then acc + mask else acc);
    }
  }

  lemma {:induction false} DirectFollow(inp: seq<byte>, s: Src, n: nat, value: nat, acc: nat)
    requires Follow(inp, s, DirectOps(value, n)).Some?
    ensures DecDirectBits(inp, s, n, acc) == Got(Descend(acc, value, n), Follow(inp, s, DirectOps(value, n)).value)
    decreases n
  {
    hide DecDirect, BitAt, Pow2;
    if n > 0 {
      var b: bit := BitAt(value, n - 1);
      FollowCons(inp, s, Direct(b), DirectOps(value, n - 1));
      DirectFollow(inp, DecDirect(inp, s).src, n - 1, value, 2 * acc + b);
    }
  }

  // ----- single rounds of the reading loops -----

  lemma {:induction false} TreeNext(inp: seq<byte>, s: Src, t: Tree, limit: nat, i: nat)
    requires 1 <= i < limit
    ensures var r := DecBit(inp, s, Node(t, i));
            DecTree(inp, s, t, limit, i)
            == if r.Short? then Short
               else if 2 * i + r.value < limit then DecTree(inp, r.src, t, limit, 2 * i + r.value)
               else Got(2 * i + r.value, r.src)
  {
    hide DecBit, Node;
  }

  lemma {:induction false} ReverseNext(inp: seq<byte>, s: Src, t: Tree, n: nat, i: nat, mask: nat, acc: nat)
    ensures n == 0 ==> DecReverse(inp, s, t, n, i, mask, acc) == Got(acc, s)
    ensures n > 0 ==>
              var r := DecBit(inp, s, Node(t, i));
              DecReverse(inp, s, t, n, i, mask, acc)
              == if r.Short? then Short
                 else DecReverse(inp, r.src, t, n - 1, 2 * i + r.value, 2 * mask, if r.value == 1 then acc + mask else acc)
  {
    hide DecBit, Node;
  }

  lemma {:induction false} DirectNext(inp: seq<byte>, s: Src, n: nat, acc: nat)
    ensures n == 0 ==> DecDirectBits(inp, s, n, acc) == Got(acc, s)
    ensures n > 0 ==>
              var r := DecDirect(inp, s);
              DecDirectBits(inp, s, n, acc)
              == if r.Short? then Short else DecDirectBits(inp, r.src, n - 1, 2 * acc + r.value)
  {
    hide DecDirect;
  }

  lemma {:induction false} MatchedNext(inp: seq<byte>, s: Src, base: nat, sym: nat, x: nat, offs: nat)
    requires 1 <= sym < 0x100 && (offs == 0 || offs == 0x100)
    ensures var mbit := AndOffs(2 * x, offs);
            && (mbit == 0 || mbit == offs)
            && var r := DecBit(inp, s, Lit(base + (offs + mbit + sym)));
            DecMatched(inp, s, base, sym, x, offs)
            == if r.Short? then Short
               else if 2 * sym + r.value < 0x100 then
                 DecMatched(inp, r.src, base, 2 * sym + r.value, 2 * x, NextOffs(offs, mbit, r.value))
               else Got(2 * sym + r.value, r.src)
  {
    hide DecBit, NextOffs;
  }

  // ----- where the cells are -----

  lemma {:induction false} LenCells(rep: bool, ps: nat, lclp: nat)
    requires ps < NUM_POS_STATES_MAX
    ensures ValidCell(Choice(rep), lclp) && ValidCell(Choice2(rep), lclp)
    ensures TreeFits(LowTree(rep, ps), 8, lclp) && TreeFits(MidTree(rep, ps), 8, lclp) && TreeFits(HighTree(rep), 0x100, lclp)
  {
    hide NumLits;
  }

  lemma {:induction false} LeadBase(slot: nat)
    requires slot >= 2
    ensures (2 + slot % 2) * Pow2(slot / 2 - 1) == SlotBase(slot)
  {
  }

  lemma {:induction false} AlignFits(lclp: nat)
    ensures TreeFits(AlignTree, 16, lclp)
  {
    hide NumLits;
  }

  lemma {:induction false} SlotTreeFits(l: nat, lclp: nat)
    requires l < 4
    ensures TreeFits(PosSlotTree(l), 64, lclp)
  {
    hide NumLits;
  }

  lemma {:induction false} LitFits(lit: nat, lclp: nat)
    requires lit + 0x300 <= NumLits(lclp)
    ensures TreeFits(LitTree(lit), 0x100, lclp) && Base(LitTree(lit)) == LITERAL + lit
  {
    hide NumLits;
  }

  lemma {:induction false} BoundFits(r: coderange, p: Prob)
    requires r >= TOP
    ensures 0x1_0000 <= Bound(r, p) && 0x1_0000 <= r - Bound(r, p)
  {
  }
}
