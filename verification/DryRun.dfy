/**
 * Why LzmaDec_TryDummy may skip adapting the probabilities: no packet reads a cell twice. The
 * cells of one packet are visited in strictly increasing rank, so what a dry run reads is what the
 * real run reads.
 */
module DryRun {
  import opened Bytes
  import opened Cells
  import opened RangeSpec
  import opened Slots
  import opened Packets
  import opened DecSpec
  import opened Locality

  function Rank(c: Cell): int {
    match c
    case IsMatch(_, _) => 0
    case Lit(i) => 10 + i % 0x100
    case IsRep(_) => 1
    case IsRepG0(_) => 2
    case IsRep0Long(_, _) => 3
    case IsRepG1(_) => 3
    case IsRepG2(_) => 4
    case Choice(_) => 10
    case Choice2(_) => 11
    case Low(_, i) => 20 + i
    case Mid(_, i) => 20 + i
    case High(_, m) => 20 + m
    case PosSlot(_, m) => 1000 + m
    case SpecPos(i) => 2000 + i
    case Align(m) => 2000 + m
  }

  /** The dry run t is where the real run s is, and no cell of rank k or more differs. */
  ghost predicate Alike(s: Src, t: Src, k: int, lclp: nat) {
    && s.range == t.range && s.code == t.code && s.pos == t.pos
    && |s.probs| == |t.probs| == NumProbs(lclp)
    && !t.learn
    && forall c :: ValidCell(c, lclp) && Rank(c) >= k ==>
                     0 <= Index(c) < |s.probs| && s.probs[Index(c)] == t.probs[Index(c)]
  }

  /** Both runs ran short, or both gave the same value. */
  ghost predicate AlikeOut<T>(r: Out<T>, q: Out<T>, k: int, lclp: nat) {
    (r.Short? && q.Short?) || (r.Got? && q.Got? && r.value == q.value && Alike(r.src, q.src, k, lclp))
  }

  lemma {:induction false} SelfAlike(s: Src, lclp: nat)
    requires |s.probs| == NumProbs(lclp)
    ensures Alike(s, s.(learn := false), 0, lclp)
  {
    hide ValidCell, Rank, Index, NumProbs;
    forall c | ValidCell(c, lclp) && Rank(c) >= 0
      ensures 0 <= Index(c) < |s.probs|
    {
      LayoutAgrees(c, lclp);
    }
  }

  lemma {:induction false} AlikeLater(s: Src, t: Src, k: int, k2: int, lclp: nat)
    requires Alike(s, t, k, lclp) && k <= k2
    ensures Alike(s, t, k2, lclp)
  {
  }

  lemma {:induction false} NormAlike(inp: seq<byte>, s: Src, t: Src, k: int, lclp: nat)
    requires Alike(s, t, k, lclp)
    ensures AlikeOut(Norm(inp, s), Norm(inp, t), k, lclp)
  {
    hide ValidCell, Rank, Index, NumProbs;
  }

  lemma {:induction false} BitAlike(inp: seq<byte>, s: Src, t: Src, c: Cell, k: int, lclp: nat)
    requires Alike(s, t, k, lclp) && ValidCell(c, lclp) && Rank(c) >= k
    ensures AlikeOut(DecBit(inp, s, c), DecBit(inp, t, c), Rank(c) + 1, lclp)
  {
    hide Rank, Bound, Adapt, ValidCell, NumProbs, CellAt, Index;
    NormAlike(inp, s, t, k, lclp);
    var r, q := DecBit(inp, s, c), DecBit(inp, t, c);
    if r.Got? {
      var n := Norm(inp, s).src;
      assert n.probs[Index(c)] == Norm(inp, t).src.probs[Index(c)];
      forall x | ValidCell(x, lclp) && Rank(x) >= Rank(c) + 1
        ensures 0 <= Index(x) < |r.src.probs| && r.src.probs[Index(x)] == q.src.probs[Index(x)]
      {
        LayoutAgrees(c, lclp);
        LayoutAgrees(x, lclp);
      }
    }
  }

  lemma {:induction false} DirectAlike(inp: seq<byte>, s: Src, t: Src, k: int, lclp: nat)
    requires Alike(s, t, k, lclp)
    ensures AlikeOut(DecDirect(inp, s), DecDirect(inp, t), k, lclp)
  {
    hide Rank, Halve, ValidCell, Index, NumProbs;
    NormAlike(inp, s, t, k, lclp);
  }

  /** Trees read their nodes in increasing order. */
  ghost predicate RankedTree(tr: Tree, limit: nat, k: int, lclp: nat) {
    TreeFits(tr, limit, lclp) && forall m :: 1 <= m < limit ==> Rank(Node(tr, m)) == k + m
  }

  lemma {:induction false} RankedNode(tr: Tree, limit: nat, k: int, lclp: nat, m: nat)
    requires RankedTree(tr, limit, k, lclp) && 1 <= m < limit
    ensures ValidCell(Node(tr, m), lclp) && Rank(Node(tr, m)) == k + m
  {
    hide Node, Rank, ValidCell;
  }

  lemma {:induction false} TreeAlike(inp: seq<byte>, s: Src, t: Src, tr: Tree, limit: nat, i: nat, k: int, lclp: nat)
    requires 1 <= i < limit && RankedTree(tr, limit, k, lclp) && Alike(s, t, k + i, lclp)
    ensures AlikeOut(DecTree(inp, s, tr, limit, i), DecTree(inp, t, tr, limit, i), k + limit, lclp)
    decreases limit - i
  {
    hide DecBit, DecTree, Node, Alike, ValidCell, Rank, RankedTree;
    TreeNext(inp, s, tr, limit, i);
    TreeNext(inp, t, tr, limit, i);
    var c := Node(tr, i);
    RankedNode(tr, limit, k, lclp, i);
    BitAlike(inp, s, t, c, k + i, lclp);
    var r, q := DecBit(inp, s, c), DecBit(inp, t, c);
    if r.Got? {
      var j := 2 * i + r.value;
      if j < limit {
        AlikeLater(r.src, q.src, k + i + 1, k + j, lclp);
        TreeAlike(inp, r.src, q.src, tr, limit, j, k, lclp);
      } else {
        AlikeLater(r.src, q.src, k + i + 1, k + limit, lclp);
      }
    }
  }

  lemma {:induction false} ReverseAlike(inp: seq<byte>, s: Src, t: Src, tr: Tree, n: nat, i: nat, mask: nat, acc: nat, limit: nat, k: int, lclp: nat)
    requires Level(i, n, limit) && RankedTree(tr, limit, k, lclp) && Alike(s, t, k + i, lclp)
    ensures AlikeOut(DecReverse(inp, s, tr, n, i, mask, acc), DecReverse(inp, t, tr, n, i, mask, acc), k + 2 * limit, lclp)
    decreases n
  {
    hide DecBit, DecReverse, Node, Alike, ValidCell, Rank, Level, RankedTree;
    ReverseNext(inp, s, tr, n, i, mask, acc);
    ReverseNext(inp, t, tr, n, i, mask, acc);
    if n == 0 {
      LevelZero(i, limit);
      AlikeLater(s, t, k + i, k + 2 * limit, lclp);
    } else {
      LevelStep(i, n, limit, 0);
      LevelStep(i, n, limit, 1);
      LevelOne(i, n, limit);
      var c := Node(tr, i);
      RankedNode(tr, limit, k, lclp, i);
      BitAlike(inp, s, t, c, k + i, lclp);
      var r, q := DecBit(inp, s, c), DecBit(inp, t, c);
      if r.Got? {
        var j := 2 * i + r.value;
        AlikeLater(r.src, q.src, k + i + 1, k + j, lclp);
        ReverseAlike(inp, r.src, q.src, tr, n - 1, j, 2 * mask, if r.value == 1 then acc + mask else acc, limit, k, lclp);
      }
    }
  }

  lemma {:induction false} LevelZero(i: nat, limit: nat)
    requires Level(i, 0, limit)
    ensures i <= 2 * limit
  {
  }

  lemma {:induction false} LevelOne(i: nat, n: nat, limit: nat)
    requires Level(i, n, limit)
    ensures i >= 1
  {
  }

  lemma {:induction false} DirectBitsAlike(inp: seq<byte>, s: Src, t: Src, n: nat, acc: nat, k: int, lclp: nat)
    requires Alike(s, t, k, lclp)
    ensures AlikeOut(DecDirectBits(inp, s, n, acc), DecDirectBits(inp, t, n, acc), k, lclp)
    decreases n
  {
    hide DecDirect, Alike;
    if n > 0 {
      DirectAlike(inp, s, t, k, lclp);
      var r, q := DecDirect(inp, s), DecDirect(inp, t);
      if r.Got? {
        DirectBitsAlike(inp, r.src, q.src, n - 1, 2 * acc + r.value, k, lclp);
      }
    }
  }

  lemma {:induction false} MatchedAlike(inp: seq<byte>, s: Src, t: Src, base: nat, sym: nat, x: nat, offs: nat, lclp: nat)
    requires 1 <= sym < 0x100 && (offs == 0 || offs == 0x100)
    requires base % 0x300 == 0 && base + 0x300 <= NumLits(lclp) && Alike(s, t, 10 + sym, lclp)
    ensures AlikeOut(DecMatched(inp, s, base, sym, x, offs), DecMatched(inp, t, base, sym, x, offs), 10 + 0x100, lclp)
    decreases 0x100 - sym
  {
    hide DecBit, DecMatched, AndOffs, NextOffs, Alike, NumLits;
    MatchedNext(inp, s, base, sym, x, offs);
    MatchedNext(inp, t, base, sym, x, offs);
    var mbit := AndOffs(2 * x, offs);
    var c := Lit(base + (offs + mbit + sym));
    LitRank(base, offs + mbit, sym);
    BitAlike(inp, s, t, c, 10 + sym, lclp);
    var r, q := DecBit(inp, s, c), DecBit(inp, t, c);
    if r.Got? {
      var j := 2 * sym + r.value;
      if j < 0x100 {
        AlikeLater(r.src, q.src, 10 + sym + 1, 10 + j, lclp);
        MatchedAlike(inp, r.src, q.src, base, j, 2 * x, NextOffs(offs, mbit, r.value), lclp);
      } else {
        AlikeLater(r.src, q.src, 10 + sym + 1, 10 + 0x100, lclp);
      }
    }
  }

  lemma {:induction false} LitRank(base: nat, o: nat, sym: nat)
    requires base % 0x300 == 0 && (o == 0 || o == 0x100 || o == 0x200) && sym < 0x100
    ensures Rank(Lit(base + (o + sym))) == 10 + sym
  {
    var q := base / 0x300;
    assert base == 0x300 * q;
    DivUnique(base + (o + sym), 0x100, 3 * q + (if o == 0 then 0 else if o == 0x100 then 1 else 2), sym);
  }

  lemma {:induction false} LitTreeRanked(base: nat, lclp: nat)
    requires base % 0x300 == 0 && base + 0x300 <= NumLits(lclp)
    ensures RankedTree(LitTree(base), 0x100, 10, lclp)
  {
    hide NumLits;
    forall m | 1 <= m < 0x100
      ensures Rank(Node(LitTree(base), m)) == 10 + m
    {
      LitRank(base, 0, m);
    }
  }

  lemma {:induction false} LitBaseAligned(pr: Props, hist: seq<byte>)
    requires ValidProps(pr)
    ensures LitBase(pr, hist) % 0x300 == 0
  {
    hide Pow2;
  }

  lemma {:induction false} LenTreesRanked(rep: bool, ps: nat, lclp: nat)
    requires ps < NUM_POS_STATES_MAX
    ensures RankedTree(LowTree(rep, ps), 8, 20 + 8 * ps, lclp)
    ensures RankedTree(MidTree(rep, ps), 8, 20 + 8 * ps, lclp)
    ensures RankedTree(HighTree(rep), 0x100, 20, lclp)
  {
    hide NumLits;
  }

  lemma {:induction false} LenAlike(inp: seq<byte>, s: Src, t: Src, rep: bool, ps: nat, lclp: nat)
    requires ps < NUM_POS_STATES_MAX && Alike(s, t, 10, lclp)
    ensures AlikeOut(DecLen(inp, s, rep, ps), DecLen(inp, t, rep, ps), 1000, lclp)
  {
    hide DecBit, DecTree, Alike, RankedTree, NumLits;
    LenTreesRanked(rep, ps, lclp);
    BitAlike(inp, s, t, Choice(rep), 10, lclp);
    var r, q := DecBit(inp, s, Choice(rep)), DecBit(inp, t, Choice(rep));
    if r.Got? {
      if r.value == 0 {
        AlikeLater(r.src, q.src, 11, 20 + 8 * ps + 1, lclp);
        TreeAlike(inp, r.src, q.src, LowTree(rep, ps), 8, 1, 20 + 8 * ps, lclp);
        TreeLater(inp, r.src, q.src, LowTree(rep, ps), 8, 20 + 8 * ps, lclp);
      } else {
        BitAlike(inp, r.src, q.src, Choice2(rep), 11, lclp);
        var r2, q2 := DecBit(inp, r.src, Choice2(rep)), DecBit(inp, q.src, Choice2(rep));
        if r2.Got? {
          if r2.value == 0 {
            AlikeLater(r2.src, q2.src, 12, 20 + 8 * ps + 1, lclp);
            TreeAlike(inp, r2.src, q2.src, MidTree(rep, ps), 8, 1, 20 + 8 * ps, lclp);
            TreeLater(inp, r2.src, q2.src, MidTree(rep, ps), 8, 20 + 8 * ps, lclp);
          } else {
            AlikeLater(r2.src, q2.src, 12, 21, lclp);
            TreeAlike(inp, r2.src, q2.src, HighTree(rep), 0x100, 1, 20, lclp);
            TreeLater(inp, r2.src, q2.src, HighTree(rep), 0x100, 20, lclp);
          }
        }
      }
    }
  }

  lemma {:induction false} TreeLater(inp: seq<byte>, s: Src, t: Src, tr: Tree, limit: nat, k: int, lclp: nat)
    requires 1 < limit && k + limit <= 1000
    requires AlikeOut(DecTree(inp, s, tr, limit, 1), DecTree(inp, t, tr, limit, 1), k + limit, lclp)
    ensures AlikeOut(DecTree(inp, s, tr, limit, 1), DecTree(inp, t, tr, limit, 1), 1000, lclp)
  {
    hide DecTree, Alike;
    var r, q := DecTree(inp, s, tr, limit, 1), DecTree(inp, t, tr, limit, 1);
    if r.Got? {
      AlikeLater(r.src, q.src, k + limit, 1000, lclp);
    }
  }

  lemma {:induction false} SlotTreeRanked(l: nat, lclp: nat)
    requires l < 4
    ensures RankedTree(PosSlotTree(l), 64, 1000, lclp)
  {
    hide NumLits;
  }

  lemma {:induction false} FooterTreesRanked(slot: nat, lclp: nat)
    requires START_POS_MODEL <= slot < END_POS_MODEL
    ensures RankedTree(SpecTree(SlotBase(slot) - slot - 1), Pow2(FooterBits(slot)), 2000 + SlotBase(slot) - slot - 1, lclp)
    ensures SlotBase(slot) - slot - 1 >= -1
  {
    hide NumLits;
    SpecTreeFits(slot, lclp);
    SpecOffset(slot);
  }

  lemma {:induction false} SpecOffset(slot: nat)
    requires START_POS_MODEL <= slot < END_POS_MODEL
    ensures SlotBase(slot) - slot - 1 >= -1
  {
    Pow2Table();
  }

  lemma {:induction false} AlignTreeRanked(lclp: nat)
    ensures RankedTree(AlignTree, 16, 2000, lclp)
    ensures Level(1, 4, 16)
  {
    Pow2Small();
  }

  lemma {:induction false} FooterAlike(inp: seq<byte>, s: Src, t: Src, slot: nat, lclp: nat)
    requires START_POS_MODEL <= slot < 64 && Alike(s, t, 2000, lclp)
    ensures AlikeOut(DecFooter(inp, s, slot), DecFooter(inp, t, slot), 9000, lclp)
  {
    hide DecReverse, DecDirectBits, Alike, RankedTree, SlotBase, Level, Pow2;
    var n := FooterBits(slot);
    var r, q := DecFooter(inp, s, slot), DecFooter(inp, t, slot);
    if slot < END_POS_MODEL {
      var o := SlotBase(slot) - slot - 1;
      FooterTreesRanked(slot, lclp);
      LevelRoot(n);
      AlikeLater(s, t, 2000, 2000 + o + 1, lclp);
      ReverseAlike(inp, s, t, SpecTree(o), n, 1, 1, SlotBase(slot), Pow2(n), 2000 + o, lclp);
      if r.Got? {
        FooterSize(slot);
        AlikeLater(r.src, q.src, 2000 + o + 2 * Pow2(n), 9000, lclp);
      }
    } else {
      DirectBitsAlike(inp, s, t, n - 4, 2 + slot % 2, 2000, lclp);
      var d, e := DecDirectBits(inp, s, n - 4, 2 + slot % 2), DecDirectBits(inp, t, n - 4, 2 + slot % 2);
      AlignTreeRanked(lclp);
      if d.Got? {
        AlikeLater(d.src, e.src, 2000, 2001, lclp);
        ReverseAlike(inp, d.src, e.src, AlignTree, 4, 1, 1, d.value * 16, 16, 2000, lclp);
        if r.Got? {
          AlikeLater(r.src, q.src, 2000 + 2 * 16, 9000, lclp);
        }
      }
    }
  }

  lemma {:induction false} FooterSize(slot: nat)
    requires START_POS_MODEL <= slot < END_POS_MODEL
    ensures 2000 + SlotBase(slot) - slot - 1 + 2 * Pow2(FooterBits(slot)) <= 9000
  {
    Pow2Table();
  }

  lemma {:induction false} DistAlike(inp: seq<byte>, s: Src, t: Src, lenSym: nat, lclp: nat)
    requires Alike(s, t, 1000, lclp)
    ensures AlikeOut(DecDist(inp, s, lenSym), DecDist(inp, t, lenSym), 9000, lclp)
  {
    hide DecTree, DecFooter, Alike, RankedTree;
    var l := if lenSym < 4 then lenSym else 3;
    SlotTreeRanked(l, lclp);
    AlikeLater(s, t, 1000, 1001, lclp);
    TreeAlike(inp, s, t, PosSlotTree(l), 64, 1, 1000, lclp);
    var r, q := DecTree(inp, s, PosSlotTree(l), 64, 1), DecTree(inp, t, PosSlotTree(l), 64, 1);
    if r.Got? {
      if r.value - 64 < START_POS_MODEL {
        AlikeLater(r.src, q.src, 1064, 9000, lclp);
      } else {
        AlikeLater(r.src, q.src, 1064, 2000, lclp);
        FooterAlike(inp, r.src, q.src, r.value - 64, lclp);
      }
    }
  }

  lemma {:induction false} LiteralAlike(inp: seq<byte>, s: Src, t: Src, pr: Props, v: View)
    requires ValidProps(pr) && ViewOk(v) && Alike(s, t, 10, pr.lc + pr.lp)
    ensures AlikeOut(DecLiteral(inp, s, pr, v), DecLiteral(inp, t, pr, v), 9000, pr.lc + pr.lp)
  {
    hide DecTree, DecMatched, Alike, RankedTree, LitBase;
    var lclp := pr.lc + pr.lp;
    var base := LitBase(pr, v.hist);
    LitBaseFits(pr, v.hist);
    LitBaseAligned(pr, v.hist);
    AlikeLater(s, t, 10, 11, lclp);
    var r, q := DecLiteral(inp, s, pr, v), DecLiteral(inp, t, pr, v);
    if v.state < NUM_LIT_STATES {
      LitTreeRanked(base, lclp);
      TreeAlike(inp, s, t, LitTree(base), 0x100, 1, 10, lclp);
    } else {
      MatchedAlike(inp, s, t, base, 1, v.hist[|v.hist| - v.reps[0]], 0x100, lclp);
    }
    if r.Got? {
      AlikeLater(r.src, q.src, 10 + 0x100, 9000, lclp);
    }
  }

  lemma {:induction false} RepIndexAlike(inp: seq<byte>, s: Src, t: Src, st: nat, ps: nat, lclp: nat)
    requires st < NUM_STATES && ps < NUM_POS_STATES_MAX && Alike(s, t, 2, lclp)
    ensures AlikeOut(DecRepIndex(inp, s, st, ps), DecRepIndex(inp, t, st, ps), 10, lclp)
  {
    hide DecBit, Alike, NumLits;
    BitAlike(inp, s, t, IsRepG0(st), 2, lclp);
    var r, q := DecBit(inp, s, IsRepG0(st)), DecBit(inp, t, IsRepG0(st));
    var e, f := DecRepIndex(inp, s, st, ps), DecRepIndex(inp, t, st, ps);
    if r.Got? {
      if r.value == 0 {
        BitAlike(inp, r.src, q.src, IsRep0Long(st, ps), 3, lclp);
        if e.Got? {
          AlikeLater(e.src, f.src, 4, 10, lclp);
        }
      } else {
        BitAlike(inp, r.src, q.src, IsRepG1(st), 3, lclp);
        var r2, q2 := DecBit(inp, r.src, IsRepG1(st)), DecBit(inp, q.src, IsRepG1(st));
        if r2.Got? {
          if r2.value == 0 {
            AlikeLater(r2.src, q2.src, 4, 10, lclp);
          } else {
            BitAlike(inp, r2.src, q2.src, IsRepG2(st), 4, lclp);
            if e.Got? {
              AlikeLater(e.src, f.src, 5, 10, lclp);
            }
          }
        }
      }
    }
  }

  /** The dry run of a packet ends where the real run ends, with the same packet, or runs short
      exactly when the real run does. */
  lemma {:induction false} PacketAlike(inp: seq<byte>, s: Src, t: Src, pr: Props, v: View)
    requires ValidProps(pr) && ViewOk(v) && Alike(s, t, 0, pr.lc + pr.lp)
    ensures AlikeOut(DecPacket(inp, s, pr, v), DecPacket(inp, t, pr, v), 9000, pr.lc + pr.lp)
  {
    hide DecBit, DecLiteral, DecLen, DecDist, DecRepIndex, Alike, PosState, NumLits;
    var lclp := pr.lc + pr.lp;
    var ps, st := PosState(pr, |v.hist|), v.state;
    PosStateRange(pr, |v.hist|);
    BitAlike(inp, s, t, IsMatch(st, ps), 0, lclp);
    var r, q := DecBit(inp, s, IsMatch(st, ps)), DecBit(inp, t, IsMatch(st, ps));
    var e, f := DecPacket(inp, s, pr, v), DecPacket(inp, t, pr, v);
    if r.Got? {
      if r.value == 0 {
        AlikeLater(r.src, q.src, 1, 10, lclp);
        LiteralAlike(inp, r.src, q.src, pr, v);
      } else {
        BitAlike(inp, r.src, q.src, IsRep(st), 1, lclp);
        var r2, q2 := DecBit(inp, r.src, IsRep(st)), DecBit(inp, q.src, IsRep(st));
        if r2.Got? {
          if r2.value == 0 {
            MatchAlike(inp, r2.src, q2.src, ps, lclp);
          } else {
            RepAlike(inp, r2.src, q2.src, st, ps, lclp);
          }
        }
      }
    }
  }

  lemma {:induction false} MatchAlike(inp: seq<byte>, s: Src, t: Src, ps: nat, lclp: nat)
    requires ps < NUM_POS_STATES_MAX && Alike(s, t, 2, lclp)
    ensures var l, m := DecLen(inp, s, false, ps), DecLen(inp, t, false, ps);
            && AlikeOut(l, m, 1000, lclp)
            && (l.Got? ==> AlikeOut(DecDist(inp, l.src, l.value), DecDist(inp, m.src, l.value), 9000, lclp))
  {
    hide DecLen, DecDist, Alike;
    AlikeLater(s, t, 2, 10, lclp);
    LenAlike(inp, s, t, false, ps, lclp);
    var l, m := DecLen(inp, s, false, ps), DecLen(inp, t, false, ps);
    if l.Got? {
      DistAlike(inp, l.src, m.src, l.value, lclp);
    }
  }

  lemma {:induction false} RepAlike(inp: seq<byte>, s: Src, t: Src, st: nat, ps: nat, lclp: nat)
    requires st < NUM_STATES && ps < NUM_POS_STATES_MAX && Alike(s, t, 2, lclp)
    ensures var i, j := DecRepIndex(inp, s, st, ps), DecRepIndex(inp, t, st, ps);
            && AlikeOut(i, j, 9000, lclp)
            && (i.Got? ==> AlikeOut(DecLen(inp, i.src, true, ps), DecLen(inp, j.src, true, ps), 9000, lclp))
  {
    hide DecLen, DecRepIndex, Alike;
    RepIndexAlike(inp, s, t, st, ps, lclp);
    var i, j := DecRepIndex(inp, s, st, ps), DecRepIndex(inp, t, st, ps);
    if i.Got? {
      LenAlike(inp, i.src, j.src, true, ps, lclp);
      var l, m := DecLen(inp, i.src, true, ps), DecLen(inp, j.src, true, ps);
      if l.Got? {
        AlikeLater(l.src, m.src, 1000, 9000, lclp);
      }
      AlikeLater(i.src, j.src, 10, 9000, lclp);
    }
  }
}
