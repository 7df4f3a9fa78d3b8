/**
 * The dry run of LzmaDec_TryDummy over its own copies of range, code and input position. It reads
 * the probabilities and adapts none of them.
 */
module Dummy {
  import opened Bytes
  import opened Cells
  import opened RangeSpec
  import opened Slots
  import opened Packets
  import opened DecSpec
  import opened DryRun

  class Peek {
    const probs: array<Prob>
    const buf: seq<byte>
    var range: coderange
    var code: word
    var bufPos: nat

    ghost const lclp: nat
    /** All input known; buf is its tail from offset base on. */
    ghost const fed: seq<byte>
    ghost const base: nat

    ghost predicate Valid()
      reads this`bufPos
    {
      && probs.Length == NumProbs(lclp)
      && bufPos <= |buf| && base + |buf| == |fed| && fed[base..] == buf
    }

    ghost function Cur(): Src
      reads this`range, this`code, this`bufPos, probs
    {
      Src(range, code, base + bufPos, probs[..], false)
    }

    constructor (probs: array<Prob>, buf: seq<byte>, range: coderange, code: word, ghost lclp: nat, ghost fed: seq<byte>)
      requires probs.Length == NumProbs(lclp) && |buf| <= |fed| && fed[|fed| - |buf|..] == buf
      ensures Valid() && Cur() == Src(range, code, |fed| - |buf|, probs[..], false)
      ensures this.probs == probs && this.fed == fed && this.lclp == lclp
    {
      this.probs, this.buf, this.range, this.code, this.bufPos := probs, buf, range, code, 0;
      this.lclp, this.fed, this.base := lclp, fed, |fed| - |buf|;
    }

    /** NORMALIZE_CHECK. */
    method Normalize() returns (ok: bool)
      requires Valid()
      modifies this
      ensures Valid() && Norm(fed, old(Cur())) == if ok then Got((), Cur()) else Short
    {
      hide NumProbs;
      if range < TOP {
        if bufPos >= |buf| {
          return false;
        }
        assert buf[bufPos] == fed[base + bufPos];
        range := range * 256;
        // (code << 8) | byte, in 32 bits
        code := code % TOP * 256 + buf[bufPos];
        bufPos := bufPos + 1;
      }
      ok := true;
    }

    /** IF_BIT_0_CHECK with UPDATE_0_CHECK and UPDATE_1_CHECK. */
    method Bit(i: int, ghost c: Cell) returns (ok: bool, b: bit)
      requires Valid() && ValidCell(c, lclp) && i == Index(c)
      modifies this
      ensures Valid() && DecBit(fed, old(Cur()), c) == if ok then Got(b, Cur()) else Short
    {
      hide Bound, NumProbs, ValidCell, Index;
      LayoutAgrees(c, lclp);
      ghost var s := Cur();
      b := 0;
      var ttt: int := probs[i];
      ok := Normalize();
      if ok {
        assert Norm(fed, s) == Got((), Cur());
        var bound := Bound(range, ttt);
        BoundFits(range, ttt);
        if code < bound {
          range := bound;
        } else {
          b := 1;
          range := range - bound;
          code := code - bound;
        }
      }
    }

    /** A direct bit; its value is not kept. */
    method DirectBit() returns (ok: bool, ghost b: bit)
      requires Valid()
      modifies this
      ensures Valid() && DecDirect(fed, old(Cur())) == if ok then Got(b, Cur()) else Short
    {
      hide NumProbs, Halve;
      ghost var s := Cur();
      b := 0;
      ok := Normalize();
      if ok {
        assert Norm(fed, s) == Got((), Cur());
        range := range / 2;
        MaskedSubtraction(code, range);
        b := Halve(code, range).0;
        // range & (((code - range) >> 31) - 1)
        var mask := U32(U32(code - range) / 0x8000_0000 - 1);
        code := U32(code - if mask == 0 then 0 else range);
      }
    }

    method Tree(prob: int, limit: nat, ghost t: Tree) returns (ok: bool, i: nat)
      requires Valid() && limit > 1 && TreeFits(t, limit, lclp) && prob == Base(t)
      modifies this
      ensures Valid() && DecTree(fed, old(Cur()), t, limit, 1) == if ok then Got(i, Cur()) else Short
    {
      hide DecBit, DecTree, Node, ValidCell, Base, Index;
      ghost var goal := DecTree(fed, Cur(), t, limit, 1);
      i := 1;
      while i < limit
        invariant 1 <= i && Valid()
        invariant i < limit ==> DecTree(fed, Cur(), t, limit, i) == goal
        invariant i >= limit ==> Got(i, Cur()) == goal
        decreases limit - i
      {
        TreeNext(fed, Cur(), t, limit, i);
        NodeIndex(t, i);
        var b;
        ok, b := Bit(prob + i, Node(t, i));
        if !ok {
          return;
        }
        i := 2 * i + b;
      }
      ok := true;
    }

    method Reverse(prob: int, n: nat, ghost t: Tree, ghost limit: nat, ghost start: nat) returns (ok: bool, ghost v: nat)
      requires Valid() && TreeFits(t, limit, lclp) && Level(1, n, limit) && prob == Base(t)
      modifies this
      ensures Valid() && DecReverse(fed, old(Cur()), t, n, 1, 1, start) == if ok then Got(v, Cur()) else Short
    {
      hide DecBit, DecReverse, Node, ValidCell, Base, Index, Level;
      ghost var goal := DecReverse(fed, Cur(), t, n, 1, 1, start);
      var i: nat, k := 1, n;
      ghost var mask: nat := 1;
      v := start;
      while k != 0
        invariant 0 <= k <= n && i >= 1 && Level(i, k, limit) && Valid()
        invariant DecReverse(fed, Cur(), t, k, i, mask, v) == goal
        decreases k
      {
        ReverseNext(fed, Cur(), t, k, i, mask, v);
        LevelStep(i, k, limit, 0);
        LevelStep(i, k, limit, 1);
        NodeIndex(t, i);
        var b;
        ok, b := Bit(prob + i, Node(t, i));
        if !ok {
          return;
        }
        i := 2 * i + b;
        v, mask, k := if b == 1 then v + mask else v, 2 * mask, k - 1;
      }
      ReverseNext(fed, Cur(), t, 0, i, mask, v);
      ok := true;
    }

    method DirectBits(n: nat, ghost start: nat) returns (ok: bool, ghost v: nat)
      requires Valid()
      modifies this
      ensures Valid() && DecDirectBits(fed, old(Cur()), n, start) == if ok then Got(v, Cur()) else Short
    {
      hide DecDirect, DecDirectBits;
      ghost var goal := DecDirectBits(fed, Cur(), n, start);
      v := start;
      var k := n;
      while k != 0
        invariant 0 <= k <= n && Valid()
        invariant DecDirectBits(fed, Cur(), k, v) == goal
        decreases k
      {
        DirectNext(fed, Cur(), k, v);
        ghost var b;
        ok, b := DirectBit();
        if !ok {
          return;
        }
        v, k := 2 * v + b, k - 1;
      }
      DirectNext(fed, Cur(), 0, v);
      ok := true;
    }

    method MatchedLiteral(prob: int, match0: byte, ghost lit: nat) returns (ok: bool, ghost v: nat)
      requires Valid() && prob == LITERAL + lit && lit + 0x300 <= NumLits(lclp)
      modifies this
      ensures Valid() && DecMatched(fed, old(Cur()), lit, 1, match0, 0x100) == if ok then Got(v, Cur()) else Short
    {
      hide DecBit, DecMatched, NumLits;
      ghost var goal := DecMatched(fed, Cur(), lit, 1, match0, 0x100);
      var matchByte: nat, offs: nat, symbol: nat := match0, 0x100, 1;
      v := 0;
      while symbol < 0x100
        invariant 1 <= symbol && (offs == 0 || offs == 0x100) && Valid()
        invariant symbol < 0x100 ==> DecMatched(fed, Cur(), lit, symbol, matchByte, offs) == goal
        invariant symbol >= 0x100 ==> Got(symbol, Cur()) == goal
        decreases 0x100 - symbol
      {
        MatchedNext(fed, Cur(), lit, symbol, matchByte, offs);
        matchByte := 2 * matchByte;
        var mbit := AndOffs(matchByte, offs);
        var b;
        ok, b := Bit(prob + offs + mbit + symbol, Lit(lit + (offs + mbit + symbol)));
        if !ok {
          return;
        }
        symbol := 2 * symbol + b;
        offs := NextOffs(offs, mbit, b);
      }
      v := symbol;
      ok := true;
    }

    method Len(prob: int, posState: nat, ghost rep: bool) returns (ok: bool, len: nat)
      requires Valid() && prob == LenBase(rep) && posState < NUM_POS_STATES_MAX
      modifies this
      ensures Valid() && DecLen(fed, old(Cur()), rep, posState) == if ok then Got(len, Cur()) else Short
    {
      hide DecBit, DecTree, ValidCell, NumLits;
      LenCells(rep, posState, lclp);
      var limit, offset, probLen, choice, choice2;
      ghost var t;
      len := 0;
      ok, choice := Bit(prob, Choice(rep));
      if !ok {
        return;
      }
      if choice == 0 {
        probLen, offset, limit := prob + LEN_LOW + 8 * posState, 0, 8;
        t := LowTree(rep, posState);
      } else {
        ok, choice2 := Bit(prob + LEN_CHOICE2, Choice2(rep));
        if !ok {
          return;
        }
        if choice2 == 0 {
          probLen, offset, limit := prob + LEN_MID + 8 * posState, 8, 8;
          t := MidTree(rep, posState);
        } else {
          probLen, offset, limit := prob + LEN_HIGH, 16, 0x100;
          t := HighTree(rep);
        }
      }
      var i;
      ok, i := Tree(probLen, limit, t);
      if ok {
        len := i - limit + offset;
      }
    }

    method Footer(posSlot: nat) returns (ok: bool, ghost v: nat)
      requires Valid() && START_POS_MODEL <= posSlot < 64
      modifies this
      ensures Valid() && DecFooter(fed, old(Cur()), posSlot) == if ok then Got(v, Cur()) else Short
    {
      hide DecReverse, DecDirectBits, TreeFits, Level, Pow2, NumLits;
      var numDirectBits := posSlot / 2 - 1;
      var lead := 2 + posSlot % 2;
      v := 0;
      if posSlot < END_POS_MODEL {
        LeadBase(posSlot);
        FooterTreesRanked(posSlot, lclp);
        SpecTreeFits(posSlot, lclp);
        LevelRoot(numDirectBits);
        var start := lead * Pow2(numDirectBits);
        ok, v := Reverse(SPEC_POS + start - posSlot - 1, numDirectBits, SpecTree(start - posSlot - 1),
          Pow2(numDirectBits), start);
      } else {
        ghost var d;
        ok, d := DirectBits(numDirectBits - 4, lead);
        if !ok {
          return;
        }
        AlignTreeRanked(lclp);
        AlignFits(lclp);
        ok, v := Reverse(ALIGN, 4, AlignTree, 16, d * 16);
      }
    }

    method Dist(len: nat) returns (ok: bool, ghost v: nat)
      requires Valid()
      modifies this
      ensures Valid() && DecDist(fed, old(Cur()), len) == if ok then Got(v, Cur()) else Short
    {
      hide DecTree, DecFooter, ValidCell, NumLits;
      var lenState := if len < NUM_LEN_TO_POS_STATES then len else NUM_LEN_TO_POS_STATES - 1;
      SlotTreeFits(lenState, lclp);
      var i;
      v := 0;
      ok, i := Tree(POS_SLOT + 64 * lenState, 64, PosSlotTree(lenState));
      if !ok {
        return;
      }
      var posSlot := i - 64;
      v := posSlot;
      if posSlot >= START_POS_MODEL {
        ok, v := Footer(posSlot);
      }
    }

    method RepFlags(state: nat, posState: nat) returns (ok: bool, short: bool, ghost idx: int)
      requires Valid() && state < NUM_STATES && posState < NUM_POS_STATES_MAX
      modifies this
      ensures Valid() && DecRepIndex(fed, old(Cur()), state, posState) == if ok then Got(idx, Cur()) else Short
      ensures ok ==> (short <==> idx == -1)
    {
      hide DecBit, NumProbs, NumLits;
      short, idx := false, 0;
      var g0, long, g1, g2;
      ok, g0 := Bit(IS_REP_G0 + state, IsRepG0(state));
      if !ok {
        return;
      }
      if g0 == 0 {
        ok, long := Bit(IS_REP0_LONG + 16 * state + posState, IsRep0Long(state, posState));
        short, idx := long == 0, long as int - 1;
      } else {
        ok, g1 := Bit(IS_REP_G1 + state, IsRepG1(state));
        idx := 1;
        if ok && g1 != 0 {
          ok, g2 := Bit(IS_REP_G2 + state, IsRepG2(state));
          idx := 2 + g2 as int;
        }
      }
    }
  }

  /** The branch-free form of a direct bit's effect on the code. */
  lemma {:induction false} MaskedSubtraction(code: word, half: word)
    ensures var mask := U32(U32(code - half) / 0x8000_0000 - 1);
            && (mask == 0 || mask == 0xFFFF_FFFF)
            && Halve(code, half).1 == U32(code - if mask == 0 then 0 else half)
  {
    var d := U32(code - half);
    if code >= half {
      assert d == code - half;
    } else {
      assert d == code - half + WORD;
    }
  }

}
