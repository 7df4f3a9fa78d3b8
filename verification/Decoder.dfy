/** CLzmaDec: the resumable decoder over a flat probability table and a circular dictionary. */
module Decoder {
  import opened Bytes
  import opened Cells
  import opened RangeSpec
  import opened Slots
  import opened Packets
  import opened DecSpec
  import opened Stream
  import opened Locality
  import opened InputBound
  import opened DryRun
  import opened Dummy

  /** remainLen values from here on mean that the end marker was decoded. */
  const MATCH_SPEC_LEN_START := 274

  /** The packet read does not depend on whether a pending normalization is done first. */
  lemma {:induction false} PacketAfterNorm(inp: seq<byte>, s: Src, pr: Props, v: View)
    requires ValidProps(pr) && ViewOk(v) && Norm(inp, s).Got?
    ensures DecPacket(inp, Norm(inp, s).src, pr, v) == DecPacket(inp, s, pr, v)
  {
    hide DecLiteral, DecLen, DecDist, DecRepIndex, Bound, Adapt, Index, PosState, ViewOk;
    var c := IsMatch(v.state, PosState(pr, |v.hist|));
    assert DecBit(inp, Norm(inp, s).src, c) == DecBit(inp, s, c);
  }

  // ----- the dictionary -----

  /** Where the byte d positions back is kept. */
  function Back(dicPos: nat, dicBufSize: nat, d: nat): int {
    if d <= dicPos then dicPos - d else dicPos - d + dicBufSize
  }

  /** The circular buffer holds the most recent bytes of the output. */
  ghost predicate Ring(dic: seq<byte>, dicPos: nat, written: seq<byte>) {
    && dicPos <= |dic| && dicPos <= |written|
    && forall d :: 1 <= d <= |written| && d <= |dic| ==> 0 <= Back(dicPos, |dic|, d) < |dic|
                                                         && dic[Back(dicPos, |dic|, d)] == written[|written| - d]
  }

  lemma {:induction false} RingWrite(dic: seq<byte>, dicPos: nat, written: seq<byte>, b: byte)
    requires Ring(dic, dicPos, written) && dicPos < |dic|
    ensures Ring(dic[dicPos := b], dicPos + 1, written + [b])
  {
    var w, r := written + [b], dic[dicPos := b];
    forall d {:trigger Back(dicPos + 1, |dic|, d)} | 1 <= d <= |w| && d <= |dic|
      ensures 0 <= Back(dicPos + 1, |dic|, d) < |dic| && r[Back(dicPos + 1, |dic|, d)] == w[|w| - d]
    {
      if d > 1 {
        assert w[|w| - d] == written[|written| - (d - 1)];
        assert Back(dicPos + 1, |dic|, d) == Back(dicPos, |dic|, d - 1) != dicPos;
      }
    }
  }

  /** Going on at the front of a full buffer. */
  lemma {:induction false} RingWrap(dic: seq<byte>, written: seq<byte>)
    requires Ring(dic, |dic|, written)
    ensures Ring(dic, 0, written)
  {
    forall d | 1 <= d <= |written| && d <= |dic|
      ensures 0 <= Back(0, |dic|, d) < |dic| && dic[Back(0, |dic|, d)] == written[|written| - d]
    {
      assert Back(0, |dic|, d) == Back(|dic|, |dic|, d);
    }
  }

  lemma {:induction false} RingAt(dic: seq<byte>, dicPos: nat, written: seq<byte>, d: nat)
    requires Ring(dic, dicPos, written) && 1 <= d <= |written| && d <= |dic|
    ensures 0 <= Back(dicPos, |dic|, d) < |dic|
    ensures dic[Back(dicPos, |dic|, d)] == written[|written| - d]
  {
  }

  // ----- copies in pieces -----

  lemma {:induction false} ExpandSplit(hist: seq<byte>, dist: nat, a: nat, b: nat)
    requires dist < |hist|
    ensures Expand(Expand(hist, dist, a), dist, b) == Expand(hist, dist, a + b)
    decreases a
  {
    if a > 0 {
      ExpandSplit(hist + [hist[|hist| - 1 - dist]], dist, a - 1, b);
    }
  }

  lemma {:induction false} ExpandOne(hist: seq<byte>, dist: nat)
    requires dist < |hist|
    ensures Expand(hist, dist, 0) == hist
    ensures Expand(hist, dist, 1) == hist + [hist[|hist| - 1 - dist]]
  {
    assert Expand(hist + [hist[|hist| - 1 - dist]], dist, 0) == hist + [hist[|hist| - 1 - dist]];
  }

  lemma {:induction false} ExpandGrow(hist: seq<byte>, dist: nat, k: nat)
    requires dist < |hist|
    ensures var h := Expand(hist, dist, k);
            Expand(hist, dist, k + 1) == h + [h[|h| - 1 - dist]]
  {
    hide Expand;
    ExpandSplit(hist, dist, k, 1);
    ExpandOne(Expand(hist, dist, k), dist);
  }

  datatype DummyResult = DummyError | DummyLit | DummyMatch | DummyRep

  function KindOf(pk: Packet): DummyResult {
    match pk
    case Literal(_) => DummyLit
    case Match(_, _) => DummyMatch
    case _ => DummyRep
  }

  datatype Status = NotSpecified | FinishedWithMark | NotFinished | NeedsMoreInput | MaybeFinishedWithoutMark

  datatype Progress = Progressed | Starved | NotAMark | Corrupt

  datatype SymbolResult = SymbolOk | SymbolEnd | SymbolError

  class LzmaDec {
    const pr: Props
    const dicSize: nat
    const probs: array<Prob>
    const dic: array<byte>

    /** The bytes the input pointer runs through, and how many of them are consumed. */
    var buf: seq<byte>
    var bufPos: nat
    var range: coderange
    var code: word
    var dicPos: nat
    var processedPos: word
    var checkDicSize: word
    var state: nat
    var reps: seq<nat>
    var remainLen: nat

    /** Input taken over but not consumed: the start of a header or of a packet. */
    var tempBuf: seq<byte>
    var needFlush: bool
    var needInitState: bool

    /** All input known so far; buf is its tail from offset base on. */
    ghost var fed: seq<byte>
    ghost var base: nat
    /** All output so far. */
    ghost var written: seq<byte>
    /** The first count packets of the input lead to cur. */
    ghost var count: nat
    ghost var cur: Dec

    // ----- arithmetic state -----

    ghost function Lclp(): nat {
      pr.lc + pr.lp
    }

    ghost predicate Tables() {
      ValidProps(pr) && probs.Length == NumProbs(Lclp()) && probs as object != dic
    }

    ghost predicate Reading()
      reads this`buf, this`bufPos, this`fed, this`base
    {
      && Tables()
      && bufPos <= |buf| && base + |buf| == |fed| && fed[base..] == buf
    }

    ghost function Cur(): Src
      reads this`range, this`code, this`bufPos, this`base, probs
    {
      Src(range, code, base + bufPos, probs[..], true)
    }

    /** NORMALIZE. */
    method Normalize()
      requires Reading() && Norm(fed, Cur()).Got?
      modifies this`range, this`code, this`bufPos
      ensures Reading() && Norm(fed, old(Cur())) == Got((), Cur())
    {
      hide NumProbs;
      if range < TOP {
        assert buf[bufPos] == fed[base + bufPos];
        range := range * 256;
        // (code << 8) | byte, in 32 bits
        code := code % TOP * 256 + buf[bufPos];
        bufPos := bufPos + 1;
      }
    }

    /** IF_BIT_0 with UPDATE_0 and UPDATE_1 on the probability at address i. */
    method DecodeBit(i: int, ghost c: Cell) returns (b: bit)
      requires Reading() && ValidCell(c, Lclp()) && i == Index(c)
      requires DecBit(fed, Cur(), c).Got?
      modifies this`range, this`code, this`bufPos, probs
      ensures Reading() && DecBit(fed, old(Cur()), c) == Got(b, Cur())
    {
      hide Bound, NumProbs, ValidCell, Index;
      LayoutAgrees(c, Lclp());
      ghost var s := Cur();
      var ttt: int := probs[i];
      Normalize();
      assert Norm(fed, s) == Got((), Cur());
      var bound := Bound(range, ttt);
      BoundFits(range, ttt);
      if code < bound {
        b := 0;
        range := bound;
        probs[i] := ttt + (2048 - ttt) / 32;
      } else {
        b := 1;
        range := range - bound;
        code := code - bound;
        probs[i] := ttt - ttt / 32;
      }
      assert probs[..] == s.probs[i := Adapt(ttt, b)];
    }

    /** One direct bit, by the sign of a 32-bit difference. */
    method DecodeDirectBit() returns (b: bit)
      requires Reading() && DecDirect(fed, Cur()).Got?
      modifies this`range, this`code, this`bufPos
      ensures Reading() && DecDirect(fed, old(Cur())) == Got(b, Cur())
    {
      hide NumProbs, Halve;
      ghost var s := Cur();
      Normalize();
      assert Norm(fed, s) == Got((), Cur());
      range := range / 2;
      HalveBranchFree(code, range);
      code := U32(code - range);
      // all ones if the difference is negative
      var t: int := U32(0 - code / 0x8000_0000);
      b := U32(t + 1);
      code := U32(code + if t == 0 then 0 else range);
    }

    /** TREE_DECODE, before its final subtraction of limit. */
    method DecodeTree(prob: int, limit: nat, ghost t: Tree) returns (i: nat)
      requires Reading() && limit > 1 && TreeFits(t, limit, Lclp()) && prob == Base(t)
      requires DecTree(fed, Cur(), t, limit, 1).Got?
      modifies this`range, this`code, this`bufPos, probs
      ensures Reading() && DecTree(fed, old(Cur()), t, limit, 1) == Got(i, Cur())
    {
      hide DecBit, DecTree, Node, ValidCell, Base, Index;
      ghost var goal := DecTree(fed, Cur(), t, limit, 1);
      i := 1;
      while i < limit
        invariant 1 <= i && Reading()
        invariant i < limit ==> DecTree(fed, Cur(), t, limit, i) == goal
        invariant i >= limit ==> Got(i, Cur()) == goal
        decreases limit - i
      {
        TreeNext(fed, Cur(), t, limit, i);
        NodeIndex(t, i);
        var b := DecodeBit(prob + i, Node(t, i));
        i := 2 * i + b;
      }
    }

    /** The reverse bit trees of the distance footers: distance |= mask, mask <<= 1. */
    method DecodeReverse(prob: int, n: nat, start: nat, ghost t: Tree, ghost limit: nat) returns (distance: nat)
      requires Reading() && TreeFits(t, limit, Lclp()) && Level(1, n, limit) && prob == Base(t)
      requires DecReverse(fed, Cur(), t, n, 1, 1, start).Got?
      modifies this`range, this`code, this`bufPos, probs
      ensures Reading() && DecReverse(fed, old(Cur()), t, n, 1, 1, start) == Got(distance, Cur())
    {
      hide DecBit, DecReverse, Node, ValidCell, Base, Index, Level;
      ghost var goal := DecReverse(fed, Cur(), t, n, 1, 1, start);
      var i: nat, mask: nat, k := 1, 1, n;
      distance := start;
      while k != 0
        invariant 0 <= k <= n && i >= 1 && Level(i, k, limit) && Reading()
        invariant DecReverse(fed, Cur(), t, k, i, mask, distance) == goal
        decreases k
      {
        ReverseNext(fed, Cur(), t, k, i, mask, distance);
        LevelStep(i, k, limit, 0);
        LevelStep(i, k, limit, 1);
        NodeIndex(t, i);
        var b := DecodeBit(prob + i, Node(t, i));
        i := 2 * i + b;
        distance := if b == 1 then distance + mask else distance;
        mask := 2 * mask;
        k := k - 1;
      }
      ReverseNext(fed, Cur(), t, 0, i, mask, distance);
    }

    method DecodeDirectBits(n: nat, start: nat) returns (distance: nat)
      requires Reading() && DecDirectBits(fed, Cur(), n, start).Got?
      modifies this`range, this`code, this`bufPos
      ensures Reading() && DecDirectBits(fed, old(Cur()), n, start) == Got(distance, Cur())
    {
      hide DecDirect, DecDirectBits;
      ghost var goal := DecDirectBits(fed, Cur(), n, start);
      distance := start;
      var k := n;
      while k != 0
        invariant 0 <= k <= n && Reading()
        invariant DecDirectBits(fed, Cur(), k, distance) == goal
        decreases k
      {
        DirectNext(fed, Cur(), k, distance);
        var b := DecodeDirectBit();
        distance := 2 * distance + b;
        k := k - 1;
      }
      DirectNext(fed, Cur(), 0, distance);
    }

    /** The literal loop that follows the byte at distance rep0 while the bits agree. */
    method DecodeMatchedLiteral(prob: int, match0: byte, ghost lit: nat) returns (symbol: nat)
      requires Reading() && prob == LITERAL + lit && lit + 0x300 <= NumLits(Lclp())
      requires DecMatched(fed, Cur(), lit, 1, match0, 0x100).Got?
      modifies this`range, this`code, this`bufPos, probs
      ensures Reading() && DecMatched(fed, old(Cur()), lit, 1, match0, 0x100) == Got(symbol, Cur())
    {
      hide DecBit, DecMatched, NumLits;
      ghost var goal := DecMatched(fed, Cur(), lit, 1, match0, 0x100);
      var matchByte: nat := match0;
      var offs: nat := 0x100;
      symbol := 1;
      while symbol < 0x100
        invariant 1 <= symbol && (offs == 0 || offs == 0x100) && Reading()
        invariant symbol < 0x100 ==> DecMatched(fed, Cur(), lit, symbol, matchByte, offs) == goal
        invariant symbol >= 0x100 ==> Got(symbol, Cur()) == goal
        decreases 0x100 - symbol
      {
        MatchedNext(fed, Cur(), lit, symbol, matchByte, offs);
        matchByte := 2 * matchByte;
        var mbit := AndOffs(matchByte, offs);
        var b := DecodeBit(prob + offs + mbit + symbol, Lit(lit + (offs + mbit + symbol)));
        symbol := 2 * symbol + b;
        offs := NextOffs(offs, mbit, b);
      }
    }

    /** A length minus 2, from the coder at prob. */
    method DecodeLen(prob: int, posState: nat, ghost rep: bool) returns (len: nat)
      requires Reading() && prob == LenBase(rep) && posState < NUM_POS_STATES_MAX
      requires DecLen(fed, Cur(), rep, posState).Got?
      modifies this`range, this`code, this`bufPos, probs
      ensures Reading() && DecLen(fed, old(Cur()), rep, posState) == Got(len, Cur()) && len < 272
    {
      hide DecBit, DecTree, ValidCell, NumLits, RankedTree;
      ghost var s := Cur();
      LenCells(rep, posState, Lclp());
      var limit, offset, probLen;
      var choice := DecodeBit(prob, Choice(rep));
      ghost var t;
      if choice == 0 {
        probLen := prob + LEN_LOW + 8 * posState;
        offset := 0;
        limit := 8;
        t := LowTree(rep, posState);
      } else {
        var choice2 := DecodeBit(prob + LEN_CHOICE2, Choice2(rep));
        if choice2 == 0 {
          probLen := prob + LEN_MID + 8 * posState;
          offset := 8;
          limit := 8;
          t := MidTree(rep, posState);
        } else {
          probLen := prob + LEN_HIGH;
          offset := 16;
          limit := 0x100;
          t := HighTree(rep);
        }
      }
      var i := DecodeTree(probLen, limit, t);
      len := i - limit + offset;
    }

    /** The footer of a distance whose slot is at least 4; the result is the distance minus 1. */
    method DecodeFooter(posSlot: nat) returns (distance: nat)
      requires Reading() && START_POS_MODEL <= posSlot < 64 && DecFooter(fed, Cur(), posSlot).Got?
      modifies this`range, this`code, this`bufPos, probs
      ensures Reading() && DecFooter(fed, old(Cur()), posSlot) == Got(distance, Cur())
    {
      hide DecReverse, DecDirectBits, TreeFits, Level, Pow2, NumLits;
      ghost var s := Cur();
      var numDirectBits := posSlot / 2 - 1;
      var lead := 2 + posSlot % 2;
      if posSlot < END_POS_MODEL {
        distance := lead * Pow2(numDirectBits);
        LeadBase(posSlot);
        FooterTreesRanked(posSlot, Lclp());
        SpecTreeFits(posSlot, Lclp());
        LevelRoot(numDirectBits);
        distance := DecodeReverse(SPEC_POS + distance - posSlot - 1, numDirectBits, distance,
          SpecTree(distance - posSlot - 1), Pow2(numDirectBits));
      } else {
        distance := DecodeDirectBits(numDirectBits - 4, lead);
        AlignTreeRanked(Lclp());
        AlignFits(Lclp());
        distance := DecodeReverse(ALIGN, 4, distance * 16, AlignTree, 16);
      }
    }

    /** Slot and footer of a distance; len is the length minus 2. */
    method DecodeDist(len: nat) returns (distance: nat)
      requires Reading() && DecDist(fed, Cur(), len).Got?
      modifies this`range, this`code, this`bufPos, probs
      ensures Reading() && DecDist(fed, old(Cur()), len) == Got(distance, Cur())
    {
      hide DecTree, DecFooter, ValidCell, NumLits;
      ghost var s := Cur();
      var lenState := if len < NUM_LEN_TO_POS_STATES then len else NUM_LEN_TO_POS_STATES - 1;
      SlotTreeFits(lenState, Lclp());
      var i := DecodeTree(POS_SLOT + 64 * lenState, 64, PosSlotTree(lenState));
      distance := i - 64;
      if distance >= START_POS_MODEL {
        distance := DecodeFooter(distance);
      }
    }

    // ----- dictionary -----

    /** Dictionary, positions and recent distances fit together. */
    ghost predicate Window()
      reads this`dicPos, this`processedPos, this`reps, this`written, dic
    {
      && 0 < dicSize < WORD && probs as object != dic
      && Ring(dic[..], dicPos, written)
      && (dicSize <= dic.Length || |written| == dicPos)
      && processedPos == U32(|written|)
      && |reps| == 4 && forall i :: 0 <= i < 4 ==> 1 <= reps[i] <= dicSize
    }

    /** checkDicSize is 0 exactly until dicSize bytes have been written. */
    ghost predicate CheckDic()
      reads this`checkDicSize, this`written
    {
      if checkDicSize == 0 then |written| < dicSize else checkDicSize == dicSize <= |written|
    }

    /** Between two packets, nothing of the last one pending. */
    ghost predicate Ready()
      reads this`dicPos, this`processedPos, this`reps, this`written, this`checkDicSize, this`remainLen, this`state, dic
    {
      Window() && CheckDic() && remainLen == 0 && ViewOk(View(state, reps, written))
    }

    method WriteByte(b: byte)
      requires Window() && dicPos < dic.Length
      modifies this`dicPos, this`processedPos, this`written, dic
      ensures Window() && written == old(written) + [b] && dicPos == old(dicPos) + 1
    {
      RingWrite(dic[..], dicPos, written, b);
      ghost var before := dic[..];
      dic[dicPos] := b;
      assert dic[..] == before[dicPos := b];
      dicPos := dicPos + 1;
      processedPos := U32(processedPos + 1);
      written := written + [b];
    }

    /** The byte at a recent distance. */
    method ByteBack(rep: nat) returns (b: byte)
      requires Window() && 1 <= rep <= |written| && rep <= dicSize
      ensures rep <= dic.Length && b == written[|written| - rep]
    {
      hide Ring;
      RingBound(rep);
      RingAt(dic[..], dicPos, written, rep);
      b := dic[dicPos - rep + if dicPos < rep then dic.Length else 0];
    }

    lemma {:induction false} RingBound(rep: nat)
      requires Window() && 1 <= rep <= |written| && rep <= dicSize
      ensures dicPos <= dic.Length && dicPos <= |written| && rep <= dic.Length
    {
    }

    /** The source of a copy keeps its offset from the target while neither wraps. */
    method CopyFixed(len: nat, src: int)
      requires Window() && 1 <= reps[0] <= |written| && dicPos + len <= dic.Length
      requires dicPos + src == Back(dicPos, dic.Length, reps[0]) && dicPos + src + len <= dic.Length
      modifies this`dicPos, this`processedPos, this`written, dic
      ensures Window() && dicPos == old(dicPos) + len
      ensures reps[0] <= |old(written)| && written == Expand(old(written), reps[0] - 1, len)
    {
      hide Ring, U32, Expand;
      ExpandOne(written, reps[0] - 1);
      var curLen := len;
      while curLen != 0
        invariant 0 <= curLen <= len && Window() && dicPos == old(dicPos) + len - curLen
        invariant reps[0] <= |old(written)| <= |written|
        invariant written == Expand(old(written), reps[0] - 1, len - curLen)
        decreases curLen
      {
        RingBound(reps[0]);
        RingAt(dic[..], dicPos, written, reps[0]);
        ExpandGrow(old(written), reps[0] - 1, len - curLen);
        WriteByte(dic[dicPos + src]);
        curLen := curLen - 1;
      }
    }

    /** The source of a copy starts over at the front of the buffer when it reaches the end. */
    method CopyWrapping(len: nat, start: nat)
      requires Window() && 1 <= reps[0] <= |written| && dicPos + len <= dic.Length
      requires start == Back(dicPos, dic.Length, reps[0])
      modifies this`dicPos, this`processedPos, this`written, dic
      ensures Window() && dicPos == old(dicPos) + len
      ensures reps[0] <= |old(written)| && written == Expand(old(written), reps[0] - 1, len)
    {
      hide Ring, U32, Expand;
      ExpandOne(written, reps[0] - 1);
      var curLen, pos := len, start;
      while curLen != 0
        invariant 0 <= curLen <= len && Window() && dicPos == old(dicPos) + len - curLen
        invariant reps[0] <= |old(written)| <= |written|
        invariant written == Expand(old(written), reps[0] - 1, len - curLen)
        invariant pos == Back(dicPos, dic.Length, reps[0]) || (curLen == 0 && pos >= 0)
        decreases curLen
      {
        RingBound(reps[0]);
        RingAt(dic[..], dicPos, written, reps[0]);
        ExpandGrow(old(written), reps[0] - 1, len - curLen);
        WriteByte(dic[pos]);
        pos := pos + 1;
        if pos == dic.Length {
          pos := 0;
        }
        curLen := curLen - 1;
      }
    }

    /** The copy of a match, in one of two loops. */
    method CopyForward(len: nat)
      requires Window() && 1 <= reps[0] <= |written| && dicPos + len <= dic.Length
      modifies this`dicPos, this`processedPos, this`written, dic
      ensures Window() && dicPos == old(dicPos) + len
      ensures reps[0] <= |old(written)| && written == Expand(old(written), reps[0] - 1, len)
    {
      hide Ring, U32, Expand;
      RingBound(reps[0]);
      RingAt(dic[..], dicPos, written, reps[0]);
      var pos := dicPos - reps[0] + if dicPos < reps[0] then dic.Length else 0;
      if pos + len <= dic.Length {
        CopyFixed(len, pos - dicPos);
      } else {
        CopyWrapping(len, pos);
      }
    }

    // ----- packets -----

    ghost function Here(): View
      reads this`state, this`reps, this`written
    {
      View(state, reps, written)
    }

    /** The output once a match that hit the limit is complete. */
    ghost function Pending(): seq<byte>
      reads this`reps, this`written, this`remainLen
      requires remainLen > 0 ==> |reps| == 4 && 1 <= reps[0] <= |written|
    {
      if remainLen == 0 then written else Expand(written, reps[0] - 1, remainLen)
    }

    /** The decoder has context v, up to the rest of a match still to be copied. */
    ghost predicate Resting(v: View)
      reads this`dicPos, this`processedPos, this`reps, this`written, this`remainLen, this`state, dic
    {
      && Window() && remainLen < MATCH_SPEC_LEN_START
      && (remainLen > 0 ==> 1 <= reps[0] <= |written|)
      && ViewOk(v) && v == View(state, reps, Pending())
    }

    /** Address of the literal coder. */
    method LiteralProb() returns (prob: int)
      requires Tables() && Ready()
      ensures prob == LITERAL + LitBase(pr, written)
    {
      hide Ring, U32, LitProbs, NumProbs;
      prob := LITERAL;
      ProcessedZero(|written|);
      if checkDicSize != 0 || processedPos != 0 {
        LastByte();
        var prev := dic[(if dicPos == 0 then dic.Length else dicPos) - 1];
        LitProbsOfWord(pr, |written|, prev);
        prob := prob + LitProbs(pr, processedPos, prev);
      }
    }

    lemma {:induction false} LastByte()
      requires Window() && written != []
      ensures dic.Length >= 1 && 0 <= (if dicPos == 0 then dic.Length else dicPos) - 1 < dic.Length
      ensures dic[(if dicPos == 0 then dic.Length else dicPos) - 1] == written[|written| - 1]
    {
      RingAt(dic[..], dicPos, written, 1);
    }

    method LiteralSymbol() returns (b: byte)
      requires Reading() && Ready() && dicPos < dic.Length
      requires DecLiteral(fed, Cur(), pr, Here()).Got?
      modifies this`range, this`code, this`bufPos, this`dicPos, this`processedPos, this`state, this`written, probs, dic
      ensures Reading() && Window()
      ensures DecLiteral(fed, old(Cur()), pr, old(Here())) == Got(Literal(b), Cur())
      ensures written == old(written) + [b] && dicPos == old(dicPos) + 1
      ensures state == DecNextState(old(state), Literal(b)) && reps == DecNextReps(reps, Literal(b))
    {
      hide Ring, U32, Pow2, LitBase, DecTree, DecMatched, NumProbs, NumLits, ValidCell;
      ghost var s, lit := Cur(), LitBase(pr, written);
      var prob := LiteralProb();
      LitBaseFits(pr, written);
      LitFits(lit, Lclp());
      var symbol: nat;
      if state < NUM_LIT_STATES {
        state := state - (if state < 4 then state else 3);
        symbol := DecodeTree(prob, 0x100, LitTree(lit));
      } else {
        var matchByte := ByteBack(reps[0]);
        state := state - (if state < 10 then 3 else 6);
        symbol := DecodeMatchedLiteral(prob, matchByte, lit);
      }
      b := symbol % 0x100;
      assert b == symbol - 0x100;
      WriteByte(b);
    }

    /** Which recent distance comes next; moves it to the front. */
    method RepFlags(posState: nat) returns (short: bool, ghost idx: int)
      requires Reading() && state < NUM_STATES && |reps| == 4 && posState < NUM_POS_STATES_MAX
      requires DecRepIndex(fed, Cur(), state, posState).Got?
      modifies this`range, this`code, this`bufPos, this`reps, probs
      ensures Reading() && DecRepIndex(fed, old(Cur()), state, posState) == Got(idx, Cur())
      ensures short <==> idx == -1
      ensures if short then reps == old(reps) else 0 <= idx < 4 && reps == DecNextReps(old(reps), Rep(idx, LEN_MIN))
    {
      hide DecBit, NumProbs, NumLits;
      short := false;
      var g0 := DecodeBit(IS_REP_G0 + state, IsRepG0(state));
      if g0 == 0 {
        var long := DecodeBit(IS_REP0_LONG + 16 * state + posState, IsRep0Long(state, posState));
        short := long == 0;
        idx := long as int - 1;
      } else {
        var distance;
        var g1 := DecodeBit(IS_REP_G1 + state, IsRepG1(state));
        if g1 == 0 {
          distance := reps[1];
          idx := 1;
        } else {
          var g2 := DecodeBit(IS_REP_G2 + state, IsRepG2(state));
          idx := 2 + g2 as int;
          if g2 == 0 {
            distance := reps[2];
          } else {
            distance := reps[3];
            reps := reps[3 := reps[2]];
          }
          reps := reps[2 := reps[1]];
        }
        reps := reps[1 := reps[0]];
        reps := reps[0 := distance];
      }
    }

    /** The copy at the end of a packet: as much as fits below the limit, the rest is kept in
        remainLen. */
    method CopyMatch(limit: nat, len: nat)
      requires Window() && 1 <= reps[0] <= |written| && dicPos < limit <= dic.Length && 0 < len < MATCH_SPEC_LEN_START
      modifies this`dicPos, this`processedPos, this`written, this`remainLen, dic
      ensures Window() && remainLen < MATCH_SPEC_LEN_START && dicPos <= limit
      ensures reps[0] <= |written| && Pending() == Expand(old(written), reps[0] - 1, len)
      ensures remainLen > 0 ==> dicPos == limit
      ensures old(written) <= written && |written| - |old(written)| == dicPos - old(dicPos) > 0
    {
      hide Ring, U32, Expand;
      var rem := limit - dicPos;
      var curLen := if rem < len then rem else len;
      CopyForward(curLen);
      remainLen := len - curLen;
      ExpandSplit(old(written), reps[0] - 1, curLen, remainLen);
    }

    /** A packet was carried out from context v and place dp, up to what the limit cut off. */
    ghost predicate Copied(limit: nat, v: View, dp: nat, pk: Packet)
      requires ViewOk(v)
      reads this`dicPos, this`reps, this`written, this`remainLen, this`state
    {
      && WellFormed(pk) && InWindow(v, dicSize, pk)
      && state == DecNextState(v.state, pk) && reps == DecNextReps(v.reps, pk)
      && remainLen < MATCH_SPEC_LEN_START && dp < dicPos <= limit && (remainLen > 0 ==> dicPos == limit)
      && 1 <= reps[0] && (remainLen > 0 || !pk.Literal? ==> reps[0] <= |v.hist|)
      && v.hist <= written && |written| - |v.hist| == dicPos - dp
      && Pending() == NextHist(v.hist, reps[0], pk)
    }

    /** Puts a new distance in front and copies, unless the distance reaches behind the dictionary
        or there is no room for a single byte. */
    method NewMatch(limit: nat, len: nat, distance: nat) returns (ok: bool)
      requires Ready() && dicPos <= limit <= dic.Length && LEN_MIN <= len <= LEN_MAX
      modifies this`dicPos, this`processedPos, this`state, this`reps, this`remainLen, this`written, dic
      ensures ok <==> distance < |old(written)| && distance < dicSize && old(dicPos) < limit
      ensures ok ==> Copied(limit, old(Here()), old(dicPos), Match(len, distance)) && Window()
    {
      hide Ring, U32, Expand;
      ProcessedSmall(|written|);
      if checkDicSize == 0 {
        if distance >= processedPos {
          return false;
        }
      } else if distance >= checkDicSize {
        return false;
      }
      reps := [distance + 1, reps[0], reps[1], reps[2]];
      state := if state < NUM_LIT_STATES then NUM_LIT_STATES else NUM_LIT_STATES + 3;
      if limit == dicPos {
        return false;
      }
      CopyMatch(limit, len);
      ok := true;
    }

    /** A match at a new distance; the end marker leaves its mark in remainLen. */
    method MatchSymbol(limit: nat, posState: nat) returns (res: SymbolResult, ghost len: nat, ghost dist: nat)
      requires Reading() && Ready() && dicPos <= limit <= dic.Length && posState < NUM_POS_STATES_MAX
      requires DecLen(fed, Cur(), false, posState).Got?
      requires var l := DecLen(fed, Cur(), false, posState); DecDist(fed, l.src, l.value).Got?
      modifies this`range, this`code, this`bufPos, this`dicPos, this`processedPos, this`state, this`reps
      modifies this`remainLen, this`written, probs, dic
      ensures Reading()
      ensures var l := DecLen(fed, old(Cur()), false, posState);
              l.value == len && DecDist(fed, l.src, len) == Got(dist, Cur())
      ensures if dist == END_DIST then
                res.SymbolEnd? && remainLen >= MATCH_SPEC_LEN_START && Here() == old(Here()) && dicPos == old(dicPos) && Window()
              else if dist < |old(written)| && dist < dicSize && old(dicPos) < limit then
                res.SymbolOk? && Copied(limit, old(Here()), old(dicPos), Match(len + LEN_MIN, dist)) && Window()
              else res.SymbolError?
    {
      hide Ring, U32, Expand, DecLen, DecDist, NumProbs, Copied, CheckDic;
      var l := DecodeLen(LEN_CODER, posState, false);
      len := l;
      var distance := DecodeDist(l);
      dist := distance;
      if distance == END_DIST {
        remainLen := l + MATCH_SPEC_LEN_START;
        return SymbolEnd, len, dist;
      }
      var ok := NewMatch(limit, l + LEN_MIN, distance);
      res := if ok then SymbolOk else SymbolError;
    }

    method ShortRepCopy()
      requires Window() && 1 <= reps[0] <= |written| && dicPos < dic.Length && remainLen == 0
      modifies this`dicPos, this`processedPos, this`written, dic
      ensures Window() && dicPos == old(dicPos) + 1
      ensures reps[0] <= |old(written)| && written == Expand(old(written), reps[0] - 1, 1)
    {
      hide Ring, U32, Expand;
      ExpandOne(written, reps[0] - 1);
      var b := ByteBack(reps[0]);
      WriteByte(b);
    }

    /** What a recent distance may be once something has been written. */
    lemma {:induction false} RepsUsable()
      requires Window() && ViewOk(Here()) && written != []
      ensures forall i :: 0 <= i < 4 ==> 1 <= reps[i] <= |written|
    {
    }

    /** Length and copy of a repeated match whose distance is already in front. */
    method LongRepCopy(limit: nat, posState: nat) returns (ghost len: nat)
      requires Reading() && posState < NUM_POS_STATES_MAX && DecLen(fed, Cur(), true, posState).Got?
      requires Window() && 1 <= reps[0] <= |written| && dicPos < limit <= dic.Length
      modifies this`range, this`code, this`bufPos, this`dicPos, this`processedPos
      modifies this`remainLen, this`written, probs, dic
      ensures Reading() && DecLen(fed, old(Cur()), true, posState) == Got(len, Cur())
      ensures Window() && remainLen < MATCH_SPEC_LEN_START && dicPos <= limit && (remainLen > 0 ==> dicPos == limit)
      ensures reps[0] <= |written| && Pending() == Expand(old(written), reps[0] - 1, len + LEN_MIN)
      ensures old(written) <= written && |written| - |old(written)| == dicPos - old(dicPos)
    {
      hide Ring, U32, Expand, DecLen, NumProbs;
      var l := DecodeLen(REP_LEN_CODER, posState, true);
      len := l;
      CopyMatch(limit, l + LEN_MIN);
    }

    /** A repeated match, after its first two bits, in a text that is not empty. */
    method RepSymbol(limit: nat, posState: nat) returns (ghost pk: Packet)
      requires Reading() && Ready() && dicPos < limit <= dic.Length && posState < NUM_POS_STATES_MAX && written != []
      requires DecRepIndex(fed, Cur(), state, posState).Got?
      requires var i := DecRepIndex(fed, Cur(), state, posState); i.value >= 0 ==> DecLen(fed, i.src, true, posState).Got?
      modifies this`range, this`code, this`bufPos, this`dicPos, this`processedPos, this`state, this`reps
      modifies this`remainLen, this`written, probs, dic
      ensures Reading() && Window()
      ensures var i := DecRepIndex(fed, old(Cur()), old(state), posState);
              && (i.value == -1 ==> pk == ShortRep && Cur() == i.src)
              && (i.value >= 0 ==>
                    var l := DecLen(fed, i.src, true, posState);
                    pk == Rep(i.value, l.value + LEN_MIN) && Cur() == l.src)
      ensures state == DecNextState(old(state), pk) && reps == DecNextReps(old(reps), pk)
      ensures remainLen < MATCH_SPEC_LEN_START && dicPos <= limit && (remainLen > 0 ==> dicPos == limit)
      ensures reps[0] <= |old(written)| <= |written|
      ensures Pending() == Expand(old(written), reps[0] - 1, if pk.Rep? then pk.len else 1)
      ensures old(written) <= written && |written| - |old(written)| == dicPos - old(dicPos)
    {
      hide Ring, U32, Expand, DecLen, DecRepIndex, NumProbs, ViewOk, CheckDic;
      ghost var before := Here();
      RepsUsable();
      StateRange();
      var short, idx := RepFlags(posState);
      if short {
        pk := ShortRep;
        ShortRepCopy();
        state := if state < NUM_LIT_STATES then 9 else 11;
      } else {
        assert reps == DecNextReps(before.reps, Rep(idx, LEN_MIN));
        state := if state < NUM_LIT_STATES then 8 else 11;
        ghost var l := LongRepCopy(limit, posState);
        pk := Rep(idx, l + LEN_MIN);
      }
    }

    // ----- one round of the decoding loop -----

    /** The rest of a packet that is not a literal. */
    method DecodeCopy(limit: nat, posState: nat) returns (res: SymbolResult, ghost pk: Packet)
      requires Reading() && Ready() && dicPos <= limit <= dic.Length && posState < NUM_POS_STATES_MAX
      requires DecCopy(fed, Cur(), state, posState).Got?
      requires dicPos == limit ==> DecCopy(fed, Cur(), state, posState).value.Match?
      modifies this`range, this`code, this`bufPos, this`dicPos, this`processedPos, this`state, this`reps
      modifies this`remainLen, this`written, probs, dic
      ensures Reading() && pk == DecCopy(fed, old(Cur()), old(state), posState).value && !pk.Literal?
      ensures !res.SymbolError? ==> Cur() == DecCopy(fed, old(Cur()), old(state), posState).src && Window()
      ensures res.SymbolEnd? <==> pk.Match? && pk.dist == END_DIST
      ensures res.SymbolEnd? ==> remainLen >= MATCH_SPEC_LEN_START && Here() == old(Here()) && dicPos == old(dicPos)
      ensures res.SymbolOk? ==> Copied(limit, old(Here()), old(dicPos), pk)
      ensures res.SymbolError? ==> !InWindow(old(Here()), dicSize, pk) || (pk.Match? && old(dicPos) == limit)
    {
      hide Ring, U32, Expand, Norm, DecBit, DecLen, DecDist, DecRepIndex, DecCopy, NumProbs, ViewOk;
      hide DecNextState, DecNextReps;
      StateRange();
      CopyParts(fed, Cur(), state, posState);
      ghost var all := DecCopy(fed, Cur(), state, posState);
      var rep := DecodeBit(IS_REP + state, IsRep(state));
      if rep == 0 {
        ghost var len, dist;
        res, len, dist := MatchSymbol(limit, posState);
        pk := Match(len + LEN_MIN, dist);
      } else {
        ProcessedZero(|written|);
        if checkDicSize == 0 && processedPos == 0 {
          return SymbolError, all.value;
        }
        pk := RepSymbol(limit, posState);
        res := SymbolOk;
      }
    }

    /** Decodes one packet of the input; pk is what was read, as far as it was read. */
    method DecodePacket(limit: nat) returns (res: SymbolResult, ghost pk: Packet)
      requires Reading() && Ready() && dicPos <= limit <= dic.Length
      requires DecPacket(fed, Cur(), pr, Here()).Got?
      requires dicPos == limit ==> DecPacket(fed, Cur(), pr, Here()).value.Match?
      modifies this`range, this`code, this`bufPos, this`dicPos, this`processedPos, this`state, this`reps
      modifies this`remainLen, this`written, probs, dic
      ensures Reading() && pk == DecPacket(fed, old(Cur()), pr, old(Here())).value
      ensures !res.SymbolError? ==> Cur() == DecPacket(fed, old(Cur()), pr, old(Here())).src && Window()
      ensures res.SymbolEnd? <==> pk.Match? && pk.dist == END_DIST
      ensures res.SymbolEnd? ==> remainLen >= MATCH_SPEC_LEN_START && Here() == old(Here()) && dicPos == old(dicPos)
      ensures res.SymbolOk? ==> Copied(limit, old(Here()), old(dicPos), pk)
      ensures res.SymbolError? ==> !InWindow(old(Here()), dicSize, pk) || (pk.Match? && old(dicPos) == limit)
    {
      hide Ring, U32, Norm, DecBit, DecLiteral, DecCopy, NumProbs, NumLits, Pow2;
      hide ViewOk, PosState, DecNextState, DecNextReps;
      PosStateOfWord(pr, |written|);
      PosStateRange(pr, |written|);
      StateRange();
      var posState := processedPos % Pow2(pr.pb);
      var m := DecodeBit(16 * state + posState, IsMatch(state, posState));
      if m == 0 {
        var b := LiteralSymbol();
        return SymbolOk, Literal(b);
      }
      res, pk := DecodeCopy(limit, posState);
    }

    /** One round of the decoding loop. d0 is the state it starts from, its pending normalization
        done. */
    method DecodeSymbol(limit: nat, ghost d0: Dec) returns (res: SymbolResult)
      requires Reading() && Ready() && dicPos <= limit <= dic.Length
      requires Norm(fed, Cur()) == Got((), d0.src) && d0.view == Here()
      requires !Step(fed, pr, dicSize, d0).NeedInput?
      requires dicPos == limit ==> DecPacket(fed, d0.src, pr, d0.view).value.Match?
      modifies this`range, this`code, this`bufPos, this`dicPos, this`processedPos, this`state, this`reps
      modifies this`remainLen, this`written, probs, dic
      ensures Reading() && (!res.SymbolError? ==> old(bufPos) <= bufPos)
      ensures res.SymbolOk? ==>
                var o := Step(fed, pr, dicSize, d0);
                && o.Next? && Norm(fed, Cur()) == Got((), o.d.src) && Resting(o.d.view)
                && old(dicPos) < dicPos <= limit && (remainLen > 0 ==> dicPos == limit)
                && old(written) <= written && |written| - |old(written)| == dicPos - old(dicPos)
      ensures res.SymbolEnd? ==>
                var o := Step(fed, pr, dicSize, d0);
                && o.EndMark? && Norm(fed, Cur()) == Got((), o.d.src) && Here() == d0.view
                && Window() && remainLen >= MATCH_SPEC_LEN_START && dicPos == old(dicPos)
      ensures res.SymbolError? ==>
                Step(fed, pr, dicSize, d0).BadData? || (old(dicPos) == limit && Step(fed, pr, dicSize, d0).Next?)
    {
      hide Ring, U32, Expand, Norm, DecPacket, DecNextState, DecNextReps, InWindow, NextHist, WellFormed, NumProbs, ViewOk, Step;
      SamePacket(fed, Cur(), d0, pr);
      NextOf(fed, pr, dicSize, d0);
      ghost var pk;
      res, pk := DecodePacket(limit);
    }

    // ----- runs of packets -----

    /** The decoder is where d is, up to a pending normalization. */
    ghost predicate At(d: Dec)
      reads this`range, this`code, this`bufPos, this`base, this`fed, this`state, this`reps, this`written, probs
    {
      Norm(fed, Cur()) == Got((), d.src) && d.view == Here() && ViewOk(d.view)
    }

    /** With input to spare the next packet will be read in full. */
    lemma {:induction false} GoOn(d: Dec)
      requires Reading() && Resting(d.view) && CheckDic() && remainLen == 0
      requires Norm(fed, Cur()) == Got((), d.src) && bufPos + 1 + REQUIRED_INPUT_MAX <= |buf|
      ensures Ready() && At(d) && !Step(fed, pr, dicSize, d).NeedInput?
    {
      hide Ring, U32, DecPacket, NumProbs, ViewOk, Step;
      TwentyBytesSuffice(fed, pr, dicSize, d);
    }

    /** The decoding loop with its trailing normalization: one packet for certain, then more while
        there is room for output and at least LZMA_REQUIRED_INPUT_MAX bytes of input. Carries out
        n packets, which lead to d. */
    method DecodeReal(limit: nat, bufLimit: nat, ghost d0: Dec) returns (ok: bool, ghost n: nat, ghost d: Dec)
      requires Reading() && Ready() && At(d0) && dicPos <= limit <= dic.Length
      requires bufLimit <= bufPos || bufLimit + REQUIRED_INPUT_MAX <= |buf|
      requires checkDicSize == 0 ==> limit - dicPos <= dicSize - |written|
      requires !Step(fed, pr, dicSize, d0).NeedInput?
      requires dicPos == limit ==> DecPacket(fed, d0.src, pr, d0.view).value.Match?
      modifies this`range, this`code, this`bufPos, this`dicPos, this`processedPos, this`state, this`reps
      modifies this`remainLen, this`written, probs, dic
      ensures ok ==> Reading() && old(dicPos) <= dicPos <= limit && old(bufPos) <= bufPos
      ensures ok ==> old(written) <= written && |written| - |old(written)| == dicPos - old(dicPos)
      ensures ViewOk(d0.view) && Steps(fed, pr, dicSize, d0, n) == Some(d)
      ensures ok ==> Outgrown(fed, pr, dicSize, d0, n, |written|)
      ensures !ok ==> Outgrown(fed, pr, dicSize, d0, n, |old(written)| + limit - old(dicPos))
      ensures !ok && n > 0 ==> |d.view.hist| < |old(written)| + limit - old(dicPos)
      ensures ok && remainLen < MATCH_SPEC_LEN_START ==>
                n > 0 && old(dicPos) < dicPos && Cur() == d.src && d.src.range >= TOP
                && Resting(d.view) && (remainLen > 0 ==> dicPos == limit)
                && (dicPos == limit || bufLimit <= bufPos)
      ensures ok && remainLen >= MATCH_SPEC_LEN_START ==>
                Step(fed, pr, dicSize, d) == EndMark(Dec(Cur(), d.view)) && Here() == d.view && Window()
      ensures ok && remainLen >= MATCH_SPEC_LEN_START && dicPos == limit ==> n == 0 && old(dicPos) == limit
      ensures !ok ==> Step(fed, pr, dicSize, d).BadData? || (n == 0 && old(dicPos) == limit && Step(fed, pr, dicSize, d).Next?)
    {
      hide Ring, U32, Expand, Norm, DecPacket, NumProbs, ViewOk, Step, Steps, Window, Outgrown;
      n, d, ok := 0, d0, true;
      StepsNone(fed, pr, dicSize, d0);
      OutgrownNone(fed, pr, dicSize, d0, |written|);
      var more := true;
      while more
        invariant Reading() && ok && old(dicPos) <= dicPos <= limit
        invariant old(written) <= written && |written| - |old(written)| == dicPos - old(dicPos)
        invariant old(bufPos) <= bufPos
        invariant Steps(fed, pr, dicSize, d0, n) == Some(d) && Outgrown(fed, pr, dicSize, d0, n, |written|)
        invariant if n == 0 then d == d0 && dicPos == old(dicPos) else old(dicPos) < dicPos
        invariant more ==> Ready() && At(d) && !Step(fed, pr, dicSize, d).NeedInput?
        invariant (more || remainLen >= MATCH_SPEC_LEN_START) && dicPos == limit ==> n == 0
        invariant !more && remainLen < MATCH_SPEC_LEN_START ==>
                    && n > 0 && Norm(fed, Cur()) == Got((), d.src) && Resting(d.view) && (remainLen > 0 ==> dicPos == limit)
                    && (dicPos == limit || bufLimit <= bufPos)
        invariant !more && remainLen >= MATCH_SPEC_LEN_START ==>
                    var o := Step(fed, pr, dicSize, d);
                    o.EndMark? && Norm(fed, Cur()) == Got((), o.d.src) && Here() == d.view && Window()
        decreases limit - dicPos, more
      {
        ghost var before := |written|;
        var res := DecodeSymbol(limit, d);
        if res.SymbolError? {
          ok := false;
          OutgrownMore(fed, pr, dicSize, d0, n, before, |old(written)| + limit - old(dicPos));
          return;
        } else if res.SymbolEnd? {
          more := false;
        } else {
          StepsSnoc(fed, pr, dicSize, d0, n);
          OutgrownSnoc(fed, pr, dicSize, d0, n, |written|);
          n, d := n + 1, Step(fed, pr, dicSize, d).d;
          more := dicPos < limit && bufPos < bufLimit;
          if more {
            GoOn(d);
          }
        }
      }
      Normalize();
    }

    /** A copy whose source is looked up anew for every byte. */
    method CopyPending(len: nat)
      requires Window() && 1 <= reps[0] <= |written| && dicPos + len <= dic.Length
      modifies this`dicPos, this`processedPos, this`written, dic
      ensures Window() && dicPos == old(dicPos) + len
      ensures reps[0] <= |old(written)| && written == Expand(old(written), reps[0] - 1, len)
    {
      hide Ring, U32, Expand;
      ExpandOne(written, reps[0] - 1);
      var k := len;
      while k != 0
        invariant 0 <= k <= len && Window() && dicPos == old(dicPos) + len - k
        invariant reps[0] <= |old(written)| <= |written|
        invariant written == Expand(old(written), reps[0] - 1, len - k)
        decreases k
      {
        RingBound(reps[0]);
        RingAt(dic[..], dicPos, written, reps[0]);
        ExpandGrow(old(written), reps[0] - 1, len - k);
        WriteByte(dic[dicPos - reps[0] + if dicPos < reps[0] then dic.Length else 0]);
        k := k - 1;
      }
    }

    /** Writes what a match left to be copied, as far as it fits below the limit. */
    method WriteRem(limit: nat)
      requires Window() && CheckDic() && dicPos <= limit <= dic.Length
      requires 0 < remainLen < MATCH_SPEC_LEN_START ==> 1 <= reps[0] <= |written|
      modifies this`dicPos, this`processedPos, this`checkDicSize, this`remainLen, this`written, dic
      ensures Window() && CheckDic() && old(dicPos) <= dicPos <= limit
      ensures old(written) <= written && |written| - |old(written)| == dicPos - old(dicPos)
      ensures 0 < old(remainLen) < MATCH_SPEC_LEN_START ==>
                && remainLen < MATCH_SPEC_LEN_START && 1 <= reps[0] <= |written|
                && Pending() == old(Pending()) && (remainLen > 0 ==> dicPos == limit)
      ensures old(remainLen) == 0 || old(remainLen) >= MATCH_SPEC_LEN_START ==>
                remainLen == old(remainLen) && written == old(written)
    {
      hide Ring, U32, Expand;
      if remainLen != 0 && remainLen < MATCH_SPEC_LEN_START {
        ProcessedSmall(|written|);
        var len := remainLen;
        if limit - dicPos < len {
          len := limit - dicPos;
        }
        if checkDicSize == 0 && dicSize - processedPos <= len {
          checkDicSize := dicSize;
        }
        remainLen := remainLen - len;
        CopyPending(len);
        ExpandSplit(old(written), reps[0] - 1, len, remainLen);
      }
    }

    /** The packets up to d are carried out, except for the rest of a match that hit the limit; or
        the end marker that follows them has been read. */
    ghost predicate Settled(d: Dec)
      reads this`range, this`code, this`bufPos, this`base, this`fed, this`state, this`reps, this`written
      reads this`dicPos, this`processedPos, this`remainLen, this`checkDicSize, probs, dic
    {
      && Tables() && Window() && CheckDic() && ViewOk(d.view)
      && (remainLen < MATCH_SPEC_LEN_START ==> Cur() == d.src && d.src.range >= TOP && Resting(d.view))
      && (remainLen >= MATCH_SPEC_LEN_START ==>
            Step(fed, pr, dicSize, d) == EndMark(Dec(Cur(), d.view)) && Here() == d.view)
    }

    /** One stretch, so that the distance check changes over exactly when the output has filled the
        dictionary; then the rest of the last match. */
    method DecodeStretch(limit: nat, bufLimit: nat, ghost d0: Dec) returns (ok: bool, ghost n: nat, ghost d: Dec)
      requires Reading() && Ready() && At(d0) && dicPos <= limit <= dic.Length
      requires bufLimit <= bufPos || bufLimit + REQUIRED_INPUT_MAX <= |buf|
      requires !Step(fed, pr, dicSize, d0).NeedInput?
      requires dicPos == limit ==> DecPacket(fed, d0.src, pr, d0.view).value.Match?
      modifies this`range, this`code, this`bufPos, this`dicPos, this`processedPos, this`checkDicSize, this`state
      modifies this`reps, this`remainLen, this`written, probs, dic
      ensures ok ==> Reading() && Settled(d) && Full(limit) && old(dicPos) <= dicPos && old(bufPos) <= bufPos
      ensures ok ==> old(written) <= written && |written| - |old(written)| == dicPos - old(dicPos)
      ensures ViewOk(d0.view) && Steps(fed, pr, dicSize, d0, n) == Some(d)
      ensures ok ==> Outgrown(fed, pr, dicSize, d0, n, |written|)
      ensures !ok ==> Outgrown(fed, pr, dicSize, d0, n, |old(written)| + limit - old(dicPos))
      ensures !ok && n > 0 ==> |d.view.hist| < |old(written)| + limit - old(dicPos)
      ensures ok && remainLen < MATCH_SPEC_LEN_START ==> n > 0 && old(dicPos) < dicPos
      ensures ok && remainLen >= MATCH_SPEC_LEN_START && dicPos == limit ==> n == 0 && old(dicPos) == limit
      ensures !ok ==> Step(fed, pr, dicSize, d).BadData? || (n == 0 && old(dicPos) == limit && Step(fed, pr, dicSize, d).Next?)
    {
      hide Ring, U32, Expand, Norm, DecPacket, NumProbs, ViewOk, Step, Steps, Settled, Resting, Outgrown;
      hide Window, CheckDic, Ready, At, Reading, Pending, NumProbs;
      ReadyFacts();
      ReadingTables();
      var limit2 := StretchLimit(limit);
      ok, n, d := DecodeReal(limit2, bufLimit, d0);
      if !ok {
        OutgrownMore(fed, pr, dicSize, d0, n, |old(written)| + limit2 - old(dicPos), |old(written)| + limit - old(dicPos));
        return;
      }
      ghost var before := |written|;
      if remainLen < MATCH_SPEC_LEN_START {
        RestingFacts(d.view);
      }
      UpdateCheckDic();
      WriteRem(limit);
      OutgrownMore(fed, pr, dicSize, d0, n, before, |written|);
      if remainLen < MATCH_SPEC_LEN_START {
        Rest(d.view);
      }
      Settle(d);
    }

    lemma {:induction false} ReadyFacts()
      requires Ready()
      ensures Window() && CheckDic() && (checkDicSize == 0 || checkDicSize == dicSize <= |written|)
    {
      hide Ring, ViewOk;
    }

    lemma {:induction false} ReadingTables()
      requires Reading()
      ensures Tables() && ValidProps(pr)
    {
      hide NumProbs;
    }

    method StretchLimit(limit: nat) returns (limit2: nat)
      requires Window() && CheckDic() && dicPos <= limit
      ensures dicPos <= limit2 <= limit && (dicPos < limit ==> dicPos < limit2)
      ensures checkDicSize == 0 ==> limit2 - dicPos <= dicSize - |written|
    {
      hide Ring;
      Processed();
      limit2 := limit;
      if checkDicSize == 0 {
        var rem := dicSize - processedPos;
        if limit - dicPos > rem {
          limit2 := dicPos + rem;
        }
      }
    }

    method UpdateCheckDic()
      requires Window() && if checkDicSize == 0 then |written| <= dicSize else checkDicSize == dicSize <= |written|
      modifies this`checkDicSize
      ensures CheckDic()
    {
      hide Ring, U32;
      Processed();
      if processedPos >= dicSize {
        checkDicSize := dicSize;
      }
    }

    lemma {:induction false} RestingFacts(v: View)
      requires Resting(v)
      ensures Window() && ViewOk(v) && (remainLen > 0 ==> |reps| == 4 && 1 <= reps[0] <= |written|)
      ensures v == View(state, reps, Pending())
    {
      hide Ring, ViewOk, Expand;
    }

    lemma {:induction false} Rest(v: View)
      requires Window() && ViewOk(v) && remainLen < MATCH_SPEC_LEN_START && (remainLen > 0 ==> 1 <= reps[0] <= |written|)
      requires v == View(state, reps, Pending())
      ensures Resting(v)
    {
      hide Ring, ViewOk, Expand;
    }

    /** Stretches until the output limit is reached or the input is used up. */
    method DecodeReal2(limit: nat, bufLimit: nat, ghost d0: Dec) returns (ok: bool, ghost n: nat, ghost d: Dec)
      requires Reading() && Ready() && At(d0) && dicPos <= limit <= dic.Length
      requires bufLimit <= bufPos || bufLimit + REQUIRED_INPUT_MAX <= |buf|
      requires !Step(fed, pr, dicSize, d0).NeedInput?
      requires dicPos == limit ==> DecPacket(fed, d0.src, pr, d0.view).value.Match?
      modifies this`range, this`code, this`bufPos, this`dicPos, this`processedPos, this`checkDicSize, this`state
      modifies this`reps, this`remainLen, this`written, probs, dic
      ensures ok ==> Reading() && Settled(d) && Full(limit) && remainLen <= MATCH_SPEC_LEN_START
      ensures ok ==> old(dicPos) <= dicPos && old(bufPos) <= bufPos
      ensures ok ==> old(written) <= written && |written| - |old(written)| == dicPos - old(dicPos)
      ensures ViewOk(d0.view) && Steps(fed, pr, dicSize, d0, n) == Some(d)
      ensures ok ==> Outgrown(fed, pr, dicSize, d0, n, |written|)
      ensures !ok ==> Outgrown(fed, pr, dicSize, d0, n, |old(written)| + limit - old(dicPos))
      ensures !ok && n > 0 ==> |d.view.hist| < |old(written)| + limit - old(dicPos)
      ensures ok && remainLen < MATCH_SPEC_LEN_START ==>
                n > 0 && old(dicPos) < dicPos && (dicPos == limit || bufLimit <= bufPos)
      ensures ok && remainLen == MATCH_SPEC_LEN_START && dicPos == limit ==> n == 0
      ensures !ok ==> Step(fed, pr, dicSize, d).BadData? || (n == 0 && old(dicPos) == limit && Step(fed, pr, dicSize, d).Next?)
    {
      hide Ring, U32, Expand, Norm, DecPacket, NumProbs, ViewOk, Step, Steps, Window, CheckDic, Settled, Outgrown;
      n, d, ok := 0, d0, true;
      StepsNone(fed, pr, dicSize, d0);
      OutgrownNone(fed, pr, dicSize, d0, |written|);
      var more := true;
      while more
        invariant Reading() && ok && old(dicPos) <= dicPos <= limit && old(bufPos) <= bufPos
        invariant old(written) <= written && |written| - |old(written)| == dicPos - old(dicPos)
        invariant Steps(fed, pr, dicSize, d0, n) == Some(d) && Outgrown(fed, pr, dicSize, d0, n, |written|)
        invariant if n == 0 then d == d0 && dicPos == old(dicPos) else old(dicPos) < dicPos || remainLen >= MATCH_SPEC_LEN_START
        invariant more ==> Ready() && At(d) && !Step(fed, pr, dicSize, d).NeedInput?
        invariant (more || remainLen >= MATCH_SPEC_LEN_START) && dicPos == limit ==> n == 0
        invariant !more ==> Settled(d) && Full(limit)
        invariant !more && remainLen < MATCH_SPEC_LEN_START ==> n > 0 && (dicPos == limit || bufLimit <= bufPos)
        decreases limit - dicPos, more
      {
        ghost var k;
        ghost var start, before := n, |written|;
        ok, k, d := DecodeStretch(limit, bufLimit, d);
        StepsJoin(fed, pr, dicSize, d0, start, k);
        ghost var room := if ok then |written| else |old(written)| + limit - old(dicPos);
        OutgrownMore(fed, pr, dicSize, d0, start, before, room);
        OutgrownJoin(fed, pr, dicSize, d0, start, k, room);
        n := n + k;
        if !ok {
          return;
        }
        SettledFacts(d);
        more := dicPos < limit && bufPos < bufLimit && remainLen < MATCH_SPEC_LEN_START;
        if more {
          NormDone(fed, Cur());
          GoOn(d);
        }
      }
      if remainLen > MATCH_SPEC_LEN_START {
        SettledFacts(d);
        remainLen := MATCH_SPEC_LEN_START;
        Settle(d);
      }
    }

    lemma {:induction false} SettledFacts(d: Dec)
      requires Settled(d)
      ensures Tables() && Window() && CheckDic() && ViewOk(d.view)
      ensures remainLen < MATCH_SPEC_LEN_START ==> Cur() == d.src && d.src.range >= TOP && Resting(d.view)
      ensures remainLen >= MATCH_SPEC_LEN_START ==>
                Step(fed, pr, dicSize, d) == EndMark(Dec(Cur(), d.view)) && Here() == d.view
    {
      hide Tables, Window, CheckDic, ViewOk, Resting, Step;
    }

    lemma {:induction false} Settle(d: Dec)
      requires Tables() && Window() && CheckDic() && ViewOk(d.view)
      requires remainLen < MATCH_SPEC_LEN_START ==> Cur() == d.src && d.src.range >= TOP && Resting(d.view)
      requires remainLen >= MATCH_SPEC_LEN_START ==>
                 Step(fed, pr, dicSize, d) == EndMark(Dec(Cur(), d.view)) && Here() == d.view
      ensures Settled(d)
    {
      hide Tables, Window, CheckDic, ViewOk, Resting, Step;
    }

    /** A match is left incomplete only where the output limit cut it off. */
    ghost predicate Full(limit: nat)
      reads this`dicPos, this`remainLen
    {
      dicPos <= limit && (0 < remainLen < MATCH_SPEC_LEN_START ==> dicPos == limit)
    }

    lemma {:induction false} Processed()
      requires Window()
      ensures processedPos <= |written| && (|written| <= dicSize ==> processedPos == |written|)
    {
    }

    // ----- the dry run -----

    method DummyLiteral(t: Peek) returns (ok: bool, ghost pk: Packet)
      requires Tables() && Ready() && t.Valid() && t.probs == probs && t.lclp == Lclp()
      modifies t
      ensures t.Valid() && DecLiteral(t.fed, old(t.Cur()), pr, Here()) == if ok then Got(pk, t.Cur()) else Short
      ensures ok ==> pk.Literal?
    {
      hide Ring, U32, Pow2, LitBase, DecTree, DecMatched, NumProbs, NumLits, ValidCell;
      ghost var lit := LitBase(pr, written);
      var prob := LiteralProb();
      LitBaseFits(pr, written);
      LitFits(lit, Lclp());
      ghost var v: nat;
      if state < NUM_LIT_STATES {
        var symbol;
        ok, symbol := t.Tree(prob, 0x100, LitTree(lit));
        v := symbol;
      } else {
        var matchByte := ByteBack(reps[0]);
        ok, v := t.MatchedLiteral(prob, matchByte, lit);
      }
      pk := if ok then Literal(v - 0x100) else ShortRep;
    }

    method DummyCopy(t: Peek, posState: nat) returns (ok: bool, res: DummyResult, ghost pk: Packet)
      requires Tables() && state < NUM_STATES && posState < NUM_POS_STATES_MAX
      requires t.Valid() && t.probs == probs && t.lclp == Lclp()
      modifies t
      ensures t.Valid() && DecCopy(t.fed, old(t.Cur()), state, posState) == if ok then Got(pk, t.Cur()) else Short
      ensures ok ==> res == KindOf(pk)
    {
      hide DecBit, DecLen, DecDist, DecRepIndex, NumProbs, NumLits;
      pk := ShortRep;
      res := DummyError;
      var rep, len;
      ghost var dist;
      ok, rep := t.Bit(IS_REP + state, IsRep(state));
      if !ok {
        return;
      }
      if rep == 0 {
        res := DummyMatch;
        ok, len := t.Len(LEN_CODER, posState, false);
        if !ok {
          return;
        }
        ok, dist := t.Dist(len);
        pk := Match(len + LEN_MIN, dist);
      } else {
        var short;
        ghost var idx;
        res := DummyRep;
        ok, short, idx := t.RepFlags(state, posState);
        if !ok || short {
          return;
        }
        ok, len := t.Len(REP_LEN_CODER, posState, true);
        pk := Rep(idx, len + LEN_MIN);
      }
    }

    /** Would the next packet, its normalization included, be read in full from inp, the input not
        yet consumed? If so, of which kind is it? Nothing is changed. */
    method TryDummy(inp: seq<byte>, ghost d: Dec) returns (res: DummyResult)
      requires Tables() && Ready() && d.view == Here()
      requires |inp| <= |fed| && fed[|fed| - |inp|..] == inp && d.src == Src(range, code, |fed| - |inp|, probs[..], true)
      ensures Step(fed, pr, dicSize, d).NeedInput? <==> res.DummyError?
      ensures !res.DummyError? ==>
                var p := DecPacket(fed, d.src, pr, d.view);
                p.Got? && res == KindOf(p.value)
    {
      hide Ring, U32, Norm, DecBit, DecLiteral, DecCopy, NumProbs, NumLits, Pow2, DecPacket, Step;
      hide ViewOk, PosState;
      var t := new Peek(probs, inp, range, code, Lclp(), fed);
      ghost var dry := t.Cur();
      DryStep(fed, pr, dicSize, d, dry);
      PosStateOfWord(pr, |written|);
      PosStateRange(pr, |written|);
      StateRange();
      var posState := processedPos % Pow2(pr.pb);
      PacketCases(fed, dry, pr, d.view);
      ghost var pk;
      var ok, m := t.Bit(16 * state + posState, IsMatch(state, posState));
      if !ok {
        return DummyError;
      }
      if m == 0 {
        res := DummyLit;
        ok, pk := DummyLiteral(t);
      } else {
        ok, res, pk := DummyCopy(t, posState);
      }
      if ok {
        ok := t.Normalize();
      }
      if !ok {
        res := DummyError;
      }
    }

    // ----- the interface -----

    ghost predicate Begun()
      requires ValidProps(pr)
      reads this`fed, this`count, this`cur
    {
      && |fed| >= RC_INIT_SIZE && fed[0] == 0 && ViewOk(DecStart(fed, pr).view) && ViewOk(cur.view)
      && Steps(fed, pr, dicSize, DecStart(fed, pr), count) == Some(cur)
    }

    /** No packet was decoded that the output so far does not need. */
    ghost predicate Tight()
      requires ValidProps(pr) && Begun()
      reads this`fed, this`count, this`cur, this`written
    {
      Outgrown(fed, pr, dicSize, DecStart(fed, pr), count, |written|)
    }

    /** Of all input taken over, rest is not consumed. */
    ghost predicate Unread(rest: seq<byte>)
      reads this`fed, this`base, this`bufPos
    {
      |rest| <= |fed| && fed[|fed| - |rest|..] == rest && base + bufPos == |fed| - |rest|
    }

    /** Between two packets, with the state variables set up. */
    ghost predicate Waiting()
      requires ValidProps(pr)
      reads this`range, this`code, this`bufPos, this`base, this`fed, this`state, this`reps, this`written, this`count
      reads this`dicPos, this`processedPos, this`remainLen, this`checkDicSize, this`cur, probs, dic
    {
      Begun() && Tight() && Settled(cur) && remainLen == 0
    }

    /** If the packet was not complete in what was known of the input, the decoder has now read on. */
    lemma {:induction false} PastKnown(known: seq<byte>, d0: Dec, k: nat, d: Dec)
      requires ValidProps(pr) && ViewOk(d0.view) && known <= fed && Steps(fed, pr, dicSize, d0, k) == Some(d) && Settled(d)
      requires remainLen < MATCH_SPEC_LEN_START ==> k > 0
      ensures Step(known, pr, dicSize, d0).NeedInput? ==> base + bufPos > |known|
    {
      hide Ring, U32, Expand, Norm, DecPacket, NumProbs, ViewOk, Step, Steps, Window, DecStart, Settled, Resting, CheckDic, Tables;
      SettledFacts(d);
      if Step(known, pr, dicSize, d0).NeedInput? {
        if k == 0 { StepsNone(fed, pr, dicSize, d0); }
        ReadsOn(known, fed, pr, dicSize, d0, k, d);
        StepForward(fed, pr, dicSize, d);
      }
    }


    ghost method Advance(k: nat, d: Dec, before: int, room: int)
      requires ValidProps(pr) && Begun() && Steps(fed, pr, dicSize, cur, k) == Some(d) && before <= room && ViewOk(d.view)
      requires Outgrown(fed, pr, dicSize, DecStart(fed, pr), count, before) && Outgrown(fed, pr, dicSize, cur, k, room)
      modifies this`count, this`cur
      ensures count == old(count) + k && cur == d && Begun() && Outgrown(fed, pr, dicSize, DecStart(fed, pr), count, room)
    {
      hide Steps, Outgrown, ViewOk, DecStart;
      Reached(k, d, before, room);
      count, cur := count + k, d;
    }


    /** Decodes from input, whose first packet is complete. known is the input known before. */
    method Commit(dicLimit: nat, input: seq<byte>, bufLimit: nat, ghost known: seq<byte>) returns (ok: bool)
      requires Tables() && Waiting() && Unread(input) && dicPos <= dicLimit <= dic.Length
      requires bufLimit == 0 || bufLimit + REQUIRED_INPUT_MAX <= |input|
      requires !Step(fed, pr, dicSize, cur).NeedInput?
      requires dicPos == dicLimit ==> DecPacket(fed, cur.src, pr, cur.view).value.Match?
      requires known <= fed && |fed| - |input| <= |known|
      modifies this`range, this`code, this`buf, this`bufPos, this`base, this`fed, this`state, this`reps, this`written
      modifies this`dicPos, this`processedPos, this`remainLen, this`checkDicSize, this`count, this`cur, probs, dic
      ensures ok ==>
                && base == |old(fed)| - |input| && bufPos <= |input| && fed == old(fed)[..base + bufPos]
                && Begun() && Tight() && Unread([]) && Settled(cur) && Full(dicLimit) && remainLen <= MATCH_SPEC_LEN_START
                && old(dicPos) <= dicPos && (remainLen < MATCH_SPEC_LEN_START ==> old(dicPos) < dicPos)
                && old(written) <= written && |written| - |old(written)| == dicPos - old(dicPos)
                && (Step(known, pr, dicSize, old(cur)).NeedInput? ==> base + bufPos > |known|)
                && (remainLen == MATCH_SPEC_LEN_START && dicPos == dicLimit ==> cur == old(cur))
      ensures !ok ==>
                && fed == old(fed) && Begun()
                && Outgrown(fed, pr, dicSize, DecStart(fed, pr), count, |old(written)| + dicLimit - old(dicPos))
                && (cur == old(cur) || |cur.view.hist| < |old(written)| + dicLimit - old(dicPos))
                && (Step(fed, pr, dicSize, cur).BadData?
                    || (old(dicPos) == dicLimit && cur == old(cur) && Step(fed, pr, dicSize, cur).Next?))
    {
      hide Ring, U32, Expand, Norm, DecPacket, NumProbs, ViewOk, Step, Steps, Window, DecStart, Settled, Resting, Ready, At;
      hide Reading, Tables, CheckDic, Outgrown, InitProbs, InitCode, Val, Full, Begun;
      Set(cur);
      ghost var d0, room := cur, |written| + dicLimit - dicPos;
      ghost var before := |written|;
      buf, bufPos, base := input, 0, |fed| - |input|;
      GoFrom(cur);
      ghost var k, d;
      ok, k, d := DecodeReal2(dicLimit, bufLimit, cur);
      StepsNone(fed, pr, dicSize, cur);
      room := if ok then |written| else room;
      Advance(k, d, before, room);
      if ok {
        SettledFacts(d);
        PastKnown(known, d0, k, d);
        ReadingFacts();
        Cut();
      }
    }

    lemma {:induction false} ReadingFacts()
      requires Reading()
      ensures bufPos <= |buf| && base + |buf| == |fed|
    {
      hide NumProbs;
    }

    /** Moves on through tempBuf + more: as many packets as the limits allow, at least one; or none,
        if the next packet is incomplete or not the end marker that alone may follow now. */
    method Consume(dicLimit: nat, more: seq<byte>, bufLimit: nat, tryFirst: bool, checkEndMarkNow: bool)
      returns (res: Progress)
      requires Tables() && Waiting() && Unread(tempBuf) && dicPos <= dicLimit <= dic.Length
      requires tempBuf != [] ==> Step(fed, pr, dicSize, cur).NeedInput?
      requires checkEndMarkNow <==> dicPos == dicLimit
      requires checkEndMarkNow ==> tryFirst
      requires bufLimit == 0 || bufLimit + REQUIRED_INPUT_MAX <= |tempBuf| + |more|
      requires tryFirst || |tempBuf| + |more| >= REQUIRED_INPUT_MAX
      modifies this`range, this`code, this`buf, this`bufPos, this`base, this`fed, this`state, this`reps, this`written
      modifies this`dicPos, this`processedPos, this`remainLen, this`checkDicSize, this`count, this`cur, probs, dic
      ensures res.Progressed? || fed == old(fed) + more
      ensures res.Progressed? ==>
                && |tempBuf| <= bufPos <= |tempBuf| + |more| && fed == old(fed) + more[..bufPos - |tempBuf|]
                && Begun() && Tight() && Unread([]) && Settled(cur) && Full(dicLimit) && remainLen <= MATCH_SPEC_LEN_START
                && old(dicPos) <= dicPos && (remainLen < MATCH_SPEC_LEN_START ==> old(dicPos) < dicPos)
                && old(written) <= written && |written| - |old(written)| == dicPos - old(dicPos)
                && (remainLen == MATCH_SPEC_LEN_START && dicPos == dicLimit ==> cur == old(cur))
      ensures res.Starved? ==>
                && Waiting() && Unread(tempBuf + more) && Step(fed, pr, dicSize, cur).NeedInput?
                && |tempBuf| + |more| < REQUIRED_INPUT_MAX
                && written == old(written) && dicPos == old(dicPos) && code == old(code)
      ensures res.NotAMark? || res.Corrupt? ==>
                && Begun() && Outgrown(fed, pr, dicSize, DecStart(fed, pr), count, |old(written)| + dicLimit - old(dicPos))
                && (cur == old(cur) || |cur.view.hist| < |old(written)| + dicLimit - old(dicPos))
      ensures res.NotAMark? ==>
                && old(dicPos) == dicLimit && !Step(fed, pr, dicSize, cur).EndMark?
                && cur == old(cur) && !Step(fed, pr, dicSize, cur).NeedInput?
      ensures res.Corrupt? ==>
                Step(fed, pr, dicSize, cur).BadData?
                || (old(dicPos) == dicLimit && cur == old(cur) && Step(fed, pr, dicSize, cur).Next?)
    {
      hide Ring, U32, Expand, Norm, DecPacket, NumProbs, ViewOk, Step, Steps, Window, DecStart, Settled, Resting, Ready, At;
      hide Begun, Reading, Tables, Unread, Outgrown;
      ghost var fed0 := fed;
      var input := tempBuf + more;
      Extend(more);
      Set(cur);
      UnreadFacts(input);
      if tryFirst {
        var dummyRes := TryDummy(input, cur);
        if dummyRes.DummyError? {
          if |input| >= REQUIRED_INPUT_MAX {
            Enough(input);
          }
          return Starved;
        }
        if checkEndMarkNow && dummyRes != DummyMatch {
          MarkIsMatch(fed, pr, dicSize, cur);
          return NotAMark;
        }
      } else {
        Enough(input);
      }
      var ok := Commit(dicLimit, input, bufLimit, fed0);
      res := if ok then Progressed else Corrupt;
    }

    lemma {:induction false} UnreadFacts(rest: seq<byte>)
      requires Unread(rest)
      ensures |rest| <= |fed| && fed[|fed| - |rest|..] == rest && base + bufPos == |fed| - |rest|
    {
    }

    lemma {:induction false} Enough(rest: seq<byte>)
      requires Tables() && Waiting() && Unread(rest) && |rest| >= REQUIRED_INPUT_MAX
      ensures !Step(fed, pr, dicSize, cur).NeedInput?
    {
      hide Step, Steps, DecStart, Window, ViewOk, Resting;
      TwentyBytesSuffice(fed, pr, dicSize, cur);
    }

    /** The state variables at rest are those of d. */
    lemma {:induction false} Set(d: Dec)
      requires Settled(d) && remainLen == 0
      ensures Tables() && ValidProps(pr) && ViewOk(d.view) && Ready() && d.view == Here() && d.src == Cur() && d.src.range >= TOP
    {
      hide Step, Window, ViewOk, NumProbs;
    }

    lemma {:induction false} GoFrom(d: Dec)
      requires Tables() && Ready() && d.view == Here() && d.src == Cur() && d.src.range >= TOP
      requires base + |buf| == |fed| && bufPos <= |buf| && fed[base..] == buf
      ensures Reading() && At(d)
    {
      hide Window, ViewOk, NumProbs;
    }

    lemma {:induction false} Reached(k: nat, d: Dec, before: int, room: int)
      requires ValidProps(pr) && Begun() && Steps(fed, pr, dicSize, cur, k) == Some(d) && before <= room
      requires Outgrown(fed, pr, dicSize, DecStart(fed, pr), count, before) && Outgrown(fed, pr, dicSize, cur, k, room)
      ensures Steps(fed, pr, dicSize, DecStart(fed, pr), count + k) == Some(d)
      ensures Outgrown(fed, pr, dicSize, DecStart(fed, pr), count + k, room)
    {
      hide Steps, DecStart, ViewOk, Outgrown;
      StepsJoin(fed, pr, dicSize, DecStart(fed, pr), count, k);
      OutgrownMore(fed, pr, dicSize, DecStart(fed, pr), count, before, room);
      OutgrownJoin(fed, pr, dicSize, DecStart(fed, pr), count, k, room);
    }

    /** More input becomes known. */
    ghost method Extend(more: seq<byte>)
      requires Tables() && Waiting() && Unread(tempBuf)
      modifies this`fed
      ensures fed == old(fed) + more && Waiting() && Unread(tempBuf + more)
    {
      hide Step, Steps, DecStart, Window, ViewOk, Resting, SamePrefix, CheckDic, Outgrown;
      SettledFacts(cur);
      PrefixSame(fed, fed + more, cur.src.pos);
      RunLocal(fed, fed + more, pr, dicSize, count, cur);
      fed := fed + more;
      Settle(cur);
    }

    /** Input that was not consumed is handed back. */
    ghost method Cut()
      requires Tables() && Begun() && Tight() && Settled(cur) && remainLen <= MATCH_SPEC_LEN_START && base + bufPos <= |fed|
      modifies this`fed
      ensures fed == old(fed)[..base + bufPos] && Begun() && Tight() && Settled(cur) && Unread([])
    {
      hide Step, Steps, DecStart, Window, ViewOk, Resting, SamePrefix, CheckDic, Outgrown;
      SettledFacts(cur);
      StepForward(fed, pr, dicSize, cur);
      var cut := fed[..base + bufPos];
      CutSame(fed, base + bufPos);
      SamePrefixLess(fed, cut, base + bufPos, cur.src.pos);
      RunLocal(fed, cut, pr, dicSize, count, cur);
      if remainLen >= MATCH_SPEC_LEN_START {
        StepLocal(fed, cut, pr, dicSize, cur);
      }
      fed := cut;
      Settle(cur);
    }

    /** Nothing has been decoded. */
    ghost predicate Blank()
      reads this`dicPos, this`processedPos, this`reps, this`written, this`checkDicSize, this`remainLen, dic
    {
      Tables() && Window() && CheckDic() && written == [] && remainLen == 0
    }

    /** What holds between two calls: the input taken over is decoded as far as the output so far
        needs it, and what is kept of it is too short for the next packet. */
    ghost predicate Valid()
      reads this, probs, dic
    {
      Sound() && (remainLen == MATCH_SPEC_LEN_START ==> code == 0)
    }

    /** The same, except that an end marker may have been found too early. */
    ghost predicate Sound()
      reads this, probs, dic
    {
      && |tempBuf| < REQUIRED_INPUT_MAX
      && if needFlush then
           Blank() && needInitState && fed == tempBuf && |tempBuf| < RC_INIT_SIZE
         else
           && Tables() && Begun() && Tight() && Unread(tempBuf) && remainLen <= MATCH_SPEC_LEN_START
           && (tempBuf != [] ==> !needInitState && remainLen == 0 && Step(fed, pr, dicSize, cur).NeedInput?)
           && if needInitState then
                Blank() && range == FULL_RANGE && code == InitCode(fed) && count == 0 && |fed| == RC_INIT_SIZE
              else Settled(cur)
    }

    constructor (pr: Props, dicSize: nat, dic: array<byte>)
      requires ValidProps(pr) && 0 < dicSize < WORD
      ensures Valid() && fed == [] && written == [] && dicPos == 0
      ensures this.pr == pr && this.dicSize == dicSize && this.dic == dic && fresh(probs)
    {
      this.pr, this.dicSize, this.dic := pr, dicSize, dic;
      this.probs := new Prob[NumProbs(pr.lc + pr.lp)];
      buf, bufPos, range, code := [], 0, FULL_RANGE, 0;
      state, reps := 0, [1, 1, 1, 1];
      dicPos, processedPos, checkDicSize, remainLen := 0, 0, 0, 0;
      tempBuf, needFlush, needInitState := [], true, true;
      fed, base, written, count := [], 0, [], 0;
    }

    /** Collects the five bytes of the range coder's header; false if they are not all there. */
    method TakeHeader(src: seq<byte>) returns (taken: nat)
      requires needFlush && Sound()
      modifies this`tempBuf, this`fed
      ensures taken <= |src| && fed == old(fed) + src[..taken] && tempBuf == fed
      ensures |tempBuf| <= RC_INIT_SIZE && (|tempBuf| < RC_INIT_SIZE ==> taken == |src|)
    {
      taken := 0;
      while taken < |src| && |tempBuf| < RC_INIT_SIZE
        invariant taken <= |src| && |tempBuf| <= RC_INIT_SIZE
        invariant fed == old(fed) + src[..taken] && tempBuf == fed
      {
        assert src[..taken + 1] == src[..taken] + [src[taken]];
        tempBuf := tempBuf + [src[taken]];
        fed := fed + [src[taken]];
        taken := taken + 1;
      }
    }

    /** LzmaDec_InitRc on the collected header. */
    method InitRc()
      requires needFlush && needInitState && Blank() && fed == tempBuf && |tempBuf| == RC_INIT_SIZE && tempBuf[0] == 0
      modifies this`code, this`range, this`needFlush, this`tempBuf, this`bufPos, this`base, this`count, this`cur
      ensures !needFlush && tempBuf == [] && Sound()
    {
      hide Window, CheckDic, NumProbs, InitProbs, Steps, InitCode, ViewOk, Settled, Step, Val, Norm, DecPacket;
      code := InitCode(tempBuf);
      range := FULL_RANGE;
      needFlush := false;
      tempBuf := [];
      base, bufPos, count, cur := RC_INIT_SIZE, 0, 0, DecStart(fed, pr);
      StartFacts(fed, pr);
      StepsNone(fed, pr, dicSize, cur);
    }

    method InitStateReal()
      requires !needFlush && needInitState && Sound()
      modifies this`reps, this`state, this`needInitState, probs
      ensures !needInitState && Sound() && remainLen == 0
    {
      hide Ring, CheckDic, NumProbs, Steps, U32, InitCode, Step, Settled, Resting, ViewOk;
      var i := 0;
      while i < probs.Length
        invariant 0 <= i <= probs.Length && forall k :: 0 <= k < i ==> probs[k] == PROB_INIT
      {
        probs[i] := PROB_INIT;
        i := i + 1;
      }
      reps := [1, 1, 1, 1];
      state := 0;
      needInitState := false;
      assert probs[..] == InitProbs(Lclp());
      StartFacts(fed, pr);
      StepsNone(fed, pr, dicSize, DecStart(fed, pr));
      Rest(VIEW_START);
      Settle(DecStart(fed, pr));
    }

    /** How the output has grown since it was before, with the dictionary position at dp. */
    ghost predicate Grown(before: seq<byte>, dp: nat)
      reads this`written, this`dicPos
    {
      before <= written && dp <= dicPos && |written| - |before| == dicPos - dp
    }

    /** One round: decodes from rest if nothing is kept from before, else from what is kept and so
        much of rest that a packet is complete. */
    method Round(dicLimit: nat, rest: seq<byte>, checkEndMarkNow: bool) returns (res: Progress, taken: nat)
      requires Sound() && !needFlush && !needInitState && remainLen == 0 && dicPos <= dicLimit <= dic.Length
      requires checkEndMarkNow <==> dicPos == dicLimit
      modifies this`range, this`code, this`buf, this`bufPos, this`base, this`fed, this`state, this`reps, this`written
      modifies this`dicPos, this`processedPos, this`remainLen, this`checkDicSize, this`count, this`cur, this`tempBuf, probs, dic
      ensures taken <= |rest|
      ensures res.Progressed? || res.Starved? ==> Sound() && fed == old(fed) + rest[..taken] && Full(dicLimit)
      ensures res.Progressed? ==> Grown(old(written), old(dicPos))
      ensures res.Progressed? && remainLen == MATCH_SPEC_LEN_START && dicPos == dicLimit ==> cur == old(cur)
      ensures res.Progressed? && remainLen < MATCH_SPEC_LEN_START ==> old(dicPos) < dicPos
      ensures res.Starved? ==>
                && taken == |rest| && remainLen == 0 && Begun() && Step(fed, pr, dicSize, cur).NeedInput?
                && written == old(written) && dicPos == old(dicPos) && code == old(code)
      ensures res.NotAMark? || res.Corrupt? ==>
                && Begun() && old(fed) <= fed <= old(fed) + rest
                && Outgrown(fed, pr, dicSize, DecStart(fed, pr), count, |old(written)| + dicLimit - old(dicPos))
                && (cur == old(cur) || |cur.view.hist| < |old(written)| + dicLimit - old(dicPos))
      ensures res.NotAMark? ==>
                && old(dicPos) == dicLimit && cur == old(cur)
                && var o := Step(fed, pr, dicSize, cur); !o.EndMark? && !o.NeedInput?
      ensures res.Corrupt? ==>
                var o := Step(fed, pr, dicSize, cur);
                o.BadData? || (old(dicPos) == dicLimit && cur == old(cur) && o.Next?)
    {
      hide Ring, Step, Steps, Window, DecStart, Settled, CheckDic, NumProbs, ViewOk, Begun, Sound, Unread, Tables, Waiting, Outgrown, Tight;
      taken := 0;
      Going();
      if tempBuf == [] {
        var tryFirst := |rest| < REQUIRED_INPUT_MAX || checkEndMarkNow;
        var bufLimit := if tryFirst then 0 else |rest| - REQUIRED_INPUT_MAX;
        res := Consume(dicLimit, rest, bufLimit, tryFirst, checkEndMarkNow);
        if res.Starved? {
          assert tempBuf + rest == rest;
          tempBuf := rest;
          taken := |rest|;
        } else if res.Progressed? {
          taken := bufPos;
        }
      } else {
        var lookAhead := REQUIRED_INPUT_MAX - |tempBuf|;
        if lookAhead > |rest| {
          lookAhead := |rest|;
        }
        var rem := |tempBuf| + lookAhead;
        var tryFirst := rem < REQUIRED_INPUT_MAX || checkEndMarkNow;
        res := Consume(dicLimit, rest[..lookAhead], 0, tryFirst, checkEndMarkNow);
        if res.Starved? {
          tempBuf := tempBuf + rest[..lookAhead];
          taken := lookAhead;
        } else if res.Progressed? {
          taken := lookAhead - (rem - bufPos);
          assert rest[..lookAhead][..taken] == rest[..taken];
          tempBuf := [];
        }
      }
      if res.Starved? {
        WaitingFacts();
        Kept();
      } else if res.Progressed? {
        Kept();
      }
    }

    lemma {:induction false} Going()
      requires Sound() && !needFlush && !needInitState && remainLen == 0
      ensures Tables() && Waiting() && Unread(tempBuf) && |tempBuf| < REQUIRED_INPUT_MAX
      ensures tempBuf != [] ==> Step(fed, pr, dicSize, cur).NeedInput?
    {
      hide Step, Settled, Begun, Tight, Unread, InitCode;
    }

    lemma {:induction false} WaitingFacts()
      requires Tables() && Waiting()
      ensures Begun() && Tight() && Settled(cur) && remainLen == 0
    {
      hide Step, Settled, Begun, Tight;
    }

    lemma {:induction false} Kept()
      requires Tables() && Begun() && Tight() && Settled(cur) && Unread(tempBuf) && !needFlush && !needInitState
      requires |tempBuf| < REQUIRED_INPUT_MAX && remainLen <= MATCH_SPEC_LEN_START
      requires tempBuf != [] ==> remainLen == 0 && Step(fed, pr, dicSize, cur).NeedInput?
      ensures Sound()
    {
      hide Step, Settled, Begun, Tight, Unread, InitCode;
    }

    /** Writes the rest of a match from the last call. */
    method Resume(dicLimit: nat)
      requires Sound() && dicPos <= dicLimit <= dic.Length
      modifies this`dicPos, this`processedPos, this`checkDicSize, this`remainLen, this`written, dic
      ensures Sound() && Full(dicLimit) && Grown(old(written), old(dicPos))
      ensures remainLen == MATCH_SPEC_LEN_START ==> old(remainLen) == MATCH_SPEC_LEN_START
    {
      hide Ring, Step, Steps, Window, DecStart, Settled, CheckDic, NumProbs, ViewOk, Begun, InitCode, Resting, Tables;
      ghost var settled := !needFlush && !needInitState;
      if settled {
        SettledFacts(cur);
        if remainLen < MATCH_SPEC_LEN_START {
          RestingFacts(cur.view);
        }
      }
      WriteRem(dicLimit);
      if settled {
        if remainLen < MATCH_SPEC_LEN_START {
          Rest(cur.view);
        }
        Settle(cur);
      }
    }

    /** The header of the stream, as far as it is there. */
    method ReadHeader(rest: seq<byte>) returns (res: Progress, taken: nat)
      requires Sound() && needFlush
      modifies this`tempBuf, this`fed, this`code, this`range, this`needFlush, this`bufPos, this`base, this`count, this`cur
      ensures taken <= |rest| && fed == old(fed) + rest[..taken]
      ensures res.Starved? ==> Sound() && needFlush && taken == |rest|
      ensures res.Progressed? ==> Sound() && !needFlush
      ensures res.Corrupt? ==> |fed| >= RC_INIT_SIZE && fed[0] != 0
      ensures !res.NotAMark?
    {
      hide Ring, Step, Steps, Window, DecStart, Settled, CheckDic, NumProbs, ViewOk, Begun, InitCode;
      taken := TakeHeader(rest);
      if |tempBuf| < RC_INIT_SIZE {
        return Starved, taken;
      }
      if tempBuf[0] != 0 {
        return Corrupt, taken;
      }
      InitRc();
      res := Progressed;
    }

    lemma {:induction false} AtRest()
      requires Sound() && !needFlush && !needInitState
      ensures Begun() && Tight() && ViewOk(cur.view)
      ensures remainLen < MATCH_SPEC_LEN_START ==> |cur.view.hist| == |written| + remainLen && cur.src.code == code
      ensures remainLen == MATCH_SPEC_LEN_START ==>
                Step(fed, pr, dicSize, cur).EndMark? && Step(fed, pr, dicSize, cur).d.src.code == code
                && cur.view.hist == written
    {
      hide Ring, Step, Steps, Window, DecStart, CheckDic, NumProbs, ViewOk, InitCode, Resting, Tables, Expand;
      if remainLen < MATCH_SPEC_LEN_START {
        RestingFacts(cur.view);
        if remainLen > 0 {
          ExpandLength(written, reps[0] - 1, remainLen);
        }
      }
    }

    /** Whatever stands behind the packets so far makes a reason to refuse the stream. */
    lemma {:induction false} Refused(room: int, finishEnd: bool)
      requires ValidProps(pr) && Begun() && Outgrown(fed, pr, dicSize, DecStart(fed, pr), count, room)
      requires Objects(Step(fed, pr, dicSize, cur), cur, room, finishEnd)
      ensures Refuses(fed, pr, dicSize, room, finishEnd, count, cur)
    {
      hide Step, Steps, DecStart, ViewOk, Outgrown, Objects;
    }

    lemma {:induction false} TightEnough(room: int)
      requires ValidProps(pr) && Begun() && Tight() && |written| <= room
      ensures Outgrown(fed, pr, dicSize, DecStart(fed, pr), count, room)
    {
      hide Step, Steps, DecStart, Outgrown;
      OutgrownMore(fed, pr, dicSize, DecStart(fed, pr), count, |written|, room);
    }

    /** What a status promises. drained: all input has been taken over. */
    ghost predicate Explained(status: Status, dicLimit: nat, finishEnd: bool, drained: bool)
      requires ValidProps(pr)
      reads this`dicPos, this`remainLen, this`code, this`needFlush, this`fed, this`count, this`cur
    {
      match status
      case NotSpecified => false
      case NeedsMoreInput =>
        && drained && remainLen == 0
        && (needFlush
            || (Begun() && Step(fed, pr, dicSize, cur).NeedInput? && (dicPos < dicLimit || (finishEnd && code != 0))))
      case NotFinished =>
        !finishEnd && dicPos == dicLimit && !(remainLen == 0 && code == 0) && remainLen != MATCH_SPEC_LEN_START && !needFlush
      case MaybeFinishedWithoutMark => dicPos == dicLimit && remainLen == 0 && code == 0 && !needFlush
      case FinishedWithMark => remainLen == MATCH_SPEC_LEN_START && code == 0
    }

    /** Is all the output there that is wanted, and may the stream end here? If only an end marker
        can tell, checkEndMarkNow asks for it. */
    method LimitReached(dicLimit: nat, finishEnd: bool) returns (stop: bool, ok: bool, status: Status, checkEndMarkNow: bool)
      requires Sound() && ValidProps(pr) && !needFlush && Full(dicLimit) && remainLen != MATCH_SPEC_LEN_START
      ensures stop && ok ==> !status.NeedsMoreInput? && Explained(status, dicLimit, finishEnd, true)
      ensures stop && ok ==> Explained(status, dicLimit, finishEnd, false)
      ensures stop && !ok ==> Refuses(fed, pr, dicSize, |written| + dicLimit - dicPos, finishEnd, count, cur)
      ensures !stop ==> remainLen == 0 && (checkEndMarkNow <==> dicPos == dicLimit) && (checkEndMarkNow ==> finishEnd && code != 0)
    {
      hide Ring, Step, Steps, Window, DecStart, Settled, CheckDic, NumProbs, ViewOk, Begun, InitCode, Sound, Refuses, Tight, Outgrown;
      stop, ok, status, checkEndMarkNow := false, true, NotSpecified, false;
      SoundFacts();
      if dicPos >= dicLimit {
        if remainLen == 0 && code == 0 {
          return true, true, MaybeFinishedWithoutMark, false;
        }
        if !finishEnd {
          return true, true, NotFinished, false;
        }
        if remainLen != 0 {
          SoundFacts();
          AtRest();
          TightEnough(|written| + dicLimit - dicPos);
          Refused(|written| + dicLimit - dicPos, finishEnd);
          return true, false, NotFinished, false;
        }
        checkEndMarkNow := true;
      }
    }

    /** Sets the state variables up if that is still to be done, then decodes. */
    method Proceed(dicLimit: nat, src: seq<byte>, finishEnd: bool, checkEndMarkNow: bool)
      returns (done: bool, ok: bool, status: Status, taken: nat)
      requires Sound() && ValidProps(pr) && !needFlush && remainLen == 0 && dicPos <= dicLimit <= dic.Length
      requires checkEndMarkNow <==> dicPos == dicLimit
      requires checkEndMarkNow ==> finishEnd && code != 0
      modifies this, probs, dic
      ensures taken <= |src| && (!done ==> ok)
      ensures ok ==> Sound() && fed == old(fed) + src[..taken] && Full(dicLimit) && Grown(old(written), old(dicPos))
      ensures !done && remainLen != MATCH_SPEC_LEN_START ==> old(dicPos) < dicPos
      ensures !done && remainLen == MATCH_SPEC_LEN_START ==> MayLook(cur, |old(written)| + dicLimit - old(dicPos), finishEnd)
      ensures done && ok ==> remainLen != MATCH_SPEC_LEN_START
      ensures done && ok ==> Explained(status, dicLimit, finishEnd, taken == |src|)
      ensures !ok ==>
                && old(fed) <= fed <= old(fed) + src
                && Refuses(fed, pr, dicSize, |old(written)| + dicLimit - old(dicPos), finishEnd, count, cur)
    {
      hide Ring, Step, Steps, Window, DecStart, Settled, CheckDic, NumProbs, ViewOk, Begun, InitCode, Sound, Refuses, Tight, Outgrown;
      ghost var room := |written| + dicLimit - dicPos;
      if needInitState {
        InitStateReal();
      }
      AtRest();
      var res;
      res, taken := Round(dicLimit, src, checkEndMarkNow);
      if res.NotAMark? || res.Corrupt? {
        Refused(room, finishEnd);
        status := if res.NotAMark? then NotFinished else NotSpecified;
        return true, false, status, taken;
      }
      SoundFacts();
      AtRest();
      done, ok, status := res.Starved?, true, NeedsMoreInput;
    }

    /** One turn of the loop of DecodeToDic. */
    method Turn(dicLimit: nat, src: seq<byte>, finishEnd: bool) returns (done: bool, ok: bool, status: Status, taken: nat)
      requires Sound() && ValidProps(pr) && Full(dicLimit) && dicLimit <= dic.Length && remainLen != MATCH_SPEC_LEN_START
      modifies this, probs, dic
      ensures taken <= |src| && (!done ==> ok)
      ensures ok ==> Sound() && fed == old(fed) + src[..taken] && Full(dicLimit) && Grown(old(written), old(dicPos))
      ensures !done && remainLen != MATCH_SPEC_LEN_START ==> old(dicPos) < dicPos
      ensures !done && remainLen == MATCH_SPEC_LEN_START ==> MayLook(cur, |old(written)| + dicLimit - old(dicPos), finishEnd)
      ensures done && ok ==> remainLen != MATCH_SPEC_LEN_START
      ensures done && ok ==> Explained(status, dicLimit, finishEnd, taken == |src|)
      ensures !ok ==>
                && old(fed) <= fed <= old(fed) + src
                && Refuses(fed, pr, dicSize, |old(written)| + dicLimit - old(dicPos), finishEnd, count, cur)
    {
      hide Ring, Step, Steps, Window, DecStart, Settled, CheckDic, NumProbs, ViewOk, Begun, InitCode, Sound, Refuses, Tight, Outgrown;
      hide Explained;
      taken := 0;
      if needFlush {
        var res;
        res, taken := ReadHeader(src);
        if res.Starved? {
          Thirsty(dicLimit, finishEnd);
          return true, true, NeedsMoreInput, taken;
        }
        if res.Corrupt? {
          WrongStart(fed, pr, dicSize, |written| + dicLimit - dicPos, finishEnd, count, cur);
          return true, false, NotSpecified, taken;
        }
      }
      var checkEndMarkNow, more;
      done, ok, status, checkEndMarkNow := LimitReached(dicLimit, finishEnd);
      if !done {
        done, ok, status, more := Proceed(dicLimit, src[taken..], finishEnd, checkEndMarkNow);
        Splice(old(fed), src, taken, more);
        taken := taken + more;
      }
    }

    lemma {:induction false} Thirsty(dicLimit: nat, finishEnd: bool)
      requires Sound() && ValidProps(pr) && needFlush
      ensures Explained(NeedsMoreInput, dicLimit, finishEnd, true)
    {
      hide Ring, Step, Steps, Window, DecStart, Settled, CheckDic, NumProbs, ViewOk, Begun, InitCode, Refuses;
    }

    /** LzmaDec_DecodeToDic: decodes from src until dicLimit is reached, the input is used up or the
        end marker has been found. */
    method DecodeToDic(dicLimit: nat, src: seq<byte>, finishEnd: bool) returns (ok: bool, status: Status, srcLen: nat)
      requires Valid() && dicPos <= dicLimit <= dic.Length
      modifies this, probs, dic
      ensures srcLen <= |src| && ValidProps(pr)
      ensures ok ==> Valid() && fed == old(fed) + src[..srcLen] && Full(dicLimit) && Grown(old(written), old(dicPos))
      ensures ok ==> Explained(status, dicLimit, finishEnd, srcLen == |src|)
      ensures !ok ==>
                && old(fed) <= fed <= old(fed) + src
                && Refuses(fed, pr, dicSize, |old(written)| + dicLimit - old(dicPos), finishEnd, count, cur)
    {
      hide Ring, Step, Steps, Window, DecStart, Settled, CheckDic, NumProbs, ViewOk, Begun, InitCode, Sound, Refuses, Tight, Outgrown;
      ghost var room := |written| + dicLimit - dicPos;
      srcLen := 0;
      SoundFacts();
      Resume(dicLimit);
      while remainLen != MATCH_SPEC_LEN_START
        invariant Sound() && Full(dicLimit) && Grown(old(written), old(dicPos))
        invariant srcLen <= |src| && fed == old(fed) + src[..srcLen]
        invariant remainLen == MATCH_SPEC_LEN_START ==> code == 0 || MayLook(cur, room, finishEnd)
        decreases dicLimit - dicPos, remainLen != MATCH_SPEC_LEN_START
      {
        var done, taken;
        ghost var here := srcLen;
        done, ok, status, taken := Turn(dicLimit, src[srcLen..], finishEnd);
        Splice(old(fed), src, srcLen, taken);
        if done {
          return ok, status, srcLen + taken;
        }
        srcLen := srcLen + taken;
      }
      SoundFacts();
      AtRest();
      if code == 0 {
        return true, FinishedWithMark, srcLen;
      }
      TightEnough(room);
      Refused(room, finishEnd);
      return false, NotSpecified, srcLen;
    }

    /** Goes on at the front of a full dictionary. */
    method Rewind()
      requires Valid() && dicSize <= dic.Length
      modifies this`dicPos
      ensures Valid() && dicPos < dic.Length
    {
      hide Ring, U32, CheckDic, NumProbs, Steps, DecStart, InitCode, Step, ViewOk, Expand, Outgrown;
      SoundWindow();
      if dicPos == dic.Length {
        RingWrap(dic[..], written);
        dicPos := 0;
      }
    }

    lemma {:induction false} SoundWindow()
      requires Sound()
      ensures Window() && 0 < dicSize && dicPos <= dic.Length && dicPos <= |written|
    {
      hide U32, CheckDic, NumProbs, Steps, DecStart, InitCode, Step, ViewOk, Expand, Outgrown;
    }

    /** What a call wrote into the dictionary. */
    lemma {:induction false} Tail(before: seq<byte>, dp: nat)
      requires Window() && Grown(before, dp) && dicPos <= dic.Length
      ensures before + dic[dp..dicPos] == written
    {
      forall i | dp <= i < dicPos
        ensures dic[..][i] == written[|before| + i - dp]
      {
        RingAt(dic[..], dicPos, written, dicPos - i);
      }
      assert forall j :: 0 <= j < dicPos - dp ==> dic[dp..dicPos][j] == dic[..][dp + j];
    }

    /** LzmaDec_DecodeToBuf: the same for output of any size, which leaves the dictionary piece by
        piece. */
    method DecodeToBuf(outSize: nat, src: seq<byte>, finishEnd: bool)
      returns (ok: bool, status: Status, dest: seq<byte>, srcLen: nat)
      requires Valid() && dicSize <= dic.Length
      modifies this, probs, dic
      ensures srcLen <= |src| && |dest| <= outSize && ValidProps(pr)
      ensures ok ==> Valid() && fed == old(fed) + src[..srcLen] && written == old(written) + dest
      ensures ok ==> !status.NotSpecified?
      ensures ok && status.NeedsMoreInput? ==>
                srcLen == |src| && remainLen == 0 && (needFlush || (Begun() && Step(fed, pr, dicSize, cur).NeedInput?))
      ensures ok && (status.NotFinished? || status.MaybeFinishedWithoutMark?) ==> |dest| == outSize
      ensures ok && status.FinishedWithMark? ==> remainLen == MATCH_SPEC_LEN_START && code == 0
      ensures !ok ==>
                && old(fed) <= fed <= old(fed) + src
                && Refuses(fed, pr, dicSize, |old(written)| + outSize, finishEnd, count, cur)
    {
      hide Ring, Step, Steps, Window, DecStart, Settled, CheckDic, NumProbs, ViewOk, Begun, InitCode, Valid, Refuses, Tight, Outgrown;
      dest, srcLen := [], 0;
      var rest := outSize;
      while true
        invariant Valid() && srcLen <= |src| && fed == old(fed) + src[..srcLen]
        invariant written == old(written) + dest && rest == outSize - |dest| && |dest| <= outSize
        decreases rest
      {
        Rewind();
        var dp := dicPos;
        var limit, curFinish, taken;
        if rest > dic.Length - dicPos {
          limit, curFinish := dic.Length, false;
        } else {
          limit, curFinish := dicPos + rest, finishEnd;
        }
        ghost var before, here := written, srcLen;
        ok, status, taken := DecodeToDic(limit, src[srcLen..], curFinish);
        Splice(old(fed), src, srcLen, taken);
        srcLen := srcLen + taken;
        if !ok {
          if limit != dp + rest {
            RefusesMore(fed, pr, dicSize, |before| + limit - dp, |old(written)| + outSize, finishEnd, count, cur);
          }
          return;
        }
        Written(before, dp);
        var piece := dic[dp..dicPos];
        dest, rest := dest + piece, rest - |piece|;
        if |piece| == 0 || rest == 0 {
          return;
        }
      }
    }

    lemma {:induction false} Written(before: seq<byte>, dp: nat)
      requires Valid() && Grown(before, dp)
      ensures dicPos <= dic.Length && before + dic[dp..dicPos] == written
    {
      hide Window, Sound;
      assert Sound();
      SoundWindow();
      Tail(before, dp);
    }

    lemma {:induction false} SoundFacts()
      requires Sound()
      ensures ValidProps(pr) && remainLen <= MATCH_SPEC_LEN_START
      ensures remainLen > 0 ==> !needFlush && !needInitState
    {
      hide Ring, Step, Steps, Window, DecStart, CheckDic, NumProbs, ViewOk, InitCode, Settled, Begun;
    }

    lemma {:induction false} StateRange()
      requires ViewOk(Here())
      ensures state < NUM_STATES && |reps| == 4
    {
    }
  }

  /** The branch-free form of a direct bit: t is the difference's sign spread over a word. */
  lemma {:induction false} HalveBranchFree(code: word, half: word)
    ensures var d := U32(code - half);
            var t: int := U32(0 - d / 0x8000_0000);
            && (t == 0 || t == 0xFFFF_FFFF)
            && 0 <= U32(t + 1) < 2
            && Halve(code, half) == (U32(t + 1), U32(d + if t == 0 then 0 else half))
  {
    var d := U32(code - half);
    if code >= half {
      assert d == code - half;
    } else {
      assert d == code - half + WORD;
    }
  }

  /** While fewer than 2^32 bytes were written, the wrapped position is 0 only at the start. */
  lemma {:induction false} ProcessedZero(n: nat)
    ensures n < WORD ==> (U32(n) == 0 <==> n == 0)
  {
  }

  lemma {:induction false} ProcessedSmall(n: nat)
    ensures n < WORD ==> U32(n) == n
  {
  }

  /** The pieces of a packet that can be read in full. */
  lemma {:induction false} CopyParts(inp: seq<byte>, s: Src, st: nat, ps: nat)
    requires DecCopy(inp, s, st, ps).Got?
    ensures var p := DecCopy(inp, s, st, ps);
            var r := DecBit(inp, s, IsRep(st));
            && r.Got?
            && (r.value == 0 ==>
                  var l := DecLen(inp, r.src, false, ps);
                  && l.Got?
                  && var d := DecDist(inp, l.src, l.value);
                  && d.Got? && p == Got(Match(l.value + LEN_MIN, d.value), d.src))
            && (r.value == 1 ==>
                  var i := DecRepIndex(inp, r.src, st, ps);
                  && i.Got?
                  && (i.value == -1 ==> p == Got(ShortRep, i.src))
                  && (i.value >= 0 ==>
                        var l := DecLen(inp, i.src, true, ps);
                        l.Got? && p == Got(Rep(i.value, l.value + LEN_MIN), l.src)))
  {
    hide DecBit, DecLen, DecDist, DecRepIndex;
  }

  lemma {:induction false} SamePacket(inp: seq<byte>, s: Src, d0: Dec, pr: Props)
    requires ValidProps(pr) && ViewOk(d0.view) && Norm(inp, s) == Got((), d0.src)
    ensures DecPacket(inp, s, pr, d0.view) == DecPacket(inp, d0.src, pr, d0.view)
  {
    hide Norm, DecPacket;
    PacketAfterNorm(inp, s, pr, d0.view);
  }

  /** What follows from a packet that could be read. */
  lemma {:induction false} NextOf(inp: seq<byte>, pr: Props, dicSize: nat, d0: Dec)
    requires ValidProps(pr) && ViewOk(d0.view) && !Step(inp, pr, dicSize, d0).NeedInput?
    ensures var p := DecPacket(inp, d0.src, pr, d0.view);
            && p.Got?
            && var n := Norm(inp, p.src);
            && n.Got? && n == Got((), n.src)
            && Step(inp, pr, dicSize, d0)
               == if p.value.Match? && p.value.dist == END_DIST then EndMark(d0.(src := n.src))
                  else if WellFormed(p.value) && InWindow(d0.view, dicSize, p.value) then
                    Next(Dec(n.src, NextView(d0.view, dicSize, p.value)))
                  else BadData
  {
    hide DecPacket, Norm, NextView, InWindow, ViewOk, WellFormed;
    UnitOut(Norm(inp, DecPacket(inp, d0.src, pr, d0.view).src));
  }

  lemma {:induction false} NormDone(inp: seq<byte>, s: Src)
    requires s.range >= TOP
    ensures Norm(inp, s) == Got((), s)
  {
  }

  lemma {:induction false} UnitOut(r: Out<()>)
    requires r.Got?
    ensures r == Got((), r.src)
  {
    match r.value
    case () =>
  }

  lemma {:induction false} PacketCases(inp: seq<byte>, s: Src, pr: Props, v: View)
    requires ValidProps(pr) && ViewOk(v)
    ensures var ps := PosState(pr, |v.hist|);
            var r := DecBit(inp, s, IsMatch(v.state, ps));
            DecPacket(inp, s, pr, v)
            == if r.Short? then Short
               else if r.value == 0 then DecLiteral(inp, r.src, pr, v) else DecCopy(inp, r.src, v.state, ps)
  {
    hide DecBit, DecLiteral, DecCopy, PosState, ViewOk;
  }

  /** The dry run of a packet and its normalization stands for the real step. */
  lemma {:induction false} DryStep(inp: seq<byte>, pr: Props, dicSize: nat, d: Dec, dry: Src)
    requires ValidProps(pr) && ViewOk(d.view) && |d.src.probs| == NumProbs(pr.lc + pr.lp)
    requires d.src.learn && dry == d.src.(learn := false)
    ensures var p := DecPacket(inp, dry, pr, d.view);
            && (Step(inp, pr, dicSize, d).NeedInput? <==> p.Short? || Norm(inp, p.src).Short?)
            && (p.Got? ==> DecPacket(inp, d.src, pr, d.view).Got? && DecPacket(inp, d.src, pr, d.view).value == p.value)
  {
    hide DecPacket, Norm, NextView, InWindow, ViewOk, WellFormed, Alike;
    var lclp := pr.lc + pr.lp;
    SelfAlike(d.src, lclp);
    PacketAlike(inp, d.src, dry, pr, d.view);
    var r, p := DecPacket(inp, d.src, pr, d.view), DecPacket(inp, dry, pr, d.view);
    if r.Got? {
      NormAlike(inp, r.src, p.src, 9000, lclp);
    }
  }

  lemma {:induction false} MarkIsMatch(inp: seq<byte>, pr: Props, dicSize: nat, d: Dec)
    requires ValidProps(pr) && ViewOk(d.view)
    ensures Step(inp, pr, dicSize, d).EndMark? ==>
              var p := DecPacket(inp, d.src, pr, d.view); p.Got? && p.value.Match?
  {
    hide DecPacket, Norm, NextView, InWindow, ViewOk, WellFormed;
  }

  /** A packet that was incomplete ends behind the input known then. */
  lemma {:induction false} ReadsOn(a: seq<byte>, b: seq<byte>, pr: Props, dicSize: nat, d0: Dec, k: nat, d: Dec)
    requires ValidProps(pr) && ViewOk(d0.view) && a <= b
    requires Step(a, pr, dicSize, d0).NeedInput? && Steps(b, pr, dicSize, d0, k) == Some(d)
    requires k == 0 ==> Step(b, pr, dicSize, d0).EndMark?
    ensures ViewOk(d.view)
    ensures EndPos(Step(b, pr, dicSize, d0), d0.src.pos) > |a|
    ensures k > 0 ==> d.src.pos > |a|
  {
    hide Step, ViewOk, SamePrefix;
    StepsForward(b, pr, dicSize, d0, k);
    var e := EndPos(Step(b, pr, dicSize, d0), d0.src.pos);
    if e <= |a| {
      PrefixSameBack(a, b, e);
      StepLocal(b, a, pr, dicSize, d0);
    }
  }

  lemma {:induction false} PrefixSameBack(a: seq<byte>, b: seq<byte>, n: nat)
    requires a <= b && n <= |a|
    ensures SamePrefix(b, a, n)
  {
  }

  lemma {:induction false} ExpandLength(hist: seq<byte>, dist: nat, len: nat)
    requires dist < |hist|
    ensures |Expand(hist, dist, len)| == |hist| + len
    decreases len
  {
    if len > 0 {
      ExpandLength(hist + [hist[|hist| - 1 - dist]], dist, len - 1);
    }
  }

  lemma {:induction false} Splice(a: seq<byte>, src: seq<byte>, n: nat, k: nat)
    requires n + k <= |src|
    ensures src[n..][..k] == src[n..n + k] && a + src[..n] + src[n..][..k] == a + src[..n + k]
    ensures a + src[..n] + src[n..] == a + src
  {
    assert src[..n + k] == src[..n] + src[n..n + k];
    assert src == src[..n] + src[n..];
  }

  lemma {:induction false} WrongStart(inp: seq<byte>, pr: Props, dicSize: nat, room: int, finishEnd: bool, n: nat, d: Dec)
    requires ValidProps(pr) && |inp| >= RC_INIT_SIZE && inp[0] != 0
    ensures Refuses(inp, pr, dicSize, room, finishEnd, n, d)
  {
    hide Step, Steps, DecStart, ViewOk;
  }
}
