/** CLzmaEnc: the packet writer of LzmaEnc_CodeOneBlock over the range encoder. */
module Encoder {
  import opened Bytes
  import opened Cells
  import opened RangeSpec
  import opened RangeEncoder
  import opened Slots
  import opened Packets
  import opened Stream
  import DecSpec
  import PacketRoundTrip

  /** The backRes value that stands for a literal. */
  const BACK_LITERAL := 0xFFFF_FFFF
  const NUM_REPS := 4

  lemma {:induction false} EncOpsSnoc(e: Enc, ops: seq<Op>, op: Op)
    ensures EncOps(e, ops + [op]) == EncOp(EncOps(e, ops), op)
  {
    EncOpsConcat(e, ops, [op]);
    var f := EncOps(e, ops);
    assert [op][1..] == [];
    assert EncOps(f, [op]) == EncOps(EncOp(f, op), []);
  }

  // ----- the literal loops' left-aligned symbol -----

  /** symbol is the literal with a leading one, shifted left past its 8 - n bits already coded. */
  ghost predicate Aligned(symbol: nat, b: byte, n: nat) {
    n <= 8 && symbol == (0x100 + b as int) * Pow2(8 - n)
  }

  lemma {:induction false} AlignedStart(b: byte)
    ensures Aligned(0x100 + b as int, b, 8)
  {
  }

  lemma {:induction false} AlignedStep(symbol: nat, b: byte, n: nat)
    requires 1 <= n && Aligned(symbol, b, n)
    ensures Aligned(2 * symbol, b, n - 1)
    ensures symbol / 0x80 % 2 == BitAt(b, n - 1)
    ensures 2 * symbol / 0x100 == 2 * (symbol / 0x100) + symbol / 0x80 % 2
    ensures 2 * symbol < 0x1_0000 <==> n > 1
  {
    hide BitAt, Pow2;
    var v := 0x100 + b as int;
    AlignedBit(v, n);
    TopBit(b, n - 1);
    AlignedSize(v, n);
    DoubledByte(symbol);
  }

  lemma {:induction false} DoubledByte(symbol: nat)
    ensures 2 * symbol / 0x100 == 2 * (symbol / 0x100) + symbol / 0x80 % 2
  {
    var h, l := symbol / 0x80, symbol % 0x80;
    DivUnique(symbol, 0x100, h / 2, 0x80 * (h % 2) + l);
    DivUnique(2 * symbol, 0x100, h, 2 * l);
  }

  lemma {:induction false} AlignedBit(v: nat, n: nat)
    requires 1 <= n <= 8
    ensures v * Pow2(8 - n) / 0x80 % 2 == BitAt(v, n - 1)
    ensures 2 * (v * Pow2(8 - n)) == v * Pow2(9 - n)
  {
    Pow2Table();
    Pow2Add(n - 1, 8 - n);
    assert Pow2(7) == Pow2(n - 1) * Pow2(8 - n);
    PacketRoundTrip.DivCancel(v, Pow2(n - 1), Pow2(8 - n));
    var p := Pow2(8 - n);
    assert Pow2(9 - n) == 2 * p;
    assert 2 * (v * p) == v * (2 * p);
  }

  lemma {:induction false} AlignedSize(v: nat, n: nat)
    requires 1 <= n <= 8 && 0x100 <= v < 0x200
    ensures v * Pow2(9 - n) < 0x1_0000 <==> n > 1
  {
    Pow2Table();
    if n > 1 {
      Pow2Monotone(9 - n, 7);
      MulMono(v, 0x1ff, Pow2(9 - n));
    } else {
      assert v * Pow2(8) >= 0x1_0000;
    }
  }

  /** The leading one does not disturb the lower bits. */
  lemma {:induction false} TopBit(b: nat, k: nat)
    requires k <= 7
    ensures BitAt(0x100 + b, k) == BitAt(b, k)
  {
    Pow2Table();
    Pow2Add(k, 8 - k);
    var p, q := Pow2(k), Pow2(8 - k);
    assert 0x100 == q * p;
    assert (0x100 + b) / p == q + b / p by {
      assert 0x100 + b == (q + b / p) * p + b % p;
      DivUnique(0x100 + b, p, q + b / p, b % p);
    }
    assert q == 2 * Pow2(7 - k);
  }

  /** offs & ~(matchByte ^ symbol): the mask survives while bit 8 of both agrees. */
  function KeepIfEqual(offs: nat, matchByte: nat, symbol: nat): nat {
    if matchByte / 0x100 % 2 == symbol / 0x100 % 2 then offs else 0
  }

  // ----- scripts grow one step at a time -----

  lemma {:induction false} TreeOpsStep(before: seq<Op>, t: Tree, n: nat, sym: nat, m: nat)
    requires n > 0
    ensures before + TreeOps(t, n, sym, m)
            == before + [Bit(Node(t, m), BitAt(sym, n - 1))] + TreeOps(t, n - 1, sym, 2 * m + BitAt(sym, n - 1))
  {
    hide BitAt, Node;
  }

  lemma {:induction false} TreeOpsEnd(before: seq<Op>, t: Tree, sym: nat, m: nat)
    ensures before + TreeOps(t, 0, sym, m) == before
  {
  }

  lemma {:induction false} ReverseOpsStep(before: seq<Op>, t: Tree, n: nat, sym: nat, m: nat)
    requires n > 0
    ensures before + ReverseOps(t, n, sym, m)
            == before + [Bit(Node(t, m), sym % 2)] + ReverseOps(t, n - 1, sym / 2, 2 * m + sym % 2)
  {
    hide Node;
  }

  lemma {:induction false} ReverseOpsEnd(before: seq<Op>, t: Tree, sym: nat, m: nat)
    ensures before + ReverseOps(t, 0, sym, m) == before
  {
  }

  lemma {:induction false} MatchedOpsStep(before: seq<Op>, base: nat, n: nat, sym: nat, matchByte: nat, m: nat, same: bool)
    requires n > 0
    ensures var b: bit := BitAt(sym, n - 1);
            var mb: bit := BitAt(matchByte, n - 1);
            var node := if same then 0x100 + 0x100 * mb + m else m;
            before + MatchedOps(base, n, sym, matchByte, m, same)
            == before + [Bit(Lit(base + node), b)] + MatchedOps(base, n - 1, sym, matchByte, 2 * m + b, same && b == mb)
  {
    hide BitAt;
  }

  lemma {:induction false} MatchedOpsEnd(before: seq<Op>, base: nat, sym: nat, matchByte: nat, m: nat, same: bool)
    ensures before + MatchedOps(base, 0, sym, matchByte, m, same) == before
  {
  }

  /** A run in the text is what the packet expands to. */
  lemma {:induction false} ExpandText(text: seq<byte>, pos: nat, dist: nat, len: nat)
    requires dist < pos && pos + len <= |text|
    requires forall i :: pos <= i < pos + len ==> text[i] == text[i - dist - 1]
    ensures Expand(text[..pos], dist, len) == text[..pos + len]
    decreases len
  {
    if len > 0 {
      assert text[..pos] + [text[pos]] == text[..pos + 1];
      ExpandText(text, pos + 1, dist, len - 1);
    }
  }

  lemma {:induction false} StartFacts(pr: Props, dicSize: nat)
    requires ValidProps(pr)
    ensures EncOps(ENC_START, []) == ENC_START
    ensures AllAdmissible(CTX_START, dicSize, []) && RunCtx(CTX_START, dicSize, []) == CTX_START
    ensures PacketsOps(pr, CTX_START, dicSize, []) == []
  {
  }

  /** The len bytes of text from p on are those dist + 1 positions before. */
  ghost predicate RepeatsAt(text: seq<byte>, p: nat, dist: nat, len: nat) {
    && dist < p && p + len <= |text|
    && forall i :: p <= i < p + len ==> text[i] == text[i - dist - 1]
  }

  class LzmaEnc {
    const pr: Props
    const dicSize: nat
    /** The text the match finder presents. */
    const text: seq<byte>
    const rc: RangeEnc
    const fastPos: array<byte>

    var probs: map<Cell, Prob>
    var state: nat
    var reps: seq<nat>
    var nowPos64: nat

    /** Everything coded so far, as steps and as packets. */
    ghost var ops: seq<Op>
    ghost var pks: seq<Packet>

    ghost predicate Coding()
      reads this`probs, this`ops, rc
    {
      rc.Valid() && Enc(rc.Iv(), probs) == EncOps(ENC_START, ops)
    }

    /** The stream so far consists of admissible packets that spell out text[..nowPos64]. */
    ghost predicate Valid()
      reads this, rc, fastPos
    {
      && ValidProps(pr) && dicSize <= 0x4000_0000 && FastPosOk(fastPos[..])
      && Coding()
      && AllAdmissible(CTX_START, dicSize, pks)
      && ops == PacketsOps(pr, CTX_START, dicSize, pks)
      && nowPos64 <= |text|
      && RunCtx(CTX_START, dicSize, pks) == Ctx(state, reps, text[..nowPos64])
    }

    /** LzmaEnc_Construct and LzmaEnc_Init. */
    constructor (pr: Props, dicSize: nat, text: seq<byte>)
      requires ValidProps(pr) && dicSize <= 0x4000_0000
      ensures Valid() && fresh(rc) && fresh(fastPos)
      ensures this.pr == pr && this.dicSize == dicSize && this.text == text
      ensures reps == [0, 0, 0, 0] && nowPos64 == 0 && pks == [] && rc.out == []
    {
      hide PosState, PacketOps, FastPosOk, EncOps, AllAdmissible, PacketsOps, RunCtx, Val, Cap, IntervalOk, Repeat;
      this.pr := pr;
      this.dicSize := dicSize;
      this.text := text;
      var enc := new RangeEnc();
      rc := enc;
      var g := new byte[0x2000];
      FastPosInit(g);
      fastPos := g;
      probs := map[];
      state := 0;
      reps := [0, 0, 0, 0];
      nowPos64 := 0;
      ops := [];
      pks := [];
      new;
      StartFacts(pr, dicSize);
    }

    /** RangeEnc_EncodeBit on one cell of the encoder's arrays. */
    method EncodeBit(c: Cell, b: bit)
      requires Coding()
      modifies this`probs, this`ops, rc
      ensures Coding() && ops == old(ops) + [Bit(c, b)]
      ensures old(rc.out) <= rc.out
    {
      EncOpsSnoc(ENC_START, ops, Bit(c, b));
      var p := rc.EncodeBit(Get(probs, c), b);
      probs := probs[c := p];
      ops := ops + [Bit(c, b)];
    }

    method EncodeDirectBits(value: nat, numBits: nat)
      requires Coding() && numBits > 0
      modifies this`ops, rc
      ensures Coding() && ops == old(ops) + DirectOps(value, numBits)
      ensures old(rc.out) <= rc.out
    {
      EncOpsConcat(ENC_START, ops, DirectOps(value, numBits));
      rc.EncodeDirectBits(value, numBits, probs);
      ops := ops + DirectOps(value, numBits);
    }

    /** RcTree_Encode. */
    method TreeEncode(t: Tree, numBitLevels: nat, symbol: nat)
      requires Coding()
      modifies this`probs, this`ops, rc
      ensures Coding() && ops == old(ops) + TreeOps(t, numBitLevels, symbol, 1)
      ensures old(rc.out) <= rc.out
    {
      hide *;
      ghost var goal := ops + TreeOps(t, numBitLevels, symbol, 1);
      var m: nat, i := 1, numBitLevels;
      while i != 0
        invariant 0 <= i <= numBitLevels && Coding()
        invariant ops + TreeOps(t, i, symbol, m) == goal
        invariant old(rc.out) <= rc.out
      {
        TreeOpsStep(ops, t, i, symbol, m);
        i := i - 1;
        var b := BitAt(symbol, i);
        EncodeBit(Node(t, m), b);
        m := 2 * m + b;
      }
      TreeOpsEnd(ops, t, symbol, m);
    }

    /** RcTree_ReverseEncode. */
    method ReverseEncode(t: Tree, numBitLevels: nat, value: nat)
      requires Coding()
      modifies this`probs, this`ops, rc
      ensures Coding() && ops == old(ops) + ReverseOps(t, numBitLevels, value, 1)
      ensures old(rc.out) <= rc.out
    {
      hide *;
      ghost var goal := ops + ReverseOps(t, numBitLevels, value, 1);
      var m: nat, i, symbol := 1, 0, value;
      while i < numBitLevels
        invariant 0 <= i <= numBitLevels && Coding()
        invariant ops + ReverseOps(t, numBitLevels - i, symbol, m) == goal
        invariant old(rc.out) <= rc.out
      {
        ReverseOpsStep(ops, t, numBitLevels - i, symbol, m);
        var b: bit := symbol % 2;
        EncodeBit(Node(t, m), b);
        m := 2 * m + b;
        symbol := symbol / 2;
        i := i + 1;
      }
      ReverseOpsEnd(ops, t, symbol, m);
    }

    /** LitEnc_Encode. */
    method LitEncode(base: nat, b: byte)
      requires Coding()
      modifies this`probs, this`ops, rc
      ensures Coding() && ops == old(ops) + TreeOps(LitTree(base), 8, b, 1)
      ensures old(rc.out) <= rc.out
    {
      hide *;
      ghost var goal := ops + TreeOps(LitTree(base), 8, b, 1);
      ghost var n := 8;
      AlignedStart(b);
      var symbol: nat := 0x100 + b as int;
      while symbol < 0x1_0000
        invariant 0 <= n <= 8 && Aligned(symbol, b, n) && Coding()
        invariant symbol < 0x1_0000 <==> n > 0
        invariant ops + TreeOps(LitTree(base), n, b, symbol / 0x100) == goal
        invariant old(rc.out) <= rc.out
        decreases n
      {
        AlignedStep(symbol, b, n);
        TreeOpsStep(ops, LitTree(base), n, b, symbol / 0x100);
        LitTreeNode(base, symbol / 0x100);
        EncodeBit(Lit(base + symbol / 0x100), symbol / 0x80 % 2);
        symbol := 2 * symbol;
        n := n - 1;
      }
      TreeOpsEnd(ops, LitTree(base), b, symbol / 0x100);
    }

    /** LitEnc_EncodeMatched. */
    method LitEncodeMatched(base: nat, b: byte, match0: byte)
      requires Coding()
      modifies this`probs, this`ops, rc
      ensures Coding() && ops == old(ops) + MatchedOps(base, 8, b, match0, 1, true)
      ensures old(rc.out) <= rc.out
    {
      hide *;
      ghost var goal := ops + MatchedOps(base, 8, b, match0, 1, true);
      ghost var n := 8;
      ghost var same := true;
      AlignedStart(b);
      PacketRoundTrip.ShiftedStart(match0);
      var offs: nat := 0x100;
      var matchByte: nat := match0;
      var symbol: nat := 0x100 + b as int;
      while symbol < 0x1_0000
        invariant 0 <= n <= 8 && Aligned(symbol, b, n) && PacketRoundTrip.Shifted(matchByte, match0, n) && Coding()
        invariant symbol < 0x1_0000 <==> n > 0
        invariant offs == if same then 0x100 else 0
        invariant ops + MatchedOps(base, n, b, match0, symbol / 0x100, same) == goal
        invariant old(rc.out) <= rc.out
        decreases n
      {
        AlignedStep(symbol, b, n);
        PacketRoundTrip.ShiftedBit(matchByte, match0, n);
        MatchedOpsStep(ops, base, n, b, match0, symbol / 0x100, same);
        matchByte := 2 * matchByte;
        var bt: bit := symbol / 0x80 % 2;
        MaskedNode(matchByte, same, BitAt(match0, n - 1), symbol);
        EncodeBit(Lit(base + (offs + DecSpec.AndOffs(matchByte, offs) + symbol / 0x100)), bt);
        symbol := 2 * symbol;
        offs := KeepIfEqual(offs, matchByte, symbol);
        same := same && bt == BitAt(match0, n - 1);
        n := n - 1;
      }
      MatchedOpsEnd(ops, base, b, match0, symbol / 0x100, same);
    }

    /** LenEnc_Encode; symbol is the length minus 2. */
    method LenEncode(rep: bool, symbol: nat, posState: nat)
      requires Coding() && symbol < 272
      modifies this`probs, this`ops, rc
      ensures Coding() && ops == old(ops) + LenOps(rep, symbol, posState)
      ensures old(rc.out) <= rc.out
    {
      hide *;
      LenOpsShape(ops, rep, symbol, posState);
      if symbol < 8 {
        EncodeBit(Choice(rep), 0);
        TreeEncode(LowTree(rep, posState), 3, symbol);
      } else {
        EncodeBit(Choice(rep), 1);
        if symbol < 8 + 8 {
          EncodeBit(Choice2(rep), 0);
          TreeEncode(MidTree(rep, posState), 3, symbol - 8);
        } else {
          EncodeBit(Choice2(rep), 1);
          TreeEncode(HighTree(rep), 8, symbol - 8 - 8);
        }
      }
    }

    // ----- packets -----

    /** The context in which the next packet is coded. */
    ghost function Cur(): Ctx
      reads this
      requires nowPos64 <= |text|
    {
      Ctx(state, reps, text[..nowPos64])
    }

    /** What a packet coder needs and keeps. */
    ghost predicate Ready()
      reads this, rc, fastPos
    {
      && ValidProps(pr) && FastPosOk(fastPos[..]) && Coding()
      && nowPos64 <= |text| && CtxOk(Cur())
    }

    /** LIT_PROBS; the very first literal uses the first literal coder. */
    method LiteralBase() returns (base: nat)
      requires ValidProps(pr) && nowPos64 < |text|
      ensures base == LitBase(pr, text[..nowPos64])
    {
      hide LitProbs, U32;
      if nowPos64 == 0 {
        base := 0;
      } else {
        var nowPos32 := U32(nowPos64);
        LitProbsOfWord(pr, nowPos64, text[nowPos64 - 1]);
        base := LitProbs(pr, nowPos32, text[nowPos64 - 1]);
      }
    }

    method CodeLiteral(posState: nat)
      requires Ready() && nowPos64 < |text| && posState == PosState(pr, nowPos64)
      modifies this`probs, this`ops, this`state, rc
      ensures Coding() && old(rc.out) <= rc.out
      ensures ops == old(ops) + PacketOps(pr, old(Cur()), Literal(text[nowPos64]))
      ensures state == NextState(old(state), Literal(text[nowPos64]))
    {
      hide Coding, PosState, LitBase, TreeOps, MatchedOps, EncOps;
      var curByte := text[nowPos64];
      EncodeBit(IsMatch(state, posState), 0);
      var base := LiteralBase();
      LiteralOpsShape(old(ops), pr, old(Cur()), curByte, posState);
      if state < NUM_LIT_STATES {
        LitEncode(base, curByte);
      } else {
        LitEncodeMatched(base, curByte, text[nowPos64 - reps[0] - 1]);
      }
      state := LITERAL_NEXT[state];
    }

    /** The flags that name a recent distance, and its move to the front. */
    method CodeRepFlags(back: nat, long: bit, posState: nat)
      requires Coding() && state < NUM_STATES && |reps| == 4 && back < NUM_REPS && (back > 0 ==> long == 1)
      modifies this`probs, this`ops, this`reps, rc
      ensures Coding() && old(rc.out) <= rc.out
      ensures ops == old(ops) + RepOps(state, posState, back, long)
      ensures reps == MoveToFront(old(reps), back)
    {
      hide Coding, EncOps;
      if back == 0 {
        EncodeBit(IsRepG0(state), 0);
        EncodeBit(IsRep0Long(state, posState), long);
      } else {
        var distance := reps[back];
        EncodeBit(IsRepG0(state), 1);
        if back == 1 {
          EncodeBit(IsRepG1(state), 0);
        } else {
          EncodeBit(IsRepG1(state), 1);
          EncodeBit(IsRepG2(state), back - 2);
          if back == 3 {
            reps := reps[3 := reps[2]];
          }
          reps := reps[2 := reps[1]];
        }
        reps := reps[1 := reps[0]];
        reps := reps[0 := distance];
      }
    }

    method CodeRep(len: nat, back: nat, posState: nat)
      requires Ready() && nowPos64 > 0 && back < NUM_REPS && posState == PosState(pr, nowPos64)
      requires 1 <= len <= LEN_MAX && (len == 1 ==> back == 0)
      modifies this`probs, this`ops, this`state, this`reps, rc
      ensures Coding() && old(rc.out) <= rc.out
      ensures var pk := if len == 1 then ShortRep else Rep(back, len);
              && ops == old(ops) + PacketOps(pr, old(Cur()), pk)
              && state == NextState(old(state), pk) && reps == NextReps(old(reps), pk)
    {
      hide Coding, PosState, EncOps, RepOps, LenOps, MoveToFront;
      ghost var before := ops;
      EncodeBit(IsMatch(state, posState), 1);
      EncodeBit(IsRep(state), 1);
      CodeRepFlags(back, if len == 1 then 0 else 1, posState);
      RepPacketShape(before, pr, old(Cur()), len, back, posState);
      if len == 1 {
        FrontOfFront(old(reps));
        state := SHORT_REP_NEXT[state];
      } else {
        LenEncode(true, len - LEN_MIN, posState);
        state := REP_NEXT[state];
      }
    }

    /** The footer of a distance whose slot has one. */
    method CodeFooter(pos: nat, posSlot: nat)
      requires Coding() && pos < WORD && posSlot == Slot(pos) && posSlot >= START_POS_MODEL
      requires pos >= SlotBase(posSlot)
      modifies this`probs, this`ops, rc
      ensures Coding() && old(rc.out) <= rc.out
      ensures ops == old(ops) + FooterOps(posSlot, pos)
    {
      hide Coding, EncOps, DirectOps, ReverseOps, Slot, Pow2;
      var footerBits := posSlot / 2 - 1;
      var base := if posSlot % 2 == 0 then 2 * Pow2(footerBits) else 3 * Pow2(footerBits);
      var posReduced := pos - base;
      if posSlot < END_POS_MODEL {
        ReverseEncode(SpecTree(base - posSlot - 1), footerBits, posReduced);
      } else {
        EncodeDirectBits(posReduced / ALIGN_SIZE, footerBits - 4);
        ReverseEncode(AlignTree, 4, posReduced % ALIGN_SIZE);
      }
    }

    method CodeMatch(len: nat, pos: nat, posState: nat)
      requires Ready() && posState == PosState(pr, nowPos64)
      requires LEN_MIN <= len <= LEN_MAX && pos < 0x8000_0000
      modifies this`probs, this`ops, this`state, this`reps, rc
      ensures Coding() && old(rc.out) <= rc.out
      ensures ops == old(ops) + PacketOps(pr, old(Cur()), Match(len, pos))
      ensures state == NextState(old(state), Match(len, pos)) && reps == NextReps(old(reps), Match(len, pos))
    {
      hide Coding, PosState, EncOps, TreeOps, LenOps, FooterOps, Slot, SlotBase;
      ghost var before := ops;
      MatchPacketShape(before, pr, old(Cur()), len, pos, posState);
      EncodeBit(IsMatch(state, posState), 1);
      EncodeBit(IsRep(state), 0);
      state := MATCH_NEXT[state];
      LenEncode(false, len - LEN_MIN, posState);
      var posSlot := GetPosSlot(fastPos, pos);
      TreeEncode(PosSlotTree(LenState(len)), 6, posSlot);
      if posSlot >= START_POS_MODEL {
        SlotAtLeast4(pos);
        CodeFooter(pos, posSlot);
      }
      reps := reps[3 := reps[2]];
      reps := reps[2 := reps[1]];
      reps := reps[1 := reps[0]];
      reps := reps[0 := pos];
    }

    // ----- choices of the optimizer -----

    ghost predicate Repeats(dist: nat, len: nat)
      reads this
    {
      RepeatsAt(text, nowPos64, dist, len)
    }

    /** Any (len, back) that describes the text ahead truthfully; which one GetOptimum picks only
        decides how short the output gets. */
    ghost predicate ValidChoice(len: nat, back: nat)
      reads this
    {
      if len == 1 && back == BACK_LITERAL then nowPos64 < |text|
      else
        && 1 <= len <= LEN_MAX
        && if back < NUM_REPS then |reps| == 4 && (len == 1 ==> back == 0) && Repeats(reps[back], len)
           else len >= LEN_MIN && back - NUM_REPS < dicSize && Repeats(back - NUM_REPS, len)
    }

    ghost function PacketOf(len: nat, back: nat): Packet
      reads this
      requires nowPos64 < |text|
    {
      if len == 1 && back == BACK_LITERAL then Literal(text[nowPos64])
      else if back < NUM_REPS then (if len == 1 then ShortRep else Rep(back, len))
      else Match(len, back - NUM_REPS)
    }

    /** One round of the coding loop: the packet is appended to the stream and the text position
        advances by its length. */
    method CodePacket(len: nat, back: nat)
      requires Valid() && ValidChoice(len, back)
      modifies this, rc
      ensures Valid() && old(rc.out) <= rc.out
      ensures nowPos64 == old(nowPos64) + len
      ensures pks == old(pks) + [old(PacketOf(len, back))]
      ensures |old(reps)| == 4 && reps == NextReps(old(reps), old(PacketOf(len, back)))
    {
      hide PosState, PacketOps, PacketsOps, EncOps, NextCtx, FastPosOk, AllAdmissible, RunCtx, Admissible, NextState, MoveToFront;
      ghost var pk := PacketOf(len, back);
      ghost var c := Cur();
      PosStateOfWord(pr, nowPos64);
      var posState := U32(nowPos64) % Pow2(pr.pb);
      assert CtxOk(c);
      ChoiceAdmissible(len, back);
      PacketsOpsSnoc(pr, CTX_START, dicSize, pks, pk);
      AllAdmissibleSnoc(CTX_START, dicSize, pks, pk);
      if len == 1 && back == BACK_LITERAL {
        CodeLiteral(posState);
      } else if back < NUM_REPS {
        CodeRep(len, back, posState);
      } else {
        CodeMatch(len, back - NUM_REPS, posState);
      }
      nowPos64 := nowPos64 + len;
      pks := pks + [pk];
      assert ops == PacketsOps(pr, CTX_START, dicSize, pks);
      assert RunCtx(CTX_START, dicSize, pks) == Ctx(state, reps, text[..nowPos64]);
    }

    /** A truthful choice is admissible and expands to the text ahead. */
    lemma {:induction false} ChoiceAdmissible(len: nat, back: nat)
      requires nowPos64 <= |text| && CtxOk(Cur()) && dicSize <= 0x4000_0000 && ValidChoice(len, back)
      ensures nowPos64 < |text|
      ensures Admissible(Cur(), dicSize, PacketOf(len, back))
      ensures var pk := PacketOf(len, back);
              NextCtx(Cur(), dicSize, pk)
              == Ctx(NextState(state, pk), NextReps(reps, pk), text[..nowPos64 + len])
      ensures back >= NUM_REPS && back != BACK_LITERAL ==> back - NUM_REPS < 0x8000_0000
    {
      hide NextState, NextReps, Expand;
      var pk := PacketOf(len, back);
      if pk.Literal? {
        assert text[..nowPos64] + [text[nowPos64]] == text[..nowPos64 + 1];
      } else {
        ExpandText(text, nowPos64, CopyOf(reps, pk).0, len);
      }
    }

    // ----- the end of the stream -----

    method WriteEndMarker(posState: nat)
      requires Ready() && posState == PosState(pr, nowPos64)
      modifies this`probs, this`ops, this`state, rc
      ensures Coding() && old(rc.out) <= rc.out
      ensures ops == old(ops) + PacketOps(pr, old(Cur()), END_MARK)
    {
      hide Coding, PosState, EncOps, TreeOps, LenOps, DirectOps, ReverseOps, Pow2;
      ghost var before := ops;
      EndMarkShape(before, pr, old(Cur()), posState);
      EncodeBit(IsMatch(state, posState), 1);
      EncodeBit(IsRep(state), 0);
      state := MATCH_NEXT[state];
      LenEncode(false, 0, posState);
      TreeEncode(PosSlotTree(LenState(LEN_MIN)), 6, 63);
      EncodeDirectBits(0x3FFF_FFFF / 16, 30 - 4);
      ReverseEncode(AlignTree, 4, ALIGN_SIZE - 1);
    }

    /** Flush: the finished output decodes to exactly the text coded so far. */
    method Flush(mark: bool)
      requires Valid()
      modifies this, rc
      ensures old(rc.out) <= rc.out
      ensures pks == old(pks) && nowPos64 == old(nowPos64)
      ensures Reproduces(pr, dicSize, rc.out, |pks|, mark, text[..nowPos64])
    {
      hide PosState, PacketOps, PacketsOps, EncOps, RunCtx, Reproduces, FastPosOk, Val;
      ghost var c := Cur();
      PosStateOfWord(pr, nowPos64);
      if mark {
        WriteEndMarker(U32(nowPos64) % Pow2(pr.pb));
      }
      assert ops == StreamOps(pr, dicSize, pks, mark);
      rc.FlushData();
      assert Encodes(ops, rc.out);
      CodecRoundTrip(pr, dicSize, pks, mark, rc.out);
    }
  }

  lemma {:induction false} FrontOfFront(reps: seq<nat>)
    requires |reps| == 4
    ensures MoveToFront(reps, 0) == reps
  {
  }

  lemma {:induction false} LiteralOpsShape(before: seq<Op>, pr: Props, c: Ctx, b: byte, ps: nat)
    requires ValidProps(pr) && CtxOk(c) && ps == PosState(pr, |c.hist|)
    ensures before + PacketOps(pr, c, Literal(b))
            == before + [Bit(IsMatch(c.state, ps), 0)]
               + if c.state < NUM_LIT_STATES then TreeOps(LitTree(LitBase(pr, c.hist)), 8, b, 1)
                 else MatchedOps(LitBase(pr, c.hist), 8, b, c.hist[|c.hist| - 1 - c.reps[0]], 1, true)
  {
    hide TreeOps, MatchedOps, LitBase, PosState;
  }

  lemma {:induction false} RepPacketShape(before: seq<Op>, pr: Props, c: Ctx, len: nat, back: nat, ps: nat)
    requires ValidProps(pr) && CtxOk(c) && ps == PosState(pr, |c.hist|)
    requires 1 <= len <= LEN_MAX && back < 4 && (len == 1 ==> back == 0)
    ensures before + PacketOps(pr, c, if len == 1 then ShortRep else Rep(back, len))
            == before + [Bit(IsMatch(c.state, ps), 1)] + [Bit(IsRep(c.state), 1)]
               + RepOps(c.state, ps, back, if len == 1 then 0 else 1)
               + if len == 1 then [] else LenOps(true, len - LEN_MIN, ps)
  {
    hide RepOps, LenOps, PosState;
  }

  lemma {:induction false} MatchPacketShape(before: seq<Op>, pr: Props, c: Ctx, len: nat, dist: nat, ps: nat)
    requires ValidProps(pr) && CtxOk(c) && ps == PosState(pr, |c.hist|)
    requires LEN_MIN <= len <= LEN_MAX && dist < WORD
    ensures Slot(dist) >= START_POS_MODEL ==> dist >= SlotBase(Slot(dist))
    ensures before + PacketOps(pr, c, Match(len, dist))
            == before + [Bit(IsMatch(c.state, ps), 1)] + [Bit(IsRep(c.state), 0)] + LenOps(false, len - LEN_MIN, ps)
               + TreeOps(PosSlotTree(LenState(len)), 6, Slot(dist), 1)
               + if Slot(dist) < START_POS_MODEL then [] else FooterOps(Slot(dist), dist)
  {
    hide TreeOps, LenOps, FooterOps, Slot, SlotBase, PosState;
    if Slot(dist) >= START_POS_MODEL {
      SlotAtLeast4(dist);
    }
  }

  lemma {:induction false} EndSlot()
    ensures Slot(END_DIST) == 63 && SlotBase(63) == 0xC000_0000 && FooterBits(63) == 30
  {
    Pow2Table();
    SlotUnique(END_DIST, 63);
  }

  lemma {:induction false} EndMarkShape(before: seq<Op>, pr: Props, c: Ctx, ps: nat)
    requires ValidProps(pr) && CtxOk(c) && ps == PosState(pr, |c.hist|)
    ensures before + PacketOps(pr, c, END_MARK)
            == before + [Bit(IsMatch(c.state, ps), 1)] + [Bit(IsRep(c.state), 0)] + LenOps(false, 0, ps)
               + TreeOps(PosSlotTree(LenState(LEN_MIN)), 6, 63, 1)
               + DirectOps(0x3FFF_FFFF / 16, 26) + ReverseOps(AlignTree, 4, 15, 1)
  {
    hide TreeOps, LenOps, DirectOps, ReverseOps, Slot, SlotBase, PosState, FooterBits, Pow2;
    EndSlot();
    MatchPacketShape(before, pr, c, LEN_MIN, END_DIST, ps);
    assert FooterOps(63, END_DIST) == DirectOps(0x3FFF_FFFF / 16, 26) + ReverseOps(AlignTree, 4, 15, 1);
  }

  lemma {:induction false} LitTreeNode(base: nat, m: nat)
    ensures Node(LitTree(base), m) == Lit(base + m)
  {
  }

  lemma {:induction false} LenOpsShape(before: seq<Op>, rep: bool, sym: nat, ps: nat)
    ensures before + LenOps(rep, sym, ps)
            == if sym < 8 then before + [Bit(Choice(rep), 0)] + TreeOps(LowTree(rep, ps), 3, sym, 1)
               else if sym < 16 then
                 before + [Bit(Choice(rep), 1)] + [Bit(Choice2(rep), 0)] + TreeOps(MidTree(rep, ps), 3, sym - 8, 1)
               else before + [Bit(Choice(rep), 1)] + [Bit(Choice2(rep), 1)] + TreeOps(HighTree(rep), 8, sym - 16, 1)
  {
    hide TreeOps;
  }

  /** The encoder's masks, as the script states them. */
  lemma {:induction false} MaskedNode(x: nat, same: bool, mb: bit, symbol: nat)
    requires x / 0x100 % 2 == mb
    ensures var offs := if same then 0x100 else 0;
            && DecSpec.AndOffs(x, offs) == (if same then 0x100 * mb else 0)
            && KeepIfEqual(offs, x, 2 * symbol) == if same && symbol / 0x80 % 2 == mb then 0x100 else 0
  {
  }
}
