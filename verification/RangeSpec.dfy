/**
 * The range coder in exact arithmetic: the encoder's interval as unbounded integers, the
 * decoder's 32-bit words, and the theorem that the decoder recovers what was encoded.
 */
module RangeSpec {
  import opened Bytes
  import opened Cells

  const TOP := 0x100_0000
  const FULL_RANGE: word := 0xFFFF_FFFF
  const RC_INIT_SIZE := 5

  /** One coding step: an adaptive bit under a cell, or a bit of fixed probability one half. */
  datatype Op = Bit(cell: Cell, b: bit) | Direct(b: bit)

  ghost predicate ValidOps(ops: seq<Op>, lclp: nat) {
    forall i :: 0 <= i < |ops| && ops[i].Bit? ==> ValidCell(ops[i].cell, lclp)
  }

  /** Adaptation of a probability after coding bit b; the type says that it stays in [31, 2017]. */
  function Adapt(p: Prob, b: bit): Prob {
    if b == 0 then p + (2048 - p) / 32 else p - p / 32
  }

  // ----- encoder, exact -----

  /** The interval [low, low + range), in units of 256^-shifts of the first interval's unit. */
  datatype Interval = Interval(low: nat, range: word, shifts: nat)

  datatype Enc = Enc(iv: Interval, probs: map<Cell, Prob>)

  const ENC_START := Enc(Interval(0, FULL_RANGE, 0), map[])

  ghost predicate IntervalOk(iv: Interval) {
    && TOP <= iv.range
    && iv.low + iv.range <= WORD * Cap(iv.shifts)
  }

  function Normalized(iv: Interval): Interval {
    if iv.range < TOP then Interval(256 * iv.low, 256 * iv.range, iv.shifts + 1) else iv
  }

  lemma {:induction false} MulBetween(q: nat, p: Prob)
    ensures 31 * q <= q * p <= 2017 * q
  {
    assert q * p - 31 * q == q * (p - 31);
    assert 2017 * q - q * p == q * (2017 - p);
  }

  /** Where a range is cut when 0 has probability p/2048. */
  function Bound(r: word, p: Prob): (b: word)
    ensures 31 * (r / 2048) <= b <= 2017 * (r / 2048) <= r
  {
    MulBetween(r / 2048, p);
    r / 2048 * p
  }

  /** The part of the interval that stands for bit b. */
  function Narrow(iv: Interval, bound: nat, b: bit): Interval
    requires bound <= iv.range
  {
    if b == 0 then iv.(range := bound) else iv.(low := iv.low + bound, range := iv.range - bound)
  }

  function NarrowDirect(iv: Interval, b: bit): Interval {
    var half := iv.range / 2;
    if b == 0 then iv.(range := half) else iv.(low := iv.low + half, range := half)
  }

  function EncOp(e: Enc, op: Op): Enc {
    match op
    case Bit(c, b) =>
      var p := Get(e.probs, c);
      Enc(Normalized(Narrow(e.iv, Bound(e.iv.range, p), b)), e.probs[c := Adapt(p, b)])
    case Direct(b) =>
      e.(iv := Normalized(NarrowDirect(e.iv, b)))
  }

  function EncOps(e: Enc, ops: seq<Op>): Enc
    decreases |ops|
  {
    if ops == [] then e else EncOps(EncOp(e, ops[0]), ops[1..])
  }

  lemma {:induction false} EncOpsConcat(e: Enc, a: seq<Op>, b: seq<Op>)
    ensures EncOps(e, a + b) == EncOps(EncOps(e, a), b)
    decreases |a|
  {
    if a == [] {
      assert a + b == b;
    } else {
      assert (a + b)[1..] == a[1..] + b;
      EncOpsConcat(EncOp(e, a[0]), a[1..], b);
    }
  }

  /** Each part of a legal range is at least 2^16, so a single shift by 8 makes it legal again. */
  lemma {:induction false} BoundKeepsRange(r: word, p: Prob)
    requires TOP <= r
    ensures 0 < Bound(r, p) < r
    ensures TOP <= 256 * Bound(r, p) && TOP <= 256 * (r - Bound(r, p))
  {
  }

  /** One step keeps the interval legal; a single shift by 8 is always enough to restore the
      range to at least 2^24. */
  lemma {:induction false} EncOpOk(e: Enc, op: Op)
    requires IntervalOk(e.iv)
    ensures IntervalOk(EncOp(e, op).iv)
  {
    match op
    case Bit(c, b) => BoundKeepsRange(e.iv.range, Get(e.probs, c));
    case Direct(b) =>
  }

  lemma {:induction false} EncOpsOk(e: Enc, ops: seq<Op>)
    requires IntervalOk(e.iv)
    ensures IntervalOk(EncOps(e, ops).iv)
    ensures EncOps(e, ops).iv.shifts >= e.iv.shifts
    decreases |ops|
  {
    if ops != [] {
      EncOpOk(e, ops[0]);
      EncOpsOk(EncOp(e, ops[0]), ops[1..]);
    }
  }

  // ----- decoder, 32-bit words -----

  /** The decoder's range between steps: never so small that one shift by 8 does not suffice. */
  type coderange = x: int | 0x1_0000 <= x < WORD witness 0x1_0000

  /** The decoder's arithmetic state; pos counts the bytes read from the whole input. A dry run
      (learn false) reads bits without adapting the probabilities. */
  datatype Src = Src(range: coderange, code: word, pos: nat, probs: seq<Prob>, learn: bool)

  /** Either the input ran out, or a value and the state after it. */
  datatype Out<+T> = Short | Got(value: T, src: Src) {
    predicate IsFailure() {
      Short?
    }

    function PropagateFailure<U>(): Out<U>
      requires Short?
    {
      Short
    }

    function Extract(): (T, Src)
      requires Got?
    {
      (value, src)
    }
  }

  /** NORMALIZE: reads one byte when the range has dropped below 2^24. */
  function Norm(inp: seq<byte>, s: Src): (r: Out<()>)
    ensures r.Short? ==> s.pos >= |inp|
    ensures r.Got? ==> s.pos <= r.src.pos <= s.pos + 1 && r.src.probs == s.probs && r.src.learn == s.learn
    ensures r.Got? ==> r.src.range >= TOP
    ensures r.Got? && s.pos <= |inp| ==> r.src.pos <= |inp|
  {
    if s.range < TOP then
      if s.pos >= |inp| then Short
      else Got((), s.(range := s.range * 256, code := s.code % TOP * 256 + inp[s.pos], pos := s.pos + 1))
    else Got((), s)
  }

  function DecBit(inp: seq<byte>, s: Src, c: Cell): (r: Out<bit>)
    ensures r.Short? ==> s.pos >= |inp|
    ensures r.Got? ==> s.pos <= r.src.pos <= s.pos + 1 && |r.src.probs| == |s.probs|
    ensures r.Got? && s.pos <= |inp| ==> r.src.pos <= |inp|
  {
    var (_, n) :- Norm(inp, s);
    var i := Index(c);
    var p: Prob := if 0 <= i < |n.probs| then n.probs[i] else PROB_INIT;
    var bound := Bound(n.range, p);
    var b: bit := if n.code < bound then 0 else 1;
    var probs := if n.learn && 0 <= i < |n.probs| then n.probs[i := Adapt(p, b)] else n.probs;
    if b == 0 then Got(0, n.(range := bound, probs := probs))
    else Got(1, n.(range := n.range - bound, code := n.code - bound, probs := probs))
  }

  /** The bit of fixed probability: the sign of the 32-bit difference code - half decides.
      While the code is below twice the halved range that is a plain comparison. */
  function Halve(code: word, half: word): (r: (bit, word))
    ensures code < half <= 0x8000_0000 ==> r == (0, code)
    ensures half <= code < half + 0x8000_0000 ==> r == (1, code - half)
  {
    var d := U32(code - half);
    if d >= 0x8000_0000 then (0, code) else (1, d)
  }

  function DecDirect(inp: seq<byte>, s: Src): (r: Out<bit>)
    ensures r.Short? ==> s.pos >= |inp|
    ensures r.Got? ==> s.pos <= r.src.pos <= s.pos + 1 && |r.src.probs| == |s.probs|
    ensures r.Got? && s.pos <= |inp| ==> r.src.pos <= |inp|
  {
    var (_, n) :- Norm(inp, s);
    var half := n.range / 2;
    var (b, code) := Halve(n.code, half);
    Got(b, n.(range := half, code := code))
  }

  function DecOp(inp: seq<byte>, s: Src, op: Op): (r: Out<bit>) {
    match op
    case Bit(c, _) => DecBit(inp, s, c)
    case Direct(_) => DecDirect(inp, s)
  }

  /** The decoder reads exactly the bits of ops under the cells of ops; gives its state after. */
  function Follow(inp: seq<byte>, s: Src, ops: seq<Op>): Option<Src>
    decreases |ops|
  {
    if ops == [] then Some(s)
    else
      match DecOp(inp, s, ops[0])
      case Short => None
      case Got(b, s1) => if b == ops[0].b then Follow(inp, s1, ops[1..]) else None
  }

  lemma {:induction false} FollowConcat(inp: seq<byte>, s: Src, a: seq<Op>, b: seq<Op>)
    ensures Follow(inp, s, a + b) ==
            match Follow(inp, s, a) { case None => None case Some(s1) => Follow(inp, s1, b) }
    decreases |a|
  {
    if a == [] {
      assert a + b == b;
    } else {
      assert (a + b)[1..] == a[1..] + b && (a + b)[0] == a[0];
      match DecOp(inp, s, a[0])
      case Short =>
      case Got(bit, s1) => FollowConcat(inp, s1, a[1..], b);
    }
  }

  // ----- the two sides in step -----

  /** The code value read so far lies in the encoder's interval. */
  ghost predicate Within(iv: Interval, inp: seq<byte>) {
    && RC_INIT_SIZE + iv.shifts <= |inp|
    && iv.low <= Val(inp[..RC_INIT_SIZE + iv.shifts]) < iv.low + iv.range
  }

  /** Up to its pending normalization the decoder has the encoder's range, the offset of the
      code value in the encoder's interval, and the same probabilities. */
  ghost predicate InStep(e: Enc, inp: seq<byte>, s: Src, lclp: nat) {
    && IntervalOk(e.iv)
    && Within(e.iv, inp)
    && Norm(inp, s).Got?
    && var n := Norm(inp, s).src;
    && n.range == e.iv.range
    && n.pos == RC_INIT_SIZE + e.iv.shifts
    && n.code == Val(inp[..n.pos]) - e.iv.low
    && n.learn && SameTables(e.probs, n.probs, lclp)
  }

  /** Intervals are nested: a number inside the interval after a shift was inside before it. */
  lemma {:induction false} WithinBeforeNormalized(iv: Interval, inp: seq<byte>)
    requires Within(Normalized(iv), inp)
    ensures Within(iv, inp)
  {
    if iv.range < TOP {
      ValNext(inp, RC_INIT_SIZE + iv.shifts);
    }
  }

  lemma {:induction false} WithinBeforeNarrow(iv: Interval, bound: nat, b: bit, inp: seq<byte>)
    requires bound <= iv.range && Within(Normalized(Narrow(iv, bound, b)), inp)
    ensures Within(iv, inp)
  {
    WithinBeforeNormalized(Narrow(iv, bound, b), inp);
  }

  lemma {:induction false} WithinBeforeOp(e: Enc, op: Op, inp: seq<byte>)
    requires Within(EncOp(e, op).iv, inp)
    ensures Within(e.iv, inp)
  {
    match op
    case Bit(c, b) =>
      WithinBeforeNarrow(e.iv, Bound(e.iv.range, Get(e.probs, c)), b, inp);
    case Direct(b) =>
      WithinBeforeNormalized(NarrowDirect(e.iv, b), inp);
  }

  lemma {:induction false} WithinBeforeOps(e: Enc, ops: seq<Op>, inp: seq<byte>)
    requires IntervalOk(e.iv) && Within(EncOps(e, ops).iv, inp)
    ensures Within(e.iv, inp)
    decreases |ops|
  {
    if ops != [] {
      EncOpOk(e, ops[0]);
      WithinBeforeOps(EncOp(e, ops[0]), ops[1..], inp);
      WithinBeforeOp(e, ops[0], inp);
    }
  }

  /** If the decoder holds the right code for an interval, its normalization mirrors the shift. */
  lemma {:induction false} NormMirrors(iv: Interval, inp: seq<byte>, s: Src)
    requires 0 < iv.range && 256 * iv.range >= TOP
    requires Within(Normalized(iv), inp)
    requires s.range == iv.range && s.pos == RC_INIT_SIZE + iv.shifts <= |inp|
    requires s.code == Val(inp[..s.pos]) - iv.low
    ensures Norm(inp, s).Got?
    ensures var n := Norm(inp, s).src;
            var j := Normalized(iv);
            && n.range == j.range && n.pos == RC_INIT_SIZE + j.shifts <= |inp|
            && n.code == Val(inp[..n.pos]) - j.low && n.probs == s.probs && n.learn == s.learn
  {
    if iv.range < TOP {
      ValNext(inp, s.pos);
      WithinBeforeNormalized(iv, inp);
    }
  }

  /** A decoder past its normalization that holds the right code picks the encoder's part. */
  lemma {:induction false} BitInStep(iv: Interval, bound: word, b: bit, inp: seq<byte>, n: Src)
    requires 0 < bound < iv.range && 256 * bound >= TOP && 256 * (iv.range - bound) >= TOP
    requires Within(Normalized(Narrow(iv, bound, b)), inp)
    requires n.range == iv.range && n.pos == RC_INIT_SIZE + iv.shifts <= |inp|
    requires n.code == Val(inp[..n.pos]) - iv.low
    ensures b == 0 <==> n.code < bound
    ensures var m := if b == 0 then n.(range := bound) else n.(range := n.range - bound, code := n.code - bound);
            var j := Normalized(Narrow(iv, bound, b));
            && Norm(inp, m).Got?
            && var r := Norm(inp, m).src;
            && r.range == j.range && r.pos == RC_INIT_SIZE + j.shifts <= |inp|
            && r.code == Val(inp[..r.pos]) - j.low && r.probs == n.probs && r.learn == n.learn
  {
    var j := Narrow(iv, bound, b);
    WithinBeforeNormalized(j, inp);
    NormMirrors(j, inp, if b == 0 then n.(range := bound) else n.(range := n.range - bound, code := n.code - bound));
  }

  lemma {:induction false} BitStepInStep(e: Enc, c: Cell, b: bit, inp: seq<byte>, s: Src, lclp: nat)
    requires InStep(e, inp, s, lclp) && ValidCell(c, lclp)
    requires Within(EncOp(e, Bit(c, b)).iv, inp)
    ensures DecBit(inp, s, c).Got? && DecBit(inp, s, c).value == b
    ensures InStep(EncOp(e, Bit(c, b)), inp, DecBit(inp, s, c).src, lclp)
  {
    hide Bound, Adapt, Val, Get, Index, ValidCell, Cap;
    EncOpOk(e, Bit(c, b));
    LayoutAgrees(c, lclp);
    var n := Norm(inp, s).src;
    var p := Get(e.probs, c);
    assert n.probs[Index(c)] == p;
    BoundKeepsRange(e.iv.range, p);
    BitInStep(e.iv, Bound(e.iv.range, p), b, inp, n.(probs := n.probs[Index(c) := Adapt(p, b)]));
    SameTablesUpdate(e.probs, n.probs, lclp, c, Adapt(p, b));
  }

  lemma {:induction false} DirectInStep(iv: Interval, b: bit, inp: seq<byte>, n: Src)
    requires IntervalOk(iv) && Within(Normalized(NarrowDirect(iv, b)), inp)
    requires n.range == iv.range && n.pos == RC_INIT_SIZE + iv.shifts <= |inp|
    requires n.code == Val(inp[..n.pos]) - iv.low
    ensures if b == 0 then n.code < n.range / 2 else n.range / 2 <= n.code < n.range
    ensures var m := n.(range := n.range / 2, code := if b == 0 then n.code else n.code - n.range / 2);
            var j := Normalized(NarrowDirect(iv, b));
            && Norm(inp, m).Got?
            && var r := Norm(inp, m).src;
            && r.range == j.range && r.pos == RC_INIT_SIZE + j.shifts <= |inp|
            && r.code == Val(inp[..r.pos]) - j.low && r.probs == n.probs && r.learn == n.learn
  {
    var j := NarrowDirect(iv, b);
    WithinBeforeNormalized(j, inp);
    NormMirrors(j, inp, n.(range := n.range / 2, code := if b == 0 then n.code else n.code - n.range / 2));
  }

  lemma {:induction false} DirectStepInStep(e: Enc, b: bit, inp: seq<byte>, s: Src, lclp: nat)
    requires InStep(e, inp, s, lclp)
    requires Within(EncOp(e, Direct(b)).iv, inp)
    ensures DecDirect(inp, s).Got? && DecDirect(inp, s).value == b
    ensures InStep(EncOp(e, Direct(b)), inp, DecDirect(inp, s).src, lclp)
  {
    EncOpOk(e, Direct(b));
    var n := Norm(inp, s).src;
    DirectInStep(e.iv, b, inp, n);
    assert Halve(n.code, n.range / 2) == (b, if b == 0 then n.code else n.code - n.range / 2);
  }

  /** The range coder round trip: whatever was encoded from a state in step with the decoder,
      the decoder reads back bit by bit under the same cells. */
  lemma {:induction false} OpsRoundTrip(e: Enc, ops: seq<Op>, inp: seq<byte>, s: Src, lclp: nat)
    requires InStep(e, inp, s, lclp) && ValidOps(ops, lclp)
    requires Within(EncOps(e, ops).iv, inp)
    ensures Follow(inp, s, ops).Some?
    ensures InStep(EncOps(e, ops), inp, Follow(inp, s, ops).value, lclp)
    decreases |ops|
  {
    if ops != [] {
      EncOpOk(e, ops[0]);
      WithinBeforeOps(EncOp(e, ops[0]), ops[1..], inp);
      match ops[0] {
        case Bit(c, b) => BitStepInStep(e, c, b, inp, s, lclp);
        case Direct(b) => DirectStepInStep(e, b, inp, s, lclp);
      }
      OpsRoundTrip(EncOp(e, ops[0]), ops[1..], inp, DecOp(inp, s, ops[0]).src, lclp);
    }
  }

  /** The direct bits of value, most significant of the numBits low bits first. */
  function DirectOps(value: nat, numBits: nat): (ops: seq<Op>)
    ensures |ops| == numBits && forall i :: 0 <= i < numBits ==> ops[i].Direct?
    decreases numBits, value
  {
    if numBits == 0 then []
    else [Direct(BitAt(value, numBits - 1))] + DirectOps(value, numBits - 1)
  }

  // ----- start and end of a coded stream -----

  function InitCode(inp: seq<byte>): word
    requires |inp| >= RC_INIT_SIZE
  {
    0x100_0000 * (inp[1] as int) + 0x1_0000 * (inp[2] as int) + 0x100 * (inp[3] as int) + inp[4]
  }

  function InitSrc(inp: seq<byte>, probs: seq<Prob>): Src
    requires |inp| >= RC_INIT_SIZE
  {
    Src(FULL_RANGE, InitCode(inp), RC_INIT_SIZE, probs, true)
  }

  function InitProbs(lclp: nat): (d: seq<Prob>)
    ensures |d| == NumProbs(lclp) && forall i :: 0 <= i < |d| ==> d[i] == PROB_INIT
  {
    seq(NumProbs(lclp), i => PROB_INIT)
  }

  lemma {:induction false} Val5(inp: seq<byte>)
    requires |inp| >= RC_INIT_SIZE
    ensures Val(inp[..5]) == inp[0] * WORD + InitCode(inp)
  {
    assert inp[..0] == [];
    ValNext(inp, 0);
    ValNext(inp, 1);
    ValNext(inp, 2);
    ValNext(inp, 3);
    ValNext(inp, 4);
  }

  /** A byte string that is the low end of the final interval, written with five bytes more than
      there were shifts, starts with the 0 byte the decoder demands and puts the decoder in step. */
  lemma {:induction false} StartInStep(ops: seq<Op>, inp: seq<byte>, lclp: nat)
    requires |inp| == RC_INIT_SIZE + EncOps(ENC_START, ops).iv.shifts
    requires Val(inp) == EncOps(ENC_START, ops).iv.low
    ensures Within(EncOps(ENC_START, ops).iv, inp)
    ensures inp[0] == 0
    ensures InStep(ENC_START, inp, InitSrc(inp, InitProbs(lclp)), lclp)
  {
    EncOpsOk(ENC_START, ops);
    assert inp[..|inp|] == inp;
    WithinBeforeOps(ENC_START, ops, inp);
    Val5(inp);
    forall c | ValidCell(c, lclp)
      ensures 0 <= Index(c) < NumProbs(lclp)
    {
      LayoutAgrees(c, lclp);
    }
  }

  /** The round trip over a whole stream: every bit comes back, and at the end the code is 0,
      which is how the decoder recognizes an intact stream. */
  lemma {:induction false} StreamRoundTrip(ops: seq<Op>, inp: seq<byte>, lclp: nat)
    requires ValidOps(ops, lclp)
    requires |inp| == RC_INIT_SIZE + EncOps(ENC_START, ops).iv.shifts
    requires Val(inp) == EncOps(ENC_START, ops).iv.low
    ensures inp[0] == 0
    ensures var r := Follow(inp, InitSrc(inp, InitProbs(lclp)), ops);
            && r.Some?
            && var n := Norm(inp, r.value);
            && n.Got? && n.src.code == 0 && n.src.pos == |inp|
            && SameTables(EncOps(ENC_START, ops).probs, n.src.probs, lclp)
  {
    hide EncOps, Follow, SameTables, InitProbs, InitCode, IntervalOk;
    StartInStep(ops, inp, lclp);
    OpsRoundTrip(ENC_START, ops, inp, InitSrc(inp, InitProbs(lclp)), lclp);
    assert inp[..|inp|] == inp;
  }
}
