/** CRangeEnc: the byte-wise range encoder with a cached byte and a pending run of 0xFF bytes. */
module RangeEncoder {
  import opened Bytes
  import opened Cells
  import opened RangeSpec

  /** Splitting a word with a possible carry into the byte that leaves and the rest. */
  lemma {:induction false} ShiftedWord(low: nat, v: nat)
    requires low < 2 * WORD
    ensures low % WORD * 256 % WORD == low % TOP * 256
    ensures (256 * (v + low / WORD) + low % WORD / TOP) * WORD + low % TOP * 256 == 256 * (v * WORD + low)
  {
    var w := low % WORD;
    assert w % TOP == low % TOP && w == w / TOP * TOP + w % TOP;
    DivUnique(w * 256, WORD, w / TOP, w % TOP * 256);
  }

  /** Why a carry can never meet a cached 0xFF: the interval that would need it does not fit. */
  lemma {:induction false} RoomAfterShift(low: nat, width: nat)
    requires low + width <= 2 * WORD && width >= 1
    ensures low % WORD / TOP < 256
    ensures low % WORD / TOP == 0xFF ==>
              low % WORD >= 0xFF00_0000 && low % TOP + width == low - low / WORD * WORD - 0xFF00_0000 + width
    ensures low >= WORD && low % WORD / TOP == 0xFF ==> 256 * (low % TOP + width) <= WORD
    ensures 0xFF00_0000 <= low < WORD && low + width <= WORD ==> 256 * (low % TOP + width) <= WORD
  {
    var w := low % WORD;
    assert w % TOP == low % TOP && w == w / TOP * TOP + w % TOP;
  }

  function Scaled(x: nat, i: nat): nat {
    if i == 0 then x else 256 * Scaled(x, i - 1)
  }

  /** low is a multiple of 256^k: each shift raises k, and four shifts empty the word. */
  ghost predicate Tail(low: nat, k: nat) {
    && (k == 1 ==> low % 0x100 == 0)
    && (k == 2 ==> low % 0x1_0000 == 0)
    && (k == 3 ==> low % TOP == 0)
    && (k >= 4 ==> low == 0)
  }

  lemma {:induction false} PushedOut(low: nat, k: nat)
    requires Tail(low, k)
    ensures Tail(low % TOP * 256, k + 1)
  {
    if k == 0 {
      DivUnique(low % TOP * 256, 0x100, low % TOP, 0);
    } else if k == 1 {
      var a := low / 0x100;
      DivUnique(low, TOP, a / 0x1_0000, 0x100 * (a % 0x1_0000));
      DivUnique(low % TOP * 256, 0x1_0000, a % 0x1_0000, 0);
    } else if k == 2 {
      var a := low / 0x1_0000;
      DivUnique(low, TOP, a / 0x100, 0x1_0000 * (a % 0x100));
      DivUnique(low % TOP * 256, TOP, a % 0x100, 0);
    }
  }

  lemma {:induction false} DirectOpsStep(e: Enc, value: nat, n: nat)
    ensures EncOps(e, DirectOps(value, n + 1)) ==
            EncOps(EncOp(e, Direct(BitAt(value, n))), DirectOps(value, n))
  {
    assert DirectOps(value, n + 1)[1..] == DirectOps(value, n);
  }

  class RangeEnc {
    var low: nat
    var range: word
    var cache: byte
    var cacheSize: nat
    /** Every byte handed to the output stream so far. */
    var out: seq<byte>

    /** Bytes decided up to one possible carry but not yet written. */
    ghost function Pending(): seq<byte>
      reads this
      requires cacheSize >= 1
    {
      [cache] + Repeat(0xFF, cacheSize - 1)
    }

    /** The exact low end of the interval: written bytes, cache, 0xFF run and low together. */
    ghost function ExactLow(): nat
      reads this
      requires cacheSize >= 1
    {
      Val(out + Pending()) * WORD + low
    }

    /** A carry out of low can still be absorbed by the cached byte. */
    ghost predicate CarryRoom(width: nat)
      reads this
    {
      && cacheSize >= 1
      && low + width <= 2 * WORD
      && (cache == 0xFF ==> low + width <= WORD)
    }

    ghost function Iv(): Interval
      reads this
      requires cacheSize >= 1
    {
      Interval(ExactLow(), range, |out| + cacheSize - 1)
    }

    ghost predicate Valid()
      reads this
    {
      CarryRoom(range) && IntervalOk(Iv())
    }

    constructor ()
      ensures Valid() && Iv() == ENC_START.iv && out == []
    {
      low := 0;
      range := FULL_RANGE;
      cacheSize := 1;
      cache := 0;
      out := [];
      new;
      assert out + Pending() == [0];
      assert Val([0]) == 0 by { assert [0][..0] == []; }
    }

    /** Writes the cached byte and the pending run, both with the carry added. */
    method WritePending(carry: bit)
      requires cacheSize >= 1 && (carry == 1 ==> cache < 0xFF)
      modifies this`cacheSize, this`out
      ensures cacheSize == 0 && old(out) <= out
      ensures Val(out) == Val(old(out + Pending())) + carry
      ensures |out| == old(|out| + cacheSize)
    {
      hide Val;
      ghost var out0, n := out, cacheSize - 1;
      ghost var fill: byte := if carry == 1 then 0 else 0xFF;
      out := out + [cache + carry];
      cacheSize := cacheSize - 1;
      while cacheSize != 0
        invariant 0 <= cacheSize <= n
        invariant out == out0 + [cache + carry] + Repeat(fill, n - cacheSize)
      {
        RepeatSnoc(fill, n - cacheSize);
        out := out + [(0xFF + carry as int) % 256];
        cacheSize := cacheSize - 1;
      }
      assert out0 + ([cache] + Repeat(0xFF, n)) == out0 + [cache] + Repeat(0xFF, n);
      if carry == 1 {
        CarryRun(out0, cache, n);
      }
    }

    /** Moves the top byte of low out. Bytes already written are never touched again, and the
        exact low end is multiplied by 256. */
    method ShiftLow(ghost width: nat)
      requires CarryRoom(width) && width >= 1
      modifies this`low, this`cache, this`cacheSize, this`out
      ensures cacheSize >= 1 && (cache == 0xFF ==> low + 256 * width <= WORD)
      ensures low == old(low) % TOP * 256
      ensures ExactLow() == 256 * old(ExactLow())
      ensures |out| + cacheSize == old(|out| + cacheSize) + 1
      ensures old(out) <= out
      ensures old(low) == 0 ==> cache == 0 && cacheSize == 1
    {
      ghost var v := Val(out + Pending());
      RoomAfterShift(low, width);
      if low % WORD < 0xFF00_0000 || low / WORD != 0 {
        WritePending(low / WORD);
        cache := low % WORD / TOP;
        ValSnoc(out, cache);
        assert out + ([cache] + Repeat(0xFF, 0)) == out + [cache];
      } else {
        RepeatSnoc(0xFF, cacheSize - 1);
        assert out + ([cache] + Repeat(0xFF, cacheSize)) == out + Pending() + [0xFF];
        ValSnoc(out + Pending(), 0xFF);
      }
      cacheSize := cacheSize + 1;
      ShiftedWord(low, v);
      low := low % WORD * 256 % WORD;
    }

    /** Codes one adaptive bit and returns the adapted probability. */
    method EncodeBit(prob: Prob, symbol: bit) returns (newProb: Prob)
      requires Valid()
      modifies this
      ensures Valid() && newProb == Adapt(prob, symbol)
      ensures Iv() == Normalized(Narrow(old(Iv()), Bound(old(range), prob), symbol))
      ensures old(out) <= out
    {
      var newBound := Bound(range, prob);
      BoundKeepsRange(range, prob);
      if symbol == 0 {
        range := newBound;
        newProb := prob + (2048 - prob) / 32;
      } else {
        low := low + newBound;
        range := range - newBound;
        newProb := prob - prob / 32;
      }
      NormalizeRange();
    }

    /** The common tail of the two coding methods. */
    method NormalizeRange()
      requires CarryRoom(range) && 0 < range && TOP <= 256 * range
      requires Iv().low + range <= WORD * Cap(Iv().shifts)
      modifies this
      ensures Valid() && Iv() == Normalized(old(Iv()))
      ensures old(out) <= out
    {
      if range < TOP {
        ghost var r := range;
        range := range * 256;
        ShiftLow(r);
      }
    }

    method EncodeHalf(b: bit)
      requires Valid()
      modifies this
      ensures Valid() && old(out) <= out
      ensures Iv() == Normalized(NarrowDirect(old(Iv()), b))
    {
      range := range / 2;
      low := low + if b == 1 then range else 0;
      assert Iv() == NarrowDirect(old(Iv()), b);
      NormalizeRange();
    }

    /** One adaptive or direct bit; the probabilities adapt. */
    method EncodeOp(op: Op, probs: map<Cell, Prob>) returns (next: map<Cell, Prob>)
      requires Valid()
      modifies this
      ensures Valid() && Enc(Iv(), next) == EncOp(Enc(old(Iv()), probs), op)
    {
      hide Narrow, NarrowDirect, Normalized, Adapt, Bound, CarryRoom;
      match op {
        case Bit(c, b) =>
          var p := EncodeBit(Get(probs, c), b);
          next := probs[c := p];
        case Direct(b) =>
          EncodeHalf(b);
          next := probs;
      }
    }


    method EncodeDirectBits(value: nat, numBits: nat, ghost m: map<Cell, Prob>)
      requires Valid() && numBits > 0
      modifies this
      ensures Valid() && old(out) <= out
      ensures Enc(Iv(), m) == EncOps(Enc(old(Iv()), m), DirectOps(value, numBits))
    {
      var n := numBits;
      ghost var goal := EncOps(Enc(Iv(), m), DirectOps(value, numBits));
      while n != 0
        invariant 0 <= n <= numBits
        invariant Valid() && old(out) <= out
        invariant EncOps(Enc(Iv(), m), DirectOps(value, n)) == goal
      {
        ghost var iv := Iv();
        n := n - 1;
        EncodeHalf(BitAt(value, n));
        DirectOpsStep(Enc(iv, m), value, n);
      }
    }

    /** Writes the rest of the interval's low end: the whole output then denotes exactly it. */
    method FlushData()
      requires Valid()
      modifies this
      ensures Val(out) == old(ExactLow()) && |out| == old(Iv()).shifts + RC_INIT_SIZE
      ensures old(out) <= out
    {
      ghost var start := ExactLow();
      var i := 0;
      while i < 5
        invariant 0 <= i <= 5
        invariant CarryRoom(1) && old(out) <= out
        invariant ExactLow() == Scaled(start, i)
        invariant |out| + cacheSize == old(|out| + cacheSize) + i
        invariant Tail(low, i)
        invariant i == 5 ==> cache == 0 && cacheSize == 1
      {
        PushedOut(low, i);
        ShiftLow(1);
        i := i + 1;
      }
      assert Scaled(start, 5) == 256 * Scaled(start, 4);
      assert Scaled(start, 1) == 256 * start;
      assert Scaled(start, 3) == 256 * Scaled(start, 2);
      assert out + Pending() == out + [0];
      ValSnoc(out, 0);
    }
  }

  lemma {:induction false} EncOpsPrefix(e: Enc, ops: seq<Op>, i: nat)
    requires i < |ops|
    ensures EncOps(e, ops[..i + 1]) == EncOp(EncOps(e, ops[..i]), ops[i])
  {
    hide EncOp;
    assert ops[..i + 1] == ops[..i] + [ops[i]];
    EncOpsConcat(e, ops[..i], [ops[i]]);
    assert [ops[i]][1..] == [];
  }

  /** The round trip of the range coder alone: any sequence of adaptive and direct bits, encoded from
      the start and flushed, is read back bit for bit, to the last byte, with the same probabilities. */
  method EncodeAll(ops: seq<Op>, lclp: nat) returns (bytes: seq<byte>)
    requires ValidOps(ops, lclp)
    ensures |bytes| >= RC_INIT_SIZE && bytes[0] == 0
    ensures var r := Follow(bytes, InitSrc(bytes, InitProbs(lclp)), ops);
            && r.Some?
            && var n := Norm(bytes, r.value);
            && n.Got? && n.src.code == 0 && n.src.pos == |bytes|
            && SameTables(EncOps(ENC_START, ops).probs, n.src.probs, lclp)
  {
    hide EncOps, EncOp, Follow, SameTables, InitProbs, Norm, ValidOps, InitCode;
    var rc := new RangeEnc();
    var probs: map<Cell, Prob> := map[];
    var i := 0;
    StartOps(ops);
    while i < |ops|
      invariant 0 <= i <= |ops| && rc.Valid()
      invariant Enc(rc.Iv(), probs) == EncOps(ENC_START, ops[..i])
    {
      EncOpsPrefix(ENC_START, ops, i);
      probs := rc.EncodeOp(ops[i], probs);
      i := i + 1;
    }
    assert ops[..i] == ops;
    rc.FlushData();
    bytes := rc.out;
    StreamRoundTrip(ops, bytes, lclp);
  }

  lemma {:induction false} StartOps(ops: seq<Op>)
    ensures EncOps(ENC_START, ops[..0]) == ENC_START
  {
  }
}
