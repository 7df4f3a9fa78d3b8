/**
 * Decoding does not depend on how callers cut the input and the room for output into pieces, and
 * one call decodes a whole stream.
 */
module Slicing {
  import opened Bytes
  import opened Cells
  import opened RangeSpec
  import opened Packets
  import opened DecSpec
  import opened Stream
  import opened Locality
  import opened Decoder

  // ----- output only grows -----

  lemma {:induction false} ExpandPrefix(hist: seq<byte>, dist: nat, len: nat)
    requires dist < |hist|
    ensures hist <= Expand(hist, dist, len) && |Expand(hist, dist, len)| == |hist| + len
    decreases len
  {
    if len > 0 {
      var h := hist + [hist[|hist| - 1 - dist]];
      assert hist <= h;
      ExpandPrefix(h, dist, len - 1);
    }
  }

  lemma {:induction false} NextGrows(v: View, dicSize: nat, pk: Packet)
    requires ViewOk(v) && WellFormed(pk) && InWindow(v, dicSize, pk)
    ensures var w := NextView(v, dicSize, pk).hist; v.hist <= w && |v.hist| < |w|
  {
    hide Expand, DecNextState;
    if !pk.Literal? {
      ExpandPrefix(v.hist, DecNextReps(v.reps, pk)[0] - 1, PacketLen(pk));
    }
  }

  lemma {:induction false} StepGrows(inp: seq<byte>, pr: Props, dicSize: nat, d: Dec)
    requires ValidProps(pr) && ViewOk(d.view) && Step(inp, pr, dicSize, d).Next?
    ensures var w := Step(inp, pr, dicSize, d).d.view.hist; d.view.hist <= w && |d.view.hist| < |w|
    ensures d.src.pos <= |inp| ==> Step(inp, pr, dicSize, d).d.src.pos <= |inp|
  {
    hide DecPacket, Norm, NextView, InWindow, ViewOk, WellFormed;
    NextGrows(d.view, dicSize, DecPacket(inp, d.src, pr, d.view).value);
  }

  lemma {:induction false} StepsGrow(inp: seq<byte>, pr: Props, dicSize: nat, d: Dec, n: nat)
    requires ValidProps(pr) && ViewOk(d.view) && Steps(inp, pr, dicSize, d, n).Some?
    ensures var w := Steps(inp, pr, dicSize, d, n).value.view.hist; d.view.hist <= w && |d.view.hist| + n <= |w|
    ensures d.src.pos <= |inp| ==> Steps(inp, pr, dicSize, d, n).value.src.pos <= |inp|
    decreases n
  {
    hide Step, ViewOk;
    if n > 0 {
      StepGrows(inp, pr, dicSize, d);
      StepsGrow(inp, pr, dicSize, Step(inp, pr, dicSize, d).d, n - 1);
    }
  }

  // ----- slices of one stream -----

  /** n packets of inp lead to d. */
  ghost predicate Runs(inp: seq<byte>, pr: Props, dicSize: nat, n: nat, d: Dec)
    requires ValidProps(pr)
  {
    && |inp| >= RC_INIT_SIZE && ViewOk(DecStart(inp, pr).view)
    && Steps(inp, pr, dicSize, DecStart(inp, pr), n) == Some(d)
  }

  /** What was decoded stays when more input follows. */
  lemma {:induction false} RunsOn(a: seq<byte>, whole: seq<byte>, pr: Props, dicSize: nat, n: nat, d: Dec)
    requires ValidProps(pr) && Runs(a, pr, dicSize, n, d) && a <= whole
    ensures ViewOk(d.view) && d.src.pos <= |a| && Runs(whole, pr, dicSize, n, d)
  {
    hide Steps, DecStart, ViewOk, SamePrefix;
    StartFacts(a, pr);
    StepsGrow(a, pr, dicSize, DecStart(a, pr), n);
    PrefixSame(a, whole, d.src.pos);
    RunLocal(a, whole, pr, dicSize, n, d);
  }

  lemma {:induction false} Ordered(whole: seq<byte>, pr: Props, dicSize: nat, m: nat, d: Dec, n: nat, e: Dec)
    requires ValidProps(pr) && Runs(whole, pr, dicSize, m, d) && Runs(whole, pr, dicSize, n, e) && m <= n
    ensures ViewOk(d.view) && Steps(whole, pr, dicSize, d, n - m) == Some(e)
    ensures d.view.hist <= e.view.hist && |d.view.hist| + (n - m) <= |e.view.hist|
  {
    hide Steps, DecStart, ViewOk;
    StepsJoin(whole, pr, dicSize, DecStart(whole, pr), m, n - m);
    RunsOn(whole, whole, pr, dicSize, m, d);
    StepsGrow(whole, pr, dicSize, d, n - m);
  }

  /** Two runs over parts of the same stream, cut anywhere: one output continues the other. */
  lemma {:induction false} SlicesAgree(a: seq<byte>, b: seq<byte>, whole: seq<byte>, pr: Props, dicSize: nat,
                                       m: nat, d: Dec, n: nat, e: Dec, out1: seq<byte>, out2: seq<byte>)
    requires ValidProps(pr) && a <= whole && b <= whole
    requires Runs(a, pr, dicSize, m, d) && Runs(b, pr, dicSize, n, e)
    requires out1 <= d.view.hist && out2 <= e.view.hist
    ensures out1 <= out2 || out2 <= out1
  {
    hide Runs;
    RunsOn(a, whole, pr, dicSize, m, d);
    RunsOn(b, whole, pr, dicSize, n, e);
    if m <= n {
      Ordered(whole, pr, dicSize, m, d, n, e);
      PrefixesMeet(out1, out2, e.view.hist);
    } else {
      Ordered(whole, pr, dicSize, n, e, m, d);
      PrefixesMeet(out1, out2, d.view.hist);
    }
  }

  lemma {:induction false} PrefixesMeet(a: seq<byte>, b: seq<byte>, c: seq<byte>)
    requires a <= c && b <= c
    ensures a <= b || b <= a
  {
  }

  /** No run over the same bytes gets past a point from which no packet follows. */
  lemma {:induction false} Maximal(inp: seq<byte>, pr: Props, dicSize: nat, m: nat, d: Dec, n: nat, e: Dec)
    requires ValidProps(pr) && Runs(inp, pr, dicSize, m, d) && Runs(inp, pr, dicSize, n, e)
    requires ViewOk(d.view) && !Step(inp, pr, dicSize, d).Next?
    ensures n <= m && e.view.hist <= d.view.hist
  {
    hide Runs, Step, ViewOk;
    if n > m {
      Ordered(inp, pr, dicSize, m, d, n, e);
    } else {
      Ordered(inp, pr, dicSize, n, e, m, d);
    }
  }

  /** The state of a decoder between calls, in terms of its input alone. */
  lemma {:induction false} ValidRuns(p: LzmaDec)
    requires p.Valid() && !p.needFlush
    ensures ValidProps(p.pr) && p.fed[0] == 0 && Runs(p.fed, p.pr, p.dicSize, p.count, p.cur)
    ensures ViewOk(p.cur.view) && p.written <= p.cur.view.hist
    ensures p.remainLen == 0 || p.remainLen == MATCH_SPEC_LEN_START ==> p.written == p.cur.view.hist
    ensures p.remainLen == MATCH_SPEC_LEN_START ==> Step(p.fed, p.pr, p.dicSize, p.cur).EndMark?
  {
    hide Ring, Step, Steps, DecStart, NumProbs, ViewOk, InitCode, Expand, Outgrown, U32;
    if !p.needInitState && 0 < p.remainLen < MATCH_SPEC_LEN_START {
      ExpandPrefix(p.written, p.reps[0] - 1, p.remainLen);
    }
    if p.needInitState {
      StartFacts(p.fed, p.pr);
      StepsNone(p.fed, p.pr, p.dicSize, DecStart(p.fed, p.pr));
    }
  }

  /** However callers slice input and output, what they get is part of one and the same text. */
  lemma {:induction false} SlicingIndependent(p: LzmaDec, q: LzmaDec, whole: seq<byte>)
    requires p.Valid() && q.Valid() && p.pr == q.pr && p.dicSize == q.dicSize
    requires p.fed <= whole && q.fed <= whole
    ensures p.written <= q.written || q.written <= p.written
  {
    hide LzmaDec.Valid, Runs, Step, ViewOk;
    if p.needFlush || q.needFlush {
      NothingYet(p);
      NothingYet(q);
    } else {
      ValidRuns(p);
      ValidRuns(q);
      SlicesAgree(p.fed, q.fed, whole, p.pr, p.dicSize, p.count, p.cur, q.count, q.cur, p.written, q.written);
    }
  }

  lemma {:induction false} NothingYet(p: LzmaDec)
    requires p.Valid()
    ensures p.needFlush ==> p.written == []
  {
    hide Ring, Step, Steps, DecStart, NumProbs, ViewOk, InitCode, Expand, Outgrown, U32;
  }

  /** A decoder that has to wait for input, or has met the end marker. */
  ghost predicate Drained(p: LzmaDec)
    requires ValidProps(p.pr)
    reads p
  {
    && !p.needFlush && p.Begun()
    && (p.remainLen == MATCH_SPEC_LEN_START
        || (p.remainLen == 0 && Step(p.fed, p.pr, p.dicSize, p.cur).NeedInput?))
  }

  /** Once it is drained, the output is determined by the bytes taken over alone. */
  lemma {:induction false} DrainedSame(p: LzmaDec, q: LzmaDec)
    requires p.Valid() && q.Valid() && p.pr == q.pr && p.dicSize == q.dicSize && p.fed == q.fed && ValidProps(p.pr)
    requires Drained(p) && Drained(q)
    ensures p.written == q.written && p.count == q.count
  {
    hide LzmaDec.Valid, Runs, Step, ViewOk;
    ValidRuns(p);
    ValidRuns(q);
    Maximal(p.fed, p.pr, p.dicSize, p.count, p.cur, q.count, q.cur);
    Maximal(p.fed, p.pr, p.dicSize, q.count, q.cur, p.count, p.cur);
  }
}
