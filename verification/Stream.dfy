/** Whole streams: the decoder's packet-by-packet run and the codec round trip. */
module Stream {
  import opened Bytes
  import opened Cells
  import opened RangeSpec
  import opened Packets
  import opened DecSpec
  import opened PacketRoundTrip

  // ----- the decoder, one packet at a time -----

  /** The decoder between two packets: arithmetic state (normalized), context and all output. */
  datatype Dec = Dec(src: Src, view: View)

  datatype Outcome = NeedInput | BadData | EndMark(d: Dec) | Next(d: Dec)

  function DecNextState(state: nat, pk: Packet): (n: nat)
    requires state < NUM_STATES
    ensures n < NUM_STATES
  {
    match pk
    case Literal(_) =>
      if state < NUM_LIT_STATES then (if state < 4 then 0 else state - 3)
      else (if state < 10 then state - 3 else state - 6)
    case ShortRep => if state < NUM_LIT_STATES then 9 else 11
    case Rep(_, _) => if state < NUM_LIT_STATES then 8 else 11
    case Match(_, _) => if state < NUM_LIT_STATES then 7 else 10
  }

  function DecNextReps(reps: seq<nat>, pk: Packet): (r: seq<nat>)
    requires |reps| == 4
    ensures |r| == 4
  {
    match pk
    case Rep(idx, _) =>
      if idx == 0 then reps
      else if idx == 1 then [reps[1], reps[0], reps[2], reps[3]]
      else if idx == 2 then [reps[2], reps[0], reps[1], reps[3]]
      else [reps[3], reps[0], reps[1], reps[2]]
    case Match(_, dist) => [dist + 1, reps[0], reps[1], reps[2]]
    case _ => reps
  }

  /** Is the packet's copy source inside what the decoder still has? */
  predicate InWindow(v: View, dicSize: nat, pk: Packet) {
    match pk
    case Literal(_) => true
    case ShortRep => v.hist != []
    case Rep(_, _) => v.hist != []
    case Match(_, dist) => dist < |v.hist| && dist < dicSize
  }

  function PacketLen(pk: Packet): nat {
    match pk
    case Rep(_, len) => len
    case Match(len, _) => len
    case _ => 1
  }

  /** The output after a packet whose distance is rep0. */
  function NextHist(hist: seq<byte>, rep0: nat, pk: Packet): seq<byte>
    requires pk.Literal? || 1 <= rep0 <= |hist|
  {
    if pk.Literal? then hist + [pk.b] else Expand(hist, rep0 - 1, PacketLen(pk))
  }

  function NextView(v: View, dicSize: nat, pk: Packet): (n: View)
    requires ViewOk(v) && WellFormed(pk) && InWindow(v, dicSize, pk)
    ensures ViewOk(n)
  {
    var reps := DecNextReps(v.reps, pk);
    View(DecNextState(v.state, pk), reps, NextHist(v.hist, reps[0], pk))
  }

  /** One packet, its trailing normalization included. */
  function Step(inp: seq<byte>, pr: Props, dicSize: nat, d: Dec): (r: Outcome)
    requires ValidProps(pr) && ViewOk(d.view)
    ensures r.Next? ==> ViewOk(r.d.view)
    ensures r.EndMark? ==> r.d.view == d.view
    ensures r.Next? || r.EndMark? ==> r.d.src.range >= TOP
  {
    match DecPacket(inp, d.src, pr, d.view)
    case Short => NeedInput
    case Got(pk, s1) =>
      match Norm(inp, s1)
      case Short => NeedInput
      case Got(_, s2) =>
        if pk.Match? && pk.dist == END_DIST then EndMark(d.(src := s2))
        else if WellFormed(pk) && InWindow(d.view, dicSize, pk) then Next(Dec(s2, NextView(d.view, dicSize, pk)))
        else BadData
  }

  /** The decoder after n packets. */
  function Steps(inp: seq<byte>, pr: Props, dicSize: nat, d: Dec, n: nat): (r: Option<Dec>)
    requires ValidProps(pr) && ViewOk(d.view)
    ensures r.Some? ==> ViewOk(r.value.view)
    decreases n
  {
    if n == 0 then Some(d)
    else
      match Step(inp, pr, dicSize, d)
      case Next(d1) => Steps(inp, pr, dicSize, d1, n - 1)
      case _ => None
  }

  lemma {:induction false} StepsNone(inp: seq<byte>, pr: Props, dicSize: nat, d: Dec)
    requires ValidProps(pr) && ViewOk(d.view)
    ensures Steps(inp, pr, dicSize, d, 0) == Some(d)
  {
  }

  lemma {:induction false} StepsSnoc(inp: seq<byte>, pr: Props, dicSize: nat, d: Dec, n: nat)
    requires ValidProps(pr) && ViewOk(d.view)
    requires var r := Steps(inp, pr, dicSize, d, n); r.Some? && Step(inp, pr, dicSize, r.value).Next?
    ensures Steps(inp, pr, dicSize, d, n + 1) == Some(Step(inp, pr, dicSize, Steps(inp, pr, dicSize, d, n).value).d)
    decreases n
  {
    hide Step, ViewOk;
    if n == 0 {
      assert Steps(inp, pr, dicSize, Step(inp, pr, dicSize, d).d, 0) == Some(Step(inp, pr, dicSize, d).d);
    } else {
      StepsSnoc(inp, pr, dicSize, Step(inp, pr, dicSize, d).d, n - 1);
    }
  }

  lemma {:induction false} StepsJoin(inp: seq<byte>, pr: Props, dicSize: nat, d: Dec, m: nat, n: nat)
    requires ValidProps(pr) && ViewOk(d.view) && Steps(inp, pr, dicSize, d, m).Some?
    ensures Steps(inp, pr, dicSize, d, m + n) == Steps(inp, pr, dicSize, Steps(inp, pr, dicSize, d, m).value, n)
    decreases m
  {
    hide Step, ViewOk;
    if m > 0 {
      StepsJoin(inp, pr, dicSize, Step(inp, pr, dicSize, d).d, m - 1, n);
    }
  }

  /** Without the last of them, the first n packets behind d produce less than room bytes. */
  ghost predicate Outgrown(inp: seq<byte>, pr: Props, dicSize: nat, d: Dec, n: nat, room: int)
    requires ValidProps(pr) && ViewOk(d.view)
  {
    n > 0 ==> var r := Steps(inp, pr, dicSize, d, n - 1); r.Some? && |r.value.view.hist| < room
  }

  lemma {:induction false} OutgrownNone(inp: seq<byte>, pr: Props, dicSize: nat, d: Dec, room: int)
    requires ValidProps(pr) && ViewOk(d.view)
    ensures Outgrown(inp, pr, dicSize, d, 0, room)
  {
  }

  lemma {:induction false} OutgrownMore(inp: seq<byte>, pr: Props, dicSize: nat, d: Dec, n: nat, a: int, b: int)
    requires ValidProps(pr) && ViewOk(d.view) && a <= b && Outgrown(inp, pr, dicSize, d, n, a)
    ensures Outgrown(inp, pr, dicSize, d, n, b)
  {
    hide Steps, ViewOk;
  }

  lemma {:induction false} OutgrownSnoc(inp: seq<byte>, pr: Props, dicSize: nat, d: Dec, n: nat, room: int)
    requires ValidProps(pr) && ViewOk(d.view)
    requires var r := Steps(inp, pr, dicSize, d, n); r.Some? && |r.value.view.hist| < room
    ensures Outgrown(inp, pr, dicSize, d, n + 1, room)
  {
    hide Steps, ViewOk;
  }

  lemma {:induction false} OutgrownJoin(inp: seq<byte>, pr: Props, dicSize: nat, d: Dec, m: nat, n: nat, room: int)
    requires ValidProps(pr) && ViewOk(d.view) && Steps(inp, pr, dicSize, d, m).Some?
    requires Outgrown(inp, pr, dicSize, Steps(inp, pr, dicSize, d, m).value, n, room)
    requires n == 0 ==> Outgrown(inp, pr, dicSize, d, m, room)
    ensures Outgrown(inp, pr, dicSize, d, m + n, room)
  {
    hide Steps, ViewOk;
    if n > 0 {
      StepsJoin(inp, pr, dicSize, d, m, n - 1);
    }
  }

  /** A reason to reject inp when at most room bytes of output are wanted, found at d, behind n
      packets none of which was superfluous: a wrong first byte, a packet that reaches outside the
      output, an end marker with a code left over; or, if the stream has to end by then, output
      beyond room. */
  ghost predicate Refuses(inp: seq<byte>, pr: Props, dicSize: nat, room: int, finishEnd: bool, n: nat, d: Dec)
    requires ValidProps(pr)
  {
    && |inp| >= RC_INIT_SIZE
    && (inp[0] != 0
        || (&& ViewOk(d.view) && Steps(inp, pr, dicSize, DecStart(inp, pr), n) == Some(d)
            && Outgrown(inp, pr, dicSize, DecStart(inp, pr), n, room)
            && Objects(Step(inp, pr, dicSize, d), d, room, finishEnd)))
  }

  /** May the packet behind d be looked at? Only while there is room; or, to find an end marker
      when the room is used up, if the code does not say that the stream may end here. */
  ghost predicate MayLook(d: Dec, room: int, finishEnd: bool) {
    |d.view.hist| < room || (finishEnd && |d.view.hist| == room && d.src.code != 0)
  }

  ghost predicate Objects(o: Outcome, d: Dec, room: int, finishEnd: bool) {
    || (MayLook(d, room, finishEnd) && (o.BadData? || (o.EndMark? && o.d.src.code != 0)))
    || (finishEnd && |d.view.hist| > room)
    || (finishEnd && |d.view.hist| == room && d.src.code != 0 && o.Next?)
  }

  /** What is refused although it need not end yet is refused whatever else is asked for. */
  lemma {:induction false} RefusesMore(inp: seq<byte>, pr: Props, dicSize: nat, a: int, b: int, finishEnd: bool, n: nat, d: Dec)
    requires ValidProps(pr) && a <= b && Refuses(inp, pr, dicSize, a, false, n, d)
    ensures Refuses(inp, pr, dicSize, b, finishEnd, n, d)
  {
    hide Step, Steps, InitProbs, InitCode, Outgrown;
    if inp[0] == 0 {
      OutgrownMore(inp, pr, dicSize, DecStart(inp, pr), n, a, b);
    }
  }

  const VIEW_START := View(0, [1, 1, 1, 1], [])

  function DecStart(inp: seq<byte>, pr: Props): Dec
    requires |inp| >= RC_INIT_SIZE
  {
    Dec(InitSrc(inp, InitProbs(pr.lc + pr.lp)), VIEW_START)
  }

  // ----- the encoder's packets -----

  ghost predicate AllAdmissible(c: Ctx, dicSize: nat, pks: seq<Packet>)
    requires CtxOk(c)
    decreases |pks|
  {
    pks == [] || (Admissible(c, dicSize, pks[0]) && AllAdmissible(NextCtx(c, dicSize, pks[0]), dicSize, pks[1..]))
  }

  function RunCtx(c: Ctx, dicSize: nat, pks: seq<Packet>): (r: Ctx)
    requires CtxOk(c) && AllAdmissible(c, dicSize, pks)
    ensures CtxOk(r)
    decreases |pks|
  {
    if pks == [] then c else RunCtx(NextCtx(c, dicSize, pks[0]), dicSize, pks[1..])
  }

  function PacketsOps(pr: Props, c: Ctx, dicSize: nat, pks: seq<Packet>): seq<Op>
    requires ValidProps(pr) && CtxOk(c) && AllAdmissible(c, dicSize, pks)
    decreases |pks|
  {
    if pks == [] then []
    else PacketOps(pr, c, pks[0]) + PacketsOps(pr, NextCtx(c, dicSize, pks[0]), dicSize, pks[1..])
  }

  /** All packets, then the end marker if asked for. */
  function StreamOps(pr: Props, dicSize: nat, pks: seq<Packet>, mark: bool): seq<Op>
    requires ValidProps(pr) && AllAdmissible(CTX_START, dicSize, pks)
  {
    PacketsOps(pr, CTX_START, dicSize, pks)
    + if mark then PacketOps(pr, RunCtx(CTX_START, dicSize, pks), END_MARK) else []
  }

  lemma {:induction false} AllAdmissibleSnoc(c: Ctx, dicSize: nat, pks: seq<Packet>, pk: Packet)
    requires CtxOk(c) && AllAdmissible(c, dicSize, pks)
    requires Admissible(RunCtx(c, dicSize, pks), dicSize, pk)
    ensures AllAdmissible(c, dicSize, pks + [pk])
    ensures RunCtx(c, dicSize, pks + [pk]) == NextCtx(RunCtx(c, dicSize, pks), dicSize, pk)
    decreases |pks|
  {
    hide NextCtx, Admissible;
    var all := pks + [pk];
    if pks == [] {
      assert all[0] == pk && all[1..] == [];
    } else {
      assert all[0] == pks[0] && all[1..] == pks[1..] + [pk];
      AllAdmissibleSnoc(NextCtx(c, dicSize, pks[0]), dicSize, pks[1..], pk);
    }
  }

  lemma {:induction false} PacketsOpsSnoc(pr: Props, c: Ctx, dicSize: nat, pks: seq<Packet>, pk: Packet)
    requires ValidProps(pr) && CtxOk(c) && AllAdmissible(c, dicSize, pks)
    requires Admissible(RunCtx(c, dicSize, pks), dicSize, pk)
    ensures AllAdmissible(c, dicSize, pks + [pk])
    ensures PacketsOps(pr, c, dicSize, pks + [pk])
            == PacketsOps(pr, c, dicSize, pks) + PacketOps(pr, RunCtx(c, dicSize, pks), pk)
    decreases |pks|
  {
    hide NextCtx, Admissible, PacketOps;
    AllAdmissibleSnoc(c, dicSize, pks, pk);
    var all := pks + [pk];
    if pks == [] {
      assert all[0] == pk && all[1..] == [];
      assert PacketsOps(pr, NextCtx(c, dicSize, pk), dicSize, all[1..]) == [];
    } else {
      assert all[0] == pks[0] && all[1..] == pks[1..] + [pk];
      PacketsOpsSnoc(pr, NextCtx(c, dicSize, pks[0]), dicSize, pks[1..], pk);
    }
  }

  // ----- the two sides agree -----

  /** The encoder's tables and the decoder's case distinctions give the same next state. */
  lemma {:induction false} SameNextState(state: nat, pk: Packet)
    requires state < NUM_STATES
    ensures DecNextState(state, pk) == NextState(state, pk)
  {
  }

  lemma {:induction false} SameNextReps(c: Ctx, pk: Packet)
    requires CtxOk(c) && WellFormed(pk)
    ensures forall i :: 0 <= i < 4 ==> DecNextReps(ViewOf(c).reps, pk)[i] == NextReps(c.reps, pk)[i] + 1
  {
  }

  lemma {:induction false} RepInHist(c: Ctx, dicSize: nat, pk: Packet)
    requires CtxOk(c) && Admissible(c, dicSize, pk) && !pk.Literal?
    ensures NextReps(c.reps, pk)[0] < |c.hist|
    ensures NextReps(c.reps, pk)[0] == CopyOf(c.reps, pk).0
  {
  }

  /** Both sides reorder the recent distances alike; the decoder's are larger by 1. */
  lemma {:induction false} SameNextView(c: Ctx, dicSize: nat, pk: Packet)
    requires CtxOk(c) && Admissible(c, dicSize, pk)
    ensures InWindow(ViewOf(c), dicSize, pk)
    ensures NextView(ViewOf(c), dicSize, pk) == ViewOf(NextCtx(c, dicSize, pk))
  {
    hide Expand, DecNextState, NextState, DecNextReps, NextReps;
    SameNextState(c.state, pk);
    SameNextReps(c, pk);
    if !pk.Literal? {
      RepInHist(c, dicSize, pk);
    }
    assert NextView(ViewOf(c), dicSize, pk).reps == ViewOf(NextCtx(c, dicSize, pk)).reps;
  }

  lemma {:induction false} StepMirrors(inp: seq<byte>, pr: Props, dicSize: nat, s: Src, c: Ctx, pk: Packet)
    requires ValidProps(pr) && CtxOk(c) && Admissible(c, dicSize, pk)
    requires Follow(inp, s, PacketOps(pr, c, pk)).Some?
    requires Norm(inp, Follow(inp, s, PacketOps(pr, c, pk)).value).Got?
    ensures Step(inp, pr, dicSize, Dec(s, ViewOf(c)))
            == Next(Dec(Norm(inp, Follow(inp, s, PacketOps(pr, c, pk)).value).src, ViewOf(NextCtx(c, dicSize, pk))))
  {
    hide Follow, PacketOps, DecPacket, NextView, NextCtx, InWindow, ViewOf, Norm, ViewOk;
    PacketFollow(inp, s, pr, c, pk);
    SameNextView(c, dicSize, pk);
  }

  /** Normalizing early changes nothing that is read later. */
  lemma {:induction false} FollowNorm(inp: seq<byte>, s: Src, ops: seq<Op>)
    requires ops != [] && Follow(inp, s, ops).Some?
    ensures Norm(inp, s).Got?
    ensures Follow(inp, Norm(inp, s).src, ops) == Follow(inp, s, ops)
  {
    hide Adapt, Bound, Index, Halve;
    assert Norm(inp, s).Got?;
    var n := Norm(inp, s).src;
    assert Norm(inp, n) == Got((), n);
    assert DecOp(inp, n, ops[0]) == DecOp(inp, s, ops[0]);
  }

  lemma {:induction false} PacketOpsNonEmpty(pr: Props, c: Ctx, pk: Packet)
    requires ValidProps(pr) && CtxOk(c) && WellFormed(pk)
    ensures PacketOps(pr, c, pk) != []
  {
    hide LiteralOps, LenOps, DistOps, RepOps;
  }

  /** A run over any list of packets, up to what follows in the stream. */
  lemma {:induction false} StepsMirror(inp: seq<byte>, pr: Props, dicSize: nat, s: Src, c: Ctx, pks: seq<Packet>, rest: seq<Op>)
    requires ValidProps(pr) && CtxOk(c) && AllAdmissible(c, dicSize, pks)
    requires Norm(inp, s) == Got((), s)
    requires var f := Follow(inp, s, PacketsOps(pr, c, dicSize, pks) + rest); f.Some? && Norm(inp, f.value).Got?
    ensures Steps(inp, pr, dicSize, Dec(s, ViewOf(c)), |pks|).Some?
    ensures var d := Steps(inp, pr, dicSize, Dec(s, ViewOf(c)), |pks|).value;
            && d.view == ViewOf(RunCtx(c, dicSize, pks))
            && Norm(inp, d.src) == Got((), d.src)
            && (rest == [] ==> d.src == Norm(inp, Follow(inp, s, PacketsOps(pr, c, dicSize, pks) + rest).value).src)
            && (rest != [] ==> Follow(inp, d.src, rest) == Follow(inp, s, PacketsOps(pr, c, dicSize, pks) + rest))
    decreases |pks|
  {
    hide Norm, PacketOps, NextCtx, WellFormed, ViewOf, Step, DecOp;
    if pks == [] {
      assert PacketsOps(pr, c, dicSize, pks) + rest == rest;
    } else {
      var ops := PacketOps(pr, c, pks[0]);
      var c1 := NextCtx(c, dicSize, pks[0]);
      var more := PacketsOps(pr, c1, dicSize, pks[1..]) + rest;
      assert PacketsOps(pr, c, dicSize, pks) + rest == ops + more;
      FollowConcat(inp, s, ops, more);
      var s1 := Follow(inp, s, ops).value;
      NormAgain(inp, s1, more);
      StepMirrors(inp, pr, dicSize, s, c, pks[0]);
      StepsMirror(inp, pr, dicSize, Norm(inp, s1).src, c1, pks[1..], rest);
    }
  }

  /** After a packet the decoder can normalize at once, whether or not bits follow. */
  lemma {:induction false} NormAgain(inp: seq<byte>, s: Src, ops: seq<Op>)
    requires var f := Follow(inp, s, ops); f.Some? && Norm(inp, f.value).Got?
    ensures Norm(inp, s).Got?
    ensures var n := Norm(inp, s).src;
            && Norm(inp, n) == Got((), n)
            && var g := Follow(inp, n, ops);
            && g.Some?
            && Norm(inp, g.value) == Norm(inp, Follow(inp, s, ops).value)
            && (ops != [] ==> g == Follow(inp, s, ops))
  {
    hide DecOp;
    if ops != [] {
      FollowNorm(inp, s, ops);
    }
  }

  lemma {:induction false} PacketsOpsValid(pr: Props, c: Ctx, dicSize: nat, pks: seq<Packet>)
    requires ValidProps(pr) && CtxOk(c) && AllAdmissible(c, dicSize, pks)
    ensures ValidOps(PacketsOps(pr, c, dicSize, pks), pr.lc + pr.lp)
    decreases |pks|
  {
    hide PacketOps, NextCtx, WellFormed;
    if pks != [] {
      PacketOpsValid(pr, c, pks[0]);
      PacketsOpsValid(pr, NextCtx(c, dicSize, pks[0]), dicSize, pks[1..]);
    }
  }

  lemma {:induction false} StreamOpsValid(pr: Props, dicSize: nat, pks: seq<Packet>, mark: bool)
    requires ValidProps(pr) && AllAdmissible(CTX_START, dicSize, pks)
    ensures ValidOps(StreamOps(pr, dicSize, pks, mark), pr.lc + pr.lp)
  {
    hide PacketOps, PacketsOps, RunCtx;
    PacketsOpsValid(pr, CTX_START, dicSize, pks);
    if mark {
      PacketOpsValid(pr, RunCtx(CTX_START, dicSize, pks), END_MARK);
    }
  }

  lemma {:induction false} MarkStep(inp: seq<byte>, pr: Props, dicSize: nat, s: Src, c: Ctx)
    requires ValidProps(pr) && CtxOk(c)
    requires Follow(inp, s, PacketOps(pr, c, END_MARK)).Some?
    requires Norm(inp, Follow(inp, s, PacketOps(pr, c, END_MARK)).value).Got?
    ensures Step(inp, pr, dicSize, Dec(s, ViewOf(c)))
            == EndMark(Dec(Norm(inp, Follow(inp, s, PacketOps(pr, c, END_MARK)).value).src, ViewOf(c)))
  {
    hide Follow, PacketOps, DecPacket, NextView, ViewOf, Norm, ViewOk;
    PacketFollow(inp, s, pr, c, END_MARK);
  }

  /** Is out the finished output of the range encoder for these coding steps? RangeEnc.FlushData
      produces exactly such strings. */
  ghost predicate Encodes(ops: seq<Op>, out: seq<byte>) {
    var iv := EncOps(ENC_START, ops).iv;
    |out| == RC_INIT_SIZE + iv.shifts && Val(out) == iv.low
  }

  /** The decoder accepts out, and n packets of it give exactly text; then the stream is over,
      every byte has been read and the code is 0. */
  ghost predicate Reproduces(pr: Props, dicSize: nat, out: seq<byte>, n: nat, mark: bool, text: seq<byte>)
    requires ValidProps(pr)
  {
    && |out| >= RC_INIT_SIZE && out[0] == 0
    && var r := Steps(out, pr, dicSize, DecStart(out, pr), n);
    && r.Some?
    && r.value.view.hist == text
    && (!mark ==> r.value.src.code == 0 && r.value.src.pos == |out|)
    && (mark ==>
          var e := Step(out, pr, dicSize, r.value);
          e.EndMark? && e.d.src.code == 0 && e.d.src.pos == |out|)
  }

  /**
   * The codec round trip. For any properties and any admissible list of packets, with or without
   * an end marker, the decoder accepts the encoder's bytes, reproduces the packets one by one and
   * with them the whole text, reads every byte, and ends with code 0.
   */
  lemma {:induction false} CodecRoundTrip(pr: Props, dicSize: nat, pks: seq<Packet>, mark: bool, out: seq<byte>)
    requires ValidProps(pr) && AllAdmissible(CTX_START, dicSize, pks)
    requires Encodes(StreamOps(pr, dicSize, pks, mark), out)
    ensures Reproduces(pr, dicSize, out, |pks|, mark, RunCtx(CTX_START, dicSize, pks).hist)
  {
    hide EncOps, Follow, PacketsOps, PacketOps, Steps, Step, RunCtx, ViewOf, Norm, SameTables, InitCode, InitProbs, NextCtx;
    hide AllAdmissible, ValidOps;
    StreamOpsValid(pr, dicSize, pks, mark);
    StreamRoundTrip(StreamOps(pr, dicSize, pks, mark), out, pr.lc + pr.lp);
    var d := DecStart(out, pr);
    StartViewOf();
    StartNormal(out, pr);
    var rest := if mark then PacketOps(pr, RunCtx(CTX_START, dicSize, pks), END_MARK) else [];
    assert StreamOps(pr, dicSize, pks, mark) == PacketsOps(pr, CTX_START, dicSize, pks) + rest;
    StepsMirror(out, pr, dicSize, d.src, CTX_START, pks, rest);
    ViewFields(RunCtx(CTX_START, dicSize, pks));
    if mark {
      PacketOpsNonEmpty(pr, RunCtx(CTX_START, dicSize, pks), END_MARK);
      MarkStep(out, pr, dicSize, Steps(out, pr, dicSize, d, |pks|).value.src, RunCtx(CTX_START, dicSize, pks));
    }
  }

  lemma {:induction false} StartNormal(inp: seq<byte>, pr: Props)
    requires |inp| >= RC_INIT_SIZE
    ensures Norm(inp, DecStart(inp, pr).src) == Got((), DecStart(inp, pr).src)
  {
  }

  lemma {:induction false} StartViewOf()
    ensures ViewOf(CTX_START) == VIEW_START
  {
  }
}
