/**
 * What LZMA encodes: packets, the context they are coded in, and the script of coding steps
 * that the encoder performs for each packet.
 */
module Packets {
  import opened Bytes
  import opened Cells
  import opened RangeSpec
  import opened Slots

  const LEN_MIN := 2
  const LEN_MAX := 273
  const NUM_LIT_STATES := 7

  datatype Props = Props(lc: nat, lp: nat, pb: nat)

  predicate ValidProps(pr: Props) {
    pr.lc <= 8 && pr.lp <= 4 && pr.pb <= 4
  }

  /** A literal, one byte at distance rep0, a run at a recent distance, a run at a new distance. */
  datatype Packet = Literal(b: byte) | ShortRep | Rep(idx: nat, len: nat) | Match(len: nat, dist: nat)

  predicate WellFormed(pk: Packet) {
    match pk
    case Literal(_) => true
    case ShortRep => true
    case Rep(idx, len) => idx < 4 && LEN_MIN <= len <= LEN_MAX
    case Match(len, dist) => LEN_MIN <= len <= LEN_MAX && dist < WORD
  }

  /** The end marker is coded as a match at the distance that no dictionary can have. */
  const END_DIST := 0xFFFF_FFFF
  const END_MARK := Match(LEN_MIN, END_DIST)

  /** The encoder's context: distances in reps are stored minus 1. */
  datatype Ctx = Ctx(state: nat, reps: seq<nat>, hist: seq<byte>)

  const CTX_START := Ctx(0, [0, 0, 0, 0], [])

  ghost predicate CtxOk(c: Ctx) {
    && c.state < NUM_STATES && |c.reps| == 4
    && (c.state >= NUM_LIT_STATES ==> c.hist != [])
    && forall i :: 0 <= i < 4 ==> c.reps[i] == 0 || c.reps[i] < |c.hist|
  }

  // ----- state transitions, as tables -----

  const LITERAL_NEXT: seq<nat> := [0, 0, 0, 0, 1, 2, 3, 4, 5, 6, 4, 5]
  const MATCH_NEXT: seq<nat> := [7, 7, 7, 7, 7, 7, 7, 10, 10, 10, 10, 10]
  const REP_NEXT: seq<nat> := [8, 8, 8, 8, 8, 8, 8, 11, 11, 11, 11, 11]
  const SHORT_REP_NEXT: seq<nat> := [9, 9, 9, 9, 9, 9, 9, 11, 11, 11, 11, 11]

  function NextState(state: nat, pk: Packet): (n: nat)
    requires state < NUM_STATES
    ensures n < NUM_STATES
  {
    match pk
    case Literal(_) => LITERAL_NEXT[state]
    case ShortRep => SHORT_REP_NEXT[state]
    case Rep(_, _) => REP_NEXT[state]
    case Match(_, _) => MATCH_NEXT[state]
  }

  function MoveToFront(reps: seq<nat>, idx: nat): seq<nat>
    requires |reps| == 4 && idx < 4
  {
    [reps[idx]] + reps[..idx] + reps[idx + 1..]
  }

  function NextReps(reps: seq<nat>, pk: Packet): (r: seq<nat>)
    requires |reps| == 4 && WellFormed(pk)
    ensures |r| == 4
  {
    match pk
    case Rep(idx, _) => MoveToFront(reps, idx)
    case Match(_, dist) => [dist] + reps[..3]
    case _ => reps
  }

  /** History after copying len bytes from dist + 1 bytes back, one byte at a time. */
  function Expand(hist: seq<byte>, dist: nat, len: nat): (r: seq<byte>)
    requires dist < |hist|
    ensures |r| == |hist| + len && hist <= r
    ensures forall i :: |hist| <= i < |r| ==> r[i] == r[i - dist - 1]
    decreases len
  {
    if len == 0 then hist else Expand(hist + [hist[|hist| - 1 - dist]], dist, len - 1)
  }

  /** The distance minus 1 and the length that a packet copies. */
  function CopyOf(reps: seq<nat>, pk: Packet): (nat, nat)
    requires |reps| == 4 && WellFormed(pk) && !pk.Literal?
  {
    match pk
    case ShortRep => (reps[0], 1)
    case Rep(idx, len) => (reps[idx], len)
    case Match(len, dist) => (dist, len)
  }

  /** A packet that a stream may contain after the given context. */
  predicate Admissible(c: Ctx, dicSize: nat, pk: Packet)
    requires |c.reps| == 4
  {
    && WellFormed(pk)
    && (pk.Literal? || c.hist != [])
    && (pk.Match? ==> pk.dist < |c.hist| && pk.dist < dicSize && pk.dist < END_DIST)
  }

  function NextCtx(c: Ctx, dicSize: nat, pk: Packet): (n: Ctx)
    requires CtxOk(c) && Admissible(c, dicSize, pk)
    ensures CtxOk(n)
  {
    var hist := if pk.Literal? then c.hist + [pk.b] else
                  var (dist, len) := CopyOf(c.reps, pk);
                  Expand(c.hist, dist, len);
    Ctx(NextState(c.state, pk), NextReps(c.reps, pk), hist)
  }

  // ----- scripts -----

  /** A symbol of n bits under a binary tree, entered at node m, most significant bit first. */
  function TreeOps(t: Tree, n: nat, sym: nat, m: nat): seq<Op>
    decreases n, sym
  {
    if n == 0 then []
    else
      var b: bit := BitAt(sym, n - 1);
      [Bit(Node(t, m), b)] + TreeOps(t, n - 1, sym, 2 * m + b)
  }

  /** The same with the least significant bit first. */
  function ReverseOps(t: Tree, n: nat, sym: nat, m: nat): seq<Op>
    decreases n, sym
  {
    if n == 0 then []
    else
      var b: bit := sym % 2;
      [Bit(Node(t, m), b)] + ReverseOps(t, n - 1, sym / 2, 2 * m + b)
  }

  /** A literal after a match: as long as its bits equal those of the byte at distance rep0
      (same), that byte's next bit selects one of two further trees. */
  function MatchedOps(base: nat, n: nat, sym: nat, matchByte: nat, m: nat, same: bool): seq<Op>
    decreases n, sym
  {
    if n == 0 then []
    else
      var b: bit := BitAt(sym, n - 1);
      var mb: bit := BitAt(matchByte, n - 1);
      var node := if same then 0x100 + 0x100 * mb + m else m;
      [Bit(Lit(base + node), b)] + MatchedOps(base, n - 1, sym, matchByte, 2 * m + b, same && b == mb)
  }

  function PosState(pr: Props, pos: nat): (ps: nat)
  {
    pos % Pow2(pr.pb)
  }

  /** LIT_PROBS: some low bits of the position and some high bits of the previous byte choose one
      of the literal coders; its first cell. */
  function LitProbs(pr: Props, pos: nat, prev: byte): nat
    requires ValidProps(pr)
  {
    MulMono(0, pos % Pow2(pr.lp), Pow2(pr.lc));
    768 * (pos % Pow2(pr.lp) * Pow2(pr.lc) + prev / Pow2(8 - pr.lc))
  }

  /** The literal coder for what follows hist. */
  function LitBase(pr: Props, hist: seq<byte>): nat
    requires ValidProps(pr)
  {
    if hist == [] then 0 else LitProbs(pr, |hist|, hist[|hist| - 1])
  }

  function LiteralOps(pr: Props, c: Ctx, b: byte): seq<Op>
    requires ValidProps(pr) && CtxOk(c)
  {
    var base := LitBase(pr, c.hist);
    if c.state < NUM_LIT_STATES then TreeOps(LitTree(base), 8, b, 1)
    else MatchedOps(base, 8, b, c.hist[|c.hist| - 1 - c.reps[0]], 1, true)
  }

  /** A length minus 2 in three classes: 0..7, 8..15, 16..271. */
  function LenOps(rep: bool, sym: nat, posState: nat): seq<Op> {
    if sym < 8 then
      [Bit(Choice(rep), 0)] + TreeOps(LowTree(rep, posState), 3, sym, 1)
    else if sym < 16 then
      [Bit(Choice(rep), 1), Bit(Choice2(rep), 0)] + TreeOps(MidTree(rep, posState), 3, sym - 8, 1)
    else
      [Bit(Choice(rep), 1), Bit(Choice2(rep), 1)] + TreeOps(HighTree(rep), 8, sym - 16, 1)
  }

  function LenState(len: nat): nat
    requires len >= LEN_MIN
  {
    if len < NUM_LEN_TO_POS_STATES + 1 then len - 2 else NUM_LEN_TO_POS_STATES - 1
  }

  /** A distance minus 1: its slot, then the footer bits by slot class. */
  function FooterOps(slot: nat, dist: nat): seq<Op>
    requires slot >= START_POS_MODEL && dist >= SlotBase(slot)
  {
    var reduced := dist - SlotBase(slot);
    if slot < END_POS_MODEL then
      ReverseOps(SpecTree(SlotBase(slot) - slot - 1), FooterBits(slot), reduced, 1)
    else
      DirectOps(reduced / ALIGN_SIZE, FooterBits(slot) - 4) + ReverseOps(AlignTree, 4, reduced % ALIGN_SIZE, 1)
  }

  function DistOps(len: nat, dist: nat): seq<Op>
    requires len >= LEN_MIN
  {
    var slot := Slot(dist);
    TreeOps(PosSlotTree(LenState(len)), 6, slot, 1)
    + if slot < START_POS_MODEL then [] else (SlotAtLeast4(dist); FooterOps(slot, dist))
  }

  lemma {:induction false} SlotAtLeast4(dist: nat)
    requires Slot(dist) >= START_POS_MODEL
    ensures dist >= SlotBase(Slot(dist))
  {
    SlotBounds(dist);
  }

  function RepOps(state: nat, posState: nat, idx: nat, long: bit): seq<Op>
    requires idx < 4
  {
    match idx
    case 0 => [Bit(IsRepG0(state), 0), Bit(IsRep0Long(state, posState), long)]
    case 1 => [Bit(IsRepG0(state), 1), Bit(IsRepG1(state), 0)]
    case _ => [Bit(IsRepG0(state), 1), Bit(IsRepG1(state), 1), Bit(IsRepG2(state), idx - 2)]
  }

  /** The script of one packet. */
  function PacketOps(pr: Props, c: Ctx, pk: Packet): seq<Op>
    requires ValidProps(pr) && CtxOk(c) && WellFormed(pk)
  {
    var st := c.state;
    var ps := PosState(pr, |c.hist|);
    match pk
    case Literal(b) =>
      [Bit(IsMatch(st, ps), 0)] + LiteralOps(pr, c, b)
    case ShortRep =>
      [Bit(IsMatch(st, ps), 1), Bit(IsRep(st), 1)] + RepOps(st, ps, 0, 0)
    case Rep(idx, len) =>
      [Bit(IsMatch(st, ps), 1), Bit(IsRep(st), 1)] + RepOps(st, ps, idx, 1) + LenOps(true, len - LEN_MIN, ps)
    case Match(len, dist) =>
      [Bit(IsMatch(st, ps), 1), Bit(IsRep(st), 0)] + LenOps(false, len - LEN_MIN, ps) + DistOps(len, dist)
  }

  // ----- every cell of a script exists -----

  ghost predicate TreeFits(t: Tree, limit: nat, lclp: nat) {
    forall m :: 1 <= m < limit ==> ValidCell(Node(t, m), lclp)
  }

  lemma {:induction false} TreeOpsValid(t: Tree, n: nat, sym: nat, m: nat, limit: nat, lclp: nat)
    requires TreeFits(t, limit, lclp) && m >= 1 && (m + 1) * Pow2(n) <= 2 * limit
    ensures ValidOps(TreeOps(t, n, sym, m), lclp)
  {
    if n > 0 {
      NodeStep(m, n, limit, BitAt(sym, n - 1));
      TreeOpsValid(t, n - 1, sym, 2 * m + BitAt(sym, n - 1), limit, lclp);
    }
  }

  lemma {:induction false} ReverseOpsValid(t: Tree, n: nat, sym: nat, m: nat, limit: nat, lclp: nat)
    requires TreeFits(t, limit, lclp) && m >= 1 && (m + 1) * Pow2(n) <= 2 * limit
    ensures ValidOps(ReverseOps(t, n, sym, m), lclp)
  {
    if n > 0 {
      NodeStep(m, n, limit, sym % 2);
      ReverseOpsValid(t, n - 1, sym / 2, 2 * m + sym % 2, limit, lclp);
    }
  }

  /** Going down one level keeps (m + 1) * 2^n bounded. */
  lemma {:induction false} NodeStep(m: nat, n: nat, limit: nat, b: bit)
    requires n > 0 && m >= 1 && (m + 1) * Pow2(n) <= 2 * limit
    ensures m < limit && (2 * m + b + 1) * Pow2(n - 1) <= 2 * limit
  {
    var p := Pow2(n - 1);
    assert (m + 1) * (2 * p) == 2 * (m + 1) * p;
    assert (2 * m + b + 1) * p <= (2 * m + 2) * p;
    assert (m + 1) * p >= m + 1;
  }

  lemma {:induction false} MatchedOpsValid(base: nat, n: nat, sym: nat, mb: nat, m: nat, same: bool, lclp: nat)
    requires base + 768 <= NumLits(lclp) && m >= 1 && (m + 1) * Pow2(n) <= 512
    ensures ValidOps(MatchedOps(base, n, sym, mb, m, same), lclp)
  {
    if n > 0 {
      var b: bit := BitAt(sym, n - 1);
      var mbit: bit := BitAt(mb, n - 1);
      NodeStep(m, n, 256, b);
      MatchedOpsValid(base, n - 1, sym, mb, 2 * m + b, same && b == mbit, lclp);
    }
  }

  lemma {:induction false} LitBaseFits(pr: Props, hist: seq<byte>)
    requires ValidProps(pr)
    ensures LitBase(pr, hist) + 768 <= NumLits(pr.lc + pr.lp)
  {
    Pow2Add(pr.lp, pr.lc);
    if hist != [] {
      var x := |hist| % Pow2(pr.lp);
      var hi := hist[|hist| - 1] / Pow2(8 - pr.lc);
      assert hi < Pow2(pr.lc) by {
        Pow2Table();
        Pow2Add(8 - pr.lc, pr.lc);
      }
      MulMono(x + 1, Pow2(pr.lp), Pow2(pr.lc));
      assert (x + 1) * Pow2(pr.lc) == x * Pow2(pr.lc) + Pow2(pr.lc);
    }
  }

  lemma {:induction false} MulMono(a: nat, b: nat, k: nat)
    requires a <= b
    ensures a * k <= b * k
  {
    assert b * k - a * k == (b - a) * k;
  }

  lemma {:induction false} LiteralOpsValid(pr: Props, c: Ctx, b: byte)
    requires ValidProps(pr) && CtxOk(c)
    ensures ValidOps(LiteralOps(pr, c, b), pr.lc + pr.lp)
  {
    hide LitBase, Pow2, TreeOps, MatchedOps, NumLits;
    var base := LitBase(pr, c.hist);
    LitBaseFits(pr, c.hist);
    Pow2Of8();
    if c.state < NUM_LIT_STATES {
      TreeOpsValid(LitTree(base), 8, b, 1, 256, pr.lc + pr.lp);
    } else {
      MatchedOpsValid(base, 8, b, c.hist[|c.hist| - 1 - c.reps[0]], 1, true, pr.lc + pr.lp);
    }
  }

  lemma {:induction false} Pow2Of8()
    ensures Pow2(8) == 256
  {
    Pow2Table();
  }

  lemma {:induction false} LenOpsValid(rep: bool, sym: nat, ps: nat, lclp: nat)
    requires ps < NUM_POS_STATES_MAX
    ensures ValidOps(LenOps(rep, sym, ps), lclp)
  {
    hide Pow2, TreeOps;
    Pow2Small();
    if sym < 8 {
      TreeOpsValid(LowTree(rep, ps), 3, sym, 1, 8, lclp);
    } else if sym < 16 {
      TreeOpsValid(MidTree(rep, ps), 3, sym - 8, 1, 8, lclp);
    } else {
      TreeOpsValid(HighTree(rep), 8, sym - 16, 1, 256, lclp);
    }
  }

  /** The footer trees of the ten slots 4..13 fit one after the other into 114 cells. */
  lemma {:induction false} SpecTreeFits(slot: nat, lclp: nat)
    requires START_POS_MODEL <= slot < END_POS_MODEL
    ensures TreeFits(SpecTree(SlotBase(slot) - slot - 1), Pow2(FooterBits(slot)), lclp)
    ensures slot + 1 < END_POS_MODEL ==>
              SlotBase(slot) - slot - 1 + Pow2(FooterBits(slot)) == SlotBase(slot + 1) - slot - 2 + 1
  {
    Pow2Table();
    assert FooterBits(slot) == slot / 2 - 1;
  }

  lemma {:induction false} FooterOpsValid(slot: nat, dist: nat, lclp: nat)
    requires slot >= START_POS_MODEL && dist >= SlotBase(slot)
    ensures ValidOps(FooterOps(slot, dist), lclp)
  {
    var reduced := dist - SlotBase(slot);
    if slot < END_POS_MODEL {
      SpecTreeFits(slot, lclp);
      var n := FooterBits(slot);
      assert (1 + 1) * Pow2(n) <= 2 * Pow2(n);
      ReverseOpsValid(SpecTree(SlotBase(slot) - slot - 1), n, reduced, 1, Pow2(n), lclp);
    } else {
      Pow2Table();
      ReverseOpsValid(AlignTree, 4, reduced % ALIGN_SIZE, 1, 16, lclp);
    }
  }

  lemma {:induction false} DistOpsValid(len: nat, dist: nat, lclp: nat)
    requires len >= LEN_MIN && dist < WORD
    ensures ValidOps(DistOps(len, dist), lclp)
  {
    Pow2Table();
    var slot := Slot(dist);
    TreeOpsValid(PosSlotTree(LenState(len)), 6, slot, 1, 64, lclp);
    if slot >= START_POS_MODEL {
      SlotAtLeast4(dist);
      FooterOpsValid(slot, dist, lclp);
    }
  }

  lemma {:induction false} PosStateRange(pr: Props, pos: nat)
    requires ValidProps(pr)
    ensures PosState(pr, pos) < NUM_POS_STATES_MAX
  {
    Pow2Monotone(pr.pb, 4);
    Pow2Small();
  }

  lemma {:induction false} ConcatValid(a: seq<Op>, b: seq<Op>, lclp: nat)
    requires ValidOps(a, lclp) && ValidOps(b, lclp)
    ensures ValidOps(a + b, lclp)
  {
  }

  /** Every cell that a packet's script names lies inside the encoder's arrays. */
  lemma {:induction false} PacketOpsValid(pr: Props, c: Ctx, pk: Packet)
    requires ValidProps(pr) && CtxOk(c) && WellFormed(pk)
    ensures ValidOps(PacketOps(pr, c, pk), pr.lc + pr.lp)
  {
    hide LenOps, DistOps, LiteralOps, PosState, Pow2;
    var st, ps, lclp := c.state, PosState(pr, |c.hist|), pr.lc + pr.lp;
    PosStateRange(pr, |c.hist|);
    match pk
    case Literal(b) =>
      LiteralOpsValid(pr, c, b);
    case ShortRep =>
    case Rep(idx, len) =>
      LenOpsValid(true, len - LEN_MIN, ps, lclp);
      ConcatValid([Bit(IsMatch(st, ps), 1), Bit(IsRep(st), 1)] + RepOps(st, ps, idx, 1), LenOps(true, len - LEN_MIN, ps), lclp);
    case Match(len, dist) =>
      LenOpsValid(false, len - LEN_MIN, ps, lclp);
      DistOpsValid(len, dist, lclp);
      ConcatValid([Bit(IsMatch(st, ps), 1), Bit(IsRep(st), 0)] + LenOps(false, len - LEN_MIN, ps), DistOps(len, dist), lclp);
  }

  // ----- 32-bit positions -----

  lemma {:induction false} PosStateOfWord(pr: Props, pos: nat)
    requires ValidProps(pr)
    ensures U32(pos) % Pow2(pr.pb) == PosState(pr, pos)
  {
    WordMod(pos, pr.pb);
  }

  lemma {:induction false} LitProbsOfWord(pr: Props, pos: nat, prev: byte)
    requires ValidProps(pr)
    ensures LitProbs(pr, U32(pos), prev) == LitProbs(pr, pos, prev)
  {
    WordMod(pos, pr.lp);
  }

  lemma {:induction false} WordMod(pos: nat, k: nat)
    requires k <= 32
    ensures U32(pos) % Pow2(k) == pos % Pow2(k)
  {
    Pow2Table();
    Pow2Add(32 - k, k);
    NestedMod(pos, Pow2(k), Pow2(32 - k), WORD);
  }

  lemma {:induction false} NestedMod(x: nat, p: nat, c: nat, w: nat)
    requires p > 0 && w == c * p && w > 0
    ensures x % w % p == x % p
  {
    var q, r := x / w, x % w;
    var e, f := r / p, r % p;
    assert x == q * w + (e * p + f);
    Distribute(q, c, e, p);
    DivUnique(x, p, q * c + e, f);
  }

  lemma {:induction false} Distribute(q: nat, c: nat, e: nat, p: nat)
    ensures (q * c + e) * p == q * (c * p) + e * p
  {
    assert (q * c + e) * p == q * c * p + e * p;
    assert q * c * p == q * (c * p);
  }
}
