/**
 * The adaptive probability cells of LZMA, under two addressings: the encoder's separate arrays
 * (one constructor of Cell for each array) and the decoder's single flat table (Index).
 */
module Cells {
  import opened Bytes

  const NUM_STATES := 12
  const NUM_POS_STATES_MAX := 16
  const NUM_LEN_TO_POS_STATES := 4
  const START_POS_MODEL := 4
  const END_POS_MODEL := 14
  const NUM_FULL_DISTANCES := 128
  const ALIGN_SIZE := 16
  const PROB_INIT: Prob := 1024

  /** A probability in units of 1/2048; adaptation never leaves this range. */
  type Prob = p: int | 31 <= p <= 2017 witness 1024

  datatype Cell =
    | IsMatch(state: nat, posState: nat)
    | IsRep(state: nat)
    | IsRepG0(state: nat)
    | IsRepG1(state: nat)
    | IsRepG2(state: nat)
    | IsRep0Long(state: nat, posState: nat)
    | PosSlot(lenState: nat, node: nat)
    | SpecPos(spec: int)
    | Align(node: nat)
    | Choice(rep: bool)
    | Choice2(rep: bool)
    | Low(rep: bool, index: nat)
    | Mid(rep: bool, index: nat)
    | High(rep: bool, node: nat)
    | Lit(index: nat)

  function NumLits(lclp: nat): nat {
    768 * Pow2(lclp)
  }

  /** The bounds of the encoder's arrays. */
  predicate ValidCell(c: Cell, lclp: nat) {
    match c
    case IsMatch(s, ps) => s < NUM_STATES && ps < NUM_POS_STATES_MAX
    case IsRep(s) => s < NUM_STATES
    case IsRepG0(s) => s < NUM_STATES
    case IsRepG1(s) => s < NUM_STATES
    case IsRepG2(s) => s < NUM_STATES
    case IsRep0Long(s, ps) => s < NUM_STATES && ps < NUM_POS_STATES_MAX
    case PosSlot(l, m) => l < NUM_LEN_TO_POS_STATES && m < 64
    case SpecPos(i) => 0 <= i < NUM_FULL_DISTANCES - END_POS_MODEL
    case Align(m) => m < ALIGN_SIZE
    case Choice(_) => true
    case Choice2(_) => true
    case Low(_, i) => i < NUM_POS_STATES_MAX * 8
    case Mid(_, i) => i < NUM_POS_STATES_MAX * 8
    case High(_, m) => m < 256
    case Lit(i) => i < NumLits(lclp)
  }

  // Offsets of the decoder's flat table.
  const IS_REP := NUM_STATES * NUM_POS_STATES_MAX
  const IS_REP_G0 := IS_REP + NUM_STATES
  const IS_REP_G1 := IS_REP_G0 + NUM_STATES
  const IS_REP_G2 := IS_REP_G1 + NUM_STATES
  const IS_REP0_LONG := IS_REP_G2 + NUM_STATES
  const POS_SLOT := IS_REP0_LONG + NUM_STATES * NUM_POS_STATES_MAX
  const SPEC_POS := POS_SLOT + NUM_LEN_TO_POS_STATES * 64
  const ALIGN := SPEC_POS + NUM_FULL_DISTANCES - END_POS_MODEL
  const LEN_CODER := ALIGN + ALIGN_SIZE
  const LEN_CHOICE2 := 1
  const LEN_LOW := 2
  const LEN_MID := LEN_LOW + NUM_POS_STATES_MAX * 8
  const LEN_HIGH := LEN_MID + NUM_POS_STATES_MAX * 8
  const NUM_LEN_PROBS := LEN_HIGH + 256
  const REP_LEN_CODER := LEN_CODER + NUM_LEN_PROBS
  const LITERAL := REP_LEN_CODER + NUM_LEN_PROBS

  function NumProbs(lclp: nat): nat {
    LITERAL + NumLits(lclp)
  }

  function LenBase(rep: bool): nat {
    if rep then REP_LEN_CODER else LEN_CODER
  }

  /** The decoder's address of a cell. */
  function Index(c: Cell): int {
    match c
    case IsMatch(s, ps) => 16 * s + ps
    case IsRep(s) => IS_REP + s
    case IsRepG0(s) => IS_REP_G0 + s
    case IsRepG1(s) => IS_REP_G1 + s
    case IsRepG2(s) => IS_REP_G2 + s
    case IsRep0Long(s, ps) => IS_REP0_LONG + 16 * s + ps
    case PosSlot(l, m) => POS_SLOT + 64 * l + m
    case SpecPos(i) => SPEC_POS + i
    case Align(m) => ALIGN + m
    case Choice(rep) => LenBase(rep)
    case Choice2(rep) => LenBase(rep) + LEN_CHOICE2
    case Low(rep, i) => LenBase(rep) + LEN_LOW + i
    case Mid(rep, i) => LenBase(rep) + LEN_MID + i
    case High(rep, m) => LenBase(rep) + LEN_HIGH + m
    case Lit(i) => LITERAL + i
  }

  function LenCellAt(rep: bool, k: int): Cell
    requires 0 <= k
  {
    if k < 1 then Choice(rep)
    else if k < LEN_LOW then Choice2(rep)
    else if k < LEN_MID then Low(rep, k - LEN_LOW)
    else if k < LEN_HIGH then Mid(rep, k - LEN_MID)
    else High(rep, k - LEN_HIGH)
  }

  /** Which array element lives at an address of the flat table. */
  function CellAt(k: nat): Cell {
    if k < IS_REP then IsMatch(k / 16, k % 16)
    else if k < IS_REP_G0 then IsRep(k - IS_REP)
    else if k < IS_REP_G1 then IsRepG0(k - IS_REP_G0)
    else if k < IS_REP_G2 then IsRepG1(k - IS_REP_G1)
    else if k < IS_REP0_LONG then IsRepG2(k - IS_REP_G2)
    else if k < POS_SLOT then IsRep0Long((k - IS_REP0_LONG) / 16, (k - IS_REP0_LONG) % 16)
    else if k < SPEC_POS then PosSlot((k - POS_SLOT) / 64, (k - POS_SLOT) % 64)
    else if k < ALIGN then SpecPos(k - SPEC_POS)
    else if k < LEN_CODER then Align(k - ALIGN)
    else if k < REP_LEN_CODER then LenCellAt(false, k - LEN_CODER)
    else if k < LITERAL then LenCellAt(true, k - REP_LEN_CODER)
    else Lit(k - LITERAL)
  }

  /** The two addressings agree: the flat table holds each array element once, in no gap and
      with no overlap, and its literal part starts at 1846. */
  lemma {:induction false} LayoutAgrees(c: Cell, lclp: nat)
    requires ValidCell(c, lclp)
    ensures 0 <= Index(c) < NumProbs(lclp) && CellAt(Index(c)) == c
    ensures NumProbs(lclp) == 1846 + NumLits(lclp)
  {
    match c
    case IsMatch(s, ps) => DivUnique(s * 16 + ps, 16, s, ps);
    case IsRep0Long(s, ps) => DivUnique(s * 16 + ps, 16, s, ps);
    case PosSlot(l, m) => DivUnique(l * 64 + m, 64, l, m);
    case _ =>
  }

  /** No address of the flat table is left over. */
  lemma {:induction false} LayoutOnto(k: nat, lclp: nat)
    requires k < NumProbs(lclp)
    ensures ValidCell(CellAt(k), lclp) && Index(CellAt(k)) == k
  {
    hide Pow2;
    if k < POS_SLOT {
    } else if k < LEN_CODER {
    } else {
    }
  }

  /** A binary tree of cells: its root is node 1, the children of node m are 2m and 2m + 1. */
  datatype Tree =
    | PosSlotTree(lenState: nat)
    | SpecTree(offset: int)
    | AlignTree
    | LowTree(rep: bool, posState: nat)
    | MidTree(rep: bool, posState: nat)
    | HighTree(rep: bool)
    | LitTree(base: nat)

  function Node(t: Tree, m: nat): Cell {
    match t
    case PosSlotTree(l) => PosSlot(l, m)
    case SpecTree(off) => SpecPos(off + m)
    case AlignTree => Align(m)
    case LowTree(rep, ps) => Low(rep, 8 * ps + m)
    case MidTree(rep, ps) => Mid(rep, 8 * ps + m)
    case HighTree(rep) => High(rep, m)
    case LitTree(b) => Lit(b + m)
  }

  /** The decoder's address of node 0 of a tree. */
  function Base(t: Tree): int {
    match t
    case PosSlotTree(l) => POS_SLOT + 64 * l
    case SpecTree(off) => SPEC_POS + off
    case AlignTree => ALIGN
    case LowTree(rep, ps) => LenBase(rep) + LEN_LOW + 8 * ps
    case MidTree(rep, ps) => LenBase(rep) + LEN_MID + 8 * ps
    case HighTree(rep) => LenBase(rep) + LEN_HIGH
    case LitTree(b) => LITERAL + b
  }

  lemma {:induction false} NodeIndex(t: Tree, m: nat)
    ensures Index(Node(t, m)) == Base(t) + m
  {
  }

  /** A table lookup; LzmaEnc_Init and LzmaDec_InitStateReal give every cell the value 1024. */
  function Get(t: map<Cell, Prob>, c: Cell): Prob {
    if c in t then t[c] else PROB_INIT
  }

  /** The encoder's arrays and the decoder's flat table hold the same probabilities. */
  ghost predicate SameTables(e: map<Cell, Prob>, d: seq<Prob>, lclp: nat) {
    && |d| == NumProbs(lclp)
    && forall c :: ValidCell(c, lclp) ==> 0 <= Index(c) < |d| && d[Index(c)] == Get(e, c)
  }

  /** Writing the same cell on both sides keeps the tables equal. */
  lemma {:induction false} SameTablesUpdate(e: map<Cell, Prob>, d: seq<Prob>, lclp: nat, c: Cell, p: Prob)
    requires SameTables(e, d, lclp) && ValidCell(c, lclp)
    ensures SameTables(e[c := p], d[Index(c) := p], lclp)
  {
    LayoutAgrees(c, lclp);
    forall x | ValidCell(x, lclp)
      ensures 0 <= Index(x) < |d| && d[Index(c) := p][Index(x)] == Get(e[c := p], x)
    {
      LayoutAgrees(x, lclp);
    }
  }
}
