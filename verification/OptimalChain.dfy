/**
 * Backward: turns the links of the optimal parse, which lead from the end back to the start, round
 * in place, so that later calls of GetOptimum can replay the decisions from the start on.
 */
module OptimalChain {
  import opened Bytes

  const NUM_OPTS := 0x1000
  /** backPrev of a literal. */
  const CHAR: word := 0xFFFF_FFFF

  /** An entry of the parse: the step that ends here starts at posPrev. With prev1IsChar a literal
      comes before that step; with prev2 as well, before the literal a step from posPrev2. */
  datatype Optimal = Optimal(posPrev: nat, backPrev: word, prev1IsChar: bool, prev2: bool, posPrev2: nat, backPrev2: word)

  datatype Step = Step(from: nat, to: nat, back: word)

  ghost predicate EntryOk(e: Optimal, cur: nat) {
    && e.posPrev < cur
    && (e.prev1IsChar ==> 1 <= e.posPrev && (e.prev2 ==> e.posPrev2 < e.posPrev - 1))
  }

  ghost predicate ParseOk(opt: seq<Optimal>, end: nat) {
    end < |opt| && forall p :: 0 < p <= end ==> EntryOk(opt[p], p)
  }

  /** The decisions that lead to cur, in forward order. */
  function Decisions(opt: seq<Optimal>, cur: nat): seq<Step>
    requires ParseOk(opt, cur)
    decreases cur
  {
    if cur == 0 then []
    else
      var e := opt[cur];
      var last := Step(e.posPrev, cur, e.backPrev);
      if !e.prev1IsChar then Decisions(opt, e.posPrev) + [last]
      else
        var literal := Step(e.posPrev - 1, e.posPrev, CHAR);
        if !e.prev2 then Decisions(opt, e.posPrev - 1) + [literal] + [last]
        else Decisions(opt, e.posPrev2) + [Step(e.posPrev2, e.posPrev - 1, e.backPrev2)] + [literal] + [last]
  }

  /** From p the links lead forward to end. */
  ghost predicate Leads(opt: seq<Optimal>, p: nat, end: nat)
    decreases end - p
  {
    p == end || (p < end && p < |opt| && p < opt[p].posPrev <= end && Leads(opt, opt[p].posPrev, end))
  }

  function Replayed(opt: seq<Optimal>, p: nat, end: nat): seq<Step>
    requires Leads(opt, p, end)
    decreases end - p
  {
    if p == end then [] else [Step(p, opt[p].posPrev, opt[p].backPrev)] + Replayed(opt, opt[p].posPrev, end)
  }

  /** Decisions are consecutive from a to b. */
  ghost predicate Consecutive(steps: seq<Step>, a: nat, b: nat)
    decreases |steps|
  {
    if steps == [] then a == b else steps[0].from == a < steps[0].to && Consecutive(steps[1..], steps[0].to, b)
  }

  function TotalLength(steps: seq<Step>): int {
    if steps == [] then 0 else steps[0].to - steps[0].from + TotalLength(steps[1..])
  }

  lemma {:induction false} DecisionsLocal(a: seq<Optimal>, b: seq<Optimal>, cur: nat)
    requires ParseOk(a, cur) && cur < |b| && forall p :: 0 < p <= cur ==> b[p] == a[p]
    ensures ParseOk(b, cur) && Decisions(b, cur) == Decisions(a, cur)
    decreases cur
  {
    if cur > 0 {
      var e := a[cur];
      DecisionsLocal(a, b, e.posPrev);
      if e.prev1IsChar {
        DecisionsLocal(a, b, e.posPrev - 1);
        if e.prev2 {
          DecisionsLocal(a, b, e.posPrev2);
        }
      }
    }
  }

  lemma {:induction false} ReplayedLocal(a: seq<Optimal>, b: seq<Optimal>, p: nat, end: nat)
    requires Leads(a, p, end) && |b| == |a| && forall q :: p <= q < |a| ==> b[q] == a[q]
    ensures Leads(b, p, end) && Replayed(b, p, end) == Replayed(a, p, end)
    decreases end - p
  {
    if p < end {
      ReplayedLocal(a, b, a[p].posPrev, end);
    }
  }

  // ----- decisions as a whole -----

  lemma {:induction false} ConsecutiveSnoc(steps: seq<Step>, a: nat, b: nat, s: Step)
    requires Consecutive(steps, a, b) && s.from == b < s.to
    ensures Consecutive(steps + [s], a, s.to)
    decreases |steps|
  {
    var all := steps + [s];
    if steps == [] {
      assert all[1..] == [];
    } else {
      assert all[1..] == steps[1..] + [s];
      ConsecutiveSnoc(steps[1..], steps[0].to, b, s);
    }
  }

  /** The decisions cover the text from the start up to cur without gap or overlap. */
  lemma {:induction false} DecisionsCover(opt: seq<Optimal>, cur: nat)
    requires ParseOk(opt, cur)
    ensures Consecutive(Decisions(opt, cur), 0, cur)
    decreases cur
  {
    if cur > 0 {
      var e := opt[cur];
      var last := Step(e.posPrev, cur, e.backPrev);
      if !e.prev1IsChar {
        DecisionsCover(opt, e.posPrev);
        ConsecutiveSnoc(Decisions(opt, e.posPrev), 0, e.posPrev, last);
      } else {
        var literal := Step(e.posPrev - 1, e.posPrev, CHAR);
        var before;
        if !e.prev2 {
          DecisionsCover(opt, e.posPrev - 1);
          before := Decisions(opt, e.posPrev - 1);
        } else {
          var s := Step(e.posPrev2, e.posPrev - 1, e.backPrev2);
          DecisionsCover(opt, e.posPrev2);
          ConsecutiveSnoc(Decisions(opt, e.posPrev2), 0, e.posPrev2, s);
          before := Decisions(opt, e.posPrev2) + [s];
        }
        ConsecutiveSnoc(before, 0, e.posPrev - 1, literal);
        ConsecutiveSnoc(before + [literal], 0, e.posPrev, last);
      }
    }
  }

  /** Consecutive steps add up. */
  lemma {:induction false} LengthsSum(steps: seq<Step>, a: nat, b: nat)
    requires Consecutive(steps, a, b)
    ensures TotalLength(steps) == b - a
    decreases |steps|
  {
    if steps != [] {
      LengthsSum(steps[1..], steps[0].to, b);
    }
  }

  /** What is left to be replayed covers the text from p up to the end. */
  lemma {:induction false} ReplayedCovers(opt: seq<Optimal>, p: nat, end: nat)
    requires Leads(opt, p, end)
    ensures Consecutive(Replayed(opt, p, end), p, end) && TotalLength(Replayed(opt, p, end)) == end - p
    decreases end - p
  {
    if p < end {
      ReplayedCovers(opt, opt[p].posPrev, end);
      assert Replayed(opt, p, end)[1..] == Replayed(opt, opt[p].posPrev, end);
    }
  }

  // ----- reversal -----

  /** The array with the entry at cur as it was before its links were overwritten. */
  function Restored(opt: seq<Optimal>, cur: nat, posMem: nat, backMem: word): (r: seq<Optimal>)
    requires cur < |opt|
    ensures |r| == |opt|
  {
    opt[cur := opt[cur].(posPrev := posMem, backPrev := backMem)]
  }

  /** What the composite entry at cur, with its links posMem and backMem, writes below it. */
  function Expanded(opt: seq<Optimal>, cur: nat, posMem: nat): (r: seq<Optimal>)
    requires cur < |opt| && posMem < cur
    requires opt[cur].prev1IsChar ==> 1 <= posMem && (opt[cur].prev2 ==> opt[cur].posPrev2 < posMem - 1)
    ensures |r| == |opt|
  {
    var e := opt[cur];
    if !e.prev1IsChar then opt
    else
      var literal := opt[posMem].(posPrev := posMem - 1, backPrev := CHAR, prev1IsChar := false);
      if !e.prev2 then opt[posMem := literal]
      else opt[posMem := literal][posMem - 1 := opt[posMem - 1].(posPrev := e.posPrev2, backPrev := e.backPrev2, prev1IsChar := false)]
  }

  lemma {:induction false} PlainEntry(opt: seq<Optimal>, cur: nat)
    requires ParseOk(opt, cur) && cur > 0 && !opt[cur].prev1IsChar
    ensures Decisions(opt, cur) == Decisions(opt, opt[cur].posPrev) + [Step(opt[cur].posPrev, cur, opt[cur].backPrev)]
  {
  }

  /** Expanding changes no decision. */
  lemma {:induction false} ExpandedSame(opt: seq<Optimal>, cur: nat, posMem: nat, backMem: word)
    requires 0 < cur < |opt| && ParseOk(Restored(opt, cur, posMem, backMem), cur)
    ensures posMem < cur && (opt[cur].prev1IsChar ==> 1 <= posMem && (opt[cur].prev2 ==> opt[cur].posPrev2 < posMem - 1))
    ensures var x := Expanded(opt, cur, posMem);
            && ParseOk(x, posMem)
            && Decisions(Restored(opt, cur, posMem, backMem), cur) == Decisions(x, posMem) + [Step(posMem, cur, backMem)]
  {
    hide Decisions;
    var v := Restored(opt, cur, posMem, backMem);
    var e := v[cur];
    assert EntryOk(e, cur);
    var x := Expanded(opt, cur, posMem);
    assert forall p :: 0 < p <= posMem ==> EntryOk(x[p], p) by {
      forall p | 0 < p <= posMem ensures EntryOk(x[p], p) {
        assert EntryOk(v[p], p);
      }
    }
    DecisionsUnfold(v, cur);
    if !e.prev1IsChar {
      DecisionsLocal(v, x, posMem);
    } else {
      PlainEntry(x, posMem);
      if !e.prev2 {
        DecisionsLocal(v, x, posMem - 1);
      } else {
        PlainEntry(x, posMem - 1);
        DecisionsLocal(v, x, e.posPrev2);
      }
    }
  }

  lemma {:induction false} DecisionsUnfold(opt: seq<Optimal>, cur: nat)
    requires ParseOk(opt, cur) && cur > 0
    ensures var e := opt[cur];
            var last := Step(e.posPrev, cur, e.backPrev);
            && EntryOk(e, cur)
            && Decisions(opt, cur)
               == if !e.prev1IsChar then Decisions(opt, e.posPrev) + [last]
                  else if !e.prev2 then Decisions(opt, e.posPrev - 1) + [Step(e.posPrev - 1, e.posPrev, CHAR)] + [last]
                  else Decisions(opt, e.posPrev2) + [Step(e.posPrev2, e.posPrev - 1, e.backPrev2)]
                       + [Step(e.posPrev - 1, e.posPrev, CHAR)] + [last]
  {
  }

  class Parser {
    const opt: array<Optimal>
    var optimumEndIndex: nat
    var optimumCurrentIndex: nat

    /** The steps still to be replayed. */
    ghost predicate Valid()
      reads this, opt
    {
      Leads(opt[..], optimumCurrentIndex, optimumEndIndex)
    }

    ghost function Pending(): seq<Step>
      requires Valid()
      reads this, opt
    {
      Replayed(opt[..], optimumCurrentIndex, optimumEndIndex)
    }

    /** Backward: the first decision is returned, the others are left to be replayed. */
    method Backward(cur0: nat) returns (len: nat, backRes: word)
      requires 0 < cur0 && ParseOk(opt[..], cur0)
      modifies this, opt
      ensures Valid() && optimumEndIndex == cur0
      ensures [Step(0, len, backRes)] + Pending() == Decisions(old(opt[..]), cur0)
      ensures len == optimumCurrentIndex && Consecutive(Pending(), len, optimumEndIndex)
      ensures len + TotalLength(Pending()) == optimumEndIndex
    {
      hide Decisions, EntryOk, Leads, Replayed, Consecutive, TotalLength;
      var cur: nat := cur0;
      var posMem, backMem := opt[cur].posPrev, opt[cur].backPrev;
      optimumEndIndex := cur;
      ghost var goal := Decisions(opt[..], cur);
      Untouched(opt[..], cur);
      while cur != 0
        invariant 0 <= cur <= cur0 == optimumEndIndex && cur < opt.Length
        invariant Leads(opt[..], cur, cur0)
        invariant cur > 0 ==> ParseOk(Restored(opt[..], cur, posMem, backMem), cur)
        invariant cur > 0 ==> Decisions(Restored(opt[..], cur, posMem, backMem), cur) + Replayed(opt[..], cur, cur0) == goal
        invariant cur == 0 ==> cur < cur0 && Replayed(opt[..], 0, cur0) == goal
        decreases cur
      {
        ghost var o := opt[..];
        ExpandedSame(o, cur, posMem, backMem);
        if opt[cur].prev1IsChar {
          // MakeAsChar
          opt[posMem] := opt[posMem].(backPrev := CHAR, prev1IsChar := false);
          opt[posMem] := opt[posMem].(posPrev := posMem - 1);
          if opt[cur].prev2 {
            opt[posMem - 1] := opt[posMem - 1].(prev1IsChar := false);
            opt[posMem - 1] := opt[posMem - 1].(posPrev := opt[cur].posPrev2);
            opt[posMem - 1] := opt[posMem - 1].(backPrev := opt[cur].backPrev2);
          }
        }
        ghost var x := opt[..];
        assert x == Expanded(o, cur, posMem);
        var posPrev, backCur := posMem, backMem;
        backMem := opt[posPrev].backPrev;
        posMem := opt[posPrev].posPrev;
        opt[posPrev] := opt[posPrev].(backPrev := backCur);
        opt[posPrev] := opt[posPrev].(posPrev := cur);
        assert opt[..] == x[posPrev := x[posPrev].(posPrev := cur, backPrev := backCur)];
        Turned(o, x, opt[..], cur, posPrev, backCur, cur0);
        cur := posPrev;
      }
      Unroll(opt[..], cur0);
      backRes := opt[0].backPrev;
      optimumCurrentIndex := opt[0].posPrev;
      len := optimumCurrentIndex;
      ReplayedCovers(opt[..], optimumCurrentIndex, optimumEndIndex);
    }

    /** The first lines of GetOptimum: the next decision of the parse. */
    method Replay() returns (lenRes: nat, backRes: word)
      requires Valid() && optimumEndIndex != optimumCurrentIndex
      modifies this`optimumCurrentIndex
      ensures Valid() && old(Pending()) == [Step(old(optimumCurrentIndex), old(optimumCurrentIndex) + lenRes, backRes)] + Pending()
      ensures optimumCurrentIndex == old(optimumCurrentIndex) + lenRes <= optimumEndIndex
      ensures lenRes > 0 && lenRes + TotalLength(Pending()) == old(TotalLength(Pending()))
    {
      ReplayedCovers(opt[..], optimumCurrentIndex, optimumEndIndex);
      var o := opt[optimumCurrentIndex];
      lenRes := o.posPrev - optimumCurrentIndex;
      backRes := o.backPrev;
      optimumCurrentIndex := o.posPrev;
      ReplayedCovers(opt[..], optimumCurrentIndex, optimumEndIndex);
    }

    /** Backward, then all the replays of the later calls of GetOptimum: the lengths they return, the
        first one included, add up to the length of the parse, and the decisions come in order. */
    method ReplayAll(cur0: nat) returns (total: nat, ghost steps: seq<Step>)
      requires 0 < cur0 && ParseOk(opt[..], cur0)
      modifies this, opt
      ensures steps == Decisions(old(opt[..]), cur0)
      ensures total == cur0 == optimumEndIndex == optimumCurrentIndex
    {
      hide Decisions, ParseOk, Leads, Replayed, Consecutive;
      var len, back := Backward(cur0);
      total := len;
      steps := [Step(0, len, back)];
      while optimumEndIndex != optimumCurrentIndex
        invariant Valid() && optimumEndIndex == cur0 && total == optimumCurrentIndex
        invariant steps + Pending() == Decisions(old(opt[..]), cur0)
        decreases optimumEndIndex - optimumCurrentIndex
      {
        ghost var pending, at := Pending(), optimumCurrentIndex;
        len, back := Replay();
        total := total + len;
        steps := steps + [Step(at, at + len, back)];
        assert steps + Pending() == steps[..|steps| - 1] + pending;
      }
      PendingNone(opt[..], cur0);
    }
  }

  lemma {:induction false} PendingNone(opt: seq<Optimal>, end: nat)
    requires Leads(opt, end, end)
    ensures Replayed(opt, end, end) == []
  {
  }

  lemma {:induction false} Untouched(opt: seq<Optimal>, cur: nat)
    requires 0 < cur && ParseOk(opt, cur)
    ensures Restored(opt, cur, opt[cur].posPrev, opt[cur].backPrev) == opt
    ensures Leads(opt, cur, cur) && Replayed(opt, cur, cur) == []
  {
  }

  lemma {:induction false} Unroll(opt: seq<Optimal>, end: nat)
    requires 0 < end && Leads(opt, 0, end)
    ensures |opt| > 0 && 0 < opt[0].posPrev && Leads(opt, opt[0].posPrev, end)
    ensures Replayed(opt, 0, end) == [Step(0, opt[0].posPrev, opt[0].backPrev)] + Replayed(opt, opt[0].posPrev, end)
  {
  }

  /** One entry turned round: the step it ends goes over to the part to be replayed. */
  lemma {:induction false} Turned(o: seq<Optimal>, x: seq<Optimal>, y: seq<Optimal>, cur: nat, posPrev: nat, backCur: word, end: nat)
    requires posPrev < cur <= end && cur < |o| == |x| && Leads(o, cur, end) && ParseOk(x, posPrev)
    requires forall q :: cur <= q < |o| ==> x[q] == o[q]
    requires y == x[posPrev := x[posPrev].(posPrev := cur, backPrev := backCur)]
    ensures Leads(y, posPrev, end)
    ensures Replayed(y, posPrev, end) == [Step(posPrev, cur, backCur)] + Replayed(o, cur, end)
    ensures Restored(y, posPrev, x[posPrev].posPrev, x[posPrev].backPrev) == x
    ensures (Decisions(x, posPrev) + [Step(posPrev, cur, backCur)]) + Replayed(o, cur, end)
            == Decisions(x, posPrev) + Replayed(y, posPrev, end)
    ensures posPrev == 0 ==> Decisions(x, posPrev) == []
  {
    ReplayedLocal(o, y, cur, end);
  }
}
