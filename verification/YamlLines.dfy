/**
 * When the assertion that a required simple key is allowed holds (scanner.c): on every line that begins
 * in the block context. The comment beside it takes a token at the column of the collection for the
 * first of its line; after a flow collection or a quoted scalar of several lines it need not be.
 */
module YamlLines {
  import opened YamlTokens
  import opened YamlQueue
  import opened YamlFetching
  import opened YamlNesting
  import opened YamlScanning

  // ----- lines -----

  /** The line on which the scanner is after i lexemes began in the block context, not inside a flow
      collection or a token. Scalars that take the line break after them and directives end a line. */
  predicate Begun(input: seq<Lexeme>, i: nat)
    requires i <= |input|
    decreases i, 0
  {
    if i == 0 then true
    else
      var x := input[i - 1];
      if x.start.line < x.end.line then (x.form != Ordinary || Resets(x.token)) && Depth(input, i - 1) == 0
      else BegunAt(input, i - 1)
  }

  /** The same for the line of lexeme i. */
  predicate BegunAt(input: seq<Lexeme>, i: nat)
    requires i < |input|
    decreases i, 1
  {
    if EndOf(input, i).line < input[i].start.line then Depth(input, i) == 0 else Begun(input, i)
  }

  // ----- the level on such a line -----

  /** On a line begun in the block context the level is to the left unless a key is allowed. */
  predicate LevelLeft(v: View, begun: bool) {
    begun && (v.flow > 0 || !v.allowed) ==> v.indent < v.mark.column
  }

  lemma {:induction false} CloseLevel(v: View, column: int)
    requires Increasing(v.indents + [v.indent])
    ensures Close(v, column).indent <= v.indent && (v.flow > 0 ==> Close(v, column) == v)
    decreases |v.indents|
  {
    if !(v.flow > 0 || v.indent <= column || v.indents == []) {
      var l, n := v.indents + [v.indent], |v.indents| - 1;
      var w := v.(all := v.all + [BlockEnd(v)], indent := v.indents[n], indents := v.indents[..n]);
      assert w.indents + [w.indent] == v.indents;
      assert l[n] < l[n + 1];
      assert l[..|l| - 1] == v.indents;
      Front(l);
      CloseLevel(w, column);
    }
  }

  lemma {:induction false} ArriveLevel(v: View, m: Mark, begun: bool)
    requires Inv(v) && Before(v.mark, m) && LevelLeft(v, begun) && Arrive(v, m).Fine?
    ensures var w := Arrive(v, m).v;
            LevelLeft(w, if v.mark.line < m.line then v.flow == 0 else begun)
            && (v.flow > 0 ==> w.indent == v.indent)
  {
    hide KeyOk, Run, Sorted, UpTo, Placed, Close, Increasing;
    Grounded(v);
    ArriveKeeps(v, m);
    var u := Stale(Come(v, m)).v;
    CloseKeeps(u, m.column);
    CloseLevel(u, m.column);
  }

  lemma {:induction false} ResetLevel(v: View, x: Lexeme)
    requires Inv(v) && v.mark.column == 0 && Sound(v) && FetchReset(v, x).Fine?
    ensures FetchReset(v, x).v.indent == if v.flow == 0 then -1 else v.indent
  {
    hide KeyOk, Run, Sorted, UpTo, Placed, Close, Increasing;
    CloseKeeps(v, -1);
    Grounded(v);
    if v.flow == 0 {
      var c, over := CloseAll(v);
    } else {
      CloseLevel(v, -1);
    }
  }

  lemma {:induction false} MakeKeyLevel(v: View, x: Lexeme)
    requires At(v, x) && Sound(v) && Last(v.keys).possible
    ensures MakeKey(v, Last(v.keys)).indent <= v.indent || MakeKey(v, Last(v.keys)).indent < x.start.column
  {
    hide KeyNests, Run, Sorted, UpTo, Placed, Insert;
    assert KeyOk(v, v.flow);
  }

  /** A lexeme does not move the level beyond its column. */
  lemma {:induction false} DispatchLevel(v: View, x: Lexeme)
    requires At(v, x) && Sound(v) && Dispatch(v, x).Fine?
    ensures var w := Dispatch(v, x).v; w.indent <= v.indent || w.indent <= x.start.column
    ensures Resets(x.token) && v.flow == 0 ==> Dispatch(v, x).v.indent == -1
    ensures x.form != Ordinary ==> Dispatch(v, x).v.allowed && Dispatch(v, x).v.flow == v.flow
  {
    hide KeyOk, Run, Sorted, UpTo, Placed, MakeKey, FetchReset;
    if Resets(x.token) {
      Grounded(v);
      ResetLevel(v, x);
    } else if x.token.ValueToken? && Last(v.keys).possible {
      MakeKeyLevel(v, x);
    }
  }

  lemma {:induction false} FetchLevel(v: View, x: Lexeme, begun: bool)
    requires Inv(v) && Sound(v) && GoodLexeme(x) && Before(v.mark, x.start) && LevelLeft(v, begun) && Fetch(v, x).Fine?
    ensures var at := if v.mark.line < x.start.line then v.flow == 0 else begun;
            LevelLeft(Fetch(v, x).v,
                      if x.start.line < x.end.line then (x.form != Ordinary || Resets(x.token)) && v.flow == 0 else at)
  {
    hide Inv, Arrive, Dispatch;
    ArriveKeeps(v, x.start);
    ArriveLevel(v, x.start, begun);
    MarkAfter(v, x);
    var u := Arrive(v, x.start).v;
    DispatchLevel(u, x);
    Below(u, x);
  }

  lemma {:induction false} Below(v: View, x: Lexeme)
    requires At(v, x)
    ensures v.flow == 0 ==> v.indent <= x.start.column
  {
  }

  lemma {:induction false} AllLevels(input: seq<Lexeme>, last: Mark, i: nat)
    requires GoodInput(input, last) && i <= |input| && FetchAll(input, last, i).Fine?
    ensures LevelLeft(FetchAll(input, last, i).v, Begun(input, i))
    decreases i
  {
    hide Inv, Fetch, Stale, FetchAll, Sound, GoodInput, GoodLexeme;
    if i == 0 {
      FetchNone(input, last);
    } else {
      OneMore(input, last, i);
      AllLevels(input, last, i - 1);
      AllDepth(input, last, i - 1);
      FetchLevel(FetchAll(input, last, i - 1).v, input[i - 1], Begun(input, i - 1));
    }
  }

  // ----- the assertion -----

  /** The lexemes that save a key. */
  predicate Saves(x: Lexeme) {
    Opens(x.token) || x.token.AliasToken? || x.token.AnchorToken? || x.token.TagToken?
    || (x.token.ScalarToken? && x.form != BlockForm)
  }

  /** With the scanner at a lexeme the assertion fails exactly where one that may be a key stands at
      the level of the block context and no key is allowed. */
  lemma {:induction false} FailsExactly(v: View, x: Lexeme)
    requires Sound(v) && GoodLexeme(x)
    ensures Dispatch(v, x) == Wrong(AssertionFailed) <==>
              Saves(x) && v.flow == 0 && v.indent == v.mark.column && !v.allowed
  {
    hide MakeKey, Close, Roll;
  }

  lemma {:induction false} ArriveHolds(v: View, m: Mark)
    ensures Arrive(v, m) != Wrong(AssertionFailed)
  {
  }

  /** The assertion fails only at a lexeme in the block context whose line began inside a flow
      collection or a token. */
  lemma {:induction false} FailsOnlyThere(input: seq<Lexeme>, last: Mark, i: nat)
    requires GoodInput(input, last) && i < |input| && FetchAll(input, last, i).Fine?
    requires FetchAll(input, last, i + 1) == Wrong(AssertionFailed)
    ensures Saves(input[i]) && Depth(input, i) == 0 && !BegunAt(input, i)
  {
    hide Inv, Arrive, Dispatch, Sound;
    var v, x := FetchAll(input, last, i).v, input[i];
    FetchSettled(v, x);
    SettleHolds(v, x);
    AllLevels(input, last, i);
    AllDepth(input, last, i);
    ArriveHolds(v, x.start);
    ArriveKeeps(v, x.start);
    var u := Arrive(v, x.start).v;
    ArriveLevel(v, x.start, Begun(input, i));
    ArriveSound(v, x.start);
    FailsExactly(u, x);
  }

  lemma {:induction false} ArriveSound(v: View, m: Mark)
    requires Sound(v)
    ensures Arrive(v, m).Fine? ==> Sound(Arrive(v, m).v)
  {
  }

  lemma {:induction false} SettleHolds(v: View, x: Lexeme)
    requires Sound(v)
    ensures Settle(Fetch(v, x)) == Wrong(AssertionFailed) ==> Fetch(v, x) == Wrong(AssertionFailed)
  {
  }

  /** " - [", a line break, "]b": the scalar b stands at the column of the sequence, but a flow
      collection has just ended and no key is allowed. */
  const Dash := Lexeme(BlockEntryToken, Ordinary, Mark(1, 0, 1), Mark(2, 0, 2))
  const LeftBracket := Lexeme(FlowSequenceStartToken, Ordinary, Mark(3, 0, 3), Mark(4, 0, 4))
  const RightBracket := Lexeme(FlowSequenceEndToken, Ordinary, Mark(5, 1, 0), Mark(6, 1, 1))
  const Letter := Lexeme(ScalarToken, Ordinary, Mark(6, 1, 1), Mark(7, 1, 2))

  ghost const Begin: seq<Marked> :=
    [Start.all[0], Marked(BlockSequenceStartToken, Mark(1, 0, 1), Mark(1, 0, 1)), Mk(Dash)]
  ghost const AfterDash := View(Begin, [NoKey], [-1], 1, 0, true, Mark(2, 0, 2))
  ghost const BracketKey := SimpleKey(true, false, 3, Mark(3, 0, 3))
  ghost const AfterLeft := View(Begin + [Mk(LeftBracket)], [BracketKey, NoKey], [-1], 1, 1, true, Mark(4, 0, 4))
  ghost const AfterRight :=
    View(Begin + [Mk(LeftBracket), Mk(RightBracket)], [Gone(BracketKey)], [-1], 1, 0, false, Mark(6, 1, 1))

  /** No key is out of date. */
  lemma {:induction false} NoneOld(v: View)
    requires forall i :: 0 <= i < |v.keys| ==> !Old(v.keys[i], v.mark)
    ensures Stale(v) == Fine(v)
  {
    assert forall i :: 0 <= i < |v.keys| ==> (if Old(v.keys[i], v.mark) then Gone(v.keys[i]) else v.keys[i]) == v.keys[i];
    if Stale(v).Fine? {
      assert Stale(v).v.keys == v.keys;
    }
  }

  lemma {:induction false} DashFetched()
    ensures Sound(Start) && Settle(Fetch(Start, Dash)) == Fine(AfterDash)
  {
    NoneOld(Come(Start, Dash.start));
    NoneOld(AfterDash);
    var v := Come(Start, Dash.start);
    assert Close(v, 1) == v;
    assert Fetch(Start, Dash) == FetchBlockEntry(v, Dash);
    assert Roll(v, 1, BlockSequenceStartToken).all + [Mk(Dash)] == Begin;
    assert Roll(v, 1, BlockSequenceStartToken).indents == [-1];
    assert Roll(v, 1, BlockSequenceStartToken).keys[0 := Gone(NoKey)] == [NoKey];
  }

  lemma {:induction false} LeftFetched()
    ensures Sound(AfterDash) && Settle(Fetch(AfterDash, LeftBracket)) == Fine(AfterLeft)
  {
    NoneOld(Come(AfterDash, LeftBracket.start));
    NoneOld(AfterLeft);
    var v := Come(AfterDash, LeftBracket.start);
    assert Close(v, 3) == v;
    assert Fetch(AfterDash, LeftBracket) == FetchFlowStart(v, LeftBracket);
    assert Save(v).Fine? && Save(v).v.keys == [BracketKey];
    assert [BracketKey] + [NoKey] == [BracketKey, NoKey];
  }

  lemma {:induction false} RightFetched()
    ensures Sound(AfterLeft) && Settle(Fetch(AfterLeft, RightBracket)) == Fine(AfterRight)
  {
    var v := Come(AfterLeft, RightBracket.start);
    assert Stale(v).Fine? && Stale(v).v.keys == [Gone(BracketKey), NoKey];
    var w := v.(keys := [Gone(BracketKey), NoKey]);
    assert Stale(v) == Fine(w) && Close(w, 0) == w;
    assert Fetch(AfterLeft, RightBracket) == FetchFlowEnd(w, RightBracket);
    assert Drop(w).Fine? && Drop(w).v.keys == [Gone(BracketKey), NoKey];
    assert [Gone(BracketKey), NoKey][..1] == [Gone(BracketKey)];
    assert w.all + [Mk(RightBracket)] == AfterRight.all;
    NoneOld(AfterRight);
  }

  lemma {:induction false} LetterFails()
    ensures Sound(AfterRight) && Settle(Fetch(AfterRight, Letter)) == Wrong(AssertionFailed)
  {
    var v := Come(AfterRight, Letter.start);
    NoneOld(v);
    assert Close(v, 1) == v;
    assert Fetch(AfterRight, Letter) == FetchNode(v, Letter);
  }

  lemma {:induction false} ExampleFails()
    ensures var input, last := [Dash, LeftBracket, RightBracket, Letter], Mark(7, 1, 2);
            GoodInput(input, last) && FetchAll(input, last, 4) == Wrong(AssertionFailed)
  {
    hide Inv, Fetch, Settle, Sound, FetchAll;
    var input, last := [Dash, LeftBracket, RightBracket, Letter], Mark(7, 1, 2);
    FetchNone(input, last);
    DashFetched();
    Unfold(input, last, 1);
    LeftFetched();
    Unfold(input, last, 2);
    RightFetched();
    Unfold(input, last, 3);
    LetterFails();
    Unfold(input, last, 4);
  }
}
