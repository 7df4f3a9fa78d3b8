/**
 * Whole runs of the scanner: the tokens of a text are its lexemes in order, with implied tokens that
 * nest by indentation; every KEY the scanner makes up has its VALUE on the same line; and the
 * assertion in the code holds unless a line begins inside a flow collection or a scalar.
 */
module YamlScanning {
  import opened YamlTokens
  import opened YamlQueue
  import opened YamlFetching
  import opened YamlNesting

  // ----- runs -----

  lemma {:induction false} DispatchMark(v: View, x: Lexeme)
    requires Sound(v) && GoodLexeme(x) && Dispatch(v, x).Fine?
    ensures var w := Dispatch(v, x).v;
            w.mark == x.end && w.flow == DepthAfter(x.token, v.flow) && |w.all| > |v.all|
  {
    hide FetchReset, FetchFlowStart, FetchFlowEnd, FetchFlowEntry, FetchBlockEntry, FetchKey, FetchValue, FetchNode;
  }

  lemma {:induction false} MarkAfter(v: View, x: Lexeme)
    requires Inv(v) && Before(v.mark, x.start) && GoodLexeme(x) && Sound(v) && Fetch(v, x).Fine?
    ensures Fetch(v, x).v.mark == x.end && Fetch(v, x).v.flow == DepthAfter(x.token, v.flow)
  {
    hide Arrive, Dispatch, KeyOk, Run, Sorted, UpTo, Placed, Rising;
    ArriveKeeps(v, x.start);
    var u := Arrive(v, x.start).v;
    LastNumber(u);
    DispatchMark(u, x);
  }

  /** The state after i lexemes, or the error met on the way. */
  function FetchAll(input: seq<Lexeme>, last: Mark, i: nat): (r: Fetched)
    requires GoodInput(input, last) && i <= |input|
    ensures r.Fine? ==> Inv(r.v) && Sound(r.v) && r.v.mark == EndOf(input, i)
    decreases i, 0
  {
    if i == 0 then (StartSettles(); Fine(Start))
    else
      match FetchAll(input, last, i - 1)
      case Wrong(p) => Wrong(p)
      case Fine(v) =>
        FetchSettled(v, input[i - 1]);
        Settle(Fetch(v, input[i - 1]))
  }

  lemma {:induction false} StartSettles()
    ensures Inv(Start) && Sound(Start) && Stale(Start) == Fine(Start)
  {
    StartKeeps();
    LastNumber(Start);
    assert forall i :: 0 <= i < |Start.keys| ==> !Old(Start.keys[i], Start.mark);
  }

  lemma {:induction false} FetchSettled(v: View, x: Lexeme)
    requires Inv(v) && GoodLexeme(x) && Before(v.mark, x.start)
    ensures Sound(v)
    ensures var r := Settle(Fetch(v, x)); r.Fine? ==> Inv(r.v) && Sound(r.v) && r.v.mark == x.end
  {
    hide Inv, Fetch, Stale;
    LastNumber(v);
    FetchKeeps(v, x);
    if Fetch(v, x).Fine? {
      MarkAfter(v, x);
      var w := Fetch(v, x).v;
      SettleKeeps(w);
      StaleKeeps(w);
      if Stale(w).Fine? {
        LastNumber(Stale(w).v);
      }
    }
  }

  /** The state after the end of the text. */
  function Tokens(input: seq<Lexeme>, last: Mark): (r: Fetched)
    requires GoodInput(input, last)
    ensures r.Fine? ==> Inv(r.v)
  {
    match FetchAll(input, last, |input|)
    case Wrong(p) => Wrong(p)
    case Fine(v) =>
      EndSettled(v, last);
      Settle(FetchEnd(v, last))
  }

  lemma {:induction false} EndSettled(v: View, last: Mark)
    requires Inv(v) && Before(v.mark, last)
    ensures Sound(v) && (Settle(FetchEnd(v, last)).Fine? ==> Inv(Settle(FetchEnd(v, last)).v))
  {
    hide Inv, FetchEnd, Stale;
    LastNumber(v);
    EndKeeps(v, last);
    if FetchEnd(v, last).Fine? {
      SettleKeeps(FetchEnd(v, last).v);
    }
  }

  /** One more lexeme. */
  lemma {:induction false} OneMore(input: seq<Lexeme>, last: Mark, i: nat)
    requires GoodInput(input, last) && 0 < i <= |input| && FetchAll(input, last, i).Fine?
    ensures FetchAll(input, last, i - 1).Fine?
    ensures var v, x := FetchAll(input, last, i - 1).v, input[i - 1];
            && GoodLexeme(x) && Before(v.mark, x.start) && Fetch(v, x).Fine? && Stale(Fetch(v, x).v).Fine?
            && FetchAll(input, last, i).v == Stale(Fetch(v, x).v).v
            && FetchAll(input, last, i).v == Fetch(v, x).v.(keys := FetchAll(input, last, i).v.keys)
  {
    hide Inv, Fetch, Sound;
    if FetchAll(input, last, i - 1).Fine? {
      FetchSettled(FetchAll(input, last, i - 1).v, input[i - 1]);
    }
  }

  // ----- what a fetch adds -----

  /** Implied tokens other than KEY. */
  predicate Silent(a: seq<Marked>) {
    forall i :: 0 <= i < |a| ==> Begins(a[i].token) || a[i].token.BlockEndToken?
  }

  lemma {:induction false} Closings(v: View, column: int) returns (c: seq<Marked>)
    ensures Close(v, column).all == v.all + c && Silent(c)
    decreases |v.indents|
  {
    if v.flow > 0 || v.indent <= column || v.indents == [] {
      c := [];
      assert v.all + [] == v.all;
    } else {
      var n := |v.indents| - 1;
      var w := v.(all := v.all + [BlockEnd(v)], indent := v.indents[n], indents := v.indents[..n]);
      c := Closings(w, column);
      assert w.all + c == v.all + ([BlockEnd(v)] + c);
      c := [BlockEnd(v)] + c;
    }
  }

  lemma {:induction false} AddedByReset(v: View, x: Lexeme) returns (c: seq<Marked>)
    requires Sound(v) && FetchReset(v, x).Fine?
    ensures Silent(c) && FetchReset(v, x).v.all == v.all + c + [Mk(x)]
  {
    hide Close;
    CloseKeeps(v, -1);
    c := Closings(v, -1);
  }

  /** A simple key is made, or silent tokens are put before the lexeme. */
  lemma {:induction false} Added(v: View, x: Lexeme) returns (c: seq<Marked>)
    requires Sound(v) && Dispatch(v, x).Fine? && GoodLexeme(x)
    ensures Silent(c)
    ensures var a := Dispatch(v, x).v.all;
            if x.token.ValueToken? && Last(v.keys).possible then a == MakeKey(v, Last(v.keys)).all + [Mk(x)]
            else a == v.all + c + [Mk(x)]
  {
    hide MakeKey, FetchReset;
    c := [];
    assert v.all + [] == v.all;
    if Resets(x.token) {
      c := AddedByReset(v, x);
    } else if (x.token.BlockEntryToken? || x.token.KeyToken? || x.token.ValueToken?) && v.flow == 0 && v.indent < v.mark.column {
      c := [Marked(if x.token.BlockEntryToken? then BlockSequenceStartToken else BlockMappingStartToken, v.mark, v.mark)];
    }
  }

  // ----- the tokens of the text -----

  lemma {:induction false} SilentWritten(a: seq<Marked>, c: seq<Marked>)
    requires Silent(c)
    ensures Written(a + c) == Written(a)
    decreases |c|
  {
    if c == [] {
      assert a + c == a;
    } else {
      var d := c[..|c| - 1];
      SilentWritten(a, d);
      assert a + c == a + d + [c[|c| - 1]];
      WrittenPut(a + d, c[|c| - 1]);
    }
  }

  lemma {:induction false} MakeKeyWritten(v: View, k: SimpleKey)
    requires v.keys != [] && k.number <= |v.all|
    ensures Written(MakeKey(v, k).all) == Written(v.all)
  {
    hide Written, Insert;
    InsertWritten(v.all, k.number, KeyOf(k));
    InsertWritten(Insert(v.all, k.number, KeyOf(k)), k.number, MappingOf(k));
  }

  lemma {:induction false} DispatchWritten(v: View, x: Lexeme)
    requires Sound(v) && GoodLexeme(x) && Dispatch(v, x).Fine?
    ensures Written(Dispatch(v, x).v.all) == Written(v.all) + [x.token]
  {
    hide Dispatch, MakeKey, Written;
    var c := Added(v, x);
    OnePlaced(x);
    if x.token.ValueToken? && Last(v.keys).possible {
      MakeKeyWritten(v, Last(v.keys));
      WrittenPut(MakeKey(v, Last(v.keys)).all, Mk(x));
    } else {
      SilentWritten(v.all, c);
      WrittenPut(v.all + c, Mk(x));
    }
  }

  lemma {:induction false} ArriveAll(v: View, m: Mark) returns (c: seq<Marked>)
    requires Arrive(v, m).Fine?
    ensures Silent(c) && Arrive(v, m).v.all == v.all + c
  {
    hide Close;
    c := Closings(Stale(Come(v, m)).v, m.column);
  }

  lemma {:induction false} FetchWritten(v: View, x: Lexeme)
    requires Sound(v) && GoodLexeme(x) && Fetch(v, x).Fine?
    ensures Written(Fetch(v, x).v.all) == Written(v.all) + [x.token]
  {
    hide Arrive, Dispatch, Written;
    var c := ArriveAll(v, x.start);
    SilentWritten(v.all, c);
    DispatchWritten(Arrive(v, x.start).v, x);
  }

  lemma {:induction false} SettledAll(v: View)
    ensures Stale(v).Fine? ==> Stale(v).v == v.(keys := Stale(v).v.keys)
  {
  }

  function Lexed(input: seq<Lexeme>): seq<Token> {
    seq(|input|, i requires 0 <= i < |input| => input[i].token)
  }

  lemma {:induction false} FetchNone(input: seq<Lexeme>, last: Mark)
    requires GoodInput(input, last)
    ensures FetchAll(input, last, 0) == Fine(Start)
  {
  }

  lemma {:induction false} AllWritten(input: seq<Lexeme>, last: Mark, i: nat)
    requires GoodInput(input, last) && i <= |input| && FetchAll(input, last, i).Fine?
    ensures Written(FetchAll(input, last, i).v.all) == [StreamStartToken] + Lexed(input[..i])
    decreases i
  {
    hide Written, Inv, Fetch, Stale, FetchAll, Sound, GoodInput, GoodLexeme;
    if i == 0 {
      FetchNone(input, last);
      WrittenPut([], Start.all[0]);
      WrittenNone();
      assert [] + [Start.all[0]] == Start.all;
      assert Lexed(input[..0]) == [];
    } else {
      OneMore(input, last, i);
      AllWritten(input, last, i - 1);
      var v := FetchAll(input, last, i - 1).v;
      FetchWritten(v, input[i - 1]);
      assert Lexed(input[..i]) == Lexed(input[..i - 1]) + [input[i - 1].token];
    }
  }

  lemma {:induction false} WrittenNone()
    ensures Written([]) == []
  {
  }

  // ----- keys and values -----

  predicate IsKey(t: Marked) {
    t.token.KeyToken? && t.start == t.end
  }

  /** A value on the line of the key, at most 1024 characters on. */
  predicate Answers(k: Marked, t: Marked) {
    t.token.ValueToken? && t.start.line == k.start.line && t.start.index <= k.start.index + 1024
  }

  predicate AnsweredAt(a: seq<Marked>, i: nat)
    requires i < |a|
  {
    exists j :: i < j < |a| && Answers(a[i], a[j])
  }

  /** Every KEY that the scanner has made up comes before such a value. */
  predicate Answered(a: seq<Marked>) {
    forall i: nat :: i < |a| && IsKey(a[i]) ==> AnsweredAt(a, i)
  }

  lemma {:induction false} AnsweredPut(a: seq<Marked>, c: seq<Marked>)
    requires Answered(a) && forall i :: 0 <= i < |c| ==> !IsKey(c[i])
    ensures Answered(a + c)
  {
    forall i: nat | i < |a + c| && IsKey((a + c)[i])
      ensures AnsweredAt(a + c, i)
    {
      assert i < |a| && AnsweredAt(a, i);
      var j :| i < j < |a| && Answers(a[i], a[j]);
      assert (a + c)[j] == a[j];
    }
  }

  lemma {:induction false} AnsweredInsert(a: seq<Marked>, n: nat, t: Marked)
    requires Answered(a) && n <= |a|
    requires IsKey(t) ==> exists j :: n <= j < |a| && Answers(t, a[j])
    ensures Answered(Insert(a, n, t))
  {
    var r := Insert(a, n, t);
    forall i: nat | i < |r| && IsKey(r[i])
      ensures AnsweredAt(r, i)
    {
      if i == n {
        var j :| n <= j < |a| && Answers(t, a[j]);
        assert r[j + 1] == a[j];
      } else {
        var i' := if i < n then i else i - 1;
        assert r[i] == a[i'] && AnsweredAt(a, i');
        var j :| i' < j < |a| && Answers(a[i'], a[j]);
        assert r[if j < n then j else j + 1] == a[j];
      }
    }
  }

  lemma {:induction false} InsertLast(a: seq<Marked>, n: nat, t: Marked, u: Marked)
    requires n <= |a|
    ensures Insert(a, n, t) + [u] == Insert(a + [u], n, t)
  {
  }

  lemma {:induction false} MakeKeyAnswered(v: View, k: SimpleKey, x: Lexeme)
    requires v.keys != [] && k.number <= |v.all| && Answered(v.all) && x.token.ValueToken?
    requires x.start.line == k.mark.line && x.start.index <= k.mark.index + 1024
    ensures Answered(MakeKey(v, k).all + [Mk(x)])
  {
    hide Insert, Answered;
    var a, n := v.all + [Mk(x)], k.number;
    AnsweredPut(v.all, [Mk(x)]);
    assert Answers(KeyOf(k), a[|v.all|]);
    AnsweredInsert(a, n, KeyOf(k));
    InsertLast(v.all, n, KeyOf(k), Mk(x));
    AnsweredInsert(Insert(a, n, KeyOf(k)), n, MappingOf(k));
    InsertLast(Insert(v.all, n, KeyOf(k)), n, MappingOf(k), Mk(x));
  }

  /** Keys that are possible are near. */
  predicate Near(v: View) {
    forall i :: 0 <= i < |v.keys| && v.keys[i].possible ==>
      v.keys[i].mark.line >= v.mark.line && v.mark.index <= v.keys[i].mark.index + 1024
  }

  lemma {:induction false} ArriveNear(v: View, m: Mark)
    ensures Arrive(v, m).Fine? ==> Near(Arrive(v, m).v)
  {
    if Arrive(v, m).Fine? {
      CloseKeeps(Stale(Come(v, m)).v, m.column);
    }
  }

  lemma {:induction false} DispatchAnswered(v: View, x: Lexeme)
    requires At(v, x) && Sound(v) && Near(v) && Answered(v.all) && Dispatch(v, x).Fine?
    ensures Answered(Dispatch(v, x).v.all)
  {
    hide Dispatch, MakeKey, Answered, Inv;
    var c := Added(v, x);
    if x.token.ValueToken? && Last(v.keys).possible {
      MakeKeyAnswered(v, Last(v.keys), x);
    } else {
      OnePlaced(x);
      AnsweredPut(v.all, c + [Mk(x)]);
      assert v.all + (c + [Mk(x)]) == v.all + c + [Mk(x)];
    }
  }

  lemma {:induction false} FetchAnswered(v: View, x: Lexeme)
    requires Inv(v) && Sound(v) && GoodLexeme(x) && Before(v.mark, x.start) && Answered(v.all) && Fetch(v, x).Fine?
    ensures Answered(Fetch(v, x).v.all)
  {
    hide Arrive, Dispatch, Answered, Inv;
    var c := ArriveAll(v, x.start);
    AnsweredPut(v.all, c);
    ArriveKeeps(v, x.start);
    ArriveNear(v, x.start);
    DispatchAnswered(Arrive(v, x.start).v, x);
  }

  lemma {:induction false} StartAnswered(input: seq<Lexeme>, last: Mark)
    requires GoodInput(input, last)
    ensures Answered(FetchAll(input, last, 0).v.all)
  {
    FetchNone(input, last);
  }

  lemma {:induction false} AllAnswered(input: seq<Lexeme>, last: Mark, i: nat)
    requires GoodInput(input, last) && i <= |input| && FetchAll(input, last, i).Fine?
    ensures Answered(FetchAll(input, last, i).v.all)
    decreases i
  {
    hide Inv, Fetch, Stale, FetchAll, Sound, GoodInput, GoodLexeme, Answered;
    if i == 0 {
      StartAnswered(input, last);
    } else {
      OneMore(input, last, i);
      AllAnswered(input, last, i - 1);
      var v := FetchAll(input, last, i - 1).v;
      FetchAnswered(v, input[i - 1]);
    }
  }

  // ----- the theorem -----

  /** How many flow collections are open after i lexemes. */
  function Depth(input: seq<Lexeme>, i: nat): nat
    requires i <= |input|
  {
    if i == 0 then 0 else DepthAfter(input[i - 1].token, Depth(input, i - 1))
  }

  lemma {:induction false} AllDepth(input: seq<Lexeme>, last: Mark, i: nat)
    requires GoodInput(input, last) && i <= |input| && FetchAll(input, last, i).Fine?
    ensures FetchAll(input, last, i).v.flow == Depth(input, i)
    decreases i
  {
    hide Inv, Fetch, Stale, FetchAll, Sound, GoodInput, GoodLexeme, Answered;
    if i == 0 {
      FetchNone(input, last);
    } else {
      OneMore(input, last, i);
      AllDepth(input, last, i - 1);
      var v := FetchAll(input, last, i - 1).v;
      MarkAfter(v, input[i - 1]);
    }
  }

  lemma {:induction false} EndAdds(v: View, last: Mark) returns (c: seq<Marked>, m: Mark)
    requires Sound(v) && FetchEnd(v, last).Fine?
    ensures Silent(c) && m == NewLine(last)
    ensures var w := FetchEnd(v, last).v;
            w.all == v.all + c + [Marked(StreamEndToken, m, m)] && w.flow == v.flow && w.mark == m
  {
    hide Arrive, Close;
    m := NewLine(last);
    var a := ArriveAll(v, last);
    var u := Arrive(v, last).v.(mark := m);
    ArriveFlow(v, last);
    CloseKeeps(u, -1);
    var b := AddedByReset(u, Lexeme(StreamEndToken, Ordinary, m, m));
    c := a + b;
    assert v.all + a + b == v.all + c;
  }

  lemma {:induction false} ArriveFlow(v: View, m: Mark)
    ensures Arrive(v, m).Fine? ==> Arrive(v, m).v.flow == v.flow
  {
    if Arrive(v, m).Fine? {
      CloseKeeps(Stale(Come(v, m)).v, m.column);
    }
  }

  /** At the end of the stream no block collection is open, unless a flow collection is. */
  lemma {:induction false} EndGrounded(v: View, a: seq<Marked>, m: Mark)
    requires Inv(v) && v.flow == 0 && v.all == a + [Marked(StreamEndToken, m, m)]
    ensures Run(Ground, v.all) == Some(Ground)
  {
    Grounded(v);
    RunPut(Ground, a, Marked(StreamEndToken, m, m));
    assert |v.indents + [v.indent]| == 1;
    assert v.indents + [v.indent] == [-1];
  }

  /** The tokens of a text are its lexemes in their order, with implied tokens in places where they
      serve; indentation nests; every KEY made up has its value; block collections are all closed
      unless a flow collection is left open. */
  lemma {:induction false} TokensRight(input: seq<Lexeme>, last: Mark)
    requires GoodInput(input, last) && Tokens(input, last).Fine?
    ensures var a := Tokens(input, last).v.all;
            && Written(a) == [StreamStartToken] + Lexed(input) + [StreamEndToken]
            && Sorted(a) && Placed(a) && Answered(a)
            && Run(Ground, a).Some? && Run(Ground, a).value.depth == Depth(input, |input|)
            && (Depth(input, |input|) == 0 ==> Run(Ground, a) == Some(Ground))
  {
    hide Written, Answered, KeyOk, Run, FetchEnd, Stale, FetchAll;
    var v, w := FetchAll(input, last, |input|).v, Tokens(input, last).v;
    EndSettled(v, last);
    var c, m := EndAdds(v, last);
    var t := Marked(StreamEndToken, m, m);
    SettledAll(FetchEnd(v, last).v);
    AllWritten(input, last, |input|);
    AllAnswered(input, last, |input|);
    AllDepth(input, last, |input|);
    assert input[..|input|] == input;
    SilentWritten(v.all, c);
    WrittenPut(v.all + c, t);
    AnsweredPut(v.all, c + [t]);
    assert v.all + (c + [t]) == v.all + c + [t];
    if w.flow == 0 {
      EndGrounded(w, v.all + c, m);
    }
  }

  // ----- one step of a run -----

  lemma {:induction false} Unfold(input: seq<Lexeme>, last: Mark, i: nat)
    requires GoodInput(input, last) && 0 < i <= |input| && FetchAll(input, last, i - 1).Fine?
    ensures var v, x := FetchAll(input, last, i - 1).v, input[i - 1];
            && Inv(v) && Sound(v) && GoodLexeme(x) && Before(v.mark, x.start) && FetchAll(input, last, i) == Settle(Fetch(v, x))
  {
    hide Inv, Fetch, Settle, Sound;
  }

  lemma {:induction false} UnfoldEnd(input: seq<Lexeme>, last: Mark)
    requires GoodInput(input, last) && FetchAll(input, last, |input|).Fine?
    ensures var v := FetchAll(input, last, |input|).v;
            Inv(v) && Sound(v) && Before(v.mark, last) && Tokens(input, last) == Settle(FetchEnd(v, last))
  {
    hide Inv, FetchAll, FetchEnd, Settle, Sound;
  }

  lemma {:induction false} StaleTwice(v: View)
    ensures Stale(v).Fine? ==> Stale(Stale(v).v) == Stale(v)
  {
    if Stale(v).Fine? {
      var w := Stale(v).v;
      assert forall i :: 0 <= i < |w.keys| ==> !Old(w.keys[i], w.mark);
      if Stale(w).Fine? {
        assert Stale(w).v.keys == w.keys;
      }
    }
  }

  /** Nothing is out of date between two tokens. */
  lemma {:induction false} AllSettled(input: seq<Lexeme>, last: Mark, i: nat)
    requires GoodInput(input, last) && i <= |input| && FetchAll(input, last, i).Fine?
    ensures Stale(FetchAll(input, last, i).v) == FetchAll(input, last, i)
  {
    hide Inv, Fetch, Stale, Sound, FetchAll, GoodInput, GoodLexeme;
    if i == 0 {
      FetchNone(input, last);
      StartSettles();
    } else {
      OneMore(input, last, i);
      StaleTwice(Fetch(FetchAll(input, last, i - 1).v, input[i - 1]).v);
    }
  }

  lemma {:induction false} TokensSettled(input: seq<Lexeme>, last: Mark)
    requires GoodInput(input, last) && Tokens(input, last).Fine?
    ensures Stale(Tokens(input, last).v) == Tokens(input, last)
  {
    hide Inv, FetchEnd, Stale, Sound, FetchAll;
    EndSettled(FetchAll(input, last, |input|).v, last);
    StaleTwice(FetchEnd(FetchAll(input, last, |input|).v, last).v);
  }

  lemma {:induction false} WrongNext(input: seq<Lexeme>, last: Mark, i: nat)
    requires GoodInput(input, last) && i <= |input| && FetchAll(input, last, i).Wrong?
    ensures i < |input| ==> FetchAll(input, last, i + 1) == FetchAll(input, last, i)
    ensures i == |input| ==> Tokens(input, last) == FetchAll(input, last, i)
  {
    hide Inv, Fetch, FetchEnd, Settle, Sound;
  }

  /** A problem is the outcome of the whole run. */
  lemma {:induction false} Wrongs(input: seq<Lexeme>, last: Mark, i: nat)
    requires GoodInput(input, last) && i <= |input| && FetchAll(input, last, i).Wrong?
    ensures Tokens(input, last) == FetchAll(input, last, i)
    decreases |input| - i
  {
    hide FetchAll, Tokens, GoodInput, Inv, Sound;
    WrongNext(input, last, i);
    if i < |input| {
      Wrongs(input, last, i + 1);
    }
  }

  /** After the end of the text no key is possible, and the end of the stream is the last token. */
  lemma {:induction false} NothingAfter(input: seq<Lexeme>, last: Mark)
    requires GoodInput(input, last) && Tokens(input, last).Fine?
    ensures var v := Tokens(input, last).v;
            && v.all != [] && Last(v.all).token == StreamEndToken
            && forall i :: 0 <= i < |v.keys| ==> !v.keys[i].possible
  {
    hide FetchAll, FetchEnd, KeyNests, Run, Sorted, UpTo, Placed;
    var v := FetchAll(input, last, |input|).v;
    EndSettled(v, last);
    EndKeeps(v, last);
    var c, m := EndAdds(v, last);
    var w := FetchEnd(v, last).v;
    SettledAll(w);
    forall i: nat | i < |w.keys| && w.keys[i].possible
      ensures Old(w.keys[i], w.mark)
    {
      assert KeyOk(w, i);
    }
  }

  // ----- the numbers of keys -----

  predicate NumbersFrom(keys: seq<SimpleKey>, n: nat) {
    forall i :: 0 <= i < |keys| && keys[i].possible ==> n <= keys[i].number
  }

  lemma {:induction false} ArriveNumbers(v: View, m: Mark, n: nat)
    requires NumbersFrom(v.keys, n) && Arrive(v, m).Fine?
    ensures NumbersFrom(Arrive(v, m).v.keys, n) && |v.all| <= |Arrive(v, m).v.all|
  {
    CloseKeeps(Stale(Come(v, m)).v, m.column);
    SettledKeys(Come(v, m), Stale(Come(v, m)).v, n);
  }

  lemma {:induction false} SettledKeys(v: View, w: View, n: nat)
    requires Stale(v) == Fine(w) && NumbersFrom(v.keys, n)
    ensures NumbersFrom(w.keys, n)
  {
  }

  lemma {:induction false} SaveNumbers(v: View, n: nat)
    requires v.keys != [] && n <= |v.all| && NumbersFrom(v.keys, n)
    ensures Save(v).Fine? ==> NumbersFrom(Save(v).v.keys, n)
  {
  }

  lemma {:induction false} DropNumbers(v: View, n: nat)
    requires v.keys != [] && NumbersFrom(v.keys, n)
    ensures Drop(v).Fine? ==> NumbersFrom(Drop(v).v.keys, n)
  {
  }

  lemma {:induction false} FlowNumbers(v: View, x: Lexeme, n: nat)
    requires v.keys != [] && n <= |v.all| && NumbersFrom(v.keys, n)
    ensures FetchFlowStart(v, x).Fine? ==> NumbersFrom(FetchFlowStart(v, x).v.keys, n)
    ensures FetchFlowEnd(v, x).Fine? ==> NumbersFrom(FetchFlowEnd(v, x).v.keys, n)
  {
    hide Save;
    SaveNumbers(v, n);
    DropNumbers(v, n);
    if Drop(v).Fine? && v.flow > 0 {
      var d := Drop(v).v.keys;
      assert forall i :: 0 <= i < |d| - 1 ==> d[..|d| - 1][i] == d[i];
    }
  }

  lemma {:induction false} ResetNumbers(v: View, x: Lexeme, n: nat)
    requires v.keys != [] && NumbersFrom(v.keys, n)
    ensures FetchReset(v, x).Fine? ==> NumbersFrom(FetchReset(v, x).v.keys, n)
  {
    hide Close, Drop, NumbersFrom;
    CloseKeeps(v, -1);
    DropNumbers(Close(v, -1), n);
  }

  lemma {:induction false} EntryNumbers(v: View, x: Lexeme, n: nat)
    requires v.keys != [] && NumbersFrom(v.keys, n)
    ensures FetchBlockEntry(v, x).Fine? ==> NumbersFrom(FetchBlockEntry(v, x).v.keys, n)
    ensures FetchKey(v, x).Fine? ==> NumbersFrom(FetchKey(v, x).v.keys, n)
    ensures FetchFlowEntry(v, x).Fine? ==> NumbersFrom(FetchFlowEntry(v, x).v.keys, n)
  {
    hide Drop, NumbersFrom;
    DropNumbers(v, n);
    DropNumbers(Roll(v, v.mark.column, BlockSequenceStartToken), n);
    DropNumbers(Roll(v, v.mark.column, BlockMappingStartToken), n);
  }

  lemma {:induction false} ValueNumbers(v: View, x: Lexeme, n: nat)
    requires v.keys != [] && (Last(v.keys).possible ==> Last(v.keys).number <= |v.all|) && NumbersFrom(v.keys, n)
    ensures FetchValue(v, x).Fine? ==> NumbersFrom(FetchValue(v, x).v.keys, n)
  {
  }

  lemma {:induction false} NodeNumbers(v: View, x: Lexeme, n: nat)
    requires v.keys != [] && n <= |v.all| && NumbersFrom(v.keys, n)
    ensures FetchNode(v, x).Fine? ==> NumbersFrom(FetchNode(v, x).v.keys, n)
  {
    hide Save, Drop;
    SaveNumbers(v, n);
    DropNumbers(v, n);
  }

  lemma {:induction false} DispatchNumbers(v: View, x: Lexeme, n: nat)
    requires Sound(v) && GoodLexeme(x) && n <= |v.all| && NumbersFrom(v.keys, n) && Dispatch(v, x).Fine?
    ensures NumbersFrom(Dispatch(v, x).v.keys, n) && |v.all| < |Dispatch(v, x).v.all|
  {
    hide FetchReset, FetchFlowStart, FetchFlowEnd, FetchFlowEntry, FetchBlockEntry, FetchKey, FetchValue, FetchNode, NumbersFrom;
    DispatchMark(v, x);
    ResetNumbers(v, x, n);
    FlowNumbers(v, x, n);
    EntryNumbers(v, x, n);
    ValueNumbers(v, x, n);
    NodeNumbers(v, x, n);
  }

  lemma {:induction false} EndNumbers(v: View, last: Mark, n: nat)
    requires Sound(v) && n <= |v.all| && NumbersFrom(v.keys, n) && FetchEnd(v, last).Fine?
    ensures NumbersFrom(FetchEnd(v, last).v.keys, n) && n < |FetchEnd(v, last).v.all|
  {
    hide Arrive, FetchReset, NumbersFrom;
    ArriveNumbers(v, last, n);
    var m := NewLine(last);
    ResetNumbers(Arrive(v, last).v.(mark := m), Lexeme(StreamEndToken, Ordinary, m, m), n);
  }
}
