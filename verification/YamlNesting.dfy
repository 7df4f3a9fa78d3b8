/**
 * What holds of the tokens after every lexeme: they are in the order of the text, every implied token
 * stands directly before what it is for, and the columns of the block collections nest.
 */
module YamlNesting {
  import opened YamlTokens
  import opened YamlQueue
  import opened YamlFetching

  // ----- the invariant -----

  function NestOf(v: View): Nest {
    Nest(v.indents + [v.indent], v.flow, false)
  }

  /** A key that is still possible is that of a token of the text before which one can be put in. */
  predicate KeyAt(v: View, k: SimpleKey) {
    && k.number < |v.all| && v.all[k.number].start == k.mark && !Implied(v.all[k.number])
    && (k.number > 0 ==> !Needs(v.all[k.number - 1]))
    && Passed(k.mark, v.mark)
  }

  /** Outside flow collections KEY can be put in because nothing after the key's first token has
      changed the block collections. */
  ghost predicate KeyNests(v: View, i: nat)
    requires i < |v.keys| && v.keys[i].number < |v.all|
  {
    var k := v.keys[i];
    var r := Run(Ground, v.all[..k.number]);
    if i == 0 then
      && r == Some(Nest(v.indents + [v.indent], 0, false)) && v.indent <= k.mark.column
      && Inert(v.all[k.number..], k.mark.column, v.flow)
    else r.Some? && r.value.depth > 0
  }

  ghost predicate KeyOk(v: View, i: nat)
    requires i < |v.keys|
  {
    v.keys[i].possible ==> KeyAt(v, v.keys[i]) && KeyNests(v, i)
  }

  predicate Rising(keys: seq<SimpleKey>) {
    forall i, j :: 0 <= i < j < |keys| && keys[i].possible && keys[j].possible ==> keys[i].number < keys[j].number
  }

  /** In the block context no other key is allowed on the line of a possible one. */
  predicate Quiet(v: View)
    requires v.keys != []
  {
    v.flow == 0 && v.keys[0].possible && v.keys[0].mark.line == v.mark.line ==> !v.allowed
  }

  ghost predicate Inv(v: View) {
    && Sorted(v.all) && UpTo(v.all, v.mark) && Placed(v.all)
    && Run(Ground, v.all) == Some(NestOf(v))
    && |v.keys| == v.flow + 1 && Rising(v.keys) && Quiet(v)
    && forall i: nat :: i < |v.keys| ==> KeyOk(v, i)
  }

  // ----- tokens at the end -----

  predicate AllAt(x: seq<Marked>, m: Mark) {
    forall i :: 0 <= i < |x| ==> x[i].start == m
  }

  lemma {:induction false} PutSorted(a: seq<Marked>, x: seq<Marked>, m: Mark)
    requires Sorted(a) && UpTo(a, m) && AllAt(x, m)
    ensures Sorted(a + x)
  {
  }

  lemma {:induction false} PutPlaced(a: seq<Marked>, x: seq<Marked>)
    requires Placed(a) && Placed(x)
    ensures Placed(a + x)
  {
    forall i | 0 <= i < |a + x| && Needs((a + x)[i])
      ensures i + 1 < |a + x| && Serves((a + x)[i], (a + x)[i + 1])
    {
      if i >= |a| {
        assert x[i - |a|] == (a + x)[i] && x[i - |a| + 1] == (a + x)[i + 1];
      } else {
        assert a[i + 1] == (a + x)[i + 1];
      }
    }
  }

  /** Tokens that change the depth of flow collections alone. */
  ghost predicate Harmless(x: seq<Marked>, from: nat, to: nat, col: int) {
    forall s: seq<int> :: s != [] && s[|s| - 1] <= col ==> Run(Nest(s, from, false), x) == Some(Nest(s, to, false))
  }

  lemma {:induction false} StaysInert(a: seq<Marked>, x: seq<Marked>, col: int, from: nat, to: nat)
    requires Inert(a, col, from) && Harmless(x, from, to, col)
    ensures Inert(a + x, col, to)
  {
    forall s: seq<int> | s != [] && s[|s| - 1] <= col
      ensures Run(Nest(s, 0, false), a + x) == Some(Nest(s, to, false))
    {
      RunJoin(Nest(s, 0, false), a, x);
    }
  }

  /** A key that stays possible while the tokens x are put. */
  ghost predicate Stays(v: View, w: View, x: seq<Marked>, i: nat)
    requires i < |v.keys|
  {
    i == 0 ==> w.indents == v.indents && w.indent == v.indent && Harmless(x, v.flow, w.flow, v.keys[i].mark.column)
  }

  lemma {:induction false} KeyStays(v: View, w: View, x: seq<Marked>, i: nat)
    requires i < |v.keys| && i < |w.keys| && v.keys[i] == w.keys[i] && v.keys[i].possible && KeyOk(v, i)
    requires w.all == v.all + x && Before(v.mark, w.mark) && Stays(v, w, x, i)
    ensures KeyOk(w, i)
  {
    hide Run, Inert, Harmless, Implied, Needs;
    var n := v.keys[i].number;
    assert w.all[..n] == v.all[..n];
    assert w.all[n..] == v.all[n..] + x;
    if i == 0 {
      StaysInert(v.all[n..], x, v.keys[i].mark.column, v.flow, w.flow);
    }
  }

  /** A key saved for the first of the tokens x. */
  ghost predicate IsNew(v: View, w: View, x: seq<Marked>, i: nat)
    requires i < |w.keys|
  {
    var k := w.keys[i];
    && k.number == |v.all| && k.mark == v.mark && x != [] && !Implied(x[0]) && Passed(v.mark, w.mark)
    && i == v.flow
    && (v.flow == 0 ==>
          w.indents == v.indents && w.indent == v.indent && v.indent <= k.mark.column && Harmless(x, 0, w.flow, k.mark.column))
  }

  lemma {:induction false} KeyNew(v: View, w: View, x: seq<Marked>, i: nat)
    requires Inv(v) && i < |w.keys| && w.all == v.all + x && AllAt(x, v.mark) && IsNew(v, w, x, i)
    ensures KeyOk(w, i)
  {
    hide Run, Harmless, Sorted, UpTo;
    var n := |v.all|;
    assert w.all[..n] == v.all && w.all[n..] == x;
    assert x[0] == w.all[n];
    if i == 0 {
      assert Inert(x, w.keys[i].mark.column, w.flow) by { InertIsHarmless(x, w.keys[i].mark.column, w.flow); }
    }
  }

  lemma {:induction false} InertIsHarmless(x: seq<Marked>, col: int, to: nat)
    requires Harmless(x, 0, to, col)
    ensures Inert(x, col, to)
  {
  }

  /** Tokens of the current place are put at the end. */
  lemma {:induction false} Append(v: View, w: View, x: seq<Marked>)
    requires Inv(v) && w.all == v.all + x && AllAt(x, v.mark) && Placed(x) && Before(v.mark, w.mark)
    requires Run(NestOf(v), x) == Some(NestOf(w))
    requires |w.keys| == w.flow + 1 && Rising(w.keys) && Quiet(w)
    requires forall i: nat :: i < |w.keys| && w.keys[i].possible ==>
               (i < |v.keys| && w.keys[i] == v.keys[i] && Stays(v, w, x, i)) || IsNew(v, w, x, i)
    ensures Inv(w)
  {
    hide Run, KeyNests, KeyAt, Harmless, IsNew, Stays;
    PutSorted(v.all, x, v.mark);
    PutPlaced(v.all, x);
    RunJoin(Ground, v.all, x);
    forall i: nat | i < |w.keys|
      ensures KeyOk(w, i)
    {
      if w.keys[i].possible {
        if IsNew(v, w, x, i) {
          KeyNew(v, w, x, i);
        } else {
          KeyStays(v, w, x, i);
        }
      }
    }
  }

  /** Keys may be given up. */
  lemma {:induction false} Fewer(v: View, w: View)
    requires Inv(v) && |w.keys| == |v.keys| && w == v.(keys := w.keys)
    requires forall i :: 0 <= i < |v.keys| ==> w.keys[i] == v.keys[i] || !w.keys[i].possible
    ensures Inv(w)
  {
    hide Run, Sorted, UpTo, Placed, Inert;
    forall i: nat | i < |w.keys|
      ensures KeyOk(w, i)
    {
      assert KeyOk(v, i);
    }
  }

  // ----- levels -----

  predicate Increasing(s: seq<int>) {
    s != [] && s[0] == -1 && forall i :: 0 < i < |s| ==> s[i - 1] < s[i]
  }

  /** The columns of open block collections grow from -1 on. */
  lemma {:induction false} LevelsGrow(a: seq<Marked>)
    ensures Run(Ground, a).Some? ==> Increasing(Run(Ground, a).value.levels)
    decreases |a|
  {
    if a != [] {
      LevelsGrow(a[..|a| - 1]);
    }
  }

  lemma {:induction false} Grounded(v: View)
    requires Inv(v)
    ensures Increasing(v.indents + [v.indent]) && (v.indents == [] ==> v.indent == -1) && v.indent >= -1
  {
    hide Run;
    LevelsGrow(v.all);
    AtLeast(v.indents + [v.indent]);
  }

  lemma {:induction false} AtLeast(s: seq<int>)
    requires Increasing(s)
    ensures s[|s| - 1] >= -1
  {
    if |s| > 1 { AtLeast(s[..|s| - 1]); }
  }

  // ----- on the way to a lexeme -----

  /** The scanner comes on; a key is allowed anew on a new line only. */
  lemma {:induction false} ComeKeeps(v: View, m: Mark, allowed: bool)
    requires Inv(v) && Before(v.mark, m) && (allowed ==> v.allowed || v.mark.line < m.line)
    ensures Inv(v.(mark := m, allowed := allowed))
  {
    hide Run, Inert, Sorted, Placed, Needs, Implied;
    var w := v.(mark := m, allowed := allowed);
    forall i: nat | i < |w.keys|
      ensures KeyOk(w, i)
    {
      assert KeyOk(v, i);
    }
    if v.keys[0].possible {
      assert KeyOk(v, 0);
    }
  }

  /** All keys that are possible are on this line. */
  predicate Fresh(v: View) {
    forall i :: 0 <= i < |v.keys| && v.keys[i].possible ==> v.keys[i].mark.line == v.mark.line
  }

  lemma {:induction false} StaleKeeps(v: View)
    requires Inv(v)
    ensures Stale(v).Fine? ==> Inv(Stale(v).v) && Fresh(Stale(v).v) && Stale(v).v == v.(keys := Stale(v).v.keys)
    ensures Stale(v).Fine? ==> |Stale(v).v.keys| == |v.keys|
  {
    hide KeyNests, Run;
    if Stale(v).Fine? {
      var w := Stale(v).v;
      Fewer(v, w);
      forall i | 0 <= i < |w.keys| && w.keys[i].possible
        ensures w.keys[i].mark.line == w.mark.line
      {
        assert KeyOk(w, i);
      }
    }
  }

  /** At a lexeme the levels to the right of it have been closed. */
  ghost predicate Ready(v: View) {
    Inv(v) && Fresh(v) && (v.flow == 0 ==> v.indent <= v.mark.column)
  }

  function BlockEnd(v: View): Marked {
    Marked(BlockEndToken, v.mark, v.mark)
  }

  lemma {:induction false} CloseReady(v: View)
    requires Inv(v) && Fresh(v)
    ensures var w := Close(v, v.mark.column); Ready(w) && w.flow == v.flow && w.allowed == v.allowed && w.mark == v.mark
    decreases |v.indents|
  {
    hide Run, Placed, Inert, Sorted, UpTo;
    Grounded(v);
    if v.flow == 0 && v.indent > v.mark.column {
      var n := |v.indents| - 1;
      var w := v.(all := v.all + [BlockEnd(v)], indent := v.indents[n], indents := v.indents[..n]);
      NoKeyThere(v);
      assert Run(NestOf(v), [BlockEnd(v)]) == Some(NestOf(w)) by { OneBlockEnd(v, w); }
      assert Placed([BlockEnd(v)]) by { EndPlaced(v); }
      Append(v, w, [BlockEnd(v)]);
      CloseReady(w);
    }
  }

  /** A possible key in the block context is not to the left of the level. */
  lemma {:induction false} NoKeyThere(v: View)
    requires Inv(v) && Fresh(v) && v.flow == 0 && v.indent > v.mark.column
    ensures !v.keys[0].possible
  {
    assert KeyOk(v, 0);
  }

  lemma {:induction false} EndPlaced(v: View)
    ensures Placed([BlockEnd(v)])
  {
  }

  lemma {:induction false} RunOne(n: Nest, t: Marked)
    requires n.levels != []
    ensures Run(n, [t]) == Nests(n, t)
  {
    assert [t][..0] == [];
    assert Run(n, []) == Some(n);
  }

  lemma {:induction false} OneBlockEnd(v: View, w: View)
    requires v.flow == 0 && v.indents != [] && v.indent > v.mark.column
    requires var n := |v.indents| - 1; w.indent == v.indents[n] && w.indents == v.indents[..n] && w.flow == 0
    ensures Run(NestOf(v), [BlockEnd(v)]) == Some(NestOf(w))
  {
    RunOne(NestOf(v), BlockEnd(v));
    assert v.indents[..|v.indents| - 1] + [v.indents[|v.indents| - 1]] == v.indents;
    assert (v.indents + [v.indent])[..|v.indents|] == v.indents;
  }

  // ----- single tokens -----

  function Mk(x: Lexeme): Marked {
    Marked(x.token, x.start, x.end)
  }

  lemma {:induction false} OnePlaced(x: Lexeme)
    requires GoodLexeme(x)
    ensures Placed([Mk(x)]) && !Implied(Mk(x)) && !Needs(Mk(x))
  {
  }

  /** Tokens that do not change the nesting. */
  predicate Keeps(t: Token) {
    t.FlowEntryToken? || t.ValueToken? || t.AliasToken? || t.AnchorToken? || t.TagToken? || t.ScalarToken?
  }

  predicate Opens(t: Token) {
    t.FlowSequenceStartToken? || t.FlowMappingStartToken?
  }

  predicate Shuts(t: Token) {
    t.FlowSequenceEndToken? || t.FlowMappingEndToken?
  }

  function DepthAfter(t: Token, depth: nat): nat {
    if Opens(t) then depth + 1 else if Shuts(t) && depth > 0 then depth - 1 else depth
  }

  /** Tokens not to the left of the level change the depth only. */
  lemma {:induction false} OneStep(n: Nest, x: Lexeme)
    requires n.levels != [] && !n.over && (n.depth == 0 ==> x.start.column >= Top(n))
    requires Keeps(x.token) || Opens(x.token) || Shuts(x.token) || (n.depth > 0 && (x.token.KeyToken? || x.token.BlockEntryToken?))
    ensures Run(n, [Mk(x)]) == Some(n.(depth := DepthAfter(x.token, n.depth)))
  {
    RunOne(n, Mk(x));
  }

  lemma {:induction false} OneHarmless(x: Lexeme, depth: nat, col: int)
    requires depth == 0 ==> x.start.column >= col
    requires Keeps(x.token) || Opens(x.token) || Shuts(x.token) || (depth > 0 && (x.token.KeyToken? || x.token.BlockEntryToken?))
    ensures Harmless([Mk(x)], depth, DepthAfter(x.token, depth), col)
  {
    hide Run;
    forall s: seq<int> | s != [] && s[|s| - 1] <= col
      ensures Run(Nest(s, depth, false), [Mk(x)]) == Some(Nest(s, DepthAfter(x.token, depth), false))
    {
      OneStep(Nest(s, depth, false), x);
    }
  }

  /** A lexeme is put that opens, closes or keeps; the keys that stay are those below a level, and one
      may be saved for it. */
  lemma {:induction false} PutOne(v: View, w: View, x: Lexeme)
    requires Ready(v) && GoodLexeme(x) && x.start == v.mark
    requires Keeps(x.token) || Opens(x.token) || Shuts(x.token) || (v.flow > 0 && (x.token.KeyToken? || x.token.BlockEntryToken?))
    requires w.all == v.all + [Mk(x)] && w.mark == x.end && w.indents == v.indents && w.indent == v.indent
    requires w.flow == DepthAfter(x.token, v.flow) && |w.keys| == w.flow + 1 && Rising(w.keys) && Quiet(w)
    requires forall i: nat :: i < |w.keys| && w.keys[i].possible ==>
               (i < |v.keys| && w.keys[i] == v.keys[i]) || (i == v.flow && w.keys[i].number == |v.all| && w.keys[i].mark == v.mark)
    ensures Inv(w)
  {
    hide Run, Inert, Sorted, UpTo, Placed, Harmless, Implied;
    OnePlaced(x);
    OneStep(NestOf(v), x);
    forall i: nat | i < |w.keys| && w.keys[i].possible
      ensures (i < |v.keys| && w.keys[i] == v.keys[i] && Stays(v, w, [Mk(x)], i)) || IsNew(v, w, [Mk(x)], i)
    {
      if i < |v.keys| && w.keys[i] == v.keys[i] {
        assert KeyOk(v, i);
        if i == 0 {
          OneHarmless(x, v.flow, v.keys[0].mark.column);
        }
      } else if v.flow == 0 {
        OneHarmless(x, 0, x.start.column);
      }
    }
    Append(v, w, [Mk(x)]);
  }

  // ----- fetching -----

  /** At the lexeme x. */
  ghost predicate At(v: View, x: Lexeme) {
    Ready(v) && GoodLexeme(x) && x.start == v.mark
  }

  lemma {:induction false} Numbers(v: View, i: nat)
    requires Inv(v) && i < |v.keys| && v.keys[i].possible
    ensures v.keys[i].number < |v.all|
  {
    assert KeyOk(v, i);
  }

  lemma {:induction false} SaveKeys(v: View)
    requires Inv(v) && Save(v).Fine?
    ensures var w := Save(v).v;
            && w == v.(keys := w.keys) && |w.keys| == |v.keys| && Rising(w.keys)
            && forall i: nat :: i < |w.keys| && w.keys[i].possible ==>
                 (w.keys[i] == v.keys[i] && (i == v.flow ==> !v.allowed))
                 || (i == v.flow && w.keys[i].number == |v.all| && w.keys[i].mark == v.mark)
  {
    hide KeyOk, Run, Sorted, UpTo, Placed;
    forall i: nat | i < |v.keys| && v.keys[i].possible
      ensures v.keys[i].number < |v.all|
    {
      Numbers(v, i);
    }
  }

  lemma {:induction false} NodeKeeps(v: View, x: Lexeme)
    requires At(v, x) && Keeps(x.token) && !x.token.FlowEntryToken? && !x.token.ValueToken?
    ensures FetchNode(v, x).Fine? ==> Inv(FetchNode(v, x).v)
  {
    hide KeyOk, Run, Sorted, UpTo, Placed;
    if FetchNode(v, x).Fine? {
      if x.form != BlockForm {
        SaveKeys(v);
      }
      PutOne(v, FetchNode(v, x).v, x);
    }
  }

  lemma {:induction false} FlowStartKeeps(v: View, x: Lexeme)
    requires At(v, x) && Opens(x.token)
    ensures FetchFlowStart(v, x).Fine? ==> Inv(FetchFlowStart(v, x).v)
  {
    hide KeyOk, Run, Sorted, UpTo, Placed;
    if FetchFlowStart(v, x).Fine? {
      SaveKeys(v);
      PutOne(v, FetchFlowStart(v, x).v, x);
    }
  }

  lemma {:induction false} FlowEndKeeps(v: View, x: Lexeme)
    requires At(v, x) && Shuts(x.token)
    ensures FetchFlowEnd(v, x).Fine? ==> Inv(FetchFlowEnd(v, x).v)
  {
    hide KeyOk, Run, Sorted, UpTo, Placed;
    if FetchFlowEnd(v, x).Fine? {
      PutOne(v, FetchFlowEnd(v, x).v, x);
    }
  }

  lemma {:induction false} FlowEntryKeeps(v: View, x: Lexeme)
    requires At(v, x) && x.token.FlowEntryToken?
    ensures FetchFlowEntry(v, x).Fine? ==> Inv(FetchFlowEntry(v, x).v)
  {
    hide KeyOk, Run, Sorted, UpTo, Placed;
    if FetchFlowEntry(v, x).Fine? {
      PutOne(v, FetchFlowEntry(v, x).v, x);
    }
  }

  // ----- entries, keys and values in the block context -----

  /** A collection is begun if need be, and its entry, key or value put. */
  lemma {:induction false} PutRolled(v: View, w: View, x: Lexeme, t: Token)
    requires At(v, x) && v.flow == 0 && !v.keys[0].possible && |w.keys| == 1 && !w.keys[0].possible
    requires if t == BlockSequenceStartToken then x.token.BlockEntryToken?
             else t == BlockMappingStartToken && (x.token.KeyToken? || x.token.ValueToken?)
    requires var r := Roll(v, v.mark.column, t);
             w.all == r.all + [Mk(x)] && w.mark == x.end && w.indents == r.indents && w.indent == r.indent && w.flow == 0
    ensures Inv(w)
  {
    hide KeyOk, Sorted, UpTo, Run;
    var r := Roll(v, v.mark.column, t);
    var b := Marked(t, v.mark, v.mark);
    OnePlaced(x);
    if v.indent < v.mark.column {
      assert w.all == v.all + [b, Mk(x)];
      assert [b, Mk(x)] == [b] + [Mk(x)];
      RunOne(NestOf(v), b);
      RunPut(NestOf(v), [b], Mk(x));
      Append(v, w, [b, Mk(x)]);
    } else {
      RunOne(NestOf(v), Mk(x));
      Append(v, w, [Mk(x)]);
    }
  }

  /** No key is possible where one is allowed. */
  lemma {:induction false} AllowedMeansNone(v: View)
    requires Inv(v) && Fresh(v) && v.flow == 0 && v.allowed
    ensures !v.keys[0].possible
  {
    hide KeyOk, Run, Sorted, UpTo, Placed;
  }

  lemma {:induction false} BlockEntryKeeps(v: View, x: Lexeme)
    requires At(v, x) && x.token.BlockEntryToken?
    ensures FetchBlockEntry(v, x).Fine? ==> Inv(FetchBlockEntry(v, x).v)
  {
    hide KeyOk, Run, Sorted, UpTo, Placed;
    if FetchBlockEntry(v, x).Fine? {
      if v.flow == 0 {
        AllowedMeansNone(v);
        PutRolled(v, FetchBlockEntry(v, x).v, x, BlockSequenceStartToken);
      } else {
        PutOne(v, FetchBlockEntry(v, x).v, x);
      }
    }
  }

  lemma {:induction false} KeyKeeps(v: View, x: Lexeme)
    requires At(v, x) && x.token.KeyToken?
    ensures FetchKey(v, x).Fine? ==> Inv(FetchKey(v, x).v)
  {
    hide KeyOk, Run, Sorted, UpTo, Placed;
    if FetchKey(v, x).Fine? {
      if v.flow == 0 {
        AllowedMeansNone(v);
        PutRolled(v, FetchKey(v, x).v, x, BlockMappingStartToken);
      } else {
        PutOne(v, FetchKey(v, x).v, x);
      }
    }
  }

  // ----- simple keys -----

  function KeyOf(k: SimpleKey): Marked {
    Marked(KeyToken, k.mark, k.mark)
  }

  function MappingOf(k: SimpleKey): Marked {
    Marked(BlockMappingStartToken, k.mark, k.mark)
  }

  /** The depth at a place of the tokens does not depend on the levels. */
  lemma {:induction false} SameDepth(s: seq<int>, n: Nest, a: seq<Marked>)
    requires s != [] && n.levels != [] && n.depth == 0 && !n.over
    requires Run(Nest(s, 0, false), a).Some? && Run(n, a).Some?
    ensures Run(Nest(s, 0, false), a).value.depth == Run(n, a).value.depth
    ensures Run(Nest(s, 0, false), a).value.over ==> Run(n, a).value.depth == 0
    decreases |a|
  {
    if a != [] {
      SameDepth(s, n, a[..|a| - 1]);
    }
  }

  /** KEY put in inside a flow collection that is part of the tokens after a possible key. */
  lemma {:induction false} InertKeeps(a: seq<Marked>, k: nat, t: Marked, n: Nest, col: int, depth: nat)
    requires k <= |a| && t.token.KeyToken? && n.levels != [] && n.depth == 0 && !n.over
    requires Inert(a, col, depth) && Run(n, a[..k]).Some? && Run(n, a[..k]).value.depth > 0
    ensures Inert(Insert(a, k, t), col, depth)
  {
    hide Nests;
    forall s: seq<int> | s != [] && s[|s| - 1] <= col
      ensures Run(Nest(s, 0, false), Insert(a, k, t)) == Some(Nest(s, depth, false))
    {
      var m := Nest(s, 0, false);
      assert a[..k] + a[k..] == a;
      RunJoin(m, a[..k], a[k..]);
      SameDepth(s, n, a[..k]);
      KeyInFlow(m, a, k, t);
    }
  }

  lemma {:induction false} InsertTail(a: seq<Marked>, n: nat, t: Marked, k: nat)
    requires k <= n <= |a|
    ensures Insert(a, n, t)[..k] == a[..k]
    ensures Insert(a, n, t)[k..] == Insert(a[k..], n - k, t)
  {
  }

  lemma {:induction false} OverOnGround(a: seq<Marked>)
    ensures var r := Run(Ground, a); r.Some? && r.value.over ==> r.value.depth == 0
  {
    if Run(Ground, a).Some? {
      SameDepth([-1], Ground, a);
    }
  }

  /** The keys below the one that KEY is put in for keep their places. */
  lemma {:induction false} LowerKey(v: View, w: View, i: nat, n: nat, t: Marked)
    requires Inv(v) && i < |v.keys| && i < |w.keys| && w.keys[i] == v.keys[i] && v.keys[i].possible
    requires v.keys[i].number < n < |v.all| && t.token.KeyToken? && w.all == Insert(v.all, n, t)
    requires Run(Ground, v.all[..n]).Some? && Run(Ground, v.all[..n]).value.depth > 0
    requires w.indents == v.indents && w.indent == v.indent && w.flow == v.flow && w.mark == v.mark
    ensures KeyOk(w, i)
  {
    hide Run, Inert, Nests, Sorted, UpTo, Placed, Needs, Implied, Insert;
    assert KeyOk(v, i);
    var k := v.keys[i];
    InsertTail(v.all, n, t, k.number);
    InsertAt(v.all, n, t, k.number);
    if k.number > 0 {
      InsertAt(v.all, n, t, k.number - 1);
    }
    if i == 0 {
      var m := Run(Ground, v.all[..k.number]).value;
      assert v.all[..n] == v.all[..k.number] + v.all[k.number..n];
      RunJoin(Ground, v.all[..k.number], v.all[k.number..n]);
      assert v.all[k.number..][..n - k.number] == v.all[k.number..n];
      InertKeeps(v.all[k.number..], n - k.number, t, m, k.mark.column, v.flow);
    }
  }

  lemma {:induction false} InsertAt(a: seq<Marked>, n: nat, t: Marked, k: nat)
    requires k < n <= |a|
    ensures Insert(a, n, t)[k] == a[k]
  {
  }

  lemma {:induction false} MakeKeyInFlow(v: View)
    requires Ready(v) && v.flow > 0 && Last(v.keys).possible
    ensures Last(v.keys).number <= |v.all| && Ready(MakeKey(v, Last(v.keys)))
  {
    hide Run, Inert, Nests, Sorted, UpTo, Placed;
    var k := Last(v.keys);
    assert KeyOk(v, v.flow);
    var n, w := k.number, MakeKey(v, k);
    assert Needs(KeyOf(k)) && Serves(KeyOf(k), v.all[n]);
    InsertSorted(v.all, n, KeyOf(k));
    InsertUpTo(v.all, n, KeyOf(k), v.mark);
    InsertPlaced(v.all, n, KeyOf(k));
    OverOnGround(v.all[..n]);
    KeyInFlow(Ground, v.all, n, KeyOf(k));
    forall i: nat | i < |w.keys|
      ensures KeyOk(w, i)
    {
      if w.keys[i].possible {
        LowerKey(v, w, i, n, KeyOf(k));
      }
    }
  }

  /** The level that a simple key in the block context stands at. */
  lemma {:induction false} KeyLevel(v: View, k: SimpleKey, a: seq<Marked>)
    requires Run(Ground, a) == Some(Nest(v.indents + [v.indent], 0, false)) && v.indent <= k.mark.column
    ensures v.indent == k.mark.column ==>
              Run(Ground, a + [KeyOf(k)]) == Some(Nest(v.indents + [v.indent], 0, false))
    ensures v.indent < k.mark.column ==>
              Run(Ground, a + [MappingOf(k), KeyOf(k)]) == Some(Nest(v.indents + [v.indent] + [k.mark.column], 0, false))
  {
    hide Run;
    RunPut(Ground, a, KeyOf(k));
    RunPut(Ground, a, MappingOf(k));
    RunPut(Ground, a + [MappingOf(k)], KeyOf(k));
    assert a + [MappingOf(k), KeyOf(k)] == a + [MappingOf(k)] + [KeyOf(k)];
  }

  lemma {:induction false} MakeKeyInBlock(v: View)
    requires Ready(v) && v.flow == 0 && v.keys[0].possible
    ensures v.keys[0].number <= |v.all| && Ready(MakeKey(v, v.keys[0]))
  {
    hide Run, Inert, Nests, Sorted, UpTo, Placed;
    var k := v.keys[0];
    assert KeyOk(v, 0);
    var n, w := k.number, MakeKey(v, k);
    var a := Insert(v.all, n, KeyOf(k));
    assert Needs(KeyOf(k)) && Serves(KeyOf(k), v.all[n]);
    InsertSorted(v.all, n, KeyOf(k));
    InsertUpTo(v.all, n, KeyOf(k), v.mark);
    InsertPlaced(v.all, n, KeyOf(k));
    KeyLevel(v, k, v.all[..n]);
    if v.indent < k.mark.column {
      assert a[n] == KeyOf(k) && (n > 0 ==> a[n - 1] == v.all[n - 1]);
      assert Needs(MappingOf(k)) && Serves(MappingOf(k), a[n]);
      InsertSorted(a, n, MappingOf(k));
      InsertUpTo(a, n, MappingOf(k), v.mark);
      InsertPlaced(a, n, MappingOf(k));
      assert w.all == v.all[..n] + [MappingOf(k), KeyOf(k)] + v.all[n..];
      KeyInBlock(Ground, v.all, n, [MappingOf(k), KeyOf(k)], v.indents + [v.indent] + [k.mark.column], k.mark.column, 0);
    } else {
      KeyInBlock(Ground, v.all, n, [KeyOf(k)], v.indents + [v.indent], k.mark.column, 0);
    }
  }

  lemma {:induction false} LastNumber(v: View)
    requires Inv(v)
    ensures Sound(v) && (Last(v.keys).possible ==> Last(v.keys).number <= |v.all|)
  {
    hide KeyNests, Run, Sorted, UpTo, Placed;
    forall i | 0 <= i < |v.keys| && v.keys[i].possible
      ensures v.keys[i].number < |v.all|
    {
      assert KeyOk(v, i);
    }
  }

  lemma {:induction false} ValueKeeps(v: View, x: Lexeme)
    requires At(v, x) && x.token.ValueToken?
    ensures Last(v.keys).possible ==> Last(v.keys).number <= |v.all|
    ensures FetchValue(v, x).Fine? ==> Inv(FetchValue(v, x).v)
  {
    hide KeyOk, Run, Sorted, UpTo, Placed, MakeKey;
    LastNumber(v);
    if FetchValue(v, x).Fine? {
      var w := FetchValue(v, x).v;
      if Last(v.keys).possible {
        if v.flow > 0 { MakeKeyInFlow(v); } else { MakeKeyInBlock(v); }
        MadeKey(v, Last(v.keys));
        PutOne(MakeKey(v, Last(v.keys)), w, x);
      } else if v.flow == 0 {
        PutRolled(v, w, x, BlockMappingStartToken);
      } else {
        PutOne(v, w, x);
      }
    }
  }

  lemma {:induction false} MadeKey(v: View, k: SimpleKey)
    requires v.keys != [] && k.number <= |v.all|
    ensures var w := MakeKey(v, k); w.mark == v.mark && w.flow == v.flow && |w.keys| == |v.keys| && !Last(w.keys).possible
  {
  }

  // ----- the end of a document -----

  /** Closing all collections in column 0. */
  lemma {:induction false} CloseAll(v: View) returns (c: seq<Marked>, over: bool)
    requires v.flow == 0 && v.mark.column == 0 && Increasing(v.indents + [v.indent])
    ensures Close(v, -1) == v.(all := v.all + c, indents := [], indent := -1)
    ensures AllAt(c, v.mark) && forall i :: 0 <= i < |c| ==> c[i].token.BlockEndToken?
    ensures Run(NestOf(v), c) == Some(Nest([-1], 0, over))
    decreases |v.indents|
  {
    hide Run, Nests, Close, Increasing;
    var l := v.indents + [v.indent];
    if v.indents == [] {
      c, over := [], false;
      NothingToClose(v);
    } else {
      var w := CloseOne(v);
      c, over := CloseAll(w);
      Chained(v, w, c);
      if v.indent == 0 {
        ZeroIsFirst(l);
        assert v.indents == [-1] && w.indents == [];
        assert c == [] by { NothingToClose(w); }
        assert [BlockEnd(v)] + c == [BlockEnd(v)];
        RunNone(Nest([-1], 0, true));
        over := true;
      } else {
        Above(l);
      }
      c := [BlockEnd(v)] + c;
    }
  }

  lemma {:induction false} NothingToClose(v: View)
    requires v.indents == [] && Increasing(v.indents + [v.indent]) && v.flow == 0
    ensures Close(v, -1) == v.(all := v.all + [], indents := [], indent := -1)
    ensures Run(NestOf(v), []) == Some(Nest([-1], 0, false))
  {
    RunNone(NestOf(v));
    assert v.indents + [v.indent] == [v.indent] && v.all + [] == v.all;
  }

  lemma {:induction false} CloseOne(v: View) returns (w: View)
    requires v.flow == 0 && v.mark.column == 0 && v.indents != [] && Increasing(v.indents + [v.indent])
    ensures w == v.(all := v.all + [BlockEnd(v)], indent := w.indent, indents := w.indents)
    ensures |w.indents| < |v.indents| && w.indents + [w.indent] == v.indents
    ensures v.indents == (v.indents + [v.indent])[..|v.indents|] && Increasing(v.indents)
    ensures Close(v, -1) == Close(w, -1)
    ensures Run(NestOf(v), [BlockEnd(v)]) == Some(Nest(v.indents, 0, v.indent <= 0))
  {
    hide Run;
    var n := |v.indents| - 1;
    w := v.(all := v.all + [BlockEnd(v)], indent := v.indents[n], indents := v.indents[..n]);
    BlockEndStep(v);
  }

  lemma {:induction false} RunNone(n: Nest)
    requires n.levels != []
    ensures Run(n, []) == Some(n)
  {
  }

  lemma {:induction false} Chained(v: View, w: View, c: seq<Marked>)
    requires w.all == v.all + [BlockEnd(v)]
    ensures v.all + ([BlockEnd(v)] + c) == w.all + c
    ensures forall m: Nest :: Run(NestOf(v), [BlockEnd(v)]) == Some(m) ==> Run(NestOf(v), [BlockEnd(v)] + c) == Run(m, c)
  {
    hide Run;
    RunJoin(NestOf(v), [BlockEnd(v)], c);
  }

  lemma {:induction false} BlockEndStep(v: View)
    requires v.flow == 0 && v.mark.column == 0 && v.indents != [] && Increasing(v.indents + [v.indent])
    ensures Run(NestOf(v), [BlockEnd(v)]) == Some(Nest(v.indents, 0, v.indent <= 0))
    ensures Increasing(v.indents) && v.indent >= 0
  {
    var l := v.indents + [v.indent];
    RunOne(NestOf(v), BlockEnd(v));
    assert l[..|l| - 1] == v.indents;
    Front(l);
    Above(l);
  }

  lemma {:induction false} Front(l: seq<int>)
    requires Increasing(l) && |l| > 1
    ensures Increasing(l[..|l| - 1])
  {
    var s := l[..|l| - 1];
    forall i | 0 < i < |s|
      ensures s[i - 1] < s[i]
    {
      assert l[i - 1] < l[i];
    }
  }

  lemma {:induction false} Above(l: seq<int>)
    requires Increasing(l) && |l| > 1
    ensures l[|l| - 1] >= 0
  {
    Front(l);
    AtLeast(l[..|l| - 1]);
    assert l[|l| - 2] < l[|l| - 1];
  }

  lemma {:induction false} AboveZero(l: seq<int>)
    requires Increasing(l) && |l| > 2
    ensures l[|l| - 1] > 0
  {
    Front(l);
    Above(l[..|l| - 1]);
    assert l[|l| - 2] < l[|l| - 1];
  }

  lemma {:induction false} ZeroIsFirst(l: seq<int>)
    requires Increasing(l) && l[|l| - 1] == 0
    ensures l == [-1, 0]
  {
    if |l| > 2 {
      AboveZero(l);
    }
  }

  lemma {:induction false} ResetHarmless(x: Lexeme, depth: nat, col: int)
    requires Resets(x.token) && depth > 0
    ensures Harmless([Mk(x)], depth, depth, col)
  {
    hide Run;
    forall s: seq<int> | s != [] && s[|s| - 1] <= col
      ensures Run(Nest(s, depth, false), [Mk(x)]) == Some(Nest(s, depth, false))
    {
      RunOne(Nest(s, depth, false), Mk(x));
    }
  }

  /** At a directive, a document indicator or the end of the stream all collections are closed. */
  lemma {:induction false} ResetKeeps(v: View, x: Lexeme)
    requires Inv(v) && v.mark.column == 0 && x.start == v.mark && Before(x.start, x.end) && Resets(x.token)
    ensures FetchReset(v, x).Fine? ==> Inv(FetchReset(v, x).v)
  {
    hide KeyOk, Run, Sorted, UpTo, Increasing;
    if FetchReset(v, x).Fine? {
      CloseKeeps(v, -1);
      var d, w := TopKey(v, Gone(Last(v.keys))), FetchReset(v, x).v;
      Fewer(v, d);
      if v.flow > 0 {
        assert w.all == d.all + [Mk(x)];
        RunOne(NestOf(d), Mk(x));
        forall i: nat | i < |w.keys| && w.keys[i].possible
          ensures w.keys[i] == d.keys[i] && Stays(d, w, [Mk(x)], i)
        {
          ResetHarmless(x, v.flow, v.keys[i].mark.column);
        }
        Append(d, w, [Mk(x)]);
      } else {
        Grounded(v);
        var c, over := CloseAll(v);
        RunPut(NestOf(d), c, Mk(x));
        assert w.all == d.all + (c + [Mk(x)]);
        assert w.indents + [w.indent] == [-1];
        EndsPlaced(c, x);
        Append(d, w, c + [Mk(x)]);
      }
    }
  }

  lemma {:induction false} EndsPlaced(c: seq<Marked>, x: Lexeme)
    requires Resets(x.token) && forall i :: 0 <= i < |c| ==> c[i].token.BlockEndToken?
    ensures Placed(c + [Mk(x)])
  {
  }

  // ----- every lexeme -----

  lemma {:induction false} DispatchKeeps(v: View, x: Lexeme)
    requires At(v, x)
    ensures Sound(v)
    ensures Last(v.keys).possible ==> Last(v.keys).number <= |v.all|
    ensures Dispatch(v, x).Fine? ==> Inv(Dispatch(v, x).v)
  {
    hide Inv, FetchReset, FetchFlowStart, FetchFlowEnd, FetchFlowEntry, FetchBlockEntry, FetchKey, FetchValue, FetchNode;
    LastNumber(v);
    if Resets(x.token) {
      ResetKeeps(v, x);
    } else if Opens(x.token) {
      FlowStartKeeps(v, x);
    } else if Shuts(x.token) {
      FlowEndKeeps(v, x);
    } else {
      match x.token {
        case FlowEntryToken => FlowEntryKeeps(v, x);
        case BlockEntryToken => BlockEntryKeeps(v, x);
        case KeyToken => KeyKeeps(v, x);
        case ValueToken => ValueKeeps(v, x);
        case _ => NodeKeeps(v, x);
      }
    }
  }

  lemma {:induction false} ArriveKeeps(v: View, m: Mark)
    requires Inv(v) && Before(v.mark, m)
    ensures Arrive(v, m).Fine? ==>
              var w := Arrive(v, m).v; Ready(w) && w.mark == m && w.flow == v.flow && w.allowed == Come(v, m).allowed
  {
    hide Inv, Stale, Come, Close;
    Comes(v, m);
    ComeKeeps(v, m, Come(v, m).allowed);
    StaleKeeps(Come(v, m));
    if Stale(Come(v, m)).Fine? {
      CloseReady(Stale(Come(v, m)).v);
    }
  }

  /** Every lexeme keeps the invariant. */
  lemma {:induction false} FetchKeeps(v: View, x: Lexeme)
    requires Inv(v) && GoodLexeme(x) && Before(v.mark, x.start)
    ensures Sound(v) && (Fetch(v, x).Fine? ==> Inv(Fetch(v, x).v))
  {
    hide Inv, Dispatch, Arrive;
    LastNumber(v);
    ArriveKeeps(v, x.start);
    if Arrive(v, x.start).Fine? {
      DispatchKeeps(Arrive(v, x.start).v, x);
    }
  }

  lemma {:induction false} Comes(v: View, m: Mark)
    ensures var w := Come(v, m);
            w == v.(mark := m, allowed := w.allowed) && (w.allowed ==> v.allowed || v.mark.line < m.line)
  {
  }

  /** So does the end of the text. */
  lemma {:induction false} EndKeeps(v: View, last: Mark)
    requires Inv(v) && Before(v.mark, last)
    ensures Sound(v) && (FetchEnd(v, last).Fine? ==> Inv(FetchEnd(v, last).v))
  {
    hide Inv, FetchReset, Arrive;
    LastNumber(v);
    ArriveKeeps(v, last);
    if Arrive(v, last).Fine? {
      var u, m := Arrive(v, last).v, NewLine(last);
      ComeKeeps(u, m, u.allowed);
      ResetKeeps(u.(mark := m), Lexeme(StreamEndToken, Ordinary, m, m));
    }
  }

  lemma {:induction false} SettleKeeps(v: View)
    requires Inv(v)
    ensures Settle(Fine(v)).Fine? ==> Inv(Settle(Fine(v)).v)
  {
    hide Inv, Stale;
    StaleKeeps(v);
  }

  lemma {:induction false} StartKeeps()
    ensures Inv(Start)
  {
    hide Run;
    RunOne(Ground, Start.all[0]);
    assert Start.all == [Start.all[0]];
    assert Start.indents + [Start.indent] == [-1];
  }
}
