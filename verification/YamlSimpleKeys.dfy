/**
 * Which simple keys are found, told on the text alone: where a node may begin a key, all its parts
 * stand in one line and a value follows, KEY is put before the first part; and there is no second key
 * in the line after that.
 */
module YamlSimpleKeys {
  import opened YamlTokens
  import opened YamlQueue
  import opened YamlFetching
  import opened YamlNesting
  import opened YamlScanning

  // ----- on the text -----

  /** What a node in one line consists of: properties, an alias, a scalar, a flow collection. */
  predicate Part(x: Lexeme) {
    x.form == Ordinary
    && (Opens(x.token) || x.token.AliasToken? || x.token.AnchorToken? || x.token.TagToken? || x.token.ScalarToken?)
  }

  predicate Crossed(input: seq<Lexeme>, i: nat)
    requires i < |input|
  {
    EndOf(input, i).line < input[i].start.line
  }

  /** A key may begin behind the lexeme i. */
  predicate Leads(input: seq<Lexeme>, i: nat)
    requires i < |input|
  {
    var x := input[i];
    || Opens(x.token) || x.token.FlowEntryToken? || x.token.BlockEntryToken? || x.form != Ordinary
    || (x.token.KeyToken? && Depth(input, i) == 0)
    || (x.token.ValueToken? && Depth(input, i) == 0 && Crossed(input, i))
  }

  /** A key may begin with the lexeme i: at the beginning of a line in the block context, or there. */
  predicate MayBegin(input: seq<Lexeme>, i: nat)
    requires i < |input|
  {
    i == 0 || (Crossed(input, i) && Depth(input, i) == 0) || Leads(input, i - 1)
  }

  /** The lexemes from i to k are parts of a node, with whole flow collections, at this depth. */
  predicate Parts(input: seq<Lexeme>, depth: nat, i: nat, k: nat)
    requires i <= k <= |input|
  {
    && Depth(input, k) == depth
    && forall n: nat :: i <= n < k ==> Depth(input, n) >= depth && (Depth(input, n) == depth ==> Part(input[n]))
  }

  /** In the same line as m, and no more than 1024 characters behind it. */
  predicate Within(m: Mark, n: Mark) {
    m.line == n.line && m.index <= n.index <= m.index + 1024
  }

  // ----- single lexemes -----

  lemma {:induction false} DeepKeys(v: View, x: Lexeme, d: nat)
    requires Sound(v) && |v.keys| == v.flow + 1 && v.flow > d && GoodLexeme(x) && Dispatch(v, x).Fine?
    ensures var w := Dispatch(v, x).v; d < |w.keys| && w.keys[d] == v.keys[d] && (w.flow == d ==> !w.allowed)
  {
    hide FetchReset, FetchFlowStart, FetchFlowEntry, FetchBlockEntry, FetchKey, FetchValue, FetchNode, Drop;
  }

  lemma {:induction false} PartKeys(v: View, x: Lexeme)
    requires Sound(v) && |v.keys| == v.flow + 1 && !v.allowed && Part(x) && Dispatch(v, x).Fine?
    ensures var w := Dispatch(v, x).v;
            v.flow < |w.keys| && w.keys[v.flow] == v.keys[v.flow] && (w.flow == v.flow ==> !w.allowed)
  {
    hide FetchReset, FetchFlowEnd, FetchFlowEntry, FetchBlockEntry, FetchKey, FetchValue;
  }

  lemma {:induction false} ArriveKey(v: View, m: Mark, d: nat)
    requires d < |v.keys| && !Old(v.keys[d], m) && Arrive(v, m).Fine?
    ensures var w := Arrive(v, m).v; d < |w.keys| && w.keys[d] == v.keys[d]
    ensures Arrive(v, m).v.allowed == Come(v, m).allowed
  {
    hide Close;
    CloseKeeps(Stale(Come(v, m)).v, m.column);
  }

  lemma {:induction false} SettleKey(v: View, d: nat)
    requires d < |v.keys| && !Old(v.keys[d], v.mark) && Stale(v).Fine?
    ensures |Stale(v).v.keys| == |v.keys| && Stale(v).v.keys[d] == v.keys[d] && Stale(v).v.allowed == v.allowed && Stale(v).v.flow == v.flow
  {
  }

  /** The key at a depth is the same as before, and nothing else may begin a key there. */
  predicate Kept(v: View, d: nat, k: SimpleKey) {
    d < |v.keys| && v.keys[d] == k && d <= v.flow && (v.flow == d ==> !v.allowed)
  }

  /** A part of the node, or something in a flow collection that belongs to it, leaves the key alone. */
  lemma {:induction false} StaysKept(v: View, x: Lexeme, d: nat, k: SimpleKey)
    requires Inv(v) && Sound(v) && GoodLexeme(x) && Before(v.mark, x.start) && Kept(v, d, k)
    requires v.flow == d ==> Part(x)
    requires v.mark.line == x.start.line && !Old(k, x.start) && !Old(k, x.end) && DepthAfter(x.token, v.flow) >= d
    requires Fetch(v, x).Fine? && Stale(Fetch(v, x).v).Fine?
    ensures Kept(Stale(Fetch(v, x).v).v, d, k)
  {
    hide Arrive, Dispatch, Stale, Old, KeyOk, Run, Sorted, UpTo, Placed, GoodLexeme;
    ArriveKeeps(v, x.start);
    ArriveKey(v, x.start, d);
    var u := Arrive(v, x.start).v;
    LastNumber(u);
    if v.flow == d {
      PartKeys(u, x);
    } else {
      DeepKeys(u, x, d);
    }
    MarkAfter(v, x);
    SettleKey(Fetch(v, x).v, d);
  }

  // ----- lines of the text -----

  lemma {:induction false} Place(input: seq<Lexeme>, last: Mark, i: nat)
    requires GoodInput(input, last) && i < |input|
    ensures Before(EndOf(input, i), input[i].start) && Before(input[i].start, input[i].end)
    ensures EndOf(input, i + 1) == input[i].end
  {
    assert GoodLexeme(input[i]);
  }

  lemma {:induction false} PlacesGrow(input: seq<Lexeme>, last: Mark, i: nat, k: nat)
    requires GoodInput(input, last) && i <= k < |input|
    ensures Before(input[i].start, input[k].start) && (i < k ==> Before(input[i].end, input[k].start))
    decreases k
  {
    hide GoodInput, EndOf;
    if i < k {
      PlacesGrow(input, last, i, k - 1);
      Place(input, last, i);
      Place(input, last, k - 1);
      Place(input, last, k);
    }
  }

  /** What stands between two places within reach is within reach. */
  lemma {:induction false} Between(m: Mark, a: Mark, b: Mark, n: Mark)
    requires Before(m, a) && Before(a, b) && Before(b, n) && Within(m, n)
    ensures a.line == m.line && b.line == m.line && a.index <= m.index + 1024 && b.index <= m.index + 1024
  {
  }

  /** Along the parts of a node in one line the key is kept. */
  lemma {:induction false} KeptAlong(input: seq<Lexeme>, last: Mark, d: nat, i: nat, n: nat, k: nat, key: SimpleKey)
    requires GoodInput(input, last) && 0 < i <= n <= k < |input| && Parts(input, d, i, k) && FetchAll(input, last, n).Fine?
    requires key.mark == input[i - 1].start || !key.possible
    requires Within(input[i - 1].start, input[k].start)
    requires FetchAll(input, last, i).Fine? ==> Kept(FetchAll(input, last, i).v, d, key)
    ensures Kept(FetchAll(input, last, n).v, d, key)
    decreases n
  {
    hide FetchAll, Inv, Sound, GoodInput, GoodLexeme, Kept, Fetch, Stale, Part, DepthAfter;
    if i < n {
      OneMore(input, last, n);
      KeptAlong(input, last, d, i, n - 1, k, key);
      var v, x, m := FetchAll(input, last, n - 1).v, input[n - 1], input[i - 1].start;
      AllDepth(input, last, n - 1);
      LinePlaces(input, last, i - 1, n - 1, k);
      assert Depth(input, n) >= d;
      assert Depth(input, n) == DepthAfter(x.token, Depth(input, n - 1));
      StaysKept(v, x, d, key);
    }
  }

  /** The lexeme n lies on the line. */
  lemma {:induction false} LinePlaces(input: seq<Lexeme>, last: Mark, i: nat, n: nat, k: nat)
    requires GoodInput(input, last) && i < n < k < |input| && Within(input[i].start, input[k].start)
    ensures var m, x := input[i].start, input[n];
            && EndOf(input, n).line == m.line && x.start.line == m.line && x.end.line == m.line
            && x.start.index <= m.index + 1024 && x.end.index <= m.index + 1024
  {
    hide GoodInput, EndOf;
    PlacesGrow(input, last, i, n - 1);
    PlacesGrow(input, last, i, n);
    PlacesGrow(input, last, n - 1, n);
    PlacesGrow(input, last, n, k);
    Place(input, last, i);
    Place(input, last, n);
    Place(input, last, n - 1);
    Between(input[i].start, input[n].start, input[n].end, input[k].start);
    Between(input[i].start, input[n - 1].end, input[n].start, input[k].start);
  }

  // ----- where a key begins -----

  /** A new line leaves no key possible. */
  lemma {:induction false} NoneOnNewLine(v: View, m: Mark)
    requires Inv(v) && v.mark.line < m.line && Arrive(v, m).Fine?
    ensures forall i :: 0 <= i < |Arrive(v, m).v.keys| ==> !Arrive(v, m).v.keys[i].possible
  {
    hide Close, KeyNests, Run, Sorted, UpTo, Placed;
    CloseKeeps(Stale(Come(v, m)).v, m.column);
    forall i: nat | i < |v.keys| && v.keys[i].possible
      ensures Old(v.keys[i], m)
    {
      assert KeyOk(v, i);
    }
  }

  lemma {:induction false} LeadsOn(v: View, x: Lexeme)
    requires Sound(v) && GoodLexeme(x) && Dispatch(v, x).Fine?
    requires Opens(x.token) || x.token.FlowEntryToken? || x.token.BlockEntryToken? || x.form != Ordinary
          || ((x.token.KeyToken? || (x.token.ValueToken? && !Last(v.keys).possible)) && v.flow == 0)
    ensures Dispatch(v, x).v.allowed
  {
    hide FetchReset, FetchFlowEnd, MakeKey, SameBelow, Save, Drop, Roll;
  }

  lemma {:induction false} LeadsAllowed(input: seq<Lexeme>, last: Mark, i: nat)
    requires GoodInput(input, last) && i < |input| && Leads(input, i) && FetchAll(input, last, i + 1).Fine?
    ensures FetchAll(input, last, i + 1).v.allowed
  {
    hide FetchAll, Inv, Sound, GoodInput, Arrive, Dispatch, Stale;
    OneMore(input, last, i + 1);
    AllDepth(input, last, i);
    Place(input, last, i);
    var v, x := FetchAll(input, last, i).v, input[i];
    ArriveKeeps(v, x.start);
    if Crossed(input, i) {
      NoneOnNewLine(v, x.start);
    }
    var u := Arrive(v, x.start).v;
    LastNumber(u);
    HasKeys(u);
    LeadsOn(u, x);
  }

  lemma {:induction false} HasKeys(v: View)
    requires Inv(v)
    ensures |v.keys| == v.flow + 1
  {
  }

  lemma {:induction false} BeginAllowed(input: seq<Lexeme>, last: Mark, i: nat)
    requires GoodInput(input, last) && i < |input| && MayBegin(input, i) && FetchAll(input, last, i).Fine?
    ensures Come(FetchAll(input, last, i).v, input[i].start).allowed
  {
    hide FetchAll, Inv, Sound, GoodInput;
    AllDepth(input, last, i);
    FetchNone(input, last);
    if i > 0 && Leads(input, i - 1) {
      LeadsAllowed(input, last, i - 1);
    }
  }

  /** A key saved for a part of a node. */
  lemma {:induction false} PartSaves(v: View, x: Lexeme)
    requires Sound(v) && |v.keys| == v.flow + 1 && v.allowed && Part(x) && Dispatch(v, x).Fine?
    ensures var w, d := Dispatch(v, x).v, v.flow;
            && d < |w.keys| && w.keys[d].possible && w.keys[d].mark == v.mark && w.flow >= d && (w.flow == d ==> !w.allowed)
  {
    hide FetchReset, FetchFlowEnd, FetchFlowEntry, FetchBlockEntry, FetchKey, FetchValue, SameBelow;
  }

  lemma {:induction false} SavedThere(input: seq<Lexeme>, last: Mark, i: nat) returns (key: SimpleKey)
    requires GoodInput(input, last) && i < |input| && MayBegin(input, i) && Part(input[i]) && FetchAll(input, last, i + 1).Fine?
    requires input[i].start.line == input[i].end.line && input[i].end.index <= input[i].start.index + 1024
    ensures key.possible && key.mark == input[i].start && Kept(FetchAll(input, last, i + 1).v, Depth(input, i), key)
  {
    hide FetchAll, Inv, Sound, GoodInput, Arrive, Dispatch, Stale, Part, MayBegin, Come;
    OneMore(input, last, i + 1);
    AllDepth(input, last, i);
    BeginAllowed(input, last, i);
    var v, x := FetchAll(input, last, i).v, input[i];
    ArriveKeeps(v, x.start);
    var u := Arrive(v, x.start).v;
    LastNumber(u);
    HasKeys(u);
    PartSaves(u, x);
    MarkAfter(v, x);
    key := Dispatch(u, x).v.keys[v.flow];
    SettleKey(Fetch(v, x).v, v.flow);
  }

  // ----- the value -----

  /** A KEY that the scanner has made up stands directly before the token that begins at m. */
  predicate Headed(a: seq<Marked>, m: Mark) {
    exists n :: 0 < n < |a| && a[n].start == m && !Implied(a[n]) && a[n - 1].start == m && IsKey(a[n - 1])
  }

  lemma {:induction false} MadeHeaded(v: View, x: Lexeme)
    requires Inv(v) && Sound(v) && x.token.ValueToken? && Last(v.keys).possible
    ensures FetchValue(v, x).Fine? && Headed(FetchValue(v, x).v.all, Last(v.keys).mark)
    ensures var w := FetchValue(v, x).v; w.flow == v.flow && !w.allowed && |w.keys| == |v.keys| && !Last(w.keys).possible
  {
    hide KeyNests, Run, Sorted, UpTo, Placed;
    var k := Last(v.keys);
    assert KeyOk(v, v.flow);
    var n, a, b := k.number, FetchValue(v, x).v.all, v.all;
    if v.flow > 0 || v.indent >= k.mark.column {
      assert a[n] == KeyOf(k) && a[n + 1] == b[n];
    } else {
      assert a[n + 1] == KeyOf(k) && a[n + 2] == b[n];
    }
  }

  /** The line from the first part of a node to its value. */
  predicate KeyLine(input: seq<Lexeme>, i: nat, k: nat)
    requires i < k < |input|
  {
    && MayBegin(input, i) && Part(input[i])
    && Parts(input, Depth(input, i), i + 1, k)
    && input[k].token.ValueToken? && Within(input[i].start, input[k].start)
  }

  lemma {:induction false} AtValue(input: seq<Lexeme>, last: Mark, i: nat, k: nat)
    requires GoodInput(input, last) && i < k < |input| && KeyLine(input, i, k) && FetchAll(input, last, k + 1).Fine?
    ensures FetchAll(input, last, k).Fine? && Sound(FetchAll(input, last, k).v)
    ensures Fetch(FetchAll(input, last, k).v, input[k]).Fine?
    ensures var w := Fetch(FetchAll(input, last, k).v, input[k]).v;
            && Headed(w.all, input[i].start) && w.flow == Depth(input, i) && !w.allowed && |w.keys| == w.flow + 1
            && !Last(w.keys).possible && w.mark == input[k].end
  {
    hide FetchAll, Inv, Sound, GoodInput, GoodLexeme, Arrive, FetchValue, Stale, Part, MayBegin, Come, Headed, Kept;
    OneMore(input, last, k + 1);
    FineBefore(input, last, i + 1, k);
    FirstEnd(input, last, i, k);
    var key := SavedThere(input, last, i);
    KeptAlong(input, last, Depth(input, i), i + 1, k, k, key);
    AllDepth(input, last, k);
    var v, x, d := FetchAll(input, last, k).v, input[k], Depth(input, i);
    KeyThere(v, d, key);
    ArriveKeeps(v, x.start);
    ArriveKey(v, x.start, d);
    var u := Arrive(v, x.start).v;
    LastNumber(u);
    HasKeys(u);
    MadeHeaded(u, x);
    MarkAfter(v, x);
  }

  lemma {:induction false} KeyThere(v: View, d: nat, key: SimpleKey)
    requires Kept(v, d, key)
    ensures d < |v.keys| && v.keys[d] == key
  {
  }

  lemma {:induction false} FineBefore(input: seq<Lexeme>, last: Mark, i: nat, k: nat)
    requires GoodInput(input, last) && i <= k <= |input| && FetchAll(input, last, k).Fine?
    ensures FetchAll(input, last, i).Fine?
    decreases k
  {
    hide FetchAll, Inv, Sound, GoodInput, Fetch, Stale;
    if i < k {
      OneMore(input, last, k);
      FineBefore(input, last, i, k - 1);
    }
  }

  lemma {:induction false} FirstEnd(input: seq<Lexeme>, last: Mark, i: nat, k: nat)
    requires GoodInput(input, last) && i < k < |input| && Within(input[i].start, input[k].start)
    ensures input[i].start.line == input[i].end.line && input[i].end.index <= input[i].start.index + 1024
  {
    hide GoodInput, EndOf;
    PlacesGrow(input, last, i, k);
    Place(input, last, i);
  }

  /** Where a key may begin, with the parts of a node and a value in one line, within 1024 characters:
      KEY is put before the first part. */
  lemma {:induction false} KeyFound(input: seq<Lexeme>, last: Mark, i: nat, k: nat)
    requires GoodInput(input, last) && i < k < |input| && KeyLine(input, i, k) && FetchAll(input, last, k + 1).Fine?
    ensures Headed(FetchAll(input, last, k + 1).v.all, input[i].start)
  {
    hide FetchAll, Inv, Sound, GoodInput, Fetch, Stale, KeyLine, Headed;
    OneMore(input, last, k + 1);
    AtValue(input, last, i, k);
  }

  /** No second key in the line: another value behind the parts of a node is refused in the block
      context, and has no KEY in a flow collection. */
  lemma {:induction false} NoSecondKey(input: seq<Lexeme>, last: Mark, i: nat, k: nat, j: nat)
    requires GoodInput(input, last) && i < k < j < |input| && KeyLine(input, i, k) && FetchAll(input, last, j).Fine?
    requires Parts(input, Depth(input, i), k + 1, j) && input[j].token.ValueToken? && Within(input[k].start, input[j].start)
    ensures Depth(input, i) == 0 ==> FetchAll(input, last, j + 1) == Wrong(ValueNotAllowed)
    ensures Depth(input, i) > 0 && FetchAll(input, last, j + 1).Fine? ==>
              FetchAll(input, last, j + 1).v.all == FetchAll(input, last, j).v.all + [Mk(input[j])]
  {
    hide FetchAll, Inv, Sound, GoodInput, GoodLexeme, Fetch, Stale, KeyLine, Headed, Kept, Part, MayBegin;
    var d := Depth(input, i);
    FineBefore(input, last, k + 1, j);
    OneMore(input, last, k + 1);
    AtValue(input, last, i, k);
    var key := GivenUp(Fetch(FetchAll(input, last, k).v, input[k]).v, d);
    KeptAlong(input, last, d, k + 1, j, j, key);
    Unfold(input, last, j + 1);
    AllDepth(input, last, j);
    LineEnd(input, last, k, j);
    ValueAlone(FetchAll(input, last, j).v, input[j], key);
  }

  lemma {:induction false} GivenUp(v: View, d: nat) returns (key: SimpleKey)
    requires |v.keys| == v.flow + 1 && v.flow == d && !v.allowed && !Last(v.keys).possible && Stale(v).Fine?
    ensures !key.possible && Kept(Stale(v).v, d, key)
  {
    key := v.keys[d];
    SettleKey(v, d);
  }

  lemma {:induction false} LineEnd(input: seq<Lexeme>, last: Mark, k: nat, j: nat)
    requires GoodInput(input, last) && k < j < |input| && Within(input[k].start, input[j].start)
    ensures EndOf(input, j).line == input[j].start.line
  {
    hide GoodInput, EndOf;
    PlacesGrow(input, last, k, j - 1);
    Place(input, last, j - 1);
    Place(input, last, j);
    Between(input[k].start, input[j - 1].end, input[j].start, input[j].start);
  }

  lemma {:induction false} ValueAlone(v: View, x: Lexeme, key: SimpleKey)
    requires Inv(v) && Sound(v) && GoodLexeme(x) && Before(v.mark, x.start) && x.token.ValueToken?
    requires Kept(v, v.flow, key) && !key.possible && v.mark.line == x.start.line
    ensures v.flow == 0 ==> Settle(Fetch(v, x)) == Wrong(ValueNotAllowed)
    ensures v.flow > 0 && Settle(Fetch(v, x)).Fine? ==> Settle(Fetch(v, x)).v.all == v.all + [Mk(x)]
  {
    hide KeyOk, Run, Sorted, UpTo, Placed, Close, MakeKey;
    var u := Come(v, x.start);
    if Stale(u).Fine? {
      CloseKeeps(Stale(u).v, x.start.column);
      if v.flow > 0 {
        ClosedInFlow(Stale(u).v, x.start.column);
      }
    }
  }

  lemma {:induction false} ClosedInFlow(v: View, column: int)
    requires v.flow > 0
    ensures Close(v, column) == v
  {
  }
}
