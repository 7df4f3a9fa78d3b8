/**
 * The parser reads what is written: over the tokens of any documents it delivers the events of their
 * trees, one by one, without an error.
 */
module YamlParsing {
  import opened YamlEvents
  import opened YamlTokens
  import opened YamlSyntax
  import opened YamlParser
  import T = YamlTrees

  // ----- several steps -----

  /** The key of a pair in a flow sequence is left out. The parser skips the token that follows KEY
      then, and the events that come later are not those of what was written. */
  predicate EmptyKey(c: Config) {
    c.state == FlowSequenceEntryMappingKey && c.tokens != []
    && (c.tokens[0].ValueToken? || EndsEntry(c.tokens[0], FlowSequenceEndToken))
  }

  /** From c the parser delivers the events es, without an empty key, and is in d then. */
  ghost predicate Yields(c: Config, es: seq<Event>, d: Config)
    decreases |es|
  {
    if es == [] then c == d else !EmptyKey(c) && Gives(Step(c), es, d)
  }

  /** The same after a step. */
  ghost predicate Gives(o: Outcome, es: seq<Event>, d: Config)
    decreases |es|, 0
  {
    es != [] && o.Go? && o.event == es[0] && Yields(o.next, es[1..], d)
  }

  lemma {:induction false} YieldsThen(c: Config, a: seq<Event>, m: Config, b: seq<Event>, d: Config)
    requires Yields(c, a, m) && Yields(m, b, d)
    ensures Yields(c, a + b, d)
    decreases |a|
  {
    hide Step;
    if a == [] {
      assert a + b == b;
    } else {
      assert (a + b)[1..] == a[1..] + b;
      YieldsThen(Step(c).next, a[1..], m, b, d);
    }
  }

  lemma {:induction false} GivesThen(o: Outcome, a: seq<Event>, m: Config, b: seq<Event>, d: Config)
    requires Gives(o, a, m) && Yields(m, b, d)
    ensures Gives(o, a + b, d)
  {
    hide Step;
    assert (a + b)[1..] == a[1..] + b;
    YieldsThen(o.next, a[1..], m, b, d);
  }

  /** One event. */
  lemma {:induction false} GivesOne(e: Event, d: Config)
    ensures Gives(Go(e, d), [e], d)
  {
    assert [e][1..] == [];
  }

  // ----- first tokens -----

  /** A node begins with it, in any context. */
  predicate Begins(t: Token) {
    t.AliasToken? || t.AnchorToken? || t.TagToken? || t.ScalarToken? || t.FlowSequenceStartToken? || t.FlowMappingStartToken?
    || t.BlockSequenceStartToken? || t.BlockMappingStartToken?
  }

  lemma {:induction false} Head(x: Node, handles: set<nat>, block: bool, indentless: bool, rest: seq<Token>)
    requires Ok(x, handles, block, indentless)
    ensures Tokens(x) != [] && (Tokens(x) + rest)[0] == Tokens(x)[0]
    ensures Begins(Tokens(x)[0]) || (indentless && Tokens(x)[0].BlockEntryToken?)
  {
    hide AllItems, AllPairs, AllEntries, EntriesTokens, PairsTokens, Known;
    match x
    case AliasOf =>
    case ScalarOf(p) =>
    case Bare(p) =>
    case BlockSequence(p, items) =>
    case Indentless(p, items) =>
    case BlockMapping(p, pairs) =>
    case FlowSequence(p, es, comma) =>
    case FlowMapping(p, es, comma) =>
  }

  // ----- nodes -----

  /** After a node: in the state on top of the stack, before the tokens that follow. */
  function Done(c: Config, rest: seq<Token>): Config
    requires c.states != []
  {
    Popped(c).(tokens := rest, ended := false)
  }

  /** The handles written are those the parser knows. */
  predicate Knows(hs: seq<nat>, handles: set<nat>) {
    forall h :: h in handles ==> h in hs
  }

  /** After the properties of a node its contents are read. */
  lemma {:induction false} PropsRead(c: Config, p: Props, handles: set<nat>, rest: seq<Token>, block: bool, indentless: bool)
    requires c.tokens == PropsTokens(p) + rest && rest != [] && Known(p, handles) && Knows(c.handles, handles) && !c.ended
    requires !rest[0].AnchorToken? && !rest[0].TagToken? && (p == NoProps ==> !rest[0].AliasToken?)
    ensures NodeStep(c, block, indentless) == ContentStep(c.(tokens := rest), block, indentless, p != NoProps)
  {
    hide ContentStep;
    match p
    case NoProps =>
      assert c.tokens == rest;
    case Anchored =>
      assert c.tokens[1..] == rest;
    case Tagged(h) =>
      assert c.tokens[1..] == rest;
    case AnchoredTagged(h) =>
      assert c.tokens[1..] == [TagToken(h)] + rest;
      assert c.tokens[1..][1..] == rest;
    case TaggedAnchored(h) =>
      assert c.tokens[1..] == [AnchorToken] + rest;
      assert c.tokens[1..][1..] == rest;
  }

  /** What may follow a node: nothing that could be a part of it. */
  predicate Follow(rest: seq<Token>, indentless: bool) {
    rest != [] && !Begins(rest[0]) && (indentless ==> EndsPart(rest[0]))
  }

  lemma {:induction false} Nested(a: seq<Token>, b: seq<Token>, c: seq<Token>, d: seq<Token>, e: seq<Token>)
    ensures a + (b + (c + d)) + e == a + (b + (c + d + e))
  {
  }

  /** How a collection with a start token of its own begins. */
  predicate Starts(t: Token, start: Event, state: State, block: bool) {
    match t
    case BlockSequenceStartToken => start == SequenceStart(false) && state == BlockSequenceFirstEntry && block
    case BlockMappingStartToken => start == MappingStart(false) && state == BlockMappingFirstKey && block
    case FlowSequenceStartToken => start == SequenceStart(true) && state == FlowSequenceFirstEntry
    case FlowMappingStartToken => start == MappingStart(true) && state == FlowMappingFirstKey
    case _ => false
  }

  /** The step after the start token. */
  function InnerStep(d: Config): Outcome {
    match d.state
    case BlockSequenceFirstEntry => BlockSequenceStep(d)
    case BlockMappingFirstKey => BlockMappingKeyStep(d)
    case FlowSequenceFirstEntry => FlowSequenceStep(d, true)
    case FlowMappingFirstKey => FlowMappingStep(d, true)
    case _ => Stuck
  }

  lemma {:induction false} StartTokenRead(c: Config, t: Token, inner: seq<Token>, start: Event, state: State, block: bool, indentless: bool,
                                      any: bool)
    requires c.tokens == [t] + inner && !c.ended && Starts(t, start, state, block)
    ensures ContentStep(c, block, indentless, any) == Go(start, c.(state := state))
    ensures Step(c.(state := state)) == InnerStep(c.(state := state, tokens := inner))
  {
    hide BlockSequenceStep, BlockMappingKeyStep, FlowSequenceStep, FlowMappingStep;
    assert c.tokens[1..] == inner;
  }

  lemma {:induction false} CollectionRead(c: Config, p: Props, handles: set<nat>, block: bool, indentless: bool, t: Token, inner: seq<Token>,
                                          start: Event, state: State, es: seq<Event>, z: Config)
    requires c.tokens == PropsTokens(p) + ([t] + inner) && Known(p, handles) && Knows(c.handles, handles) && !c.ended
    requires Starts(t, start, state, block) && Gives(InnerStep(c.(state := state, tokens := inner)), es, z)
    ensures Gives(NodeStep(c, block, indentless), [start] + es, z)
  {
    hide Step, NodeStep, Gives, Known, PropsTokens, Knows, InnerStep, ContentStep;
    var d := c.(tokens := [t] + inner);
    PropsRead(c, p, handles, d.tokens, block, indentless);
    StartTokenRead(d, t, inner, start, state, block, indentless, p != NoProps);
    var e := d.(state := state);
    Enter(e, start, Step(e), es, z);
  }

  lemma {:induction false} SameDone(c: Config, d: Config, rest: seq<Token>)
    requires c.states != [] && d.states == c.states && d.handles == c.handles
    ensures Done(d, rest) == Done(c, rest)
  {
  }

  lemma {:induction false} SequenceText(flow: bool, ts: seq<T.Tree>)
    ensures T.Text(T.SequenceNode(flow, ts)) == [SequenceStart(flow)] + (T.Texts(ts) + [SequenceEnd])
  {
    hide T.Texts;
  }

  lemma {:induction false} MappingText(flow: bool, ts: seq<T.Tree>)
    ensures T.Text(T.MappingNode(flow, ts)) == [MappingStart(flow)] + (T.Texts(ts) + [MappingEnd])
  {
    hide T.Texts;
  }

  lemma {:induction false} BlockSequenceRead(x: Node, c: Config, handles: set<nat>, block: bool, indentless: bool, rest: seq<Token>)
    requires Ok(x, handles, block, indentless) && c.tokens == Tokens(x) + rest && Follow(rest, indentless)
    requires c.states != [] && !c.ended && Knows(c.handles, handles) && x.BlockSequence?
    ensures Gives(NodeStep(c, block, indentless), T.Text(Tree(x)), Done(c, rest))
    decreases x, 0
  {
    hide Step, NodeStep, Gives, Known, PropsTokens, Knows, T.Texts, T.Text, Popped, Begins, AllItems, ItemTokens, Trees;
    var inner := ItemTokens(x.items) + [BlockEndToken] + rest;
    var d := c.(tokens := inner, state := BlockSequenceFirstEntry);
    Nested(PropsTokens(x.props), [BlockSequenceStartToken], ItemTokens(x.items), [BlockEndToken], rest);
    ItemsRead(x.items, d, handles, rest);
    SameDone(c, d, rest);
    CollectionRead(c, x.props, handles, block, indentless, BlockSequenceStartToken, inner, SequenceStart(false), BlockSequenceFirstEntry,
      T.Texts(Trees(x.items)) + [SequenceEnd], Done(c, rest));
    SequenceText(false, Trees(x.items));
  }

  lemma {:induction false} IndentlessNodeRead(x: Node, c: Config, handles: set<nat>, block: bool, indentless: bool, rest: seq<Token>)
    requires Ok(x, handles, block, indentless) && c.tokens == Tokens(x) + rest && Follow(rest, indentless)
    requires c.states != [] && !c.ended && Knows(c.handles, handles) && x.Indentless?
    ensures Gives(NodeStep(c, block, indentless), T.Text(Tree(x)), Done(c, rest))
    decreases x, 0
  {
    hide Step, NodeStep, Gives, AllItems, AllPairs, AllEntries, ItemTokens, PairsTokens, EntriesTokens, Trees, PairTrees,
         SequenceTrees, MappingTrees, T.Texts, T.Text, Known, PropsTokens, Knows;
    var d := c.(tokens := ItemTokens(x.items) + rest);
    ItemsHead(x.items);
    assert Tokens(x) + rest == PropsTokens(x.props) + d.tokens;
    PropsRead(c, x.props, handles, d.tokens, block, indentless);
    var e := d.(state := IndentlessSequenceEntry);
    IndentlessRead(x.items, e, handles, rest);
    Entering(e);
    Enter(e, SequenceStart(false), IndentlessSequenceStep(e), T.Texts(Trees(x.items)) + [SequenceEnd], Done(c, rest));
    SequenceText(false, Trees(x.items));
  }

  lemma {:induction false} BlockMappingRead(x: Node, c: Config, handles: set<nat>, block: bool, indentless: bool, rest: seq<Token>)
    requires Ok(x, handles, block, indentless) && c.tokens == Tokens(x) + rest && Follow(rest, indentless)
    requires c.states != [] && !c.ended && Knows(c.handles, handles) && x.BlockMapping?
    ensures Gives(NodeStep(c, block, indentless), T.Text(Tree(x)), Done(c, rest))
    decreases x, 0
  {
    hide Step, NodeStep, Gives, Known, PropsTokens, Knows, T.Texts, T.Text, Popped, Begins, AllPairs, PairsTokens, PairTrees;
    var inner := PairsTokens(x.pairs) + [BlockEndToken] + rest;
    var d := c.(tokens := inner, state := BlockMappingFirstKey);
    Nested(PropsTokens(x.props), [BlockMappingStartToken], PairsTokens(x.pairs), [BlockEndToken], rest);
    PairsRead(x.pairs, d, handles, rest);
    SameDone(c, d, rest);
    CollectionRead(c, x.props, handles, block, indentless, BlockMappingStartToken, inner, MappingStart(false), BlockMappingFirstKey,
      T.Texts(PairTrees(x.pairs)) + [MappingEnd], Done(c, rest));
    MappingText(false, PairTrees(x.pairs));
  }

  lemma {:induction false} FlowSequenceRead(x: Node, c: Config, handles: set<nat>, block: bool, indentless: bool, rest: seq<Token>)
    requires Ok(x, handles, block, indentless) && c.tokens == Tokens(x) + rest && Follow(rest, indentless)
    requires c.states != [] && !c.ended && Knows(c.handles, handles) && x.FlowSequence?
    ensures Gives(NodeStep(c, block, indentless), T.Text(Tree(x)), Done(c, rest))
    decreases x, 0
  {
    hide Step, NodeStep, Gives, Known, PropsTokens, Knows, T.Texts, T.Text, Popped, Begins, AllEntries, EntriesTokens, SequenceTrees, FlowSequenceStep;
    var inner := EntriesTokens(x.entries, x.comma) + [FlowSequenceEndToken] + rest;
    var d := c.(tokens := inner, state := FlowSequenceFirstEntry);
    Nested(PropsTokens(x.props), [FlowSequenceStartToken], EntriesTokens(x.entries, x.comma), [FlowSequenceEndToken], rest);
    SequenceRead(x.entries, x.comma, d, handles, true, rest);
    SameDone(c, d, rest);
    CollectionRead(c, x.props, handles, block, indentless, FlowSequenceStartToken, inner, SequenceStart(true), FlowSequenceFirstEntry,
      T.Texts(SequenceTrees(x.entries)) + [SequenceEnd], Done(c, rest));
    SequenceText(true, SequenceTrees(x.entries));
  }

  lemma {:induction false} FlowMappingRead(x: Node, c: Config, handles: set<nat>, block: bool, indentless: bool, rest: seq<Token>)
    requires Ok(x, handles, block, indentless) && c.tokens == Tokens(x) + rest && Follow(rest, indentless)
    requires c.states != [] && !c.ended && Knows(c.handles, handles) && x.FlowMapping?
    ensures Gives(NodeStep(c, block, indentless), T.Text(Tree(x)), Done(c, rest))
    decreases x, 0
  {
    hide Step, NodeStep, Gives, Known, PropsTokens, Knows, T.Texts, T.Text, Popped, Begins, AllEntries, EntriesTokens, MappingTrees, FlowMappingStep;
    var inner := EntriesTokens(x.entries, x.comma) + [FlowMappingEndToken] + rest;
    var d := c.(tokens := inner, state := FlowMappingFirstKey);
    Nested(PropsTokens(x.props), [FlowMappingStartToken], EntriesTokens(x.entries, x.comma), [FlowMappingEndToken], rest);
    MappingRead(x.entries, x.comma, d, handles, true, rest);
    SameDone(c, d, rest);
    CollectionRead(c, x.props, handles, block, indentless, FlowMappingStartToken, inner, MappingStart(true), FlowMappingFirstKey,
      T.Texts(MappingTrees(x.entries)) + [MappingEnd], Done(c, rest));
    MappingText(true, MappingTrees(x.entries));
  }

  lemma {:induction false} LeafRead(x: Node, c: Config, handles: set<nat>, block: bool, indentless: bool, rest: seq<Token>)
    requires Ok(x, handles, block, indentless) && c.tokens == Tokens(x) + rest && Follow(rest, indentless)
    requires c.states != [] && !c.ended && Knows(c.handles, handles) && (x.AliasOf? || x.ScalarOf? || x.Bare?)
    ensures Gives(NodeStep(c, block, indentless), T.Text(Tree(x)), Done(c, rest))
    decreases x, 0
  {
    hide Step, NodeStep, Gives, Known, PropsTokens, Knows;
    if x.AliasOf? {
      assert c.tokens[1..] == rest;
      AliasRead(c);
      GivesOne(Alias, Done(c, rest));
    } else {
      var d := c.(tokens := (if x.Bare? then [] else [ScalarToken]) + rest);
      assert Tokens(x) + rest == PropsTokens(x.props) + d.tokens;
      PropsRead(c, x.props, handles, d.tokens, block, indentless);
      assert x.Bare? ==> d.tokens == rest;
      assert x.ScalarOf? ==> d.tokens[1..] == rest;
      GivesOne(Scalar, Done(c, rest));
    }
  }

  /** A node in its context: the parser, with the state to return to on top of the stack, delivers
      the events of the node and returns. */
  lemma {:induction false} NodeRead(x: Node, c: Config, handles: set<nat>, block: bool, indentless: bool, rest: seq<Token>)
    requires Ok(x, handles, block, indentless) && c.tokens == Tokens(x) + rest && Follow(rest, indentless)
    requires c.states != [] && !c.ended && Knows(c.handles, handles)
    ensures Gives(NodeStep(c, block, indentless), T.Text(Tree(x)), Done(c, rest))
    decreases x, 1
  {
    hide Step, NodeStep, Gives, Tokens, Tree, T.Text, Done, Follow, Knows, AllItems, AllPairs, AllEntries;
    match x
    case BlockSequence(_, _) => BlockSequenceRead(x, c, handles, block, indentless, rest);
    case Indentless(_, _) => IndentlessNodeRead(x, c, handles, block, indentless, rest);
    case BlockMapping(_, _) => BlockMappingRead(x, c, handles, block, indentless, rest);
    case FlowSequence(_, _, _) => FlowSequenceRead(x, c, handles, block, indentless, rest);
    case FlowMapping(_, _, _) => FlowMappingRead(x, c, handles, block, indentless, rest);
    case _ => LeafRead(x, c, handles, block, indentless, rest);
  }

  lemma {:induction false} AliasRead(c: Config)
    requires c.tokens != [] && c.tokens[0].AliasToken? && c.states != []
    ensures NodeStep(c, true, true) == NodeStep(c, true, false) == NodeStep(c, false, true) == NodeStep(c, false, false)
    ensures NodeStep(c, true, true) == Go(Alias, Skipped(Popped(c)))
  {
  }

  /** The step of each state inside a collection. */
  lemma {:induction false} Entering(e: Config)
    requires !e.ended && e.tokens != []
    ensures e.state == BlockSequenceFirstEntry ==> Step(e) == BlockSequenceStep(Skipped(e))
    ensures e.state == IndentlessSequenceEntry ==> Step(e) == IndentlessSequenceStep(e)
    ensures e.state == BlockMappingFirstKey ==> Step(e) == BlockMappingKeyStep(Skipped(e))
    ensures e.state == FlowSequenceFirstEntry ==> Step(e) == FlowSequenceStep(Skipped(e), true)
    ensures e.state == FlowMappingFirstKey ==> Step(e) == FlowMappingStep(Skipped(e), true)
    ensures e.state == BlockSequenceEntry ==> Step(e) == BlockSequenceStep(e)
    ensures e.state == BlockMappingKey ==> Step(e) == BlockMappingKeyStep(e)
    ensures e.state == BlockMappingValue ==> Step(e) == BlockMappingValueStep(e)
    ensures e.state == FlowSequenceEntry ==> Step(e) == FlowSequenceStep(e, false)
    ensures e.state == FlowMappingKey ==> Step(e) == FlowMappingStep(e, false)
    ensures e.state == FlowMappingValue ==> Step(e) == FlowValueStep(e, FlowMappingKey, FlowMappingEndToken)
    ensures e.state == FlowMappingEmptyValue ==> Step(e) == EmptyValueStep(e)
    ensures e.state == FlowSequenceEntryMappingKey ==> Step(e) == PairKeyStep(e)
    ensures e.state == FlowSequenceEntryMappingValue ==>
              Step(e) == FlowValueStep(e, FlowSequenceEntryMappingEnd, FlowSequenceEndToken)
    ensures e.state == FlowSequenceEntryMappingEnd ==> Step(e) == PairEndStep(e)
  {
  }

  lemma {:induction false} ItemsHead(items: seq<Node>)
    requires items != []
    ensures ItemTokens(items) != [] && ItemTokens(items)[0] == BlockEntryToken
  {
    hide Tokens;
  }

  /** The event that begins a collection, and what the next step gives. */
  lemma {:induction false} Enter(e: Config, start: Event, o: Outcome, es: seq<Event>, d: Config)
    requires Step(e) == o && Gives(o, es, d) && !e.state.FlowSequenceEntryMappingKey?
    ensures Gives(Go(start, e), [start] + es, d)
  {
    hide Step;
    assert ([start] + es)[1..] == es;
  }

  lemma {:induction false} Onward(m: Config, o: Outcome, es: seq<Event>, d: Config)
    requires Step(m) == o && Gives(o, es, d) && !EmptyKey(m)
    ensures Yields(m, es, d)
  {
    hide Step;
  }

  /** A node after which the parser is in state next. */
  lemma {:induction false} ChildRead(x: Node, e: Config, next: State, handles: set<nat>, block: bool, indentless: bool, after: seq<Token>)
    requires Ok(x, handles, block, indentless) && e.tokens == Tokens(x) + after && Follow(after, indentless)
    requires !e.ended && Knows(e.handles, handles)
    ensures Gives(ChildStep(e, next, block, indentless), T.Text(Tree(x)), e.(state := next, tokens := after))
    decreases x, 2
  {
    hide NodeStep, Gives, T.Text, Tree, Ok, Tokens;
    var c := e.(states := e.states + [next]);
    NodeRead(x, c, handles, block, indentless, after);
    assert c.states[..|c.states| - 1] == e.states;
    assert Done(c, after) == e.(state := next, tokens := after);
  }

  // ----- block sequences -----

  lemma {:induction false} AllItemsRest(xs: seq<Node>, handles: set<nat>)
    requires xs != [] && AllItems(xs, handles)
    ensures OkPart(xs[0], handles, true, false) && AllItems(xs[1..], handles)
  {
    hide OkPart;
  }

  lemma {:induction false} ItemsRead(xs: seq<Node>, d: Config, handles: set<nat>, rest: seq<Token>)
    requires AllItems(xs, handles) && d.tokens == ItemTokens(xs) + [BlockEndToken] + rest
    requires d.states != [] && !d.ended && Knows(d.handles, handles)
    ensures Gives(BlockSequenceStep(d), T.Texts(Trees(xs)) + [SequenceEnd], Done(d, rest))
    decreases xs, 0
  {
    hide NodeStep, Gives, T.Text, Tree, Ok, Tokens, AllItems, T.Texts, Knows, Yields, Begins, Step;
    if xs == [] {
      assert d.tokens == [BlockEndToken] + rest && d.tokens[1..] == rest;
      GivesOne(SequenceEnd, Done(d, rest));
      assert T.Texts(Trees(xs)) + [SequenceEnd] == [SequenceEnd] by { T.NoText(); }
    } else {
      var x, after := xs[0], ItemTokens(xs[1..]) + [BlockEndToken] + rest;
      AllItemsRest(xs, handles);
      assert d.tokens == [BlockEntryToken] + (Tokens(x) + after);
      var e := d.(tokens := Tokens(x) + after);
      assert Skipped(d) == e;
      var m := d.(state := BlockSequenceEntry, tokens := after);
      assert FollowsItem(after) by { ItemFollowed(xs[1..], [BlockEndToken] + rest); }
      ItemRead(x, e, handles, after);
      ItemsRead(xs[1..], m, handles, rest);
      var tail := T.Texts(Trees(xs[1..])) + [SequenceEnd];
      Entering(m);
      Onward(m, BlockSequenceStep(m), tail, Done(d, rest));
      GivesThen(BlockSequenceStep(d), T.Text(Tree(x)), m, tail, Done(d, rest));
      T.TextsFront(Tree(x), Trees(xs[1..]));
      assert T.Texts(Trees(xs)) + [SequenceEnd] == T.Text(Tree(x)) + tail;
    }
  }

  /** An entry of a block sequence is followed by the next, or the end. */
  predicate FollowsItem(after: seq<Token>) {
    after != [] && (after[0].BlockEntryToken? || after[0].BlockEndToken?)
  }

  lemma {:induction false} ItemFollowed(xs: seq<Node>, end: seq<Token>)
    requires end != [] && end[0].BlockEndToken?
    ensures FollowsItem(ItemTokens(xs) + end)
    ensures ItemTokens(xs) + end == ItemTokens(xs) + [BlockEndToken] + end[1..]
  {
    hide Tokens;
  }

  lemma {:induction false} ItemRead(x: Node, e: Config, handles: set<nat>, after: seq<Token>)
    requires OkPart(x, handles, true, false) && e.tokens == Tokens(x) + after && FollowsItem(after) && !e.ended && Knows(e.handles, handles)
    ensures var d := e.(tokens := [BlockEntryToken] + e.tokens);
            Gives(BlockSequenceStep(d), T.Text(Tree(x)), e.(state := BlockSequenceEntry, tokens := after))
    decreases x, 3
  {
    hide NodeStep, Gives, Ok, ChildStep, Knows;
    var d := e.(tokens := [BlockEntryToken] + e.tokens);
    assert d.tokens[1..] == e.tokens;
    if x.Missing? {
      assert e.tokens == after;
      GivesOne(Scalar, e.(state := BlockSequenceEntry, tokens := after));
    } else {
      Head(x, handles, true, false, after);
      ChildRead(x, e, BlockSequenceEntry, handles, true, false, after);
    }
  }

  // ----- sequences without indentation -----

  /** An entry of such a sequence is followed by the next, or by what ends a key or a value. */
  predicate FollowsIndentless(after: seq<Token>) {
    after != [] && (after[0].BlockEntryToken? || EndsPart(after[0]))
  }

  lemma {:induction false} IndentlessItemRead(x: Node, e: Config, handles: set<nat>, after: seq<Token>)
    requires OkPart(x, handles, true, false) && e.tokens == Tokens(x) + after && FollowsIndentless(after)
    requires !e.ended && Knows(e.handles, handles)
    ensures var d := e.(tokens := [BlockEntryToken] + e.tokens);
            Gives(IndentlessSequenceStep(d), T.Text(Tree(x)), e.(state := IndentlessSequenceEntry, tokens := after))
    decreases x, 3
  {
    hide NodeStep, Gives, Ok, ChildStep, Knows;
    var d := e.(tokens := [BlockEntryToken] + e.tokens);
    assert d.tokens[1..] == e.tokens;
    if x.Missing? {
      assert e.tokens == after;
      GivesOne(Scalar, e.(state := IndentlessSequenceEntry, tokens := after));
    } else {
      Head(x, handles, true, false, after);
      ChildRead(x, e, IndentlessSequenceEntry, handles, true, false, after);
    }
  }

  lemma {:induction false} IndentlessRead(xs: seq<Node>, d: Config, handles: set<nat>, rest: seq<Token>)
    requires AllItems(xs, handles) && d.tokens == ItemTokens(xs) + rest && rest != [] && EndsPart(rest[0])
    requires d.states != [] && !d.ended && Knows(d.handles, handles)
    ensures Gives(IndentlessSequenceStep(d), T.Texts(Trees(xs)) + [SequenceEnd], Done(d, rest))
    decreases xs, 0
  {
    hide NodeStep, Gives, T.Text, Tree, Ok, Tokens, AllItems, T.Texts, Knows, Yields, Begins, Step;
    if xs == [] {
      assert d.tokens == rest;
      GivesOne(SequenceEnd, Done(d, rest));
      assert T.Texts(Trees(xs)) + [SequenceEnd] == [SequenceEnd] by { T.NoText(); }
    } else {
      var x, after := xs[0], ItemTokens(xs[1..]) + rest;
      AllItemsRest(xs, handles);
      assert d.tokens == [BlockEntryToken] + (Tokens(x) + after);
      var e := d.(tokens := Tokens(x) + after);
      var m := d.(state := IndentlessSequenceEntry, tokens := after);
      IndentlessItemRead(x, e, handles, after);
      IndentlessRead(xs[1..], m, handles, rest);
      var tail := T.Texts(Trees(xs[1..])) + [SequenceEnd];
      Entering(m);
      Onward(m, IndentlessSequenceStep(m), tail, Done(d, rest));
      GivesThen(IndentlessSequenceStep(d), T.Text(Tree(x)), m, tail, Done(d, rest));
      T.TextsFront(Tree(x), Trees(xs[1..]));
      assert T.Texts(Trees(xs)) + [SequenceEnd] == T.Text(Tree(x)) + tail;
    }
  }

  // ----- block mappings -----

  /** What stands between the key of a pair and the next pair. */
  function ValueTokens(p: Pair): seq<Token> {
    if p.colon then [ValueToken] + Tokens(p.value) else []
  }

  predicate FollowsPart(after: seq<Token>) {
    after != [] && EndsPart(after[0])
  }

  lemma {:induction false} PartRead(x: Node, e: Config, next: State, handles: set<nat>, after: seq<Token>)
    requires OkPart(x, handles, true, true) && e.tokens == Tokens(x) + after && FollowsPart(after)
    requires !e.ended && Knows(e.handles, handles)
    ensures Gives(BlockPartStep(e, next), T.Text(Tree(x)), e.(state := next, tokens := after))
    decreases x, 3
  {
    hide NodeStep, Gives, Ok, ChildStep, Knows;
    if x.Missing? {
      assert e.tokens == after;
      GivesOne(Scalar, e.(state := next, tokens := after));
    } else {
      Head(x, handles, true, true, after);
      ChildRead(x, e, next, handles, true, true, after);
    }
  }

  lemma {:induction false} MissingText()
    ensures Tokens(Missing) == [] && T.Text(Tree(Missing)) == [Scalar]
  {
  }

  lemma {:induction false} ValueRead(p: Pair, e: Config, handles: set<nat>, after: seq<Token>)
    requires OkPair(p, handles, true) && e.tokens == ValueTokens(p) + after && FollowsPart(after) && !after[0].ValueToken?
    requires !e.ended && Knows(e.handles, handles)
    ensures Gives(BlockMappingValueStep(e), T.Text(Tree(p.value)), e.(state := BlockMappingKey, tokens := after))
    decreases p, 0
  {
    hide NodeStep, Gives, Ok, BlockPartStep, Knows, Tree, Tokens, T.Text, Begins;
    MissingText();
    if p.colon {
      assert e.tokens == [ValueToken] + (Tokens(p.value) + after);
      PartRead(p.value, e.(tokens := Tokens(p.value) + after), BlockMappingKey, handles, after);
    } else {
      assert e.tokens == after;
      GivesOne(Scalar, e.(state := BlockMappingKey, tokens := after));
    }
  }

  lemma {:induction false} PairRead(p: Pair, d: Config, handles: set<nat>, after: seq<Token>)
    requires OkPair(p, handles, true) && d.tokens == PairTokens(p) + after && FollowsPart(after) && !after[0].ValueToken?
    requires !d.ended && Knows(d.handles, handles)
    ensures Gives(BlockMappingKeyStep(d), T.Texts(PairTree(p)), d.(state := BlockMappingKey, tokens := after))
    decreases p, 1
  {
    hide NodeStep, Gives, Ok, Knows, T.Text, T.Texts, Tokens, Tree, BlockPartStep, Step, Yields;
    var mid := ValueTokens(p) + after;
    assert d.tokens == [KeyToken] + (Tokens(p.key) + mid);
    PartRead(p.key, d.(tokens := Tokens(p.key) + mid), BlockMappingValue, handles, mid);
    var m := d.(state := BlockMappingValue, tokens := mid);
    ValueRead(p, m, handles, after);
    Entering(m);
    var k := d.(state := BlockMappingKey, tokens := after);
    Onward(m, BlockMappingValueStep(m), T.Text(Tree(p.value)), k);
    GivesThen(BlockMappingKeyStep(d), T.Text(Tree(p.key)), m, T.Text(Tree(p.value)), k);
    TwoTexts(Tree(p.key), Tree(p.value));
  }

  lemma {:induction false} TwoTexts(a: T.Tree, b: T.Tree)
    ensures T.Texts([a, b]) == T.Text(a) + T.Text(b)
  {
    hide T.Text;
    T.TextsFront(a, [b]);
    T.TextsFront(b, []);
    assert [a] + [b] == [a, b] && [b] + [] == [b];
    assert T.Text(b) + T.Texts([]) == T.Text(b) by { T.NoText(); }
  }

  lemma {:induction false} TextsJoin(a: seq<T.Tree>, b: seq<T.Tree>)
    ensures T.Texts(a + b) == T.Texts(a) + T.Texts(b)
    decreases |b|
  {
    hide T.Text;
    if b == [] {
      assert a + b == a;
      T.NoText();
    } else {
      var n := |b| - 1;
      assert (a + b)[..|a| + n] == a + b[..n];
      TextsJoin(a, b[..n]);
    }
  }

  lemma {:induction false} PairsHead(ps: seq<Pair>, end: seq<Token>)
    requires end != [] && end[0].BlockEndToken?
    ensures var after := PairsTokens(ps) + end; FollowsPart(after) && !after[0].ValueToken?
  {
    hide Tokens;
  }

  lemma {:induction false} AllPairsRest(ps: seq<Pair>, handles: set<nat>)
    requires ps != [] && AllPairs(ps, handles)
    ensures OkPair(ps[0], handles, true) && AllPairs(ps[1..], handles)
  {
    hide OkPair;
  }

  lemma {:induction false} PairsRead(ps: seq<Pair>, d: Config, handles: set<nat>, rest: seq<Token>)
    requires AllPairs(ps, handles) && d.tokens == PairsTokens(ps) + [BlockEndToken] + rest
    requires d.states != [] && !d.ended && Knows(d.handles, handles)
    ensures Gives(BlockMappingKeyStep(d), T.Texts(PairTrees(ps)) + [MappingEnd], Done(d, rest))
    decreases ps, 0
  {
    hide NodeStep, Gives, T.Text, Tree, PairTokens, AllPairs, T.Texts, Knows, Yields, Begins, Step, PairTree, OkPair;
    if ps == [] {
      assert d.tokens == [BlockEndToken] + rest && d.tokens[1..] == rest;
      GivesOne(MappingEnd, Done(d, rest));
      assert T.Texts(PairTrees(ps)) + [MappingEnd] == [MappingEnd] by { T.NoText(); }
    } else {
      var p, after := ps[0], PairsTokens(ps[1..]) + ([BlockEndToken] + rest);
      AllPairsRest(ps, handles);
      assert d.tokens == PairTokens(p) + after;
      PairsHead(ps[1..], [BlockEndToken] + rest);
      var m := d.(state := BlockMappingKey, tokens := after);
      PairRead(p, d, handles, after);
      assert after == PairsTokens(ps[1..]) + [BlockEndToken] + rest;
      PairsRead(ps[1..], m, handles, rest);
      var tail := T.Texts(PairTrees(ps[1..])) + [MappingEnd];
      Entering(m);
      Onward(m, BlockMappingKeyStep(m), tail, Done(d, rest));
      GivesThen(BlockMappingKeyStep(d), T.Texts(PairTree(p)), m, tail, Done(d, rest));
      TextsJoin(PairTree(p), PairTrees(ps[1..]));
      assert T.Texts(PairTrees(ps)) + [MappingEnd] == T.Texts(PairTree(p)) + tail;
    }
  }

  // ----- flow collections -----

  /** An entry is followed by a comma or the end of the collection. */
  predicate FollowsEntry(after: seq<Token>, end: Token) {
    after != [] && EndsEntry(after[0], end) && (end.FlowSequenceEndToken? || end.FlowMappingEndToken?)
  }

  lemma {:induction false} FlowPartRead(x: Node, e: Config, next: State, end: Token, handles: set<nat>, after: seq<Token>)
    requires OkPart(x, handles, false, false) && e.tokens == Tokens(x) + after && FollowsEntry(after, end)
    requires !e.ended && Knows(e.handles, handles)
    ensures Gives(FlowPartStep(e, next, end), T.Text(Tree(x)), e.(state := next, tokens := after))
    decreases x, 3
  {
    hide NodeStep, Gives, Ok, ChildStep, Knows;
    if x.Missing? {
      assert e.tokens == after;
      GivesOne(Scalar, e.(state := next, tokens := after));
    } else {
      Head(x, handles, false, false, after);
      ChildRead(x, e, next, handles, false, false, after);
    }
  }

  lemma {:induction false} FlowValueRead(p: Pair, e: Config, next: State, end: Token, handles: set<nat>, after: seq<Token>)
    requires OkPair(p, handles, false) && e.tokens == ValueTokens(p) + after && FollowsEntry(after, end)
    requires !e.ended && Knows(e.handles, handles)
    ensures Gives(FlowValueStep(e, next, end), T.Text(Tree(p.value)), e.(state := next, tokens := after))
    decreases p, 0
  {
    hide NodeStep, Gives, Ok, FlowPartStep, Knows, Tree, Tokens, T.Text, Begins;
    MissingText();
    if p.colon {
      assert e.tokens == [ValueToken] + (Tokens(p.value) + after);
      FlowPartRead(p.value, e.(tokens := Tokens(p.value) + after), next, end, handles, after);
    } else {
      assert e.tokens == after;
      GivesOne(Scalar, e.(state := next, tokens := after));
    }
  }

  /** After an entry: a comma and the next entry, or the end. */
  lemma {:induction false} EntryFollowed(es: seq<Entry>, comma: bool, end: Token, rest: seq<Token>)
    requires end.FlowSequenceEndToken? || end.FlowMappingEndToken?
    ensures FollowsEntry(Comma(es, comma) + EntriesTokens(es, comma) + [end] + rest, end)
  {
    hide EntryTokens;
  }

  lemma {:induction false} AllEntriesRest(es: seq<Entry>, handles: set<nat>, mapping: bool)
    requires es != [] && AllEntries(es, handles, mapping)
    ensures OkEntry(es[0], handles, mapping) && AllEntries(es[1..], handles, mapping)
  {
    hide OkEntry;
  }

  lemma {:induction false} EntryHead(e: Entry, handles: set<nat>, mapping: bool, after: seq<Token>)
    requires OkEntry(e, handles, mapping)
    ensures EntryTokens(e) != [] && (EntryTokens(e) + after)[0] == EntryTokens(e)[0]
    ensures if e.Keyed? then EntryTokens(e)[0] == KeyToken else Begins(EntryTokens(e)[0])
  {
    hide Ok, Tokens;
    if e.Single? {
      Head(e.node, handles, false, false, after);
    }
  }

  /** The tokens of the entries that are left, with the comma that separates them from those before. */
  function Left(es: seq<Entry>, comma: bool, first: bool): seq<Token> {
    if first then EntriesTokens(es, comma) else Comma(es, comma) + EntriesTokens(es, comma)
  }

  /** At the next entry. */
  lemma {:induction false} NextRead(es: seq<Entry>, comma: bool, d: Config, first: bool, end: Token, rest: seq<Token>)
    requires es != [] && d.tokens == Left(es, comma, first) + [end] + rest
    requires !d.ended && (end.FlowSequenceEndToken? || end.FlowMappingEndToken?)
    ensures var after := Left(es[1..], comma, false) + [end] + rest;
            && NextEntry(d, first, end) == Some(d.(tokens := EntryTokens(es[0]) + after)) && FollowsEntry(after, end)
  {
    hide EntryTokens, EntriesTokens, FollowsEntry, Left, NextEntry;
    var left := Left(es[1..], comma, false);
    var after := left + [end] + rest;
    EntryFollowed(es[1..], comma, end, rest);
    LeftIs(es, comma);
    LeftIs(es[1..], comma);
    EntriesFront(es, comma);
    Regroup(EntryTokens(es[0]), left, [end], rest);
    if !first {
      Regroup([FlowEntryToken], EntryTokens(es[0]) + left, [end], rest);
    }
    AtEntry(d, first, EntryTokens(es[0]) + after, end);
  }

  lemma {:induction false} LeftIs(es: seq<Entry>, comma: bool)
    ensures Left(es, comma, true) == EntriesTokens(es, comma)
    ensures Left(es, comma, false) == Comma(es, comma) + EntriesTokens(es, comma)
  {
  }

  lemma {:induction false} AtEntry(d: Config, first: bool, ts: seq<Token>, end: Token)
    requires ts != [] && d.tokens == (if first then ts else [FlowEntryToken] + ts) && !d.ended
    requires end.FlowSequenceEndToken? || end.FlowMappingEndToken?
    ensures NextEntry(d, first, end) == Some(d.(tokens := ts))
  {
  }

  lemma {:induction false} EntriesFront(es: seq<Entry>, comma: bool)
    requires es != []
    ensures EntriesTokens(es, comma) == EntryTokens(es[0]) + Left(es[1..], comma, false)
  {
    hide EntryTokens;
  }

  lemma {:induction false} Regroup(a: seq<Token>, b: seq<Token>, c: seq<Token>, d: seq<Token>)
    ensures a + b + c + d == a + (b + c + d)
  {
  }

  /** No entry is left. */
  lemma {:induction false} NoneLeft(comma: bool, d: Config, first: bool, end: Token, rest: seq<Token>)
    requires d.tokens == Left([], comma, first) + [end] + rest && !d.ended
    requires end.FlowSequenceEndToken? || end.FlowMappingEndToken?
    ensures NextEntry(d, first, end) == Some(d.(tokens := [end] + rest))
  {
    if comma && !first {
      assert d.tokens == [FlowEntryToken] + ([end] + rest);
    } else {
      assert d.tokens == [end] + rest;
    }
  }

  /** A pair in a flow sequence, after its key token. */
  lemma {:induction false} KeyedRead(p: Pair, k: Config, handles: set<nat>, after: seq<Token>)
    requires OkPair(p, handles, false) && !p.key.Missing? && k.state == FlowSequenceEntryMappingKey
    requires k.tokens == Tokens(p.key) + (ValueTokens(p) + after) && FollowsEntry(after, FlowSequenceEndToken)
    requires !k.ended && Knows(k.handles, handles)
    ensures Yields(k, T.Texts(PairTree(p)) + [MappingEnd], k.(state := FlowSequenceEntry, tokens := after))
    decreases p, 1
  {
    hide NodeStep, Gives, Ok, Knows, T.Text, T.Texts, Tokens, Tree, ChildStep, Step, Yields, FlowValueStep;
    var mid := ValueTokens(p) + after;
    var v, w, m := k.(state := FlowSequenceEntryMappingValue, tokens := mid), k.(state := FlowSequenceEntryMappingEnd, tokens := after),
                   k.(state := FlowSequenceEntry, tokens := after);
    Head(p.key, handles, false, false, mid);
    ChildRead(p.key, k, FlowSequenceEntryMappingValue, handles, false, false, mid);
    Entering(k);
    Onward(k, PairKeyStep(k), T.Text(Tree(p.key)), v);
    FlowValueRead(p, v, FlowSequenceEntryMappingEnd, FlowSequenceEndToken, handles, after);
    Entering(v);
    Onward(v, FlowValueStep(v, FlowSequenceEntryMappingEnd, FlowSequenceEndToken), T.Text(Tree(p.value)), w);
    Entering(w);
    GivesOne(MappingEnd, m);
    Onward(w, PairEndStep(w), [MappingEnd], m);
    YieldsThen(k, T.Text(Tree(p.key)), v, T.Text(Tree(p.value)), w);
    YieldsThen(k, T.Text(Tree(p.key)) + T.Text(Tree(p.value)), w, [MappingEnd], m);
    TwoTexts(Tree(p.key), Tree(p.value));
  }

  lemma {:induction false} SequenceEntryRead(e: Entry, d: Config, handles: set<nat>, first: bool, f: Config, after: seq<Token>)
    requires OkEntry(e, handles, false) && FollowsEntry(after, FlowSequenceEndToken)
    requires NextEntry(d, first, FlowSequenceEndToken) == Some(f) && f.tokens == EntryTokens(e) + after
    requires !f.ended && Knows(f.handles, handles)
    ensures Gives(FlowSequenceStep(d, first), T.Text(EntryTree(e)), f.(state := FlowSequenceEntry, tokens := after))
    decreases e, 0
  {
    hide NodeStep, Gives, Ok, Knows, T.Text, T.Texts, Tokens, Tree, ChildStep, NextEntry, PairTree, Yields;
    EntryHead(e, handles, false, after);
    match e
    case Single(x) => ChildRead(x, f, FlowSequenceEntry, handles, false, false, after);
    case Keyed(p) =>
      var k := f.(state := FlowSequenceEntryMappingKey, tokens := Tokens(p.key) + (ValueTokens(p) + after));
      assert f.tokens == [KeyToken] + k.tokens;
      KeyedRead(p, k, handles, after);
      EventThen(MappingStart(true), k, T.Texts(PairTree(p)) + [MappingEnd], f.(state := FlowSequenceEntry, tokens := after));
      MappingText(true, PairTree(p));
  }

  lemma {:induction false} EventThen(e: Event, k: Config, es: seq<Event>, d: Config)
    requires Yields(k, es, d)
    ensures Gives(Go(e, k), [e] + es, d)
  {
    hide Step;
    assert ([e] + es)[1..] == es;
  }

  lemma {:induction false} SequenceRead(es: seq<Entry>, comma: bool, d: Config, handles: set<nat>, first: bool, rest: seq<Token>)
    requires AllEntries(es, handles, false) && d.tokens == Left(es, comma, first) + [FlowSequenceEndToken] + rest
    requires d.states != [] && !d.ended && Knows(d.handles, handles)
    ensures Gives(FlowSequenceStep(d, first), T.Texts(SequenceTrees(es)) + [SequenceEnd], Done(d, rest))
    decreases es, 0
  {
    hide NodeStep, Gives, T.Text, EntryTree, EntryTokens, AllEntries, T.Texts, Knows, Yields, Step, OkEntry, NextEntry, Left;
    if es == [] {
      NoneLeft(comma, d, first, FlowSequenceEndToken, rest);
      assert ([FlowSequenceEndToken] + rest)[1..] == rest;
      GivesOne(SequenceEnd, Done(d, rest));
      assert T.Texts(SequenceTrees(es)) + [SequenceEnd] == [SequenceEnd] by { T.NoText(); }
    } else {
      var e, after := es[0], Left(es[1..], comma, false) + [FlowSequenceEndToken] + rest;
      AllEntriesRest(es, handles, false);
      NextRead(es, comma, d, first, FlowSequenceEndToken, rest);
      var f, m := d.(tokens := EntryTokens(e) + after), d.(state := FlowSequenceEntry, tokens := after);
      SequenceEntryRead(e, d, handles, first, f, after);
      SequenceRead(es[1..], comma, m, handles, false, rest);
      var tail := T.Texts(SequenceTrees(es[1..])) + [SequenceEnd];
      Entering(m);
      Onward(m, FlowSequenceStep(m, false), tail, Done(d, rest));
      GivesThen(FlowSequenceStep(d, first), T.Text(EntryTree(e)), m, tail, Done(d, rest));
      T.TextsFront(EntryTree(e), SequenceTrees(es[1..]));
      assert T.Texts(SequenceTrees(es)) + [SequenceEnd] == T.Text(EntryTree(e)) + tail;
    }
  }

  /** The key of an entry of a flow mapping, which may be left out. */
  lemma {:induction false} FlowKeyRead(x: Node, e: Config, handles: set<nat>, after: seq<Token>)
    requires OkPart(x, handles, false, false) && e.tokens == Tokens(x) + after && after != []
    requires after[0].ValueToken? || EndsEntry(after[0], FlowMappingEndToken)
    requires !e.ended && Knows(e.handles, handles)
    ensures Gives(FlowKeyStep(e), T.Text(Tree(x)), e.(state := FlowMappingValue, tokens := after))
    decreases x, 3
  {
    hide NodeStep, Gives, Ok, ChildStep, Knows;
    if x.Missing? {
      assert e.tokens == after;
      GivesOne(Scalar, e.(state := FlowMappingValue, tokens := after));
    } else {
      Head(x, handles, false, false, after);
      ChildRead(x, e, FlowMappingValue, handles, false, false, after);
    }
  }

  lemma {:induction false} MappingEntryRead(e: Entry, d: Config, handles: set<nat>, first: bool, f: Config, after: seq<Token>)
    requires OkEntry(e, handles, true) && FollowsEntry(after, FlowMappingEndToken)
    requires NextEntry(d, first, FlowMappingEndToken) == Some(f) && f.tokens == EntryTokens(e) + after
    requires !f.ended && Knows(f.handles, handles)
    ensures Gives(FlowMappingStep(d, first), T.Texts(EntryPair(e)), f.(state := FlowMappingKey, tokens := after))
    decreases e, 0
  {
    hide NodeStep, Gives, Ok, Knows, T.Text, T.Texts, Tokens, Tree, ChildStep, NextEntry, Yields, Step, FlowKeyStep, FlowValueStep;
    EntryHead(e, handles, true, after);
    var m := f.(state := FlowMappingKey, tokens := after);
    match e
    case Single(x) =>
      var v := f.(state := FlowMappingEmptyValue, tokens := after);
      ChildRead(x, f, FlowMappingEmptyValue, handles, false, false, after);
      Entering(v);
      GivesOne(Scalar, m);
      Onward(v, EmptyValueStep(v), [Scalar], m);
      GivesThen(FlowMappingStep(d, first), T.Text(Tree(x)), v, [Scalar], m);
      TwoTexts(Tree(x), T.ScalarNode);
      assert T.Text(T.ScalarNode) == [Scalar] by { ScalarText(); }
    case Keyed(p) =>
      var mid := ValueTokens(p) + after;
      var k, v := f.(tokens := Tokens(p.key) + mid), f.(state := FlowMappingValue, tokens := mid);
      assert f.tokens == [KeyToken] + k.tokens;
      FlowKeyRead(p.key, k, handles, mid);
      FlowValueRead(p, v, FlowMappingKey, FlowMappingEndToken, handles, after);
      Entering(v);
      Onward(v, FlowValueStep(v, FlowMappingKey, FlowMappingEndToken), T.Text(Tree(p.value)), m);
      GivesThen(FlowMappingStep(d, first), T.Text(Tree(p.key)), v, T.Text(Tree(p.value)), m);
      TwoTexts(Tree(p.key), Tree(p.value));
  }

  lemma {:induction false} ScalarText()
    ensures T.Text(T.ScalarNode) == [Scalar]
  {
  }

  lemma {:induction false} MappingRead(es: seq<Entry>, comma: bool, d: Config, handles: set<nat>, first: bool, rest: seq<Token>)
    requires AllEntries(es, handles, true) && d.tokens == Left(es, comma, first) + [FlowMappingEndToken] + rest
    requires d.states != [] && !d.ended && Knows(d.handles, handles)
    ensures Gives(FlowMappingStep(d, first), T.Texts(MappingTrees(es)) + [MappingEnd], Done(d, rest))
    decreases es, 0
  {
    hide NodeStep, Gives, T.Text, EntryPair, EntryTokens, AllEntries, T.Texts, Knows, Yields, Step, OkEntry, NextEntry, Left;
    if es == [] {
      NoneLeft(comma, d, first, FlowMappingEndToken, rest);
      assert ([FlowMappingEndToken] + rest)[1..] == rest;
      GivesOne(MappingEnd, Done(d, rest));
      assert T.Texts(MappingTrees(es)) + [MappingEnd] == [MappingEnd] by { T.NoText(); }
    } else {
      var e, after := es[0], Left(es[1..], comma, false) + [FlowMappingEndToken] + rest;
      AllEntriesRest(es, handles, true);
      NextRead(es, comma, d, first, FlowMappingEndToken, rest);
      var f, m := d.(tokens := EntryTokens(e) + after), d.(state := FlowMappingKey, tokens := after);
      MappingEntryRead(e, d, handles, first, f, after);
      MappingRead(es[1..], comma, m, handles, false, rest);
      var tail := T.Texts(MappingTrees(es[1..])) + [MappingEnd];
      Entering(m);
      Onward(m, FlowMappingStep(m, false), tail, Done(d, rest));
      GivesThen(FlowMappingStep(d, first), T.Texts(EntryPair(e)), m, tail, Done(d, rest));
      TextsJoin(EntryPair(e), MappingTrees(es[1..]));
      assert T.Texts(MappingTrees(es)) + [MappingEnd] == T.Texts(EntryPair(e)) + tail;
    }
  }

  // ----- documents -----

  /** The handles of directives, in order. */
  function HandleList(ds: seq<Directive>): seq<nat> {
    if ds == [] then [] else (if ds[0].Handle? then [ds[0].h] else []) + HandleList(ds[1..])
  }

  lemma {:induction false} InHandleList(ds: seq<Directive>, h: nat)
    ensures h in HandleList(ds) <==> Handle(h) in ds
    decreases |ds|
  {
    if ds != [] {
      InHandleList(ds[1..], h);
      assert ds == [ds[0]] + ds[1..];
    }
  }

  /** What a document begins or ends with. */
  predicate Outside(rest: seq<Token>) {
    rest != [] && (IsDirective(rest[0]) || rest[0].DocumentStartToken? || rest[0].StreamEndToken?)
  }

  /** None of the handles is there yet. */
  predicate NewHandles(ds: seq<Directive>, handles: seq<nat>) {
    forall k :: 0 <= k < |ds| && ds[k].Handle? ==> ds[k].h !in handles
  }

  lemma {:induction false} RestDifferent(ds: seq<Directive>, handles: seq<nat>)
    requires ds != [] && AllDifferent(ds) && NewHandles(ds, handles)
    ensures AllDifferent(ds[1..]) && NewHandles(ds[1..], handles) && ds[0] !in ds[1..]
    ensures ds[0].Handle? ==> ds[0].h !in handles && NewHandles(ds[1..], handles + [ds[0].h])
  {
    assert forall j :: 0 <= j < |ds[1..]| ==> ds[1..][j] == ds[j + 1];
  }

  lemma {:induction false} DirectiveRead(c: Config, version: bool, d: Directive, more: seq<Token>)
    requires c.tokens == [if d.Version? then VersionDirectiveToken(1, 1) else TagDirectiveToken(d.h)] + more && !c.ended
    requires if d.Version? then !version else d.h !in c.handles
    ensures Directives(c, version)
         == Directives(c.(tokens := more, handles := c.handles + HandleList([d])), version || d.Version?)
  {
    hide WithDefaults;
    assert c.tokens[1..] == more;
    OneHandle(d);
    assert c.handles + [] == c.handles;
  }

  lemma {:induction false} DirectivesEnd(c: Config, version: bool)
    requires c.tokens != [] && !IsDirective(c.tokens[0])
    ensures Directives(c, version) == Some(WithDefaults(c))
  {
    hide WithDefaults;
  }

  lemma {:induction false} HandlesFront(ds: seq<Directive>, handles: seq<nat>)
    requires ds != []
    ensures handles + HandleList(ds) == handles + HandleList([ds[0]]) + HandleList(ds[1..])
  {
    OneHandle(ds[0]);
    var a, b := HandleList([ds[0]]), HandleList(ds[1..]);
    assert HandleList(ds) == a + b;
    assert handles + (a + b) == handles + a + b;
  }

  lemma {:induction false} OneHandle(d: Directive)
    ensures HandleList([d]) == if d.Handle? then [d.h] else []
  {
    assert [d][1..] == [];
  }

  lemma {:induction false} DirectivesRead(ds: seq<Directive>, c: Config, version: bool, rest: seq<Token>)
    requires c.tokens == DirectiveTokens(ds) + rest && rest != [] && rest[0].DocumentStartToken? && !c.ended
    requires AllDifferent(ds) && (version ==> Version !in ds) && NewHandles(ds, c.handles)
    ensures Directives(c, version) == Some(WithDefaults(c.(tokens := rest, handles := c.handles + HandleList(ds))))
    decreases |ds|
  {
    hide WithDefaults, AllDifferent, NewHandles, Directives, HandleList;
    if ds == [] {
      assert c.tokens == rest;
      assert c.handles + HandleList(ds) == c.handles by { NoHandles(c.handles); }
      DirectivesEnd(c, version);
    } else {
      var d, more := ds[0], DirectiveTokens(ds[1..]) + rest;
      RestDifferent(ds, c.handles);
      assert c.tokens == [if d.Version? then VersionDirectiveToken(1, 1) else TagDirectiveToken(d.h)] + more;
      DirectiveRead(c, version, d, more);
      assert NewHandles(ds[1..], c.handles + HandleList([d])) by { StillNew(ds, c.handles); }
      DirectivesRead(ds[1..], c.(tokens := more, handles := c.handles + HandleList([d])), version || d.Version?, rest);
      HandlesFront(ds, c.handles);
    }
  }

  lemma {:induction false} NoHandles(handles: seq<nat>)
    ensures handles + HandleList([]) == handles
  {
  }

  lemma {:induction false} StillNew(ds: seq<Directive>, handles: seq<nat>)
    requires ds != [] && AllDifferent(ds) && NewHandles(ds, handles)
    ensures NewHandles(ds[1..], handles + HandleList([ds[0]]))
  {
    hide AllDifferent, NewHandles;
    RestDifferent(ds, handles);
    OneHandle(ds[0]);
    assert handles + [] == handles;
  }

  /** Every handle a document may use is known. */
  lemma {:induction false} HandlesKnown(c: Config, ds: seq<Directive>)
    requires c.handles == HandleList(ds)
    ensures Knows(WithDefaults(c).handles, HandlesOf(ds))
  {
    forall h | h in HandlesOf(ds)
      ensures h in WithDefaults(c).handles
    {
      InHandleList(ds, h);
    }
  }

  lemma {:induction false} EndsRead(n: nat, c: Config, rest: seq<Token>)
    requires c.tokens == EndTokens(n) + rest && rest != [] && !rest[0].DocumentEndToken? && !c.ended
    ensures PastEnds(c) == c.(tokens := rest)
    decreases n
  {
    if n == 0 {
      assert c.tokens == rest;
    } else {
      assert c.tokens[1..] == EndTokens(n - 1) + rest;
      EndsRead(n - 1, Skipped(c), rest);
    }
  }

  /** Before a document, lead more document ends to be skipped. */
  function Ready(first: bool, lead: nat, tokens: seq<Token>): Config {
    Config(EndTokens(lead) + tokens, if first then ImplicitDocumentStart else DocumentStartState, [], [], false)
  }

  /** In a document whose root comes next. */
  function Started(state: State, tokens: seq<Token>, handles: seq<nat>): Config {
    Config(tokens, state, [DocumentEndState], handles, false)
  }

  /** The start of a document: afterwards its root is next, and the handles it may use are known. */
  lemma {:induction false} StartRead(d: Document, first: bool, lead: nat, rest: seq<Token>) returns (s: Config)
    requires OkDocument(d) && (first ==> lead == 0) && (d.explicit || first)
    ensures s.tokens == Tokens(d.root) + rest && s.states == [DocumentEndState] && !s.ended
    ensures s.state == (if d.explicit then DocumentContent else BlockNode)
    ensures Knows(s.handles, HandlesOf(d.directives))
    ensures Step(Ready(first, lead, StartTokens(d) + (Tokens(d.root) + rest))) == Go(DocumentStart, s)
  {
    hide Ok, Tokens, Knows, Step, Ready, HandlesOf;
    var body := Tokens(d.root) + rest;
    if d.explicit {
      s := ExplicitRead(d.directives, first, lead, body);
    } else {
      Head(d.root, HandlesOf([]), true, false, rest);
      assert [] + body == body;
      s := ImplicitRead(body);
    }
  }

  lemma {:induction false} ImplicitRead(body: seq<Token>) returns (s: Config)
    requires body != [] && Begins(body[0])
    ensures s == Started(BlockNode, body, s.handles) && Knows(s.handles, HandlesOf([]))
    ensures Step(Ready(true, 0, body)) == Go(DocumentStart, s)
  {
    hide NodeStep, Knows;
    var c := Ready(true, 0, body);
    assert c.tokens == body;
    assert [] + [DocumentEndState] == [DocumentEndState];
    HandlesKnown(c, []);
    s := Started(BlockNode, body, WithDefaults(c).handles);
    assert Directives(c, false) == Some(WithDefaults(c));
  }

  lemma {:induction false} ExplicitRead(ds: seq<Directive>, first: bool, lead: nat, body: seq<Token>) returns (s: Config)
    requires AllDifferent(ds) && (first ==> lead == 0)
    ensures s == Started(DocumentContent, body, s.handles) && Knows(s.handles, HandlesOf(ds))
    ensures Step(Ready(first, lead, DirectiveTokens(ds) + [DocumentStartToken] + body)) == Go(DocumentStart, s)
  {
    hide NodeStep, Knows, Directives, PastEnds, WithDefaults;
    var open := [DocumentStartToken] + body;
    var all := DirectiveTokens(ds) + open;
    assert DirectiveTokens(ds) + [DocumentStartToken] + body == all;
    var c := Ready(first, lead, all);
    var b := c.(tokens := all);
    assert [] + [DocumentEndState] == [DocumentEndState];
    FirstDirective(ds, open);
    if first {
      assert c.tokens == all;
    } else {
      EndsRead(lead, c, all);
    }
    DirectivesRead(ds, b, false, open);
    assert [] + HandleList(ds) == HandleList(ds);
    var e := b.(tokens := open, handles := HandleList(ds));
    HandlesKnown(e, ds);
    DefaultsOnly(e);
    assert open[1..] == body;
    s := Started(DocumentContent, body, WithDefaults(e).handles);
    assert DocumentStartStep(c, first) == Begun(Skipped(WithDefaults(e)), DocumentContent);
  }

  lemma {:induction false} DefaultsOnly(c: Config)
    ensures WithDefaults(c) == c.(handles := WithDefaults(c).handles)
  {
  }

  lemma {:induction false} FirstDirective(ds: seq<Directive>, open: seq<Token>)
    requires open != [] && open[0].DocumentStartToken?
    ensures var ts := DirectiveTokens(ds) + open;
            ts != [] && !ts[0].DocumentEndToken? && !ts[0].StreamEndToken? && (IsDirective(ts[0]) || ts[0].DocumentStartToken?)
  {
  }

  /** After the root: an end of the document, or what comes outside. */
  predicate AfterRoot(rest: seq<Token>) {
    rest != [] && (rest[0].DocumentEndToken? || Outside(rest))
  }

  lemma {:induction false} WrittenRoot(d: Document)
    requires OkDocument(d) && !d.explicit
    ensures !d.root.Missing?
  {
  }

  lemma {:induction false} RootRead(d: Document, s: Config, rest: seq<Token>)
    requires OkDocument(d) && s.tokens == Tokens(d.root) + rest && s.states == [DocumentEndState] && !s.ended && AfterRoot(rest)
    requires s.state == (if d.explicit then DocumentContent else BlockNode) && Knows(s.handles, HandlesOf(d.directives))
    ensures Yields(s, T.Text(Tree(d.root)), Config(rest, DocumentEndState, [], s.handles, false))
  {
    hide Ok, NodeStep, Gives, Knows;
    var m := Config(rest, DocumentEndState, [], s.handles, false);
    assert [DocumentEndState][..0] == [];
    if d.root.Missing? {
      assert s.tokens == rest;
      assert d.explicit by {
        if !d.explicit { WrittenRoot(d); }
      }
      assert Step(s) == Go(Scalar, m);
      GivesOne(Scalar, m);
    } else {
      Head(d.root, HandlesOf(d.directives), true, false, rest);
      NodeRead(d.root, s, HandlesOf(d.directives), true, false, rest);
      assert Step(s) == NodeStep(s, true, false);
      assert Done(s, rest) == m;
    }
    Onward(s, Step(s), T.Text(Tree(d.root)), m);
  }

  lemma {:induction false} DocumentRead(d: Document, first: bool, lead: nat, rest: seq<Token>)
    requires OkDocument(d) && (first ==> lead == 0) && (d.explicit || first) && Outside(rest)
    ensures Yields(Ready(first, lead, StartTokens(d) + (Tokens(d.root) + (EndTokens(d.ends) + rest))), T.DocumentText(Tree(d.root)),
                   Ready(false, if d.ends == 0 then 0 else d.ends - 1, rest))
  {
    hide OkDocument, Tokens, Tree, StartTokens, Yields, Gives, Step, T.Text, Knows;
    var after := EndTokens(d.ends) + rest;
    var c := Ready(first, lead, StartTokens(d) + (Tokens(d.root) + after));
    var s := StartRead(d, first, lead, after);
    RootRead(d, s, after);
    var m := Config(after, DocumentEndState, [], s.handles, false);
    var z := Ready(false, if d.ends == 0 then 0 else d.ends - 1, rest);
    EndRead(m, d.ends, rest);
    GivesOne(DocumentStart, s);
    Onward(c, Step(c), [DocumentStart], s);
    GivesOne(DocumentEnd, z);
    Onward(m, Step(m), [DocumentEnd], z);
    YieldsThen(c, [DocumentStart], s, T.Text(Tree(d.root)), m);
    YieldsThen(c, [DocumentStart] + T.Text(Tree(d.root)), m, [DocumentEnd], z);
  }

  lemma {:induction false} EndRead(m: Config, ends: nat, rest: seq<Token>)
    requires m.tokens == EndTokens(ends) + rest && Outside(rest) && m.state == DocumentEndState && m.states == [] && !m.ended
    ensures Step(m) == Go(DocumentEnd, Ready(false, if ends == 0 then 0 else ends - 1, rest))
  {
    if ends == 0 {
      assert m.tokens == rest && EndTokens(0) + rest == rest;
    } else {
      assert m.tokens[1..] == EndTokens(ends - 1) + rest;
    }
  }

  /** At the end of the stream. */
  const Finished := Config([], EndState, [], [], true)

  lemma {:induction false} StreamEndRead(first: bool, lead: nat)
    requires first ==> lead == 0
    ensures Yields(Ready(first, lead, [StreamEndToken]), [StreamEnd], Finished)
  {
    var c := Ready(first, lead, [StreamEndToken]);
    if first {
      assert c.tokens == [StreamEndToken];
    } else {
      EndsRead(lead, c, [StreamEndToken]);
    }
    assert [StreamEndToken][1..] == [];
    assert Step(c) == Go(StreamEnd, Finished);
    GivesOne(StreamEnd, Finished);
  }

  lemma {:induction false} DocumentsRead(ds: seq<Document>, first: bool, lead: nat)
    requires OkStream(ds) && (first ==> lead == 0) && (ds != [] && !first ==> ds[0].explicit)
    ensures Yields(Ready(first, lead, DocumentTokens(ds) + [StreamEndToken]), T.Documents(Roots(ds)) + [StreamEnd], Finished)
    decreases |ds|
  {
    hide OkDocument, Tokens, Tree, StartTokens, Yields, T.DocumentText, T.Documents, Ready;
    if ds == [] {
      StreamEndRead(first, lead);
      assert DocumentTokens(ds) + [StreamEndToken] == [StreamEndToken];
      assert T.Documents(Roots(ds)) + [StreamEnd] == [StreamEnd] by { NoDocuments(); }
    } else {
      var d, rest := ds[0], DocumentTokens(ds[1..]) + [StreamEndToken];
      assert OkStream(ds[1..]) by {
        assert forall k :: 0 <= k < |ds| - 1 ==> ds[1..][k] == ds[k + 1];
      }
      assert |ds| > 1 ==> ds[1..][0] == ds[1];
      OutsideNext(ds[1..]);
      DocumentRead(d, first, lead, rest);
      var next: nat := if d.ends == 0 then 0 else d.ends - 1;
      DocumentsRead(ds[1..], false, next);
      var whole := StartTokens(d) + (Tokens(d.root) + (EndTokens(d.ends) + rest));
      Grouped(StartTokens(d), Tokens(d.root), EndTokens(d.ends), DocumentTokens(ds[1..]), [StreamEndToken]);
      assert DocumentTokens(ds) + [StreamEndToken] == whole;
      var tail := T.Documents(Roots(ds[1..])) + [StreamEnd];
      YieldsThen(Ready(first, lead, whole), T.DocumentText(Tree(d.root)), Ready(false, next, rest), tail, Finished);
      T.DocumentsFront(Tree(d.root), Roots(ds[1..]));
      assert T.Documents(Roots(ds)) + [StreamEnd] == T.DocumentText(Tree(d.root)) + tail;
    }
  }

  lemma {:induction false} Grouped(a: seq<Token>, b: seq<Token>, c: seq<Token>, d: seq<Token>, e: seq<Token>)
    ensures a + (b + (c + d)) + e == a + (b + (c + (d + e)))
  {
  }

  lemma {:induction false} NoDocuments()
    ensures T.Documents([]) == []
  {
  }

  lemma {:induction false} OutsideNext(ds: seq<Document>)
    requires ds != [] ==> ds[0].explicit
    ensures Outside(DocumentTokens(ds) + [StreamEndToken])
  {
    hide Tokens;
    if ds != [] {
      var more := Tokens(ds[0].root) + (EndTokens(ds[0].ends) + DocumentTokens(ds[1..]));
      assert StartTokens(ds[0]) + more == DirectiveTokens(ds[0].directives) + ([DocumentStartToken] + more);
    }
  }

  /** Over the tokens of any documents the parser delivers the events of their trees, and is at the end
      of the stream then. */
  lemma {:induction false} StreamRead(ds: seq<Document>)
    requires OkStream(ds)
    ensures Yields(Config(StreamTokens(ds), StreamStartState, [], [], false), T.Stream(Roots(ds)), Finished)
  {
    hide OkDocument, Tokens, Tree, StartTokens, Yields, Gives, T.Documents, DocumentTokens;
    var c := Config(StreamTokens(ds), StreamStartState, [], [], false);
    var m := Ready(true, 0, DocumentTokens(ds) + [StreamEndToken]);
    assert [] + (DocumentTokens(ds) + [StreamEndToken]) == DocumentTokens(ds) + [StreamEndToken];
    assert c.tokens[1..] == DocumentTokens(ds) + [StreamEndToken];
    assert Step(c) == Go(StreamStart, m);
    DocumentsRead(ds, true, 0);
    EventThen(StreamStart, m, T.Documents(Roots(ds)) + [StreamEnd], Finished);
    Onward(c, Step(c), [StreamStart] + (T.Documents(Roots(ds)) + [StreamEnd]), Finished);
    assert T.Stream(Roots(ds)) == [StreamStart] + (T.Documents(Roots(ds)) + [StreamEnd]);
  }

  /** One event of a run. */
  lemma {:induction false} NextEvent(c: Config, all: seq<Event>, k: nat)
    requires k <= |all| && Yields(c, all[k..], Finished) && c.state != EndState
    ensures k < |all| && Step(c).Go? && Step(c).event == all[k] && Yields(Step(c).next, all[k + 1..], Finished)
    ensures all[..k] + [all[k]] == all[..k + 1]
  {
    hide Step;
    assert all[k..] != [];
    assert all[k..][1..] == all[k + 1..];
  }

  /** Parsing the tokens of documents to the end. */
  method ParseDocuments(tokens: seq<Token>, ghost ds: seq<Document>) returns (es: seq<Event>)
    requires OkStream(ds) && tokens == StreamTokens(ds)
    ensures es == T.Stream(Roots(ds))
  {
    hide T.Stream, StreamTokens, OkStream, Step, Yields, Parser.Valid, Parser.Progress, Accept;
    var p := new Parser(tokens);
    ghost var all := T.Stream(Roots(ds));
    StreamRead(ds);
    es := [];
    assert all[0..] == all;
    while !p.state.EndState?
      invariant p.Valid() && !p.failed && |es| <= |all| && es == all[..|es|] && Yields(p.Cfg(), all[|es|..], Finished)
      decreases |all| - |es|
    {
      NextEvent(p.Cfg(), all, |es|);
      var r := p.Parse();
      es := es + [r.event];
    }
    AtEnd(p.Cfg(), all[|es|..]);
  }

  lemma {:induction false} AtEnd(c: Config, es: seq<Event>)
    requires c.state == EndState && Yields(c, es, Finished)
    ensures es == []
  {
  }
}
