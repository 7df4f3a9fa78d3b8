/**
 * The parser accepts nothing else: whenever it gets through the tokens of a stream, and no pair of a
 * flow sequence has an empty key, the tokens are those of some documents, and the events are those of
 * their trees.
 */
module YamlAccepting {
  import opened YamlEvents
  import opened YamlTokens
  import opened YamlSyntax
  import opened YamlParsing
  import T = YamlTrees

  function Hs(handles: seq<nat>): set<nat> {
    set h | h in handles
  }

  /** A run to the end goes on from any other state. */
  lemma {:induction false} GoesOn(m: Config, es: seq<Event>, z: Config)
    requires Yields(m, es, z) && z.state == EndState && m.state != EndState
    ensures es != [] && Gives(Step(m), es, z) && !EmptyKey(m)
  {
  }

  /** After a step. */
  lemma {:induction false} Stepped(o: Outcome, es: seq<Event>, z: Config)
    requires Gives(o, es, z)
    ensures o.Go? && es != [] && es == [o.event] + es[1..] && Yields(o.next, es[1..], z)
  {
    hide Step;
  }

  // ----- nodes -----

  lemma {:induction false} PropsFound(c: Config) returns (p: Props, rest: seq<Token>)
    requires Properties(c).Some? && !c.ended
    requires var q := Properties(c).value; q.handle == NO_HANDLE || q.handle in c.handles
    ensures c.tokens == PropsTokens(p) + rest && rest != [] && Known(p, Hs(c.handles))
    ensures Properties(c).value.any == (p != NoProps) && Properties(c).value.rest == c.(tokens := rest)
  {
    hide PropsTokens, Properties;
    p := PropsShape(c);
    rest := Properties(c).value.rest.tokens;
  }

  lemma {:induction false} PropsShape(c: Config) returns (p: Props)
    requires Properties(c).Some? && !c.ended
    ensures var q := Properties(c).value;
            && c.tokens == PropsTokens(p) + q.rest.tokens && q.rest == c.(tokens := q.rest.tokens)
            && q.any == (p != NoProps) && (p.NoProps? || p.Anchored? || p.h == q.handle)
  {
    hide Skipped;
    SkipOne(c);
    var q := Properties(c).value;
    if c.tokens[0].AnchorToken? || c.tokens[0].TagToken? {
      var d := Skipped(c);
      SkipOne(d);
      if c.tokens[0].AnchorToken? && d.tokens[0].TagToken? {
        p := AnchoredTagged(q.handle);
        assert [AnchorToken, TagToken(q.handle)] + q.rest.tokens == [AnchorToken] + ([TagToken(q.handle)] + q.rest.tokens);
      } else if c.tokens[0].AnchorToken? {
        p := Anchored;
      } else if d.tokens[0].AnchorToken? {
        p := TaggedAnchored(q.handle);
        assert [TagToken(q.handle), AnchorToken] + q.rest.tokens == [TagToken(q.handle)] + ([AnchorToken] + q.rest.tokens);
      } else {
        p := Tagged(q.handle);
      }
    } else {
      p := NoProps;
      assert c.tokens == [] + c.tokens;
    }
  }

  lemma {:induction false} SkipOne(c: Config)
    ensures c.tokens != [] ==>
              c.tokens == [c.tokens[0]] + Skipped(c).tokens
              && Skipped(c) == c.(tokens := Skipped(c).tokens, ended := c.tokens[0].StreamEndToken?)
  {
  }

  /** What the step of a node tells about what is written. */
  ghost predicate Found(x: Node, c: Config, block: bool, indentless: bool, es: seq<Event>, z: Config, rest: seq<Token>, later: seq<Event>) {
    && Ok(x, Hs(c.handles), block, indentless) && c.tokens == Tokens(x) + rest
    && es == T.Text(Tree(x)) + later && |later| < |es|
    && c.states != [] && Yields(Done(c, rest), later, z)
  }

  lemma {:induction false} TokensWhole(all: seq<Token>, a: seq<Token>, start: Token, first: seq<Token>, inner: seq<Token>, end: Token, rest: seq<Token>)
    requires all == a + first && first != [] && first[0] == start && first[1..] == inner + [end] + rest
    ensures all == a + ([start] + (inner + [end])) + rest
  {
    assert first == [start] + (inner + [end] + rest);
    Nested(a, [start], inner, [end], rest);
  }

  lemma {:induction false} EventsWhole(es: seq<Event>, start: Event, inner: seq<Event>, end: Event, later: seq<Event>)
    requires es != [] && es[0] == start && es[1..] == inner + [end] + later
    ensures es == [start] + inner + [end] + later
  {
    assert es == [start] + es[1..];
  }

  lemma {:induction false} Joined3(a: seq<Token>, b: seq<Token>, c: seq<Token>)
    ensures a + b + c == a + (b + c)
  {
  }

  lemma {:induction false} BlockSequenceFound(c: Config, p: Props, first: seq<Token>, block: bool, indentless: bool, es: seq<Event>, z: Config)
    returns (x: Node, rest: seq<Token>, later: seq<Event>)
    requires z.state == EndState && c.states != [] && !c.ended && c.tokens == PropsTokens(p) + first && Known(p, Hs(c.handles))
    requires first != [] && first[0] == BlockSequenceStartToken && block
    requires Gives(Go(SequenceStart(false), c.(tokens := first, state := BlockSequenceFirstEntry)), es, z)
    ensures Found(x, c, block, indentless, es, z, rest, later)
    decreases |es|, 0
  {
    hide Step, Gives, Yields, Known, PropsTokens, Hs, AllItems, ItemTokens, Trees, T.Texts, EmptyKey;
    var e := c.(tokens := first, state := BlockSequenceFirstEntry);
    Stepped(Go(SequenceStart(false), e), es, z);
    GoesOn(e, es[1..], z);
    Entering(e);
    var d := Skipped(e);
    var xs: seq<Node>;
    xs, rest, later := ItemsFound(d, es[1..], z);
    x := BlockSequence(p, xs);
    TokensWhole(c.tokens, PropsTokens(p), BlockSequenceStartToken, first, ItemTokens(xs), BlockEndToken, rest);
    EventsWhole(es, SequenceStart(false), T.Texts(Trees(xs)), SequenceEnd, later);
    SameDone(c, d, rest);
  }

  lemma {:induction false} IndentlessNodeFound(c: Config, p: Props, first: seq<Token>, block: bool, indentless: bool, es: seq<Event>, z: Config)
    returns (x: Node, rest: seq<Token>, later: seq<Event>)
    requires z.state == EndState && c.states != [] && !c.ended && c.tokens == PropsTokens(p) + first && Known(p, Hs(c.handles))
    requires first != [] && first[0] == BlockEntryToken && indentless
    requires Gives(Go(SequenceStart(false), c.(tokens := first, state := IndentlessSequenceEntry)), es, z)
    ensures Found(x, c, block, indentless, es, z, rest, later)
    decreases |es|, 0
  {
    hide Step, Gives, Yields, Known, PropsTokens, Hs, AllItems, ItemTokens, Trees, T.Texts, EmptyKey;
    var e := c.(tokens := first, state := IndentlessSequenceEntry);
    Stepped(Go(SequenceStart(false), e), es, z);
    GoesOn(e, es[1..], z);
    Entering(e);
    var d := e;
    var xs: seq<Node>;
    xs, rest, later := IndentlessFound(d, es[1..], z);
    x := Indentless(p, xs);
    Joined3(PropsTokens(p), ItemTokens(xs), rest);
    EventsWhole(es, SequenceStart(false), T.Texts(Trees(xs)), SequenceEnd, later);
    SameDone(c, d, rest);
  }

  lemma {:induction false} BlockMappingFound(c: Config, p: Props, first: seq<Token>, block: bool, indentless: bool, es: seq<Event>, z: Config)
    returns (x: Node, rest: seq<Token>, later: seq<Event>)
    requires z.state == EndState && c.states != [] && !c.ended && c.tokens == PropsTokens(p) + first && Known(p, Hs(c.handles))
    requires first != [] && first[0] == BlockMappingStartToken && block
    requires Gives(Go(MappingStart(false), c.(tokens := first, state := BlockMappingFirstKey)), es, z)
    ensures Found(x, c, block, indentless, es, z, rest, later)
    decreases |es|, 0
  {
    hide Step, Gives, Yields, Known, PropsTokens, Hs, AllPairs, PairsTokens, PairTrees, T.Texts, EmptyKey;
    var e := c.(tokens := first, state := BlockMappingFirstKey);
    Stepped(Go(MappingStart(false), e), es, z);
    GoesOn(e, es[1..], z);
    Entering(e);
    var d := Skipped(e);
    var ps: seq<Pair>;
    ps, rest, later := PairsFound(d, es[1..], z);
    x := BlockMapping(p, ps);
    TokensWhole(c.tokens, PropsTokens(p), BlockMappingStartToken, first, PairsTokens(ps), BlockEndToken, rest);
    EventsWhole(es, MappingStart(false), T.Texts(PairTrees(ps)), MappingEnd, later);
    SameDone(c, d, rest);
  }

  lemma {:induction false} FlowSequenceFound(c: Config, p: Props, first: seq<Token>, block: bool, indentless: bool, es: seq<Event>, z: Config)
    returns (x: Node, rest: seq<Token>, later: seq<Event>)
    requires z.state == EndState && c.states != [] && !c.ended && c.tokens == PropsTokens(p) + first && Known(p, Hs(c.handles))
    requires first != [] && first[0] == FlowSequenceStartToken
    requires Gives(Go(SequenceStart(true), c.(tokens := first, state := FlowSequenceFirstEntry)), es, z)
    ensures Found(x, c, block, indentless, es, z, rest, later)
    decreases |es|, 0
  {
    hide Step, Gives, Yields, Known, PropsTokens, Hs, AllEntries, EntriesTokens, SequenceTrees, T.Texts, EmptyKey;
    var e := c.(tokens := first, state := FlowSequenceFirstEntry);
    Stepped(Go(SequenceStart(true), e), es, z);
    GoesOn(e, es[1..], z);
    Entering(e);
    var d := Skipped(e);
    var xs: seq<Entry>, comma: bool;
    xs, comma, rest, later := SequenceFound(d, true, es[1..], z);
    x := FlowSequence(p, xs, comma);
    TokensWhole(c.tokens, PropsTokens(p), FlowSequenceStartToken, first, EntriesTokens(xs, comma), FlowSequenceEndToken, rest);
    EventsWhole(es, SequenceStart(true), T.Texts(SequenceTrees(xs)), SequenceEnd, later);
    SameDone(c, d, rest);
  }

  lemma {:induction false} FlowMappingFound(c: Config, p: Props, first: seq<Token>, block: bool, indentless: bool, es: seq<Event>, z: Config)
    returns (x: Node, rest: seq<Token>, later: seq<Event>)
    requires z.state == EndState && c.states != [] && !c.ended && c.tokens == PropsTokens(p) + first && Known(p, Hs(c.handles))
    requires first != [] && first[0] == FlowMappingStartToken
    requires Gives(Go(MappingStart(true), c.(tokens := first, state := FlowMappingFirstKey)), es, z)
    ensures Found(x, c, block, indentless, es, z, rest, later)
    decreases |es|, 0
  {
    hide Step, Gives, Yields, Known, PropsTokens, Hs, AllEntries, EntriesTokens, MappingTrees, T.Texts, EmptyKey;
    var e := c.(tokens := first, state := FlowMappingFirstKey);
    Stepped(Go(MappingStart(true), e), es, z);
    GoesOn(e, es[1..], z);
    Entering(e);
    var d := Skipped(e);
    var xs: seq<Entry>, comma: bool;
    xs, comma, rest, later := MappingFound(d, true, es[1..], z);
    x := FlowMapping(p, xs, comma);
    TokensWhole(c.tokens, PropsTokens(p), FlowMappingStartToken, first, EntriesTokens(xs, comma), FlowMappingEndToken, rest);
    EventsWhole(es, MappingStart(true), T.Texts(MappingTrees(xs)), MappingEnd, later);
    SameDone(c, d, rest);
  }

  lemma {:induction false} LeafFound(c: Config, p: Props, first: seq<Token>, scalar: bool, block: bool, indentless: bool,
                                     es: seq<Event>, z: Config)
    returns (x: Node, rest: seq<Token>, later: seq<Event>)
    requires c.states != [] && !c.ended && c.tokens == PropsTokens(p) + first && Known(p, Hs(c.handles)) && first != []
    requires if scalar then first[0].ScalarToken? else p != NoProps
    requires Gives(if scalar then LeaveToken(c.(tokens := first), Scalar) else Leave(c.(tokens := first), Scalar), es, z)
    ensures Found(x, c, block, indentless, es, z, rest, later)
  {
    hide Step, Known, PropsTokens, Hs, Yields;
    var d := c.(tokens := first);
    Stepped(if scalar then LeaveToken(d, Scalar) else Leave(d, Scalar), es, z);
    later := es[1..];
    if scalar {
      x, rest := ScalarOf(p), first[1..];
      assert first == [ScalarToken] + rest;
      assert PropsTokens(p) + [ScalarToken] + rest == PropsTokens(p) + first;
    } else {
      x, rest := Bare(p), first;
    }
  }

  /** A node, if the parser goes on to the end after it. */
  lemma {:induction false} NodeFound(c: Config, block: bool, indentless: bool, es: seq<Event>, z: Config)
    returns (x: Node, rest: seq<Token>, later: seq<Event>)
    requires z.state == EndState && c.states != [] && !c.ended && Gives(NodeStep(c, block, indentless), es, z)
    ensures Found(x, c, block, indentless, es, z, rest, later)
    decreases |es|, 1
  {
    hide Step, Gives, Yields, Known, PropsTokens, Hs, Found, Properties;
    Stepped(NodeStep(c, block, indentless), es, z);
    if c.tokens[0].AliasToken? {
      x, rest, later := AliasFound(c, block, indentless, es, z);
    } else {
      var p, first := PropsFound(c);
      match first[0]
      case ScalarToken => x, rest, later := LeafFound(c, p, first, true, block, indentless, es, z);
      case FlowSequenceStartToken => x, rest, later := FlowSequenceFound(c, p, first, block, indentless, es, z);
      case FlowMappingStartToken => x, rest, later := FlowMappingFound(c, p, first, block, indentless, es, z);
      case BlockEntryToken =>
        if indentless {
          x, rest, later := IndentlessNodeFound(c, p, first, block, indentless, es, z);
        } else {
          x, rest, later := LeafFound(c, p, first, false, block, indentless, es, z);
        }
      case BlockSequenceStartToken =>
        if block {
          x, rest, later := BlockSequenceFound(c, p, first, block, indentless, es, z);
        } else {
          x, rest, later := LeafFound(c, p, first, false, block, indentless, es, z);
        }
      case BlockMappingStartToken =>
        if block {
          x, rest, later := BlockMappingFound(c, p, first, block, indentless, es, z);
        } else {
          x, rest, later := LeafFound(c, p, first, false, block, indentless, es, z);
        }
      case _ => x, rest, later := LeafFound(c, p, first, false, block, indentless, es, z);
    }
  }

  lemma {:induction false} AliasFound(c: Config, block: bool, indentless: bool, es: seq<Event>, z: Config)
    returns (x: Node, rest: seq<Token>, later: seq<Event>)
    requires c.states != [] && c.tokens != [] && c.tokens[0].AliasToken? && Gives(NodeStep(c, block, indentless), es, z)
    ensures Found(x, c, block, indentless, es, z, rest, later)
  {
    hide Step, Yields;
    Stepped(NodeStep(c, block, indentless), es, z);
    x, rest, later := AliasOf, c.tokens[1..], es[1..];
    assert c.tokens == [AliasToken] + rest;
  }

  // ----- children -----

  /** The step o comes from a node with the tokens of x, after which the machine goes on from m. */
  ghost predicate Goes(x: Node, es: seq<Event>, z: Config, m: Config, later: seq<Event>) {
    es == T.Text(Tree(x)) + later && |later| < |es| && later != [] && Gives(Step(m), later, z) && !EmptyKey(m)
  }

  lemma {:induction false} ChildFound(e: Config, next: State, block: bool, indentless: bool, es: seq<Event>, z: Config)
    returns (x: Node, rest: seq<Token>, later: seq<Event>)
    requires z.state == EndState && next != EndState && !e.ended && Gives(ChildStep(e, next, block, indentless), es, z)
    ensures Ok(x, Hs(e.handles), block, indentless) && e.tokens == Tokens(x) + rest
    ensures Goes(x, es, z, e.(state := next, tokens := rest), later)
    decreases |es|, 2
  {
    hide Step, Gives, Yields, Hs, NodeStep, Ok, Tokens, Tree, T.Text, EmptyKey;
    var c := e.(states := e.states + [next]);
    x, rest, later := NodeFound(c, block, indentless, es, z);
    assert c.states[..|c.states| - 1] == e.states;
    assert Done(c, rest) == e.(state := next, tokens := rest);
    GoesOn(Done(c, rest), later, z);
  }

  /** A node left out is read as an empty scalar. */
  lemma {:induction false} MissingFound(e: Config, next: State, es: seq<Event>, z: Config) returns (later: seq<Event>)
    requires z.state == EndState && next != EndState && Gives(Empty(e, next), es, z)
    ensures e.tokens == Tokens(Missing) + e.tokens && Goes(Missing, es, z, e.(state := next), later)
  {
    hide Step, EmptyKey;
    Stepped(Empty(e, next), es, z);
    later := es[1..];
    GoesOn(e.(state := next), later, z);
    assert T.Text(Tree(Missing)) == [Scalar];
  }

  // ----- block sequences -----

  lemma {:induction false} ItemFound(d: Config, es: seq<Event>, z: Config)
    returns (x: Node, rest: seq<Token>, later: seq<Event>)
    requires z.state == EndState && !d.ended && Gives(BlockSequenceStep(d), es, z) && d.tokens[0].BlockEntryToken?
    ensures OkPart(x, Hs(d.handles), true, false) && d.tokens == [BlockEntryToken] + (Tokens(x) + rest)
    ensures Goes(x, es, z, d.(state := BlockSequenceEntry, tokens := rest), later)
    decreases |es|, 3
  {
    hide Step, Gives, Hs, ChildStep, Ok, Tokens, Goes;
    Stepped(BlockSequenceStep(d), es, z);
    var e := Skipped(d);
    SkipOne(d);
    if e.tokens[0].BlockEntryToken? || e.tokens[0].BlockEndToken? {
      x, rest := Missing, e.tokens;
      later := MissingFound(e, BlockSequenceEntry, es, z);
    } else {
      x, rest, later := ChildFound(e, BlockSequenceEntry, true, false, es, z);
    }
  }

  lemma {:induction false} FrontItems(x: Node, xs: seq<Node>, handles: set<nat>)
    requires OkPart(x, handles, true, false) && AllItems(xs, handles)
    ensures AllItems([x] + xs, handles)
  {
    hide OkPart;
    forall k | 0 <= k < |[x] + xs|
      ensures OkPart(([x] + xs)[k], handles, true, false)
    {
      assert k > 0 ==> ([x] + xs)[k] == xs[k - 1];
    }
  }

  /** The events of a child and of those after it. */
  lemma {:induction false} FrontEvents(t: T.Tree, ts: seq<T.Tree>, es: seq<Event>, end: Event, mid: seq<Event>, later: seq<Event>)
    requires es == T.Text(t) + mid && mid == T.Texts(ts) + [end] + later
    ensures es == T.Texts([t] + ts) + [end] + later
  {
    hide T.Text, T.Texts;
    T.TextsFront(t, ts);
    EventsAssoc(T.Text(t), T.Texts(ts), [end], later);
  }

  lemma {:induction false} EventsAssoc(a: seq<Event>, b: seq<Event>, c: seq<Event>, d: seq<Event>)
    ensures a + (b + c + d) == a + b + c + d
  {
  }

  lemma {:induction false} TokensAssoc(a: seq<Token>, b: seq<Token>, c: seq<Token>, d: seq<Token>)
    ensures a + (b + (c + d)) == a + (b + c) + d
  {
  }

  lemma {:induction false} NoEvents(end: Event, later: seq<Event>)
    ensures T.Texts([]) + [end] + later == [end] + later
  {
    T.NoText();
    assert [] + [end] == [end];
  }

  lemma {:induction false} ItemsFound(d: Config, es: seq<Event>, z: Config)
    returns (xs: seq<Node>, rest: seq<Token>, later: seq<Event>)
    requires z.state == EndState && d.states != [] && !d.ended && Gives(BlockSequenceStep(d), es, z)
    ensures AllItems(xs, Hs(d.handles)) && d.tokens == ItemTokens(xs) + [BlockEndToken] + rest
    ensures es == T.Texts(Trees(xs)) + [SequenceEnd] + later && |later| < |es| && Yields(Done(d, rest), later, z)
    decreases |es|, 4
  {
    hide Step, Gives, Hs, ChildStep, Ok, Tokens, T.Texts, T.Text, Tree, Yields, AllItems, OkPart, EmptyKey, Done, ItemTokens, Empty;
    Stepped(BlockSequenceStep(d), es, z);
    SkipOne(d);
    if d.tokens[0].BlockEndToken? {
      xs, rest, later := [], d.tokens[1..], es[1..];
      assert d.tokens == ItemTokens([]) + [BlockEndToken] + rest by { NoTokens(BlockEndToken, rest); }
      assert Skipped(Popped(d)) == Done(d, rest) by { AfterToken(d); }
      assert AllItems(xs, Hs(d.handles)) by { NoItems(Hs(d.handles)); }
      NoEvents(SequenceEnd, later);
    } else {
      var x, mid, after := ItemFound(d, es, z);
      var m := d.(state := BlockSequenceEntry, tokens := mid);
      Resuming(m, after, z);
      var ys;
      ys, rest, later := ItemsFound(m, after, z);
      xs := [x] + ys;
      assert xs[1..] == ys;
      FrontItems(x, ys, Hs(d.handles));
      FrontEvents(Tree(x), Trees(ys), es, SequenceEnd, after, later);
      Joined3(ItemTokens(ys), [BlockEndToken], rest);
      ItemsWhole(x, ys, d.tokens, [BlockEndToken] + rest);
      Joined3(ItemTokens(xs), [BlockEndToken], rest);
      SameDone(d, m, rest);
    }
  }

  lemma {:induction false} NoItems(handles: set<nat>)
    ensures AllItems([], handles) && AllPairs([], handles) && AllEntries([], handles, true) && AllEntries([], handles, false)
  {
  }

  lemma {:induction false} NoTokens(end: Token, rest: seq<Token>)
    ensures ItemTokens([]) + [end] + rest == [end] + rest && PairsTokens([]) + [end] + rest == [end] + rest
    ensures EntriesTokens([], false) + [end] + rest == [end] + rest
  {
    assert [] + [end] == [end];
  }

  lemma {:induction false} AfterToken(d: Config)
    requires d.states != [] && d.tokens != [] && !d.tokens[0].StreamEndToken?
    ensures Skipped(Popped(d)) == Done(d, d.tokens[1..])
  {
  }

  /** A machine that goes on has tokens left. */
  lemma {:induction false} Resuming(m: Config, es: seq<Event>, z: Config)
    requires Gives(Step(m), es, z) && !m.ended && m.state != EndState
    ensures m.state == BlockSequenceEntry ==> Step(m) == BlockSequenceStep(m)
    ensures m.state == IndentlessSequenceEntry ==> Step(m) == IndentlessSequenceStep(m)
    ensures m.state == BlockMappingKey ==> Step(m) == BlockMappingKeyStep(m)
    ensures m.state == BlockMappingValue ==> Step(m) == BlockMappingValueStep(m)
    ensures m.state == FlowSequenceEntry ==> Step(m) == FlowSequenceStep(m, false)
    ensures m.state == FlowMappingKey ==> Step(m) == FlowMappingStep(m, false)
    ensures m.state == FlowMappingValue ==> Step(m) == FlowValueStep(m, FlowMappingKey, FlowMappingEndToken)
    ensures m.state == FlowMappingEmptyValue ==> Step(m) == EmptyValueStep(m)
    ensures m.state == FlowSequenceEntryMappingKey ==> Step(m) == PairKeyStep(m)
    ensures m.state == FlowSequenceEntryMappingValue ==>
              Step(m) == FlowValueStep(m, FlowSequenceEntryMappingEnd, FlowSequenceEndToken)
    ensures m.state == FlowSequenceEntryMappingEnd ==> Step(m) == PairEndStep(m)
  {
    hide Yields;
  }

  lemma {:induction false} ItemsWhole(x: Node, ys: seq<Node>, all: seq<Token>, end: seq<Token>)
    requires all == [BlockEntryToken] + (Tokens(x) + (ItemTokens(ys) + end))
    ensures all == ItemTokens([x] + ys) + end
  {
    hide Tokens;
    assert ([x] + ys)[1..] == ys;
    TokensAssoc([BlockEntryToken], Tokens(x), ItemTokens(ys), end);
  }

  // ----- sequences without indentation -----

  lemma {:induction false} IndentlessItemFound(d: Config, es: seq<Event>, z: Config)
    returns (x: Node, rest: seq<Token>, later: seq<Event>)
    requires z.state == EndState && !d.ended && Gives(IndentlessSequenceStep(d), es, z) && d.tokens[0].BlockEntryToken?
    ensures OkPart(x, Hs(d.handles), true, false) && d.tokens == [BlockEntryToken] + (Tokens(x) + rest)
    ensures Goes(x, es, z, d.(state := IndentlessSequenceEntry, tokens := rest), later)
    decreases |es|, 3
  {
    hide Step, Gives, Hs, ChildStep, Ok, Tokens, Goes;
    Stepped(IndentlessSequenceStep(d), es, z);
    var e := Skipped(d);
    SkipOne(d);
    if e.tokens[0].BlockEntryToken? || EndsPart(e.tokens[0]) {
      x, rest := Missing, e.tokens;
      later := MissingFound(e, IndentlessSequenceEntry, es, z);
    } else {
      x, rest, later := ChildFound(e, IndentlessSequenceEntry, true, false, es, z);
    }
  }

  lemma {:induction false} IndentlessFound(d: Config, es: seq<Event>, z: Config)
    returns (xs: seq<Node>, rest: seq<Token>, later: seq<Event>)
    requires z.state == EndState && d.states != [] && !d.ended && Gives(IndentlessSequenceStep(d), es, z)
    ensures AllItems(xs, Hs(d.handles)) && d.tokens == ItemTokens(xs) + rest
    ensures d.tokens != [] && d.tokens[0].BlockEntryToken? ==> xs != []
    ensures es == T.Texts(Trees(xs)) + [SequenceEnd] + later && |later| < |es| && Yields(Done(d, rest), later, z)
    decreases |es|, 4
  {
    hide Step, Gives, Hs, ChildStep, Ok, Tokens, T.Texts, T.Text, Tree, Yields, AllItems, OkPart, EmptyKey, ItemTokens, Empty;
    Stepped(IndentlessSequenceStep(d), es, z);
    if !d.tokens[0].BlockEntryToken? {
      xs, rest, later := [], d.tokens, es[1..];
      assert d.tokens == ItemTokens([]) + d.tokens by { NoItemTokens(d.tokens); }
      assert AllItems(xs, Hs(d.handles)) by { NoItems(Hs(d.handles)); }
      NoEvents(SequenceEnd, later);
    } else {
      var x, mid, after := IndentlessItemFound(d, es, z);
      var m := d.(state := IndentlessSequenceEntry, tokens := mid);
      Resuming(m, after, z);
      var ys;
      ys, rest, later := IndentlessFound(m, after, z);
      xs := [x] + ys;
      assert xs[1..] == ys;
      FrontItems(x, ys, Hs(d.handles));
      FrontEvents(Tree(x), Trees(ys), es, SequenceEnd, after, later);
      ItemsWhole(x, ys, d.tokens, rest);
      SameDone(d, m, rest);
    }
  }

  lemma {:induction false} NoItemTokens(ts: seq<Token>)
    ensures ItemTokens([]) + ts == ts
  {
  }

  // ----- block mappings -----

  lemma {:induction false} PartFound(e: Config, next: State, es: seq<Event>, z: Config)
    returns (x: Node, rest: seq<Token>, later: seq<Event>)
    requires z.state == EndState && next != EndState && !e.ended && Gives(BlockPartStep(e, next), es, z)
    ensures OkPart(x, Hs(e.handles), true, true) && e.tokens == Tokens(x) + rest
    ensures Goes(x, es, z, e.(state := next, tokens := rest), later)
    decreases |es|, 3
  {
    hide Step, Gives, Hs, ChildStep, Ok, Tokens, Goes;
    Stepped(BlockPartStep(e, next), es, z);
    if EndsPart(e.tokens[0]) {
      x, rest := Missing, e.tokens;
      later := MissingFound(e, next, es, z);
    } else {
      x, rest, later := ChildFound(e, next, true, true, es, z);
    }
  }

  /** The value of a pair: written after a colon, or left out. */
  lemma {:induction false} ValueFound(e: Config, es: seq<Event>, z: Config)
    returns (colon: bool, x: Node, rest: seq<Token>, later: seq<Event>)
    requires z.state == EndState && !e.ended && Gives(BlockMappingValueStep(e), es, z)
    ensures OkPart(x, Hs(e.handles), true, true) && (!colon ==> x.Missing?)
    ensures e.tokens == (if colon then [ValueToken] + Tokens(x) else []) + rest
    ensures Goes(x, es, z, e.(state := BlockMappingKey, tokens := rest), later)
    decreases |es|, 4
  {
    hide Step, Gives, Hs, BlockPartStep, Ok, Tokens, Goes;
    Stepped(BlockMappingValueStep(e), es, z);
    SkipOne(e);
    colon := e.tokens[0].ValueToken?;
    if colon {
      x, rest, later := PartFound(Skipped(e), BlockMappingKey, es, z);
      Joined3([ValueToken], Tokens(x), rest);
    } else {
      x, rest := Missing, e.tokens;
      later := MissingFound(e, BlockMappingKey, es, z);
      assert e.tokens == [] + rest;
    }
  }

  /** The tokens and the events of a pair. */
  lemma {:induction false} PairWhole(p: Pair, all: seq<Token>, after: seq<Token>, mid: seq<Token>, es: seq<Event>, half: seq<Event>,
                                     later: seq<Event>)
    requires all == [KeyToken] + (Tokens(p.key) + mid) && mid == ValueTokens(p) + after
    requires es == T.Text(Tree(p.key)) + half && half == T.Text(Tree(p.value)) + later
    ensures all == PairTokens(p) + after && es == T.Texts(PairTree(p)) + later
  {
    hide Tokens, Tree, T.Text, T.Texts;
    TokensAssoc([KeyToken], Tokens(p.key), ValueTokens(p), after);
    TwoTexts(Tree(p.key), Tree(p.value));
    assert T.Text(Tree(p.key)) + (T.Text(Tree(p.value)) + later) == T.Text(Tree(p.key)) + T.Text(Tree(p.value)) + later;
  }

  lemma {:induction false} PairFound(d: Config, es: seq<Event>, z: Config)
    returns (p: Pair, rest: seq<Token>, later: seq<Event>)
    requires z.state == EndState && !d.ended && Gives(BlockMappingKeyStep(d), es, z) && d.tokens[0].KeyToken?
    ensures OkPair(p, Hs(d.handles), true) && d.tokens == PairTokens(p) + rest
    ensures es == T.Texts(PairTree(p)) + later && |later| < |es|
    ensures Gives(BlockMappingKeyStep(d.(state := BlockMappingKey, tokens := rest)), later, z)
    decreases |es|, 4
  {
    hide Step, Gives, Hs, BlockPartStep, Ok, Tokens, Tree, T.Text, T.Texts, PairTokens, PairTree, EmptyKey, BlockMappingValueStep;
    Stepped(BlockMappingKeyStep(d), es, z);
    SkipOne(d);
    var k, mid, half := PartFound(Skipped(d), BlockMappingValue, es, z);
    var m := d.(state := BlockMappingValue, tokens := mid);
    Resuming(m, half, z);
    var colon, v;
    colon, v, rest, later := ValueFound(m, half, z);
    p := Pair(k, colon, v);
    PairWhole(p, d.tokens, rest, mid, es, half, later);
    Resuming(d.(state := BlockMappingKey, tokens := rest), later, z);
  }

  lemma {:induction false} FrontPairs(p: Pair, ps: seq<Pair>, handles: set<nat>)
    requires OkPair(p, handles, true) && AllPairs(ps, handles)
    ensures AllPairs([p] + ps, handles)
  {
    hide OkPair;
    forall k | 0 <= k < |[p] + ps|
      ensures OkPair(([p] + ps)[k], handles, true)
    {
      assert k > 0 ==> ([p] + ps)[k] == ps[k - 1];
    }
  }

  /** The events of several children and of those after them. */
  lemma {:induction false} FrontTexts(ts: seq<T.Tree>, us: seq<T.Tree>, es: seq<Event>, end: Event, mid: seq<Event>, later: seq<Event>)
    requires es == T.Texts(ts) + mid && mid == T.Texts(us) + [end] + later
    ensures es == T.Texts(ts + us) + [end] + later
  {
    hide T.Texts;
    TextsJoin(ts, us);
    EventsAssoc(T.Texts(ts), T.Texts(us), [end], later);
  }

  lemma {:induction false} PairsFound(d: Config, es: seq<Event>, z: Config)
    returns (ps: seq<Pair>, rest: seq<Token>, later: seq<Event>)
    requires z.state == EndState && d.states != [] && !d.ended && Gives(BlockMappingKeyStep(d), es, z)
    ensures AllPairs(ps, Hs(d.handles)) && d.tokens == PairsTokens(ps) + [BlockEndToken] + rest
    ensures es == T.Texts(PairTrees(ps)) + [MappingEnd] + later && |later| < |es| && Yields(Done(d, rest), later, z)
    decreases |es|, 5
  {
    hide Step, Gives, Hs, BlockPartStep, T.Texts, PairTree, PairTokens, Yields, AllPairs, OkPair, EmptyKey, Done, PairsTokens;
    Stepped(BlockMappingKeyStep(d), es, z);
    SkipOne(d);
    if d.tokens[0].BlockEndToken? {
      ps, rest, later := [], d.tokens[1..], es[1..];
      assert d.tokens == PairsTokens([]) + [BlockEndToken] + rest by { NoTokens(BlockEndToken, rest); }
      assert Skipped(Popped(d)) == Done(d, rest) by { AfterToken(d); }
      assert AllPairs(ps, Hs(d.handles)) by { NoItems(Hs(d.handles)); }
      NoEvents(MappingEnd, later);
    } else {
      var p, mid, after := PairFound(d, es, z);
      var m := d.(state := BlockMappingKey, tokens := mid);
      var qs;
      qs, rest, later := PairsFound(m, after, z);
      ps := [p] + qs;
      assert ps[1..] == qs;
      FrontPairs(p, qs, Hs(d.handles));
      FrontTexts(PairTree(p), PairTrees(qs), es, MappingEnd, after, later);
      PairsFront(p, qs, [BlockEndToken] + rest);
      Joined3(PairsTokens(qs), [BlockEndToken], rest);
      Joined3(PairsTokens(ps), [BlockEndToken], rest);
      SameDone(d, m, rest);
    }
  }

  lemma {:induction false} PairsFront(p: Pair, qs: seq<Pair>, end: seq<Token>)
    ensures PairsTokens([p] + qs) + end == PairTokens(p) + (PairsTokens(qs) + end)
  {
    hide PairTokens;
    assert ([p] + qs)[1..] == qs;
    Joined3(PairTokens(p), PairsTokens(qs), end);
  }

  // ----- flow collections -----

  lemma {:induction false} FlowPartFound(e: Config, next: State, end: Token, es: seq<Event>, z: Config)
    returns (x: Node, rest: seq<Token>, later: seq<Event>)
    requires z.state == EndState && next != EndState && !e.ended && Gives(FlowPartStep(e, next, end), es, z)
    ensures OkPart(x, Hs(e.handles), false, false) && e.tokens == Tokens(x) + rest
    ensures Goes(x, es, z, e.(state := next, tokens := rest), later)
    decreases |es|, 3
  {
    hide Step, Gives, Hs, ChildStep, Ok, Tokens, Goes;
    Stepped(FlowPartStep(e, next, end), es, z);
    if EndsEntry(e.tokens[0], end) {
      x, rest := Missing, e.tokens;
      later := MissingFound(e, next, es, z);
    } else {
      x, rest, later := ChildFound(e, next, false, false, es, z);
    }
  }

  lemma {:induction false} FlowValueFound(e: Config, next: State, end: Token, es: seq<Event>, z: Config)
    returns (colon: bool, x: Node, rest: seq<Token>, later: seq<Event>)
    requires z.state == EndState && next != EndState && !e.ended && Gives(FlowValueStep(e, next, end), es, z)
    ensures OkPart(x, Hs(e.handles), false, false) && (!colon ==> x.Missing?)
    ensures e.tokens == (if colon then [ValueToken] + Tokens(x) else []) + rest
    ensures Goes(x, es, z, e.(state := next, tokens := rest), later)
    decreases |es|, 4
  {
    hide Step, Gives, Hs, FlowPartStep, Ok, Tokens, Goes;
    Stepped(FlowValueStep(e, next, end), es, z);
    SkipOne(e);
    colon := e.tokens[0].ValueToken?;
    if colon {
      x, rest, later := FlowPartFound(Skipped(e), next, end, es, z);
      Joined3([ValueToken], Tokens(x), rest);
    } else {
      x, rest := Missing, e.tokens;
      later := MissingFound(e, next, es, z);
      assert e.tokens == [] + rest;
    }
  }

  /** Past the comma, if there is one. */
  lemma {:induction false} NextFound(d: Config, first: bool, end: Token) returns (comma: bool)
    requires NextEntry(d, first, end).Some? && !d.ended
    requires end.FlowSequenceEndToken? || end.FlowMappingEndToken?
    ensures var f := NextEntry(d, first, end).value;
            && f == d.(tokens := f.tokens) && d.tokens == (if comma then [FlowEntryToken] else []) + f.tokens
            && (first ==> !comma) && (!first && f.tokens[0] != end ==> comma)
  {
    SkipOne(d);
    comma := !first && d.tokens[0].FlowEntryToken?;
    assert !comma ==> d.tokens == [] + d.tokens;
  }

  /** A pair in a flow sequence, after its key token. */
  lemma {:induction false} KeyedFound(k: Config, es: seq<Event>, z: Config)
    returns (p: Pair, rest: seq<Token>, later: seq<Event>)
    requires z.state == EndState && !k.ended && k.state == FlowSequenceEntryMappingKey && Yields(k, es, z)
    ensures OkPair(p, Hs(k.handles), false) && !p.key.Missing? && k.tokens == Tokens(p.key) + (ValueTokens(p) + rest)
    ensures es == T.Texts(PairTree(p)) + [MappingEnd] + later && |later| < |es|
    ensures Gives(FlowSequenceStep(k.(state := FlowSequenceEntry, tokens := rest), false), later, z)
    decreases |es|, 5
  {
    hide Step, Gives, Hs, ChildStep, FlowPartStep, FlowValueStep, Ok, Tokens, Tree, T.Text, T.Texts, Yields;
    GoesOn(k, es, z);
    Resuming(k, es, z);
    Stepped(PairKeyStep(k), es, z);
    var x, mid, half := ChildFound(k, FlowSequenceEntryMappingValue, false, false, es, z);
    var m := k.(state := FlowSequenceEntryMappingValue, tokens := mid);
    Resuming(m, half, z);
    var colon, v, last;
    colon, v, rest, last := FlowValueFound(m, FlowSequenceEntryMappingEnd, FlowSequenceEndToken, half, z);
    p := Pair(x, colon, v);
    assert !x.Missing? by { Written(x, Hs(k.handles), false, false); }
    var w := k.(state := FlowSequenceEntryMappingEnd, tokens := rest);
    Resuming(w, last, z);
    Stepped(PairEndStep(w), last, z);
    later := last[1..];
    var n := k.(state := FlowSequenceEntry, tokens := rest);
    GoesOn(n, later, z);
    Resuming(n, later, z);
    TwoTexts(Tree(x), Tree(v));
    EventsNested(T.Text(Tree(x)), T.Text(Tree(v)), [MappingEnd], later);
  }

  lemma {:induction false} EventsNested(a: seq<Event>, b: seq<Event>, c: seq<Event>, d: seq<Event>)
    ensures a + (b + (c + d)) == a + b + c + d
  {
  }

  lemma {:induction false} Written(x: Node, handles: set<nat>, block: bool, indentless: bool)
    requires Ok(x, handles, block, indentless)
    ensures !x.Missing?
  {
  }

  lemma {:induction false} SequenceEntryFound(d: Config, first: bool, f: Config, es: seq<Event>, z: Config)
    returns (e: Entry, rest: seq<Token>, later: seq<Event>)
    requires z.state == EndState && !d.ended && Gives(FlowSequenceStep(d, first), es, z)
    requires NextEntry(d, first, FlowSequenceEndToken) == Some(f) && f == d.(tokens := f.tokens) && !f.tokens[0].FlowSequenceEndToken?
    ensures OkEntry(e, Hs(d.handles), false) && f.tokens == EntryTokens(e) + rest
    ensures es == T.Text(EntryTree(e)) + later && |later| < |es|
    ensures Gives(FlowSequenceStep(d.(state := FlowSequenceEntry, tokens := rest), false), later, z)
    decreases |es|, 6
  {
    hide Step, Gives, Hs, ChildStep, Ok, Tokens, Tree, T.Text, T.Texts, Yields, NextEntry, PairTree;
    Stepped(FlowSequenceStep(d, first), es, z);
    SkipOne(f);
    if f.tokens[0].KeyToken? {
      var k := Skipped(f).(state := FlowSequenceEntryMappingKey);
      var p;
      p, rest, later := KeyedFound(k, es[1..], z);
      e := Keyed(p);
      assert es == [MappingStart(true)] + es[1..];
      TokensAssoc([KeyToken], Tokens(p.key), ValueTokens(p), rest);
      MappingText(true, PairTree(p));
      assert [MappingStart(true)] + (T.Texts(PairTree(p)) + [MappingEnd] + later)
          == [MappingStart(true)] + (T.Texts(PairTree(p)) + [MappingEnd]) + later;
    } else {
      var x;
      x, rest, later := ChildFound(f, FlowSequenceEntry, false, false, es, z);
      e := Single(x);
      Resuming(d.(state := FlowSequenceEntry, tokens := rest), later, z);
    }
  }

  lemma {:induction false} FrontEntries(e: Entry, es: seq<Entry>, handles: set<nat>, mapping: bool)
    requires OkEntry(e, handles, mapping) && AllEntries(es, handles, mapping)
    ensures AllEntries([e] + es, handles, mapping)
  {
    hide OkEntry;
    forall k | 0 <= k < |[e] + es|
      ensures OkEntry(([e] + es)[k], handles, mapping)
    {
      assert k > 0 ==> ([e] + es)[k] == es[k - 1];
    }
  }

  /** The tokens of an entry and of those after it. */
  lemma {:induction false} EntriesWhole(e: Entry, ys: seq<Entry>, comma: bool, first: bool, sep: bool, all: seq<Token>, end: Token,
                                        rest: seq<Token>)
    requires all == (if sep then [FlowEntryToken] else []) + (EntryTokens(e) + (Left(ys, comma, false) + [end] + rest))
    requires sep == !first
    ensures all == Left([e] + ys, comma, first) + [end] + rest
  {
    hide EntryTokens, EntriesTokens, Left;
    var xs := [e] + ys;
    assert xs[1..] == ys;
    EntriesFront(xs, comma);
    LeftIs(xs, comma);
    Regroup(EntryTokens(e), Left(ys, comma, false), [end], rest);
    if sep {
      Regroup([FlowEntryToken], EntryTokens(e) + Left(ys, comma, false), [end], rest);
    } else {
      assert [] + (EntriesTokens(xs, comma) + [end] + rest) == EntriesTokens(xs, comma) + [end] + rest;
    }
  }

  lemma {:induction false} EntriesEnd(comma: bool, first: bool, all: seq<Token>, end: Token, rest: seq<Token>)
    requires all == (if comma then [FlowEntryToken] else []) + ([end] + rest) && (first ==> !comma)
    ensures all == Left([], comma, first) + [end] + rest
  {
    assert [] + [end] + rest == [end] + rest;
    assert comma ==> [FlowEntryToken] + [] + [end] + rest == [FlowEntryToken] + ([end] + rest);
  }

  lemma {:induction false} SequenceFound(d: Config, first: bool, es: seq<Event>, z: Config)
    returns (xs: seq<Entry>, comma: bool, rest: seq<Token>, later: seq<Event>)
    requires z.state == EndState && d.states != [] && !d.ended && Gives(FlowSequenceStep(d, first), es, z)
    ensures AllEntries(xs, Hs(d.handles), false) && d.tokens == Left(xs, comma, first) + [FlowSequenceEndToken] + rest
    ensures first && comma ==> xs != []
    ensures es == T.Texts(SequenceTrees(xs)) + [SequenceEnd] + later && |later| < |es| && Yields(Done(d, rest), later, z)
    decreases |es|, 7
  {
    hide Step, Gives, Hs, ChildStep, T.Texts, T.Text, EntryTree, EntryTokens, Yields, AllEntries, OkEntry, EmptyKey, Done, NextEntry, Left;
    Stepped(FlowSequenceStep(d, first), es, z);
    var f := NextEntry(d, first, FlowSequenceEndToken).value;
    var sep := NextFound(d, first, FlowSequenceEndToken);
    SkipOne(f);
    if f.tokens[0].FlowSequenceEndToken? {
      xs, comma, rest, later := [], sep, f.tokens[1..], es[1..];
      EntriesEnd(sep, first, d.tokens, FlowSequenceEndToken, rest);
      assert Skipped(Popped(f)) == Done(f, rest) by { AfterToken(f); }
      SameDone(f, d, rest);
      assert AllEntries(xs, Hs(d.handles), false) by { NoItems(Hs(d.handles)); }
      NoEvents(SequenceEnd, later);
    } else {
      var e, mid, after := SequenceEntryFound(d, first, f, es, z);
      var m := d.(state := FlowSequenceEntry, tokens := mid);
      var ys;
      ys, comma, rest, later := SequenceFound(m, false, after, z);
      xs := [e] + ys;
      assert xs[1..] == ys;
      FrontEntries(e, ys, Hs(d.handles), false);
      FrontEvents(EntryTree(e), SequenceTrees(ys), es, SequenceEnd, after, later);
      EntriesWhole(e, ys, comma, first, sep, d.tokens, FlowSequenceEndToken, rest);
      SameDone(d, m, rest);
    }
  }

  lemma {:induction false} FlowKeyFound(e: Config, es: seq<Event>, z: Config)
    returns (x: Node, rest: seq<Token>, later: seq<Event>)
    requires z.state == EndState && !e.ended && Gives(FlowKeyStep(e), es, z)
    ensures OkPart(x, Hs(e.handles), false, false) && e.tokens == Tokens(x) + rest
    ensures Goes(x, es, z, e.(state := FlowMappingValue, tokens := rest), later)
    decreases |es|, 3
  {
    hide Step, Gives, Hs, ChildStep, Ok, Tokens, Goes;
    Stepped(FlowKeyStep(e), es, z);
    if e.tokens[0].ValueToken? || EndsEntry(e.tokens[0], FlowMappingEndToken) {
      x, rest := Missing, e.tokens;
      later := MissingFound(e, FlowMappingValue, es, z);
    } else {
      x, rest, later := ChildFound(e, FlowMappingValue, false, false, es, z);
    }
  }

  lemma {:induction false} MappingKeyedFound(f: Config, es: seq<Event>, z: Config)
    returns (p: Pair, rest: seq<Token>, later: seq<Event>)
    requires z.state == EndState && !f.ended && f.tokens != [] && f.tokens[0].KeyToken? && Gives(FlowKeyStep(Skipped(f)), es, z)
    ensures OkPair(p, Hs(f.handles), false) && f.tokens == PairTokens(p) + rest
    ensures es == T.Texts(PairTree(p)) + later && |later| < |es|
    ensures Gives(FlowMappingStep(f.(state := FlowMappingKey, tokens := rest), false), later, z)
    decreases |es|, 5
  {
    hide Step, Gives, Hs, FlowKeyStep, FlowValueStep, FlowMappingStep, Ok, Tokens, Tree, T.Text, T.Texts, Yields, PairTree, PairTokens,
         EmptyKey;
    SkipOne(f);
    var k, mid, half := FlowKeyFound(Skipped(f), es, z);
    var m := f.(state := FlowMappingValue, tokens := mid);
    Resuming(m, half, z);
    var colon, v;
    colon, v, rest, later := FlowValueFound(m, FlowMappingKey, FlowMappingEndToken, half, z);
    p := Pair(k, colon, v);
    PairWhole(p, f.tokens, rest, mid, es, half, later);
    Resuming(f.(state := FlowMappingKey, tokens := rest), later, z);
  }

  lemma {:induction false} MappingSingleFound(f: Config, es: seq<Event>, z: Config)
    returns (x: Node, rest: seq<Token>, later: seq<Event>)
    requires z.state == EndState && !f.ended && Gives(ChildStep(f, FlowMappingEmptyValue, false, false), es, z)
    ensures Ok(x, Hs(f.handles), false, false) && f.tokens == Tokens(x) + rest
    ensures es == T.Texts([Tree(x), T.ScalarNode]) + later && |later| < |es|
    ensures Gives(FlowMappingStep(f.(state := FlowMappingKey, tokens := rest), false), later, z)
    decreases |es|, 5
  {
    hide Step, Gives, Hs, ChildStep, FlowMappingStep, Ok, Tokens, Tree, T.Text, T.Texts, Yields, EmptyKey;
    var half;
    x, rest, half := ChildFound(f, FlowMappingEmptyValue, false, false, es, z);
    var m := f.(state := FlowMappingEmptyValue, tokens := rest);
    Resuming(m, half, z);
    Stepped(EmptyValueStep(m), half, z);
    later := half[1..];
    GoesOn(f.(state := FlowMappingKey, tokens := rest), later, z);
    TwoTexts(Tree(x), T.ScalarNode);
    ScalarText();
    assert T.Text(Tree(x)) + ([Scalar] + later) == T.Text(Tree(x)) + [Scalar] + later;
    Resuming(f.(state := FlowMappingKey, tokens := rest), later, z);
  }

  lemma {:induction false} MappingEntryFound(d: Config, first: bool, f: Config, es: seq<Event>, z: Config)
    returns (e: Entry, rest: seq<Token>, later: seq<Event>)
    requires z.state == EndState && !d.ended && Gives(FlowMappingStep(d, first), es, z)
    requires NextEntry(d, first, FlowMappingEndToken) == Some(f) && f == d.(tokens := f.tokens) && !f.tokens[0].FlowMappingEndToken?
    ensures OkEntry(e, Hs(d.handles), true) && f.tokens == EntryTokens(e) + rest
    ensures es == T.Texts(EntryPair(e)) + later && |later| < |es|
    ensures Gives(FlowMappingStep(d.(state := FlowMappingKey, tokens := rest), false), later, z)
    decreases |es|, 6
  {
    hide Step, Gives, Hs, ChildStep, FlowKeyStep, Ok, Tokens, Tree, T.Texts, NextEntry, PairTree, PairTokens, OkPair, Skipped;
    if f.tokens[0].KeyToken? {
      var p;
      p, rest, later := MappingKeyedFound(f, es, z);
      e := Keyed(p);
    } else {
      var x;
      x, rest, later := MappingSingleFound(f, es, z);
      e := Single(x);
    }
  }

  lemma {:induction false} MappingFound(d: Config, first: bool, es: seq<Event>, z: Config)
    returns (xs: seq<Entry>, comma: bool, rest: seq<Token>, later: seq<Event>)
    requires z.state == EndState && d.states != [] && !d.ended && Gives(FlowMappingStep(d, first), es, z)
    ensures AllEntries(xs, Hs(d.handles), true) && d.tokens == Left(xs, comma, first) + [FlowMappingEndToken] + rest
    ensures first && comma ==> xs != []
    ensures es == T.Texts(MappingTrees(xs)) + [MappingEnd] + later && |later| < |es| && Yields(Done(d, rest), later, z)
    decreases |es|, 7
  {
    hide Step, Gives, Hs, ChildStep, T.Texts, T.Text, EntryPair, EntryTokens, Yields, AllEntries, OkEntry, EmptyKey, Done, NextEntry, Left;
    Stepped(FlowMappingStep(d, first), es, z);
    var f := NextEntry(d, first, FlowMappingEndToken).value;
    var sep := NextFound(d, first, FlowMappingEndToken);
    SkipOne(f);
    if f.tokens[0].FlowMappingEndToken? {
      xs, comma, rest, later := [], sep, f.tokens[1..], es[1..];
      EntriesEnd(sep, first, d.tokens, FlowMappingEndToken, rest);
      assert Skipped(Popped(f)) == Done(f, rest) by { AfterToken(f); }
      SameDone(f, d, rest);
      assert AllEntries(xs, Hs(d.handles), true) by { NoItems(Hs(d.handles)); }
      NoEvents(MappingEnd, later);
    } else {
      var e, mid, after := MappingEntryFound(d, first, f, es, z);
      var m := d.(state := FlowMappingKey, tokens := mid);
      var ys;
      ys, comma, rest, later := MappingFound(m, false, after, z);
      xs := [e] + ys;
      assert xs[1..] == ys;
      FrontEntries(e, ys, Hs(d.handles), true);
      FrontTexts(EntryPair(e), MappingTrees(ys), es, MappingEnd, after, later);
      EntriesWhole(e, ys, comma, first, sep, d.tokens, FlowMappingEndToken, rest);
      SameDone(d, m, rest);
    }
  }

  // ----- documents -----

  lemma {:induction false} FrontDirective(d: Directive, ds: seq<Directive>, handles: seq<nat>)
    requires AllDifferent(ds) && d !in ds
    requires if d.Handle? then d.h !in handles && NewHandles(ds, handles + [d.h]) else NewHandles(ds, handles)
    ensures AllDifferent([d] + ds) && NewHandles([d] + ds, handles)
  {
    var all := [d] + ds;
    forall i, j | 0 <= i < j < |all|
      ensures all[i] != all[j]
    {
      assert all[j] == ds[j - 1] && (i > 0 ==> all[i] == ds[i - 1]);
    }
    forall k | 0 <= k < |all| && all[k].Handle?
      ensures all[k].h !in handles
    {
      assert k > 0 ==> all[k] == ds[k - 1];
    }
  }

  /** A handle that is there already is not declared again. */
  lemma {:induction false} NotDeclared(h: nat, ds: seq<Directive>, handles: seq<nat>)
    requires NewHandles(ds, handles + [h])
    ensures Handle(h) !in ds
  {
    forall k | 0 <= k < |ds|
      ensures ds[k] != Handle(h)
    {
    }
  }

  lemma {:induction false} DirectivesFound(c: Config, version: bool) returns (ds: seq<Directive>)
    requires Directives(c, version).Some? && !c.ended
    ensures var r := Directives(c, version).value;
            && c.tokens == DirectiveTokens(ds) + r.tokens
            && r == WithDefaults(c.(tokens := r.tokens, handles := c.handles + HandleList(ds)))
    ensures AllDifferent(ds) && (version ==> Version !in ds) && NewHandles(ds, c.handles)
    ensures c.tokens != [] && !IsDirective(c.tokens[0]) ==> ds == []
    decreases |c.tokens|
  {
    hide WithDefaults, NewHandles, AllDifferent, Skipped, DirectiveTokens, HandleList;
    SkipOne(c);
    if IsDirective(c.tokens[0]) {
      var d := if c.tokens[0].VersionDirectiveToken? then Version else Handle(c.tokens[0].handle);
      assert c.tokens[0] == if d.Version? then VersionDirectiveToken(1, 1) else TagDirectiveToken(d.h);
      var e := Skipped(c).(handles := c.handles + (if d.Handle? then [d.h] else []));
      assert c.handles + [] == c.handles;
      var more := DirectivesFound(e, version || d.Version?);
      ds := [d] + more;
      assert ds[1..] == more;
      if d.Handle? {
        NotDeclared(d.h, more, c.handles);
      }
      FrontDirective(d, more, c.handles);
      HandlesFront(ds, c.handles);
      OneHandle(d);
      FrontDirectiveTokens(d, more, Directives(c, version).value.tokens);
    } else {
      ds := [];
      DefaultsOnly(c);
      NoHandles(c.handles);
      NoDirectives(c.handles, c.tokens);
    }
  }

  lemma {:induction false} FrontDirectiveTokens(d: Directive, ds: seq<Directive>, rest: seq<Token>)
    ensures DirectiveTokens([d] + ds) + rest
         == [if d.Version? then VersionDirectiveToken(1, 1) else TagDirectiveToken(d.h)] + (DirectiveTokens(ds) + rest)
  {
    assert ([d] + ds)[1..] == ds;
  }

  lemma {:induction false} NoDirectives(handles: seq<nat>, ts: seq<Token>)
    ensures AllDifferent([]) && NewHandles([], handles) && DirectiveTokens([]) + ts == ts
  {
  }

  lemma {:induction false} EndsFound(c: Config) returns (n: nat)
    requires !c.ended
    ensures PastEnds(c) == c.(tokens := PastEnds(c).tokens) && c.tokens == EndTokens(n) + PastEnds(c).tokens
    ensures c.tokens != [] && !c.tokens[0].DocumentEndToken? ==> n == 0
    decreases |c.tokens|
  {
    hide Skipped;
    SkipOne(c);
    if c.tokens != [] && c.tokens[0].DocumentEndToken? {
      var m := EndsFound(Skipped(c));
      n := m + 1;
      assert EndTokens(n) == [DocumentEndToken] + EndTokens(m);
      Joined3([DocumentEndToken], EndTokens(m), PastEnds(c).tokens);
    } else {
      n := 0;
      assert c.tokens == [] + c.tokens;
    }
  }

  /** The handles known in a document are those it may use. */
  lemma {:induction false} HandlesExact(c: Config, ds: seq<Directive>)
    requires c.handles == HandleList(ds)
    ensures Hs(WithDefaults(c).handles) == HandlesOf(ds)
  {
    forall h: nat
      ensures h in Hs(WithDefaults(c).handles) <==> h in HandlesOf(ds)
    {
      InHandleList(ds, h);
    }
  }

  lemma {:induction false} RootFound(s: Config, es: seq<Event>, z: Config)
    returns (x: Node, rest: seq<Token>, later: seq<Event>)
    requires z.state == EndState && !s.ended && s.states == [DocumentEndState] && Yields(s, es, z)
    requires s.state == DocumentContent || s.state == BlockNode
    ensures OkPart(x, Hs(s.handles), true, false) && (s.state == BlockNode ==> !x.Missing?)
    ensures s.tokens == Tokens(x) + rest && es == T.Text(Tree(x)) + later && |later| < |es|
    ensures Yields(Config(rest, DocumentEndState, [], s.handles, false), later, z)
  {
    hide Yields, Gives, Hs, NodeStep, Ok, EmptyKey;
    assert [DocumentEndState][..0] == [];
    GoesOn(s, es, z);
    Stepped(Step(s), es, z);
    if s.state == DocumentContent && (IsDirective(s.tokens[0]) || s.tokens[0].DocumentStartToken? || s.tokens[0].DocumentEndToken?
                                      || s.tokens[0].StreamEndToken?) {
      x, rest, later := Missing, s.tokens, es[1..];
      assert s.tokens == [] + s.tokens;
    } else {
      x, rest, later := NodeFound(s, true, false, es, z);
      Written(x, Hs(s.handles), true, false);
      assert Done(s, rest) == Config(rest, DocumentEndState, [], s.handles, false);
    }
  }

  /** The end of a document: the ends that follow it, and the machine before the next. */
  lemma {:induction false} EndFound(m: Config, es: seq<Event>, z: Config) returns (skipped: bool, c: Config, later: seq<Event>)
    requires z.state == EndState && m.state == DocumentEndState && m.states == [] && !m.ended && Yields(m, es, z)
    ensures c == Config(c.tokens, DocumentStartState, [], [], false) && Yields(c, later, z)
    ensures es == [DocumentEnd] + later && |later| < |es|
    ensures m.tokens == (if skipped then [DocumentEndToken] else []) + c.tokens
    ensures !skipped ==> c.tokens != [] && !c.tokens[0].DocumentEndToken?
  {
    hide Yields, Gives, EmptyKey;
    GoesOn(m, es, z);
    Stepped(Step(m), es, z);
    SkipOne(m);
    skipped := m.tokens[0].DocumentEndToken?;
    c, later := Step(m).next, es[1..];
    assert m.tokens == [] + m.tokens;
  }

  /** The start of a document: its directives, and the machine before its root. */
  lemma {:induction false} StartFound(b: Config, first: bool) returns (explicit: bool, ds: seq<Directive>, s: Config)
    requires b.states == [] && b.handles == [] && !b.ended && b.state != EndState
    requires b.tokens != [] && !b.tokens[0].StreamEndToken? && (!first ==> !b.tokens[0].DocumentEndToken?)
    requires b.state == (if first then ImplicitDocumentStart else DocumentStartState)
    requires Step(b).Go?
    ensures Step(b) == Go(DocumentStart, s) && s == Config(s.tokens, s.state, [DocumentEndState], s.handles, false)
    ensures s.state == (if explicit then DocumentContent else BlockNode) && Hs(s.handles) == HandlesOf(ds) && AllDifferent(ds)
    ensures b.tokens == (if explicit then DirectiveTokens(ds) + [DocumentStartToken] else []) + s.tokens
    ensures !explicit ==> first && ds == []
  {
    hide WithDefaults, AllDifferent, NewHandles, Hs, HandlesOf, Skipped;
    assert !first ==> PastEnds(b) == b;
    ds := DirectivesFound(b, false);
    var r := Directives(b, false).value;
    assert [] + HandleList(ds) == HandleList(ds) && [] + [DocumentEndState] == [DocumentEndState];
    var e := b.(tokens := r.tokens, handles := HandleList(ds));
    DefaultsOnly(e);
    HandlesExact(e, ds);
    SkipOne(r);
    explicit := !(first && !IsDirective(b.tokens[0]) && !b.tokens[0].DocumentStartToken?);
    s := Step(b).next;
    if explicit {
      Joined3(DirectiveTokens(ds), [DocumentStartToken], s.tokens);
    } else {
      assert b.tokens == [] + b.tokens;
    }
  }

  /** The machine at the end of the stream stops. */
  lemma {:induction false} Stops(c: Config, es: seq<Event>)
    requires c.ended && Yields(c, es, Finished)
    ensures es == [] && c == Finished
  {
  }

  /** The last event. */
  lemma {:induction false} LastFound(c: Config, first: bool, es: seq<Event>)
    requires c.tokens != [] && c.tokens[0].StreamEndToken? && !c.ended
    requires c.state == (if first then ImplicitDocumentStart else DocumentStartState)
    requires Gives(Step(c), es, Finished)
    ensures c.tokens == [StreamEndToken] && es == [StreamEnd]
  {
    hide Yields;
    Stepped(Step(c), es, Finished);
    SkipOne(c);
    Stops(Step(c).next, es[1..]);
  }

  lemma {:induction false} FrontStream(d: Document, ds: seq<Document>)
    requires OkDocument(d) && OkStream(ds) && (ds != [] ==> ds[0].explicit)
    ensures OkStream([d] + ds)
  {
    hide OkDocument;
    forall k | 0 <= k < |[d] + ds|
      ensures OkDocument(([d] + ds)[k]) && (k > 0 ==> ([d] + ds)[k].explicit)
    {
      assert k > 0 ==> ([d] + ds)[k] == ds[k - 1];
    }
  }

  /** The ends after a document are one more than those skipped before the next. */
  lemma {:induction false} EndsWhole(skipped: bool, lead: nat, all: seq<Token>, rest: seq<Token>) returns (ends: nat)
    requires all == (if skipped then [DocumentEndToken] else []) + (EndTokens(lead) + rest) && (!skipped ==> lead == 0)
    ensures all == EndTokens(ends) + rest
  {
    ends := if skipped then lead + 1 else 0;
    if skipped {
      Joined3([DocumentEndToken], EndTokens(lead), rest);
    } else {
      assert [] + ([] + rest) == [] + rest;
    }
  }

  /** The tokens and the events of a document and of those after it. */
  lemma {:induction false} DocumentWhole(d: Document, ds: seq<Document>, all: seq<Token>, a: seq<Token>, b: seq<Token>,
                                         es: seq<Event>, e1: seq<Event>, e2: seq<Event>, later: seq<Event>)
    requires all == StartTokens(d) + a && a == Tokens(d.root) + b
    requires b == EndTokens(d.ends) + (DocumentTokens(ds) + [StreamEndToken])
    requires es == [DocumentStart] + e1 && e1 == T.Text(Tree(d.root)) + e2 && e2 == [DocumentEnd] + later
    requires later == T.Documents(Roots(ds)) + [StreamEnd]
    ensures all == DocumentTokens([d] + ds) + [StreamEndToken]
    ensures es == T.Documents(Roots([d] + ds)) + [StreamEnd]
  {
    hide Tokens, StartTokens, T.Text, Tree, EndTokens, T.Documents;
    assert ([d] + ds)[1..] == ds;
    Grouped(StartTokens(d), Tokens(d.root), EndTokens(d.ends), DocumentTokens(ds), [StreamEndToken]);
    T.DocumentsFront(Tree(d.root), Roots(ds));
    var t := T.Text(Tree(d.root));
    assert [DocumentStart] + (t + ([DocumentEnd] + later)) == [DocumentStart] + t + [DocumentEnd] + later;
    assert T.DocumentText(Tree(d.root)) + (T.Documents(Roots(ds)) + [StreamEnd])
        == T.DocumentText(Tree(d.root)) + T.Documents(Roots(ds)) + [StreamEnd];
  }

  lemma {:induction false} DocumentsFound(c: Config, first: bool, es: seq<Event>) returns (lead: nat, ds: seq<Document>)
    requires c.state == (if first then ImplicitDocumentStart else DocumentStartState)
    requires c.states == [] && c.handles == [] && !c.ended && Yields(c, es, Finished)
    ensures OkStream(ds) && (!first && ds != [] ==> ds[0].explicit)
    ensures c.tokens == EndTokens(lead) + (DocumentTokens(ds) + [StreamEndToken])
    ensures (first ==> lead == 0) && (c.tokens != [] && !c.tokens[0].DocumentEndToken? ==> lead == 0)
    ensures es == T.Documents(Roots(ds)) + [StreamEnd]
    decreases |es|
  {
    hide Yields, Gives, EmptyKey, Hs, HandlesOf, AllDifferent, Ok, Tokens, T.Text, Tree, T.Documents, EndTokens, MachineStep,
         DirectiveTokens, DocumentTokens, OkStream;
    GoesOn(c, es, Finished);
    var b;
    lead, b := LeadFound(c, first);
    if b.tokens[0].StreamEndToken? {
      LastFound(b, first, es);
      ds := [];
      NoMore();
    } else {
      var explicit, dirs, s := StartFound(b, first);
      Stepped(Step(b), es, Finished);
      var x, rest, after := RootFound(s, es[1..], Finished);
      var skipped, n, later := EndFound(Config(rest, DocumentEndState, [], s.handles, false), after, Finished);
      var k, more := DocumentsFound(n, false, later);
      var ends := EndsWhole(skipped, k, rest, DocumentTokens(more) + [StreamEndToken]);
      var d := Document(explicit, dirs, x, ends);
      FrontStream(d, more);
      ds := [d] + more;
      DocumentWhole(d, more, b.tokens, s.tokens, rest, es, es[1..], after, later);
    }
  }

  lemma {:induction false} NoMore()
    ensures OkStream([]) && DocumentTokens([]) + [StreamEndToken] == [StreamEndToken]
    ensures T.Documents(Roots([])) + [StreamEnd] == [StreamEnd]
  {
  }

  /** Past the document ends before a document. */
  lemma {:induction false} LeadFound(c: Config, first: bool) returns (lead: nat, b: Config)
    requires c.state == (if first then ImplicitDocumentStart else DocumentStartState)
    requires c.states == [] && !c.ended && Step(c).Go?
    ensures b == c.(tokens := b.tokens) && c.tokens == EndTokens(lead) + b.tokens && Step(b) == Step(c)
    ensures b.tokens != [] && (!first ==> !b.tokens[0].DocumentEndToken?)
    ensures (first ==> lead == 0) && (c.tokens != [] && !c.tokens[0].DocumentEndToken? ==> lead == 0)
  {
    hide Directives, Skipped;
    if first {
      lead, b := 0, c;
      assert c.tokens == [] + c.tokens;
    } else {
      lead := EndsFound(c);
      b := PastEnds(c);
      NoFurtherEnds(c);
    }
  }

  lemma {:induction false} NoFurtherEnds(c: Config)
    ensures PastEnds(PastEnds(c)) == PastEnds(c)
    ensures PastEnds(c).tokens != [] ==> !PastEnds(c).tokens[0].DocumentEndToken?
    decreases |c.tokens|
  {
    if c.tokens != [] && c.tokens[0].DocumentEndToken? {
      NoFurtherEnds(Skipped(c));
    }
  }

  // ----- the theorem -----

  /** The tokens are those of documents, and the events those of their trees. */
  ghost predicate IsWritten(tokens: seq<Token>, es: seq<Event>) {
    exists ds :: OkStream(ds) && tokens == StreamTokens(ds) && es == T.Stream(Roots(ds))
  }

  function Beginning(tokens: seq<Token>): Config {
    Config(tokens, StreamStartState, [], [], false)
  }

  /** The parser gets through tokens to the end, with no empty key in a pair of a flow sequence, exactly
      if they are the tokens of some documents; and the events it delivers are those of their trees. */
  lemma {:induction false} AcceptsExactly(tokens: seq<Token>, es: seq<Event>)
    ensures Yields(Beginning(tokens), es, Finished) <==> IsWritten(tokens, es)
  {
    hide OkStream, Yields, Gives, DocumentTokens, T.Documents, EmptyKey;
    var c := Beginning(tokens);
    if Yields(c, es, Finished) {
      GoesOn(c, es, Finished);
      Stepped(Step(c), es, Finished);
      SkipOne(c);
      var lead, ds := DocumentsFound(Step(c).next, true, es[1..]);
      assert EndTokens(0) + (DocumentTokens(ds) + [StreamEndToken]) == DocumentTokens(ds) + [StreamEndToken];
      assert [StreamStart] + (T.Documents(Roots(ds)) + [StreamEnd]) == T.Stream(Roots(ds));
      assert tokens == StreamTokens(ds);
    }
    if IsWritten(tokens, es) {
      var ds :| OkStream(ds) && tokens == StreamTokens(ds) && es == T.Stream(Roots(ds));
      StreamRead(ds);
    }
  }

  // ----- the empty key -----

  /** [? : a] as one document. */
  const EMPTY_KEY := Document(false, [], FlowSequence(NoProps, [Keyed(Pair(Missing, true, ScalarOf(NoProps)))], false), 0)

  /** Up to n events. */
  function Delivered(c: Config, n: nat): seq<Event>
    decreases n
  {
    if n == 0 then []
    else
      match Step(c)
      case Go(e, d) => [e] + Delivered(d, n - 1)
      case _ => []
  }

  lemma {:induction false} OneMore(c: Config, e: Event, d: Config, n: nat)
    requires Step(c) == Go(e, d)
    ensures Delivered(c, n + 1) == [e] + Delivered(d, n)
  {
    hide Step;
  }

  lemma {:induction false} EmptyKeyTokens()
    ensures StreamTokens([EMPTY_KEY]) == [StreamStartToken, FlowSequenceStartToken, KeyToken, ValueToken, ScalarToken,
                                          FlowSequenceEndToken, StreamEndToken]
  {
    var p := Pair(Missing, true, ScalarOf(NoProps));
    assert PairTokens(p) == [KeyToken, ValueToken, ScalarToken];
    assert [Keyed(p)][1..] == [];
    assert EntriesTokens([Keyed(p)], false) == [KeyToken, ValueToken, ScalarToken];
    assert [EMPTY_KEY][1..] == [];
    assert DocumentTokens([EMPTY_KEY]) == [FlowSequenceStartToken, KeyToken, ValueToken, ScalarToken, FlowSequenceEndToken];
  }

  /** The machine after k events of it. */
  function Losing(k: nat): Config {
    var end := [ScalarToken, FlowSequenceEndToken, StreamEndToken];
    var start := [FlowSequenceStartToken, KeyToken, ValueToken] + end;
    var within := Config(end, FlowSequenceEntry, [DocumentEndState], DEFAULT_HANDLES, false);
    match k
    case 0 => Beginning([StreamStartToken] + start)
    case 1 => Config(start, ImplicitDocumentStart, [], [], false)
    case 2 => within.(tokens := start, state := BlockNode)
    case 3 => within.(tokens := start, state := FlowSequenceFirstEntry)
    case 4 => within.(tokens := [ValueToken] + end, state := FlowSequenceEntryMappingKey)
    case 5 => within.(state := FlowSequenceEntryMappingValue)
    case 6 => within.(state := FlowSequenceEntryMappingEnd)
    case _ => within
  }

  const LOST := [StreamStart, DocumentStart, SequenceStart(true), MappingStart(true), Scalar, Scalar, MappingEnd]

  lemma {:induction false} LosingStep(k: nat)
    requires k < 7
    ensures Step(Losing(k)) == Go(LOST[k], Losing(k + 1))
  {
    hide Losing, Step;
    if k < 3 {
      LosingFirst(k);
    } else {
      LosingThen(k);
    }
  }

  lemma {:induction false} LosingFirst(k: nat)
    requires k < 3
    ensures Step(Losing(k)) == Go(LOST[k], Losing(k + 1))
  {
    assert [] + [1] + [2] == DEFAULT_HANDLES && [] + [DocumentEndState] == [DocumentEndState];
    var c := Losing(k);
    match k
    case 0 => assert c.tokens[1..] == Losing(1).tokens;
    case 1 => assert Directives(c, false) == Some(c.(handles := DEFAULT_HANDLES));
    case 2 =>
  }

  lemma {:induction false} LosingThen(k: nat)
    requires 3 <= k < 7
    ensures Step(Losing(k)) == Go(LOST[k], Losing(k + 1))
  {
    var c := Losing(k);
    match k
    case 3 => assert c.tokens[1..][1..] == Losing(4).tokens;
    case 4 => assert c.tokens[1..] == Losing(5).tokens;
    case 5 =>
    case 6 =>
  }

  lemma {:induction false} LosingEnds(n: nat)
    ensures Delivered(Losing(7), n) == []
  {
    assert Step(Losing(7)) == Stuck;
  }

  lemma {:induction false} LosingFrom(k: nat, n: nat)
    requires k <= 7
    ensures Delivered(Losing(k), 7 - k + n) == LOST[k..]
    decreases 7 - k
  {
    hide Step, Losing;
    if k == 7 {
      LosingEnds(n);
    } else {
      LosingStep(k);
      LosingFrom(k + 1, n);
      OneMore(Losing(k), LOST[k], Losing(k + 1), 6 - k + n);
      assert LOST[k..] == [LOST[k]] + LOST[k + 1..];
    }
  }

  /** The parser is stuck after the end of the pair: it has skipped the colon with the empty key and
      finds the value where a comma should be. */
  lemma {:induction false} EmptyKeyLost(n: nat)
    ensures Delivered(Beginning(StreamTokens([EMPTY_KEY])), 7 + n) == LOST
  {
    EmptyKeyTokens();
    assert StreamTokens([EMPTY_KEY]) == Losing(0).tokens;
    LosingFrom(0, n);
    assert LOST[0..] == LOST;
  }
}
