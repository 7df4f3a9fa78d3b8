/** The parser of the YAML library: a pushdown machine from tokens to events (parser.c). */
module YamlParser {
  import opened YamlEvents
  import opened YamlTokens

  /** Nothing: no event is left. */
  datatype Parsed = Parsed(event: Event) | Failed | Nothing

  /** A state inside a collection. */
  predicate Nested(s: State) {
    !(s.StreamStartState? || s.ImplicitDocumentStart? || s.DocumentStartState? || s.DocumentContent? || s.DocumentEndState?
      || s.BlockNode? || s.EndState?)
  }

  /** A collection whose start token has not been consumed yet. */
  predicate IsFirst(s: State) {
    s.BlockSequenceFirstEntry? || s.BlockMappingFirstKey? || s.FlowSequenceFirstEntry? || s.FlowMappingFirstKey?
  }

  function OpensOf(s: State): seq<Open> {
    match s
    case DocumentEndState => [RootDone]
    case BlockSequenceFirstEntry => [Item]
    case BlockSequenceEntry => [Item]
    case IndentlessSequenceEntry => [Item]
    case BlockMappingFirstKey => [Key]
    case BlockMappingKey => [Key]
    case BlockMappingValue => [Value]
    case FlowSequenceFirstEntry => [Item]
    case FlowSequenceEntry => [Item]
    case FlowSequenceEntryMappingKey => [Item, Key]
    case FlowSequenceEntryMappingValue => [Item, Value]
    case FlowSequenceEntryMappingEnd => [Item, Key]
    case FlowMappingFirstKey => [Key]
    case FlowMappingKey => [Key]
    case FlowMappingValue => [Value]
    case FlowMappingEmptyValue => [Value]
    case _ => []
  }

  /** The open nodes that a stack of states stands for. */
  function Opens(ss: seq<State>): seq<Open> {
    if ss == [] then [] else Opens(ss[..|ss| - 1]) + OpensOf(ss[|ss| - 1])
  }

  /** Marks are kept for collections with a start token. */
  function MarksOf(s: State): nat {
    if Nested(s) && !IsFirst(s) && !s.IndentlessSequenceEntry? then 1 else 0
  }

  function Marks(ss: seq<State>): nat {
    if ss == [] then 0 else Marks(ss[..|ss| - 1]) + MarksOf(ss[|ss| - 1])
  }

  /** A stack of states to return to: the end of the document, then collections. */
  predicate Chain(ss: seq<State>) {
    && (ss != [] ==> ss[0].DocumentEndState?)
    && forall k :: 1 <= k < |ss| ==> Nested(ss[k]) && !IsFirst(ss[k])
  }

  lemma {:induction false} Pushed(ss: seq<State>, s: State)
    ensures Opens(ss + [s]) == Opens(ss) + OpensOf(s) && Marks(ss + [s]) == Marks(ss) + MarksOf(s)
  {
    assert (ss + [s])[..|ss|] == ss;
  }

  lemma {:induction false} NodeAt(below: seq<Open>, o: Open, inner: seq<Open>)
    requires o != RootDone
    ensures Node(below + [o], inner) == Accepted(Inside(below + [Filled(o)] + inner))
    ensures below + [Filled(o)] + [] == below + [Filled(o)]
  {
    assert (below + [o])[..|below|] == below;
  }

  lemma {:induction false} CloseAt(below: seq<Open>, o: Open)
    ensures Close(below + [o], o) == Accepted(Inside(below))
  {
    assert (below + [o])[..|below|] == below;
  }

  lemma {:induction false} Split(ss: seq<State>)
    requires ss != []
    ensures var r, s := ss[..|ss| - 1], ss[|ss| - 1];
            ss == r + [s] && Opens(ss) == Opens(r) + OpensOf(s) && Marks(ss) == Marks(r) + MarksOf(s)
  {
  }

  /** The answer and the state after it are those of a step; what an error leaves does not matter. */
  predicate Follows(r: Parsed, after: Config, o: Outcome) {
    match o
    case Go(e, next) => r == Parsed(e) && after == next
    case Stuck => r.Failed?
    case Over => r.Nothing?
  }

  class Parser {
    var tokens: seq<Token>
    var tokensParsed: nat
    var streamEndProduced: bool
    var failed: bool
    var state: State
    var states: seq<State>
    var marks: seq<nat>
    var tagDirectives: seq<nat>

    /** A parser over the tokens the scanner will deliver; where they end the scanner fails. */
    constructor (tokens: seq<Token>)
      ensures Valid() && Progress() == Before && !failed && Cfg() == Config(tokens, StreamStartState, [], [], false)
    {
      this.tokens, tokensParsed, streamEndProduced, failed := tokens, 0, false, false;
      state, states, marks, tagDirectives := StreamStartState, [], [], [];
    }

    /** The stacks fit the state. */
    predicate Fits(state: State, states: seq<State>, marks: seq<nat>, tokens: seq<Token>) {
      && Chain(states)
      && (Nested(state) ==> states != [])
      && (state.DocumentContent? || state.BlockNode? ==> states == [DocumentEndState])
      && (!Nested(state) && !state.DocumentContent? && !state.BlockNode? ==> states == [])
      && |marks| == Marks(states) + MarksOf(state)
      && (IsFirst(state) ==> tokens != [])
    }

    function Cfg(): Config
      reads this`tokens, this`state, this`states, this`tagDirectives, this`streamEndProduced
    {
      Config(tokens, state, states, tagDirectives, streamEndProduced)
    }

    predicate Valid()
      reads this
    {
      failed || Fits(state, states, marks, tokens)
    }

    /** How far the stream of events has got. */
    function Progress(): Progress
      reads this`state, this`states
    {
      match state
      case StreamStartState => Before
      case ImplicitDocumentStart => Between
      case DocumentStartState => Between
      case EndState => After
      case DocumentContent => Inside([Root])
      case BlockNode => Inside([Root])
      case _ => Inside(Opens(states + [state]))
    }

    method Skip()
      requires tokens != []
      modifies this`tokens, this`tokensParsed, this`streamEndProduced
      ensures tokens == old(tokens[1..]) && Cfg() == Skipped(old(Cfg()))
    {
      streamEndProduced := tokens[0].StreamEndToken?;
      tokens := tokens[1..];
      tokensParsed := tokensParsed + 1;
    }

    method Pop()
      requires states != []
      modifies this`state, this`states
      ensures states == old(states[..|states| - 1]) && state == old(states[|states| - 1]) && Cfg() == Popped(old(Cfg()))
    {
      state := states[|states| - 1];
      states := states[..|states| - 1];
    }

    method PopMark()
      requires marks != []
      modifies this`marks
      ensures |marks| == |old(marks)| - 1
    {
      marks := marks[..|marks| - 1];
    }

    method AppendTagDirective(handle: nat, allowDuplicates: bool) returns (ok: bool)
      modifies this`tagDirectives
      ensures ok == (handle !in old(tagDirectives) || allowDuplicates) && tagDirectives == Added(old(tagDirectives), handle)
    {
      ok := true;
      if handle in tagDirectives {
        ok := allowDuplicates;
      } else {
        tagDirectives := tagDirectives + [handle];
      }
    }

    /** The directives before a document. */
    method ProcessDirectives() returns (ok: bool)
      modifies this`tokens, this`tokensParsed, this`streamEndProduced, this`tagDirectives
      ensures ok ==> tokens != [] && !tokens[0].VersionDirectiveToken? && !tokens[0].TagDirectiveToken?
      ensures |tokens| <= |old(tokens)|
      ensures old(tokens) != [] && !old(tokens)[0].VersionDirectiveToken? && !old(tokens)[0].TagDirectiveToken? ==>
                tokens == old(tokens)
      ensures var d := Directives(old(Cfg()), false);
              if ok then d == Some(Cfg()) else d == None
    {
      var version := false;
      while tokens != [] && (tokens[0].VersionDirectiveToken? || tokens[0].TagDirectiveToken?)
        invariant |tokens| <= |old(tokens)|
        invariant Directives(old(Cfg()), false) == Directives(Cfg(), version)
        invariant old(tokens) != [] && !old(tokens)[0].VersionDirectiveToken? && !old(tokens)[0].TagDirectiveToken? ==>
                    tokens == old(tokens)
        decreases |tokens|
      {
        if tokens[0].VersionDirectiveToken? {
          if version || tokens[0].major != 1 || tokens[0].minor != 1 {
            return false;
          }
          version := true;
        } else {
          var added := AppendTagDirective(tokens[0].handle, false);
          if !added {
            return false;
          }
        }
        Skip();
      }
      if tokens == [] {
        return false;
      }
      var _ := AppendTagDirective(DEFAULT_HANDLES[0], true);
      var _ := AppendTagDirective(DEFAULT_HANDLES[1], true);
      ok := true;
    }

    method ParseStreamStart() returns (r: Parsed)
      requires !failed && Valid() && state.StreamStartState?
      modifies this
      ensures Kept(r, old(Progress()))
      ensures Follows(r, Cfg(), StreamStartStep(old(Cfg())))
    {
      ghost var now := Progress();
      if tokens == [] || !tokens[0].StreamStartToken? {
        r := Fail(now);
        return;
      }
      state := ImplicitDocumentStart;
      r := Parsed(StreamStart);
      Skip();
    }

    /** Every event continues the stream; nothing follows an error. */
    predicate Kept(r: Parsed, before: Progress)
      reads this
    {
      && Valid()
      && (if r.Parsed? then !failed && Accept(before, r.event) == Accepted(Progress()) else failed && r.Failed?)
    }

    method Fail(ghost before: Progress) returns (r: Parsed)
      modifies this`failed
      ensures failed && r == Failed && Kept(r, before)
      ensures Cfg() == old(Cfg()) && Follows(r, Cfg(), Stuck)
    {
      failed := true;
      r := Failed;
    }

    /** Skips further document ends. */
    method SkipEnds()
      modifies this`tokens, this`tokensParsed, this`streamEndProduced
      ensures Cfg() == PastEnds(old(Cfg()))
    {
      while tokens != [] && tokens[0].DocumentEndToken?
        invariant PastEnds(old(Cfg())) == PastEnds(Cfg())
        decreases |tokens|
      {
        Skip();
      }
    }

    method ParseDocumentStart(implicit: bool) returns (r: Parsed)
      requires !failed && Valid() && (if implicit then state.ImplicitDocumentStart? else state.DocumentStartState?)
      modifies this
      ensures Kept(r, old(Progress()))
      ensures Follows(r, Cfg(), DocumentStartStep(old(Cfg()), implicit))
    {
      hide Fits, Opens, Marks, Accept, Chain, Skipped, Directives, PastEnds;
      ghost var now := Progress();
      NoDocument();
      if !implicit {
        SkipEnds();
      }
      if tokens == [] {
        r := Fail(now);
      } else if implicit && !tokens[0].VersionDirectiveToken? && !tokens[0].TagDirectiveToken?
                && !tokens[0].DocumentStartToken? && !tokens[0].StreamEndToken? {
        var ok := ProcessDirectives();
        if !ok {
          r := Fail(now);
          return;
        }
        r := BeginDocument(BlockNode);
      } else if !tokens[0].StreamEndToken? {
        var ok := ProcessDirectives();
        if !ok || !tokens[0].DocumentStartToken? {
          r := Fail(now);
          return;
        }
        Skip();
        r := BeginDocument(DocumentContent);
      } else {
        Skip();
        r := EndStream();
      }
    }

    lemma {:induction false} NoDocument()
      requires !failed && Valid() && (state.ImplicitDocumentStart? || state.DocumentStartState?)
      ensures states == [] && marks == [] && Progress() == Between
    {
    }

    method BeginDocument(next: State) returns (r: Parsed)
      requires !failed && states == [] && marks == [] && (next.BlockNode? || next.DocumentContent?)
      modifies this`state, this`states
      ensures Kept(r, Between)
      ensures Follows(r, Cfg(), Begun(old(Cfg()), next))
    {
      hide Opens, Marks;
      states := states + [DocumentEndState];
      state := next;
      RootOpen();
      assert states == [DocumentEndState];
      r := Parsed(DocumentStart);
    }

    method EndStream() returns (r: Parsed)
      requires !failed && states == [] && marks == []
      modifies this`state
      ensures Kept(r, Between)
      ensures r == Parsed(StreamEnd) && Cfg() == old(Cfg()).(state := EndState)
    {
      state := EndState;
      r := Parsed(StreamEnd);
    }

    method ParseDocumentContent() returns (r: Parsed)
      requires !failed && Valid() && state.DocumentContent?
      modifies this
      ensures Kept(r, old(Progress()))
      ensures Follows(r, Cfg(), DocumentContentStep(old(Cfg())))
    {
      hide NodeStep, Leave, Opens, Marks;
      ghost var now := Progress();
      if tokens == [] {
        r := Fail(now);
      } else if tokens[0].VersionDirectiveToken? || tokens[0].TagDirectiveToken? || tokens[0].DocumentStartToken?
                || tokens[0].DocumentEndToken? || tokens[0].StreamEndToken? {
        RootOpen();
        r := Return(Scalar, [], Root);
      } else {
        RootOpen();
        r := ParseNode(true, false, [], Root);
      }
    }

    lemma {:induction false} RootOpen()
      ensures Opens([DocumentEndState]) == [] + [Filled(Root)] && Marks([DocumentEndState]) == 0 && [] + [Root] == [Root]
      ensures Chain([DocumentEndState])
    {
      Pushed([], DocumentEndState);
      assert [] + [DocumentEndState] == [DocumentEndState];
    }

    method ParseDocumentEnd() returns (r: Parsed)
      requires !failed && Valid() && state.DocumentEndState?
      modifies this
      ensures Kept(r, old(Progress()))
      ensures Follows(r, Cfg(), DocumentEndStep(old(Cfg())))
    {
      ghost var now := Progress();
      RootOpen();
      assert states + [state] == [DocumentEndState] && [] + [Filled(Root)] == [RootDone];
      if tokens == [] {
        r := Fail(now);
        return;
      }
      if tokens[0].DocumentEndToken? {
        Skip();
      }
      tagDirectives := [];
      state := DocumentStartState;
      r := Parsed(DocumentEnd);
    }

    /** A node, after which the parser returns to the state on top of the stack. below and expected
        are the open nodes before it. */
    method ParseNode(block: bool, indentless: bool, ghost below: seq<Open>, ghost expected: Open) returns (r: Parsed)
      requires !failed && states != [] && Chain(states) && tokens != [] && |marks| == Marks(states)
      requires expected != RootDone && Opens(states) == below + [Filled(expected)]
      modifies this`tokens, this`tokensParsed, this`streamEndProduced, this`failed, this`state, this`states
      ensures Kept(r, Inside(below + [expected]))
      ensures Follows(r, Cfg(), NodeStep(old(Cfg()), block, indentless))
    {
      hide Fits, Opens, Marks, Accept, Skipped, Popped, Properties, ContentStep, Chain;
      ghost var now := Inside(below + [expected]);
      if tokens[0].AliasToken? {
        r := Return(Alias, below, expected);
        ghost var t := tokens;
        Skip();
        AfterSkip(r, now, t);
        return;
      }
      var anchor, tag, ok := ParseProperties();
      if !ok {
        r := Fail(now);
        return;
      }
      r := ParseContent(block, indentless, anchor || tag, below, expected);
    }

    /** The contents of a node, after its properties if there are any. */
    method ParseContent(block: bool, indentless: bool, any: bool, ghost below: seq<Open>, ghost expected: Open) returns (r: Parsed)
      requires !failed && states != [] && Chain(states) && tokens != [] && |marks| == Marks(states)
      requires expected != RootDone && Opens(states) == below + [Filled(expected)]
      modifies this`tokens, this`tokensParsed, this`streamEndProduced, this`failed, this`state, this`states
      ensures Kept(r, Inside(below + [expected]))
      ensures Follows(r, Cfg(), ContentStep(old(Cfg()), block, indentless, any))
    {
      hide Fits, Opens, Marks, Accept, Skipped, Popped, Chain;
      ghost var now := Inside(below + [expected]);
      if indentless && tokens[0].BlockEntryToken? {
        r := Begin(IndentlessSequenceEntry, SequenceStart(false), below, expected);
      } else if tokens[0].ScalarToken? {
        r := Return(Scalar, below, expected);
        ghost var t := tokens;
        Skip();
        AfterSkip(r, now, t);
      } else if tokens[0].FlowSequenceStartToken? {
        r := Begin(FlowSequenceFirstEntry, SequenceStart(true), below, expected);
      } else if tokens[0].FlowMappingStartToken? {
        r := Begin(FlowMappingFirstKey, MappingStart(true), below, expected);
      } else if block && tokens[0].BlockSequenceStartToken? {
        r := Begin(BlockSequenceFirstEntry, SequenceStart(false), below, expected);
      } else if block && tokens[0].BlockMappingStartToken? {
        r := Begin(BlockMappingFirstKey, MappingStart(false), below, expected);
      } else if any {
        r := Return(Scalar, below, expected);
      } else {
        r := Fail(now);
      }
    }

    /** Anchor and tag of a node, in either order. */
    method ParseProperties() returns (anchor: bool, tag: bool, ok: bool)
      requires tokens != []
      modifies this`tokens, this`tokensParsed, this`streamEndProduced
      ensures ok ==> tokens != []
      ensures var p := Properties(old(Cfg()));
              if ok then p.Some? && p.value.any == (anchor || tag) && p.value.rest == Cfg()
                         && (p.value.handle == NO_HANDLE || p.value.handle in tagDirectives)
              else p.None? || (p.value.handle != NO_HANDLE && p.value.handle !in tagDirectives)
    {
      var handle := NO_HANDLE;
      anchor, tag, ok := false, false, false;
      if tokens[0].AnchorToken? {
        anchor := true;
        Skip();
        if tokens == [] { return; }
        if tokens[0].TagToken? {
          tag, handle := true, tokens[0].tag;
          Skip();
          if tokens == [] { return; }
        }
      } else if tokens[0].TagToken? {
        tag, handle := true, tokens[0].tag;
        Skip();
        if tokens == [] { return; }
        if tokens[0].AnchorToken? {
          anchor := true;
          Skip();
          if tokens == [] { return; }
        }
      }
      ok := !tag || handle == NO_HANDLE || handle in tagDirectives;
    }

    /** A collection begins. */
    method Begin(first: State, e: Event, ghost below: seq<Open>, ghost expected: Open) returns (r: Parsed)
      requires !failed && states != [] && Chain(states) && tokens != [] && |marks| == Marks(states)
      requires expected != RootDone && Opens(states) == below + [Filled(expected)]
      requires Nested(first) && MarksOf(first) == 0
      requires if e.SequenceStart? then OpensOf(first) == [Item] else e.MappingStart? && OpensOf(first) == [Key]
      modifies this`state
      ensures Kept(r, Inside(below + [expected]))
      ensures Follows(r, Cfg(), Go(e, old(Cfg()).(state := first)))
    {
      hide Opens, Marks, Chain;
      state := first;
      Pushed(states, first);
      NodeAt(below, expected, OpensOf(first));
      r := Parsed(e);
    }

    /** The stacks fit the state on top of the stack. */
    lemma {:induction false} Back(ss: seq<State>, ms: seq<nat>, ts: seq<Token>)
      requires ss != [] && Chain(ss) && |ms| == Marks(ss)
      ensures var s, r := ss[|ss| - 1], ss[..|ss| - 1];
              Fits(s, r, ms, ts) && (s.DocumentEndState? || Nested(s)) && !IsFirst(s) && r + [s] == ss
    {
      hide Opens;
      Split(ss);
    }

    lemma {:induction false} Filling(below: seq<Open>, o: Open, e: Event)
      requires o != RootDone && (e.Alias? || e.Scalar?)
      ensures Accept(Inside(below + [o]), e) == Accepted(Inside(below + [Filled(o)]))
    {
      NodeAt(below, o, []);
    }

    lemma {:induction false} Closing(below: seq<Open>, o: Open, e: Event)
      requires (e == SequenceEnd && o == Item) || (e == MappingEnd && o == Key)
      ensures Accept(Inside(below + [o]), e) == Accepted(Inside(below))
    {
      CloseAt(below, o);
    }

    /** A node of one event; the parser returns to the state on top of the stack. */
    method Return(e: Event, ghost below: seq<Open>, ghost expected: Open) returns (r: Parsed)
      requires !failed && states != [] && Chain(states) && |marks| == Marks(states)
      requires expected != RootDone && Opens(states) == below + [Filled(expected)] && (e.Alias? || e.Scalar?)
      modifies this`state, this`states
      ensures Kept(r, Inside(below + [expected])) && !IsFirst(state)
      ensures Follows(r, Cfg(), Leave(old(Cfg()), e))
    {
      hide Opens, Marks, Fits, Accept, Chain;
      Back(states, marks, tokens);
      Filling(below, expected, e);
      Pop();
      r := Parsed(e);
    }

    /** The start token of a collection is consumed by the state that comes next; other tokens do not
        matter to the stacks. */
    lemma {:induction false} AfterSkip(r: Parsed, before: Progress, t: seq<Token>)
      requires !failed && r.Parsed? && !IsFirst(state) && Accept(before, r.event) == Accepted(Progress())
      requires Fits(state, states, marks, t)
      ensures Kept(r, before)
    {
      hide Accept, Chain, Marks;
    }

    /** The open nodes in a state inside a collection. */
    lemma {:induction false} Here()
      requires !failed && Valid() && Nested(state)
      ensures Progress() == Inside(Opens(states) + OpensOf(state))
      ensures states != [] && Chain(states) && |marks| == Marks(states) + MarksOf(state) && (IsFirst(state) ==> tokens != [])
    {
      hide Opens, Marks;
      Pushed(states, state);
    }

    /** The next node of a collection in a state whose node is followed by state next. */
    method Child(next: State, block: bool, indentless: bool, ghost below: seq<Open>, ghost expected: Open) returns (r: Parsed)
      requires !failed && Chain(states) && states != [] && tokens != [] && |marks| == Marks(states) + MarksOf(next)
      requires Nested(next) && !IsFirst(next) && expected != RootDone
      requires Opens(states) + OpensOf(next) == below + [Filled(expected)]
      modifies this`tokens, this`tokensParsed, this`streamEndProduced, this`failed, this`state, this`states
      ensures Kept(r, Inside(below + [expected]))
      ensures Follows(r, Cfg(), ChildStep(old(Cfg()), next, block, indentless))
    {
      hide Opens, Marks, Accept;
      Pushed(states, next);
      states := states + [next];
      r := ParseNode(block, indentless, below, expected);
    }

    /** An empty scalar instead of the node. */
    method EmptyScalar(next: State, ghost below: seq<Open>, ghost expected: Open) returns (r: Parsed)
      requires !failed && Chain(states) && states != [] && |marks| == Marks(states) + MarksOf(next)
      requires Nested(next) && !IsFirst(next) && expected != RootDone
      requires Opens(states) + OpensOf(next) == below + [Filled(expected)]
      modifies this`state
      ensures Kept(r, Inside(below + [expected]))
      ensures Follows(r, Cfg(), Empty(old(Cfg()), next))
    {
      hide Opens, Marks, Chain;
      state := next;
      Pushed(states, next);
      NodeAt(below, expected, []);
      r := Parsed(Scalar);
    }

    /** The collection ends; the parser returns to the state on top of the stack. */
    method End(e: Event, ghost o: Open) returns (r: Parsed)
      requires !failed && Chain(states) && states != [] && |marks| == Marks(states)
      requires (e == SequenceEnd && o == Item) || (e == MappingEnd && o == Key)
      modifies this`state, this`states
      ensures Kept(r, Inside(Opens(old(states)) + [o])) && !IsFirst(state)
      ensures Follows(r, Cfg(), Leave(old(Cfg()), e))
    {
      hide Opens, Marks, Fits, Accept, Chain;
      Back(states, marks, tokens);
      Closing(Opens(states), o, e);
      Pop();
      r := Parsed(e);
    }

    /** The same with a token of its own. */
    method EndToken(e: Event, ghost o: Open) returns (r: Parsed)
      requires !failed && Chain(states) && states != [] && |marks| == Marks(states) && tokens != []
      requires (e == SequenceEnd && o == Item) || (e == MappingEnd && o == Key)
      modifies this`tokens, this`tokensParsed, this`streamEndProduced, this`failed, this`state, this`states
      ensures Kept(r, Inside(Opens(old(states)) + [o]))
      ensures Follows(r, Cfg(), LeaveToken(old(Cfg()), e))
    {
      hide Opens, Marks, Fits, Accept;
      ghost var before := Inside(Opens(states) + [o]);
      r := End(e, o);
      ghost var t := tokens;
      Skip();
      AfterSkip(r, before, t);
    }

    /** The first state of a collection consumes its start token and keeps the mark. */
    method Enter(first: bool)
      requires first ==> tokens != []
      modifies this`marks, this`tokens, this`tokensParsed, this`streamEndProduced
      ensures Cfg() == if first then Entered(old(Cfg())) else old(Cfg())
      ensures |marks| == |old(marks)| + if first then 1 else 0
    {
      if first {
        marks := marks + [tokensParsed];
        Skip();
      }
    }

    method ParseBlockSequenceEntry(first: bool) returns (r: Parsed)
      requires !failed && Valid() && (if first then state.BlockSequenceFirstEntry? else state.BlockSequenceEntry?)
      modifies this
      ensures Kept(r, old(Progress()))
      ensures Follows(r, Cfg(), BlockSequenceStep(if first then Entered(old(Cfg())) else old(Cfg())))
    {
      hide Fits, Opens, Marks, Accept, Chain, Skipped, ChildStep, LeaveToken, Kept, Follows, Entered;
      ghost var now := Progress();
      Here();
      Enter(first);
      if tokens == [] {
        r := Fail(now);
      } else if tokens[0].BlockEntryToken? {
        Skip();
        if tokens == [] {
          r := Fail(now);
        } else if !tokens[0].BlockEntryToken? && !tokens[0].BlockEndToken? {
          r := Child(BlockSequenceEntry, true, false, Opens(states), Item);
        } else {
          r := EmptyScalar(BlockSequenceEntry, Opens(states), Item);
        }
      } else if tokens[0].BlockEndToken? {
        PopMark();
        r := EndToken(SequenceEnd, Item);
      } else {
        PopMark();
        r := Fail(now);
      }
    }

    method ParseIndentlessSequenceEntry() returns (r: Parsed)
      requires !failed && Valid() && state.IndentlessSequenceEntry?
      modifies this
      ensures Kept(r, old(Progress()))
      ensures Follows(r, Cfg(), IndentlessSequenceStep(old(Cfg())))
    {
      hide Fits, Opens, Marks, Accept, Chain, Skipped, ChildStep, LeaveToken, Kept, Follows;
      ghost var now := Progress();
      Here();
      if tokens == [] {
        r := Fail(now);
      } else if tokens[0].BlockEntryToken? {
        Skip();
        if tokens == [] {
          r := Fail(now);
        } else if !tokens[0].BlockEntryToken? && !tokens[0].KeyToken? && !tokens[0].ValueToken? && !tokens[0].BlockEndToken? {
          r := Child(IndentlessSequenceEntry, true, false, Opens(states), Item);
        } else {
          r := EmptyScalar(IndentlessSequenceEntry, Opens(states), Item);
        }
      } else {
        r := End(SequenceEnd, Item);
      }
    }

    /** A key or a value after its token. */
    method BlockPart(next: State, ghost o: Open) returns (r: Parsed)
      requires !failed && Chain(states) && states != [] && |marks| == Marks(states) + 1 && tokens != []
      requires (next == BlockMappingValue && o == Key) || (next == BlockMappingKey && o == Value)
      modifies this`tokens, this`tokensParsed, this`streamEndProduced, this`failed, this`state, this`states
      ensures Kept(r, Inside(Opens(old(states)) + [o]))
      ensures Follows(r, Cfg(), BlockPartStep(Skipped(old(Cfg())), next))
    {
      hide Fits, Opens, Marks, Accept, Chain, Skipped, ChildStep, Kept, Follows;
      Skip();
      if tokens == [] {
        r := Fail(Inside(Opens(states) + [o]));
      } else if !tokens[0].KeyToken? && !tokens[0].ValueToken? && !tokens[0].BlockEndToken? {
        r := Child(next, true, true, Opens(states), o);
      } else {
        r := EmptyScalar(next, Opens(states), o);
      }
    }

    method ParseBlockMappingKey(first: bool) returns (r: Parsed)
      requires !failed && Valid() && (if first then state.BlockMappingFirstKey? else state.BlockMappingKey?)
      modifies this
      ensures Kept(r, old(Progress()))
      ensures Follows(r, Cfg(), BlockMappingKeyStep(if first then Entered(old(Cfg())) else old(Cfg())))
    {
      hide Fits, Opens, Marks, Accept, Chain, Skipped, ChildStep, LeaveToken, Kept, Follows, BlockPartStep, Entered;
      ghost var now := Progress();
      Here();
      Enter(first);
      if tokens == [] {
        r := Fail(now);
      } else if tokens[0].KeyToken? {
        r := BlockPart(BlockMappingValue, Key);
      } else if tokens[0].BlockEndToken? {
        PopMark();
        r := EndToken(MappingEnd, Key);
      } else {
        PopMark();
        r := Fail(now);
      }
    }

    method ParseBlockMappingValue() returns (r: Parsed)
      requires !failed && Valid() && state.BlockMappingValue?
      modifies this
      ensures Kept(r, old(Progress()))
      ensures Follows(r, Cfg(), BlockMappingValueStep(old(Cfg())))
    {
      hide Fits, Opens, Marks, Accept, Chain, Skipped, ChildStep, LeaveToken, Kept, Follows, BlockPartStep;
      ghost var now := Progress();
      Here();
      if tokens == [] {
        r := Fail(now);
      } else if tokens[0].ValueToken? {
        r := BlockPart(BlockMappingKey, Value);
      } else {
        r := EmptyScalar(BlockMappingKey, Opens(states), Value);
      }
    }

    /** The comma between two entries of a flow collection. */
    method Separator(first: bool, end: Token) returns (ok: bool)
      modifies this`tokens, this`tokensParsed, this`streamEndProduced
      ensures NextEntry(old(Cfg()), first, end) == if ok then Some(Cfg()) else None
      ensures ok ==> tokens != []
    {
      ok := false;
      if tokens == [] {
        return;
      }
      if !first && tokens[0] != end {
        if !tokens[0].FlowEntryToken? {
          return;
        }
        Skip();
        if tokens == [] {
          return;
        }
      }
      ok := true;
    }

    method ParseFlowSequenceEntry(first: bool) returns (r: Parsed)
      requires !failed && Valid() && (if first then state.FlowSequenceFirstEntry? else state.FlowSequenceEntry?)
      modifies this
      ensures Kept(r, old(Progress()))
      ensures Follows(r, Cfg(), FlowSequenceStep(if first then Entered(old(Cfg())) else old(Cfg()), first))
    {
      hide Fits, Opens, Marks, Accept, Chain, Skipped, ChildStep, LeaveToken, Kept, Follows, NextEntry, Entered, SequenceEntryStep;
      ghost var now := Progress();
      Here();
      Enter(first);
      var ok := Separator(first, FlowSequenceEndToken);
      if !ok {
        if tokens != [] {
          PopMark();
        }
        r := Fail(now);
      } else {
        r := SequenceEntry();
      }
    }

    /** An entry of a flow sequence, or the end. */
    method SequenceEntry() returns (r: Parsed)
      requires !failed && Chain(states) && states != [] && |marks| == Marks(states) + 1 && tokens != []
      modifies this
      ensures Kept(r, Inside(Opens(old(states)) + [Item]))
      ensures Follows(r, Cfg(), SequenceEntryStep(old(Cfg())))
    {
      hide Fits, Opens, Marks, Accept, Chain, Skipped, ChildStep, LeaveToken, FlowKeyStep, Kept, Follows;
      if tokens[0].KeyToken? {
        r := Pair();
      } else if !tokens[0].FlowSequenceEndToken? {
        r := Child(FlowSequenceEntry, false, false, Opens(states), Item);
      } else {
        PopMark();
        r := EndToken(SequenceEnd, Item);
      }
    }

    /** A mapping of one pair begins as an entry of a flow sequence. */
    method Pair() returns (r: Parsed)
      requires !failed && Chain(states) && states != [] && |marks| == Marks(states) + 1 && tokens != []
      modifies this`tokens, this`tokensParsed, this`streamEndProduced, this`failed, this`state, this`states
      ensures Kept(r, Inside(Opens(old(states)) + [Item]))
      ensures Follows(r, Cfg(), Go(MappingStart(true), Skipped(old(Cfg())).(state := FlowSequenceEntryMappingKey)))
    {
      hide Opens, Marks, Chain;
      state := FlowSequenceEntryMappingKey;
      Pushed(states, state);
      NodeAt(Opens(states), Item, [Key]);
      assert Opens(states) + [Item] + [Key] == Opens(states) + [Item, Key];
      r := Parsed(MappingStart(true));
      Skip();
    }

    method ParseFlowSequenceEntryMappingKey() returns (r: Parsed)
      requires !failed && Valid() && state.FlowSequenceEntryMappingKey?
      modifies this
      ensures Kept(r, old(Progress()))
      ensures Follows(r, Cfg(), PairKeyStep(old(Cfg())))
    {
      hide Fits, Opens, Marks, Accept, Chain, Skipped, ChildStep, LeaveToken, Kept, Follows;
      ghost var now := Progress();
      Here();
      ghost var below := Opens(states) + [Item];
      assert below + [Key] == Opens(states) + [Item, Key] && below + [Value] == Opens(states) + [Item, Value];
      if tokens == [] {
        r := Fail(now);
      } else if !tokens[0].ValueToken? && !tokens[0].FlowEntryToken? && !tokens[0].FlowSequenceEndToken? {
        r := Child(FlowSequenceEntryMappingValue, false, false, below, Key);
      } else {
        Skip();
        r := EmptyScalar(FlowSequenceEntryMappingValue, below, Key);
      }
    }

    method ParseFlowSequenceEntryMappingValue() returns (r: Parsed)
      requires !failed && Valid() && state.FlowSequenceEntryMappingValue?
      modifies this
      ensures Kept(r, old(Progress()))
      ensures Follows(r, Cfg(), FlowValueStep(old(Cfg()), FlowSequenceEntryMappingEnd, FlowSequenceEndToken))
    {
      hide Fits, Opens, Marks, Accept, Chain, Skipped, ChildStep, LeaveToken, Kept, Follows;
      ghost var now := Progress();
      Here();
      ghost var below := Opens(states) + [Item];
      assert below + [Key] == Opens(states) + [Item, Key] && below + [Value] == Opens(states) + [Item, Value];
      if tokens == [] {
        r := Fail(now);
        return;
      }
      if tokens[0].ValueToken? {
        Skip();
        if tokens == [] {
          r := Fail(now);
          return;
        }
        if !tokens[0].FlowEntryToken? && !tokens[0].FlowSequenceEndToken? {
          r := Child(FlowSequenceEntryMappingEnd, false, false, below, Value);
          return;
        }
      }
      r := EmptyScalar(FlowSequenceEntryMappingEnd, below, Value);
    }

    method ParseFlowSequenceEntryMappingEnd() returns (r: Parsed)
      requires !failed && Valid() && state.FlowSequenceEntryMappingEnd?
      modifies this
      ensures Kept(r, old(Progress()))
      ensures Follows(r, Cfg(), PairEndStep(old(Cfg())))
    {
      hide Opens, Marks, Chain, Accept;
      ghost var now := Progress();
      Here();
      if tokens == [] {
        r := Fail(now);
        return;
      }
      Closing(Opens(states) + [Item], Key, MappingEnd);
      assert Opens(states) + [Item] + [Key] == Opens(states) + [Item, Key];
      state := FlowSequenceEntry;
      Pushed(states, state);
      r := Parsed(MappingEnd);
    }

    method ParseFlowMappingKey(first: bool) returns (r: Parsed)
      requires !failed && Valid() && (if first then state.FlowMappingFirstKey? else state.FlowMappingKey?)
      modifies this
      ensures Kept(r, old(Progress()))
      ensures Follows(r, Cfg(), FlowMappingStep(if first then Entered(old(Cfg())) else old(Cfg()), first))
    {
      hide Fits, Opens, Marks, Accept, Chain, Skipped, ChildStep, LeaveToken, FlowKeyStep, Kept, Follows, NextEntry, Entered, MappingEntryStep;
      ghost var now := Progress();
      Here();
      Enter(first);
      var ok := Separator(first, FlowMappingEndToken);
      if !ok {
        if tokens != [] {
          PopMark();
        }
        r := Fail(now);
      } else {
        r := MappingEntry();
      }
    }

    /** An entry of a flow mapping, or the end. */
    method MappingEntry() returns (r: Parsed)
      requires !failed && Chain(states) && states != [] && |marks| == Marks(states) + 1 && tokens != []
      modifies this
      ensures Kept(r, Inside(Opens(old(states)) + [Key]))
      ensures Follows(r, Cfg(), MappingEntryStep(old(Cfg())))
    {
      hide Fits, Opens, Marks, Accept, Chain, Skipped, ChildStep, LeaveToken, FlowKeyStep, Kept, Follows;
      if tokens[0].KeyToken? {
        r := FlowKey();
      } else if !tokens[0].FlowMappingEndToken? {
        r := Child(FlowMappingEmptyValue, false, false, Opens(states), Key);
      } else {
        PopMark();
        r := EndToken(MappingEnd, Key);
      }
    }

    /** The key of an entry of a flow mapping. */
    method FlowKey() returns (r: Parsed)
      requires !failed && Chain(states) && states != [] && |marks| == Marks(states) + 1 && tokens != []
      modifies this`tokens, this`tokensParsed, this`streamEndProduced, this`failed, this`state, this`states
      ensures Kept(r, Inside(Opens(old(states)) + [Key]))
      ensures Follows(r, Cfg(), FlowKeyStep(Skipped(old(Cfg()))))
    {
      hide Fits, Opens, Marks, Accept, Chain, Skipped, ChildStep, Kept, Follows;
      Skip();
      if tokens == [] {
        r := Fail(Inside(Opens(states) + [Key]));
      } else if !tokens[0].ValueToken? && !tokens[0].FlowEntryToken? && !tokens[0].FlowMappingEndToken? {
        r := Child(FlowMappingValue, false, false, Opens(states), Key);
      } else {
        r := EmptyScalar(FlowMappingValue, Opens(states), Key);
      }
    }

    method ParseFlowMappingValue(empty: bool) returns (r: Parsed)
      requires !failed && Valid() && (if empty then state.FlowMappingEmptyValue? else state.FlowMappingValue?)
      modifies this
      ensures Kept(r, old(Progress()))
      ensures Follows(r, Cfg(), if empty then EmptyValueStep(old(Cfg())) else FlowValueStep(old(Cfg()), FlowMappingKey, FlowMappingEndToken))
    {
      hide Fits, Opens, Marks, Accept, Chain, Skipped, ChildStep, LeaveToken, Kept, Follows;
      ghost var now := Progress();
      Here();
      if tokens == [] {
        r := Fail(now);
        return;
      }
      if !empty && tokens[0].ValueToken? {
        Skip();
        if tokens == [] {
          r := Fail(now);
          return;
        }
        if !tokens[0].FlowEntryToken? && !tokens[0].FlowMappingEndToken? {
          r := Child(FlowMappingKey, false, false, Opens(states), Value);
          return;
        }
      }
      r := EmptyScalar(FlowMappingKey, Opens(states), Value);
    }

    method StateMachine() returns (r: Parsed)
      requires !failed && Valid() && !state.EndState?
      modifies this
      ensures Kept(r, old(Progress()))
      ensures Follows(r, Cfg(), MachineStep(old(Cfg())))
    {
      hide Fits, Opens, Marks, Accept, NodeStep, BlockSequenceStep, IndentlessSequenceStep, BlockMappingKeyStep, BlockMappingValueStep, FlowSequenceStep, PairKeyStep, FlowValueStep, FlowMappingStep, DocumentStartStep, DocumentContentStep, DocumentEndStep, StreamStartStep, PairEndStep, EmptyValueStep, Entered, Kept, Follows;
      match state {
        case StreamStartState => r := ParseStreamStart();
        case ImplicitDocumentStart => r := ParseDocumentStart(true);
        case DocumentStartState => r := ParseDocumentStart(false);
        case DocumentContent => r := ParseDocumentContent();
        case DocumentEndState => r := ParseDocumentEnd();
        case BlockNode => r := ParseBlockNode();
        case BlockSequenceFirstEntry => r := ParseBlockSequenceEntry(true);
        case BlockSequenceEntry => r := ParseBlockSequenceEntry(false);
        case IndentlessSequenceEntry => r := ParseIndentlessSequenceEntry();
        case BlockMappingFirstKey => r := ParseBlockMappingKey(true);
        case BlockMappingKey => r := ParseBlockMappingKey(false);
        case BlockMappingValue => r := ParseBlockMappingValue();
        case FlowSequenceFirstEntry => r := ParseFlowSequenceEntry(true);
        case FlowSequenceEntry => r := ParseFlowSequenceEntry(false);
        case FlowSequenceEntryMappingKey => r := ParseFlowSequenceEntryMappingKey();
        case FlowSequenceEntryMappingValue => r := ParseFlowSequenceEntryMappingValue();
        case FlowSequenceEntryMappingEnd => r := ParseFlowSequenceEntryMappingEnd();
        case FlowMappingFirstKey => r := ParseFlowMappingKey(true);
        case FlowMappingKey => r := ParseFlowMappingKey(false);
        case FlowMappingValue => r := ParseFlowMappingValue(false);
        case FlowMappingEmptyValue => r := ParseFlowMappingValue(true);
      }
    }

    method ParseBlockNode() returns (r: Parsed)
      requires !failed && Valid() && state.BlockNode?
      modifies this
      ensures Kept(r, old(Progress()))
      ensures Follows(r, Cfg(), NodeStep(old(Cfg()), true, false))
    {
      ghost var now := Progress();
      if tokens == [] {
        r := Fail(now);
      } else {
        RootOpen();
        r := ParseNode(true, false, [], Root);
      }
    }

    /** The next event: it continues the stream of events so far. After an error, or the end of the
        stream, there is none. */
    method Parse() returns (r: Parsed)
      requires Valid()
      modifies this
      ensures Valid()
      ensures r.Parsed? ==> !failed && Accept(old(Progress()), r.event) == Accepted(Progress())
      ensures r.Failed? ==> failed
      ensures r.Nothing? ==> failed == old(failed) && Progress() == old(Progress())
      ensures r.Parsed? && r.event.StreamEnd? ==> states == [] && marks == []
      ensures !old(failed) ==> Follows(r, Cfg(), Step(old(Cfg())))
    {
      if streamEndProduced || failed || state.EndState? {
        return Nothing;
      }
      r := StateMachine();
    }
  }
}
