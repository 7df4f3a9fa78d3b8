/**
 * The emitter of the YAML library as a pushdown machine behind a queue of events (emitter.c): its
 * states, its stacks and how long it holds events back, without the text it writes.
 */
module YamlEmission {
  import opened YamlEvents
  import P = YamlParser
  import Q = YamlQuoted

  datatype Stage =
    | StreamStartStage
    | FirstDocumentStart | DocumentStartStage | DocumentContent | DocumentEndStage
    | FlowSequenceFirstItem | FlowSequenceItem
    | FlowMappingFirstKey | FlowMappingKey | FlowMappingSimpleValue | FlowMappingValue
    | BlockSequenceFirstItem | BlockSequenceItem
    | BlockMappingFirstKey | BlockMappingKey | BlockMappingSimpleValue | BlockMappingValue
    | EndStage

  /** Unexpected: the event does not fit the state. Refused: an anchor, a tag or a scalar is. */
  datatype Outcome = Fine | Unexpected | Refused

  function OpensOf(s: Stage): seq<Open> {
    match s
    case DocumentEndStage => [RootDone]
    case FlowSequenceFirstItem => [Item]
    case FlowSequenceItem => [Item]
    case FlowMappingFirstKey => [Key]
    case FlowMappingKey => [Key]
    case FlowMappingSimpleValue => [Value]
    case FlowMappingValue => [Value]
    case BlockSequenceFirstItem => [Item]
    case BlockSequenceItem => [Item]
    case BlockMappingFirstKey => [Key]
    case BlockMappingKey => [Key]
    case BlockMappingSimpleValue => [Value]
    case BlockMappingValue => [Value]
    case _ => []
  }

  predicate IsFirst(s: Stage) {
    s.FlowSequenceFirstItem? || s.FlowMappingFirstKey? || s.BlockSequenceFirstItem? || s.BlockMappingFirstKey?
  }

  /** A stage inside a collection. */
  predicate Nested(s: Stage) {
    OpensOf(s) != [] && !s.DocumentEndStage?
  }

  predicate InFlow(s: Stage) {
    s.FlowSequenceItem? || s.FlowMappingKey? || s.FlowMappingSimpleValue? || s.FlowMappingValue?
  }

  function Opens(ss: seq<Stage>): seq<Open> {
    if ss == [] then [] else Opens(ss[..|ss| - 1]) + OpensOf(ss[|ss| - 1])
  }

  /** The indents saved, and the flow collections open. */
  function Indents(ss: seq<Stage>): nat {
    if ss == [] then 0 else Indents(ss[..|ss| - 1]) + IndentOf(ss[|ss| - 1])
  }

  function IndentOf(s: Stage): nat {
    if Nested(s) && !IsFirst(s) then 1 else 0
  }

  function Flows(ss: seq<Stage>): nat {
    if ss == [] then 0 else Flows(ss[..|ss| - 1]) + FlowOf(ss[|ss| - 1])
  }

  function FlowOf(s: Stage): nat {
    if InFlow(s) then 1 else 0
  }

  predicate Chain(ss: seq<Stage>) {
    && (ss != [] ==> ss[0].DocumentEndStage?)
    && forall k :: 1 <= k < |ss| ==> Nested(ss[k]) && !IsFirst(ss[k])
  }

  /** A stage of a flow collection. */
  predicate AnyFlow(s: Stage) {
    InFlow(s) || s.FlowSequenceFirstItem? || s.FlowMappingFirstKey?
  }

  /** Within a flow collection there are flow collections only. */
  predicate FlowWithin(ss: seq<Stage>) {
    forall j, k :: 0 <= j < k < |ss| && AnyFlow(ss[j]) ==> AnyFlow(ss[k])
  }

  lemma {:induction false} FlowTop(ss: seq<Stage>, s: Stage)
    requires FlowWithin(ss) && (Flows(ss) > 0 ==> AnyFlow(s)) && Chain(ss)
    ensures FlowWithin(ss + [s])
  {
    hide Flows;
    if Flows(ss) == 0 {
      NoFlows(ss);
    }
  }

  lemma {:induction false} NoFlows(ss: seq<Stage>)
    requires Flows(ss) == 0 && Chain(ss)
    ensures forall k :: 0 <= k < |ss| ==> !AnyFlow(ss[k])
    decreases |ss|
  {
    if ss != [] {
      NoFlows(ss[..|ss| - 1]);
    }
  }

  /** Another stage of the same style in place of the last. */
  lemma {:induction false} FlowSame(ss: seq<Stage>, s: Stage, t: Stage)
    requires FlowWithin(ss + [s]) && AnyFlow(s) == AnyFlow(t)
    ensures FlowWithin(ss + [t]) && FlowWithin(ss)
  {
    forall j, k | 0 <= j < k < |ss + [t]| && AnyFlow((ss + [t])[j])
      ensures AnyFlow((ss + [t])[k])
    {
      assert (ss + [s])[j] == (ss + [t])[j] && (ss + [s])[|ss|] == s && (ss + [t])[|ss|] == t;
      assert k < |ss| ==> (ss + [s])[k] == (ss + [t])[k];
    }
    forall j, k | 0 <= j < k < |ss| && AnyFlow(ss[j])
      ensures AnyFlow(ss[k])
    {
      assert (ss + [s])[j] == ss[j] && (ss + [s])[k] == ss[k];
    }
  }

  lemma {:induction false} Pushed(ss: seq<Stage>, s: Stage)
    ensures Opens(ss + [s]) == Opens(ss) + OpensOf(s)
    ensures Indents(ss + [s]) == Indents(ss) + IndentOf(s) && Flows(ss + [s]) == Flows(ss) + FlowOf(s)
  {
    assert (ss + [s])[..|ss|] == ss;
  }

  lemma {:induction false} Popped(ss: seq<Stage>)
    requires ss != []
    ensures var r, s := ss[..|ss| - 1], ss[|ss| - 1];
            && ss == r + [s] && Opens(ss) == Opens(r) + OpensOf(s)
            && Indents(ss) == Indents(r) + IndentOf(s) && Flows(ss) == Flows(r) + FlowOf(s)
  {
  }

  // ----- holding events back -----

  function Accumulate(e: Event): nat {
    if e.DocumentStart? then 1 else if e.SequenceStart? then 2 else if e.MappingStart? then 3 else 0
  }

  function LevelChange(e: Event): int {
    if e.StreamStart? || e.DocumentStart? || e.SequenceStart? || e.MappingStart? then 1
    else if e.StreamEnd? || e.DocumentEnd? || e.SequenceEnd? || e.MappingEnd? then -1
    else 0
  }

  /** Whether the level, counted on from level, gets back to zero. */
  predicate Closes(events: seq<Event>, level: int) {
    events != [] && (level + LevelChange(events[0]) == 0 || Closes(events[1..], level + LevelChange(events[0])))
  }

  predicate NeedMore(events: seq<Event>) {
    events == [] || (0 < Accumulate(events[0]) && |events| <= Accumulate(events[0]) && !Closes(events, 0))
  }

  /** Enough of a collection is in the queue to see whether it is empty. */
  lemma {:induction false} LookAhead(events: seq<Event>)
    requires events != [] && !NeedMore(events) && (events[0].SequenceStart? || events[0].MappingStart?)
    ensures |events| >= 2
  {
    if |events| == 1 {
      assert events[1..] == [];
      assert !Closes(events, 0);
    }
  }

  /** Once the end of the stream is in the queue, nothing is held back. */
  lemma {:induction false} EndFlushes(g: Progress, events: seq<Event>)
    requires events != [] && AcceptAll(g, events) == Accepted(After)
    ensures !NeedMore(events)
  {
    if 0 < Accumulate(events[0]) && |events| <= Accumulate(events[0]) {
      var h := Accept(g, events[0]).to;
      var rest := events[1..];
      assert h.Inside? && AcceptAll(h, rest) == Accepted(After);
      assert rest != [];
      StillInside(h, rest[0]);
      StillOpen(h, events[0], g, rest[0]);
      var k, last := Accept(h, rest[0]).to, rest[1..];
      assert AcceptAll(k, last) == Accepted(After);
      assert last != [] && last[1..] == [];
      NotDone(k, last);
      assert false;
    }
  }

  lemma {:induction false} NotDone(k: Progress, last: seq<Event>)
    requires k.Inside? && |last| == 1
    ensures AcceptAll(k, last) != Accepted(After)
  {
    if Accept(k, last[0]).Accepted? { StillInside(k, last[0]); }
    assert last[1..] == [];
  }

  lemma {:induction false} StillInside(h: Progress, e: Event)
    requires h.Inside? && Accept(h, e).Accepted?
    ensures !Accept(h, e).to.After?
  {
  }

  /** One event cannot close a mapping and its document. */
  lemma {:induction false} StillOpen(h: Progress, e: Event, g: Progress, f: Event)
    requires (e.SequenceStart? || e.MappingStart?) && Accept(g, e) == Accepted(h)
    ensures h.Inside? && (Accept(h, f).Accepted? ==> Accept(h, f).to.Inside?)
  {
  }

  // ----- the machine -----

  predicate IsNode(e: Event) {
    e.Alias? || e.Scalar? || e.SequenceStart? || e.MappingStart?
  }

  class Machine {
    var events: seq<Event>
    var stage: Stage
    var stages: seq<Stage>
    var indent: int
    var indents: seq<int>
    var flowLevel: nat
    var failed: bool
    /** How far the stream of the events received has got. */
    ghost var received: Progress
    const canonical: bool
    const bestIndent: int

    constructor (canonical: bool, bestIndent: int)
      ensures Valid() && received == Before && !failed
    {
      this.canonical, this.bestIndent := canonical, bestIndent;
      events, stage, stages, indent, indents, flowLevel, failed := [], StreamStartStage, [], -1, [], 0, false;
      received := Before;
    }

    /** How far the stream of the events written has got. */
    function Written(): Progress
      reads this`stage, this`stages
    {
      match stage
      case StreamStartStage => Before
      case FirstDocumentStart => Between
      case DocumentStartStage => Between
      case EndStage => After
      case DocumentContent => Inside([Root])
      case _ => Inside(Opens(stages + [stage]))
    }

    predicate Fits()
      reads this`stage, this`stages, this`indents, this`flowLevel
    {
      && Chain(stages) && (if Nested(stage) then stages != [] else stages == [])
      && |indents| == Indents(stages) + IndentOf(stage) && flowLevel == Flows(stages) + FlowOf(stage)
      && FlowWithin(stages + [stage])
    }

    ghost predicate Valid()
      reads this
    {
      failed || (Fits() && NeedMore(events) && AcceptAll(Written(), events) == Accepted(received))
    }

    /** A step goes as the grammar does; the only failures are those of contents. */
    predicate Steps(o: Outcome, before: Progress, e: Event)
      reads this
    {
      o != Unexpected && (o.Fine? ==> Fits() && Accept(before, e) == Accepted(Written()))
    }

    method Pop()
      requires stages != []
      modifies this`stage, this`stages
      ensures stages == old(stages[..|stages| - 1]) && stage == old(stages[|stages| - 1])
    {
      stage := stages[|stages| - 1];
      stages := stages[..|stages| - 1];
    }

    method IncreaseIndent(flow: bool, indentless: bool)
      modifies this`indent, this`indents
      ensures |indents| == |old(indents)| + 1
    {
      indents := indents + [indent];
      indent := Q.IncreaseIndent(indent, bestIndent, flow, indentless);
    }

    method PopIndent()
      requires indents != []
      modifies this`indent, this`indents
      ensures |indents| == |old(indents)| - 1
    {
      indent := indents[|indents| - 1];
      indents := indents[..|indents| - 1];
    }

    /** Anchor, tag and text of a node are accepted or not. */
    method Content() returns (o: Outcome)
      ensures o != Unexpected
    {
      var accepted: bool := *;
      o := if accepted then Fine else Refused;
    }

    method EmitStreamStart(e: Event) returns (o: Outcome)
      requires Fits() && stage.StreamStartStage? && Accept(Written(), e).Accepted?
      modifies this`stage, this`stages, this`indent, this`indents, this`flowLevel
      ensures Steps(o, old(Written()), e) && Styled(o, e)
    {
      if e.StreamStart? {
        indent := -1;
        stage := FirstDocumentStart;
        return Fine;
      }
      o := Unexpected;
    }

    method EmitDocumentStart(e: Event) returns (o: Outcome)
      requires Fits() && (stage.FirstDocumentStart? || stage.DocumentStartStage?) && Accept(Written(), e).Accepted?
      modifies this`stage, this`stages, this`indent, this`indents, this`flowLevel
      ensures Steps(o, old(Written()), e) && Styled(o, e)
    {
      if e.DocumentStart? {
        o := Content();
        stage := DocumentContent;
      } else if e.StreamEnd? {
        stage := EndStage;
        o := Fine;
      } else {
        o := Unexpected;
      }
    }

    method EmitDocumentContent(e: Event) returns (o: Outcome)
      requires Fits() && stage.DocumentContent? && Accept(Written(), e).Accepted?
      modifies this`stage, this`stages, this`indent, this`indents, this`flowLevel
      ensures Steps(o, old(Written()), e) && Styled(o, e)
    {
      hide Opens, Indents, Flows;
      RootOpen();
      stages := stages + [DocumentEndStage];
      assert stages == [DocumentEndStage];
      o := EmitNode(e, [], Root);
    }

    lemma {:induction false} RootOpen()
      ensures Opens([DocumentEndStage]) == [] + [Filled(Root)] && [] + [Root] == [Root]
      ensures Indents([]) == Indents([DocumentEndStage]) == 0 && Flows([]) == Flows([DocumentEndStage]) == 0
      ensures Chain([DocumentEndStage])
    {
      Pushed([], DocumentEndStage);
      assert [] + [DocumentEndStage] == [DocumentEndStage];
    }

    method EmitDocumentEnd(e: Event) returns (o: Outcome)
      requires Fits() && stage.DocumentEndStage? && Accept(Written(), e).Accepted?
      modifies this`stage, this`stages, this`indent, this`indents, this`flowLevel
      ensures Steps(o, old(Written()), e) && Styled(o, e)
    {
      RootOpen();
      assert stages + [stage] == [DocumentEndStage] && [] + [Filled(Root)] == [RootDone];
      if e.DocumentEnd? {
        stage := DocumentStartStage;
        return Fine;
      }
      o := Unexpected;
    }

    /** A node; the machine returns to the stage on top of the stack. */
    method EmitNode(e: Event, ghost below: seq<Open>, ghost expected: Open) returns (o: Outcome)
      requires stages != [] && Chain(stages) && FlowWithin(stages) && |indents| == Indents(stages) && flowLevel == Flows(stages)
      requires expected != RootDone && Opens(stages) == below + [Filled(expected)] && IsNode(e)
      modifies this`stage, this`stages, this`indent, this`indents, this`flowLevel
      ensures Steps(o, Inside(below + [expected]), e)
      ensures Styled(o, e)
    {
      hide Opens, Indents, Flows, Chain, FlowWithin;
      match e {
        case Alias =>
          o := Content();
          Return(e, below, expected);
        case Scalar =>
          IncreaseIndent(true, false);
          o := Content();
          PopIndent();
          Return(e, below, expected);
        case SequenceStart(flow) =>
          o := Content();
          Begin(if flowLevel > 0 || canonical || flow || EmptySequence() then FlowSequenceFirstItem else BlockSequenceFirstItem,
                e, below, expected);
        case MappingStart(flow) =>
          o := Content();
          Begin(if flowLevel > 0 || canonical || flow || EmptyMapping() then FlowMappingFirstKey else BlockMappingFirstKey,
                e, below, expected);
        case _ => o := Unexpected;
      }
    }

    /** A collection is begun in flow style exactly if it lies within another one in flow style, or it
        is empty, or all collections are to be, or the event says so. */
    predicate Styled(o: Outcome, e: Event)
      reads this`stage, this`flowLevel, this`events
    {
      && (o.Fine? && e.SequenceStart? ==> (AnyFlow(stage) <==> flowLevel > 0 || canonical || e.flowSeq || EmptySequence()))
      && (o.Fine? && e.MappingStart? ==> (AnyFlow(stage) <==> flowLevel > 0 || canonical || e.flowMap || EmptyMapping()))
    }

    predicate EmptySequence()
      reads this`events
    {
      |events| >= 2 && events[0].SequenceStart? && events[1].SequenceEnd?
    }

    predicate EmptyMapping()
      reads this`events
    {
      |events| >= 2 && events[0].MappingStart? && events[1].MappingEnd?
    }

    method Return(e: Event, ghost below: seq<Open>, ghost expected: Open)
      requires stages != [] && Chain(stages) && FlowWithin(stages) && |indents| == Indents(stages) && flowLevel == Flows(stages)
      requires expected != RootDone && Opens(stages) == below + [Filled(expected)] && (e.Alias? || e.Scalar?)
      modifies this`stage, this`stages
      ensures Steps(Fine, Inside(below + [expected]), e)
    {
      hide Opens, Indents, Flows, FlowWithin;
      Popped(stages);
      P.NodeAt(below, expected, []);
      Pop();
      Pushed(stages, stage);
    }

    method Begin(first: Stage, e: Event, ghost below: seq<Open>, ghost expected: Open)
      requires stages != [] && Chain(stages) && FlowWithin(stages) && |indents| == Indents(stages) && flowLevel == Flows(stages)
      requires expected != RootDone && Opens(stages) == below + [Filled(expected)] && IsFirst(first)
      requires if e.SequenceStart? then OpensOf(first) == [Item] else e.MappingStart? && OpensOf(first) == [Key]
      requires flowLevel > 0 ==> AnyFlow(first)
      modifies this`stage
      ensures Steps(Fine, Inside(below + [expected]), e) && stage == first
    {
      hide Opens, Indents, Flows, Chain, FlowWithin;
      stage := first;
      Pushed(stages, first);
      FlowTop(stages, first);
      P.NodeAt(below, expected, OpensOf(first));
    }

    /** The machine is inside a collection. */
    lemma {:induction false} Here()
      requires Fits() && Nested(stage)
      ensures Written() == Inside(Opens(stages) + OpensOf(stage)) && stages != [] && Chain(stages)
      ensures |indents| == Indents(stages) + IndentOf(stage) && flowLevel == Flows(stages) + FlowOf(stage)
    {
      hide Opens, Indents, Flows;
      Pushed(stages, stage);
    }

    /** Any stage of the same style may come next. */
    lemma {:induction false} SameStyle()
      requires Fits()
      ensures FlowWithin(stages)
      ensures forall t :: AnyFlow(t) == AnyFlow(stage) ==> FlowWithin(stages + [t])
    {
      hide FlowWithin, Opens, Indents, Flows, Chain;
      FlowSame(stages, stage, stage);
      forall t | AnyFlow(t) == AnyFlow(stage)
        ensures FlowWithin(stages + [t])
      {
        FlowSame(stages, stage, t);
      }
    }

    /** Inside a collection only a node, or the end of the collection, can come. */
    lemma {:induction false} Expects(below: seq<Open>, o: Open, e: Event)
      requires below != [] && Accept(Inside(below + [o]), e).Accepted?
      ensures IsNode(e) || (o == Item && e.SequenceEnd?) || (o == Key && e.MappingEnd?)
    {
      assert |below + [o]| != |[RootDone]|;
    }

    lemma {:induction false} Deep(ss: seq<Stage>)
      requires Chain(ss) && ss != []
      ensures Opens(ss) != []
      decreases ss
    {
      Popped(ss);
    }

    /** The collection ends. */
    method End(e: Event, ghost o: Open)
      requires stages != [] && Chain(stages) && FlowWithin(stages) && |indents| == Indents(stages) && flowLevel == Flows(stages)
      requires (e == SequenceEnd && o == Item) || (e == MappingEnd && o == Key)
      modifies this`stage, this`stages
      ensures Steps(Fine, Inside(Opens(old(stages)) + [o]), e)
    {
      hide Opens, Indents, Flows, FlowWithin;
      Popped(stages);
      P.CloseAt(Opens(stages), o);
      Pop();
      Pushed(stages, stage);
    }

    /** A node inside a collection, with the stage to return to. */
    method Child(e: Event, next: Stage, ghost expected: Open) returns (o: Outcome)
      requires stages != [] && Chain(stages) && Nested(next) && !IsFirst(next) && FlowWithin(stages + [next])
      requires |indents| == Indents(stages) + 1 && flowLevel == Flows(stages) + FlowOf(next)
      requires expected != RootDone && OpensOf(next) == [Filled(expected)] && IsNode(e)
      modifies this`stage, this`stages, this`indent, this`indents, this`flowLevel
      ensures Steps(o, Inside(Opens(old(stages)) + [expected]), e) && Styled(o, e)
    {
      hide Opens, Indents, Flows, FlowWithin;
      Pushed(stages, next);
      ghost var below := Opens(stages);
      stages := stages + [next];
      o := EmitNode(e, below, expected);
    }

    method EmitFlowSequenceItem(e: Event) returns (o: Outcome)
      requires Fits() && (stage.FlowSequenceFirstItem? || stage.FlowSequenceItem?) && Accept(Written(), e).Accepted?
      modifies this`stage, this`stages, this`indent, this`indents, this`flowLevel
      ensures Steps(o, old(Written()), e) && Styled(o, e)
    {
      hide Opens, Indents, Flows, Chain, Accept, FlowWithin;
      Here();
      SameStyle();
      Deep(stages);
      Expects(Opens(stages), Item, e);
      if stage.FlowSequenceFirstItem? {
        IncreaseIndent(true, false);
        flowLevel := flowLevel + 1;
      }
      if e.SequenceEnd? {
        flowLevel := flowLevel - 1;
        PopIndent();
        End(e, Item);
        return Fine;
      }
      o := Child(e, FlowSequenceItem, Item);
    }

    method EmitFlowMappingKey(e: Event) returns (o: Outcome)
      requires Fits() && (stage.FlowMappingFirstKey? || stage.FlowMappingKey?) && Accept(Written(), e).Accepted?
      modifies this`stage, this`stages, this`indent, this`indents, this`flowLevel
      ensures Steps(o, old(Written()), e) && Styled(o, e)
    {
      hide Opens, Indents, Flows, Chain, Accept, FlowWithin;
      Here();
      SameStyle();
      Deep(stages);
      Expects(Opens(stages), Key, e);
      if stage.FlowMappingFirstKey? {
        IncreaseIndent(true, false);
        flowLevel := flowLevel + 1;
      }
      if e.MappingEnd? {
        flowLevel := flowLevel - 1;
        PopIndent();
        End(e, Key);
        return Fine;
      }
      var simpleKey := CheckSimpleKey();
      if !canonical && simpleKey {
        o := Child(e, FlowMappingSimpleValue, Key);
      } else {
        o := Child(e, FlowMappingValue, Key);
      }
    }

    /** Whether a key fits on one line depends on its text. */
    method CheckSimpleKey() returns (simple: bool)
    {
      simple := *;
    }

    method EmitFlowMappingValue(e: Event) returns (o: Outcome)
      requires Fits() && (stage.FlowMappingSimpleValue? || stage.FlowMappingValue?) && Accept(Written(), e).Accepted?
      modifies this`stage, this`stages, this`indent, this`indents, this`flowLevel
      ensures Steps(o, old(Written()), e) && Styled(o, e)
    {
      hide Opens, Indents, Flows, Chain, Accept, FlowWithin;
      Here();
      SameStyle();
      Deep(stages);
      Expects(Opens(stages), Value, e);
      o := Child(e, FlowMappingKey, Value);
    }

    method EmitBlockSequenceItem(e: Event) returns (o: Outcome)
      requires Fits() && (stage.BlockSequenceFirstItem? || stage.BlockSequenceItem?) && Accept(Written(), e).Accepted?
      modifies this`stage, this`stages, this`indent, this`indents, this`flowLevel
      ensures Steps(o, old(Written()), e) && Styled(o, e)
    {
      hide Opens, Indents, Flows, Chain, Accept, FlowWithin;
      Here();
      SameStyle();
      Deep(stages);
      Expects(Opens(stages), Item, e);
      if stage.BlockSequenceFirstItem? {
        var indentless: bool := *;
        IncreaseIndent(false, indentless);
      }
      if e.SequenceEnd? {
        PopIndent();
        End(e, Item);
        return Fine;
      }
      o := Child(e, BlockSequenceItem, Item);
    }

    method EmitBlockMappingKey(e: Event) returns (o: Outcome)
      requires Fits() && (stage.BlockMappingFirstKey? || stage.BlockMappingKey?) && Accept(Written(), e).Accepted?
      modifies this`stage, this`stages, this`indent, this`indents, this`flowLevel
      ensures Steps(o, old(Written()), e) && Styled(o, e)
    {
      hide Opens, Indents, Flows, Chain, Accept, FlowWithin;
      Here();
      SameStyle();
      Deep(stages);
      Expects(Opens(stages), Key, e);
      if stage.BlockMappingFirstKey? {
        IncreaseIndent(false, false);
      }
      if e.MappingEnd? {
        PopIndent();
        End(e, Key);
        return Fine;
      }
      var simpleKey := CheckSimpleKey();
      o := Child(e, if simpleKey then BlockMappingSimpleValue else BlockMappingValue, Key);
    }

    method EmitBlockMappingValue(e: Event) returns (o: Outcome)
      requires Fits() && (stage.BlockMappingSimpleValue? || stage.BlockMappingValue?) && Accept(Written(), e).Accepted?
      modifies this`stage, this`stages, this`indent, this`indents, this`flowLevel
      ensures Steps(o, old(Written()), e) && Styled(o, e)
    {
      hide Opens, Indents, Flows, Chain, Accept, FlowWithin;
      Here();
      SameStyle();
      Deep(stages);
      Expects(Opens(stages), Value, e);
      o := Child(e, BlockMappingKey, Value);
    }

    method StateMachine(e: Event) returns (o: Outcome)
      requires Fits() && Accept(Written(), e).Accepted?
      modifies this`stage, this`stages, this`indent, this`indents, this`flowLevel
      ensures Steps(o, old(Written()), e) && Styled(o, e)
    {
      hide Opens, Indents, Flows, Chain, FlowWithin;
      match stage {
        case StreamStartStage => o := EmitStreamStart(e);
        case FirstDocumentStart => o := EmitDocumentStart(e);
        case DocumentStartStage => o := EmitDocumentStart(e);
        case DocumentContent => o := EmitDocumentContent(e);
        case DocumentEndStage => o := EmitDocumentEnd(e);
        case FlowSequenceFirstItem => o := EmitFlowSequenceItem(e);
        case FlowSequenceItem => o := EmitFlowSequenceItem(e);
        case FlowMappingFirstKey => o := EmitFlowMappingKey(e);
        case FlowMappingKey => o := EmitFlowMappingKey(e);
        case FlowMappingSimpleValue => o := EmitFlowMappingValue(e);
        case FlowMappingValue => o := EmitFlowMappingValue(e);
        case BlockSequenceFirstItem => o := EmitBlockSequenceItem(e);
        case BlockSequenceItem => o := EmitBlockSequenceItem(e);
        case BlockMappingFirstKey => o := EmitBlockMappingKey(e);
        case BlockMappingKey => o := EmitBlockMappingKey(e);
        case BlockMappingSimpleValue => o := EmitBlockMappingValue(e);
        case BlockMappingValue => o := EmitBlockMappingValue(e);
        case EndStage => o := Unexpected;
      }
    }

    lemma {:induction false} Closed()
      requires Fits() && Written() == After
      ensures stage.EndStage? && stages == [] && indents == [] && flowLevel == 0
    {
    }

    /** Takes an event that continues the stream, and writes what need not be held back: no event is
        ever unexpected, at most three are held, and after the end of the stream none. */
    method Emit(e: Event) returns (o: Outcome)
      requires Valid() && !failed && Accept(received, e).Accepted?
      modifies this
      ensures o != Unexpected && Valid() && (failed <==> o.Refused?)
      ensures o.Fine? ==> Accepted(received) == Accept(old(received), e) && |events| <= 3
      ensures o.Fine? && e.StreamEnd? ==> events == [] && stage.EndStage? && stages == [] && indents == [] && flowLevel == 0
    {
      hide Fits, Accept, Opens, Closes, Accumulate;
      AcceptSnoc(Written(), events, e);
      events := events + [e];
      received := Accept(received, e).to;
      o := Fine;
      while !NeedMore(events)
        invariant Fits() && o.Fine? && !failed && AcceptAll(Written(), events) == Accepted(received)
        invariant Accepted(received) == Accept(old(received), e)
        decreases |events|
      {
        ghost var before, rest := Written(), events[1..];
        var head := events[0];
        o := StateMachine(head);
        if o != Fine {
          failed := true;
          return;
        }
        events := events[1..];
      }
      HeldBack(events);
      if e.StreamEnd? {
        LastEvent(old(received));
        if events != [] { EndFlushes(Written(), events); }
        Closed();
      }
    }
  }

  lemma {:induction false} LastEvent(g: Progress)
    requires Accept(g, StreamEnd).Accepted?
    ensures Accept(g, StreamEnd).to == After
  {
  }

  lemma {:induction false} HeldBack(events: seq<Event>)
    requires NeedMore(events)
    ensures |events| <= 3
  {
  }
}
