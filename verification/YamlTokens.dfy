/**
 * Tokens, the states of the parser, and the step of the parser from one event to the next as a
 * function: what the methods of the parser compute, apart from the marks kept for error messages.
 */
module YamlTokens {
  import opened YamlEvents

  datatype Token =
    | StreamStartToken | StreamEndToken
    | VersionDirectiveToken(major: int, minor: int) | TagDirectiveToken(handle: nat)
    | DocumentStartToken | DocumentEndToken
    | BlockSequenceStartToken | BlockMappingStartToken | BlockEndToken
    | FlowSequenceStartToken | FlowSequenceEndToken | FlowMappingStartToken | FlowMappingEndToken
    | BlockEntryToken | FlowEntryToken | KeyToken | ValueToken
    | AliasToken | AnchorToken | TagToken(tag: nat) | ScalarToken

  /** Handles of tags by number: a tag without a handle, and the two that are always there. */
  const NO_HANDLE := 0
  const DEFAULT_HANDLES := [1, 2]

  datatype State =
    | StreamStartState
    | ImplicitDocumentStart | DocumentStartState | DocumentContent | DocumentEndState
    | BlockNode
    | BlockSequenceFirstEntry | BlockSequenceEntry | IndentlessSequenceEntry
    | BlockMappingFirstKey | BlockMappingKey | BlockMappingValue
    | FlowSequenceFirstEntry | FlowSequenceEntry
    | FlowSequenceEntryMappingKey | FlowSequenceEntryMappingValue | FlowSequenceEntryMappingEnd
    | FlowMappingFirstKey | FlowMappingKey | FlowMappingValue | FlowMappingEmptyValue
    | EndState

  /** The parser between two events. */
  datatype Config = Config(tokens: seq<Token>, state: State, states: seq<State>, handles: seq<nat>, ended: bool)

  /** The next event, an error, or no event because the stream is over. */
  datatype Outcome = Go(event: Event, next: Config) | Stuck | Over

  predicate IsDirective(t: Token) {
    t.VersionDirectiveToken? || t.TagDirectiveToken?
  }

  // ----- small steps -----

  function Skipped(c: Config): Config
    requires c.tokens != []
  {
    c.(tokens := c.tokens[1..], ended := c.tokens[0].StreamEndToken?)
  }

  /** Back to the state on top of the stack. */
  function Popped(c: Config): Config
    requires c.states != []
  {
    c.(state := c.states[|c.states| - 1], states := c.states[..|c.states| - 1])
  }

  function Leave(c: Config, e: Event): Outcome {
    if c.states == [] then Stuck else Go(e, Popped(c))
  }

  /** The same, the event having a token of its own. */
  function LeaveToken(c: Config, e: Event): Outcome {
    if c.states == [] || c.tokens == [] then Stuck else Go(e, Skipped(Popped(c)))
  }

  function Empty(c: Config, next: State): Outcome {
    Go(Scalar, c.(state := next))
  }

  // ----- directives -----

  function Added(handles: seq<nat>, h: nat): seq<nat> {
    if h in handles then handles else handles + [h]
  }

  function WithDefaults(c: Config): Config {
    c.(handles := Added(Added(c.handles, DEFAULT_HANDLES[0]), DEFAULT_HANDLES[1]))
  }

  datatype Option<+T> = None | Some(value: T)

  /** The directives before a document; version says that there was one for the version. */
  function Directives(c: Config, version: bool): (r: Option<Config>)
    ensures r.Some? ==> r.value.tokens != [] && !IsDirective(r.value.tokens[0]) && |r.value.tokens| <= |c.tokens|
    ensures r.Some? ==> r.value.states == c.states && r.value.state == c.state
    decreases |c.tokens|
  {
    if c.tokens == [] then None
    else
      match c.tokens[0]
      case VersionDirectiveToken(major, minor) =>
        if version || major != 1 || minor != 1 then None else Directives(Skipped(c), true)
      case TagDirectiveToken(handle) =>
        if handle in c.handles then None else Directives(Skipped(c).(handles := c.handles + [handle]), version)
      case _ => Some(WithDefaults(c))
  }

  /** Past further ends of a document. */
  function PastEnds(c: Config): Config
    decreases |c.tokens|
  {
    if c.tokens != [] && c.tokens[0].DocumentEndToken? then PastEnds(Skipped(c)) else c
  }

  // ----- documents -----

  function StreamStartStep(c: Config): Outcome {
    if c.tokens == [] || !c.tokens[0].StreamStartToken? then Stuck
    else Go(StreamStart, Skipped(c).(state := ImplicitDocumentStart))
  }

  function Begun(c: Config, next: State): Outcome {
    Go(DocumentStart, c.(state := next, states := c.states + [DocumentEndState]))
  }

  function DocumentStartStep(c: Config, implicit: bool): Outcome {
    var b := if implicit then c else PastEnds(c);
    if b.tokens == [] then Stuck
    else if b.tokens[0].StreamEndToken? then Go(StreamEnd, Skipped(b).(state := EndState))
    else
      match Directives(b, false)
      case None => Stuck
      case Some(d) =>
        if implicit && !IsDirective(b.tokens[0]) && !b.tokens[0].DocumentStartToken? then Begun(d, BlockNode)
        else if !d.tokens[0].DocumentStartToken? then Stuck
        else Begun(Skipped(d), DocumentContent)
  }

  function DocumentContentStep(c: Config): Outcome {
    if c.tokens == [] then Stuck
    else if IsDirective(c.tokens[0]) || c.tokens[0].DocumentStartToken? || c.tokens[0].DocumentEndToken?
            || c.tokens[0].StreamEndToken? then Leave(c, Scalar)
    else NodeStep(c, true, false)
  }

  function DocumentEndStep(c: Config): Outcome {
    if c.tokens == [] then Stuck
    else
      var d := if c.tokens[0].DocumentEndToken? then Skipped(c) else c;
      Go(DocumentEnd, d.(handles := [], state := DocumentStartState))
  }

  // ----- nodes -----

  /** What stands before a node. */
  datatype Prefix = Prefix(any: bool, handle: nat, rest: Config)

  /** An anchor and a tag in either order. */
  function Properties(c: Config): (r: Option<Prefix>)
    ensures r.Some? ==> r.value.rest.tokens != []
  {
    if c.tokens == [] then None
    else if c.tokens[0].AnchorToken? then
      var d := Skipped(c);
      if d.tokens == [] then None
      else if d.tokens[0].TagToken? then Tagged(Skipped(d), d.tokens[0].tag)
      else Some(Prefix(true, NO_HANDLE, d))
    else if c.tokens[0].TagToken? then
      var d, h := Skipped(c), c.tokens[0].tag;
      if d.tokens != [] && d.tokens[0].AnchorToken? then Tagged(Skipped(d), h) else Tagged(d, h)
    else Some(Prefix(false, NO_HANDLE, c))
  }

  function Tagged(c: Config, handle: nat): (r: Option<Prefix>)
    ensures r.Some? ==> r.value.rest.tokens != []
  {
    if c.tokens == [] then None else Some(Prefix(true, handle, c))
  }

  function NodeStep(c: Config, block: bool, indentless: bool): Outcome {
    if c.tokens == [] then Stuck
    else if c.tokens[0].AliasToken? then LeaveToken(c, Alias)
    else
      match Properties(c)
      case None => Stuck
      case Some(p) =>
        if p.handle != NO_HANDLE && p.handle !in c.handles then Stuck else ContentStep(p.rest, block, indentless, p.any)
  }

  function ContentStep(c: Config, block: bool, indentless: bool, any: bool): Outcome
    requires c.tokens != []
  {
    match c.tokens[0]
    case BlockEntryToken =>
      if indentless then Go(SequenceStart(false), c.(state := IndentlessSequenceEntry)) else Bare(c, any)
    case ScalarToken => LeaveToken(c, Scalar)
    case FlowSequenceStartToken => Go(SequenceStart(true), c.(state := FlowSequenceFirstEntry))
    case FlowMappingStartToken => Go(MappingStart(true), c.(state := FlowMappingFirstKey))
    case BlockSequenceStartToken =>
      if block then Go(SequenceStart(false), c.(state := BlockSequenceFirstEntry)) else Bare(c, any)
    case BlockMappingStartToken =>
      if block then Go(MappingStart(false), c.(state := BlockMappingFirstKey)) else Bare(c, any)
    case _ => Bare(c, any)
  }

  /** Properties without contents belong to an empty scalar. */
  function Bare(c: Config, any: bool): Outcome {
    if any then Leave(c, Scalar) else Stuck
  }

  /** A node after which the parser is in state next. */
  function ChildStep(c: Config, next: State, block: bool, indentless: bool): Outcome {
    NodeStep(c.(states := c.states + [next]), block, indentless)
  }

  // ----- block collections -----

  function BlockSequenceStep(c: Config): Outcome {
    if c.tokens == [] then Stuck
    else
      match c.tokens[0]
      case BlockEntryToken =>
        var d := Skipped(c);
        if d.tokens == [] then Stuck
        else if d.tokens[0].BlockEntryToken? || d.tokens[0].BlockEndToken? then Empty(d, BlockSequenceEntry)
        else ChildStep(d, BlockSequenceEntry, true, false)
      case BlockEndToken => LeaveToken(c, SequenceEnd)
      case _ => Stuck
  }

  function IndentlessSequenceStep(c: Config): Outcome {
    if c.tokens == [] then Stuck
    else if !c.tokens[0].BlockEntryToken? then Leave(c, SequenceEnd)
    else
      var d := Skipped(c);
      if d.tokens == [] then Stuck
      else if d.tokens[0].BlockEntryToken? || EndsPart(d.tokens[0]) then Empty(d, IndentlessSequenceEntry)
      else ChildStep(d, IndentlessSequenceEntry, true, false)
  }

  /** No key or value begins with it. */
  predicate EndsPart(t: Token) {
    t.KeyToken? || t.ValueToken? || t.BlockEndToken?
  }

  function BlockPartStep(c: Config, next: State): Outcome {
    if c.tokens == [] then Stuck
    else if EndsPart(c.tokens[0]) then Empty(c, next)
    else ChildStep(c, next, true, true)
  }

  function BlockMappingKeyStep(c: Config): Outcome {
    if c.tokens == [] then Stuck
    else
      match c.tokens[0]
      case KeyToken => BlockPartStep(Skipped(c), BlockMappingValue)
      case BlockEndToken => LeaveToken(c, MappingEnd)
      case _ => Stuck
  }

  function BlockMappingValueStep(c: Config): Outcome {
    if c.tokens == [] then Stuck
    else if c.tokens[0].ValueToken? then BlockPartStep(Skipped(c), BlockMappingKey)
    else Empty(c, BlockMappingKey)
  }

  // ----- flow collections -----

  /** Past the comma that must stand between two entries; at is the first token of an entry or the
      end of the collection. */
  function NextEntry(c: Config, first: bool, end: Token): (r: Option<Config>)
    ensures r.Some? ==> r.value.tokens != []
  {
    if c.tokens == [] then None
    else if first || c.tokens[0] == end then Some(c)
    else if !c.tokens[0].FlowEntryToken? || |c.tokens| == 1 then None
    else Some(Skipped(c))
  }

  /** An entry of a flow sequence, or the end. */
  function SequenceEntryStep(c: Config): Outcome
    requires c.tokens != []
  {
    match c.tokens[0]
    case FlowSequenceEndToken => LeaveToken(c, SequenceEnd)
    case KeyToken => Go(MappingStart(true), Skipped(c).(state := FlowSequenceEntryMappingKey))
    case _ => ChildStep(c, FlowSequenceEntry, false, false)
  }

  function FlowSequenceStep(c: Config, first: bool): Outcome {
    match NextEntry(c, first, FlowSequenceEndToken)
    case None => Stuck
    case Some(d) => SequenceEntryStep(d)
  }

  /** No key or value of an entry begins with it. */
  predicate EndsEntry(t: Token, end: Token) {
    t.FlowEntryToken? || t == end
  }

  /** An empty key: the token after KEY is skipped with it. */
  function PairKeyStep(c: Config): Outcome {
    if c.tokens == [] then Stuck
    else if c.tokens[0].ValueToken? || EndsEntry(c.tokens[0], FlowSequenceEndToken) then
      Empty(Skipped(c), FlowSequenceEntryMappingValue)
    else ChildStep(c, FlowSequenceEntryMappingValue, false, false)
  }

  function FlowPartStep(c: Config, next: State, end: Token): Outcome {
    if c.tokens == [] then Stuck
    else if EndsEntry(c.tokens[0], end) then Empty(c, next)
    else ChildStep(c, next, false, false)
  }

  /** A value after VALUE, or an empty one. */
  function FlowValueStep(c: Config, next: State, end: Token): Outcome {
    if c.tokens == [] then Stuck
    else if c.tokens[0].ValueToken? then FlowPartStep(Skipped(c), next, end)
    else Empty(c, next)
  }

  function PairEndStep(c: Config): Outcome {
    if c.tokens == [] then Stuck else Go(MappingEnd, c.(state := FlowSequenceEntry))
  }

  function FlowKeyStep(c: Config): Outcome {
    if c.tokens == [] then Stuck
    else if c.tokens[0].ValueToken? || EndsEntry(c.tokens[0], FlowMappingEndToken) then Empty(c, FlowMappingValue)
    else ChildStep(c, FlowMappingValue, false, false)
  }

  /** An entry of a flow mapping, or the end. */
  function MappingEntryStep(c: Config): Outcome
    requires c.tokens != []
  {
    match c.tokens[0]
    case FlowMappingEndToken => LeaveToken(c, MappingEnd)
    case KeyToken => FlowKeyStep(Skipped(c))
    case _ => ChildStep(c, FlowMappingEmptyValue, false, false)
  }

  function FlowMappingStep(c: Config, first: bool): Outcome {
    match NextEntry(c, first, FlowMappingEndToken)
    case None => Stuck
    case Some(d) => MappingEntryStep(d)
  }

  function EmptyValueStep(c: Config): Outcome {
    if c.tokens == [] then Stuck else Empty(c, FlowMappingKey)
  }

  // ----- the machine -----

  /** The first state of a collection consumes its start token. */
  function Entered(c: Config): Config {
    if c.tokens == [] then c else Skipped(c)
  }

  function MachineStep(c: Config): Outcome {
    match c.state
    case StreamStartState => StreamStartStep(c)
    case ImplicitDocumentStart => DocumentStartStep(c, true)
    case DocumentStartState => DocumentStartStep(c, false)
    case DocumentContent => DocumentContentStep(c)
    case DocumentEndState => DocumentEndStep(c)
    case BlockNode => NodeStep(c, true, false)
    case BlockSequenceFirstEntry => BlockSequenceStep(Entered(c))
    case BlockSequenceEntry => BlockSequenceStep(c)
    case IndentlessSequenceEntry => IndentlessSequenceStep(c)
    case BlockMappingFirstKey => BlockMappingKeyStep(Entered(c))
    case BlockMappingKey => BlockMappingKeyStep(c)
    case BlockMappingValue => BlockMappingValueStep(c)
    case FlowSequenceFirstEntry => FlowSequenceStep(Entered(c), true)
    case FlowSequenceEntry => FlowSequenceStep(c, false)
    case FlowSequenceEntryMappingKey => PairKeyStep(c)
    case FlowSequenceEntryMappingValue => FlowValueStep(c, FlowSequenceEntryMappingEnd, FlowSequenceEndToken)
    case FlowSequenceEntryMappingEnd => PairEndStep(c)
    case FlowMappingFirstKey => FlowMappingStep(Entered(c), true)
    case FlowMappingKey => FlowMappingStep(c, false)
    case FlowMappingValue => FlowValueStep(c, FlowMappingKey, FlowMappingEndToken)
    case FlowMappingEmptyValue => EmptyValueStep(c)
    case EndState => Over
  }

  function Step(c: Config): Outcome {
    if c.ended then Over else MachineStep(c)
  }
}
