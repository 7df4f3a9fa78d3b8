/**
 * Documents as they are written: nodes with their properties in block and flow style, omitted nodes,
 * directives and document ends; the tokens of each, and the tree of nodes it stands for. Nothing
 * here depends on the parser.
 */
module YamlSyntax {
  import opened YamlTokens
  import T = YamlTrees

  // ----- what is written -----

  /** The anchor and the tag of a node, in either order; a tag names a handle. */
  datatype Props = NoProps | Anchored | Tagged(h: nat) | AnchoredTagged(h: nat) | TaggedAnchored(h: nat)

  /** Missing is a node left out, Bare one of which only the properties are written. A block sequence
      that is a key or a value may do without indentation, and a flow collection may end with a comma. */
  datatype Node =
    | Missing
    | AliasOf
    | ScalarOf(props: Props)
    | Bare(props: Props)
    | BlockSequence(props: Props, items: seq<Node>)
    | Indentless(props: Props, items: seq<Node>)
    | BlockMapping(props: Props, pairs: seq<Pair>)
    | FlowSequence(props: Props, entries: seq<Entry>, comma: bool)
    | FlowMapping(props: Props, entries: seq<Entry>, comma: bool)

  /** A key, and a value if there is a colon. */
  datatype Pair = Pair(key: Node, colon: bool, value: Node)

  datatype Entry = Single(node: Node) | Keyed(pair: Pair)

  // ----- tokens -----

  function PropsTokens(p: Props): seq<Token> {
    match p
    case NoProps => []
    case Anchored => [AnchorToken]
    case Tagged(h) => [TagToken(h)]
    case AnchoredTagged(h) => [AnchorToken, TagToken(h)]
    case TaggedAnchored(h) => [TagToken(h), AnchorToken]
  }

  function Tokens(x: Node): seq<Token> {
    match x
    case Missing => []
    case AliasOf => [AliasToken]
    case ScalarOf(p) => PropsTokens(p) + [ScalarToken]
    case Bare(p) => PropsTokens(p)
    case BlockSequence(p, items) => PropsTokens(p) + ([BlockSequenceStartToken] + (ItemTokens(items) + [BlockEndToken]))
    case Indentless(p, items) => PropsTokens(p) + ItemTokens(items)
    case BlockMapping(p, pairs) => PropsTokens(p) + ([BlockMappingStartToken] + (PairsTokens(pairs) + [BlockEndToken]))
    case FlowSequence(p, es, comma) =>
      PropsTokens(p) + ([FlowSequenceStartToken] + (EntriesTokens(es, comma) + [FlowSequenceEndToken]))
    case FlowMapping(p, es, comma) =>
      PropsTokens(p) + ([FlowMappingStartToken] + (EntriesTokens(es, comma) + [FlowMappingEndToken]))
  }

  function ItemTokens(xs: seq<Node>): seq<Token> {
    if xs == [] then [] else [BlockEntryToken] + (Tokens(xs[0]) + ItemTokens(xs[1..]))
  }

  function PairTokens(p: Pair): seq<Token> {
    [KeyToken] + (Tokens(p.key) + if p.colon then [ValueToken] + Tokens(p.value) else [])
  }

  function PairsTokens(ps: seq<Pair>): seq<Token> {
    if ps == [] then [] else PairTokens(ps[0]) + PairsTokens(ps[1..])
  }

  function EntryTokens(e: Entry): seq<Token> {
    match e
    case Single(x) => Tokens(x)
    case Keyed(p) => PairTokens(p)
  }

  /** Entries with commas between them. */
  function EntriesTokens(es: seq<Entry>, comma: bool): seq<Token> {
    if es == [] then [] else EntryTokens(es[0]) + (Comma(es[1..], comma) + EntriesTokens(es[1..], comma))
  }

  function Comma(es: seq<Entry>, comma: bool): seq<Token> {
    if es != [] || comma then [FlowEntryToken] else []
  }

  // ----- what it stands for -----

  function Tree(x: Node): T.Tree {
    match x
    case Missing => T.ScalarNode
    case AliasOf => T.AliasNode
    case ScalarOf(_) => T.ScalarNode
    case Bare(_) => T.ScalarNode
    case BlockSequence(_, items) => T.SequenceNode(false, Trees(items))
    case Indentless(_, items) => T.SequenceNode(false, Trees(items))
    case BlockMapping(_, pairs) => T.MappingNode(false, PairTrees(pairs))
    case FlowSequence(_, es, _) => T.SequenceNode(true, SequenceTrees(es))
    case FlowMapping(_, es, _) => T.MappingNode(true, MappingTrees(es))
  }

  function Trees(xs: seq<Node>): seq<T.Tree> {
    if xs == [] then [] else [Tree(xs[0])] + Trees(xs[1..])
  }

  function PairTree(p: Pair): seq<T.Tree> {
    [Tree(p.key), Tree(p.value)]
  }

  function PairTrees(ps: seq<Pair>): seq<T.Tree> {
    if ps == [] then [] else PairTree(ps[0]) + PairTrees(ps[1..])
  }

  /** In a flow sequence a pair is a mapping of its own. */
  function EntryTree(e: Entry): T.Tree {
    match e
    case Single(x) => Tree(x)
    case Keyed(p) => T.MappingNode(true, PairTree(p))
  }

  function SequenceTrees(es: seq<Entry>): seq<T.Tree> {
    if es == [] then [] else [EntryTree(es[0])] + SequenceTrees(es[1..])
  }

  /** In a flow mapping a node alone is a key without value. */
  function EntryPair(e: Entry): seq<T.Tree> {
    match e
    case Single(x) => [Tree(x), T.ScalarNode]
    case Keyed(p) => PairTree(p)
  }

  function MappingTrees(es: seq<Entry>): seq<T.Tree> {
    if es == [] then [] else EntryPair(es[0]) + MappingTrees(es[1..])
  }

  // ----- what may be written where -----

  predicate Known(p: Props, handles: set<nat>) {
    p.NoProps? || p.Anchored? || p.h == NO_HANDLE || p.h in handles
  }

  /** A node written in block or flow context; indentless says that it is the key or the value of a
      block mapping. */
  predicate Ok(x: Node, handles: set<nat>, block: bool, indentless: bool)
    decreases x, 0
  {
    match x
    case Missing => false
    case AliasOf => true
    case ScalarOf(p) => Known(p, handles)
    case Bare(p) => Known(p, handles) && p != NoProps
    case BlockSequence(p, items) => block && Known(p, handles) && AllItems(items, handles)
    case Indentless(p, items) => indentless && items != [] && Known(p, handles) && AllItems(items, handles)
    case BlockMapping(p, pairs) => block && Known(p, handles) && AllPairs(pairs, handles)
    case FlowSequence(p, es, comma) => Known(p, handles) && (comma ==> es != []) && AllEntries(es, handles, false)
    case FlowMapping(p, es, comma) => Known(p, handles) && (comma ==> es != []) && AllEntries(es, handles, true)
  }

  /** The same, or nothing. */
  predicate OkPart(x: Node, handles: set<nat>, block: bool, indentless: bool)
    decreases x, 1
  {
    x.Missing? || Ok(x, handles, block, indentless)
  }

  predicate AllItems(xs: seq<Node>, handles: set<nat>)
    decreases xs, 0
  {
    forall k :: 0 <= k < |xs| ==> OkPart(xs[k], handles, true, false)
  }

  predicate OkPair(p: Pair, handles: set<nat>, block: bool)
    decreases p, 0
  {
    OkPart(p.key, handles, block, block) && OkPart(p.value, handles, block, block) && (!p.colon ==> p.value.Missing?)
  }

  predicate AllPairs(ps: seq<Pair>, handles: set<nat>)
    decreases ps, 0
  {
    forall k :: 0 <= k < |ps| ==> OkPair(ps[k], handles, true)
  }

  /** An empty key is possible in a flow mapping only. */
  predicate OkEntry(e: Entry, handles: set<nat>, mapping: bool)
    decreases e, 0
  {
    match e
    case Single(x) => Ok(x, handles, false, false)
    case Keyed(p) => OkPair(p, handles, false) && (mapping || !p.key.Missing?)
  }

  predicate AllEntries(es: seq<Entry>, handles: set<nat>, mapping: bool)
    decreases es, 0
  {
    forall k :: 0 <= k < |es| ==> OkEntry(es[k], handles, mapping)
  }

  // ----- documents -----

  datatype Directive = Version | Handle(h: nat)

  /** Only an explicit document has directives; its root may be left out. ends is the number of
      document ends that follow. */
  datatype Document = Document(explicit: bool, directives: seq<Directive>, root: Node, ends: nat)

  function DirectiveTokens(ds: seq<Directive>): seq<Token> {
    if ds == [] then []
    else [if ds[0].Version? then VersionDirectiveToken(1, 1) else TagDirectiveToken(ds[0].h)] + DirectiveTokens(ds[1..])
  }

  function EndTokens(n: nat): seq<Token> {
    if n == 0 then [] else [DocumentEndToken] + EndTokens(n - 1)
  }

  function StartTokens(d: Document): seq<Token> {
    if d.explicit then DirectiveTokens(d.directives) + [DocumentStartToken] else []
  }

  function DocumentTokens(ds: seq<Document>): seq<Token> {
    if ds == [] then []
    else StartTokens(ds[0]) + (Tokens(ds[0].root) + (EndTokens(ds[0].ends) + DocumentTokens(ds[1..])))
  }

  function StreamTokens(ds: seq<Document>): seq<Token> {
    [StreamStartToken] + (DocumentTokens(ds) + [StreamEndToken])
  }

  function Roots(ds: seq<Document>): seq<T.Tree> {
    if ds == [] then [] else [Tree(ds[0].root)] + Roots(ds[1..])
  }

  /** The handles a document may use: those of its directives and the two that are always there. */
  function HandlesOf(ds: seq<Directive>): set<nat> {
    (set d | d in ds && d.Handle? :: d.h) + {DEFAULT_HANDLES[0], DEFAULT_HANDLES[1]}
  }

  /** No directive is there twice. */
  predicate AllDifferent(ds: seq<Directive>) {
    forall i, j :: 0 <= i < j < |ds| ==> ds[i] != ds[j]
  }

  predicate OkDocument(d: Document) {
    if d.explicit then AllDifferent(d.directives) && OkPart(d.root, HandlesOf(d.directives), true, false)
    else d.directives == [] && Ok(d.root, HandlesOf([]), true, false)
  }

  /** Only the first document may do without a start. */
  predicate OkStream(ds: seq<Document>) {
    forall k :: 0 <= k < |ds| ==> OkDocument(ds[k]) && (k > 0 ==> ds[k].explicit)
  }
}
