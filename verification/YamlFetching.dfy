/**
 * How the scanner turns the lexemes of a text into tokens (scanner.c): indentation begins and ends
 * block collections, and a VALUE makes what stands before it a simple key. As functions on the
 * scanner's state; which tokens have already been handed to the parser makes no difference.
 */
module YamlFetching {
  import opened YamlTokens
  import opened YamlQueue

  // ----- lexemes -----

  /** Scalars in blocks and plain ones that end with line breaks allow a simple key to follow. */
  datatype Form = Ordinary | BlockForm | OpenForm

  /** A token as it stands in the text; end is where the scanner is after it. */
  datatype Lexeme = Lexeme(token: Token, form: Form, start: Mark, end: Mark)

  predicate GoodLexeme(x: Lexeme) {
    && !x.token.StreamStartToken? && !x.token.StreamEndToken? && !Begins(x.token) && !x.token.BlockEndToken?
    && Passed(x.start, x.end)
    && (Resets(x.token) ==> x.start.column == 0)
    && (x.form != Ordinary ==> x.token.ScalarToken?)
    && (x.form == OpenForm ==> x.start.line < x.end.line)
  }

  const Origin := Mark(0, 0, 0)

  /** Where the scanner is after i lexemes. */
  function EndOf(input: seq<Lexeme>, i: nat): Mark
    requires i <= |input|
  {
    if i == 0 then Origin else input[i - 1].end
  }

  /** The lexemes of a text that ends at the mark last. */
  predicate GoodInput(input: seq<Lexeme>, last: Mark) {
    && (forall i :: 0 <= i < |input| ==> GoodLexeme(input[i]) && Before(EndOf(input, i), input[i].start))
    && Before(EndOf(input, |input|), last)
  }

  // ----- the state -----

  datatype SimpleKey = SimpleKey(possible: bool, required: bool, number: nat, mark: Mark)

  const NoKey := SimpleKey(false, false, 0, Origin)

  /** All tokens so far and what the scanner remembers. */
  datatype View = View(all: seq<Marked>, keys: seq<SimpleKey>, indents: seq<int>, indent: int, flow: nat, allowed: bool, mark: Mark)

  datatype Problem = KeyWithoutValue | EntryNotAllowed | KeyNotAllowed | ValueNotAllowed | AssertionFailed

  datatype Fetched = Fine(v: View) | Wrong(problem: Problem)

  const Start := View([Marked(StreamStartToken, Origin, Origin)], [NoKey], [], -1, 0, true, Origin)

  function Last<T>(s: seq<T>): T
    requires s != []
  {
    s[|s| - 1]
  }

  /** On the way to the next lexeme a line break in the block context allows a simple key. */
  function Come(v: View, m: Mark): View {
    v.(mark := m, allowed := v.allowed || (v.flow == 0 && v.mark.line < m.line))
  }

  /** A simple key is limited to a line and to 1024 characters. */
  predicate Old(k: SimpleKey, m: Mark) {
    k.possible && (k.mark.line < m.line || k.mark.index + 1024 < m.index)
  }

  function Gone(k: SimpleKey): SimpleKey {
    k.(possible := false)
  }

  function Stale(v: View): Fetched {
    if exists i :: 0 <= i < |v.keys| && Old(v.keys[i], v.mark) && v.keys[i].required then Wrong(KeyWithoutValue)
    else Fine(v.(keys := seq(|v.keys|, i requires 0 <= i < |v.keys| => if Old(v.keys[i], v.mark) then Gone(v.keys[i]) else v.keys[i])))
  }

  /** The keys below the top are the same. */
  predicate SameBelow(v: View, w: View)
    requires v.keys != []
  {
    |w.keys| >= |v.keys| - 1 && forall i :: 0 <= i < |v.keys| - 1 ==> w.keys[i] == v.keys[i]
  }

  function TopKey(v: View, k: SimpleKey): View
    requires v.keys != []
  {
    v.(keys := v.keys[|v.keys| - 1 := k])
  }

  function Drop(v: View): Fetched
    requires v.keys != []
  {
    if Last(v.keys).possible && Last(v.keys).required then Wrong(KeyWithoutValue) else Fine(TopKey(v, Gone(Last(v.keys))))
  }

  /** In the block context a key is required at the column of the collection. The code asserts that a
      key is allowed there. */
  function Save(v: View): Fetched
    requires v.keys != []
  {
    var required := v.flow == 0 && v.indent == v.mark.column;
    if required && !v.allowed then Wrong(AssertionFailed)
    else if !v.allowed then Fine(v)
    else
      match Drop(v)
      case Wrong(p) => Wrong(p)
      case Fine(w) => Fine(TopKey(w, SimpleKey(true, required, |v.all|, v.mark)))
  }

  /** Begins a block collection if the column is to the right of the last one. */
  function Roll(v: View, column: nat, t: Token): View {
    if v.flow > 0 || v.indent >= column then v
    else v.(all := v.all + [Marked(t, v.mark, v.mark)], indents := v.indents + [v.indent], indent := column)
  }

  /** Ends the block collections to the right of the column. */
  function Close(v: View, column: int): View
    decreases |v.indents|
  {
    if v.flow > 0 || v.indent <= column || v.indents == [] then v
    else
      var n := |v.indents| - 1;
      Close(v.(all := v.all + [Marked(BlockEndToken, v.mark, v.mark)], indent := v.indents[n], indents := v.indents[..n]), column)
  }

  lemma {:induction false} CloseKeeps(v: View, column: int)
    ensures var w := Close(v, column);
            v.all <= w.all && w.keys == v.keys && w.flow == v.flow && w.allowed == v.allowed && w.mark == v.mark
    decreases |v.indents|
  {
    if !(v.flow > 0 || v.indent <= column || v.indents == []) {
      var n := |v.indents| - 1;
      CloseKeeps(v.(all := v.all + [Marked(BlockEndToken, v.mark, v.mark)], indent := v.indents[n], indents := v.indents[..n]), column);
    }
  }

  function Put(v: View, x: Lexeme, allowed: bool): View {
    v.(all := v.all + [Marked(x.token, x.start, x.end)], mark := x.end, allowed := allowed)
  }

  // ----- fetching a token -----

  function FetchReset(v: View, x: Lexeme): (r: Fetched)
    requires v.keys != []
    ensures r.Fine? ==> r.v.mark == x.end && r.v.flow == v.flow && |r.v.all| > |v.all| && SameBelow(v, r.v)
  {
    CloseKeeps(v, -1);
    match Drop(Close(v, -1))
    case Wrong(p) => Wrong(p)
    case Fine(w) => Fine(Put(w, x, false))
  }

  function FetchFlowStart(v: View, x: Lexeme): (r: Fetched)
    requires v.keys != []
    ensures r.Fine? ==> r.v.mark == x.end && r.v.flow == v.flow + 1 && |r.v.all| > |v.all| && SameBelow(v, r.v)
  {
    match Save(v)
    case Wrong(p) => Wrong(p)
    case Fine(w) => Fine(Put(w.(keys := w.keys + [NoKey], flow := w.flow + 1), x, true))
  }

  function FetchFlowEnd(v: View, x: Lexeme): (r: Fetched)
    requires v.keys != []
    ensures r.Fine? ==> r.v.mark == x.end && r.v.flow == (if v.flow > 0 then v.flow - 1 else 0) && |r.v.all| > |v.all| && SameBelow(v, r.v)
  {
    match Drop(v)
    case Wrong(p) => Wrong(p)
    case Fine(w) =>
      if w.flow == 0 then Fine(Put(w, x, false))
      else Fine(Put(w.(keys := w.keys[..|w.keys| - 1], flow := w.flow - 1), x, false))
  }

  function FetchFlowEntry(v: View, x: Lexeme): (r: Fetched)
    requires v.keys != []
    ensures r.Fine? ==> r.v.mark == x.end && r.v.flow == v.flow && |r.v.all| > |v.all| && SameBelow(v, r.v)
  {
    match Drop(v)
    case Wrong(p) => Wrong(p)
    case Fine(w) => Fine(Put(w, x, true))
  }

  function FetchBlockEntry(v: View, x: Lexeme): (r: Fetched)
    requires v.keys != []
    ensures r.Fine? ==> r.v.mark == x.end && r.v.flow == v.flow && |r.v.all| > |v.all| && SameBelow(v, r.v)
  {
    if v.flow == 0 && !v.allowed then Wrong(EntryNotAllowed)
    else
      match Drop(Roll(v, v.mark.column, BlockSequenceStartToken))
      case Wrong(p) => Wrong(p)
      case Fine(w) => Fine(Put(w, x, true))
  }

  function FetchKey(v: View, x: Lexeme): (r: Fetched)
    requires v.keys != []
    ensures r.Fine? ==> r.v.mark == x.end && r.v.flow == v.flow && |r.v.all| > |v.all| && SameBelow(v, r.v)
  {
    if v.flow == 0 && !v.allowed then Wrong(KeyNotAllowed)
    else
      match Drop(Roll(v, v.mark.column, BlockMappingStartToken))
      case Wrong(p) => Wrong(p)
      case Fine(w) => Fine(Put(w, x, v.flow == 0))
  }

  /** The possible simple key becomes one: KEY before its first token, and the beginning of a mapping
      before that if its column asks for it. */
  function MakeKey(v: View, k: SimpleKey): View
    requires v.keys != [] && k.number <= |v.all|
  {
    var w := TopKey(v, Gone(k)).(all := Insert(v.all, k.number, Marked(KeyToken, k.mark, k.mark)));
    if v.flow > 0 || v.indent >= k.mark.column then w
    else
      w.(all := Insert(w.all, k.number, Marked(BlockMappingStartToken, k.mark, k.mark)),
         indents := v.indents + [v.indent], indent := k.mark.column)
  }

  function FetchValue(v: View, x: Lexeme): (r: Fetched)
    requires v.keys != [] && (Last(v.keys).possible ==> Last(v.keys).number <= |v.all|)
    ensures r.Fine? ==> r.v.mark == x.end && r.v.flow == v.flow && |r.v.all| > |v.all| && SameBelow(v, r.v)
  {
    if Last(v.keys).possible then Fine(Put(MakeKey(v, Last(v.keys)), x, false))
    else if v.flow == 0 && !v.allowed then Wrong(ValueNotAllowed)
    else Fine(Put(Roll(v, v.mark.column, BlockMappingStartToken), x, v.flow == 0))
  }

  /** Aliases, anchors, tags and scalars, which may be or begin a simple key. */
  function FetchNode(v: View, x: Lexeme): (r: Fetched)
    requires v.keys != []
    ensures r.Fine? ==> r.v.mark == x.end && r.v.flow == v.flow && |r.v.all| > |v.all| && SameBelow(v, r.v)
  {
    match if x.form == BlockForm then Drop(v) else Save(v)
    case Wrong(p) => Wrong(p)
    case Fine(w) => Fine(Put(w, x, x.form != Ordinary))
  }

  /** With the scanner at the lexeme x. */
  function Dispatch(v: View, x: Lexeme): Fetched
    requires v.keys != [] && (Last(v.keys).possible ==> Last(v.keys).number <= |v.all|)
  {
    match x.token
    case DocumentStartToken => FetchReset(v, x)
    case DocumentEndToken => FetchReset(v, x)
    case VersionDirectiveToken(_, _) => FetchReset(v, x)
    case TagDirectiveToken(_) => FetchReset(v, x)
    case FlowSequenceStartToken => FetchFlowStart(v, x)
    case FlowMappingStartToken => FetchFlowStart(v, x)
    case FlowSequenceEndToken => FetchFlowEnd(v, x)
    case FlowMappingEndToken => FetchFlowEnd(v, x)
    case FlowEntryToken => FetchFlowEntry(v, x)
    case BlockEntryToken => FetchBlockEntry(v, x)
    case KeyToken => FetchKey(v, x)
    case ValueToken => FetchValue(v, x)
    case _ => FetchNode(v, x)
  }

  /** The numbers of possible keys are those of tokens. */
  predicate Sound(v: View) {
    v.keys != [] && forall i :: 0 <= i < |v.keys| && v.keys[i].possible ==> v.keys[i].number < |v.all|
  }

  /** From the end of a lexeme to the beginning of the next. */
  function Arrive(v: View, m: Mark): (r: Fetched)
    ensures r.Fine? ==> |r.v.keys| == |v.keys|
    ensures r.Fine? && Sound(v) ==> Sound(r.v)
  {
    match Stale(Come(v, m))
    case Wrong(p) => Wrong(p)
    case Fine(w) =>
      CloseKeeps(w, m.column);
      Fine(Close(w, m.column))
  }

  function Fetch(v: View, x: Lexeme): Fetched
    requires Sound(v)
  {
    match Arrive(v, x.start)
    case Wrong(p) => Wrong(p)
    case Fine(w) => Dispatch(w, x)
  }

  /** A new line is made up if the text does not end with one. */
  function NewLine(m: Mark): Mark {
    if m.column == 0 then m else Mark(m.index, m.line + 1, 0)
  }

  function FetchEnd(v: View, last: Mark): Fetched
    requires Sound(v)
  {
    match Arrive(v, last)
    case Wrong(p) => Wrong(p)
    case Fine(w) =>
      var m := NewLine(last);
      FetchReset(w.(mark := m), Lexeme(StreamEndToken, Ordinary, m, m))
  }

  /** After a token has been fetched keys are given up at once where the line has ended. */
  function Settle(f: Fetched): Fetched {
    match f
    case Wrong(p) => Wrong(p)
    case Fine(v) => Stale(v)
  }
}
