/**
 * The queue of tokens between scanner and parser: what a sequence of tokens with their marks must be
 * like, apart from how the scanner produces it. Tokens that stand in the text are told from implied
 * ones, which the scanner adds: the beginnings and ends of block collections, and KEY before a
 * simple key.
 */
module YamlQueue {
  import opened YamlTokens

  datatype Mark = Mark(index: nat, line: nat, column: nat)

  /** A token with the places where it begins and ends. */
  datatype Marked = Marked(token: Token, start: Mark, end: Mark)

  predicate Before(a: Mark, b: Mark) {
    a.index <= b.index && (a.line < b.line || (a.line == b.line && a.column <= b.column))
  }

  /** The scanner has come on from a to b. */
  predicate Passed(a: Mark, b: Mark) {
    a.index < b.index && (a.line < b.line || (a.line == b.line && a.column < b.column))
  }

  predicate Sorted(a: seq<Marked>) {
    forall i, j :: 0 <= i < j < |a| ==> Before(a[i].start, a[j].start)
  }

  predicate UpTo(a: seq<Marked>, m: Mark) {
    forall i :: 0 <= i < |a| ==> Before(a[i].start, m)
  }

  // ----- implied tokens -----

  predicate Begins(t: Token) {
    t.BlockSequenceStartToken? || t.BlockMappingStartToken?
  }

  predicate Implied(t: Marked) {
    Begins(t.token) || t.token.BlockEndToken? || (t.token.KeyToken? && t.start == t.end)
  }

  /** The tokens of the text. */
  function Written(a: seq<Marked>): seq<Token> {
    if a == [] then []
    else Written(a[..|a| - 1]) + if Implied(a[|a| - 1]) then [] else [a[|a| - 1].token]
  }

  /** An implied token that stands for what follows at the same place. */
  predicate Needs(t: Marked) {
    Begins(t.token) || (t.token.KeyToken? && t.start == t.end)
  }

  /** What may follow: an entry, a key or a value without one; the first token of a simple key. */
  predicate Serves(t: Marked, next: Marked) {
    && next.start == t.start
    && match t.token
       case BlockSequenceStartToken => next.token.BlockEntryToken?
       case BlockMappingStartToken => next.token.KeyToken? || next.token.ValueToken?
       case _ => !Implied(next)
  }

  predicate Placed(a: seq<Marked>) {
    forall i :: 0 <= i < |a| && Needs(a[i]) ==> i + 1 < |a| && Serves(a[i], a[i + 1])
  }

  // ----- nesting -----

  /** The columns of the open block collections, above -1; how many flow collections are open; whether
      the end of the document has been told by closing a collection that the column does not close. */
  datatype Nest = Nest(levels: seq<int>, depth: nat, over: bool)

  const Ground := Nest([-1], 0, false)

  /** Tokens that end all block collections. */
  predicate Resets(t: Token) {
    t.DocumentStartToken? || t.DocumentEndToken? || t.VersionDirectiveToken? || t.TagDirectiveToken? || t.StreamEndToken?
  }

  function Top(n: Nest): int
    requires n.levels != []
  {
    n.levels[|n.levels| - 1]
  }

  /** The rules of indentation: collections begin further to the right than those around them; entries
      and keys stand exactly at the column of their collection, other tokens not to the left of it; a
      collection ends before a token to the left of it or at the end of the document. */
  function Nests(n: Nest, t: Marked): Option<Nest>
    requires n.levels != []
  {
    var col := t.start.column;
    if n.over then (if Resets(t.token) && n.depth == 0 && |n.levels| == 1 then Some(n.(over := false)) else None)
    else if t.token.StreamStartToken? then Some(n)
    else if Begins(t.token) then
      if n.depth == 0 && col > Top(n) then Some(n.(levels := n.levels + [col])) else None
    else if t.token.BlockEndToken? then
      if n.depth == 0 && |n.levels| > 1 then Some(Nest(n.levels[..|n.levels| - 1], 0, col >= Top(n))) else None
    else if Resets(t.token) then (if n.depth > 0 || |n.levels| == 1 then Some(n) else None)
    else if n.depth == 0 && col < Top(n) then None
    else if t.token.BlockEntryToken? || t.token.KeyToken? then (if n.depth > 0 || col == Top(n) then Some(n) else None)
    else if t.token.FlowSequenceStartToken? || t.token.FlowMappingStartToken? then Some(n.(depth := n.depth + 1))
    else if t.token.FlowSequenceEndToken? || t.token.FlowMappingEndToken? then
      Some(n.(depth := if n.depth > 0 then n.depth - 1 else 0))
    else Some(n)
  }

  /** The nesting after some tokens; none if they break a rule. */
  function Run(n: Nest, a: seq<Marked>): (r: Option<Nest>)
    requires n.levels != []
    ensures r.Some? ==> r.value.levels != []
  {
    if a == [] then Some(n)
    else
      match Run(n, a[..|a| - 1])
      case None => None
      case Some(m) => Nests(m, a[|a| - 1])
  }

  /** Tokens of a node in one line, from column col on: they keep all block collections no deeper than that. */
  ghost predicate Inert(a: seq<Marked>, col: int, depth: nat) {
    forall s: seq<int> :: s != [] && s[|s| - 1] <= col ==> Run(Nest(s, 0, false), a) == Some(Nest(s, depth, false))
  }

  // ----- laws -----

  lemma {:induction false} RunPut(n: Nest, a: seq<Marked>, t: Marked)
    requires n.levels != []
    ensures Run(n, a + [t]) == match Run(n, a) case None => None case Some(m) => Nests(m, t)
  {
    assert (a + [t])[..|a|] == a;
  }

  lemma {:induction false} RunJoin(n: Nest, a: seq<Marked>, b: seq<Marked>)
    requires n.levels != []
    ensures Run(n, a + b) == match Run(n, a) case None => None case Some(m) => Run(m, b)
    decreases |b|
  {
    if b == [] {
      assert a + b == a;
    } else {
      var c := b[..|b| - 1];
      RunJoin(n, a, c);
      assert a + b == (a + c) + [b[|b| - 1]];
      RunPut(n, a + c, b[|b| - 1]);
    }
  }

  lemma {:induction false} WrittenPut(a: seq<Marked>, t: Marked)
    ensures Written(a + [t]) == Written(a) + if Implied(t) then [] else [t.token]
  {
    assert (a + [t])[..|a|] == a;
  }

  lemma {:induction false} WrittenJoin(a: seq<Marked>, b: seq<Marked>)
    ensures Written(a + b) == Written(a) + Written(b)
    decreases |b|
  {
    if b == [] {
      assert a + b == a;
    } else {
      var c := b[..|b| - 1];
      WrittenJoin(a, c);
      assert a + b == (a + c) + [b[|b| - 1]];
      WrittenPut(a + c, b[|b| - 1]);
    }
  }

  /** The token t put in at position n. */
  function Insert(a: seq<Marked>, n: nat, t: Marked): (r: seq<Marked>)
    requires n <= |a|
    ensures |r| == |a| + 1
  {
    a[..n] + [t] + a[n..]
  }

  lemma {:induction false} InsertWritten(a: seq<Marked>, n: nat, t: Marked)
    requires n <= |a| && Implied(t)
    ensures Written(Insert(a, n, t)) == Written(a)
  {
    WrittenPut(a[..n], t);
    WrittenJoin(a[..n] + [t], a[n..]);
    WrittenJoin(a[..n], a[n..]);
    assert a[..n] + a[n..] == a;
  }

  lemma {:induction false} InsertSorted(a: seq<Marked>, n: nat, t: Marked)
    requires n < |a| && Sorted(a) && t.start == a[n].start
    ensures Sorted(Insert(a, n, t))
  {
    var r := Insert(a, n, t);
    forall i, j | 0 <= i < j < |r|
      ensures Before(r[i].start, r[j].start)
    {
      var i', j' := if i <= n then i else i - 1, if j <= n then j else j - 1;
      assert r[i].start == a[i'].start && r[j].start == a[j'].start;
    }
  }

  lemma {:induction false} InsertUpTo(a: seq<Marked>, n: nat, t: Marked, m: Mark)
    requires n < |a| && UpTo(a, m) && t.start == a[n].start
    ensures UpTo(Insert(a, n, t), m)
  {
    var r := Insert(a, n, t);
    forall i | 0 <= i < |r|
      ensures Before(r[i].start, m)
    {
      assert r[i].start == a[if i <= n then i else i - 1].start;
    }
  }

  lemma {:induction false} InsertPlaced(a: seq<Marked>, n: nat, t: Marked)
    requires n < |a| && Placed(a) && Needs(t) && Serves(t, a[n])
    requires n > 0 ==> !Needs(a[n - 1])
    ensures Placed(Insert(a, n, t))
  {
    var r := Insert(a, n, t);
    forall i | 0 <= i < |r| && Needs(r[i])
      ensures i + 1 < |r| && Serves(r[i], r[i + 1])
    {
      if i < n {
        assert r[i] == a[i] && i + 1 < n && r[i + 1] == a[i + 1];
      } else if i > n {
        assert r[i] == a[i - 1] && r[i + 1] == a[i];
      }
    }
  }

  /** KEY put in where flow collections are open. */
  lemma {:induction false} KeyInFlow(n: Nest, a: seq<Marked>, k: nat, t: Marked)
    requires n.levels != [] && k <= |a| && t.token.KeyToken?
    requires Run(n, a[..k]).Some? && Run(n, a[..k]).value.depth > 0 && !Run(n, a[..k]).value.over
    ensures Run(n, Insert(a, k, t)) == Run(n, a)
  {
    RunPut(n, a[..k], t);
    RunJoin(n, a[..k] + [t], a[k..]);
    RunJoin(n, a[..k], a[k..]);
    assert a[..k] + a[k..] == a;
  }

  /** Tokens put in before a simple key in the block context. */
  lemma {:induction false} KeyInBlock(n: Nest, a: seq<Marked>, k: nat, b: seq<Marked>, s: seq<int>, col: int, depth: nat)
    requires n.levels != [] && k <= |a| && s != [] && s[|s| - 1] <= col
    requires Run(n, a[..k] + b) == Some(Nest(s, 0, false)) && Inert(a[k..], col, depth)
    ensures Run(n, a[..k] + b + a[k..]) == Some(Nest(s, depth, false))
  {
    RunJoin(n, a[..k] + b, a[k..]);
  }
}
