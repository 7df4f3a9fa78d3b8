/**
 * Binary search trees of suffixes in which a child is always older than its parent. Looking a new
 * suffix up splits the tree into the part below and the part above it, which become its subtrees.
 */
module SuffixTree {
  import opened Bytes
  import opened Suffixes

  datatype Tree = Leaf | Node(at: nat, left: Tree, right: Tree)

  /** A repeat: len bytes, first seen dist + 1 positions earlier. */
  datatype Pair = Pair(len: nat, dist: nat)

  function Nodes(s: Tree): set<nat> {
    match s
    case Leaf => {}
    case Node(i, l, r) => {i} + Nodes(l) + Nodes(r)
  }

  ghost predicate Older(s: Tree, c: nat) {
    forall q :: q in Nodes(s) ==> q < c
  }

  ghost predicate AllBelow(t: seq<byte>, s: Tree, c: nat, n: nat)
    requires c + n <= |t|
  {
    forall q :: q in Nodes(s) ==> q < c && Below(t, q, c, n)
  }

  ghost predicate AllAbove(t: seq<byte>, s: Tree, c: nat, n: nat)
    requires c + n <= |t|
  {
    forall q :: q in Nodes(s) ==> q < c && Below(t, c, q, n)
  }

  /** Ordered by the first n bytes, weakly; every node younger than the nodes below it; no node
      twice. */
  ghost predicate Search(t: seq<byte>, s: Tree, n: nat) {
    match s
    case Leaf => true
    case Node(i, l, r) =>
      && i + n <= |t| && Search(t, l, n) && Search(t, r, n) && Nodes(l) !! Nodes(r)
      && AllBelow(t, l, i, n) && AllAbove(t, r, i, n)
  }

  /** Does the search for c go on to the right of i? */
  predicate Smaller(t: seq<byte>, i: nat, c: nat, n: nat)
    requires i + n <= |t| && c + n <= |t|
  {
    var k := Lcp(t, i, c, n);
    k < n && t[i + k] < t[c + k]
  }

  /** The parts of s below and above c, of what cut comparisons reach. */
  function Split(t: seq<byte>, s: Tree, c: nat, n: nat, cut: nat): (r: (Tree, Tree))
    requires c + n <= |t| && Older(s, c)
    ensures Nodes(r.0) + Nodes(r.1) <= Nodes(s)
    decreases s
  {
    match s
    case Leaf => (Leaf, Leaf)
    case Node(i, l, r) =>
      assert i in Nodes(s);
      if cut == 0 then (Leaf, Leaf)
      else if Lcp(t, i, c, n) == n then (l, r)
      else if Smaller(t, i, c, n) then
        var (a, b) := Split(t, r, c, n, cut - 1);
        (Node(i, l, a), b)
      else
        var (a, b) := Split(t, l, c, n, cut - 1);
        (a, Node(i, b, r))
  }

  /** The repeats met on the way: each longer than those before. */
  function Walk(t: seq<byte>, s: Tree, c: nat, n: nat, cut: nat, maxLen: nat): seq<Pair>
    requires c + n <= |t| && Older(s, c)
    decreases s
  {
    match s
    case Leaf => []
    case Node(i, l, r) =>
      assert i in Nodes(s);
      if cut == 0 then []
      else
        var len := Lcp(t, i, c, n);
        var found := if maxLen < len then [Pair(len, c - i - 1)] else [];
        var longest := if maxLen < len then len else maxLen;
        if len == n then found
        else found + Walk(t, if Smaller(t, i, c, n) then r else l, c, n, cut - 1, longest)
  }

  /** How many comparisons a search without limit needs. */
  function PathLength(t: seq<byte>, s: Tree, c: nat, n: nat): nat
    requires c + n <= |t| && Older(s, c)
    decreases s
  {
    match s
    case Leaf => 0
    case Node(i, l, r) =>
      assert i in Nodes(s);
      if Lcp(t, i, c, n) == n then 1
      else 1 + PathLength(t, if Smaller(t, i, c, n) then r else l, c, n)
  }

  function Best(found: seq<Pair>, maxLen: nat): nat {
    if found == [] then maxLen else found[|found| - 1].len
  }

  // ----- the tree stays a search tree -----

  lemma {:induction false} OlderParts(s: Tree, c: nat)
    requires s.Node? && Older(s, c)
    ensures s.at < c && Older(s.left, c) && Older(s.right, c)
  {
    assert s.at in Nodes(s) && Nodes(s.left) <= Nodes(s) && Nodes(s.right) <= Nodes(s);
  }

  lemma {:induction false} BelowAll(t: seq<byte>, s: Tree, i: nat, c: nat, n: nat)
    requires i < c && c + n <= |t| && AllBelow(t, s, i, n) && Below(t, i, c, n)
    ensures AllBelow(t, s, c, n)
  {
    hide Below, Nodes;
    forall q | q in Nodes(s) ensures q < c && Below(t, q, c, n) {
      BelowTransitive(t, q, i, c, n);
    }
  }

  lemma {:induction false} AboveAll(t: seq<byte>, s: Tree, i: nat, c: nat, n: nat)
    requires i < c && c + n <= |t| && AllAbove(t, s, i, n) && Below(t, c, i, n)
    ensures AllAbove(t, s, c, n)
  {
    hide Below, Nodes;
    forall q | q in Nodes(s) ensures q < c && Below(t, c, q, n) {
      BelowTransitive(t, c, i, q, n);
    }
  }

  /** The node i with everything left of it, and with the lower part a of what was right of it. */
  lemma {:induction false} LeftPart(t: seq<byte>, i: nat, l: Tree, r: Tree, a: Tree, b: Tree, c: nat, n: nat)
    requires i < c && c + n <= |t| && Search(t, Node(i, l, r), n) && Below(t, i, c, n)
    requires Search(t, a, n) && Nodes(a) + Nodes(b) <= Nodes(r) && Nodes(a) !! Nodes(b) && AllBelow(t, a, c, n)
    ensures Search(t, Node(i, l, a), n) && AllBelow(t, Node(i, l, a), c, n)
    ensures Nodes(Node(i, l, a)) !! Nodes(b)
  {
    hide Below;
    BelowAll(t, l, i, c, n);
  }

  lemma {:induction false} RightPart(t: seq<byte>, i: nat, l: Tree, r: Tree, a: Tree, b: Tree, c: nat, n: nat)
    requires i < c && c + n <= |t| && Search(t, Node(i, l, r), n) && Below(t, c, i, n)
    requires Search(t, b, n) && Nodes(a) + Nodes(b) <= Nodes(l) && Nodes(a) !! Nodes(b) && AllAbove(t, b, c, n)
    ensures Search(t, Node(i, b, r), n) && AllAbove(t, Node(i, b, r), c, n)
    ensures Nodes(a) !! Nodes(Node(i, b, r))
  {
    hide Below;
    AboveAll(t, r, i, c, n);
  }

  lemma {:induction false} SplitSearch(t: seq<byte>, s: Tree, c: nat, n: nat, cut: nat)
    requires c + n <= |t| && Older(s, c) && Search(t, s, n)
    ensures var (a, b) := Split(t, s, c, n, cut);
            && Search(t, a, n) && Search(t, b, n) && Nodes(a) !! Nodes(b)
            && AllBelow(t, a, c, n) && AllAbove(t, b, c, n)
    decreases s
  {
    hide Below, Lcp, Smaller, Older, AllBelow, AllAbove;
    match s
    case Leaf =>
      NoNodes(t, c, n);
    case Node(i, l, r) =>
      OlderParts(s, c);
      SmallerBelow(t, i, c, n);
      if cut == 0 {
        NoNodes(t, c, n);
      } else if Lcp(t, i, c, n) == n {
        EqualBelow(t, i, c, n);
        BelowAll(t, l, i, c, n);
        AboveAll(t, r, i, c, n);
      } else if Smaller(t, i, c, n) {
        SplitSearch(t, r, c, n, cut - 1);
        var (a, b) := Split(t, r, c, n, cut - 1);
        LeftPart(t, i, l, r, a, b, c, n);
      } else {
        SplitSearch(t, l, c, n, cut - 1);
        var (a, b) := Split(t, l, c, n, cut - 1);
        RightPart(t, i, l, r, a, b, c, n);
      }
  }

  lemma {:induction false} NoNodes(t: seq<byte>, c: nat, n: nat)
    requires c + n <= |t|
    ensures AllBelow(t, Leaf, c, n) && AllAbove(t, Leaf, c, n)
  {
  }

  lemma {:induction false} EqualBelow(t: seq<byte>, i: nat, c: nat, n: nat)
    requires i + n <= |t| && c + n <= |t| && Lcp(t, i, c, n) == n
    ensures Below(t, i, c, n) && Below(t, c, i, n)
  {
    LcpSymmetric(t, i, c, n);
  }

  lemma {:induction false} SmallerBelow(t: seq<byte>, i: nat, c: nat, n: nat)
    requires i + n <= |t| && c + n <= |t|
    ensures Smaller(t, i, c, n) ==> Below(t, i, c, n)
    ensures !Smaller(t, i, c, n) ==> Below(t, c, i, n)
  {
    LcpAgrees(t, i, c, n);
    LcpSymmetric(t, i, c, n);
  }

  /** Re-rooting at the new suffix gives a search tree again. */
  lemma {:induction false} Reroot(t: seq<byte>, s: Tree, c: nat, n: nat, cut: nat)
    requires c + n <= |t| && Older(s, c) && Search(t, s, n)
    ensures var (a, b) := Split(t, s, c, n, cut); Search(t, Node(c, a, b), n)
  {
    hide Split, Below;
    SplitSearch(t, s, c, n, cut);
  }

  /** A tree ordered by n bytes is ordered by fewer. */
  lemma {:induction false} SearchShorter(t: seq<byte>, s: Tree, n: nat, m: nat)
    requires m <= n && Search(t, s, n)
    ensures Search(t, s, m)
    decreases s
  {
    hide Below;
    match s
    case Leaf =>
    case Node(i, l, r) =>
      SearchShorter(t, l, n, m);
      SearchShorter(t, r, n, m);
      forall q | q in Nodes(l) ensures Below(t, q, i, m) {
        BelowShorter(t, q, i, n, m);
      }
      forall q | q in Nodes(r) ensures Below(t, i, q, m) {
        BelowShorter(t, i, q, n, m);
      }
  }

  // ----- what a search finds -----

  ghost predicate Real(t: seq<byte>, c: nat, n: nat, p: Pair) {
    && p.len <= n && c + n <= |t| && p.dist < c
    && forall j :: 0 <= j < p.len ==> At(t, c, j) == At(t, c - 1 - p.dist, j)
  }

  /** Every pair is a repeat, and lengths increase strictly, from more than maxLen on. */
  ghost predicate Rising(found: seq<Pair>, maxLen: nat) {
    && (forall k :: 0 <= k < |found| ==> maxLen < found[k].len)
    && (forall j, k :: 0 <= j < k < |found| ==> found[j].len < found[k].len)
  }

  /** Every pair is a repeat from a node of s. */
  ghost predicate AllReal(t: seq<byte>, s: Tree, c: nat, n: nat, found: seq<Pair>) {
    forall k :: 0 <= k < |found| ==> Real(t, c, n, found[k]) && c - 1 - found[k].dist in Nodes(s)
  }

  lemma {:induction false} Prepend(t: seq<byte>, s: Tree, u: Tree, c: nat, n: nat, maxLen: nat, p: Pair, rest: seq<Pair>)
    requires Real(t, c, n, p) && c - 1 - p.dist in Nodes(s) && Nodes(u) <= Nodes(s) && maxLen < p.len
    requires AllReal(t, u, c, n, rest) && Rising(rest, p.len)
    ensures AllReal(t, s, c, n, [p] + rest) && Rising([p] + rest, maxLen)
  {
    hide Real, Nodes;
    var all := [p] + rest;
    assert forall k :: 0 < k < |all| ==> all[k] == rest[k - 1];
  }

  lemma {:induction false} NodeReal(t: seq<byte>, i: nat, c: nat, n: nat)
    requires c + n <= |t| && i < c
    ensures Real(t, c, n, Pair(Lcp(t, i, c, n), c - i - 1))
  {
    hide Lcp;
    LcpAgrees(t, i, c, n);
  }

  lemma {:induction false} WalkNode(t: seq<byte>, s: Tree, c: nat, n: nat, cut: nat, maxLen: nat)
    requires c + n <= |t| && Older(s, c) && s.Node? && cut > 0
    ensures s.at < c && Older(s.left, c) && Older(s.right, c)
    ensures var len := Lcp(t, s.at, c, n);
            var longest := if maxLen < len then len else maxLen;
            var rest := if len == n then []
                        else Walk(t, if Smaller(t, s.at, c, n) then s.right else s.left, c, n, cut - 1, longest);
            Walk(t, s, c, n, cut, maxLen) == if maxLen < len then [Pair(len, c - s.at - 1)] + rest else rest
  {
    hide Lcp, Smaller, Older;
    OlderParts(s, c);
  }

  lemma {:induction false} WalkReal(t: seq<byte>, s: Tree, c: nat, n: nat, cut: nat, maxLen: nat)
    requires c + n <= |t| && Older(s, c)
    ensures var w := Walk(t, s, c, n, cut, maxLen); AllReal(t, s, c, n, w) && Rising(w, maxLen)
    decreases s
  {
    hide Lcp, Real, Smaller, Older;
    if s.Node? && cut > 0 {
      hide Walk;
      WalkNode(t, s, c, n, cut, maxLen);
      var len := Lcp(t, s.at, c, n);
      var longest := if maxLen < len then len else maxLen;
      var child := if Smaller(t, s.at, c, n) then s.right else s.left;
      var rest := if len == n then [] else Walk(t, child, c, n, cut - 1, longest);
      if len < n {
        WalkReal(t, child, c, n, cut - 1, longest);
      }
      ChildReal(t, s, child, c, n, rest);
      if maxLen < len {
        NodeReal(t, s.at, c, n);
        Prepend(t, s, child, c, n, maxLen, Pair(len, c - s.at - 1), rest);
      }
    }
  }

  lemma {:induction false} ChildReal(t: seq<byte>, s: Tree, child: Tree, c: nat, n: nat, rest: seq<Pair>)
    requires s.Node? && (child == s.left || child == s.right)
    requires AllReal(t, child, c, n, rest)
    ensures AllReal(t, s, c, n, rest) && s.at in Nodes(s) && Nodes(child) <= Nodes(s)
  {
    hide Real;
  }

  /** In a search tree the way to c meets the longest repeat there is in the tree. */
  lemma {:induction false} WalkLongest(t: seq<byte>, s: Tree, c: nat, n: nat, cut: nat, maxLen: nat, q: nat)
    requires c + n <= |t| && Older(s, c) && Search(t, s, n) && PathLength(t, s, c, n) <= cut
    requires q in Nodes(s)
    ensures Lcp(t, q, c, n) <= Best(Walk(t, s, c, n, cut, maxLen), maxLen)
    decreases s
  {
    hide Lcp, Below, Walk, Smaller, AllBelow, AllAbove, Real, AllReal;
    WalkNode(t, s, c, n, cut, maxLen);
    var len := Lcp(t, s.at, c, n);
    var longest := if maxLen < len then len else maxLen;
    if len < n {
      var child := if Smaller(t, s.at, c, n) then s.right else s.left;
      var rest := Walk(t, child, c, n, cut - 1, longest);
      WalkReal(t, child, c, n, cut - 1, longest);
      assert longest <= Best(rest, longest) == Best(Walk(t, s, c, n, cut, maxLen), maxLen);
      if q in Nodes(child) {
        WalkLongest(t, child, c, n, cut - 1, longest, q);
      } else if q != s.at {
        OtherSide(t, s, c, n, q);
      }
    }
  }

  /** What is not on the way shares no more with c than the node where the way parted from it. */
  lemma {:induction false} OtherSide(t: seq<byte>, s: Tree, c: nat, n: nat, q: nat)
    requires s.Node? && s.at + n <= |t| && c + n <= |t| && Search(t, s, n) && s.at < c
    requires q in Nodes(if Smaller(t, s.at, c, n) then s.left else s.right)
    ensures q < c && Lcp(t, q, c, n) <= Lcp(t, s.at, c, n)
  {
    hide Lcp, Below, Smaller;
    SmallerBelow(t, s.at, c, n);
    if Smaller(t, s.at, c, n) {
      Sandwich(t, q, s.at, c, n);
    } else {
      Sandwich(t, c, s.at, q, n);
      LcpSymmetric(t, c, q, n);
      LcpSymmetric(t, c, s.at, n);
    }
  }

  // ----- completeness -----

  /** Some node not older than q stands for it. */
  ghost predicate Covers(t: seq<byte>, nodes: set<nat>, q: nat, n: nat)
    requires q + n <= |t|
  {
    exists p :: p in nodes && q <= p && p + n <= |t| && Lcp(t, p, q, n) == n
  }

  /** A search that ran to its end drops only a node that the new one stands for. */
  lemma {:induction false} SplitKeeps(t: seq<byte>, s: Tree, c: nat, n: nat, cut: nat, q: nat)
    requires c + n <= |t| && Older(s, c) && PathLength(t, s, c, n) <= cut && q in Nodes(s)
    ensures var (a, b) := Split(t, s, c, n, cut);
            q in Nodes(a) || q in Nodes(b) || (q + n <= |t| && Lcp(t, q, c, n) == n)
    decreases s
  {
    hide Lcp;
    var Node(i, l, r) := s;
    if Lcp(t, i, c, n) < n {
      var child := if Smaller(t, i, c, n) then r else l;
      if q in Nodes(child) {
        SplitKeeps(t, child, c, n, cut - 1, q);
      }
    }
  }

  /** Positions drop along a search, so that it cannot take longer than the window is. */
  lemma {:induction false} PathBound(t: seq<byte>, s: Tree, c: nat, n: nat, lo: nat)
    requires c + n <= |t| && Older(s, c) && Search(t, s, n) && forall q :: q in Nodes(s) ==> lo <= q
    ensures s.Node? ==> lo <= s.at && PathLength(t, s, c, n) <= s.at + 1 - lo
    decreases s
  {
    hide Lcp, Below, Smaller;
    if s.Node? {
      OlderParts(s, c);
      assert s.at in Nodes(s) && Nodes(s.left) <= Nodes(s) && Nodes(s.right) <= Nodes(s);
      PathBound(t, s.left, c, n, lo);
      PathBound(t, s.right, c, n, lo);
      if s.left.Node? {
        assert s.left.at in Nodes(s.left);
      }
      if s.right.Node? {
        assert s.right.at in Nodes(s.right);
      }
    }
  }

  lemma {:induction false} EqualChain(t: seq<byte>, p: nat, q: nat, c: nat, n: nat)
    requires p + n <= |t| && q + n <= |t| && c + n <= |t|
    requires Lcp(t, p, q, n) == n
    ensures Lcp(t, q, c, n) == Lcp(t, p, c, n)
  {
    LcpAgrees(t, p, q, n);
    LcpAgrees(t, p, c, n);
    var k := Lcp(t, p, c, n);
    forall j {:trigger At(t, q, j)} | 0 <= j < k
      ensures At(t, q, j) == At(t, c, j)
    {
      assert At(t, p, j) == At(t, q, j) && At(t, p, j) == At(t, c, j);
    }
    if k < n {
      assert At(t, p, k) == At(t, q, k);
    }
    LcpIs(t, q, c, n, k);
  }

  /** After a complete search everything that was covered, and c itself, is covered. */
  lemma {:induction false} CoverKept(t: seq<byte>, s: Tree, c: nat, n: nat, cut: nat, q: nat)
    requires c + n <= |t| && Older(s, c) && PathLength(t, s, c, n) <= cut && q <= c
    requires q == c || Covers(t, Nodes(s), q, n)
    ensures var (a, b) := Split(t, s, c, n, cut); Covers(t, Nodes(Node(c, a, b)), q, n)
  {
    hide Lcp;
    var (a, b) := Split(t, s, c, n, cut);
    var all := Nodes(Node(c, a, b));
    assert c in all;
    if q == c {
      LcpIs(t, c, c, n, n);
    } else {
      var p :| p in Nodes(s) && q <= p && p + n <= |t| && Lcp(t, p, q, n) == n;
      SplitKeeps(t, s, c, n, cut, p);
      if p in Nodes(a) || p in Nodes(b) {
        assert p in all;
      } else {
        EqualChain(t, p, q, c, n);
        LcpSymmetric(t, q, c, n);
      }
    }
  }

  lemma {:induction false} CoverShorter(t: seq<byte>, nodes: set<nat>, q: nat, n: nat, m: nat)
    requires q + n <= |t| && m <= n && Covers(t, nodes, q, n)
    ensures Covers(t, nodes, q, m)
  {
    var p :| p in nodes && q <= p && p + n <= |t| && Lcp(t, p, q, n) == n;
    LcpShorter(t, p, q, n, m);
  }

  /** A complete search finds a repeat as long as any that is covered. */
  lemma {:induction false} FindsLongest(t: seq<byte>, s: Tree, c: nat, n: nat, cut: nat, maxLen: nat, q: nat)
    requires c + n <= |t| && Older(s, c) && Search(t, s, n) && PathLength(t, s, c, n) <= cut
    requires q < c && Covers(t, Nodes(s), q, n)
    ensures Lcp(t, q, c, n) <= Best(Walk(t, s, c, n, cut, maxLen), maxLen)
  {
    hide Lcp;
    var p :| p in Nodes(s) && q <= p && p + n <= |t| && Lcp(t, p, q, n) == n;
    EqualChain(t, p, q, c, n);
    WalkLongest(t, s, c, n, cut, maxLen, p);
  }

  // ----- the window moves on -----

  /** Nodes older than oldest, and with them all below them, drop out. */
  function Prune(s: Tree, oldest: nat): Tree {
    match s
    case Leaf => Leaf
    case Node(i, l, r) => if i < oldest then Leaf else Node(i, Prune(l, oldest), Prune(r, oldest))
  }

  lemma {:induction false} PruneNodes(t: seq<byte>, s: Tree, n: nat, oldest: nat)
    requires Search(t, s, n)
    ensures forall q :: q in Nodes(Prune(s, oldest)) <==> q in Nodes(s) && q >= oldest
    decreases s
  {
    hide Below;
    match s
    case Leaf =>
    case Node(i, l, r) =>
      PruneNodes(t, l, n, oldest);
      PruneNodes(t, r, n, oldest);
  }

  lemma {:induction false} PruneSearch(t: seq<byte>, s: Tree, n: nat, oldest: nat)
    requires Search(t, s, n)
    ensures Search(t, Prune(s, oldest), n)
    decreases s
  {
    hide Below;
    match s
    case Leaf =>
    case Node(i, l, r) =>
      PruneSearch(t, l, n, oldest);
      PruneSearch(t, r, n, oldest);
      PruneNodes(t, l, n, oldest);
      PruneNodes(t, r, n, oldest);
  }

  lemma {:induction false} PruneCovers(t: seq<byte>, s: Tree, n: nat, oldest: nat, q: nat)
    requires Search(t, s, n) && oldest <= q && q + n <= |t| && Covers(t, Nodes(s), q, n)
    ensures Covers(t, Nodes(Prune(s, oldest)), q, n)
  {
    hide Lcp, Search, Prune, Nodes;
    PruneNodes(t, s, n, oldest);
    var p :| p in Nodes(s) && q <= p && p + n <= |t| && Lcp(t, p, q, n) == n;
    assert p in Nodes(Prune(s, oldest));
  }
}
