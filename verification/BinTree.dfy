/**
 * The trees of the match finder in its array of sons: slot i % size of the cyclic buffer holds the
 * two links of the node at text position i, first the smaller side. A link is a 32-bit position;
 * what lies size or more positions back counts as empty.
 */
module BinTree {
  import opened Bytes
  import opened Suffixes
  import opened SuffixTree

  const EMPTY_HASH_VALUE: word := 0

  /** The current place: its text position, its number in links, and the size of the cyclic buffer. */
  datatype Place = Place(cur: nat, pos: word, size: nat)

  ghost predicate PlaceOk(w: Place) {
    1 <= w.size <= w.pos
  }

  /** Cell of the first link of the node at i. */
  function Cell(i: nat, size: nat): nat
    requires size > 0
  {
    2 * (i % size)
  }

  /** Link v, read at place w, is the root of tree s. */
  ghost predicate Rep(son: seq<word>, w: Place, v: word, s: Tree)
    requires PlaceOk(w) && |son| == 2 * w.size
    decreases s
  {
    match s
    case Leaf => v <= w.pos - w.size
    case Node(i, l, r) =>
      && i < w.cur < i + w.size && v == w.pos - (w.cur - i)
      && Rep(son, w, son[Cell(i, w.size)], l) && Rep(son, w, son[Cell(i, w.size) + 1], r)
  }

  lemma {:induction false} ModStep(i: nat, d: nat, size: nat)
    requires 0 < d < size
    ensures (i + d) % size == i % size + d - if i % size + d < size then 0 else size
  {
    var q, r := i / size, i % size;
    if r + d < size {
      DivUnique(i + d, size, q, r + d);
    } else {
      assert (q + 1) * size == q * size + size;
      DivUnique(i + d, size, q + 1, r + d - size);
    }
  }

  /** Two different positions of one window have different slots. */
  lemma {:induction false} SlotsDiffer(i: nat, j: nat, size: nat)
    requires size > 0 && i != j && i < j + size && j < i + size
    ensures Cell(i, size) != Cell(j, size) && Cell(i, size) != Cell(j, size) + 1 && Cell(i, size) + 1 != Cell(j, size)
  {
    if i < j {
      ModStep(i, j - i, size);
    } else {
      ModStep(j, i - j, size);
    }
  }

  lemma {:induction false} CellFits(i: nat, size: nat)
    requires size > 0
    ensures Cell(i, size) + 1 < 2 * size
  {
  }

  /** The slot of a node delta positions back, as the code computes it from that of cur. */
  lemma {:induction false} SlotBack(cur: nat, delta: nat, size: nat)
    requires 0 < delta < size && delta <= cur
    ensures (cur - delta) % size == cur % size - delta + if delta > cur % size then size else 0
  {
    ModStep(cur - delta, delta, size);
  }

  /** Cell k is a link of a node of s. */
  ghost predicate Owned(s: Tree, size: nat, k: nat)
    requires size > 0
  {
    exists i :: i in Nodes(s) && (k == Cell(i, size) || k == Cell(i, size) + 1)
  }

  /** A tree is not disturbed by changes outside its own cells. */
  lemma {:induction false} RepFrame(son: seq<word>, son2: seq<word>, w: Place, v: word, s: Tree)
    requires PlaceOk(w) && |son| == |son2| == 2 * w.size && Rep(son, w, v, s)
    requires forall i :: i in Nodes(s) ==>
                           && Cell(i, w.size) + 1 < 2 * w.size
                           && son2[Cell(i, w.size)] == son[Cell(i, w.size)]
                           && son2[Cell(i, w.size) + 1] == son[Cell(i, w.size) + 1]
    ensures Rep(son2, w, v, s)
    decreases s
  {
    hide Cell;
    match s
    case Leaf =>
    case Node(i, l, r) =>
      assert i in Nodes(s) && Nodes(l) <= Nodes(s) && Nodes(r) <= Nodes(s);
      RepFrame(son, son2, w, son[Cell(i, w.size)], l);
      RepFrame(son, son2, w, son[Cell(i, w.size) + 1], r);
  }

  /** All nodes of a tree are in the window. */
  lemma {:induction false} RepInWindow(son: seq<word>, w: Place, v: word, s: Tree)
    requires PlaceOk(w) && |son| == 2 * w.size && Rep(son, w, v, s)
    ensures Older(s, w.cur) && forall i :: i in Nodes(s) ==> w.cur < i + w.size
    decreases s
  {
    match s
    case Leaf =>
    case Node(i, l, r) =>
      RepInWindow(son, w, son[Cell(i, w.size)], l);
      RepInWindow(son, w, son[Cell(i, w.size) + 1], r);
  }

  // ----- the links after a search -----

  /** What a search for the suffix at w.cur, from link v on, makes of the array: ptr1 and ptr0 are
      the cells where the next smaller and the next larger part belong. */
  function Relink(t: seq<byte>, son: seq<word>, w: Place, v: word, ptr0: nat, ptr1: nat, n: nat, cut: nat): (r: seq<word>)
    requires 1 <= w.size && |son| == 2 * w.size && ptr0 < |son| && ptr1 < |son|
    ensures |r| == |son|
    decreases cut
  {
    var delta := w.pos - v;
    if cut == 0 || delta >= w.size || delta > w.cur || delta <= 0 || w.cur + n > |t| then
      son[ptr1 := EMPTY_HASH_VALUE][ptr0 := EMPTY_HASH_VALUE]
    else
      var i := w.cur - delta;
      var pair := Cell(i, w.size);
      if Lcp(t, i, w.cur, n) == n then
        var s1 := son[ptr1 := son[pair]];
        s1[ptr0 := s1[pair + 1]]
      else if Smaller(t, i, w.cur, n) then
        var s1 := son[ptr1 := v];
        Relink(t, s1, w, s1[pair + 1], ptr0, pair + 1, n, cut - 1)
      else
        var s1 := son[ptr0 := v];
        Relink(t, s1, w, s1[pair], pair, ptr1, n, cut - 1)
  }

  ghost predicate InWindow(s: Tree, w: Place) {
    forall i :: i in Nodes(s) ==> i < w.cur < i + w.size
  }

  lemma {:induction false} OwnCells(s: Tree, size: nat, i: nat)
    requires size > 0 && i in Nodes(s)
    ensures Owned(s, size, Cell(i, size)) && Owned(s, size, Cell(i, size) + 1)
  {
  }

  /** Trees without common nodes have no common cells. */
  lemma {:induction false} CellsApart(a: Tree, b: Tree, w: Place, k: nat)
    requires w.size > 0 && InWindow(a, w) && InWindow(b, w) && Nodes(a) !! Nodes(b)
    ensures !(Owned(a, w.size, k) && Owned(b, w.size, k))
  {
    hide Cell, Nodes;
    if Owned(a, w.size, k) && Owned(b, w.size, k) {
      var i :| i in Nodes(a) && (k == Cell(i, w.size) || k == Cell(i, w.size) + 1);
      var j :| j in Nodes(b) && (k == Cell(j, w.size) || k == Cell(j, w.size) + 1);
      SlotsDiffer(i, j, w.size);
    }
  }

  /** The same array except in cells of s, ptr0 and ptr1. */
  ghost predicate Touched(son: seq<word>, r: seq<word>, size: nat, s: Tree, ptr0: nat, ptr1: nat)
    requires size > 0
  {
    && |r| == |son| == 2 * size
    && forall k :: 0 <= k < |son| && k != ptr0 && k != ptr1 && !Owned(s, size, k) ==> r[k] == son[k]
  }

  lemma {:induction false} RepKept(son: seq<word>, r: seq<word>, w: Place, v: word, s: Tree, u: Tree, ptr0: nat, ptr1: nat)
    requires PlaceOk(w) && |son| == 2 * w.size && Touched(son, r, w.size, u, ptr0, ptr1)
    requires Rep(son, w, v, s) && InWindow(u, w) && Nodes(s) !! Nodes(u)
    requires !Owned(s, w.size, ptr0) && !Owned(s, w.size, ptr1)
    ensures Rep(r, w, v, s)
  {
    hide Cell, Rep, Nodes, Owned;
    RepInWindow(son, w, v, s);
    forall i | i in Nodes(s)
      ensures Cell(i, w.size) + 1 < 2 * w.size
      ensures r[Cell(i, w.size)] == son[Cell(i, w.size)] && r[Cell(i, w.size) + 1] == son[Cell(i, w.size) + 1]
    {
      CellFits(i, w.size);
      OwnCells(s, w.size, i);
      CellsApart(s, u, w, Cell(i, w.size));
      CellsApart(s, u, w, Cell(i, w.size) + 1);
    }
    RepFrame(son, r, w, v, s);
  }

  lemma {:induction false} RepNode(son: seq<word>, w: Place, v: word, s: Tree)
    requires PlaceOk(w) && |son| == 2 * w.size && Rep(son, w, v, s)
    ensures s.Leaf? <==> w.pos - v >= w.size
    ensures s.Node? ==>
              var pair := Cell(s.at, w.size);
              && 0 < w.pos - v < w.size && w.pos - v <= w.cur && s.at == w.cur - (w.pos - v)
              && pair + 1 < |son|
              && Rep(son, w, son[pair], s.left) && Rep(son, w, son[pair + 1], s.right)
    ensures InWindow(s, w)
  {
    RepInWindow(son, w, v, s);
  }

  /** A node with new links. */
  lemma {:induction false} Relinked(son: seq<word>, w: Place, v: word, i: nat, a: Tree, b: Tree)
    requires PlaceOk(w) && |son| == 2 * w.size && i < w.cur < i + w.size && v == w.pos - (w.cur - i)
    requires Cell(i, w.size) + 1 < |son|
    requires Rep(son, w, son[Cell(i, w.size)], a) && Rep(son, w, son[Cell(i, w.size) + 1], b)
    ensures Rep(son, w, v, Node(i, a, b))
  {
  }

  lemma {:induction false} Apart(s: Tree, w: Place, t: seq<byte>, n: nat)
    requires s.Node? && w.size > 0 && Search(t, s, n) && InWindow(s, w)
    ensures var pair := Cell(s.at, w.size);
            && Owned(s, w.size, pair) && Owned(s, w.size, pair + 1)
            && !Owned(s.left, w.size, pair) && !Owned(s.left, w.size, pair + 1)
            && !Owned(s.right, w.size, pair) && !Owned(s.right, w.size, pair + 1)
            && Nodes(s.left) !! Nodes(s.right) && Nodes(s.left) <= Nodes(s) && Nodes(s.right) <= Nodes(s)
            && Search(t, s.left, n) && Search(t, s.right, n) && InWindow(s.left, w) && InWindow(s.right, w)
            && s.at + n <= |t|
  {
    hide Cell;
    assert s.at in Nodes(s);
    forall i | i in Nodes(s.left) + Nodes(s.right)
      ensures i != s.at
    {
    }
    OwnCells(s, w.size, s.at);
    var me := Node(s.at, Leaf, Leaf);
    OwnCells(me, w.size, s.at);
    CellsApart(me, s.left, w, Cell(s.at, w.size));
    CellsApart(me, s.left, w, Cell(s.at, w.size) + 1);
    CellsApart(me, s.right, w, Cell(s.at, w.size));
    CellsApart(me, s.right, w, Cell(s.at, w.size) + 1);
  }

  lemma {:induction false} NotOwnedParts(s: Tree, size: nat, k: nat)
    requires size > 0 && s.Node? && !Owned(s, size, k)
    ensures !Owned(s.left, size, k) && !Owned(s.right, size, k)
  {
    hide Cell;
  }

  lemma {:induction false} NoCells(size: nat, w: Place)
    requires size > 0
    ensures InWindow(Leaf, w) && Nodes(Leaf) == {} && forall k :: !Owned(Leaf, size, k)
  {
  }

  /** Two cells outside a tree are overwritten. */
  lemma {:induction false} RepOverwritten(son: seq<word>, w: Place, v: word, s: Tree, p: nat, x: word, q: nat, y: word)
    requires PlaceOk(w) && |son| == 2 * w.size && Rep(son, w, v, s) && p < |son| && q < |son|
    requires !Owned(s, w.size, p) && !Owned(s, w.size, q)
    ensures Rep(son[p := x][q := y], w, v, s)
  {
    hide Rep, Owned, Nodes;
    NoCells(w.size, w);
    RepKept(son, son[p := x][q := y], w, v, s, Leaf, p, q);
  }

  lemma {:induction false} EmptyReps(son: seq<word>, w: Place)
    requires PlaceOk(w) && |son| == 2 * w.size
    ensures Rep(son, w, EMPTY_HASH_VALUE, Leaf)
  {
  }

  /** The node i of s keeps its left part and gets a as its right one; ptr1 points to it. */
  lemma {:induction false} AfterRight(t: seq<byte>, son: seq<word>, r: seq<word>, w: Place, v: word, ptr0: nat, ptr1: nat, n: nat,
                                      s: Tree, a: Tree)
    requires PlaceOk(w) && |son| == 2 * w.size && s.Node? && Rep(son, w, v, s) && Search(t, s, n)
    requires ptr0 != ptr1 && ptr0 < |son| && ptr1 < |son| && !Owned(s, w.size, ptr0) && !Owned(s, w.size, ptr1)
    requires Cell(s.at, w.size) + 1 < |son|
    requires Touched(son[ptr1 := v], r, w.size, s.right, ptr0, Cell(s.at, w.size) + 1)
    requires Rep(r, w, r[Cell(s.at, w.size) + 1], a)
    ensures Rep(r, w, r[ptr1], Node(s.at, s.left, a)) && Touched(son, r, w.size, s, ptr0, ptr1)
  {
    hide Cell, Rep, Owned, Search, Nodes;
    RepNode(son, w, v, s);
    Apart(s, w, t, n);
    NotOwnedParts(s, w.size, ptr0);
    NotOwnedParts(s, w.size, ptr1);
    var pair := Cell(s.at, w.size);
    var s1 := son[ptr1 := v];
    RepOverwritten(son, w, son[pair], s.left, ptr1, v, ptr1, v);
    assert s1[ptr1 := v] == s1;
    RepKept(s1, r, w, son[pair], s.left, s.right, ptr0, pair + 1);
    assert r[pair] == son[pair];
    Relinked(r, w, v, s.at, s.left, a);
    forall k | 0 <= k < |son| && k != ptr0 && k != ptr1 && !Owned(s, w.size, k)
      ensures r[k] == son[k]
    {
      NotOwnedParts(s, w.size, k);
    }
  }

  lemma {:induction false} AfterLeft(t: seq<byte>, son: seq<word>, r: seq<word>, w: Place, v: word, ptr0: nat, ptr1: nat, n: nat,
                                     s: Tree, b: Tree)
    requires PlaceOk(w) && |son| == 2 * w.size && s.Node? && Rep(son, w, v, s) && Search(t, s, n)
    requires ptr0 != ptr1 && ptr0 < |son| && ptr1 < |son| && !Owned(s, w.size, ptr0) && !Owned(s, w.size, ptr1)
    requires Cell(s.at, w.size) + 1 < |son|
    requires Touched(son[ptr0 := v], r, w.size, s.left, Cell(s.at, w.size), ptr1)
    requires Rep(r, w, r[Cell(s.at, w.size)], b)
    ensures Rep(r, w, r[ptr0], Node(s.at, b, s.right)) && Touched(son, r, w.size, s, ptr0, ptr1)
  {
    hide Cell, Rep, Owned, Search, Nodes;
    RepNode(son, w, v, s);
    Apart(s, w, t, n);
    NotOwnedParts(s, w.size, ptr0);
    NotOwnedParts(s, w.size, ptr1);
    var pair := Cell(s.at, w.size);
    var s1 := son[ptr0 := v];
    RepOverwritten(son, w, son[pair + 1], s.right, ptr0, v, ptr0, v);
    assert s1[ptr0 := v] == s1;
    RepKept(s1, r, w, son[pair + 1], s.right, s.left, pair, ptr1);
    assert r[pair + 1] == son[pair + 1];
    Relinked(r, w, v, s.at, b, s.right);
    forall k | 0 <= k < |son| && k != ptr0 && k != ptr1 && !Owned(s, w.size, k)
      ensures r[k] == son[k]
    {
      NotOwnedParts(s, w.size, k);
    }
  }

  /** The links after a search represent the two parts of the split tree, and nothing outside the
      tree and the two given cells is changed. */
  lemma {:induction false} RelinkRep(t: seq<byte>, son: seq<word>, w: Place, v: word, ptr0: nat, ptr1: nat, n: nat, cut: nat, s: Tree)
    requires PlaceOk(w) && |son| == 2 * w.size && w.cur + n <= |t|
    requires Rep(son, w, v, s) && Search(t, s, n) && Older(s, w.cur)
    requires ptr0 != ptr1 && ptr0 < |son| && ptr1 < |son| && !Owned(s, w.size, ptr0) && !Owned(s, w.size, ptr1)
    ensures var r := Relink(t, son, w, v, ptr0, ptr1, n, cut);
            var (a, b) := Split(t, s, w.cur, n, cut);
            && Rep(r, w, r[ptr1], a) && Rep(r, w, r[ptr0], b)
            && Touched(son, r, w.size, s, ptr0, ptr1)
    decreases cut
  {
    hide Cell, Rep, Owned, Lcp, Smaller, Search, Nodes;
    RepNode(son, w, v, s);
    if s.Leaf? || cut == 0 {
      EmptyReps(Relink(t, son, w, v, ptr0, ptr1, n, cut), w);
    } else {
      Apart(s, w, t, n);
      OlderParts(s, w.cur);
      NotOwnedParts(s, w.size, ptr0);
      NotOwnedParts(s, w.size, ptr1);
      var i := s.at;
      var pair := Cell(i, w.size);
      if Lcp(t, i, w.cur, n) == n {
        RepOverwritten(son, w, son[pair], s.left, ptr1, son[pair], ptr0, son[pair + 1]);
        RepOverwritten(son, w, son[pair + 1], s.right, ptr1, son[pair], ptr0, son[pair + 1]);
      } else if Smaller(t, i, w.cur, n) {
        RepOverwritten(son, w, son[pair + 1], s.right, ptr1, v, ptr1, v);
        var s1 := son[ptr1 := v];
        assert s1[ptr1 := v] == s1;
        RelinkRep(t, s1, w, s1[pair + 1], ptr0, pair + 1, n, cut - 1, s.right);
        AfterRight(t, son, Relink(t, s1, w, s1[pair + 1], ptr0, pair + 1, n, cut - 1), w, v, ptr0, ptr1, n, s,
          Split(t, s.right, w.cur, n, cut - 1).0);
      } else {
        RepOverwritten(son, w, son[pair], s.left, ptr0, v, ptr0, v);
        var s1 := son[ptr0 := v];
        assert s1[ptr0 := v] == s1;
        RelinkRep(t, s1, w, s1[pair], pair, ptr1, n, cut - 1, s.left);
        AfterLeft(t, son, Relink(t, s1, w, s1[pair], pair, ptr1, n, cut - 1), w, v, ptr0, ptr1, n, s,
          Split(t, s.left, w.cur, n, cut - 1).1);
      }
    }
  }

  // ----- the searches -----

  /** Where len1 (len0) is not 0, it is the common prefix with a suffix not above (not below) any in
      s. */
  ghost predicate Bounded(t: seq<byte>, s: Tree, c: nat, n: nat, len0: nat, len1: nat, hi: nat, lo: nat)
    requires c + n <= |t| && Older(s, c)
  {
    && (len1 > 0 ==> && lo + n <= |t| && Below(t, lo, c, n) && Lcp(t, lo, c, n) == len1
                     && forall q :: q in Nodes(s) ==> Below(t, lo, q, n))
    && (len0 > 0 ==> && hi + n <= |t| && Below(t, c, hi, n) && Lcp(t, hi, c, n) == len0
                     && forall q :: q in Nodes(s) ==> Below(t, q, hi, n))
  }

  function Min(a: nat, b: nat): nat {
    if a < b then a else b
  }

  /** Why a comparison may start at the less of the two lengths. */
  lemma {:induction false} SharedPrefix(t: seq<byte>, s: Tree, c: nat, n: nat, len0: nat, len1: nat, hi: nat, lo: nat, q: nat)
    requires c + n <= |t| && Older(s, c) && Bounded(t, s, c, n, len0, len1, hi, lo) && q in Nodes(s)
    ensures Lcp(t, q, c, n) >= Min(len0, len1)
  {
    hide Lcp, Below, Nodes;
    if len0 > 0 && len1 > 0 {
      Between(t, lo, q, hi, c, n);
    }
  }

  lemma {:induction false} BoundedRight(t: seq<byte>, s: Tree, c: nat, n: nat, len0: nat, len1: nat, hi: nat, lo: nat)
    requires c + n <= |t| && Older(s, c) && Bounded(t, s, c, n, len0, len1, hi, lo) && s.Node? && Search(t, s, n)
    requires Older(s.right, c) && s.at + n <= |t| && Smaller(t, s.at, c, n)
    ensures Bounded(t, s.right, c, n, len0, Lcp(t, s.at, c, n), hi, s.at)
  {
    hide Lcp, Below;
    SmallerBelow(t, s.at, c, n);
    assert Nodes(s.right) <= Nodes(s);
  }

  lemma {:induction false} BoundedLeft(t: seq<byte>, s: Tree, c: nat, n: nat, len0: nat, len1: nat, hi: nat, lo: nat)
    requires c + n <= |t| && Older(s, c) && Bounded(t, s, c, n, len0, len1, hi, lo) && s.Node? && Search(t, s, n)
    requires Older(s.left, c) && s.at + n <= |t| && !Smaller(t, s.at, c, n)
    ensures Bounded(t, s.left, c, n, Lcp(t, s.at, c, n), len1, s.at, lo)
  {
    hide Lcp, Below;
    SmallerBelow(t, s.at, c, n);
    assert Nodes(s.left) <= Nodes(s);
  }

  /** Byte j of the stream is in the buffer, where position cur is at index buffer. */
  ghost predicate Held(block: seq<byte>, buffer: nat, t: seq<byte>, cur: nat, j: nat) {
    j < |t| && 0 <= buffer + j - cur < |block| && block[buffer + j - cur] == t[j]
  }

  /** The buffer holds the stream around cur: what lies less than size bytes back and less than
      ahead bytes on. */
  ghost predicate Mirrors(block: seq<byte>, buffer: nat, t: seq<byte>, cur: nat, size: nat, ahead: nat) {
    cur + ahead <= |t| && forall j :: 0 <= j && cur < j + size && j < cur + ahead ==> Held(block, buffer, t, cur, j)
  }

  /** pb[len] and cur[len], with pb delta bytes back. */
  method Peek(buf: array<byte>, buffer: nat, delta: nat, len: nat, ghost t: seq<byte>, ghost cur: nat, ghost size: nat, ghost ahead: nat)
    returns (x: byte, y: byte)
    requires Mirrors(buf[..], buffer, t, cur, size, ahead) && delta < size && delta <= cur && len < ahead
    ensures cur + len < |t| && x == t[cur - delta + len] && y == t[cur + len]
  {
    assert Held(buf[..], buffer, t, cur, cur - delta + len);
    assert Held(buf[..], buffer, t, cur, cur - delta);
    assert Held(buf[..], buffer, t, cur, cur + len);
    x, y := buf[buffer - delta + len], buf[buffer + len];
  }

  /** while (++len != lenLimit) if (pb[len] != cur[len]) break; with pb delta bytes back. */
  method Extend(buf: array<byte>, buffer: nat, delta: nat, start: nat, lenLimit: nat, ghost t: seq<byte>, ghost cur: nat, ghost size: nat)
    returns (len: nat)
    requires cur + lenLimit <= |t| && Mirrors(buf[..], buffer, t, cur, size, lenLimit) && delta < size && delta <= cur
    requires start < lenLimit && start < Lcp(t, cur - delta, cur, lenLimit)
    ensures len == Lcp(t, cur - delta, cur, lenLimit)
  {
    hide Lcp, Mirrors;
    ghost var i := cur - delta;
    LcpAgrees(t, i, cur, lenLimit);
    len := start + 1;
    while len != lenLimit
      invariant start < len <= Lcp(t, i, cur, lenLimit)
    {
      var x, y := Peek(buf, buffer, delta, len, t, cur, size, lenLimit);
      if x != y {
        FirstDifference(t, i, cur, lenLimit, len);
        break;
      }
      LonelyByte(t, i, cur, lenLimit, len);
      len := len + 1;
    }
  }

  /** Link v stands for the tree s still to be searched; ptr0 and ptr1 are free. */
  ghost predicate Searching(t: seq<byte>, son: seq<word>, w: Place, v: word, ptr0: nat, ptr1: nat, n: nat, s: Tree) {
    && PlaceOk(w) && |son| == 2 * w.size && w.cur + n <= |t|
    && Rep(son, w, v, s) && Search(t, s, n) && Older(s, w.cur)
    && ptr0 != ptr1 && ptr0 < |son| && ptr1 < |son| && !Owned(s, w.size, ptr0) && !Owned(s, w.size, ptr1)
  }

  lemma {:induction false} SearchingNode(t: seq<byte>, son: seq<word>, w: Place, v: word, ptr0: nat, ptr1: nat, n: nat, s: Tree)
    requires Searching(t, son, w, v, ptr0, ptr1, n, s)
    ensures s.Leaf? <==> w.pos - v >= w.size
    ensures s.Node? ==>
              var pair := Cell(s.at, w.size);
              && 0 < w.pos - v < w.size && w.pos - v <= w.cur && s.at == w.cur - (w.pos - v) && s.at + n <= |t|
              && pair + 1 < |son| && ptr0 != pair && ptr0 != pair + 1 && ptr1 != pair && ptr1 != pair + 1
              && Older(s.left, w.cur) && Older(s.right, w.cur)
              && pair == 2 * (w.cur % w.size - (w.pos - v) + if w.pos - v > w.cur % w.size then w.size else 0)
  {
    hide Rep, Owned, Search, Nodes;
    RepNode(son, w, v, s);
    if s.Node? {
      OlderParts(s, w.cur);
      Apart(s, w, t, n);
      SlotBack(w.cur, w.pos - v, w.size);
    }
  }

  /** The search goes on to the right of the node, whose right link is now free. */
  lemma {:induction false} SearchRight(t: seq<byte>, son: seq<word>, w: Place, v: word, ptr0: nat, ptr1: nat, n: nat, s: Tree)
    requires Searching(t, son, w, v, ptr0, ptr1, n, s) && s.Node?
    ensures var pair := Cell(s.at, w.size);
            && pair + 1 < |son| && ptr1 < |son| && ptr1 != pair + 1
            && Searching(t, son[ptr1 := v], w, son[pair + 1], ptr0, pair + 1, n, s.right)
  {
    hide Rep, Owned, Search, Nodes, Cell;
    RepNode(son, w, v, s);
    Apart(s, w, t, n);
    OlderParts(s, w.cur);
    NotOwnedParts(s, w.size, ptr0);
    NotOwnedParts(s, w.size, ptr1);
    RepOverwritten(son, w, son[Cell(s.at, w.size) + 1], s.right, ptr1, v, ptr1, v);
    assert son[ptr1 := v][ptr1 := v] == son[ptr1 := v];
  }

  lemma {:induction false} SearchLeft(t: seq<byte>, son: seq<word>, w: Place, v: word, ptr0: nat, ptr1: nat, n: nat, s: Tree)
    requires Searching(t, son, w, v, ptr0, ptr1, n, s) && s.Node?
    ensures var pair := Cell(s.at, w.size);
            && pair + 1 < |son| && ptr0 < |son| && ptr0 != pair
            && Searching(t, son[ptr0 := v], w, son[pair], pair, ptr1, n, s.left)
  {
    hide Rep, Owned, Search, Nodes, Cell;
    RepNode(son, w, v, s);
    Apart(s, w, t, n);
    OlderParts(s, w.cur);
    NotOwnedParts(s, w.size, ptr0);
    NotOwnedParts(s, w.size, ptr1);
    RepOverwritten(son, w, son[Cell(s.at, w.size)], s.left, ptr0, v, ptr0, v);
    assert son[ptr0 := v][ptr0 := v] == son[ptr0 := v];
  }

  lemma {:induction false} RelinkNode(t: seq<byte>, son: seq<word>, w: Place, v: word, ptr0: nat, ptr1: nat, n: nat, cut: nat, s: Tree)
    requires Searching(t, son, w, v, ptr0, ptr1, n, s) && s.Node? && cut > 0
    ensures var pair := Cell(s.at, w.size);
            && s.at + n <= |t| && pair + 1 < |son|
            && Relink(t, son, w, v, ptr0, ptr1, n, cut)
               == if Lcp(t, s.at, w.cur, n) == n then son[ptr1 := son[pair]][ptr0 := son[pair + 1]]
                  else if Smaller(t, s.at, w.cur, n) then
                    Relink(t, son[ptr1 := v], w, son[pair + 1], ptr0, pair + 1, n, cut - 1)
                  else Relink(t, son[ptr0 := v], w, son[pair], pair, ptr1, n, cut - 1)
  {
    hide Rep, Owned, Search, Nodes, Lcp, Smaller;
    SearchingNode(t, son, w, v, ptr0, ptr1, n, s);
    CellFits(s.at, w.size);
  }

  lemma {:induction false} RelinkEnd(t: seq<byte>, son: seq<word>, w: Place, v: word, ptr0: nat, ptr1: nat, n: nat, cut: nat, s: Tree)
    requires Searching(t, son, w, v, ptr0, ptr1, n, s) && (s.Leaf? || cut == 0)
    ensures Relink(t, son, w, v, ptr0, ptr1, n, cut) == son[ptr1 := EMPTY_HASH_VALUE][ptr0 := EMPTY_HASH_VALUE]
    ensures Split(t, s, w.cur, n, cut) == (Leaf, Leaf) && forall m :: Walk(t, s, w.cur, n, cut, m) == []
  {
    hide Rep, Owned, Search, Nodes, Lcp, Smaller;
    SearchingNode(t, son, w, v, ptr0, ptr1, n, s);
  }

  /** if (++len != lenLimit && pb[len] == cur[len]) while (++len != lenLimit) if (pb[len] != cur[len]) break; */
  method MatchLength(buf: array<byte>, buffer: nat, delta: nat, start: nat, lenLimit: nat, ghost t: seq<byte>, ghost cur: nat, ghost size: nat)
    returns (len: nat)
    requires cur + lenLimit <= |t| && Mirrors(buf[..], buffer, t, cur, size, lenLimit) && delta < size && delta <= cur && start < lenLimit
    requires start < Lcp(t, cur - delta, cur, lenLimit)
    ensures len == Lcp(t, cur - delta, cur, lenLimit)
  {
    hide Lcp, Mirrors;
    ghost var i := cur - delta;
    len := start + 1;
    var x: byte, y: byte := 0, 1;
    if len != lenLimit {
      x, y := Peek(buf, buffer, delta, len, t, cur, size, lenLimit);
    }
    if x == y {
      LonelyByte(t, i, cur, lenLimit, len);
      len := Extend(buf, buffer, delta, len, lenLimit, t, cur, size);
    } else {
      FirstDifference(t, i, cur, lenLimit, len);
    }
  }

  /** *ptr1 = x; *ptr0 = y; */
  method SetBoth(son: array<word>, ptr0: nat, ptr1: nat, x: word, y: word)
    requires ptr0 < son.Length && ptr1 < son.Length
    modifies son
    ensures son[..] == old(son[..])[ptr1 := x][ptr0 := y]
  {
    son[ptr1] := x;
    son[ptr0] := y;
  }

  /** Links the node in on its side and goes on to its other child. */
  method Descend(son: array<word>, pair: nat, smaller: bool, curMatch: word, ptr0: nat, ptr1: nat,
                 ghost t: seq<byte>, ghost w: Place, ghost n: nat, ghost cut: nat, ghost s: Tree)
    returns (next: word, p0: nat, p1: nat)
    requires Searching(t, son[..], w, curMatch, ptr0, ptr1, n, s) && s.Node? && cut > 0 && pair == Cell(s.at, w.size)
    requires w.cur + n <= |t| && s.at + n <= |t| && Lcp(t, s.at, w.cur, n) < n && (smaller <==> Smaller(t, s.at, w.cur, n))
    requires |son[..]| == 2 * w.size && w.size >= 1 && ptr0 < son.Length && ptr1 < son.Length
    modifies son
    ensures p0 < son.Length && p1 < son.Length
    ensures Searching(t, son[..], w, next, p0, p1, n, if smaller then s.right else s.left)
    ensures Relink(t, son[..], w, next, p0, p1, n, cut - 1) == Relink(t, old(son[..]), w, curMatch, ptr0, ptr1, n, cut)
  {
    hide Lcp, Smaller, Relink, Searching, Cell;
    SearchingNode(t, son[..], w, curMatch, ptr0, ptr1, n, s);
    RelinkNode(t, son[..], w, curMatch, ptr0, ptr1, n, cut, s);
    ghost var before := son[..];
    if smaller {
      SearchRight(t, son[..], w, curMatch, ptr0, ptr1, n, s);
      son[ptr1] := curMatch;
      assert son[..] == before[ptr1 := curMatch];
      next, p0, p1 := son[pair + 1], ptr0, pair + 1;
    } else {
      SearchLeft(t, son[..], w, curMatch, ptr0, ptr1, n, s);
      son[ptr0] := curMatch;
      assert son[..] == before[ptr0 := curMatch];
      next, p0, p1 := son[pair], pair, ptr1;
    }
  }

  /** GetMatchesSpec1: puts the current place at the root of its tree and reports on the way every
      repeat longer than those before. */
  method GetMatchesSpec1(lenLimit: nat, curMatch0: word, pos: word, buf: array<byte>, buffer: nat, son: array<word>,
                         cyclicBufferPos: nat, cyclicBufferSize: nat, cutValue0: nat, maxLen0: nat,
                         ghost t: seq<byte>, ghost cur: nat, ghost s0: Tree)
    returns (distances: seq<Pair>)
    requires son.Length == 2 * cyclicBufferSize && cyclicBufferSize > 0 && cyclicBufferPos == cur % cyclicBufferSize
    requires 1 <= lenLimit && maxLen0 < lenLimit && cur + lenLimit <= |t| && Mirrors(buf[..], buffer, t, cur, cyclicBufferSize, lenLimit)
    requires buf as object != son
    requires var w := Place(cur, pos, cyclicBufferSize);
             Searching(t, son[..], w, curMatch0, 2 * cyclicBufferPos + 1, 2 * cyclicBufferPos, lenLimit, s0)
    modifies son
    ensures var w := Place(cur, pos, cyclicBufferSize);
            && son[..] == Relink(t, old(son[..]), w, curMatch0, 2 * cyclicBufferPos + 1, 2 * cyclicBufferPos, lenLimit, cutValue0)
            && distances == Walk(t, s0, cur, lenLimit, cutValue0, maxLen0)
  {
    hide Mirrors, Held, Lcp, Smaller, Walk, Split, Relink, Searching, Bounded, Older, Search, Below, Cell, Nodes, Owned, Rep;
    var ptr0: nat, ptr1: nat := 2 * cyclicBufferPos + 1, 2 * cyclicBufferPos;
    var curMatch, cutValue: nat, maxLen: nat, len0: nat, len1: nat := curMatch0, cutValue0, maxLen0, 0, 0;
    ghost var w, s, hi: nat, lo: nat := Place(cur, pos, cyclicBufferSize), s0, 0, 0;
    ghost var links := Relink(t, son[..], w, curMatch, ptr0, ptr1, lenLimit, cutValue);
    SearchingFacts(t, son[..], w, curMatch, ptr0, ptr1, lenLimit, s);
    BoundedStart(t, s, cur, lenLimit);
    ghost var found := Walk(t, s, cur, lenLimit, cutValue, maxLen);
    distances := [];
    while true
      invariant ptr0 < son.Length && ptr1 < son.Length
      invariant Searching(t, son[..], w, curMatch, ptr0, ptr1, lenLimit, s) && Older(s, cur)
      invariant Bounded(t, s, cur, lenLimit, len0, len1, hi, lo)
      invariant len0 <= maxLen && len1 <= maxLen && len0 < lenLimit && len1 < lenLimit && maxLen < lenLimit
      invariant Relink(t, son[..], w, curMatch, ptr0, ptr1, lenLimit, cutValue) == links
      invariant distances + Walk(t, s, cur, lenLimit, cutValue, maxLen) == found
      decreases cutValue
    {
      SearchingNode(t, son[..], w, curMatch, ptr0, ptr1, lenLimit, s);
      SearchingFacts(t, son[..], w, curMatch, ptr0, ptr1, lenLimit, s);
      var delta := pos - curMatch;
      if cutValue == 0 || delta >= cyclicBufferSize {
        RelinkEnd(t, son[..], w, curMatch, ptr0, ptr1, lenLimit, cutValue, s);
        SetBoth(son, ptr0, ptr1, EMPTY_HASH_VALUE, EMPTY_HASH_VALUE);
        return;
      }
      var pair := 2 * (cyclicBufferPos - delta + if delta > cyclicBufferPos then cyclicBufferSize else 0);
      ghost var i := cur - delta;
      var len := if len0 < len1 then len0 else len1;
      AtNode(s);
      SharedPrefix(t, s, cur, lenLimit, len0, len1, hi, lo, i);
      var x, y := Peek(buf, buffer, delta, len, t, cur, cyclicBufferSize, lenLimit);
      RelinkNode(t, son[..], w, curMatch, ptr0, ptr1, lenLimit, cutValue, s);
      Append(t, s, cur, lenLimit, cutValue, maxLen, distances);
      cutValue := cutValue - 1;
      if x == y {
        LonelyByte(t, i, cur, lenLimit, len);
        len := MatchLength(buf, buffer, delta, len, lenLimit, t, cur, cyclicBufferSize);
        if maxLen < len {
          maxLen := len;
          distances := distances + [Pair(len, delta - 1)];
          if len == lenLimit {
            SetBoth(son, ptr0, ptr1, son[pair], son[pair + 1]);
            return;
          }
        }
      } else {
        FirstDifference(t, i, cur, lenLimit, len);
      }
      Turn(t, i, cur, lenLimit);
      x, y := Peek(buf, buffer, delta, len, t, cur, cyclicBufferSize, lenLimit);
      if x < y {
        BoundedRight(t, s, cur, lenLimit, len0, len1, hi, lo);
        len1, lo := len, i;
      } else {
        BoundedLeft(t, s, cur, lenLimit, len0, len1, hi, lo);
        len0, hi := len, i;
      }
      curMatch, ptr0, ptr1 := Descend(son, pair, x < y, curMatch, ptr0, ptr1, t, w, lenLimit, cutValue + 1, s);
      s := if x < y then s.right else s.left;
    }
  }

  /** SkipMatchesSpec: leaves exactly the links that GetMatchesSpec1 leaves. */
  method SkipMatchesSpec(lenLimit: nat, curMatch0: word, pos: word, buf: array<byte>, buffer: nat, son: array<word>,
                         cyclicBufferPos: nat, cyclicBufferSize: nat, cutValue0: nat,
                         ghost t: seq<byte>, ghost cur: nat, ghost s0: Tree)
    requires son.Length == 2 * cyclicBufferSize && cyclicBufferSize > 0 && cyclicBufferPos == cur % cyclicBufferSize
    requires 1 <= lenLimit && cur + lenLimit <= |t| && Mirrors(buf[..], buffer, t, cur, cyclicBufferSize, lenLimit)
    requires buf as object != son
    requires var w := Place(cur, pos, cyclicBufferSize);
             Searching(t, son[..], w, curMatch0, 2 * cyclicBufferPos + 1, 2 * cyclicBufferPos, lenLimit, s0)
    modifies son
    ensures var w := Place(cur, pos, cyclicBufferSize);
            son[..] == Relink(t, old(son[..]), w, curMatch0, 2 * cyclicBufferPos + 1, 2 * cyclicBufferPos, lenLimit, cutValue0)
  {
    hide Mirrors, Lcp, Smaller, Walk, Split, Relink, Searching, Bounded, Older, Search, Below, Cell, Nodes, Owned, Rep;
    var ptr0: nat, ptr1: nat := 2 * cyclicBufferPos + 1, 2 * cyclicBufferPos;
    var curMatch, cutValue: nat, len0: nat, len1: nat := curMatch0, cutValue0, 0, 0;
    ghost var w, s, hi: nat, lo: nat := Place(cur, pos, cyclicBufferSize), s0, 0, 0;
    ghost var links := Relink(t, son[..], w, curMatch, ptr0, ptr1, lenLimit, cutValue);
    SearchingFacts(t, son[..], w, curMatch, ptr0, ptr1, lenLimit, s);
    BoundedStart(t, s, cur, lenLimit);
    while true
      invariant ptr0 < son.Length && ptr1 < son.Length
      invariant Searching(t, son[..], w, curMatch, ptr0, ptr1, lenLimit, s) && Older(s, cur)
      invariant Bounded(t, s, cur, lenLimit, len0, len1, hi, lo) && len0 < lenLimit && len1 < lenLimit
      invariant Relink(t, son[..], w, curMatch, ptr0, ptr1, lenLimit, cutValue) == links
      decreases cutValue
    {
      SearchingNode(t, son[..], w, curMatch, ptr0, ptr1, lenLimit, s);
      SearchingFacts(t, son[..], w, curMatch, ptr0, ptr1, lenLimit, s);
      var delta := pos - curMatch;
      if cutValue == 0 || delta >= cyclicBufferSize {
        RelinkEnd(t, son[..], w, curMatch, ptr0, ptr1, lenLimit, cutValue, s);
        SetBoth(son, ptr0, ptr1, EMPTY_HASH_VALUE, EMPTY_HASH_VALUE);
        return;
      }
      var pair := 2 * (cyclicBufferPos - delta + if delta > cyclicBufferPos then cyclicBufferSize else 0);
      ghost var i := cur - delta;
      var len := if len0 < len1 then len0 else len1;
      AtNode(s);
      SharedPrefix(t, s, cur, lenLimit, len0, len1, hi, lo, i);
      var x, y := Peek(buf, buffer, delta, len, t, cur, cyclicBufferSize, lenLimit);
      RelinkNode(t, son[..], w, curMatch, ptr0, ptr1, lenLimit, cutValue, s);
      cutValue := cutValue - 1;
      if x == y {
        LonelyByte(t, i, cur, lenLimit, len);
        len := Extend(buf, buffer, delta, len, lenLimit, t, cur, cyclicBufferSize);
        if len == lenLimit {
          SetBoth(son, ptr0, ptr1, son[pair], son[pair + 1]);
          return;
        }
      } else {
        FirstDifference(t, i, cur, lenLimit, len);
      }
      Turn(t, i, cur, lenLimit);
      x, y := Peek(buf, buffer, delta, len, t, cur, cyclicBufferSize, lenLimit);
      if x < y {
        BoundedRight(t, s, cur, lenLimit, len0, len1, hi, lo);
        len1, lo := len, i;
      } else {
        BoundedLeft(t, s, cur, lenLimit, len0, len1, hi, lo);
        len0, hi := len, i;
      }
      curMatch, ptr0, ptr1 := Descend(son, pair, x < y, curMatch, ptr0, ptr1, t, w, lenLimit, cutValue + 1, s);
      s := if x < y then s.right else s.left;
    }
  }


  /** One more byte that agrees. */
  lemma {:induction false} LonelyByte(t: seq<byte>, a: nat, b: nat, n: nat, len: nat)
    requires a + n <= |t| && b + n <= |t| && len < n && len <= Lcp(t, a, b, n) && t[a + len] == t[b + len]
    ensures len < Lcp(t, a, b, n)
  {
    hide Lcp;
    LcpAgrees(t, a, b, n);
  }

  lemma {:induction false} FirstDifference(t: seq<byte>, a: nat, b: nat, n: nat, len: nat)
    requires a + n <= |t| && b + n <= |t| && len <= n && len <= Lcp(t, a, b, n) && (len == n || t[a + len] != t[b + len])
    ensures len == Lcp(t, a, b, n)
  {
    hide Lcp;
    LcpAgrees(t, a, b, n);
    assert len < Lcp(t, a, b, n) ==> At(t, a, len) == At(t, b, len);
  }

  lemma {:induction false} Turn(t: seq<byte>, a: nat, b: nat, n: nat)
    requires a + n <= |t| && b + n <= |t|
    ensures var k := Lcp(t, a, b, n); k < n ==> (Smaller(t, a, b, n) <==> t[a + k] < t[b + k])
  {
    hide Lcp;
  }

  /** What is reported at a node and what the rest of the way reports. */
  lemma {:induction false} Append(t: seq<byte>, s: Tree, c: nat, n: nat, cut: nat, maxLen: nat, before: seq<Pair>)
    requires c + n <= |t| && Older(s, c) && s.Node? && cut > 0 && s.at < c && Older(s.left, c) && Older(s.right, c)
    ensures var len := Lcp(t, s.at, c, n);
            var longest := if maxLen < len then len else maxLen;
            var now := if maxLen < len then before + [Pair(len, c - s.at - 1)] else before;
            before + Walk(t, s, c, n, cut, maxLen)
            == if len == n then now
               else now + Walk(t, if Smaller(t, s.at, c, n) then s.right else s.left, c, n, cut - 1, longest)
  {
    hide Lcp, Smaller, Older, Walk;
    WalkNode(t, s, c, n, cut, maxLen);
    var len := Lcp(t, s.at, c, n);
    var longest := if maxLen < len then len else maxLen;
    var child := if Smaller(t, s.at, c, n) then s.right else s.left;
    var rest := if len == n then [] else Walk(t, child, c, n, cut - 1, longest);
    assert before + ([Pair(len, c - s.at - 1)] + rest) == before + [Pair(len, c - s.at - 1)] + rest;
  }

  lemma {:induction false} AtNode(s: Tree)
    requires s.Node?
    ensures s.at in Nodes(s)
  {
  }

  lemma {:induction false} BoundedStart(t: seq<byte>, s: Tree, c: nat, n: nat)
    requires c + n <= |t| && Older(s, c)
    ensures Bounded(t, s, c, n, 0, 0, 0, 0)
  {
  }

  lemma {:induction false} SearchingFacts(t: seq<byte>, son: seq<word>, w: Place, v: word, ptr0: nat, ptr1: nat, n: nat, s: Tree)
    requires Searching(t, son, w, v, ptr0, ptr1, n, s)
    ensures PlaceOk(w) && |son| == 2 * w.size && w.cur + n <= |t| && Older(s, w.cur) && Search(t, s, n)
    ensures ptr0 != ptr1 && ptr0 < |son| && ptr1 < |son|
  {
    hide Rep, Search, Owned, Older;
  }
}
