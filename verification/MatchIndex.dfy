/**
 * What the hash heads and the trees of the match finder say about the text before the current
 * place, and how inserting a position and moving on keep it.
 */
module MatchIndex {
  import opened Bytes
  import opened Suffixes
  import opened SuffixTree
  import opened BinTree
  import opened LzHash

  // ----- hashes of text positions -----

  function HashTwo(t: seq<byte>, g: Hashing, i: nat): nat
    requires HashingOk(g) && i + 4 <= |t|
  {
    Hash2(g, t[i], t[i + 1])
  }

  function HashThree(t: seq<byte>, g: Hashing, i: nat): nat
    requires HashingOk(g) && i + 4 <= |t|
  {
    Hash3(g, t[i], t[i + 1], t[i + 2])
  }

  function HashFour(t: seq<byte>, g: Hashing, i: nat): (h: nat)
    requires HashingOk(g) && i + 4 <= |t|
    ensures h <= g.mask
  {
    Hash4(g, t[i], t[i + 1], t[i + 2], t[i + 3])
  }

  /** Positions that begin with the same four bytes are in the same tree. */
  lemma {:induction false} SameBucket(t: seq<byte>, g: Hashing, a: nat, b: nat, n: nat)
    requires HashingOk(g) && n >= 4 && a + n <= |t| && b + n <= |t| && Lcp(t, a, b, n) >= 4
    ensures HashFour(t, g, a) == HashFour(t, g, b)
  {
    hide Lcp, Hash4;
    LcpAgrees(t, a, b, n);
    assert At(t, a, 0) == At(t, b, 0) && At(t, a, 1) == At(t, b, 1);
    assert At(t, a, 2) == At(t, b, 2) && At(t, a, 3) == At(t, b, 3);
  }

  // ----- trees -----

  /** Link v is the root of a search tree of positions with hash h. */
  ghost predicate TreeOk(t: seq<byte>, g: Hashing, son: seq<word>, w: Place, v: word, s: Tree, h: nat, n: nat)
    requires HashingOk(g) && PlaceOk(w) && |son| == 2 * w.size
  {
    && Rep(son, w, v, s) && Search(t, s, n)
    && forall q :: q in Nodes(s) ==> q + 4 <= |t| && HashFour(t, g, q) == h
  }

  function Oldest(w: Place): nat {
    if w.cur + 2 > w.size then w.cur + 2 - w.size else 0
  }

  function Moved(w: Place): Place
    requires w.pos + 1 < WORD
  {
    Place(w.cur + 1, w.pos + 1, w.size)
  }

  lemma {:induction false} RepMoved(son: seq<word>, w: Place, v: word, s: Tree)
    requires PlaceOk(w) && |son| == 2 * w.size && w.pos + 1 < WORD && Rep(son, w, v, s)
    ensures Rep(son, Moved(w), v, Prune(s, Oldest(w)))
    decreases s
  {
    hide Cell;
    match s
    case Leaf =>
    case Node(i, l, r) =>
      CellFits(i, w.size);
      RepMoved(son, w, son[Cell(i, w.size)], l);
      RepMoved(son, w, son[Cell(i, w.size) + 1], r);
  }

  /** Moving on by one byte, with a length limit that does not grow. */
  lemma {:induction false} TreeMoved(t: seq<byte>, g: Hashing, son: seq<word>, w: Place, v: word, s: Tree, h: nat, n: nat, n1: nat)
    requires HashingOk(g) && PlaceOk(w) && |son| == 2 * w.size && w.pos + 1 < WORD && n1 <= n
    requires TreeOk(t, g, son, w, v, s, h, n)
    ensures TreeOk(t, g, son, Moved(w), v, Prune(s, Oldest(w)), h, n1)
  {
    hide Rep, Search, HashFour;
    RepMoved(son, w, v, s);
    PruneSearch(t, s, n, Oldest(w));
    PruneNodes(t, s, n, Oldest(w));
    SearchShorter(t, Prune(s, Oldest(w)), n, n1);
  }

  /** The new root. */
  lemma {:induction false} RootMoved(t: seq<byte>, g: Hashing, son: seq<word>, w: Place, a: Tree, b: Tree, n: nat, n1: nat)
    requires HashingOk(g) && PlaceOk(w) && |son| == 2 * w.size && w.pos + 1 < WORD && n1 <= n && w.cur + 4 <= |t|
    requires Cell(w.cur, w.size) + 1 < |son|
    requires Rep(son, w, son[Cell(w.cur, w.size)], a) && Rep(son, w, son[Cell(w.cur, w.size) + 1], b)
    requires Search(t, Node(w.cur, a, b), n)
    requires forall q :: q in Nodes(a) + Nodes(b) ==> q + 4 <= |t| && HashFour(t, g, q) == HashFour(t, g, w.cur)
    ensures TreeOk(t, g, son, Moved(w), w.pos, Prune(Node(w.cur, a, b), Oldest(w)), HashFour(t, g, w.cur), n1)
  {
    hide Search, HashFour, Cell;
    var s := Node(w.cur, a, b);
    RepMoved(son, w, son[Cell(w.cur, w.size)], a);
    RepMoved(son, w, son[Cell(w.cur, w.size) + 1], b);
    PruneSearch(t, s, n, Oldest(w));
    PruneNodes(t, s, n, Oldest(w));
    SearchShorter(t, Prune(s, Oldest(w)), n, n1);
    assert Rep(son, Moved(w), w.pos, Prune(s, Oldest(w)));
    assert forall q :: q in Nodes(s) ==> q == w.cur || q in Nodes(a) + Nodes(b);
  }

  // ----- all of it -----

  /** Position p has the value h of the 3-byte or of the 2-byte hash. */
  ghost predicate HasHash(t: seq<byte>, g: Hashing, p: nat, h: nat, three: bool)
    requires HashingOk(g)
  {
    p + 4 <= |t| && (if three then HashThree(t, g, p) else HashTwo(t, g, p)) == h
  }

  /** Head v of the 2-byte or 3-byte hash: the last position of the window with that hash, or too
      old if there is none. */
  ghost predicate HeadOk(t: seq<byte>, g: Hashing, w: Place, v: word, h: nat, three: bool)
    requires HashingOk(g) && PlaceOk(w)
  {
    && (v > w.pos - w.size ==>
          v < w.pos && w.pos - v <= w.cur && HasHash(t, g, w.cur - (w.pos - v), h, three))
    && forall p: nat :: HasHash(t, g, p, h, three) && p < w.cur && w.cur < p + w.size ==>
                          v > w.pos - w.size && p <= w.cur - (w.pos - v)
  }

  /** The hash value of cell k of the two smaller tables. */
  function Own(k: nat): nat {
    if k < FIX3_HASH_SIZE then k else k - FIX3_HASH_SIZE
  }

  ghost predicate HeadsOk(t: seq<byte>, g: Hashing, w: Place, hash: seq<word>)
    requires HashingOk(g) && PlaceOk(w) && |hash| == FIX4_HASH_SIZE + g.mask + 1
  {
    forall k :: 0 <= k < FIX4_HASH_SIZE ==> HeadOk(t, g, w, hash[k], Own(k), k >= FIX3_HASH_SIZE)
  }

  /** Head of the main table. */
  function Root(hash: seq<word>, h: nat): word
    requires FIX4_HASH_SIZE + h < |hash|
  {
    hash[FIX4_HASH_SIZE + h]
  }

  ghost predicate ForestOk(t: seq<byte>, g: Hashing, w: Place, hash: seq<word>, son: seq<word>, forest: seq<Tree>, n: nat)
    requires HashingOk(g) && PlaceOk(w) && |hash| == FIX4_HASH_SIZE + g.mask + 1 && |son| == 2 * w.size
  {
    && |forest| == g.mask + 1
    && forall h :: 0 <= h < |forest| ==> TreeOk(t, g, son, w, Root(hash, h), forest[h], h, n)
  }

  ghost predicate StoodFor(t: seq<byte>, s: Tree, q: nat, n: nat) {
    q + n <= |t| && Covers(t, Nodes(s), q, n)
  }

  /** Every position of the window is stood for in its tree. */
  ghost predicate AllCovered(t: seq<byte>, g: Hashing, w: Place, forest: seq<Tree>, n: nat)
    requires HashingOk(g) && |forest| == g.mask + 1
  {
    forall q: nat :: w.cur < q + w.size && q < w.cur && q + 4 <= |t| ==> StoodFor(t, forest[HashFour(t, g, q)], q, n)
  }

  lemma {:induction false} HeadMoved(t: seq<byte>, g: Hashing, w: Place, v: word, h: nat, three: bool)
    requires HashingOk(g) && PlaceOk(w) && w.pos + 1 < WORD && HeadOk(t, g, w, v, h, three)
    requires !HasHash(t, g, w.cur, h, three)
    ensures HeadOk(t, g, Moved(w), v, h, three)
  {
    hide HasHash;
  }

  lemma {:induction false} NewHead(t: seq<byte>, g: Hashing, w: Place)
    requires HashingOk(g) && PlaceOk(w) && w.pos + 1 < WORD && w.cur + 4 <= |t|
    ensures HeadOk(t, g, Moved(w), w.pos, HashTwo(t, g, w.cur), false)
    ensures HeadOk(t, g, Moved(w), w.pos, HashThree(t, g, w.cur), true)
  {
  }

  /** The three heads of the current position now point to it. */
  lemma {:induction false} HeadsInserted(t: seq<byte>, g: Hashing, w: Place, hash: seq<word>, hash1: seq<word>)
    requires HashingOk(g) && PlaceOk(w) && |hash| == |hash1| == FIX4_HASH_SIZE + g.mask + 1 && w.pos + 1 < WORD && w.cur + 4 <= |t|
    requires HeadsOk(t, g, w, hash)
    requires hash1[HashTwo(t, g, w.cur)] == w.pos && hash1[FIX3_HASH_SIZE + HashThree(t, g, w.cur)] == w.pos
    requires forall k :: 0 <= k < FIX4_HASH_SIZE && k != HashTwo(t, g, w.cur) && k != FIX3_HASH_SIZE + HashThree(t, g, w.cur) ==>
                           hash1[k] == hash[k]
    ensures HeadsOk(t, g, Moved(w), hash1)
  {
    hide HeadOk, HashTwo, HashThree;
    assert forall k :: 0 <= k < FIX4_HASH_SIZE && k != HashTwo(t, g, w.cur) && k != FIX3_HASH_SIZE + HashThree(t, g, w.cur) ==>
                         !HasHash(t, g, w.cur, Own(k), k >= FIX3_HASH_SIZE);
    HashRange(t, g, w.cur);
    NewHead(t, g, w);
    forall k | 0 <= k < FIX4_HASH_SIZE
      ensures HeadOk(t, g, Moved(w), hash1[k], Own(k), k >= FIX3_HASH_SIZE)
    {
      if k == HashTwo(t, g, w.cur) {
      } else if k == FIX3_HASH_SIZE + HashThree(t, g, w.cur) {
      } else {
        HeadMoved(t, g, w, hash[k], Own(k), k >= FIX3_HASH_SIZE);
      }
    }
  }

  lemma {:induction false} HashRange(t: seq<byte>, g: Hashing, i: nat)
    requires HashingOk(g) && i + 4 <= |t|
    ensures HashTwo(t, g, i) < HASH2_SIZE && HashThree(t, g, i) < HASH3_SIZE
  {
    hide Xor;
  }

  function Pruned(forest: seq<Tree>, oldest: nat): (r: seq<Tree>)
    ensures |r| == |forest| && forall h :: 0 <= h < |r| ==> r[h] == Prune(forest[h], oldest)
  {
    seq(|forest|, h requires 0 <= h < |forest| => Prune(forest[h], oldest))
  }

  /** Moving on without inserting. */
  lemma {:induction false} ForestMoved(t: seq<byte>, g: Hashing, w: Place, hash: seq<word>, son: seq<word>, forest: seq<Tree>, n: nat, n1: nat)
    requires HashingOk(g) && PlaceOk(w) && |hash| == FIX4_HASH_SIZE + g.mask + 1 && |son| == 2 * w.size && w.pos + 1 < WORD && n1 <= n
    requires ForestOk(t, g, w, hash, son, forest, n)
    ensures ForestOk(t, g, Moved(w), hash, son, Pruned(forest, Oldest(w)), n1)
  {
    hide TreeOk, Prune;
    forall h | 0 <= h < |forest|
      ensures TreeOk(t, g, son, Moved(w), Root(hash, h), Pruned(forest, Oldest(w))[h], h, n1)
    {
      TreeMoved(t, g, son, w, Root(hash, h), forest[h], h, n, n1);
    }
  }

  lemma {:induction false} HeadsMoved(t: seq<byte>, g: Hashing, w: Place, hash: seq<word>)
    requires HashingOk(g) && PlaceOk(w) && |hash| == FIX4_HASH_SIZE + g.mask + 1 && w.pos + 1 < WORD
    requires HeadsOk(t, g, w, hash) && w.cur + 4 > |t|
    ensures HeadsOk(t, g, Moved(w), hash)
  {
    hide HeadOk;
    forall k | 0 <= k < FIX4_HASH_SIZE
      ensures HeadOk(t, g, Moved(w), hash[k], Own(k), k >= FIX3_HASH_SIZE)
    {
      HeadMoved(t, g, w, hash[k], Own(k), k >= FIX3_HASH_SIZE);
    }
  }

  // ----- inserting the current position -----

  /** The slot of the current place belongs to no position of the window. */
  lemma {:induction false} SlotFree(son: seq<word>, w: Place, v: word, s: Tree)
    requires PlaceOk(w) && |son| == 2 * w.size && Rep(son, w, v, s)
    ensures Cell(w.cur, w.size) + 1 < |son|
    ensures !Owned(s, w.size, Cell(w.cur, w.size)) && !Owned(s, w.size, Cell(w.cur, w.size) + 1)
  {
    hide Cell, Rep, Nodes;
    RepInWindow(son, w, v, s);
    CellFits(w.cur, w.size);
    forall i | i in Nodes(s)
      ensures Cell(i, w.size) != Cell(w.cur, w.size) && Cell(i, w.size) != Cell(w.cur, w.size) + 1
      ensures Cell(i, w.size) + 1 != Cell(w.cur, w.size) && Cell(i, w.size) + 1 != Cell(w.cur, w.size) + 1
    {
      SlotsDiffer(i, w.cur, w.size);
    }
  }

  lemma {:induction false} ReadyToSearch(t: seq<byte>, g: Hashing, w: Place, hash: seq<word>, son: seq<word>, forest: seq<Tree>, n: nat, h: nat)
    requires HashingOk(g) && PlaceOk(w) && |hash| == FIX4_HASH_SIZE + g.mask + 1 && |son| == 2 * w.size
    requires ForestOk(t, g, w, hash, son, forest, n) && w.cur + n <= |t| && h <= g.mask
    ensures Searching(t, son, w, Root(hash, h), Cell(w.cur, w.size) + 1, Cell(w.cur, w.size), n, forest[h])
    ensures Older(forest[h], w.cur)
  {
    hide Rep, Search, Owned, HashFour, Cell, Nodes;
    assert TreeOk(t, g, son, w, Root(hash, h), forest[h], h, n);
    SlotFree(son, w, Root(hash, h), forest[h]);
    RepInWindow(son, w, Root(hash, h), forest[h]);
  }

  /** The tree of another hash value is not disturbed. */
  lemma {:induction false} OtherTree(t: seq<byte>, g: Hashing, w: Place, son: seq<word>, son1: seq<word>, v: word, s: Tree, h: nat,
                                     u: Tree, hu: nat, vu: word, n: nat, n1: nat)
    requires HashingOk(g) && PlaceOk(w) && |son| == |son1| == 2 * w.size && w.pos + 1 < WORD && n1 <= n && h != hu
    requires TreeOk(t, g, son, w, v, s, h, n) && TreeOk(t, g, son, w, vu, u, hu, n)
    requires Touched(son, son1, w.size, u, Cell(w.cur, w.size) + 1, Cell(w.cur, w.size))
    ensures TreeOk(t, g, son1, Moved(w), v, Prune(s, Oldest(w)), h, n1)
  {
    hide Rep, Search, Owned, HashFour, Cell, Nodes, Touched;
    SlotFree(son, w, v, s);
    RepInWindow(son, w, vu, u);
    forall q | q in Nodes(s)
      ensures q !in Nodes(u)
    {
    }
    RepKept(son, son1, w, v, s, u, Cell(w.cur, w.size) + 1, Cell(w.cur, w.size));
    TreeMoved(t, g, son1, w, v, s, h, n, n1);
  }

  lemma {:induction false} ForestInserted(t: seq<byte>, g: Hashing, w: Place, hash: seq<word>, son: seq<word>, forest: seq<Tree>,
                                          n: nat, n1: nat, cut: nat, hash1: seq<word>, son1: seq<word>)
    requires HashingOk(g) && PlaceOk(w) && |hash| == |hash1| == FIX4_HASH_SIZE + g.mask + 1 && |son| == 2 * w.size && w.pos + 1 < WORD
    requires ForestOk(t, g, w, hash, son, forest, n) && n1 <= n && 4 <= n && w.cur + n <= |t|
    requires var h := HashFour(t, g, w.cur);
             && son1 == Relink(t, son, w, Root(hash, h), Cell(w.cur, w.size) + 1, Cell(w.cur, w.size), n, cut)
             && Root(hash1, h) == w.pos
             && forall k :: 0 <= k <= g.mask && k != h ==> Root(hash1, k) == Root(hash, k)
    ensures var h := HashFour(t, g, w.cur);
            && Older(forest[h], w.cur)
            && var (a, b) := Split(t, forest[h], w.cur, n, cut);
            ForestOk(t, g, Moved(w), hash1, son1, Pruned(forest[h := Node(w.cur, a, b)], Oldest(w)), n1)
  {
    hide TreeOk, Relink, Split, Prune, HashFour, Cell, Owned, Rep, Search, Nodes, Touched;
    var h := HashFour(t, g, w.cur);
    ReadyToSearch(t, g, w, hash, son, forest, n, h);
    var v := Root(hash, h);
    RelinkRep(t, son, w, v, Cell(w.cur, w.size) + 1, Cell(w.cur, w.size), n, cut, forest[h]);
    Reroot(t, forest[h], w.cur, n, cut);
    var (a, b) := Split(t, forest[h], w.cur, n, cut);
    var grown := forest[h := Node(w.cur, a, b)];
    forall k | 0 <= k < |forest|
      ensures TreeOk(t, g, son1, Moved(w), Root(hash1, k), Pruned(grown, Oldest(w))[k], k, n1)
    {
      assert TreeOk(t, g, son, w, Root(hash, k), forest[k], k, n);
      if k == h {
        PartsHash(t, g, son, w, v, forest[h], h, n, a, b);
        SlotFree(son, w, v, forest[h]);
        RootMoved(t, g, son1, w, a, b, n, n1);
      } else {
        OtherTree(t, g, w, son, son1, Root(hash, k), forest[k], k, forest[h], h, v, n, n1);
      }
    }
  }

  lemma {:induction false} PartsHash(t: seq<byte>, g: Hashing, son: seq<word>, w: Place, v: word, s: Tree, h: nat, n: nat, a: Tree, b: Tree)
    requires HashingOk(g) && PlaceOk(w) && |son| == 2 * w.size && TreeOk(t, g, son, w, v, s, h, n)
    requires Nodes(a) + Nodes(b) <= Nodes(s)
    ensures forall q :: q in Nodes(a) + Nodes(b) ==> q + 4 <= |t| && HashFour(t, g, q) == h
  {
    hide Rep, Search, HashFour, Nodes;
  }

  /** A search that ran to its end keeps every position of the window covered, the new one too. */
  lemma {:induction false} CoverInserted(t: seq<byte>, g: Hashing, w: Place, hash: seq<word>, son: seq<word>, forest: seq<Tree>, n: nat, n1: nat, cut: nat)
    requires HashingOk(g) && PlaceOk(w) && |hash| == FIX4_HASH_SIZE + g.mask + 1 && |son| == 2 * w.size && w.pos + 1 < WORD
    requires ForestOk(t, g, w, hash, son, forest, n) && AllCovered(t, g, w, forest, n)
    requires n1 <= n && 4 <= n && w.cur + n <= |t|
    requires var s := forest[HashFour(t, g, w.cur)]; Older(s, w.cur) && PathLength(t, s, w.cur, n) <= cut
    ensures var h := HashFour(t, g, w.cur);
            var (a, b) := Split(t, forest[h], w.cur, n, cut);
            AllCovered(t, g, Moved(w), Pruned(forest[h := Node(w.cur, a, b)], Oldest(w)), n1)
  {
    hide Relink, Split, Prune, HashFour, Cell, Owned, Rep, Search, Nodes, Touched, Covers, PathLength;
    var h := HashFour(t, g, w.cur);
    var (a, b) := Split(t, forest[h], w.cur, n, cut);
    var grown := forest[h := Node(w.cur, a, b)];
    assert TreeOk(t, g, son, w, Root(hash, h), forest[h], h, n);
    Reroot(t, forest[h], w.cur, n, cut);
    forall q: nat | w.cur + 1 < q + w.size && q < w.cur + 1 && q + 4 <= |t|
      ensures StoodFor(t, Pruned(grown, Oldest(w))[HashFour(t, g, q)], q, n1)
    {
      var k := HashFour(t, g, q);
      assert TreeOk(t, g, son, w, Root(hash, k), forest[k], k, n);
      if k == h {
        CoverKept(t, forest[h], w.cur, n, cut, q);
      }
      PruneCovers(t, grown[k], n, Oldest(w), q);
      CoverShorter(t, Nodes(Prune(grown[k], Oldest(w))), q, n, n1);
    }
  }

  lemma {:induction false} CoverMoved(t: seq<byte>, g: Hashing, w: Place, hash: seq<word>, son: seq<word>, forest: seq<Tree>, n: nat, n1: nat)
    requires HashingOk(g) && PlaceOk(w) && |hash| == FIX4_HASH_SIZE + g.mask + 1 && |son| == 2 * w.size && w.pos + 1 < WORD
    requires ForestOk(t, g, w, hash, son, forest, n) && AllCovered(t, g, w, forest, n)
    requires n1 <= n && w.cur + n <= |t| && w.cur + 4 > |t|
    ensures AllCovered(t, g, Moved(w), Pruned(forest, Oldest(w)), n1)
  {
    hide Prune, HashFour, Cell, Rep, Search, Nodes, Covers;
    forall q: nat | w.cur + 1 < q + w.size && q < w.cur + 1 && q + 4 <= |t|
      ensures StoodFor(t, Pruned(forest, Oldest(w))[HashFour(t, g, q)], q, n1)
    {
      var k := HashFour(t, g, q);
      assert TreeOk(t, g, son, w, Root(hash, k), forest[k], k, n);
      PruneCovers(t, forest[k], n, Oldest(w), q);
      CoverShorter(t, Nodes(Prune(forest[k], Oldest(w))), q, n, n1);
    }
  }

  /** What a complete search at the current place finds is as long as what a naive search of the
      window finds, from length 4 on. */
  lemma {:induction false} AgreesWithNaive(t: seq<byte>, g: Hashing, w: Place, hash: seq<word>, son: seq<word>, forest: seq<Tree>,
                                           n: nat, cut: nat, maxLen: nat, q: nat)
    requires HashingOk(g) && PlaceOk(w) && |hash| == FIX4_HASH_SIZE + g.mask + 1 && |son| == 2 * w.size
    requires ForestOk(t, g, w, hash, son, forest, n) && AllCovered(t, g, w, forest, n) && 4 <= n && w.cur + n <= |t|
    requires var s := forest[HashFour(t, g, w.cur)]; Older(s, w.cur) && PathLength(t, s, w.cur, n) <= cut
    requires w.cur < q + w.size && q < w.cur && Lcp(t, q, w.cur, n) >= 4
    ensures var s := forest[HashFour(t, g, w.cur)];
            Lcp(t, q, w.cur, n) <= Best(Walk(t, s, w.cur, n, cut, maxLen), maxLen)
  {
    hide Lcp, Rep, Search, Nodes, Covers, PathLength, HashFour, Walk, Best;
    SameBucket(t, g, q, w.cur, n);
    var h := HashFour(t, g, w.cur);
    assert TreeOk(t, g, son, w, Root(hash, h), forest[h], h, n);
    FindsLongest(t, forest[h], w.cur, n, cut, maxLen, q);
  }

  // ----- renumbering -----

  /** MatchFinder_Normalize3 on one link. */
  function Renumbered(v: word, sub: word): word {
    if v <= sub then EMPTY_HASH_VALUE else v - sub
  }

  /** MatchFinder_Normalize3. */
  method Normalize3(subValue: word, items: array<word>)
    modifies items
    ensures forall k :: 0 <= k < items.Length ==> items[k] == Renumbered(old(items[k]), subValue)
  {
    var i := 0;
    while i < items.Length
      invariant 0 <= i <= items.Length
      invariant forall k :: 0 <= k < i ==> items[k] == Renumbered(old(items[k]), subValue)
      invariant forall k :: i <= k < items.Length ==> items[k] == old(items[k])
    {
      var value: int := items[i];
      if value <= subValue {
        value := EMPTY_HASH_VALUE;
      } else {
        value := value - subValue;
      }
      items[i] := value;
      i := i + 1;
    }
  }

  /** A link of the window keeps its distance from one numbering to the next; any other stays outside. */
  predicate SameDistance(size: nat, pos: nat, v: word, pos1: nat, v1: word) {
    if pos - v < size then pos1 - v1 == pos - v else pos1 - v1 >= size
  }

  ghost predicate SameDistances(size: nat, pos: nat, links: seq<word>, pos1: nat, links1: seq<word>) {
    |links1| == |links| && forall k :: 0 <= k < |links| ==> SameDistance(size, pos, links[k], pos1, links1[k])
  }

  lemma {:induction false} DistancesKept(w: Place, links: seq<word>, links1: seq<word>, sub: word)
    requires PlaceOk(w) && sub <= w.pos - w.size && |links1| == |links|
    requires forall k :: 0 <= k < |links| ==> links1[k] == Renumbered(links[k], sub)
    ensures SameDistances(w.size, w.pos, links, w.pos - sub, links1)
  {
  }

  lemma {:induction false} RepRenumbered(son: seq<word>, son1: seq<word>, w: Place, sub: word, v: word, s: Tree)
    requires PlaceOk(w) && |son| == |son1| == 2 * w.size && sub <= w.pos - w.size && Rep(son, w, v, s)
    requires forall k :: 0 <= k < |son| ==> son1[k] == Renumbered(son[k], sub)
    ensures Rep(son1, Place(w.cur, w.pos - sub, w.size), Renumbered(v, sub), s)
    decreases s
  {
    hide Cell;
    match s
    case Leaf =>
    case Node(i, l, r) =>
      CellFits(i, w.size);
      RepRenumbered(son, son1, w, sub, son[Cell(i, w.size)], l);
      RepRenumbered(son, son1, w, sub, son[Cell(i, w.size) + 1], r);
  }

  lemma {:induction false} AllRenumbered(t: seq<byte>, g: Hashing, w: Place, hash: seq<word>, son: seq<word>, forest: seq<Tree>, n: nat,
                                         sub: word, hash1: seq<word>, son1: seq<word>)
    requires HashingOk(g) && PlaceOk(w) && |hash| == |hash1| == FIX4_HASH_SIZE + g.mask + 1 && |son| == |son1| == 2 * w.size
    requires sub <= w.pos - w.size && HeadsOk(t, g, w, hash) && ForestOk(t, g, w, hash, son, forest, n)
    requires forall k :: 0 <= k < |hash| ==> hash1[k] == Renumbered(hash[k], sub)
    requires forall k :: 0 <= k < |son| ==> son1[k] == Renumbered(son[k], sub)
    ensures var x := Place(w.cur, w.pos - sub, w.size);
            HeadsOk(t, g, x, hash1) && ForestOk(t, g, x, hash1, son1, forest, n)
  {
    hide Rep, Search, HashFour, HasHash;
    var x := Place(w.cur, w.pos - sub, w.size);
    forall k | 0 <= k < FIX4_HASH_SIZE
      ensures HeadOk(t, g, x, hash1[k], Own(k), k >= FIX3_HASH_SIZE)
    {
      assert HeadOk(t, g, w, hash[k], Own(k), k >= FIX3_HASH_SIZE);
    }
    forall h | 0 <= h < |forest|
      ensures TreeOk(t, g, son1, x, Root(hash1, h), forest[h], h, n)
    {
      assert TreeOk(t, g, son, w, Root(hash, h), forest[h], h, n);
      RepRenumbered(son, son1, w, sub, Root(hash, h), forest[h]);
    }
  }

  /** A smaller length limit asks less of the trees. */
  lemma {:induction false} ForestShorter(t: seq<byte>, g: Hashing, w: Place, hash: seq<word>, son: seq<word>, forest: seq<Tree>, n: nat, n1: nat)
    requires HashingOk(g) && PlaceOk(w) && |hash| == FIX4_HASH_SIZE + g.mask + 1 && |son| == 2 * w.size && n1 <= n
    requires ForestOk(t, g, w, hash, son, forest, n)
    ensures ForestOk(t, g, w, hash, son, forest, n1)
  {
    hide Rep, Search, HashFour;
    forall h | 0 <= h < |forest|
      ensures TreeOk(t, g, son, w, Root(hash, h), forest[h], h, n1)
    {
      assert TreeOk(t, g, son, w, Root(hash, h), forest[h], h, n);
      SearchShorter(t, forest[h], n, n1);
    }
  }

  lemma {:induction false} ForestSize(t: seq<byte>, g: Hashing, w: Place, hash: seq<word>, son: seq<word>, forest: seq<Tree>, n: nat)
    requires HashingOk(g) && PlaceOk(w) && |hash| == FIX4_HASH_SIZE + g.mask + 1 && |son| == 2 * w.size
    requires ForestOk(t, g, w, hash, son, forest, n)
    ensures |forest| == g.mask + 1
  {
    hide TreeOk;
  }

  /** So does one for coverage; renumbering does not matter to it. */
  lemma {:induction false} CoveredShorter(t: seq<byte>, g: Hashing, w: Place, x: Place, forest: seq<Tree>, n: nat, n1: nat)
    requires HashingOk(g) && |forest| == g.mask + 1 && w.cur == x.cur && w.size == x.size && n1 <= n
    requires AllCovered(t, g, w, forest, n)
    ensures AllCovered(t, g, x, forest, n1)
  {
    hide HashFour, Covers, Nodes;
    forall q: nat | x.cur < q + x.size && q < x.cur && q + 4 <= |t|
      ensures StoodFor(t, forest[HashFour(t, g, q)], q, n1)
    {
      CoverShorter(t, Nodes(forest[HashFour(t, g, q)]), q, n, n1);
    }
  }
}
