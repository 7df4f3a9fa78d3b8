/**
 * Documents of the YAML library: the events of a document with anchors and aliases, the graph of
 * nodes they are loaded into, which may be cyclic, and the walk over it that the dumper makes.
 */
module YamlGraph {
  /** Anchors are names by number; data stands for all else an event carries. */
  datatype Name = NoName | Name(id: nat)

  datatype Event =
    | Alias(anchor: nat)
    | Scalar(name: Name, data: nat)
    | SequenceStart(name: Name, data: nat) | SequenceEnd
    | MappingStart(name: Name, data: nat) | MappingEnd

  /** A document as its events nest; the children of a mapping are its keys and values in turn. */
  datatype Tree =
    | AliasNode(anchor: nat)
    | ScalarNode(name: Name, data: nat)
    | CollectionNode(name: Name, data: nat, mapping: bool, children: seq<Tree>)

  predicate Proper(t: Tree) {
    t.CollectionNode? ==>
      && (t.mapping ==> |t.children| % 2 == 0)
      && forall k :: 0 <= k < |t.children| ==> Proper(t.children[k])
  }

  function Start(name: Name, data: nat, mapping: bool): Event {
    if mapping then MappingStart(name, data) else SequenceStart(name, data)
  }

  function End(mapping: bool): Event {
    if mapping then MappingEnd else SequenceEnd
  }

  function Text(t: Tree): seq<Event> {
    match t
    case AliasNode(a) => [Alias(a)]
    case ScalarNode(name, data) => [Scalar(name, data)]
    case CollectionNode(name, data, mapping, children) => [Start(name, data, mapping)] + Texts(children) + [End(mapping)]
  }

  function Texts(ts: seq<Tree>): seq<Event> {
    if ts == [] then [] else Text(ts[0]) + Texts(ts[1..])
  }

  // ----- graphs -----

  /** A node of a document. Items are indices from 1 on; those of a mapping are its keys and values. */
  datatype Node = Leaf(data: nat) | Collection(data: nat, mapping: bool, items: seq<nat>)

  function Items(n: Node): seq<nat> {
    if n.Leaf? then [] else n.items
  }

  predicate GraphOk(g: seq<Node>) {
    forall i, k :: 0 <= i < |g| && 0 <= k < |Items(g[i])| ==> 1 <= Items(g[i])[k] <= |g|
  }

  predicate IsIndex(i: nat, n: nat) {
    1 <= i <= n
  }

  function UpTo(n: nat): set<nat> {
    set i: nat | 1 <= i <= n && IsIndex(i, n)
  }

  predicate Indices(g: seq<Node>, xs: seq<nat>) {
    forall k :: 0 <= k < |xs| ==> 1 <= xs[k] <= |g|
  }

  datatype Walked = Walked(trace: seq<nat>, seen: set<nat>)

  /** The nodes visited from x on, in order, when those in seen have been visited: a node is entered
      at its first visit only. */
  function Walk(g: seq<Node>, seen: set<nat>, x: nat): (w: Walked)
    requires GraphOk(g) && 1 <= x <= |g| && seen <= UpTo(|g|)
    ensures seen <= w.seen <= UpTo(|g|) && x in w.seen
    decreases UpTo(|g|) - seen, 0
  {
    if x in seen then Walked([x], seen)
    else
      var w := WalkAll(g, seen + {x}, Items(g[x - 1]));
      Walked([x] + w.trace, w.seen)
  }

  function WalkAll(g: seq<Node>, seen: set<nat>, xs: seq<nat>): (w: Walked)
    requires GraphOk(g) && Indices(g, xs) && seen <= UpTo(|g|)
    ensures seen <= w.seen <= UpTo(|g|)
    decreases UpTo(|g|) - seen, 1, |xs|
  {
    if xs == [] then Walked([], seen)
    else
      var a := Walk(g, seen, xs[0]);
      var b := WalkAll(g, a.seen, xs[1..]);
      Walked(a.trace + b.trace, b.seen)
  }

  function Count(xs: seq<nat>, x: nat): nat {
    if xs == [] then 0 else (if xs[0] == x then 1 else 0) + Count(xs[1..], x)
  }

  lemma {:induction false} CountJoin(a: seq<nat>, b: seq<nat>, x: nat)
    ensures Count(a + b, x) == Count(a, x) + Count(b, x)
    decreases |a|
  {
    if a == [] {
      assert a + b == b;
    } else {
      assert (a + b)[1..] == a[1..] + b;
      CountJoin(a[1..], b, x);
    }
  }

  // ----- what a dump writes -----

  function NameOf(id: nat): Name {
    if id == 0 then NoName else Name(id)
  }

  datatype Dumped = Dumped(text: seq<Event>, seen: set<nat>)

  /** The events for the walk from x on; ids are the anchors given out, 0 for none. */
  function Dump(g: seq<Node>, ids: seq<nat>, seen: set<nat>, x: nat): (d: Dumped)
    requires GraphOk(g) && 1 <= x <= |g| == |ids| && seen <= UpTo(|g|)
    ensures d.seen == Walk(g, seen, x).seen
    decreases UpTo(|g|) - seen, 0
  {
    var id, node := ids[x - 1], g[x - 1];
    if x in seen then Dumped([Alias(id)], seen)
    else if node.Leaf? then Dumped([Scalar(NameOf(id), node.data)], seen + {x})
    else
      var d := DumpAll(g, ids, seen + {x}, Items(node));
      Dumped([Start(NameOf(id), node.data, node.mapping)] + d.text + [End(node.mapping)], d.seen)
  }

  lemma {:induction false} DumpAgain(g: seq<Node>, ids: seq<nat>, seen: set<nat>, x: nat)
    requires GraphOk(g) && 1 <= x <= |g| == |ids| && seen <= UpTo(|g|) && x in seen
    ensures Walk(g, seen, x) == Walked([x], seen) && Dump(g, ids, seen, x) == Dumped([Alias(ids[x - 1])], seen)
  {
  }

  lemma {:induction false} DumpFirst(g: seq<Node>, ids: seq<nat>, seen: set<nat>, x: nat)
    requires GraphOk(g) && 1 <= x <= |g| == |ids| && seen <= UpTo(|g|) && x !in seen
    ensures Indices(g, Items(g[x - 1])) && seen + {x} <= UpTo(|g|)
    ensures var node := g[x - 1];
            var w, d := WalkAll(g, seen + {x}, Items(node)), DumpAll(g, ids, seen + {x}, Items(node));
            && Walk(g, seen, x) == Walked([x] + w.trace, w.seen)
            && (node.Leaf? ==> w == Walked([], seen + {x}) && Dump(g, ids, seen, x) == Dumped([Scalar(NameOf(ids[x - 1]), node.data)], seen + {x}))
            && (node.Collection? ==>
                  Dump(g, ids, seen, x)
                  == Dumped([Start(NameOf(ids[x - 1]), node.data, node.mapping)] + d.text + [End(node.mapping)], d.seen))
  {
  }

  function DumpAll(g: seq<Node>, ids: seq<nat>, seen: set<nat>, xs: seq<nat>): (d: Dumped)
    requires GraphOk(g) && Indices(g, xs) && |g| == |ids| && seen <= UpTo(|g|)
    ensures d.seen == WalkAll(g, seen, xs).seen
    decreases UpTo(|g|) - seen, 1, |xs|
  {
    if xs == [] then Dumped([], seen)
    else
      var a := Dump(g, ids, seen, xs[0]);
      var b := DumpAll(g, ids, a.seen, xs[1..]);
      Dumped(a.text + b.text, b.seen)
  }

  lemma {:induction false} WalkJoin(g: seq<Node>, seen: set<nat>, xs: seq<nat>, ys: seq<nat>)
    requires GraphOk(g) && Indices(g, xs) && Indices(g, ys) && seen <= UpTo(|g|)
    ensures var a := WalkAll(g, seen, xs);
            var b := WalkAll(g, a.seen, ys);
            Indices(g, xs + ys) && WalkAll(g, seen, xs + ys) == Walked(a.trace + b.trace, b.seen)
    decreases |xs|
  {
    hide Walk;
    if xs == [] {
      assert xs + ys == ys;
    } else {
      assert (xs + ys)[1..] == xs[1..] + ys;
      var a := Walk(g, seen, xs[0]);
      WalkJoin(g, a.seen, xs[1..], ys);
      var c := WalkAll(g, a.seen, xs[1..]);
      assert a.trace + (c.trace + WalkAll(g, c.seen, ys).trace) == (a.trace + c.trace) + WalkAll(g, c.seen, ys).trace;
    }
  }

  lemma {:induction false} DumpJoin(g: seq<Node>, ids: seq<nat>, seen: set<nat>, xs: seq<nat>, ys: seq<nat>)
    requires GraphOk(g) && Indices(g, xs) && Indices(g, ys) && |g| == |ids| && seen <= UpTo(|g|)
    ensures var a := DumpAll(g, ids, seen, xs);
            var b := DumpAll(g, ids, a.seen, ys);
            Indices(g, xs + ys) && DumpAll(g, ids, seen, xs + ys) == Dumped(a.text + b.text, b.seen)
    decreases |xs|
  {
    hide Walk, Dump, WalkAll;
    if xs == [] {
      assert xs + ys == ys;
    } else {
      assert (xs + ys)[1..] == xs[1..] + ys;
      var a := Dump(g, ids, seen, xs[0]);
      DumpJoin(g, ids, a.seen, xs[1..], ys);
      var c := DumpAll(g, ids, a.seen, xs[1..]);
      assert a.text + (c.text + DumpAll(g, ids, c.seen, ys).text) == (a.text + c.text) + DumpAll(g, ids, c.seen, ys).text;
    }
  }
}
