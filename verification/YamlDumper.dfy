/** The dumper of the YAML library: counts references, gives out anchors, writes nodes (dumper.c). */
module YamlDumper {
  import opened YamlGraph

  /** The nodes counted at least once. */
  function Referenced(references: seq<nat>): set<nat> {
    set i: nat | 1 <= i <= |references| && HasReference(references, i)
  }

  predicate HasReference(references: seq<nat>, i: nat) {
    1 <= i <= |references| && references[i - 1] > 0
  }

  function Written(serialized: seq<bool>): set<nat> {
    set i: nat | 1 <= i <= |serialized| && IsWritten(serialized, i)
  }

  predicate IsWritten(serialized: seq<bool>, i: nat) {
    1 <= i <= |serialized| && serialized[i - 1]
  }

  /** A node has an anchor once it is referenced twice; anchors differ. */
  predicate AnchorsOk(references: seq<nat>, anchors: seq<nat>, last: nat) {
    && |anchors| == |references|
    && (forall i :: 0 <= i < |anchors| ==> (anchors[i] != 0 <==> references[i] >= 2) && anchors[i] <= last)
    && (forall i, j :: 0 <= i < j < |anchors| && anchors[i] != 0 ==> anchors[i] != anchors[j])
  }

  /** Counting adds the visits of the walk. */
  ghost predicate Counted(before: seq<nat>, after: seq<nat>, trace: seq<nat>) {
    |after| == |before| && forall x :: 1 <= x <= |before| ==> after[x - 1] == before[x - 1] + Count(trace, x)
  }

  class Dumper {
    const nodes: seq<Node>
    var references: seq<nat>
    var anchors: seq<nat>
    var serialized: seq<bool>
    var lastAnchorId: nat
    var out: seq<Event>
    /** The nodes taken up by DumpNode, in order. */
    ghost var visits: seq<nat>

    constructor (nodes: seq<Node>)
      requires GraphOk(nodes)
      ensures this.nodes == nodes && Valid() && out == [] && visits == []
      ensures Referenced(references) == {} && Written(serialized) == {}
      ensures forall i :: 0 <= i < |nodes| ==> references[i] == 0
    {
      this.nodes := nodes;
      references, anchors := seq(|nodes|, _ => 0), seq(|nodes|, _ => 0);
      serialized, lastAnchorId, out, visits := seq(|nodes|, _ => false), 0, [], [];
    }

    predicate Valid()
      reads this
    {
      GraphOk(nodes) && |references| == |anchors| == |serialized| == |nodes| && AnchorsOk(references, anchors, lastAnchorId)
    }

    /** Counts a reference to node x, and at the first one those it makes. It ends on every graph,
        since a node is entered only while it has no reference. */
    method AnchorNode(x: nat)
      requires Valid() && 1 <= x <= |nodes|
      modifies this`references, this`anchors, this`lastAnchorId
      ensures Valid()
      ensures var w := Walk(nodes, old(Referenced(references)), x);
              Counted(old(references), references, w.trace) && Referenced(references) == w.seen
      decreases UpTo(|nodes|) - Referenced(references), 0
    {
      ghost var r0, seen := references, Referenced(references);
      references := references[x - 1 := references[x - 1] + 1];
      if references[x - 1] == 1 {
        Entered(r0, x);
        assert forall i :: 0 <= i < |anchors| ==> (anchors[i] != 0 <==> references[i] >= 2);
        ghost var r1 := references;
        AnchorAll(Items(nodes[x - 1]));
        FirstVisit(r0, r1, references, x, WalkAll(nodes, seen + {x}, Items(nodes[x - 1])).trace);
      } else {
        if references[x - 1] == 2 {
          lastAnchorId := lastAnchorId + 1;
          anchors := anchors[x - 1 := lastAnchorId];
        }
        LaterVisit(r0, x);
      }
    }

    method AnchorAll(items: seq<nat>)
      requires Valid() && Indices(nodes, items)
      modifies this`references, this`anchors, this`lastAnchorId
      ensures Valid()
      ensures var w := WalkAll(nodes, old(Referenced(references)), items);
              Counted(old(references), references, w.trace) && Referenced(references) == w.seen
      decreases UpTo(|nodes|) - Referenced(references), 1
    {
      hide Walk, WalkAll, Referenced, AnchorsOk;
      ghost var seen := Referenced(references);
      ReferencedOk(references);
      NoneCounted(references);
      EmptyWalk(nodes, anchors, seen);
      var k := 0;
      while k < |items|
        invariant 0 <= k <= |items| && Valid()
        invariant var w := WalkAll(nodes, seen, items[..k]);
                  Counted(old(references), references, w.trace) && Referenced(references) == w.seen
      {
        assert items[..k + 1] == items[..k] + [items[k]];
        WalkJoin(nodes, seen, items[..k], [items[k]]);
        OneItem(nodes, Referenced(references), items[k]);
        ghost var r := references;
        AnchorNode(items[k]);
        CountedJoin(old(references), r, references, WalkAll(nodes, seen, items[..k]).trace,
                    Walk(nodes, Referenced(r), items[k]).trace);
        k := k + 1;
      }
      assert items[..k] == items;
    }

    /** Writes node x: an alias if it has been written. */
    method DumpNode(x: nat)
      requires Valid() && 1 <= x <= |nodes|
      modifies this`serialized, this`out, this`visits
      ensures Valid()
      ensures var d, w := Dump(nodes, anchors, old(Written(serialized)), x), Walk(nodes, old(Written(serialized)), x);
              out == old(out) + d.text && Written(serialized) == d.seen && visits == old(visits) + w.trace
      decreases UpTo(|nodes|) - Written(serialized), 0
    {
      hide Walk, WalkAll, Dump, YamlGraph.DumpAll, Written, AnchorsOk;
      ghost var seen := Written(serialized);
      SeenOk(serialized, x);
      visits := visits + [x];
      var name := NameOf(anchors[x - 1]);
      if serialized[x - 1] {
        DumpAgain(nodes, anchors, seen, x);
        out := out + [Alias(anchors[x - 1])];
        return;
      }
      DumpFirst(nodes, anchors, seen, x);
      serialized := serialized[x - 1 := true];
      match nodes[x - 1] {
        case Leaf(data) =>
          out := out + [Scalar(name, data)];
        case Collection(data, mapping, items) =>
          out := out + [Start(name, data, mapping)];
          DumpAll(items);
          out := out + [End(mapping)];
      }
    }

    method DumpAll(items: seq<nat>)
      requires Valid() && Indices(nodes, items)
      modifies this`serialized, this`out, this`visits
      ensures Valid()
      ensures var d, w := YamlGraph.DumpAll(nodes, anchors, old(Written(serialized)), items),
                          WalkAll(nodes, old(Written(serialized)), items);
              out == old(out) + d.text && Written(serialized) == d.seen && visits == old(visits) + w.trace
      decreases UpTo(|nodes|) - Written(serialized), 1
    {
      hide Walk, WalkAll, Dump, YamlGraph.DumpAll, Written, AnchorsOk;
      ghost var seen := Written(serialized);
      SeenOk(serialized, 1);
      EmptyWalk(nodes, anchors, seen);
      var k := 0;
      while k < |items|
        invariant 0 <= k <= |items| && Valid()
        invariant var d, w := YamlGraph.DumpAll(nodes, anchors, seen, items[..k]), WalkAll(nodes, seen, items[..k]);
                  out == old(out) + d.text && Written(serialized) == d.seen && visits == old(visits) + w.trace
      {
        assert items[..k + 1] == items[..k] + [items[k]];
        WalkJoin(nodes, seen, items[..k], [items[k]]);
        DumpJoin(nodes, anchors, seen, items[..k], [items[k]]);
        OneItem(nodes, Written(serialized), items[k]);
        OneText(nodes, anchors, Written(serialized), items[k]);
        DumpNode(items[k]);
        assert items[..k] + [items[k]] == items[..k + 1];
        k := k + 1;
      }
      assert items[..k] == items;
    }
  }

  lemma {:induction false} SeenOk(serialized: seq<bool>, x: nat)
    ensures Written(serialized) <= UpTo(|serialized|)
    ensures 1 <= x <= |serialized| ==>
              (serialized[x - 1] <==> x in Written(serialized))
              && Written(serialized[x - 1 := true]) == Written(serialized) + {x}
  {
  }

  lemma {:induction false} ReferencedOk(references: seq<nat>)
    ensures Referenced(references) <= UpTo(|references|)
  {
  }

  lemma {:induction false} NoneCounted(references: seq<nat>)
    ensures Counted(references, references, [])
  {
  }

  lemma {:induction false} EmptyWalk(g: seq<Node>, ids: seq<nat>, seen: set<nat>)
    requires GraphOk(g) && |g| == |ids| && seen <= UpTo(|g|)
    ensures WalkAll(g, seen, []) == Walked([], seen) && DumpAll(g, ids, seen, []) == Dumped([], seen)
  {
  }

  lemma {:induction false} OneItem(g: seq<Node>, seen: set<nat>, x: nat)
    requires GraphOk(g) && 1 <= x <= |g| && seen <= UpTo(|g|)
    ensures Indices(g, [x]) && WalkAll(g, seen, [x]) == Walk(g, seen, x)
  {
    var a := Walk(g, seen, x);
    assert [x][1..] == [];
    assert WalkAll(g, a.seen, []) == Walked([], a.seen);
    assert a.trace + [] == a.trace;
  }

  lemma {:induction false} OneText(g: seq<Node>, ids: seq<nat>, seen: set<nat>, x: nat)
    requires GraphOk(g) && 1 <= x <= |g| == |ids| && seen <= UpTo(|g|)
    ensures Indices(g, [x]) && DumpAll(g, ids, seen, [x]) == Dump(g, ids, seen, x)
  {
    var a := Dump(g, ids, seen, x);
    assert [x][1..] == [];
    assert DumpAll(g, ids, a.seen, []) == Dumped([], a.seen);
    assert a.text + [] == a.text;
  }

  lemma {:induction false} Entered(r0: seq<nat>, x: nat)
    requires 1 <= x <= |r0| && r0[x - 1] == 0
    ensures x !in Referenced(r0) && Referenced(r0[x - 1 := 1]) == Referenced(r0) + {x}
  {
  }

  lemma {:induction false} FirstVisit(r0: seq<nat>, r1: seq<nat>, r2: seq<nat>, x: nat, trace: seq<nat>)
    requires 1 <= x <= |r0| && r0[x - 1] == 0 && r1 == r0[x - 1 := 1] && Counted(r1, r2, trace)
    ensures Counted(r0, r2, [x] + trace)
  {
    assert ([x] + trace)[1..] == trace;
  }

  lemma {:induction false} LaterVisit(r0: seq<nat>, x: nat)
    requires 1 <= x <= |r0| && r0[x - 1] > 0
    ensures Counted(r0, r0[x - 1 := r0[x - 1] + 1], [x])
    ensures x in Referenced(r0) && Referenced(r0[x - 1 := r0[x - 1] + 1]) == Referenced(r0)
  {
    var r := r0[x - 1 := r0[x - 1] + 1];
    forall y | 1 <= y <= |r0|
      ensures r[y - 1] == r0[y - 1] + Count([x], y)
    {
      assert [x][1..] == [];
    }
    assert forall y :: HasReference(r, y) <==> HasReference(r0, y);
  }

  lemma {:induction false} CountedJoin(r0: seq<nat>, r1: seq<nat>, r2: seq<nat>, a: seq<nat>, b: seq<nat>)
    requires Counted(r0, r1, a) && Counted(r1, r2, b)
    ensures Counted(r0, r2, a + b)
  {
    forall x | 1 <= x <= |r0|
      ensures r2[x - 1] == r0[x - 1] + Count(a + b, x)
    {
      CountJoin(a, b, x);
    }
  }

  /** yaml_emitter_dump, between the events of the document: every node is taken up exactly as often as
      it was counted; a node has an anchor exactly if it is taken up twice or more. */
  method DumpDocument(d: Dumper)
    requires d.Valid() && d.nodes != [] && d.out == [] && d.visits == [] && Written(d.serialized) == {}
    requires forall i :: 0 <= i < |d.nodes| ==> d.references[i] == 0
    modifies d
    ensures d.Valid() && d.out == Dump(d.nodes, d.anchors, {}, 1).text && d.visits == Walk(d.nodes, {}, 1).trace
    ensures forall x :: 1 <= x <= |d.nodes| ==> d.references[x - 1] == Count(d.visits, x)
  {
    assert Referenced(d.references) == {};
    d.AnchorNode(1);
    d.DumpNode(1);
  }
}
