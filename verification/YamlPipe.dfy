/**
 * The parser's events are what the emitter takes: for any tokens and any contents, feeding the one
 * with what the other delivers never meets an unexpected event.
 */
module YamlPipe {
  import opened YamlEvents
  import opened YamlParser
  import opened YamlEmission
  import G = YamlGraph
  import T = YamlTrees

  /** Passes on up to n events. */
  method ParseThenEmit(p: Parser, m: Machine, n: nat) returns (passed: seq<Event>, o: Outcome)
    requires p.Valid() && m.Valid() && !m.failed && p.Progress() == m.received
    modifies p, m
    ensures p.Valid() && m.Valid() && o != Unexpected
    ensures AcceptAll(old(p.Progress()), passed).Accepted?
    ensures o.Fine? && !p.failed ==> AcceptAll(old(p.Progress()), passed) == Accepted(p.Progress()) && m.received == p.Progress()
    ensures o.Fine? && passed != [] && passed[|passed| - 1].StreamEnd? ==> m.events == [] && m.stage.EndStage?
  {
    hide Accept, NeedMore;
    passed, o := [], Fine;
    var k := 0;
    while k < n
      invariant p.Valid() && m.Valid() && !m.failed && o.Fine? && p.Progress() == m.received
      invariant AcceptAll(old(p.Progress()), passed) == Accepted(m.received)
      invariant passed != [] && passed[|passed| - 1].StreamEnd? ==> m.events == [] && m.stage.EndStage?
    {
      var r := p.Parse();
      if !r.Parsed? {
        return;
      }
      AcceptSnoc(old(p.Progress()), passed, r.event);
      passed := passed + [r.event];
      o := m.Emit(r.event);
      if !o.Fine? {
        return;
      }
      k := k + 1;
    }
  }

  // ----- documents with anchors are streams of events -----

  /** The style is part of the data of an event. */
  predicate IsFlow(data: nat) {
    data % 2 == 1
  }

  function Plain(e: G.Event): Event {
    match e
    case Alias(_) => Event.Alias
    case Scalar(_, _) => Event.Scalar
    case SequenceStart(_, data) => Event.SequenceStart(IsFlow(data))
    case SequenceEnd => Event.SequenceEnd
    case MappingStart(_, data) => Event.MappingStart(IsFlow(data))
    case MappingEnd => Event.MappingEnd
  }

  function PlainAll(es: seq<G.Event>): seq<Event> {
    if es == [] then [] else [Plain(es[0])] + PlainAll(es[1..])
  }

  function PlainTree(t: G.Tree): T.Tree {
    match t
    case AliasNode(_) => T.AliasNode
    case ScalarNode(_, _) => T.ScalarNode
    case CollectionNode(_, data, mapping, children) =>
      if mapping then T.MappingNode(IsFlow(data), PlainTrees(children)) else T.SequenceNode(IsFlow(data), PlainTrees(children))
  }

  function PlainTrees(ts: seq<G.Tree>): (r: seq<T.Tree>)
    ensures |r| == |ts|
  {
    if ts == [] then [] else [PlainTree(ts[0])] + PlainTrees(ts[1..])
  }

  lemma {:induction false} PlainJoin(a: seq<G.Event>, b: seq<G.Event>)
    ensures PlainAll(a + b) == PlainAll(a) + PlainAll(b)
    decreases |a|
  {
    if a == [] {
      assert a + b == b;
    } else {
      assert (a + b)[1..] == a[1..] + b;
      PlainJoin(a[1..], b);
    }
  }

  lemma {:induction false} PlainOne(e: G.Event)
    ensures PlainAll([e]) == [Plain(e)]
  {
    assert [e][1..] == [];
  }

  lemma {:induction false} PlainText(t: G.Tree)
    requires G.Proper(t)
    ensures T.Proper(PlainTree(t)) && PlainAll(G.Text(t)) == T.Text(PlainTree(t))
    decreases t, 0
  {
    hide PlainAll;
    match t
    case AliasNode(a) => PlainOne(G.Alias(a));
    case ScalarNode(name, data) => PlainOne(G.Scalar(name, data));
    case CollectionNode(name, data, mapping, children) =>
      PlainTexts(children);
      var start, end := G.Start(name, data, mapping), G.End(mapping);
      PlainOne(start);
      PlainOne(end);
      PlainJoin([start], G.Texts(children));
      PlainJoin([start] + G.Texts(children), [end]);
  }

  lemma {:induction false} PlainTexts(ts: seq<G.Tree>)
    requires forall k :: 0 <= k < |ts| ==> G.Proper(ts[k])
    ensures T.AllProper(PlainTrees(ts)) && PlainAll(G.Texts(ts)) == T.Texts(PlainTrees(ts))
    decreases ts, 1
  {
    hide G.Text, T.Text, G.Proper, T.Proper;
    if ts != [] {
      PlainText(ts[0]);
      PlainTexts(ts[1..]);
      PlainJoin(G.Text(ts[0]), G.Texts(ts[1..]));
      T.TextsFront(PlainTree(ts[0]), PlainTrees(ts[1..]));
    }
  }

  /** The events of a document with anchors are what the grammar expects of its root. */
  lemma {:induction false} DocumentAccepted(t: G.Tree)
    requires G.Proper(t)
    ensures AcceptAll(Inside([Root]), PlainAll(G.Text(t))) == Accepted(Inside([RootDone]))
  {
    PlainText(t);
    assert [] + [Root] == [Root] && [] + [RootDone] == [RootDone];
    T.TreeAccepted([], Root, PlainTree(t));
  }
}
