/**
 * The event grammar against an independent definition: the complete streams it accepts are exactly
 * the events of a list of documents, each a tree of nodes in which mappings hold keys and values
 * alternately.
 */
module YamlTrees {
  import opened YamlEvents

  /** The items of a mapping are its keys and values in turn. */
  datatype Tree =
    | AliasNode
    | ScalarNode
    | SequenceNode(flow: bool, items: seq<Tree>)
    | MappingNode(flow: bool, items: seq<Tree>)

  predicate Proper(t: Tree) {
    match t
    case SequenceNode(_, items) => forall k :: 0 <= k < |items| ==> Proper(items[k])
    case MappingNode(_, items) => |items| % 2 == 0 && forall k :: 0 <= k < |items| ==> Proper(items[k])
    case _ => true
  }

  predicate AllProper(ts: seq<Tree>) {
    forall k :: 0 <= k < |ts| ==> Proper(ts[k])
  }

  function Text(t: Tree): seq<Event> {
    match t
    case AliasNode => [Alias]
    case ScalarNode => [Scalar]
    case SequenceNode(flow, items) => [SequenceStart(flow)] + Texts(items) + [SequenceEnd]
    case MappingNode(flow, items) => [MappingStart(flow)] + Texts(items) + [MappingEnd]
  }

  function Texts(ts: seq<Tree>): seq<Event> {
    if ts == [] then [] else Texts(ts[..|ts| - 1]) + Text(ts[|ts| - 1])
  }

  lemma {:induction false} TextsFront(t: Tree, ts: seq<Tree>)
    ensures Texts([t] + ts) == Text(t) + Texts(ts)
    decreases |ts|
  {
    var all := [t] + ts;
    if ts == [] {
      assert all == [t] && [t][..0] == [];
    } else {
      assert all[..|all| - 1] == [t] + ts[..|ts| - 1];
      TextsFront(t, ts[..|ts| - 1]);
    }
  }

  function Documents(docs: seq<Tree>): seq<Event> {
    if docs == [] then []
    else Documents(docs[..|docs| - 1]) + ([DocumentStart] + Text(docs[|docs| - 1]) + [DocumentEnd])
  }

  function DocumentText(t: Tree): seq<Event> {
    [DocumentStart] + Text(t) + [DocumentEnd]
  }

  lemma {:induction false} DocumentsFront(t: Tree, ts: seq<Tree>)
    ensures Documents([t] + ts) == DocumentText(t) + Documents(ts)
    decreases |ts|
  {
    hide Text;
    var all := [t] + ts;
    if ts == [] {
      assert all == [t] && [t][..0] == [];
      assert Documents([]) == [];
    } else {
      assert all[..|all| - 1] == [t] + ts[..|ts| - 1];
      DocumentsFront(t, ts[..|ts| - 1]);
    }
  }

  function Stream(docs: seq<Tree>): seq<Event> {
    [StreamStart] + Documents(docs) + [StreamEnd]
  }

  // ----- every stream of trees is accepted -----

  lemma {:induction false} AcceptJoin(g: Progress, a: seq<Event>, b: seq<Event>)
    ensures AcceptAll(g, a + b) == match AcceptAll(g, a) { case Accepted(h) => AcceptAll(h, b) case Rejected => Rejected }
    decreases |a|
  {
    hide Accept;
    if a == [] {
      assert a + b == b;
    } else {
      assert (a + b)[1..] == a[1..] + b;
      if Accept(g, a[0]).Accepted? { AcceptJoin(Accept(g, a[0]).to, a[1..], b); }
    }
  }

  lemma {:induction false} AcceptOne(g: Progress, e: Event)
    ensures AcceptAll(g, [e]) == Accept(g, e)
  {
    assert [e][1..] == [];
  }

  /** What a collection expects after n nodes. */
  function Turn(o: Open, n: nat): Open {
    if n % 2 == 0 then o else Filled(o)
  }

  lemma {:induction false} ItemsAccepted(below: seq<Open>, o: Open, ts: seq<Tree>)
    requires (o == Item || o == Key) && AllProper(ts)
    ensures AcceptAll(Inside(below + [o]), Texts(ts)) == Accepted(Inside(below + [Turn(o, |ts|)]))
    decreases ts, 0
  {
    hide Accept, Proper;
    if ts != [] {
      var r, t := ts[..|ts| - 1], ts[|ts| - 1];
      ItemsAccepted(below, o, r);
      AcceptJoin(Inside(below + [o]), Texts(r), Text(t));
      TreeAccepted(below, Turn(o, |r|), t);
    }
  }

  lemma {:induction false} TreeAccepted(below: seq<Open>, o: Open, t: Tree)
    requires o != RootDone && Proper(t)
    ensures AcceptAll(Inside(below + [o]), Text(t)) == Accepted(Inside(below + [Filled(o)]))
    decreases t
  {
    var g := Inside(below + [o]);
    assert (below + [o])[..|below|] == below;
    match t
    case AliasNode => AcceptOne(g, Alias); assert below + [Filled(o)] + [] == below + [Filled(o)];
    case ScalarNode => AcceptOne(g, Scalar); assert below + [Filled(o)] + [] == below + [Filled(o)];
    case SequenceNode(flow, items) => CollectionAccepted(below, o, SequenceStart(flow), Item, items, SequenceEnd);
    case MappingNode(flow, items) => CollectionAccepted(below, o, MappingStart(flow), Key, items, MappingEnd);
  }

  lemma {:induction false} CollectionAccepted(below: seq<Open>, o: Open, start: Event, inner: Open, items: seq<Tree>, end: Event)
    requires o != RootDone && AllProper(items)
    requires if start.SequenceStart? then inner == Item && end == SequenceEnd
             else start.MappingStart? && inner == Key && end == MappingEnd && |items| % 2 == 0
    ensures AcceptAll(Inside(below + [o]), [start] + Texts(items) + [end]) == Accepted(Inside(below + [Filled(o)]))
    decreases items, 1
  {
    hide Proper;
    var g, open := Inside(below + [o]), below + [Filled(o)];
    assert (below + [o])[..|below|] == below;
    AcceptOne(g, start);
    AcceptJoin(g, [start], Texts(items));
    ItemsAccepted(open, inner, items);
    AcceptJoin(g, [start] + Texts(items), [end]);
    assert (open + [inner])[..|open|] == open;
    AcceptOne(Inside(open + [inner]), end);
  }

  lemma {:induction false} DocumentsAccepted(docs: seq<Tree>)
    requires AllProper(docs)
    ensures AcceptAll(Between, Documents(docs)) == Accepted(Between)
    decreases |docs|
  {
    hide Proper;
    if docs != [] {
      var r, t := docs[..|docs| - 1], docs[|docs| - 1];
      DocumentsAccepted(r);
      AcceptJoin(Between, Documents(r), [DocumentStart] + Text(t) + [DocumentEnd]);
      AcceptOne(Between, DocumentStart);
      AcceptJoin(Between, [DocumentStart], Text(t));
      assert [] + [Root] == [Root] && [] + [RootDone] == [RootDone];
      TreeAccepted([], Root, t);
      AcceptJoin(Between, [DocumentStart] + Text(t), [DocumentEnd]);
      AcceptOne(Inside([RootDone]), DocumentEnd);
    }
  }

  // ----- every complete stream accepted is one of trees -----

  /** A node not yet complete, with the children it has so far. */
  datatype Frame = DocumentFrame(children: seq<Tree>) | SequenceFrame(flow: bool, children: seq<Tree>)
                 | MappingFrame(flow: bool, children: seq<Tree>)

  function Begun(f: Frame): Event {
    match f
    case DocumentFrame(_) => DocumentStart
    case SequenceFrame(flow, _) => SequenceStart(flow)
    case MappingFrame(flow, _) => MappingStart(flow)
  }

  function Expects(f: Frame): Open {
    match f
    case DocumentFrame(c) => if c == [] then Root else RootDone
    case SequenceFrame(_, _) => Item
    case MappingFrame(_, c) => Turn(Key, |c|)
  }

  predicate FrameOk(f: Frame) {
    AllProper(f.children) && (f.DocumentFrame? ==> |f.children| <= 1)
  }

  predicate FramesOk(fs: seq<Frame>) {
    && (forall k :: 0 <= k < |fs| ==> FrameOk(fs[k]) && (fs[k].DocumentFrame? <==> k == 0))
    && (forall k :: 0 <= k < |fs| - 1 ==> Expects(fs[k]) != RootDone)
  }

  function FrameText(f: Frame): seq<Event> {
    [Begun(f)] + Texts(f.children)
  }

  function FramesText(fs: seq<Frame>): seq<Event> {
    if fs == [] then [] else FramesText(fs[..|fs| - 1]) + FrameText(fs[|fs| - 1])
  }

  /** The open nodes of the acceptor: below the last frame a node has been filled. */
  predicate Matches(open: seq<Open>, fs: seq<Frame>) {
    && |open| == |fs|
    && forall k :: 0 <= k < |fs| ==> open[k] == if k < |fs| - 1 then Filled(Expects(fs[k])) else Expects(fs[k])
  }

  /** es are the events of docs and frames, which are what g stands for. */
  predicate Represents(g: Progress, docs: seq<Tree>, fs: seq<Frame>, es: seq<Event>) {
    && AllProper(docs) && FramesOk(fs)
    && match g
       case Before => es == [] && fs == [] && docs == []
       case Between => fs == [] && es == [StreamStart] + Documents(docs)
       case Inside(open) => fs != [] && Matches(open, fs) && es == [StreamStart] + Documents(docs) + FramesText(fs)
       case After => fs == [] && es == Stream(docs)
  }

  function WithChild(f: Frame, t: Tree): Frame {
    match f
    case DocumentFrame(c) => DocumentFrame(c + [t])
    case SequenceFrame(flow, c) => SequenceFrame(flow, c + [t])
    case MappingFrame(flow, c) => MappingFrame(flow, c + [t])
  }

  /** A child complete: the frame's text grows by its text, and the frame expects the next. */
  lemma {:induction false} ChildAdded(f: Frame, t: Tree)
    requires FrameOk(f) && Proper(t) && Expects(f) != RootDone
    ensures FrameOk(WithChild(f, t)) && Expects(WithChild(f, t)) == Filled(Expects(f))
    ensures FrameText(WithChild(f, t)) == FrameText(f) + Text(t)
  {
    hide Proper, Text;
    var c := f.children;
    assert (c + [t])[..|c|] == c;
    assert Texts(c + [t]) == Texts(c) + Text(t);
  }

  lemma {:induction false} FramesSnoc(fs: seq<Frame>, f: Frame)
    ensures FramesText(fs + [f]) == FramesText(fs) + FrameText(f)
  {
    assert (fs + [f])[..|fs|] == fs;
  }

  /** The last frame takes a complete child. */
  lemma {:induction false} LeafStep(open: seq<Open>, docs: seq<Tree>, fs: seq<Frame>, es: seq<Event>, t: Tree)
    requires Represents(Inside(open), docs, fs, es) && open[|open| - 1] != RootDone && Proper(t)
    ensures var n := |fs| - 1;
            Represents(Inside(open[..n] + [Filled(open[n])]), docs, fs[..n] + [WithChild(fs[n], t)], es + Text(t))
  {
    hide Text, Texts, Proper, FrameText, Documents, Expects;
    var n := |fs| - 1;
    var f := fs[n];
    assert fs == fs[..n] + [f];
    ChildAdded(f, t);
    FramesSnoc(fs[..n], f);
    FramesSnoc(fs[..n], WithChild(f, t));
    assert es + Text(t) == [StreamStart] + Documents(docs) + (FramesText(fs[..n]) + (FrameText(f) + Text(t)));
  }

  /** A collection begins: a frame is put on top. */
  lemma {:induction false} BeginStep(open: seq<Open>, docs: seq<Tree>, fs: seq<Frame>, es: seq<Event>, f: Frame)
    requires Represents(Inside(open), docs, fs, es) && open[|open| - 1] != RootDone && !f.DocumentFrame? && f.children == []
    ensures var n := |fs| - 1;
            Represents(Inside(open[..n] + [Filled(open[n])] + [Expects(f)]), docs, fs + [f], es + [Begun(f)])
  {
    hide Texts, Proper, Documents, Expects;
    FramesSnoc(fs, f);
    assert FrameText(f) == [Begun(f)] by { NoText(); }
    assert es + [Begun(f)] == [StreamStart] + Documents(docs) + (FramesText(fs) + [Begun(f)]);
  }

  lemma {:induction false} NoText()
    ensures Texts([]) == []
  {
  }

  function TreeOf(f: Frame): Tree
    requires !f.DocumentFrame?
  {
    if f.SequenceFrame? then SequenceNode(f.flow, f.children) else MappingNode(f.flow, f.children)
  }

  function EndOf(f: Frame): Event {
    if f.SequenceFrame? then SequenceEnd else MappingEnd
  }

  lemma {:induction false} FrameTree(f: Frame)
    requires FrameOk(f) && !f.DocumentFrame? && (f.MappingFrame? ==> |f.children| % 2 == 0)
    ensures Proper(TreeOf(f)) && Text(TreeOf(f)) == FrameText(f) + [EndOf(f)]
  {
  }

  /** The frames below the last one stand for the stream before it. */
  lemma {:induction false} Below(open: seq<Open>, docs: seq<Tree>, fs: seq<Frame>, es: seq<Event>)
    requires Represents(Inside(open), docs, fs, es) && |fs| >= 2
    ensures var n := |fs| - 1;
            var before := [StreamStart] + Documents(docs) + FramesText(fs[..n]);
            && |open| == n + 1 && FrameOk(fs[n]) && !fs[n].DocumentFrame?
            && Expects(fs[n - 1]) != RootDone && open[n - 1] == Filled(Expects(fs[n - 1]))
            && es == before + FrameText(fs[n])
            && Represents(Inside(open[..n - 1] + [Expects(fs[n - 1])]), docs, fs[..n], before)
  {
    hide Text, Texts, Proper, FrameText, Documents, Expects;
    var n := |fs| - 1;
    assert fs == fs[..n] + [fs[n]];
    FramesSnoc(fs[..n], fs[n]);
    assert fs[..n][n - 1] == fs[n - 1];
  }

  /** A collection ends: its frame becomes a child of the frame below. */
  lemma {:induction false} EndStep(open: seq<Open>, docs: seq<Tree>, fs: seq<Frame>, es: seq<Event>)
    requires Represents(Inside(open), docs, fs, es) && |fs| >= 2
    requires var f := fs[|fs| - 1]; f.MappingFrame? ==> |f.children| % 2 == 0
    ensures var n := |fs| - 1;
            Represents(Inside(open[..n]), docs, fs[..n - 1] + [WithChild(fs[n - 1], TreeOf(fs[n]))], es + [EndOf(fs[n])])
  {
    hide Text, Texts, Proper, FrameText, Documents, Expects, Represents;
    Below(open, docs, fs, es);
    var n := |fs| - 1;
    var f, t := fs[n], TreeOf(fs[n]);
    var before := [StreamStart] + Documents(docs) + FramesText(fs[..n]);
    var o := open[..n - 1] + [Expects(fs[n - 1])];
    FrameTree(f);
    LeafStep(o, docs, fs[..n], before, t);
    assert o[..n - 1] + [Filled(o[n - 1])] == open[..n];
    assert fs[..n][..n - 1] == fs[..n - 1];
    assert before + Text(t) == es + [EndOf(f)];
  }

  lemma {:induction false} DocumentStep(docs: seq<Tree>, t: Tree)
    requires AllProper(docs) && Proper(t)
    ensures AllProper(docs + [t])
    ensures Documents(docs + [t]) == Documents(docs) + ([DocumentStart] + Text(t) + [DocumentEnd])
  {
    hide Proper, Text;
    assert (docs + [t])[..|docs|] == docs;
  }

  lemma {:induction false} OneDocument(fs: seq<Frame>, t: Tree)
    requires |fs| == 1 && fs[0].DocumentFrame? && |fs[0].children| == 1 && t == fs[0].children[0]
    ensures FramesText(fs) == [DocumentStart] + Text(t)
  {
    hide Text;
    var c := fs[0].children;
    assert c[..0] == [] && fs[..0] == [];
    NoText();
    assert Texts(c) == Texts(c[..0]) + Text(t);
    assert FramesText(fs) == FramesText(fs[..0]) + FrameText(fs[0]);
  }

  /** The document ends: its frame becomes a document. */
  lemma {:induction false} DocumentEndStep(docs: seq<Tree>, fs: seq<Frame>, es: seq<Event>)
    requires Represents(Inside([RootDone]), docs, fs, es)
    ensures |fs| == 1 && |fs[0].children| == 1
    ensures Represents(Between, docs + [fs[0].children[0]], [], es + [DocumentEnd])
  {
    hide Text, Texts, Proper, FrameText, Documents, FramesText;
    assert |fs| == 1 && Expects(fs[0]) == RootDone;
    var t := fs[0].children[0];
    OneDocument(fs, t);
    DocumentStep(docs, t);
    assert es + [DocumentEnd] == [StreamStart] + (Documents(docs) + ([DocumentStart] + Text(t) + [DocumentEnd]));
  }

  lemma {:induction false} DocumentStartStep(docs: seq<Tree>, es: seq<Event>)
    requires Represents(Between, docs, [], es)
    ensures Represents(Inside([Root]), docs, [DocumentFrame([])], es + [DocumentStart])
  {
    var fs := [DocumentFrame([])];
    assert fs[..0] == [];
    assert FramesText(fs) == [DocumentStart] by { NoText(); }
  }

  /** Every step of the acceptor is one of documents and frames. */
  lemma {:induction false} StepRepresented(g: Progress, docs: seq<Tree>, fs: seq<Frame>, es: seq<Event>, e: Event)
    returns (docs1: seq<Tree>, fs1: seq<Frame>)
    requires Represents(g, docs, fs, es) && Accept(g, e).Accepted?
    ensures Represents(Accept(g, e).to, docs1, fs1, es + [e])
  {
    docs1, fs1 := docs, fs;
    match g
    case Before =>
      assert es + [e] == [StreamStart] + Documents([]);
    case Between =>
      if e.DocumentStart? {
        DocumentStartStep(docs, es);
        fs1 := [DocumentFrame([])];
      } else {
        assert es + [e] == Stream(docs);
      }
    case After =>
    case Inside(open) => docs1, fs1 := InsideStep(open, docs, fs, es, e);
  }

  lemma {:induction false} InsideStep(open: seq<Open>, docs: seq<Tree>, fs: seq<Frame>, es: seq<Event>, e: Event)
    returns (docs1: seq<Tree>, fs1: seq<Frame>)
    requires Represents(Inside(open), docs, fs, es) && Accept(Inside(open), e).Accepted?
    ensures Represents(Accept(Inside(open), e).to, docs1, fs1, es + [e])
  {
    hide Represents, Documents, Text, Texts, Proper;
    Top(open, docs, fs, es);
    docs1, fs1 := docs, fs;
    var n := |fs| - 1;
    match e
    case DocumentEnd =>
      DocumentEndStep(docs, fs, es);
      docs1, fs1 := docs + [fs[0].children[0]], [];
    case Alias =>
      Leaf(open, docs, fs, es, AliasNode, e);
      fs1 := fs[..n] + [WithChild(fs[n], AliasNode)];
    case Scalar =>
      Leaf(open, docs, fs, es, ScalarNode, e);
      fs1 := fs[..n] + [WithChild(fs[n], ScalarNode)];
    case SequenceStart(flow) =>
      BeginStep(open, docs, fs, es, SequenceFrame(flow, []));
      fs1 := fs + [SequenceFrame(flow, [])];
    case MappingStart(flow) =>
      BeginStep(open, docs, fs, es, MappingFrame(flow, []));
      fs1 := fs + [MappingFrame(flow, [])];
    case SequenceEnd =>
      EndStep(open, docs, fs, es);
      fs1 := fs[..n - 1] + [WithChild(fs[n - 1], TreeOf(fs[n]))];
    case MappingEnd =>
      EndStep(open, docs, fs, es);
      fs1 := fs[..n - 1] + [WithChild(fs[n - 1], TreeOf(fs[n]))];
    case StreamStart =>
    case StreamEnd =>
    case DocumentStart =>
  }

  lemma {:induction false} Leaf(open: seq<Open>, docs: seq<Tree>, fs: seq<Frame>, es: seq<Event>, t: Tree, e: Event)
    requires Represents(Inside(open), docs, fs, es) && open[|open| - 1] != RootDone
    requires (t.AliasNode? && e.Alias?) || (t.ScalarNode? && e.Scalar?)
    ensures var n := |fs| - 1;
            Represents(Inside(open[..n] + [Filled(open[n])] + []), docs, fs[..n] + [WithChild(fs[n], t)], es + [e])
  {
    hide Documents, FramesText;
    var n := |fs| - 1;
    LeafStep(open, docs, fs, es, t);
    assert open[..n] + [Filled(open[n])] + [] == open[..n] + [Filled(open[n])];
  }

  /** What the last open node says about the last frame. */
  lemma {:induction false} Top(open: seq<Open>, docs: seq<Tree>, fs: seq<Frame>, es: seq<Event>)
    requires Represents(Inside(open), docs, fs, es)
    ensures fs != [] && |open| == |fs|
    ensures var o, f := open[|open| - 1], fs[|fs| - 1];
            && (o == Item ==> f.SequenceFrame? && |fs| >= 2)
            && (o == Key ==> f.MappingFrame? && |f.children| % 2 == 0 && |fs| >= 2)
  {
  }

  lemma {:induction false} AllRepresented(es: seq<Event>) returns (docs: seq<Tree>, fs: seq<Frame>)
    requires AcceptAll(Before, es).Accepted?
    ensures Represents(AcceptAll(Before, es).to, docs, fs, es)
    decreases |es|
  {
    hide Represents, Accept;
    if es == [] {
      docs, fs := [], [];
      Nothing();
    } else {
      var r, e := es[..|es| - 1], es[|es| - 1];
      assert es == r + [e];
      AcceptSnoc(Before, r, e);
      docs, fs := AllRepresented(r);
      docs, fs := StepRepresented(AcceptAll(Before, r).to, docs, fs, r, e);
    }
  }

  lemma {:induction false} Nothing()
    ensures Represents(Before, [], [], [])
  {
  }

  // ----- both directions -----

  ghost predicate IsStream(es: seq<Event>) {
    exists docs :: AllProper(docs) && es == Stream(docs)
  }

  /** The complete streams accepted are exactly those of documents. */
  lemma {:induction false} GrammarExact(es: seq<Event>)
    ensures AcceptAll(Before, es) == Accepted(After) <==> IsStream(es)
  {
    hide Accept, Documents, Proper;
    if AcceptAll(Before, es) == Accepted(After) {
      var docs, fs := AllRepresented(es);
      assert AllProper(docs) && es == Stream(docs);
    }
    if IsStream(es) {
      var docs :| AllProper(docs) && es == Stream(docs);
      StreamAccepted(docs);
    }
  }

  lemma {:induction false} StreamAccepted(docs: seq<Tree>)
    requires AllProper(docs)
    ensures AcceptAll(Before, Stream(docs)) == Accepted(After)
  {
    hide Documents, Proper;
    AcceptOne(Before, StreamStart);
    AcceptJoin(Before, [StreamStart], Documents(docs));
    DocumentsAccepted(docs);
    AcceptJoin(Before, [StreamStart] + Documents(docs), [StreamEnd]);
    AcceptOne(Between, StreamEnd);
  }
}
