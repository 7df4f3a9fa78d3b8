/** The loader of the YAML library: events of a document to a graph of nodes (loader.c). */
module YamlLoader {
  import opened YamlGraph

  datatype Anchor = Anchor(name: nat, index: nat)

  /** The nodes loaded so far and the anchors met, in order. */
  datatype Store = Store(nodes: seq<Node>, aliases: seq<Anchor>)

  /** Refused stands for an undefined alias or an anchor met twice. */
  datatype Loaded = Loaded(index: nat, store: Store) | Refused

  datatype AllLoaded = AllLoaded(items: seq<nat>, all: Store) | AllRefused

  predicate Met(aliases: seq<Anchor>, name: nat) {
    exists k :: 0 <= k < |aliases| && aliases[k].name == name
  }

  /** The index an alias stands for, 0 if the anchor has not been met. */
  function Find(aliases: seq<Anchor>, name: nat): nat {
    if aliases == [] then 0 else if aliases[0].name == name then aliases[0].index else Find(aliases[1..], name)
  }

  function WithAnchor(aliases: seq<Anchor>, name: Name, index: nat): seq<Anchor> {
    if name.NoName? then aliases else aliases + [Anchor(name.id, index)]
  }

  predicate Fresh(aliases: seq<Anchor>, name: Name) {
    name.NoName? || !Met(aliases, name.id)
  }

  /** What is loaded from the events of t: nodes in the order in which they begin. */
  function Load(t: Tree, s: Store): (r: Loaded)
    ensures r.Loaded? ==> |s.nodes| <= |r.store.nodes|
    decreases t, 0
  {
    match t
    case AliasNode(a) => if Met(s.aliases, a) then Loaded(Find(s.aliases, a), s) else Refused
    case ScalarNode(name, data) =>
      var n := |s.nodes| + 1;
      if Fresh(s.aliases, name) then Loaded(n, Store(s.nodes + [Leaf(data)], WithAnchor(s.aliases, name, n))) else Refused
    case CollectionNode(name, data, mapping, children) =>
      var n := |s.nodes| + 1;
      if !Fresh(s.aliases, name) then Refused
      else
        match LoadAll(children, Begun(s, name, data, mapping))
        case AllRefused => Refused
        case AllLoaded(items, s1) => Loaded(n, Store(s1.nodes[n - 1 := Collection(data, mapping, items)], s1.aliases))
  }

  /** A collection is there, without items, before its children. */
  function Begun(s: Store, name: Name, data: nat, mapping: bool): Store {
    Store(s.nodes + [Collection(data, mapping, [])], WithAnchor(s.aliases, name, |s.nodes| + 1))
  }

  function LoadAll(ts: seq<Tree>, s: Store): (r: AllLoaded)
    ensures r.AllLoaded? ==> |s.nodes| <= |r.all.nodes| && |r.items| == |ts|
    decreases ts, 1
  {
    if ts == [] then AllLoaded([], s)
    else
      match LoadAll(ts[..|ts| - 1], s)
      case AllRefused => AllRefused
      case AllLoaded(items, s1) =>
        match Load(ts[|ts| - 1], s1)
        case Refused => AllRefused
        case Loaded(item, s2) => AllLoaded(items + [item], s2)
  }

  // ----- a node under construction does not matter -----

  function With(s: Store, i: nat, node: Node): Store
    requires i < |s.nodes|
  {
    Store(s.nodes[i := node], s.aliases)
  }

  lemma {:induction false} LoadWith(t: Tree, s: Store, i: nat, node: Node)
    requires i < |s.nodes|
    ensures Load(t, With(s, i, node))
         == match Load(t, s) { case Refused => Refused case Loaded(x, s1) => Loaded(x, With(s1, i, node)) }
    decreases t, 0
  {
    match t
    case AliasNode(a) =>
    case ScalarNode(name, data) =>
      assert s.nodes[i := node] + [Leaf(data)] == (s.nodes + [Leaf(data)])[i := node];
    case CollectionNode(name, data, mapping, children) =>
      var b := Begun(s, name, data, mapping);
      assert Begun(With(s, i, node), name, data, mapping) == With(b, i, node) by {
        assert s.nodes[i := node] + [Collection(data, mapping, [])] == (s.nodes + [Collection(data, mapping, [])])[i := node];
      }
      LoadAllWith(children, b, i, node);
      if LoadAll(children, b).AllLoaded? {
        var s1 := LoadAll(children, b).all;
        var done := Collection(data, mapping, LoadAll(children, b).items);
        assert s1.nodes[i := node][|s.nodes| := done] == s1.nodes[|s.nodes| := done][i := node];
      }
  }

  lemma {:induction false} LoadAllWith(ts: seq<Tree>, s: Store, i: nat, node: Node)
    requires i < |s.nodes|
    ensures LoadAll(ts, With(s, i, node))
         == match LoadAll(ts, s) { case AllRefused => AllRefused case AllLoaded(items, s1) => AllLoaded(items, With(s1, i, node)) }
    decreases ts, 1
  {
    if ts != [] {
      LoadAllWith(ts[..|ts| - 1], s, i, node);
      var r := LoadAll(ts[..|ts| - 1], s);
      if r.AllLoaded? { LoadWith(ts[|ts| - 1], r.all, i, node); }
    }
  }

  lemma {:induction false} LoadIs(t: Tree, s: Store)
    requires t.CollectionNode?
    ensures !Fresh(s.aliases, t.name) ==> Load(t, s).Refused?
    ensures var b := Begun(s, t.name, t.data, t.mapping);
            var r := LoadAll(t.children, b);
            Fresh(s.aliases, t.name) ==>
              Load(t, s) == if r.AllRefused? then Refused
                            else Loaded(|b.nodes|, With(r.all, |b.nodes| - 1, Collection(t.data, t.mapping, r.items)))
  {
  }

  lemma {:induction false} ProperParts(t: Tree)
    requires t.CollectionNode? && Proper(t)
    ensures t.mapping ==> |t.children| % 2 == 0
    ensures forall c :: c in t.children ==> Proper(c)
  {
  }

  lemma {:induction false} NoChildren(s: Store)
    ensures LoadAll([], s) == AllLoaded([], s)
  {
  }

  lemma {:induction false} NextChild(ts: seq<Tree>, k: nat, s: Store)
    requires k < |ts|
    ensures LoadAll(ts[..k + 1], s)
         == match LoadAll(ts[..k], s)
            case AllRefused => AllRefused
            case AllLoaded(items, s1) =>
              match Load(ts[k], s1) { case Refused => AllRefused case Loaded(item, s2) => AllLoaded(items + [item], s2) }
  {
    assert ts[..k + 1][..k] == ts[..k];
  }

  lemma {:induction false} RefusedEarly(ts: seq<Tree>, k: nat, s: Store)
    requires k <= |ts| && LoadAll(ts[..k], s).AllRefused?
    ensures LoadAll(ts, s).AllRefused?
    decreases |ts| - k
  {
    if k == |ts| {
      assert ts[..k] == ts;
    } else {
      NextChild(ts, k, s);
      RefusedEarly(ts, k + 1, s);
    }
  }

  // ----- the events of a document -----

  lemma {:induction false} TextStarts(t: Tree)
    ensures Text(t) != [] && !Text(t)[0].SequenceEnd? && !Text(t)[0].MappingEnd?
  {
  }

  lemma {:induction false} TextsFrom(ts: seq<Tree>, k: nat)
    requires k < |ts|
    ensures Texts(ts[k..]) == Text(ts[k]) + Texts(ts[k + 1..])
  {
    assert ts[k..][1..] == ts[k + 1..];
  }

  class Loader {
    /** The events still to come. */
    var events: seq<Event>
    var nodes: seq<Node>
    var aliases: seq<Anchor>

    constructor (events: seq<Event>)
      ensures this.events == events && nodes == [] && aliases == []
    {
      this.events, nodes, aliases := events, [], [];
    }

    function Stored(): Store
      reads this`nodes, this`aliases
    {
      Store(nodes, aliases)
    }

    method Next() returns (e: Event)
      requires events != []
      modifies this`events
      ensures e == old(events[0]) && events == old(events[1..])
    {
      e := events[0];
      events := events[1..];
    }

    method RegisterAnchor(index: nat, name: Name) returns (ok: bool)
      modifies this`aliases
      ensures ok == Fresh(old(aliases), name) && (ok ==> aliases == WithAnchor(old(aliases), name, index))
    {
      if name.NoName? {
        return true;
      }
      var k := 0;
      while k < |aliases|
        invariant 0 <= k <= |aliases| && forall j :: 0 <= j < k ==> aliases[j].name != name.id
      {
        if aliases[k].name == name.id {
          return false;
        }
        k := k + 1;
      }
      aliases := aliases + [Anchor(name.id, index)];
      ok := true;
    }

    method LoadAlias(name: nat) returns (index: nat, ok: bool)
      ensures ok == Met(aliases, name) && (ok ==> index == Find(aliases, name))
    {
      var k := 0;
      while k < |aliases|
        invariant 0 <= k <= |aliases| && forall j :: 0 <= j < k ==> aliases[j].name != name
        invariant Find(aliases, name) == Find(aliases[k..], name)
      {
        if aliases[k].name == name {
          return aliases[k].index, true;
        }
        assert aliases[k..][1..] == aliases[k + 1..];
        k := k + 1;
      }
      index, ok := 0, false;
    }

    /** Loads the node that begins with the event first; t is what its events mean. */
    method LoadNode(first: Event, ghost t: Tree, ghost rest: seq<Event>) returns (index: nat, ok: bool)
      requires Proper(t) && [first] + events == Text(t) + rest
      modifies this
      ensures var r := Load(t, old(Stored())); ok == r.Loaded? && (ok ==> r == Loaded(index, Stored()) && events == rest)
      decreases t, 0
    {
      match first {
        case Alias(name) =>
          FirstEvent(t, rest, first);
          assert events == rest;
          index, ok := LoadAlias(name);
        case Scalar(name, data) =>
          FirstEvent(t, rest, first);
          assert events == rest;
          nodes := nodes + [Leaf(data)];
          index := |nodes|;
          ok := RegisterAnchor(index, name);
        case SequenceStart(name, data) =>
          FirstEvent(t, rest, first);
          index, ok := LoadSequence(name, data, t, rest);
        case MappingStart(name, data) =>
          FirstEvent(t, rest, first);
          index, ok := LoadMapping(name, data, t, rest);
        case _ =>
          FirstEvent(t, rest, first);
          assert false;
      }
    }

    lemma {:induction false} FirstEvent(t: Tree, rest: seq<Event>, first: Event)
      requires [first] + events == Text(t) + rest
      ensures match first
              case Alias(name) => t == AliasNode(name) && events == rest
              case Scalar(name, data) => t == ScalarNode(name, data) && events == rest
              case SequenceStart(name, data) =>
                t.CollectionNode? && t.name == name && t.data == data && !t.mapping && events == Texts(t.children) + [SequenceEnd] + rest
              case MappingStart(name, data) =>
                t.CollectionNode? && t.name == name && t.data == data && t.mapping && events == Texts(t.children) + [MappingEnd] + rest
              case _ => false
    {
      hide Texts;
      assert events == ([first] + events)[1..] && first == ([first] + events)[0];
      assert Text(t) != [] && first == Text(t)[0];
      match t
      case AliasNode(a) => assert (Text(t) + rest)[1..] == rest;
      case ScalarNode(name, data) => assert (Text(t) + rest)[1..] == rest;
      case CollectionNode(name, data, mapping, children) =>
        assert (Text(t) + rest)[1..] == Texts(children) + [End(mapping)] + rest;
    }

    /** A collection begins. */
    method Begin(name: Name, data: nat, mapping: bool) returns (index: nat, ok: bool)
      modifies this`nodes, this`aliases
      ensures index == |old(nodes)| + 1 == |nodes| && ok == Fresh(old(aliases), name)
      ensures ok ==> Stored() == Begun(old(Stored()), name, data, mapping)
    {
      nodes := nodes + [Collection(data, mapping, [])];
      index := |nodes|;
      ok := RegisterAnchor(index, name);
    }

    /** One child of the collection under construction; node is what that is at the time. */
    method LoadChild(e: Event, ghost ts: seq<Tree>, ghost k: nat, ghost b: Store, ghost index: nat, ghost node: Node,
                     ghost end: Event, ghost rest: seq<Event>) returns (item: nat, ok: bool)
      requires k < |ts| && (end.SequenceEnd? || end.MappingEnd?) && [e] + events == Texts(ts[k..]) + [end] + rest
      requires LoadAll(ts[..k], b).AllLoaded? && 1 <= index <= |b.nodes|
      requires Stored() == With(LoadAll(ts[..k], b).all, index - 1, node) && (forall c :: c in ts ==> Proper(c))
      modifies this
      ensures ok ==>
                && LoadAll(ts[..k + 1], b).AllLoaded?
                && LoadAll(ts[..k + 1], b).items == LoadAll(ts[..k], b).items + [item]
                && Stored() == With(LoadAll(ts[..k + 1], b).all, index - 1, node)
                && events == Texts(ts[k + 1..]) + [end] + rest
      ensures !ok ==> LoadAll(ts, b).AllRefused?
      decreases ts, 0
    {
      hide Texts, Met;
      Ahead(ts, k, e, end, rest);
      NextChild(ts, k, b);
      LoadWith(ts[k], LoadAll(ts[..k], b).all, index - 1, node);
      item, ok := LoadNode(e, ts[k], Texts(ts[k + 1..]) + [end] + rest);
      if !ok {
        RefusedEarly(ts, k + 1, b);
      }
    }

    method LoadSequence(name: Name, data: nat, ghost t: Tree, ghost rest: seq<Event>) returns (index: nat, ok: bool)
      requires Proper(t) && t.CollectionNode? && t.name == name && t.data == data && !t.mapping
      requires events == Texts(t.children) + [SequenceEnd] + rest
      modifies this
      ensures var r := Load(t, old(Stored())); ok == r.Loaded? && (ok ==> r == Loaded(index, Stored()) && events == rest)
      decreases t.children, 1
    {
      hide Texts, Met, Load, LoadAll, Proper, Fresh, WithAnchor;
      ghost var s, ts := Stored(), t.children;
      LoadIs(t, s);
      ProperParts(t);
      index, ok := Begin(name, data, false);
      if !ok {
        return;
      }
      ghost var b, k := Begun(s, name, data, false), 0;
      NoChildren(b);
      assert ts[..0] == [] && ts[0..] == ts && b.nodes[index - 1 := Collection(data, false, [])] == b.nodes;
      Some(ts, 0, SequenceEnd, rest);
      var e := Next();
      while !e.SequenceEnd?
        invariant 0 <= k <= |ts| && index <= |nodes| && LoadAll(ts[..k], b).AllLoaded?
        invariant nodes[index - 1] == Collection(data, false, LoadAll(ts[..k], b).items)
        invariant Stored() == With(LoadAll(ts[..k], b).all, index - 1, nodes[index - 1])
        invariant [e] + events == Texts(ts[k..]) + [SequenceEnd] + rest
        decreases |ts| - k
      {
        Ahead(ts, k, e, SequenceEnd, rest);
        var item;
        item, ok := LoadChild(e, ts, k, b, index, nodes[index - 1], SequenceEnd, rest);
        if !ok {
          return;
        }
        nodes := nodes[index - 1 := nodes[index - 1].(items := nodes[index - 1].items + [item])];
        k := k + 1;
        Some(ts, k, SequenceEnd, rest);
        e := Next();
      }
      Ahead(ts, k, e, SequenceEnd, rest);
      assert ts[..k] == ts;
    }

    method LoadMapping(name: Name, data: nat, ghost t: Tree, ghost rest: seq<Event>) returns (index: nat, ok: bool)
      requires Proper(t) && t.CollectionNode? && t.name == name && t.data == data && t.mapping
      requires events == Texts(t.children) + [MappingEnd] + rest
      modifies this
      ensures var r := Load(t, old(Stored())); ok == r.Loaded? && (ok ==> r == Loaded(index, Stored()) && events == rest)
      decreases t.children, 1
    {
      hide Texts, Met, Load, LoadAll, Proper, Fresh, WithAnchor;
      ghost var s, ts := Stored(), t.children;
      LoadIs(t, s);
      ProperParts(t);
      index, ok := Begin(name, data, true);
      if !ok {
        return;
      }
      ghost var b, k := Begun(s, name, data, true), 0;
      NoChildren(b);
      assert ts[..0] == [] && ts[0..] == ts && b.nodes[index - 1 := Collection(data, true, [])] == b.nodes;
      Some(ts, 0, MappingEnd, rest);
      var e := Next();
      while !e.MappingEnd?
        invariant 0 <= k <= |ts| && k % 2 == 0 && index <= |nodes| && LoadAll(ts[..k], b).AllLoaded?
        invariant nodes[index - 1] == Collection(data, true, LoadAll(ts[..k], b).items)
        invariant Stored() == With(LoadAll(ts[..k], b).all, index - 1, nodes[index - 1])
        invariant [e] + events == Texts(ts[k..]) + [MappingEnd] + rest
        decreases |ts| - k
      {
        Ahead(ts, k, e, MappingEnd, rest);
        ghost var node := nodes[index - 1];
        var key, value;
        key, ok := LoadChild(e, ts, k, b, index, node, MappingEnd, rest);
        if !ok {
          return;
        }
        Some(ts, k + 1, MappingEnd, rest);
        e := Next();
        value, ok := LoadChild(e, ts, k + 1, b, index, node, MappingEnd, rest);
        if !ok {
          return;
        }
        nodes := nodes[index - 1 := nodes[index - 1].(items := nodes[index - 1].items + [key] + [value])];
        k := k + 2;
        Some(ts, k, MappingEnd, rest);
        e := Next();
      }
      Ahead(ts, k, e, MappingEnd, rest);
      assert ts[..k] == ts;
    }

    lemma {:induction false} Some(ts: seq<Tree>, k: nat, end: Event, rest: seq<Event>)
      requires k <= |ts| && events == Texts(ts[k..]) + [end] + rest
      ensures events != [] && [events[0]] + events[1..] == events
    {
      hide Texts;
    }

    lemma {:induction false} Ahead(ts: seq<Tree>, k: nat, e: Event, end: Event, rest: seq<Event>)
      requires k <= |ts| && [e] + events == Texts(ts[k..]) + [end] + rest && (end.SequenceEnd? || end.MappingEnd?)
      ensures (e.SequenceEnd? || e.MappingEnd?) <==> k == |ts|
      ensures k == |ts| ==> e == end && events == rest
      ensures k < |ts| ==> [e] + events == Text(ts[k]) + (Texts(ts[k + 1..]) + [end] + rest)
    {
      assert ([e] + events)[1..] == events && ([e] + events)[0] == e;
      if k < |ts| {
        TextsFrom(ts, k);
        TextStarts(ts[k]);
        var all := Texts(ts[k..]) + [end] + rest;
        assert all == Text(ts[k]) + (Texts(ts[k + 1..]) + [end] + rest);
        assert all[0] == Text(ts[k])[0];
      } else {
        assert ts[k..] == [];
      }
    }
  }
}
