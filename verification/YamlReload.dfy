/**
 * Loading a document and dumping it again keeps it: the events have the same shape and data, used
 * anchors are renamed consistently, and unused ones are dropped. Aliases may refer to a node inside
 * itself.
 */
module YamlReload {
  import opened YamlGraph
  import opened YamlLoader
  import D = YamlDumper

  // ----- trees by number -----

  /** How many nodes t has; an alias is none. */
  function Size(t: Tree): nat {
    match t
    case AliasNode(_) => 0
    case ScalarNode(_, _) => 1
    case CollectionNode(_, _, _, children) => 1 + Sizes(children)
  }

  function Sizes(ts: seq<Tree>): nat {
    if ts == [] then 0 else Sizes(ts[..|ts| - 1]) + Size(ts[|ts| - 1])
  }

  /** The anchors of t with the numbers of their nodes, when lo nodes come before. */
  function Names(t: Tree, lo: nat): seq<Anchor> {
    match t
    case AliasNode(_) => []
    case ScalarNode(name, _) => WithAnchor([], name, lo + 1)
    case CollectionNode(name, _, _, children) => WithAnchor([], name, lo + 1) + NamesAll(children, lo + 1)
  }

  function NamesAll(ts: seq<Tree>, lo: nat): seq<Anchor> {
    if ts == [] then []
    else NamesAll(ts[..|ts| - 1], lo) + Names(ts[|ts| - 1], lo + Sizes(ts[..|ts| - 1]))
  }

  // ----- what loading does to the store -----

  predicate ItemsIn(nodes: seq<Node>, n: nat) {
    forall i, k :: 0 <= i < |nodes| && 0 <= k < |Items(nodes[i])| ==> 1 <= Items(nodes[i])[k] <= n
  }

  predicate IndexesIn(aliases: seq<Anchor>, n: nat) {
    forall k :: 0 <= k < |aliases| ==> 1 <= aliases[k].index <= n
  }

  predicate StoreOk(s: Store) {
    ItemsIn(s.nodes, |s.nodes|) && IndexesIn(s.aliases, |s.nodes|)
  }

  lemma {:induction false} FindEntry(aliases: seq<Anchor>, name: nat) returns (k: nat)
    requires Met(aliases, name)
    ensures k < |aliases| && aliases[k] == Anchor(name, Find(aliases, name))
    decreases |aliases|
  {
    if aliases[0].name == name {
      k := 0;
    } else {
      var j :| 0 <= j < |aliases| && aliases[j].name == name;
      assert aliases[1..][j - 1] == aliases[j];
      k := FindEntry(aliases[1..], name);
      k := k + 1;
    }
  }

  lemma {:induction false} FindJoin(a: seq<Anchor>, b: seq<Anchor>, name: nat)
    ensures Find(a + b, name) == if Met(a, name) then Find(a, name) else Find(b, name)
    decreases |a|
  {
    if a == [] {
      assert a + b == b;
    } else if a[0].name != name {
      assert (a + b)[1..] == a[1..] + b;
      FindJoin(a[1..], b, name);
      if Met(a[1..], name) {
        var k :| 0 <= k < |a[1..]| && a[1..][k].name == name;
        assert a[k + 1].name == name;
      }
      if Met(a, name) {
        var k :| 0 <= k < |a| && a[k].name == name;
        assert a[1..][k - 1].name == name;
      }
    }
  }

  lemma {:induction false} LoadKeeps(t: Tree, s: Store)
    requires StoreOk(s) && Load(t, s).Loaded?
    ensures var r := Load(t, s);
            && StoreOk(r.store) && 1 <= r.index <= |r.store.nodes|
            && |r.store.nodes| == |s.nodes| + Size(t) && s.nodes <= r.store.nodes
            && r.store.aliases == s.aliases + Names(t, |s.nodes|)
    decreases t, 0
  {
    hide Met, StoreOk, LoadAll, Begun, NamesAll, Sizes;
    match t
    case AliasNode(a) =>
      AliasOk(s, a);
      assert s.aliases + [] == s.aliases;
    case ScalarNode(name, data) =>
      LeafOk(s, name, data);
    case CollectionNode(name, data, mapping, children) =>
      var b := Begun(s, name, data, mapping);
      BegunOk(s, name, data, mapping);
      LoadAllKeeps(children, b);
      var a := LoadAll(children, b);
      Finished(s, b, a, data, mapping);
      assert s.aliases + WithAnchor([], name, |s.nodes| + 1) + NamesAll(children, |s.nodes| + 1)
          == s.aliases + Names(t, |s.nodes|);
  }

  lemma {:induction false} AliasOk(s: Store, a: nat)
    requires StoreOk(s) && Met(s.aliases, a)
    ensures 1 <= Find(s.aliases, a) <= |s.nodes|
  {
    hide Met, Find;
    var k := FindEntry(s.aliases, a);
  }

  lemma {:induction false} LeafOk(s: Store, name: Name, data: nat)
    requires StoreOk(s)
    ensures var n := |s.nodes| + 1;
            StoreOk(Store(s.nodes + [Leaf(data)], WithAnchor(s.aliases, name, n)))
            && WithAnchor(s.aliases, name, n) == s.aliases + WithAnchor([], name, n)
  {
    assert s.aliases + [] == s.aliases;
  }

  lemma {:induction false} BegunOk(s: Store, name: Name, data: nat, mapping: bool)
    requires StoreOk(s)
    ensures var b := Begun(s, name, data, mapping);
            StoreOk(b) && b.aliases == s.aliases + WithAnchor([], name, |s.nodes| + 1) && |b.nodes| == |s.nodes| + 1 && s.nodes <= b.nodes
  {
    assert s.aliases + [] == s.aliases;
  }

  /** The items are set in the node of the collection. */
  lemma {:induction false} Finished(s: Store, b: Store, a: AllLoaded, data: nat, mapping: bool)
    requires a.AllLoaded? && StoreOk(a.all) && Indices(a.all.nodes, a.items)
    requires s.nodes <= b.nodes <= a.all.nodes && |b.nodes| == |s.nodes| + 1
    ensures var g := a.all.nodes[|s.nodes| := Collection(data, mapping, a.items)];
            StoreOk(Store(g, a.all.aliases)) && s.nodes <= g
  {
    var g := a.all.nodes[|s.nodes| := Collection(data, mapping, a.items)];
    forall i, k | 0 <= i < |g| && 0 <= k < |Items(g[i])|
      ensures 1 <= Items(g[i])[k] <= |g|
    {
      if i != |s.nodes| { assert g[i] == a.all.nodes[i]; }
    }
    assert forall i :: 0 <= i < |s.nodes| ==> b.nodes[i] == a.all.nodes[i];
  }

  lemma {:induction false} LoadAllKeeps(ts: seq<Tree>, s: Store)
    requires StoreOk(s) && LoadAll(ts, s).AllLoaded?
    ensures var r := LoadAll(ts, s);
            && StoreOk(r.all) && Indices(r.all.nodes, r.items)
            && |r.all.nodes| == |s.nodes| + Sizes(ts) && s.nodes <= r.all.nodes
            && r.all.aliases == s.aliases + NamesAll(ts, |s.nodes|)
    decreases ts, 1
  {
    hide StoreOk, Load, Names, Size;
    if ts == [] {
      assert s.aliases + [] == s.aliases;
    } else {
      LoadAllKeeps(ts[..|ts| - 1], s);
      LoadKeeps(ts[|ts| - 1], LoadAll(ts[..|ts| - 1], s).all);
    }
  }

  // ----- the shape of a loaded graph -----

  /** Node x of g, with the nodes after the first lo, is t. */
  predicate Shape(g: seq<Node>, al: seq<Anchor>, t: Tree, x: nat, lo: nat)
    decreases t, 0
  {
    match t
    case AliasNode(a) => Met(al, a) && x == Find(al, a) && 1 <= x <= lo
    case ScalarNode(name, data) => x == lo + 1 <= |g| && g[lo] == Leaf(data) && Named(al, name, x)
    case CollectionNode(name, data, mapping, children) =>
      && x == lo + 1 <= |g| && g[lo].Collection? && g[lo].data == data && g[lo].mapping == mapping && Named(al, name, x)
      && ShapeAll(g, al, children, g[lo].items, x)
  }

  predicate ShapeAll(g: seq<Node>, al: seq<Anchor>, ts: seq<Tree>, xs: seq<nat>, lo: nat)
    decreases ts, 1
  {
    && |xs| == |ts|
    && (ts != [] ==>
          var n := |ts| - 1;
          ShapeAll(g, al, ts[..n], xs[..n], lo) && Shape(g, al, ts[n], xs[n], lo + Sizes(ts[..n])))
  }

  predicate Named(al: seq<Anchor>, name: Name, x: nat) {
    name.Name? ==> Met(al, name.id) && Find(al, name.id) == x
  }

  /** g and al continue the store r reached from lo nodes on. */
  predicate Extends(g: seq<Node>, al: seq<Anchor>, r: Store, lo: nat) {
    && lo <= |r.nodes| <= |g| && r.aliases <= al
    && forall i :: lo <= i < |r.nodes| ==> g[i] == r.nodes[i]
  }

  lemma {:induction false} MetLater(a: seq<Anchor>, al: seq<Anchor>, name: nat)
    requires a <= al && Met(a, name)
    ensures Met(al, name) && Find(al, name) == Find(a, name)
  {
    FindJoin(a, al[|a|..], name);
    assert a + al[|a|..] == al;
    var k :| 0 <= k < |a| && a[k].name == name;
    assert al[k].name == name;
  }

  lemma {:induction false} NamedLater(a: seq<Anchor>, al: seq<Anchor>, name: Name, x: nat)
    requires Fresh(a, name) && WithAnchor(a, name, x) <= al
    ensures Named(al, name, x)
  {
    if name.Name? {
      var w := WithAnchor(a, name, x);
      assert w[|a|].name == name.id;
      FindJoin(a, [Anchor(name.id, x)], name.id);
      MetLater(w, al, name.id);
    }
  }

  lemma {:induction false} LoadShape(t: Tree, s: Store, g: seq<Node>, al: seq<Anchor>)
    requires StoreOk(s) && Load(t, s).Loaded? && Extends(g, al, Load(t, s).store, |s.nodes|)
    ensures Shape(g, al, t, Load(t, s).index, |s.nodes|)
    decreases t, 0
  {
    hide Met, Find;
    LoadKeeps(t, s);
    match t
    case AliasNode(a) =>
      MetLater(s.aliases, al, a);
      var k := FindEntry(s.aliases, a);
    case ScalarNode(name, data) =>
      NamedLater(s.aliases, al, name, |s.nodes| + 1);
    case CollectionNode(name, data, mapping, children) =>
      var b := Begun(s, name, data, mapping);
      BegunOk(s, name, data, mapping);
      LoadAllKeeps(children, b);
      assert b.aliases <= Load(t, s).store.aliases;
      NamedLater(s.aliases, al, name, |s.nodes| + 1);
      LoadAllShape(children, b, g, al);
  }

  lemma {:induction false} Between(g: seq<Node>, al: seq<Anchor>, r: Store, r1: Store, lo: nat)
    requires Extends(g, al, r1, lo) && lo <= |r.nodes| && r.nodes <= r1.nodes && r.aliases <= r1.aliases
    ensures Extends(g, al, r, lo) && Extends(g, al, r1, |r.nodes|)
  {
    assert forall i :: lo <= i < |r.nodes| ==> r.nodes[i] == r1.nodes[i];
  }

  lemma {:induction false} LoadAllShape(ts: seq<Tree>, s: Store, g: seq<Node>, al: seq<Anchor>)
    requires StoreOk(s) && LoadAll(ts, s).AllLoaded? && Extends(g, al, LoadAll(ts, s).all, |s.nodes|)
    ensures ShapeAll(g, al, ts, LoadAll(ts, s).items, |s.nodes|)
    decreases ts, 1
  {
    hide StoreOk, Load, Shape, Extends, Names, NamesAll, Size, Sizes, Indices, Find, Met;
    if ts != [] {
      var r := LoadAll(ts[..|ts| - 1], s);
      LoadAllKeeps(ts[..|ts| - 1], s);
      LoadKeeps(ts[|ts| - 1], r.all);
      Between(g, al, r.all, LoadAll(ts, s).all, |s.nodes|);
      LoadAllShape(ts[..|ts| - 1], s, g, al);
      LoadShape(ts[|ts| - 1], r.all, g, al);
      var all := LoadAll(ts, s).items;
      assert all[..|ts| - 1] == r.items;
    }
  }

  // ----- walking and dumping a loaded graph -----

  function IdOf(ids: seq<nat>, x: nat): nat {
    if 1 <= x <= |ids| then ids[x - 1] else 0
  }

  /** The visits, in order. */
  function Trace(t: Tree, al: seq<Anchor>, lo: nat): seq<nat> {
    match t
    case AliasNode(a) => [Find(al, a)]
    case ScalarNode(_, _) => [lo + 1]
    case CollectionNode(_, _, _, children) => [lo + 1] + TraceAll(children, al, lo + 1)
  }

  function TraceAll(ts: seq<Tree>, al: seq<Anchor>, lo: nat): seq<nat> {
    if ts == [] then []
    else TraceAll(ts[..|ts| - 1], al, lo) + Trace(ts[|ts| - 1], al, lo + Sizes(ts[..|ts| - 1]))
  }

  /** t with the anchors given out to its nodes. */
  function Numbered(t: Tree, al: seq<Anchor>, ids: seq<nat>, lo: nat): Tree {
    match t
    case AliasNode(a) => AliasNode(IdOf(ids, Find(al, a)))
    case ScalarNode(_, data) => ScalarNode(NameOf(IdOf(ids, lo + 1)), data)
    case CollectionNode(_, data, mapping, children) =>
      CollectionNode(NameOf(IdOf(ids, lo + 1)), data, mapping, NumberedAll(children, al, ids, lo + 1))
  }

  function NumberedAll(ts: seq<Tree>, al: seq<Anchor>, ids: seq<nat>, lo: nat): seq<Tree> {
    if ts == [] then []
    else NumberedAll(ts[..|ts| - 1], al, ids, lo) + [Numbered(ts[|ts| - 1], al, ids, lo + Sizes(ts[..|ts| - 1]))]
  }

  lemma {:induction false} TextsJoin(a: seq<Tree>, t: Tree)
    ensures Texts(a + [t]) == Texts(a) + Text(t)
    decreases |a|
  {
    hide Text;
    if a == [] {
      assert [t][1..] == [] && a + [t] == [t];
    } else {
      assert (a + [t])[1..] == a[1..] + [t];
      TextsJoin(a[1..], t);
    }
  }

  lemma {:induction false} UpToNext(n: nat)
    ensures UpTo(n) + {n + 1} == UpTo(n + 1) && n + 1 !in UpTo(n)
  {
    assert forall i: nat :: IsIndex(i, n + 1) <==> IsIndex(i, n) || i == n + 1;
  }

  lemma {:induction false} UpToLess(n: nat, m: nat)
    requires n <= m
    ensures UpTo(n) <= UpTo(m)
  {
    forall i: nat | i in UpTo(n)
      ensures i in UpTo(m)
    {
      assert IsIndex(i, m);
    }
  }

  lemma {:induction false} InUpTo(x: nat, n: nat)
    requires 1 <= x <= n
    ensures x in UpTo(n)
  {
    assert IsIndex(x, n);
  }

  /** On a loaded graph the dump begins every node where the tree has it, and writes an alias where the
      tree has one. */
  lemma {:induction false} DumpLoaded(g: seq<Node>, al: seq<Anchor>, ids: seq<nat>, t: Tree, x: nat, lo: nat)
    requires GraphOk(g) && |ids| == |g| && lo + Size(t) <= |g| && 1 <= x <= |g| && Shape(g, al, t, x, lo)
    ensures UpTo(lo) <= UpTo(|g|) && Walk(g, UpTo(lo), x) == Walked(Trace(t, al, lo), UpTo(lo + Size(t)))
    ensures Dump(g, ids, UpTo(lo), x) == Dumped(Text(Numbered(t, al, ids, lo)), UpTo(lo + Size(t)))
    decreases t, 0
  {
    hide Walk, WalkAll, Dump, DumpAll, Find, Met, UpTo;
    UpToLess(lo, |g|);
    match t
    case AliasNode(a) =>
      InUpTo(x, lo);
      DumpAgain(g, ids, UpTo(lo), x);
    case ScalarNode(name, data) =>
      UpToNext(lo);
      DumpFirst(g, ids, UpTo(lo), x);
    case CollectionNode(name, data, mapping, children) =>
      UpToNext(lo);
      GraphItems(g, lo);
      DumpAllLoaded(g, al, ids, children, g[lo].items, lo + 1);
      DumpBegun(g, al, ids, t, x, lo);
  }

  lemma {:induction false} GraphItems(g: seq<Node>, i: nat)
    requires GraphOk(g) && i < |g| && g[i].Collection?
    ensures Indices(g, g[i].items)
  {
    assert Items(g[i]) == g[i].items;
  }

  lemma {:induction false} DumpBegun(g: seq<Node>, al: seq<Anchor>, ids: seq<nat>, t: Tree, x: nat, lo: nat)
    requires GraphOk(g) && |ids| == |g| && x == lo + 1 <= |g| && UpTo(lo) <= UpTo(|g|)
    requires t.CollectionNode? && g[lo].Collection? && g[lo].data == t.data && g[lo].mapping == t.mapping && Indices(g, g[lo].items)
    requires UpTo(lo) + {x} == UpTo(x) && x !in UpTo(lo) && UpTo(x) <= UpTo(|g|)
    requires WalkAll(g, UpTo(x), g[lo].items) == Walked(TraceAll(t.children, al, x), UpTo(x + Sizes(t.children)))
    requires DumpAll(g, ids, UpTo(x), g[lo].items)
          == Dumped(Texts(NumberedAll(t.children, al, ids, x)), UpTo(x + Sizes(t.children)))
    ensures Walk(g, UpTo(lo), x) == Walked(Trace(t, al, lo), UpTo(lo + Size(t)))
    ensures Dump(g, ids, UpTo(lo), x) == Dumped(Text(Numbered(t, al, ids, lo)), UpTo(lo + Size(t)))
  {
    hide Walk, WalkAll, Dump, DumpAll, UpTo, TraceAll, NumberedAll, Texts, Sizes;
    DumpFirst(g, ids, UpTo(lo), x);
  }

  lemma {:induction false} DumpAllLoaded(g: seq<Node>, al: seq<Anchor>, ids: seq<nat>, ts: seq<Tree>, xs: seq<nat>, lo: nat)
    requires GraphOk(g) && |ids| == |g| && lo + Sizes(ts) <= |g| && Indices(g, xs) && ShapeAll(g, al, ts, xs, lo)
    ensures UpTo(lo) <= UpTo(|g|) && WalkAll(g, UpTo(lo), xs) == Walked(TraceAll(ts, al, lo), UpTo(lo + Sizes(ts)))
    ensures DumpAll(g, ids, UpTo(lo), xs) == Dumped(Texts(NumberedAll(ts, al, ids, lo)), UpTo(lo + Sizes(ts)))
    decreases ts, 1
  {
    hide Walk, WalkAll, Dump, DumpAll, Shape, UpTo, Trace, Numbered, Text, Texts, Size;
    UpToLess(lo, |g|);
    if ts == [] {
      D.EmptyWalk(g, ids, UpTo(lo));
      NoTexts();
    } else {
      var n := |ts| - 1;
      var mid := lo + Sizes(ts[..n]);
      DumpAllLoaded(g, al, ids, ts[..n], xs[..n], lo);
      DumpLoaded(g, al, ids, ts[n], xs[n], mid);
      assert xs == xs[..n] + [xs[n]];
      WalkJoin(g, UpTo(lo), xs[..n], [xs[n]]);
      DumpJoin(g, ids, UpTo(lo), xs[..n], [xs[n]]);
      D.OneItem(g, UpTo(mid), xs[n]);
      D.OneText(g, ids, UpTo(mid), xs[n]);
      TextsJoin(NumberedAll(ts[..n], al, ids, lo), Numbered(ts[n], al, ids, mid));
    }
  }

  lemma {:induction false} NoTexts()
    ensures Texts([]) == []
  {
  }

  // ----- references -----

  /** How many aliases of t stand for node x. */
  function Uses(t: Tree, al: seq<Anchor>, x: nat): nat {
    match t
    case AliasNode(a) => if Find(al, a) == x then 1 else 0
    case ScalarNode(_, _) => 0
    case CollectionNode(_, _, _, children) => UsesAll(children, al, x)
  }

  function UsesAll(ts: seq<Tree>, al: seq<Anchor>, x: nat): nat {
    if ts == [] then 0 else UsesAll(ts[..|ts| - 1], al, x) + Uses(ts[|ts| - 1], al, x)
  }

  /** Every node is visited once where it is defined, and once for every alias. */
  lemma {:induction false} TraceCount(t: Tree, al: seq<Anchor>, lo: nat, x: nat)
    ensures Count(Trace(t, al, lo), x) == (if lo < x <= lo + Size(t) then 1 else 0) + Uses(t, al, x)
    decreases t, 0
  {
    hide Find;
    match t
    case AliasNode(a) => assert [Find(al, a)][1..] == [];
    case ScalarNode(_, _) => assert [lo + 1][1..] == [];
    case CollectionNode(_, _, _, children) =>
      TraceAllCount(children, al, lo + 1, x);
      assert ([lo + 1] + TraceAll(children, al, lo + 1))[1..] == TraceAll(children, al, lo + 1);
  }

  lemma {:induction false} TraceAllCount(ts: seq<Tree>, al: seq<Anchor>, lo: nat, x: nat)
    ensures Count(TraceAll(ts, al, lo), x) == (if lo < x <= lo + Sizes(ts) then 1 else 0) + UsesAll(ts, al, x)
    decreases ts, 1
  {
    hide Trace, Uses, Size;
    if ts != [] {
      var n := |ts| - 1;
      var mid := lo + Sizes(ts[..n]);
      TraceAllCount(ts[..n], al, lo, x);
      TraceCount(ts[n], al, mid, x);
      CountJoin(TraceAll(ts[..n], al, lo), Trace(ts[n], al, mid), x);
    }
  }

  /** Some alias of t has the anchor a. */
  predicate AliasIn(t: Tree, a: nat) {
    match t
    case AliasNode(b) => a == b
    case ScalarNode(_, _) => false
    case CollectionNode(_, _, _, children) => exists k :: 0 <= k < |children| && AliasIn(children[k], a)
  }

  predicate HasIndex(al: seq<Anchor>, x: nat) {
    exists k :: 0 <= k < |al| && al[k].index == x
  }

  /** No two anchors stand for one node. */
  predicate Apart(al: seq<Anchor>) {
    forall j, k :: 0 <= j < k < |al| ==> al[j].index < al[k].index
  }

  lemma {:induction false} NamesRange(t: Tree, lo: nat)
    ensures Apart(Names(t, lo))
    ensures forall k :: 0 <= k < |Names(t, lo)| ==> lo < Names(t, lo)[k].index <= lo + Size(t)
    decreases t, 0
  {
    if t.CollectionNode? { NamesAllRange(t.children, lo + 1); }
  }

  lemma {:induction false} NamesAllRange(ts: seq<Tree>, lo: nat)
    ensures Apart(NamesAll(ts, lo))
    ensures forall k :: 0 <= k < |NamesAll(ts, lo)| ==> lo < NamesAll(ts, lo)[k].index <= lo + Sizes(ts)
    decreases ts, 1
  {
    hide Names, Size;
    if ts != [] {
      NamesAllRange(ts[..|ts| - 1], lo);
      NamesRange(ts[|ts| - 1], lo + Sizes(ts[..|ts| - 1]));
    }
  }

  lemma {:induction false} SameIndex(al: seq<Anchor>, a: nat, b: nat)
    requires Apart(al) && Met(al, a) && Met(al, b) && Find(al, a) == Find(al, b)
    ensures a == b
  {
    hide Met, Find;
    var j := FindEntry(al, a);
    var k := FindEntry(al, b);
  }

  /** A node is used exactly by the aliases with its anchor. */
  lemma {:induction false} UsesAnchor(g: seq<Node>, al: seq<Anchor>, t: Tree, x: nat, lo: nat, y: nat)
    requires Apart(al) && Shape(g, al, t, x, lo)
    ensures Uses(t, al, y) > 0 ==> HasIndex(al, y)
    ensures forall a :: Met(al, a) && Find(al, a) == y ==> (Uses(t, al, y) > 0 <==> AliasIn(t, a))
    decreases t, 0
  {
    hide Met, Find;
    match t
    case AliasNode(b) =>
      var k := FindEntry(al, b);
      forall a | Met(al, a) && Find(al, a) == y
        ensures Uses(t, al, y) > 0 <==> AliasIn(t, a)
      {
        if Find(al, b) == y { SameIndex(al, a, b); }
      }
    case ScalarNode(_, _) =>
    case CollectionNode(_, _, _, children) =>
      UsesAllAnchor(g, al, children, g[lo].items, lo + 1, y);
  }

  predicate AliasInAll(ts: seq<Tree>, a: nat) {
    exists k :: 0 <= k < |ts| && AliasIn(ts[k], a)
  }

  lemma {:induction false} AliasInSnoc(ts: seq<Tree>, a: nat)
    requires ts != []
    ensures AliasInAll(ts, a) <==> AliasInAll(ts[..|ts| - 1], a) || AliasIn(ts[|ts| - 1], a)
  {
    hide AliasIn;
    var r := ts[..|ts| - 1];
    if AliasInAll(r, a) {
      var k :| 0 <= k < |r| && AliasIn(r[k], a);
      assert AliasIn(ts[k], a);
    }
    if AliasInAll(ts, a) {
      var k :| 0 <= k < |ts| && AliasIn(ts[k], a);
      assert k < |r| ==> AliasIn(r[k], a);
    }
  }

  lemma {:induction false} UsesAllAnchor(g: seq<Node>, al: seq<Anchor>, ts: seq<Tree>, xs: seq<nat>, lo: nat, y: nat)
    requires Apart(al) && ShapeAll(g, al, ts, xs, lo)
    ensures UsesAll(ts, al, y) > 0 ==> HasIndex(al, y)
    ensures forall a :: Met(al, a) && Find(al, a) == y ==> (UsesAll(ts, al, y) > 0 <==> AliasInAll(ts, a))
    decreases ts, 1
  {
    hide Met, Find, Uses, AliasIn, Shape, HasIndex;
    if ts != [] {
      var n := |ts| - 1;
      UsesAllAnchor(g, al, ts[..n], xs[..n], lo, y);
      UsesAnchor(g, al, ts[n], xs[n], lo + Sizes(ts[..n]), y);
      forall a | Met(al, a) && Find(al, a) == y
        ensures UsesAll(ts, al, y) > 0 <==> AliasInAll(ts, a)
      {
        AliasInSnoc(ts, a);
      }
    }
  }

  // ----- renaming -----

  function NewName(name: Name, al: seq<Anchor>, ids: seq<nat>): Name {
    if name.NoName? then NoName else NameOf(IdOf(ids, Find(al, name.id)))
  }

  /** t with every anchor replaced by what its node has been given, or dropped. */
  function Renamed(t: Tree, al: seq<Anchor>, ids: seq<nat>): Tree {
    match t
    case AliasNode(a) => AliasNode(IdOf(ids, Find(al, a)))
    case ScalarNode(name, data) => ScalarNode(NewName(name, al, ids), data)
    case CollectionNode(name, data, mapping, children) =>
      CollectionNode(NewName(name, al, ids), data, mapping, RenamedAll(children, al, ids))
  }

  function RenamedAll(ts: seq<Tree>, al: seq<Anchor>, ids: seq<nat>): seq<Tree> {
    if ts == [] then [] else RenamedAll(ts[..|ts| - 1], al, ids) + [Renamed(ts[|ts| - 1], al, ids)]
  }

  /** Nodes without an anchor are given none. */
  predicate NoneForUnnamed(names: seq<Anchor>, ids: seq<nat>, lo: nat, hi: nat) {
    forall x :: lo < x <= hi && !HasIndex(names, x) ==> IdOf(ids, x) == 0
  }

  lemma {:induction false} NumberedIs(g: seq<Node>, al: seq<Anchor>, ids: seq<nat>, t: Tree, x: nat, lo: nat)
    requires Shape(g, al, t, x, lo) && NoneForUnnamed(Names(t, lo), ids, lo, lo + Size(t))
    ensures Numbered(t, al, ids, lo) == Renamed(t, al, ids)
    decreases t, 0
  {
    hide Find, Met;
    match t
    case AliasNode(_) =>
    case ScalarNode(name, data) =>
      assert name.NoName? ==> !HasIndex(Names(t, lo), lo + 1);
    case CollectionNode(name, data, mapping, children) =>
      ChildrenUnnamed(t, ids, lo);
      NumberedAllIs(g, al, ids, children, g[lo].items, lo + 1);
  }

  lemma {:induction false} ChildrenUnnamed(t: Tree, ids: seq<nat>, lo: nat)
    requires t.CollectionNode? && NoneForUnnamed(Names(t, lo), ids, lo, lo + Size(t))
    ensures t.name.NoName? ==> IdOf(ids, lo + 1) == 0
    ensures NoneForUnnamed(NamesAll(t.children, lo + 1), ids, lo + 1, lo + 1 + Sizes(t.children))
  {
    hide HasIndex, IdOf, NamesAll, Sizes;
    var own, names := WithAnchor([], t.name, lo + 1), NamesAll(t.children, lo + 1);
    OwnIndex(t.name, names, lo + 1, t.children);
    forall y | lo + 1 < y <= lo + 1 + Sizes(t.children) && !HasIndex(names, y)
      ensures IdOf(ids, y) == 0
    {
      HasIndexJoin(own, names, y);
      OneIndex(t.name, lo + 1, y);
    }
  }

  lemma {:induction false} OneIndex(name: Name, x: nat, y: nat)
    requires x != y
    ensures !HasIndex(WithAnchor([], name, x), y)
  {
  }

  lemma {:induction false} OwnIndex(name: Name, names: seq<Anchor>, x: nat, ts: seq<Tree>)
    requires names == NamesAll(ts, x)
    ensures !HasIndex(names, x) && [] + names == names
  {
    NamesAllRange(ts, x);
  }

  lemma {:induction false} HasIndexJoin(a: seq<Anchor>, b: seq<Anchor>, x: nat)
    ensures HasIndex(a + b, x) <==> HasIndex(a, x) || HasIndex(b, x)
  {
    if HasIndex(a, x) {
      var k :| 0 <= k < |a| && a[k].index == x;
      assert (a + b)[k].index == x;
    }
    if HasIndex(b, x) {
      var k :| 0 <= k < |b| && b[k].index == x;
      assert (a + b)[|a| + k].index == x;
    }
    if HasIndex(a + b, x) {
      var k :| 0 <= k < |a + b| && (a + b)[k].index == x;
      assert k < |a| ==> a[k].index == x;
      assert k >= |a| ==> b[k - |a|].index == x;
    }
  }

  lemma {:induction false} NumberedAllIs(g: seq<Node>, al: seq<Anchor>, ids: seq<nat>, ts: seq<Tree>, xs: seq<nat>, lo: nat)
    requires ShapeAll(g, al, ts, xs, lo) && NoneForUnnamed(NamesAll(ts, lo), ids, lo, lo + Sizes(ts))
    ensures NumberedAll(ts, al, ids, lo) == RenamedAll(ts, al, ids)
    decreases ts, 1
  {
    hide Shape, Numbered, Renamed, Names, Size;
    if ts != [] {
      var n := |ts| - 1;
      var mid := lo + Sizes(ts[..n]);
      NamesAllRange(ts[..n], lo);
      NamesRange(ts[n], mid);
      forall y
        ensures HasIndex(NamesAll(ts, lo), y) <==> HasIndex(NamesAll(ts[..n], lo), y) || HasIndex(Names(ts[n], mid), y)
      {
        HasIndexJoin(NamesAll(ts[..n], lo), Names(ts[n], mid), y);
      }
      NumberedAllIs(g, al, ids, ts[..n], xs[..n], lo);
      NumberedIs(g, al, ids, ts[n], xs[n], mid);
    }
  }

  // ----- the theorem -----

  const Empty := Store([], [])

  /** What the anchors given out mean for the document t with the anchors al: an anchor is kept exactly if
      an alias uses it, and kept anchors differ. */
  ghost predicate Consistent(t: Tree, al: seq<Anchor>, ids: seq<nat>) {
    && (forall a :: Met(al, a) ==> (IdOf(ids, Find(al, a)) != 0 <==> AliasIn(t, a)))
    && (forall a, b :: Met(al, a) && Met(al, b) && a != b && AliasIn(t, a) && AliasIn(t, b) ==>
                         IdOf(ids, Find(al, a)) != IdOf(ids, Find(al, b)))
  }

  lemma {:induction false} GivenOut(t: Tree, s: Store, references: seq<nat>, ids: seq<nat>, last: nat)
    requires Load(t, Empty) == Loaded(1, s) && |references| == |s.nodes| && D.AnchorsOk(references, ids, last)
    requires forall x :: 1 <= x <= |references| ==> references[x - 1] == Count(Trace(t, s.aliases, 0), x)
    requires Shape(s.nodes, s.aliases, t, 1, 0) && s.aliases == Names(t, 0) && |s.nodes| == Size(t)
    ensures Consistent(t, s.aliases, ids) && NoneForUnnamed(Names(t, 0), ids, 0, Size(t))
  {
    hide Load, Met, Find, AliasIn, Shape, Names, Trace, Uses;
    NamesRange(t, 0);
    forall x | 1 <= x <= |s.nodes|
      ensures ids[x - 1] != 0 <==> Uses(t, s.aliases, x) > 0
      ensures !HasIndex(s.aliases, x) ==> ids[x - 1] == 0
      ensures forall a :: Met(s.aliases, a) && Find(s.aliases, a) == x ==> (Uses(t, s.aliases, x) > 0 <==> AliasIn(t, a))
    {
      TraceCount(t, s.aliases, 0, x);
      UsesAnchor(s.nodes, s.aliases, t, 1, 0, x);
    }
    forall a | Met(s.aliases, a)
      ensures 1 <= Find(s.aliases, a) <= |s.nodes|
      ensures IdOf(ids, Find(s.aliases, a)) != 0 <==> AliasIn(t, a)
    {
      var k := FindEntry(s.aliases, a);
      var x := Find(s.aliases, a);
      TraceCount(t, s.aliases, 0, x);
      UsesAnchor(s.nodes, s.aliases, t, 1, 0, x);
    }
    forall a, b | Met(s.aliases, a) && Met(s.aliases, b) && a != b && AliasIn(t, a) && AliasIn(t, b)
      ensures IdOf(ids, Find(s.aliases, a)) != IdOf(ids, Find(s.aliases, b))
    {
      var x, y := Find(s.aliases, a), Find(s.aliases, b);
      if x == y { SameIndex(s.aliases, a, b); }
      assert ids[x - 1] != 0 && ids[y - 1] != 0;
      assert if x < y then ids[x - 1] != ids[y - 1] else ids[y - 1] != ids[x - 1];
    }
  }

  lemma {:induction false} RootFirst(t: Tree)
    requires Load(t, Empty).Loaded?
    ensures Load(t, Empty).index == 1 && Load(t, Empty).store.nodes != []
  {
  }

  /** Loads the document with the events of t and dumps it: the events of the same document come out, with
      its anchors renamed. */
  method LoadThenDump(events: seq<Event>, ghost t: Tree) returns (ok: bool, out: seq<Event>, ghost al: seq<Anchor>, ghost ids: seq<nat>)
    requires Proper(t) && events == Text(t)
    ensures ok == Load(t, Empty).Loaded?
    ensures ok ==> out == Text(Renamed(t, al, ids)) && Consistent(t, al, ids) && al == Load(t, Empty).store.aliases
  {
    hide Load, Shape, Walk, Dump, Trace, Numbered, Renamed, Names, Text, Texts, Size, Proper, Consistent, D.AnchorsOk;
    al, ids, out := [], [], [];
    var loader := new Loader(events);
    assert loader.Stored() == Empty;
    TextStarts(t);
    var e := loader.Next();
    assert [e] + loader.events == Text(t) + [];
    var root;
    root, ok := loader.LoadNode(e, t, []);
    if !ok {
      return;
    }
    RootFirst(t);
    ghost var s := loader.Stored();
    assert StoreOk(Empty);
    LoadKeeps(t, Empty);
    assert [] + Names(t, 0) == Names(t, 0);
    LoadShape(t, Empty, s.nodes, s.aliases);
    var dumper := new D.Dumper(loader.nodes);
    D.DumpDocument(dumper);
    al, ids, out := loader.aliases, dumper.anchors, dumper.out;
    NothingSeen();
    DumpLoaded(s.nodes, al, ids, t, 1, 0);
    Facts(dumper);
    GivenOut(t, s, dumper.references, ids, dumper.lastAnchorId);
    NumberedIs(s.nodes, al, ids, t, 1, 0);
  }

  lemma {:induction false} Facts(d: D.Dumper)
    requires d.Valid()
    ensures D.AnchorsOk(d.references, d.anchors, d.lastAnchorId) && |d.references| == |d.nodes|
  {
  }

  lemma {:induction false} NothingSeen()
    ensures UpTo(0) == {}
  {
  }
}
