/**
 * In every run of the dispatch protocol each live node is in exactly one place, the counter of an
 * original is the number of its copies, and no freed node is ever used.
 */
module DispatchMemory {
  import opened Dispatch

  // ----- places -----

  function InQueues(qs: seq<seq<nat>>): multiset<nat> {
    if qs == [] then multiset{} else multiset(qs[0]) + InQueues(qs[1..])
  }

  function Carried(pc: WorkerPc): multiset<nat> {
    if pc.Waiting? then multiset{} else multiset{pc.c}
  }

  function WithWorkers(ws: seq<Worker>): multiset<nat> {
    if ws == [] then multiset{} else Carried(ws[0].pc) + WithWorkers(ws[1..])
  }

  function InHand(p: Sched): multiset<nat> {
    match p
    case Idle => multiset{}
    case Pushing(n, _, c, _) => multiset{n, c}
    case _ => multiset{p.n}
  }

  /** Every place where a node can be, with multiplicity. */
  function Places(s: State): multiset<nat> {
    multiset(s.queue) + InHand(s.sched) + InQueues(s.servers) + WithWorkers(s.workers)
  }

  lemma {:induction false} Regroup(h: multiset<nat>, a: multiset<nat>, b: multiset<nat>, p: multiset<nat>, q: multiset<nat>)
    requires a + p == b + q
    ensures h + a + p == h + b + q
  {
    assert h + a + p == h + (a + p);
    assert h + b + q == h + (b + q);
  }

  lemma {:induction false} QueueSet(qs: seq<seq<nat>>, i: nat, q: seq<nat>)
    requires i < |qs|
    ensures InQueues(qs[i := q]) + multiset(qs[i]) == InQueues(qs) + multiset(q)
    decreases |qs|
  {
    var r := qs[i := q];
    if i == 0 {
      assert r[1..] == qs[1..];
    } else {
      assert r[1..] == qs[1..][i - 1 := q] && r[0] == qs[0] && qs[1..][i - 1] == qs[i];
      QueueSet(qs[1..], i - 1, q);
      Regroup(multiset(qs[0]), InQueues(r[1..]), InQueues(qs[1..]), multiset(qs[i]), multiset(q));
    }
  }

  lemma {:induction false} WorkerSet(ws: seq<Worker>, i: nat, x: Worker)
    requires i < |ws|
    ensures WithWorkers(ws[i := x]) + Carried(ws[i].pc) == WithWorkers(ws) + Carried(x.pc)
    decreases |ws|
  {
    var r := ws[i := x];
    if i == 0 {
      assert r[1..] == ws[1..];
    } else {
      assert r[1..] == ws[1..][i - 1 := x] && r[0] == ws[0] && ws[1..][i - 1] == ws[i];
      WorkerSet(ws[1..], i - 1, x);
      Regroup(Carried(ws[0].pc), WithWorkers(r[1..]), WithWorkers(ws[1..]), Carried(ws[i].pc), Carried(x.pc));
    }
  }

  lemma {:induction false} Cancel(a: multiset<nat>, b: multiset<nat>, m: multiset<nat>)
    requires a + m == b + m
    ensures a == b
  {
    assert a + m - m == a && b + m - m == b;
  }

  lemma {:induction false} QueueAppend(qs: seq<seq<nat>>, i: nat, c: nat)
    requires i < |qs|
    ensures InQueues(qs[i := qs[i] + [c]]) == InQueues(qs) + multiset{c}
  {
    hide InQueues;
    QueueSet(qs, i, qs[i] + [c]);
    var a, m := InQueues(qs[i := qs[i] + [c]]), multiset(qs[i]);
    assert InQueues(qs) + (m + multiset{c}) == InQueues(qs) + multiset{c} + m;
    Cancel(a, InQueues(qs) + multiset{c}, m);
  }

  lemma {:induction false} QueueTake(qs: seq<seq<nat>>, i: nat)
    requires i < |qs| && qs[i] != []
    ensures InQueues(qs[i := qs[i][1..]]) + multiset{qs[i][0]} == InQueues(qs)
  {
    hide InQueues;
    QueueSet(qs, i, qs[i][1..]);
    var a, m := InQueues(qs[i := qs[i][1..]]), multiset(qs[i][1..]);
    assert qs[i] == [qs[i][0]] + qs[i][1..];
    assert multiset(qs[i]) == multiset{qs[i][0]} + m;
    assert a + (multiset{qs[i][0]} + m) == a + multiset{qs[i][0]} + m;
    Cancel(a + multiset{qs[i][0]}, InQueues(qs), m);
  }

  lemma {:induction false} WorkerDrop(ws: seq<Worker>, i: nat)
    requires i < |ws| && !ws[i].pc.Waiting?
    ensures WithWorkers(ws[i := ws[i].(pc := Waiting)]) + multiset{ws[i].pc.c} == WithWorkers(ws)
  {
    hide WithWorkers;
    WorkerSet(ws, i, ws[i].(pc := Waiting));
    assert WithWorkers(ws) + multiset{} == WithWorkers(ws);
  }

  lemma {:induction false} WorkerTakes(ws: seq<Worker>, i: nat, c: nat)
    requires i < |ws| && ws[i].pc.Waiting?
    ensures WithWorkers(ws[i := ws[i].(pc := Holding(c))]) == WithWorkers(ws) + multiset{c}
  {
    hide WithWorkers;
    WorkerSet(ws, i, ws[i].(pc := Holding(c)));
    var a := WithWorkers(ws[i := ws[i].(pc := Holding(c))]);
    assert a + multiset{} == a;
  }

  lemma {:induction false} QueueIn(qs: seq<seq<nat>>, i: nat, c: nat)
    requires i < |qs| && c in qs[i]
    ensures c in InQueues(qs)
    decreases |qs|
  {
    if i > 0 {
      assert qs[1..][i - 1] == qs[i];
      QueueIn(qs[1..], i - 1, c);
    }
  }

  lemma {:induction false} WorkerIn(ws: seq<Worker>, i: nat)
    requires i < |ws| && !ws[i].pc.Waiting?
    ensures ws[i].pc.c in WithWorkers(ws)
    decreases |ws|
  {
    if i > 0 {
      assert ws[1..][i - 1] == ws[i];
      WorkerIn(ws[1..], i - 1);
    }
  }

  lemma {:induction false} EmptyPlaces(qs: seq<seq<nat>>, ws: seq<Worker>)
    requires forall i :: 0 <= i < |qs| ==> qs[i] == []
    requires forall i :: 0 <= i < |ws| ==> ws[i].pc.Waiting?
    ensures InQueues(qs) == multiset{} && WithWorkers(ws) == multiset{}
    decreases |qs| + |ws|
  {
    if qs != [] {
      EmptyPlaces(qs[1..], ws);
    } else if ws != [] {
      EmptyPlaces(qs, ws[1..]);
    }
  }

  // ----- counters -----

  function CopiesOf(heap: map<nat, Node>, o: nat): set<nat> {
    set c | c in heap && heap[c].Copy? && heap[c].orig == o && heap[c].counted
  }

  predicate Counted(heap: map<nat, Node>, c: nat) {
    c in heap && heap[c].Copy? && heap[c].counted
  }

  /** A counted copy has its original, with the same strings, and knows its group. */
  predicate Linked(g: Config, heap: map<nat, Node>) {
    forall c :: c in heap && heap[c].Copy? && heap[c].counted ==>
                  && heap[c].orig in heap && heap[heap[c].orig].Original? && heap[heap[c].orig].path == heap[c].path
                  && heap[c].group < |g.names| && heap[c].sg == g.names[heap[c].group]
  }

  predicate CountersRight(heap: map<nat, Node>) {
    forall o :: o in heap && heap[o].Original? ==> heap[o].retain == |CopiesOf(heap, o)|
  }

  /** One original for a path, and only for paths that entered. */
  predicate OnePerPath(heap: map<nat, Node>, entered: set<nat>) {
    && (forall o :: o in heap && heap[o].Original? ==> heap[o].path in entered)
    && (forall a, b :: a in heap && b in heap && heap[a].Original? && heap[b].Original? && a != b ==> heap[a].path != heap[b].path)
  }

  ghost predicate HeapOk(g: Config, s: State) {
    Linked(g, s.heap) && CountersRight(s.heap) && OnePerPath(s.heap, s.entered)
  }

  predicate WorkerOk(heap: map<nat, Node>, pc: WorkerPc) {
    if pc.Waiting? then true
    else if pc.Released? then pc.c in heap && heap[pc.c].Copy? && !heap[pc.c].counted
    else Counted(heap, pc.c)
  }

  /** Between the check of the counter and the first copy nothing refers to the node. */
  predicate Quiet(p: Sched) {
    p.Fresh? || p.Existing? || p.Creating? || p.CheckingAll? || p.Finishing? || p.Dropping?
  }

  predicate QueueRole(heap: map<nat, Node>, q: seq<nat>) {
    forall n :: n in q ==> n in heap && heap[n].Original?
  }

  predicate ServersRole(heap: map<nat, Node>, qs: seq<seq<nat>>) {
    forall c :: c in InQueues(qs) ==> Counted(heap, c)
  }

  predicate WorkersRole(heap: map<nat, Node>, ws: seq<Worker>) {
    forall w :: 0 <= w < |ws| ==> WorkerOk(heap, ws[w].pc)
  }

  predicate SchedRole(heap: map<nat, Node>, p: Sched) {
    && (!p.Idle? ==> p.n in heap && heap[p.n].Original?)
    && (p.Pushing? ==> Counted(heap, p.c))
    && (Quiet(p) ==> CopiesOf(heap, p.n) == {})
  }

  predicate KindsOk(s: State) {
    QueueRole(s.heap, s.queue) && ServersRole(s.heap, s.servers) && WorkersRole(s.heap, s.workers) && SchedRole(s.heap, s.sched)
  }

  predicate EachOnce(s: State) {
    Places(s) == multiset(s.heap.Keys)
  }

  /** The memory invariant: no fault, every live node in exactly one place, counters exact. */
  ghost predicate MemoryOk(g: Config, s: State) {
    !s.fault && HeapOk(g, s) && KindsOk(s) && EachOnce(s)
  }

  /** Apart from x every node lives on as what it was; only counters of originals may differ. */
  predicate Same(h: map<nat, Node>, k: map<nat, Node>, x: nat) {
    forall c :: c in h && c != x ==> c in k && (h[c].Original? <==> k[c].Original?) && (h[c].Copy? ==> k[c] == h[c])
  }

  lemma {:induction false} QueueKept(h: map<nat, Node>, k: map<nat, Node>, x: nat, q: seq<nat>, qs: seq<seq<nat>>)
    requires QueueRole(h, q) && ServersRole(h, qs) && Same(h, k, x)
    ensures x !in q ==> QueueRole(k, q)
    ensures x !in InQueues(qs) ==> ServersRole(k, qs)
  {
    hide InQueues;
  }

  lemma {:induction false} WorkersKept(h: map<nat, Node>, k: map<nat, Node>, x: nat, ws: seq<Worker>, u: seq<Worker>)
    requires WorkersRole(h, ws) && Same(h, k, x) && |u| == |ws|
    requires forall w :: 0 <= w < |ws| ==> (if !ws[w].pc.Waiting? && ws[w].pc.c == x then WorkerOk(k, u[w].pc) else u[w] == ws[w])
    ensures WorkersRole(k, u)
  {
  }

  lemma {:induction false} Parts(g: Config, s: State)
    requires MemoryOk(g, s)
    ensures !s.fault && HeapOk(g, s) && KindsOk(s) && EachOnce(s)
  {
  }

  lemma {:induction false} HeapSame(g: Config, s: State, t: State)
    requires HeapOk(g, s) && t.heap == s.heap && t.entered == s.entered
    ensures HeapOk(g, t)
  {
  }

  // ----- what the heap changes do -----

  lemma {:induction false} NewOriginal(g: Config, s: State, id: nat, p: nat)
    requires HeapOk(g, s) && id !in s.heap && p !in s.entered
    ensures HeapOk(g, s.(heap := s.heap[id := Original(p, 0)], entered := s.entered + {p}))
    ensures forall o :: CopiesOf(s.heap[id := Original(p, 0)], o) == CopiesOf(s.heap, o)
  {
    var h := s.heap[id := Original(p, 0)];
    forall o
      ensures CopiesOf(h, o) == CopiesOf(s.heap, o)
    {
    }
    assert CopiesOf(s.heap, id) == {};
    assert CountersRight(h);
  }

  lemma {:induction false} NewCopySets(g: Config, h: map<nat, Node>, n: nat, id: nat, i: nat, o: nat)
    requires n in h && h[n].Original? && i < |g.names| && id !in h
    ensures CopiesOf(WithCopy(g, h, n, id, i), o) == CopiesOf(h, o) + (if o == n then {id} else {})
    ensures id !in CopiesOf(h, o)
  {
  }

  lemma {:induction false} NewCopy(g: Config, s: State, n: nat, id: nat, i: nat)
    requires HeapOk(g, s) && LiveOriginal(s, n) && id !in s.heap && i < |g.names|
    ensures HeapOk(g, s.(heap := WithCopy(g, s.heap, n, id, i)))
  {
    hide CopiesOf;
    var h := WithCopy(g, s.heap, n, id, i);
    forall o | o in h && h[o].Original?
      ensures h[o].retain == |CopiesOf(h, o)|
    {
      NewCopySets(g, s.heap, n, id, i, o);
      assert o in s.heap && s.heap[o].Original?;
    }
    assert Linked(g, h);
    NewCopyPaths(g, s, n, id, i);
  }

  lemma {:induction false} NewCopyPaths(g: Config, s: State, n: nat, id: nat, i: nat)
    requires OnePerPath(s.heap, s.entered) && LiveOriginal(s, n) && id !in s.heap && i < |g.names|
    ensures OnePerPath(WithCopy(g, s.heap, n, id, i), s.entered)
  {
    var h := WithCopy(g, s.heap, n, id, i);
    assert forall o :: o in h && h[o].Original? ==> o in s.heap && s.heap[o].Original? && s.heap[o].path == h[o].path;
  }

  lemma {:induction false} GiveBackSets(h: map<nat, Node>, c: nat, o: nat)
    requires Counted(h, c) && h[c].orig in h && h[h[c].orig].Original?
    ensures CopiesOf(Uncounted(h, c), o) == CopiesOf(h, o) - {c}
    ensures c in CopiesOf(h, o) <==> o == h[c].orig
  {
  }

  lemma {:induction false} GiveBack(g: Config, s: State, c: nat)
    requires HeapOk(g, s) && Counted(s.heap, c)
    ensures LiveCopy(s, c) && HeapOk(g, s.(heap := Uncounted(s.heap, c)))
    ensures forall o :: CopiesOf(Uncounted(s.heap, c), o) <= CopiesOf(s.heap, o)
  {
    hide CopiesOf;
    var h := Uncounted(s.heap, c);
    forall o
      ensures CopiesOf(h, o) <= CopiesOf(s.heap, o)
      ensures o in h && h[o].Original? ==> h[o].retain == |CopiesOf(h, o)|
    {
      GiveBackSets(s.heap, c, o);
    }
    assert Linked(g, h);
    assert OnePerPath(h, s.entered);
  }

  lemma {:induction false} FreeNode(g: Config, s: State, x: nat)
    requires HeapOk(g, s) && x in s.heap
    requires if s.heap[x].Original? then CopiesOf(s.heap, x) == {} else !s.heap[x].counted
    ensures HeapOk(g, s.(heap := s.heap - {x}))
    ensures forall o :: CopiesOf(s.heap - {x}, o) == CopiesOf(s.heap, o)
  {
    var h := s.heap - {x};
    forall c | c in s.heap && s.heap[c].Copy? && s.heap[c].counted
      ensures c in h && s.heap[c].orig in h
    {
      assert c in CopiesOf(s.heap, s.heap[c].orig);
    }
    assert forall o :: CopiesOf(h, o) == CopiesOf(s.heap, o);
  }

  // ----- a node in hand is nowhere else -----

  lemma {:induction false} QueueIds(s: State, id: nat)
    requires KindsOk(s) && id !in s.heap
    ensures id !in s.queue && id !in InQueues(s.servers)
    ensures forall w :: 0 <= w < |s.workers| && !s.workers[w].pc.Waiting? ==> s.workers[w].pc.c != id
  {
    hide InQueues, CopiesOf;
    assert forall w :: 0 <= w < |s.workers| ==> WorkerOk(s.heap, s.workers[w].pc);
  }

  lemma {:induction false} OnlyInHand(s: State, x: nat)
    requires EachOnce(s) && x in InHand(s.sched)
    ensures x !in s.queue && x !in InQueues(s.servers)
    ensures forall w :: 0 <= w < |s.workers| && !s.workers[w].pc.Waiting? ==> s.workers[w].pc.c != x
  {
    assert Places(s)[x] <= 1;
    assert x in s.queue ==> multiset(s.queue)[x] >= 1;
    forall w | 0 <= w < |s.workers| && !s.workers[w].pc.Waiting?
      ensures s.workers[w].pc.c != x
    {
      WorkerIn(s.workers, w);
    }
  }

  lemma {:induction false} WorkersApart(ws: seq<Worker>, w: nat, v: nat)
    requires w < |ws| && v < |ws| && v != w && !ws[w].pc.Waiting? && !ws[v].pc.Waiting?
    requires WithWorkers(ws)[ws[w].pc.c] <= 1
    ensures ws[v].pc.c != ws[w].pc.c
  {
    var idle := ws[w].(pc := Waiting);
    WorkerSet(ws, w, idle);
    WorkerIn(ws[w := idle], v);
    assert ws[w := idle][v] == ws[v];
    assert (WithWorkers(ws[w := idle]) + Carried(ws[w].pc))[ws[w].pc.c] <= 1;
  }

  lemma {:induction false} OnlyWithWorker(s: State, w: nat)
    requires EachOnce(s) && w < |s.workers| && !s.workers[w].pc.Waiting?
    ensures var x := s.workers[w].pc.c; x !in s.queue && x !in InQueues(s.servers) && x !in InHand(s.sched)
    ensures forall v :: 0 <= v < |s.workers| && v != w && !s.workers[v].pc.Waiting? ==> s.workers[v].pc.c != s.workers[w].pc.c
  {
    hide InQueues, WithWorkers;
    var x := s.workers[w].pc.c;
    WorkerIn(s.workers, w);
    assert Places(s)[x] <= 1;
    assert x in s.queue ==> multiset(s.queue)[x] >= 1;
    forall v | 0 <= v < |s.workers| && v != w && !s.workers[v].pc.Waiting?
      ensures s.workers[v].pc.c != x
    {
      WorkersApart(s.workers, w, v);
    }
  }

  // ----- every step keeps the invariant -----

  lemma {:induction false} Freed(s: State, t: State, x: nat)
    requires EachOnce(s) && x in s.heap && t.heap == s.heap - {x}
    requires Places(t) + multiset{x} == Places(s)
    ensures EachOnce(t)
  {
    hide Places;
    assert multiset(t.heap.Keys) + multiset{x} == multiset(s.heap.Keys);
    Cancel(Places(t), multiset(t.heap.Keys), multiset{x});
  }

  lemma {:induction false} Made(s: State, t: State, x: nat)
    requires EachOnce(s) && x !in s.heap && t.heap.Keys == s.heap.Keys + {x}
    requires Places(t) == Places(s) + multiset{x}
    ensures EachOnce(t)
  {
    hide Places;
    assert multiset(t.heap.Keys) == multiset(s.heap.Keys) + multiset{x};
  }

  // Where the nodes go in each kind of step.

  lemma {:induction false} PopPlaces(s: State)
    requires s.sched.Idle? && s.queue != []
    ensures Places(Pop(s)) == Places(s)
  {
    hide InQueues, WithWorkers;
    var q := s.queue;
    assert q == [q[0]] + q[1..];
    assert multiset(q) == multiset{q[0]} + multiset(q[1..]);
  }

  lemma {:induction false} DropPlaces(s: State)
    requires Quiet(s.sched)
    ensures Places(s.(heap := s.heap - {s.sched.n}, sched := Idle)) + multiset{s.sched.n} == Places(s)
  {
    hide InQueues, WithWorkers;
  }

  lemma {:induction false} PushPlaces(s: State, t: State, sv: nat)
    requires s.sched.Pushing? && t.sched == Looping(s.sched.n, s.sched.i + 1)
    requires InQueues(t.servers) == InQueues(s.servers) + multiset{s.sched.c} && t.queue == s.queue && t.workers == s.workers
    ensures Places(t) == Places(s)
  {
    hide InQueues, WithWorkers;
  }

  lemma {:induction false} WorkerPlaces(s: State, t: State, gone: multiset<nat>, come: multiset<nat>)
    requires WithWorkers(t.workers) + gone == WithWorkers(s.workers) + come
    requires t.queue == s.queue && t.sched == s.sched && t.servers == s.servers
    ensures Places(t) + gone == Places(s) + come
  {
    hide InQueues, WithWorkers, InHand;
    var a := multiset(s.queue) + InHand(s.sched) + InQueues(s.servers);
    assert a + WithWorkers(t.workers) + gone == a + (WithWorkers(t.workers) + gone);
    assert a + WithWorkers(s.workers) + come == a + (WithWorkers(s.workers) + come);
  }

  lemma {:induction false} TakePlaces(s: State, t: State, c: nat)
    requires InQueues(t.servers) + multiset{c} == InQueues(s.servers) && WithWorkers(t.workers) == WithWorkers(s.workers) + multiset{c}
    requires t.queue == s.queue && t.sched == s.sched
    ensures Places(t) == Places(s)
  {
    hide InQueues, WithWorkers, InHand;
  }

  lemma {:induction false} AddPlaces(s: State, t: State, id: nat)
    requires t.queue == s.queue + [id] && t.sched == s.sched && t.servers == s.servers && t.workers == s.workers
    ensures Places(t) == Places(s) + multiset{id}
  {
    hide InQueues, WithWorkers, InHand;
  }

  lemma {:induction false} PopKeeps(g: Config, s: State)
    requires MemoryOk(g, s) && s.sched.Idle? && s.queue != []
    ensures MemoryOk(g, Pop(s))
  {
    hide CopiesOf, InQueues, WithWorkers, Places, HeapOk, WorkersRole, ServersRole;
    HeapSame(g, s, Pop(s));
    var q, t := s.queue, Pop(s);
    PopPlaces(s);
    assert t.heap[q[0]].Original?;
  }

  /** The scheduler goes on with the same node. */
  lemma {:induction false} MoveKeeps(g: Config, s: State, p: Sched, files: set<File>)
    requires MemoryOk(g, s) && !s.sched.Idle? && !p.Idle? && p.n == s.sched.n && !s.sched.Pushing? && !p.Pushing?
    requires Quiet(p) ==> CopiesOf(s.heap, p.n) == {}
    ensures MemoryOk(g, s.(sched := p, files := files))
  {
    assert InHand(p) == InHand(s.sched);
  }

  lemma {:induction false} DropKeeps(g: Config, s: State)
    requires MemoryOk(g, s) && Quiet(s.sched)
    ensures MemoryOk(g, s.(heap := s.heap - {s.sched.n}, sched := Idle))
  {
    hide CopiesOf, InQueues, WithWorkers, Places, HeapOk, QueueRole, ServersRole, WorkersRole;
    var n := s.sched.n;
    var h, t := s.heap - {n}, s.(heap := s.heap - {n}, sched := Idle);
    FreeNode(g, s, n);
    OnlyInHand(s, n);
    QueueKept(s.heap, h, n, s.queue, s.servers);
    WorkersKept(s.heap, h, n, s.workers, s.workers);
    HeapSame(g, s.(heap := h), t);
    DropPlaces(s);
    Freed(s, t, n);
  }

  lemma {:induction false} AssignPlaces(s: State, t: State, id: nat)
    requires EachOnce(s) && s.sched.Assigning? && id !in s.heap && t.heap.Keys == s.heap.Keys + {id}
    requires t.sched.Pushing? && t.sched.n == s.sched.n && t.sched.c == id
    requires t.queue == s.queue && t.servers == s.servers && t.workers == s.workers
    ensures EachOnce(t)
  {
    hide InQueues, WithWorkers;
    assert Places(t) == Places(s) + multiset{id};
    Made(s, t, id);
  }

  lemma {:induction false} AssignKeeps(g: Config, s: State, i: nat, id: nat, server: nat)
    requires MemoryOk(g, s) && s.sched.Assigning? && i < |g.names| && id !in s.heap
    ensures MemoryOk(g, s.(heap := WithCopy(g, s.heap, s.sched.n, id, i), sched := Pushing(s.sched.n, i, id, server)))
  {
    hide CopiesOf, InQueues, WithWorkers, Places, HeapOk, QueueRole, ServersRole, WorkersRole, EachOnce;
    var n := s.sched.n;
    var h := WithCopy(g, s.heap, n, id, i);
    var t := s.(heap := h, sched := Pushing(n, i, id, server));
    NewCopy(g, s, n, id, i);
    HeapSame(g, s.(heap := h), t);
    QueueIds(s, id);
    QueueKept(s.heap, h, id, s.queue, s.servers);
    WorkersKept(s.heap, h, id, s.workers, s.workers);
    assert h.Keys == s.heap.Keys + {id};
    AssignPlaces(s, t, id);
  }

  lemma {:induction false} PushKeeps(g: Config, s: State)
    requires MemoryOk(g, s) && s.sched.Pushing? && s.sched.server < |s.servers|
    ensures var sv, c := s.sched.server, s.sched.c;
            MemoryOk(g, s.(servers := s.servers[sv := s.servers[sv] + [c]], sched := Looping(s.sched.n, s.sched.i + 1)))
  {
    hide CopiesOf, InQueues, WithWorkers, Places, HeapOk, QueueRole, WorkersRole;
    var sv, c := s.sched.server, s.sched.c;
    var t := s.(servers := s.servers[sv := s.servers[sv] + [c]], sched := Looping(s.sched.n, s.sched.i + 1));
    HeapSame(g, s, t);
    QueueAppend(s.servers, sv, c);
    PushPlaces(s, t, sv);
  }

  lemma {:induction false} ReturnKeeps(g: Config, s: State)
    requires MemoryOk(g, s) && s.sched.Returning?
    ensures MemoryOk(g, s.(queue := s.queue + [s.sched.n], sched := Idle))
  {
    hide CopiesOf, InQueues, WithWorkers;
    var t := s.(queue := s.queue + [s.sched.n], sched := Idle);
    assert Places(t) == Places(s);
  }

  lemma {:induction false} InHandKnown(g: Config, s: State)
    requires MemoryOk(g, s) && !s.sched.Idle?
    ensures LiveOriginal(s, s.sched.n) && s.heap[s.sched.n].retain == |CopiesOf(s.heap, s.sched.n)|
    ensures Quiet(s.sched) ==> CopiesOf(s.heap, s.sched.n) == {}
    ensures s.sched.Pushing? ==> s.sched.c in s.heap
  {
    hide CopiesOf;
  }

  lemma {:induction false} ScheduleKeeps(g: Config, s: State, keep: bool, server: nat, id: nat)
    requires ConfigOk(g) && MemoryOk(g, s)
    ensures MemoryOk(g, ScheduleStep(g, s, keep, server, id))
  {
    hide MemoryOk, CopiesOf, Places, WithCopy;
    var p := s.sched;
    if p.Idle? {
      if s.queue != [] { PopKeeps(g, s); }
    } else {
      InHandKnown(g, s);
      var t := ScheduleStep(g, s, keep, server, id);
      if (p.Finishing? && p.phase > 2) || p.Dropping? {
        DropKeeps(g, s);
      } else if p.Assigning? && t.sched.Pushing? {
        AssignKeeps(g, s, p.i, id, server);
      } else if p.Pushing? {
        if p.server < |s.servers| { PushKeeps(g, s); }
      } else if p.Returning? {
        ReturnKeeps(g, s);
      } else {
        MoveKeeps(g, s, t.sched, t.files);
      }
    }
  }

  /** The worker goes on with the same copy. */
  lemma {:induction false} WorkerMoveKeeps(g: Config, s: State, w: nat, pc: WorkerPc, files: set<File>, done: set<(nat, nat)>)
    requires MemoryOk(g, s) && w < |s.workers| && !s.workers[w].pc.Waiting? && !pc.Waiting? && pc.c == s.workers[w].pc.c
    requires WorkerOk(s.heap, pc)
    ensures MemoryOk(g, SetPc(s, w, pc).(files := files, done := done))
  {
    hide CopiesOf, InQueues, WithWorkers, HeapOk, Places;
    var t := SetPc(s, w, pc).(files := files, done := done);
    HeapSame(g, s, t);
    WorkerSet(s.workers, w, s.workers[w].(pc := pc));
    Cancel(WithWorkers(t.workers), WithWorkers(s.workers), Carried(pc));
    WorkerPlaces(s, t, multiset{}, multiset{});
    Cancel(Places(t), Places(s), multiset{});
  }

  lemma {:induction false} TakeKeeps(g: Config, s: State, w: nat, sv: nat)
    requires MemoryOk(g, s) && w < |s.workers| && s.workers[w].pc.Waiting? && sv < |s.servers| && s.servers[sv] != []
    ensures MemoryOk(g, SetPc(s, w, Holding(s.servers[sv][0])).(servers := s.servers[sv := s.servers[sv][1..]]))
  {
    hide CopiesOf, InQueues, WithWorkers, HeapOk, Places;
    var c := s.servers[sv][0];
    var t := SetPc(s, w, Holding(c)).(servers := s.servers[sv := s.servers[sv][1..]]);
    HeapSame(g, s, t);
    QueueIn(s.servers, sv, c);
    QueueTake(s.servers, sv);
    WorkerTakes(s.workers, w, c);
    assert forall x :: x in InQueues(t.servers) ==> x in InQueues(s.servers) by {
      assert InQueues(t.servers) <= InQueues(t.servers) + multiset{c};
    }
    TakePlaces(s, t, c);
  }

  lemma {:induction false} RetryKeeps(g: Config, s: State, w: nat, sv: nat)
    requires MemoryOk(g, s) && w < |s.workers| && sv < |s.servers|
    requires !s.workers[w].pc.Waiting? && Counted(s.heap, s.workers[w].pc.c)
    ensures MemoryOk(g, SetPc(s, w, Waiting).(servers := s.servers[sv := s.servers[sv] + [s.workers[w].pc.c]]))
  {
    hide CopiesOf, InQueues, WithWorkers, HeapOk, Places;
    var c := s.workers[w].pc.c;
    var t := SetPc(s, w, Waiting).(servers := s.servers[sv := s.servers[sv] + [c]]);
    HeapSame(g, s, t);
    QueueAppend(s.servers, sv, c);
    WorkerDrop(s.workers, w);
    TakePlaces(t, s, c);
  }

  lemma {:induction false} GiveBackKeeps(g: Config, s: State, w: nat)
    requires MemoryOk(g, s) && w < |s.workers| && s.workers[w].pc.Releasing?
    ensures LiveCopy(s, s.workers[w].pc.c)
    ensures var c := s.workers[w].pc.c; MemoryOk(g, SetPc(s, w, Released(c)).(heap := Uncounted(s.heap, c)))
  {
    hide CopiesOf, InQueues, WithWorkers, HeapOk, Places, QueueRole, ServersRole;
    var c := s.workers[w].pc.c;
    GiveBack(g, s, c);
    var h := Uncounted(s.heap, c);
    var t := SetPc(s, w, Released(c)).(heap := h);
    HeapSame(g, s.(heap := h), t);
    OnlyWithWorker(s, w);
    QueueKept(s.heap, h, c, s.queue, s.servers);
    WorkersKept(s.heap, h, c, s.workers, t.workers);
    assert Quiet(s.sched) ==> CopiesOf(h, s.sched.n) <= CopiesOf(s.heap, s.sched.n);
    WorkerSet(s.workers, w, s.workers[w].(pc := Released(c)));
    Cancel(WithWorkers(t.workers), WithWorkers(s.workers), multiset{c});
    WorkerPlaces(s, t, multiset{}, multiset{});
    Cancel(Places(t), Places(s), multiset{});
    assert h.Keys == s.heap.Keys;
  }

  lemma {:induction false} FreeCopyKeeps(g: Config, s: State, w: nat)
    requires MemoryOk(g, s) && w < |s.workers| && s.workers[w].pc.Released?
    ensures MemoryOk(g, SetPc(s, w, Waiting).(heap := s.heap - {s.workers[w].pc.c}))
  {
    hide CopiesOf, InQueues, WithWorkers, HeapOk, Places, QueueRole, ServersRole, EachOnce;
    var c := s.workers[w].pc.c;
    assert WorkerOk(s.heap, s.workers[w].pc);
    FreeNode(g, s, c);
    var h := s.heap - {c};
    var t := SetPc(s, w, Waiting).(heap := h);
    HeapSame(g, s.(heap := h), t);
    OnlyWithWorker(s, w);
    QueueKept(s.heap, h, c, s.queue, s.servers);
    WorkersKept(s.heap, h, c, s.workers, t.workers);
    WorkerDrop(s.workers, w);
    WorkerPlaces(s, t, multiset{c}, multiset{});
    Freed(s, t, c);
  }

  lemma {:induction false} WorkKeeps(g: Config, s: State, w: nat, ok: bool, retry: bool, removed: bool)
    requires MemoryOk(g, s)
    ensures MemoryOk(g, WorkStep(g, s, w, ok, retry, removed))
  {
    hide MemoryOk, CopiesOf, Places;
    if w < |s.workers| && s.workers[w].server < |s.servers| {
      var sv, pc, t := s.workers[w].server, s.workers[w].pc, WorkStep(g, s, w, ok, retry, removed);
      Parts(g, s);
      assert WorkerOk(s.heap, pc);
      if pc.Waiting? {
        if s.servers[sv] != [] { TakeKeeps(g, s, w, sv); }
      } else if pc.Released? {
        FreeCopyKeeps(g, s, w);
      } else if pc.Releasing? {
        GiveBackKeeps(g, s, w);
      } else if pc.Calling? && !ok && retry {
        RetryKeeps(g, s, w, sv);
      } else {
        assert LiveCopy(s, pc.c) && Counted(s.heap, pc.c);
        WorkerMoveKeeps(g, s, w, t.workers[w].pc, t.files, t.done);
      }
    }
  }

  // ----- the environment -----

  lemma {:induction false} AddKeeps(g: Config, s: State, p: nat, id: nat)
    requires MemoryOk(g, s) && p !in s.entered && id !in s.heap
    ensures MemoryOk(g, s.(heap := s.heap[id := Original(p, 0)], queue := s.queue + [id], entered := s.entered + {p}))
  {
    hide CopiesOf, InQueues, WithWorkers, HeapOk, Places, ServersRole, WorkersRole, EachOnce;
    var h := s.heap[id := Original(p, 0)];
    var t := s.(heap := h, queue := s.queue + [id], entered := s.entered + {p});
    NewOriginal(g, s, id, p);
    HeapSame(g, s.(heap := h, entered := t.entered), t);
    QueueIds(s, id);
    QueueKept(s.heap, h, id, s.queue, s.servers);
    WorkersKept(s.heap, h, id, s.workers, s.workers);
    AddPlaces(s, t, id);
    Made(s, t, id);
  }

  lemma {:induction false} ArriveKeeps(g: Config, s: State, f: File)
    requires MemoryOk(g, s)
    ensures MemoryOk(g, s.(arrived := s.arrived + {f}, files := s.files + {f}))
  {
    hide CopiesOf, InQueues, WithWorkers;
    var t := s.(arrived := s.arrived + {f}, files := s.files + {f});
    HeapSame(g, s, t);
    assert Places(t) == Places(s);
  }

  lemma {:induction false} EmptyOk(g: Config, s: State)
    requires !s.fault && s.heap == map[] && s.queue == [] && s.sched == Idle
    requires forall i :: 0 <= i < |s.servers| ==> s.servers[i] == []
    requires forall w :: 0 <= w < |s.workers| ==> s.workers[w].pc.Waiting?
    ensures MemoryOk(g, s)
  {
    hide CopiesOf;
    EmptyPlaces(s.servers, s.workers);
    assert multiset(s.queue) == multiset{} && InHand(s.sched) == multiset{};
    assert InQueues(s.servers) == multiset{};
    assert Places(s) == multiset(s.heap.Keys);
  }

  lemma {:induction false} NextKeeps(g: Config, s: State, e: Event)
    requires ConfigOk(g) && MemoryOk(g, s)
    ensures MemoryOk(g, Next(g, s, e))
  {
    hide MemoryOk;
    match e
    case Arrive(f) => ArriveKeeps(g, s, f);
    case Add(p, id) => if p !in s.entered && id !in s.heap { AddKeeps(g, s, p, id); }
    case Schedule(keep, server, id) => ScheduleKeeps(g, s, keep, server, id);
    case Work(w, ok, retry, removed) => WorkKeeps(g, s, w, ok, retry, removed);
    case Crash =>
      Parts(g, s);
      EmptyOk(g, AfterCrash(s));
  }

  /** Every run, with any interleaving and any crashes, keeps the memory invariant. */
  lemma {:induction false} RunKeeps(g: Config, s: State, events: seq<Event>)
    requires ConfigOk(g) && MemoryOk(g, s)
    ensures MemoryOk(g, Run(g, s, events))
    decreases |events|
  {
    hide MemoryOk;
    if events != [] {
      NextKeeps(g, s, events[0]);
      RunKeeps(g, Next(g, s, events[0]), events[1..]);
    }
  }

  /** In every run from the start no freed node is used, each live node is in exactly one place, the
      counter of an original is the number of its copies in server queues or with workers, and an
      original about to be freed has none. */
  lemma {:induction false} CountersExact(g: Config, servers: nat, workers: seq<nat>, events: seq<Event>)
    requires ConfigOk(g)
    ensures var s := Run(g, Start(servers, workers), events);
            && !s.fault
            && Places(s) == multiset(s.heap.Keys)
            && (forall o :: LiveOriginal(s, o) ==> s.heap[o].retain == |CopiesOf(s.heap, o)|)
            && (forall c :: Counted(s.heap, c) ==> LiveCopy(s, c))
            && (s.sched.Finishing? || s.sched.Dropping? ==> CopiesOf(s.heap, s.sched.n) == {})
  {
    EmptyOk(g, Start(servers, workers));
    RunKeeps(g, Start(servers, workers), events);
  }
}
