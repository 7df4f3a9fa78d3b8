/**
 * What a turn of the scheduler and a turn of a worker come to. The invariants of the protocol hold of
 * every step; here whole turns are followed from any reachable state to their end: a node whose
 * source is gone leaves the system, any other goes on, and an upload ends in one of three ways.
 */
module DispatchTurns {
  import opened Dispatch
  import opened DispatchMemory
  import opened DispatchShared

  // ----- reachable states -----

  ghost predicate Reachable(g: Config, s: State)
    requires ConfigOk(g)
  {
    exists servers: nat, workers: seq<nat> :: Reaches(g, Start(servers, workers), s)
  }

  lemma {:induction false} ReachableOk(g: Config, s: State)
    requires ConfigOk(g) && Reachable(g, s)
    ensures MemoryOk(g, s)
  {
    hide MemoryOk, Run;
    var servers: nat, workers: seq<nat> :| Reaches(g, Start(servers, workers), s);
    var events :| Run(g, Start(servers, workers), events) == s;
    StartOk(g, servers, workers);
    RunKeeps(g, Start(servers, workers), events);
  }

  lemma {:induction false} StartOk(g: Config, servers: nat, workers: seq<nat>)
    requires ConfigOk(g)
    ensures MemoryOk(g, Start(servers, workers))
  {
    hide MemoryOk;
    EmptyOk(g, Start(servers, workers));
  }

  /** Steps of the scheduler and nothing else, with any answers of the environment. */
  predicate AllSchedule(turn: seq<Event>) {
    forall i :: 0 <= i < |turn| ==> turn[i].Schedule?
  }

  /** The first step of a turn. */
  lemma {:induction false} FirstOf(g: Config, s: State, turn: seq<Event>, t: State)
    requires ConfigOk(g) && turn != [] && Next(g, s, turn[0]) == t
    ensures Run(g, s, turn) == Run(g, t, turn[1..])
  {
    hide Next;
  }

  // ----- the scheduler takes a node -----

  /** The node in hand is an original whose source is gone and of which no copy is about. */
  predicate Gone(g: Config, s: State, n: nat) {
    LiveOriginal(s, n) && s.heap[n].retain == 0 && SourceOf(g, s.heap[n].path) !in s.files
  }

  /** The node that the scheduler is about to drop, step steps after it was taken. */
  predicate Leaving(g: Config, s: State, n: nat, step: nat) {
    && Gone(g, s, n)
    && (if step == 0 then s.sched == Popped(n) else if step == 1 then s.sched == Fresh(n) else s.sched == Dropping(n))
  }

  /** What may happen meanwhile: anything but a step of the scheduler, a crash or the arrival of the
      source. */
  predicate Meanwhile(g: Config, path: nat, e: Event) {
    match e
    case Arrive(f) => f != SourceOf(g, path)
    case Add(_, _) => true
    case Work(_, _, _, _) => true
    case _ => false
  }

  /** A counted copy belongs to another node. */
  lemma {:induction false} OfAnother(g: Config, s: State, n: nat, w: nat)
    requires MemoryOk(g, s) && Gone(g, s, n) && w < |s.workers| && !s.workers[w].pc.Waiting?
    ensures s.workers[w].pc.c != n
    ensures Counted(s.heap, s.workers[w].pc.c) ==> s.heap[s.workers[w].pc.c].orig != n
  {
    hide Places, EachOnce;
    var c := s.workers[w].pc.c;
    assert WorkerOk(s.heap, s.workers[w].pc);
    if Counted(s.heap, c) {
      assert c in CopiesOf(s.heap, s.heap[c].orig);
    }
  }

  lemma {:induction false} WorkLeaves(g: Config, s: State, w: nat, ok: bool, retry: bool, removed: bool, n: nat)
    requires ConfigOk(g) && MemoryOk(g, s) && Gone(g, s, n)
    ensures var t := WorkStep(g, s, w, ok, retry, removed);
            Gone(g, t, n) && t.heap[n].path == s.heap[n].path && t.sched == s.sched
  {
    hide MemoryOk, SourceOf;
    if w < |s.workers| && !s.workers[w].pc.Waiting? {
      OfAnother(g, s, n, w);
      Counting(g, s, w);
      match s.workers[w].pc
      case Holding(_) =>
      case Calling(_) =>
      case Removing(_) =>
      case Succeeded(_) =>
      case Releasing(_) =>
      case Released(_) =>
    }
  }

  lemma {:induction false} Counting(g: Config, s: State, w: nat)
    requires MemoryOk(g, s) && w < |s.workers| && !s.workers[w].pc.Waiting?
    ensures WorkerOk(s.heap, s.workers[w].pc)
  {
    hide Places, EachOnce;
  }

  lemma {:induction false} OthersKeep(g: Config, s: State, e: Event, n: nat, step: nat)
    requires ConfigOk(g) && MemoryOk(g, s) && Leaving(g, s, n, step) && Meanwhile(g, s.heap[n].path, e)
    ensures var t := Next(g, s, e); Leaving(g, t, n, step) && t.heap[n].path == s.heap[n].path
  {
    hide MemoryOk, WorkStep;
    match e
    case Work(w, ok, retry, removed) => WorkLeaves(g, s, w, ok, retry, removed, n);
    case _ =>
  }

  function Schedules(events: seq<Event>): nat {
    if events == [] then 0 else (if events[0].Schedule? then 1 else 0) + Schedules(events[1..])
  }

  /** Anything may happen between the steps, but nothing after the last. */
  predicate Interleaved(g: Config, path: nat, events: seq<Event>) {
    && events != [] && events[|events| - 1].Schedule?
    && forall i :: 0 <= i < |events| ==> events[i].Schedule? || Meanwhile(g, path, events[i])
  }

  /** The last step of a node. */
  lemma {:induction false} Dropped(g: Config, s: State, n: nat)
    requires ConfigOk(g) && MemoryOk(g, s) && s.sched == Dropping(n)
    ensures n in s.heap && n !in s.queue && n !in InQueues(s.servers)
    ensures forall w :: 0 <= w < |s.workers| && !s.workers[w].pc.Waiting? ==> s.workers[w].pc.c != n
  {
    Parts(g, s);
    OnlyInHand(s, n);
  }

  /** n is nowhere. */
  ghost predicate Nowhere(s: State, n: nat) {
    && n !in s.heap && n !in s.queue && n !in InQueues(s.servers)
    && forall w :: 0 <= w < |s.workers| && !s.workers[w].pc.Waiting? ==> s.workers[w].pc.c != n
  }

  lemma {:induction false} StepsLeft(g: Config, s: State, n: nat, step: nat, events: seq<Event>)
    requires ConfigOk(g) && MemoryOk(g, s) && step <= 2 && Leaving(g, s, n, step)
    requires Interleaved(g, s.heap[n].path, events) && Schedules(events) == 3 - step
    ensures var t := Run(g, s, events); t.sched == Idle && Nowhere(t, n)
    decreases |events|
  {
    hide MemoryOk, Places, InQueues;
    var e, t := events[0], Next(g, s, events[0]);
    NextKeeps(g, s, e);
    if !e.Schedule? {
      OthersKeep(g, s, e, n, step);
      StepsLeft(g, t, n, step, events[1..]);
    } else if step < 2 {
      assert events[1..] != [];
      StepsLeft(g, t, n, step + 1, events[1..]);
    } else {
      NoneLeft(events[1..]);
      Dropped(g, s, n);
      assert events[1..] == [];
    }
  }

  lemma {:induction false} NoneLeft(events: seq<Event>)
    requires Schedules(events) == 0
    ensures forall i :: 0 <= i < |events| ==> !events[i].Schedule?
  {
    if events != [] {
      NoneLeft(events[1..]);
      assert forall i :: 1 <= i < |events| ==> events[i] == events[1..][i - 1];
    }
  }

  /** A node without copies whose source is gone leaves the system with the third step of the
      scheduler, whatever else happens between, if not a crash. */
  lemma {:induction false} GoneLeaves(g: Config, s: State, n: nat, events: seq<Event>)
    requires ConfigOk(g) && Reachable(g, s) && s.sched == Popped(n) && Gone(g, s, n)
    requires Interleaved(g, s.heap[n].path, events) && Schedules(events) == 3
    ensures var t := Run(g, s, events); t.sched == Idle && Nowhere(t, n)
  {
    hide MemoryOk, Reachable, Run;
    ReachableOk(g, s);
    StepsLeft(g, s, n, 0, events);
  }

  // ----- nodes that go on -----

  /** A node whose source is there is kept, with its path, and gets past the check. */
  lemma {:induction false} PresentStays(g: Config, s: State, n: nat, turn: seq<Event>)
    requires ConfigOk(g) && s.sched == Popped(n) && LiveOriginal(s, n) && s.heap[n].retain == 0
    requires SourceOf(g, s.heap[n].path) in s.files && |turn| == 2 && AllSchedule(turn)
    ensures Run(g, s, turn) == s.(sched := Existing(n))
  {
    FirstOf(g, s, turn, s.(sched := Fresh(n)));
    FirstOf(g, s.(sched := Fresh(n)), turn[1..], s.(sched := Existing(n)));
  }

  /** A node with copies about goes back to the end of the queue at once. */
  lemma {:induction false} BusyReturns(g: Config, s: State, n: nat, turn: seq<Event>)
    requires ConfigOk(g) && s.sched == Popped(n) && LiveOriginal(s, n) && s.heap[n].retain != 0
    requires |turn| == 2 && AllSchedule(turn)
    ensures Run(g, s, turn) == s.(sched := Idle, queue := s.queue + [n])
  {
    FirstOf(g, s, turn, s.(sched := Returning(n)));
    FirstOf(g, s.(sched := Returning(n)), turn[1..], s.(sched := Idle, queue := s.queue + [n]));
  }

  function FlagsOf(g: Config, path: nat, i: nat): set<File>
    requires i <= |g.names|
  {
    set j | 0 <= j < i :: Flag(path, g.names[j])
  }

  lemma {:induction false} FlagsCreated(g: Config, s: State, n: nat, i: nat, turn: seq<Event>)
    requires ConfigOk(g) && LiveOriginal(s, n) && i <= |g.names| && s.sched == Creating(n, i)
    requires |turn| == |g.names| - i + 1 && AllSchedule(turn) && FlagsOf(g, s.heap[n].path, i) <= s.files
    ensures var path := s.heap[n].path;
            Run(g, s, turn) == s.(files := s.files + FlagsOf(g, path, |g.names|) + {Marker(path)}, sched := Looping(n, 0))
    decreases |turn|
  {
    var path, t := s.heap[n].path, Next(g, s, turn[0]);
    FirstOf(g, s, turn, t);
    if i < |g.names| {
      assert FlagsOf(g, path, i + 1) == FlagsOf(g, path, i) + {Flag(path, g.names[i])};
      FlagsCreated(g, t, n, i + 1, turn[1..]);
      assert Flag(path, g.names[i]) in FlagsOf(g, path, |g.names|);
      assert t.files + FlagsOf(g, path, |g.names|) == s.files + FlagsOf(g, path, |g.names|);
    } else {
      assert s.files + FlagsOf(g, path, |g.names|) == s.files;
    }
  }

  /** The first time, a flag for every group is written, then the mark. */
  lemma {:induction false} FirstTime(g: Config, s: State, n: nat, turn: seq<Event>)
    requires ConfigOk(g) && s.sched == Existing(n) && LiveOriginal(s, n)
    requires Marker(s.heap[n].path) !in s.files && |turn| == |g.names| + 2 && AllSchedule(turn)
    ensures var path := s.heap[n].path;
            && Run(g, s, turn) == s.(files := s.files + FlagsOf(g, path, |g.names|) + {Marker(path)}, sched := Looping(n, 0))
            && forall m :: 0 <= m < |turn| ==> Marker(path) !in Run(g, s, turn[..m]).files
  {
    hide Next;
    var t := s.(sched := Creating(n, 0));
    assert Next(g, s, turn[0]) == t by { CreationStarts(g, s, n, turn[0]); }
    FirstOf(g, s, turn, t);
    assert FlagsOf(g, s.heap[n].path, 0) == {};
    FlagsCreated(g, t, n, 0, turn[1..]);
    forall m | 0 <= m < |turn|
      ensures Marker(s.heap[n].path) !in Run(g, s, turn[..m]).files
    {
      if m > 0 {
        FirstOf(g, s, turn[..m], t);
        assert turn[..m][1..] == turn[1..][..m - 1];
        NotYet(g, t, n, 0, turn[1..][..m - 1]);
      }
    }
  }

  lemma {:induction false} CreationStarts(g: Config, s: State, n: nat, e: Event)
    requires ConfigOk(g) && s.sched == Existing(n) && LiveOriginal(s, n) && Marker(s.heap[n].path) !in s.files && e.Schedule?
    ensures Next(g, s, e) == s.(sched := Creating(n, 0))
  {
  }

  lemma {:induction false} NotYet(g: Config, s: State, n: nat, i: nat, turn: seq<Event>)
    requires ConfigOk(g) && LiveOriginal(s, n) && i + |turn| <= |g.names| && s.sched == Creating(n, i) && AllSchedule(turn)
    requires Marker(s.heap[n].path) !in s.files
    ensures Marker(s.heap[n].path) !in Run(g, s, turn).files
    decreases |turn|
  {
    if turn != [] {
      var t := Next(g, s, turn[0]);
      FirstOf(g, s, turn, t);
      NotYet(g, t, n, i + 1, turn[1..]);
    }
  }

  lemma {:induction false} AllChecked(g: Config, s: State, n: nat, i: nat, turn: seq<Event>)
    requires ConfigOk(g) && LiveOriginal(s, n) && i <= |g.names| && s.sched == CheckingAll(n, i)
    requires forall j :: i <= j < |g.names| ==> Flag(s.heap[n].path, g.names[j]) !in s.files
    requires |turn| == |g.names| - i + 1 && AllSchedule(turn)
    ensures Run(g, s, turn) == s.(sched := Finishing(n, 0))
    decreases |turn|
  {
    var t := Next(g, s, turn[0]);
    FirstOf(g, s, turn, t);
    if i < |g.names| {
      AllChecked(g, t, n, i + 1, turn[1..]);
    }
  }

  /** One flag left is enough for the node to go round again; nothing is touched. */
  lemma {:induction false} StillFlagged(g: Config, s: State, n: nat, i: nat, j: nat, turn: seq<Event>)
    requires ConfigOk(g) && LiveOriginal(s, n) && i <= j < |g.names| && s.sched == CheckingAll(n, i)
    requires Flag(s.heap[n].path, g.names[j]) in s.files
    requires forall k :: i <= k < j ==> Flag(s.heap[n].path, g.names[k]) !in s.files
    requires |turn| == j - i + 1 && AllSchedule(turn)
    ensures Run(g, s, turn) == s.(sched := Looping(n, 0))
    decreases |turn|
  {
    var t := Next(g, s, turn[0]);
    FirstOf(g, s, turn, t);
    if i < j {
      StillFlagged(g, t, n, i + 1, j, turn[1..]);
    }
  }

  /** When the mark is there and no flag is left the file is finished: watched file and mark are
      deleted, the source as the configured action says, and the node is freed. */
  lemma {:induction false} Finishes(g: Config, s: State, n: nat, keep: bool, check: seq<Event>, finish: seq<Event>)
    requires ConfigOk(g) && Reachable(g, s) && s.sched == Existing(n) && LiveOriginal(s, n)
    requires Marker(s.heap[n].path) in s.files
    requires forall j :: 0 <= j < |g.names| ==> Flag(s.heap[n].path, g.names[j]) !in s.files
    requires |check| == |g.names| + 2 && AllSchedule(check)
    requires |finish| == 4 && AllSchedule(finish) && finish[0].keep == keep
    ensures var path, t := s.heap[n].path, Run(g, s, check + finish);
            && t == s.(heap := s.heap - {n}, sched := Idle,
                       files := s.files - {Watched(path), Marker(path)} - (if keep then {} else {SourceOf(g, path)}))
            && Nowhere(t, n)
  {
    hide Reachable, MemoryOk;
    ReachableOk(g, s);
    RunKeeps(g, s, check);
    var t := s.(sched := CheckingAll(n, 0));
    FirstOf(g, s, check, t);
    AllChecked(g, t, n, 0, check[1..]);
    RunJoin(g, s, check, finish);
    FourSteps(g, s.(sched := Finishing(n, 0)), n, keep, finish);
    InHandOnly(g, s.(sched := Finishing(n, 0)));
  }

  lemma {:induction false} InHandOnly(g: Config, s: State)
    requires MemoryOk(g, s) && s.sched.Finishing?
    ensures var n := s.sched.n; n !in s.queue && n !in InQueues(s.servers)
    ensures forall w :: 0 <= w < |s.workers| && !s.workers[w].pc.Waiting? ==> s.workers[w].pc.c != s.sched.n
  {
    Parts(g, s);
    OnlyInHand(s, s.sched.n);
  }

  lemma {:induction false} FourSteps(g: Config, s: State, n: nat, keep: bool, turn: seq<Event>)
    requires ConfigOk(g) && LiveOriginal(s, n) && s.sched == Finishing(n, 0)
    requires |turn| == 4 && AllSchedule(turn) && turn[0].keep == keep
    ensures var path := s.heap[n].path;
            Run(g, s, turn) == s.(heap := s.heap - {n}, sched := Idle,
                                  files := s.files - {Watched(path), Marker(path)} - (if keep then {} else {SourceOf(g, path)}))
  {
    var path := s.heap[n].path;
    var f := if keep then s.files else s.files - {SourceOf(g, path)};
    var a := s.(files := f, sched := Finishing(n, 1));
    var b := s.(files := f - {Watched(path)}, sched := Finishing(n, 2));
    var c := s.(files := f - {Watched(path)} - {Marker(path)}, sched := Finishing(n, 3));
    FirstOf(g, s, turn, a);
    FirstOf(g, a, turn[1..], b);
    FirstOf(g, b, turn[2..], c);
    FirstOf(g, c, turn[3..], c.(heap := s.heap - {n}, sched := Idle));
    assert c.files == s.files - {Watched(path), Marker(path)} - (if keep then {} else {SourceOf(g, path)});
  }

  // ----- handing out -----

  /** Is the server that the round robin names one of the group? */
  predicate Usable(g: Config, s: State, i: nat, server: nat)
    requires i < |g.names| == |g.pools|
  {
    server in g.pools[i] && server < |s.servers|
  }

  /** A group whose flag is gone is passed over; one with a flag but no server available too; any
      other gets one counted copy, which goes to the end of the queue of the server chosen. */
  lemma {:induction false} HandsOut(g: Config, s: State, n: nat, i: nat, turn: seq<Event>)
    requires ConfigOk(g) && s.sched == Looping(n, i) && LiveOriginal(s, n) && i < |g.names|
    requires |turn| == 3 && AllSchedule(turn) && turn[1].id !in s.heap
    ensures var sv, id, flagged := turn[1].server, turn[1].id, Flag(s.heap[n].path, g.names[i]) in s.files;
            if !flagged then Run(g, s, turn[..1]) == s.(sched := Looping(n, i + 1))
            else if !Usable(g, s, i, sv) then Run(g, s, turn[..2]) == s.(sched := Looping(n, i + 1))
            else
              var t := Run(g, s, turn);
              && t.heap.Keys == s.heap.Keys + {id} && (forall x :: x in s.heap && x != n ==> t.heap[x] == s.heap[x])
              && t.heap[id] == Copy(n, s.heap[n].path, i, g.names[i], true)
              && t.heap[n] == Original(s.heap[n].path, s.heap[n].retain + 1)
              && t == s.(sched := Looping(n, i + 1), heap := t.heap, servers := s.servers[sv := s.servers[sv] + [id]])
  {
    var sv, id := turn[1].server, turn[1].id;
    if Flag(s.heap[n].path, g.names[i]) !in s.files {
      FirstOf(g, s, turn[..1], s.(sched := Looping(n, i + 1)));
    } else {
      var a := s.(sched := Assigning(n, i));
      FirstOf(g, s, turn[..2], a);
      FirstOf(g, s, turn, a);
      if !Usable(g, s, i, sv) {
        FirstOf(g, a, turn[..2][1..], s.(sched := Looping(n, i + 1)));
      } else {
        var b := s.(heap := WithCopy(g, s.heap, n, id, i), sched := Pushing(n, i, id, sv));
        FirstOf(g, a, turn[1..], b);
        FirstOf(g, b, turn[2..], b.(servers := s.servers[sv := s.servers[sv] + [id]], sched := Looping(n, i + 1)));
      }
    }
  }

  /** After the last group the node goes to the end of the queue. */
  lemma {:induction false} RoundEnds(g: Config, s: State, n: nat, turn: seq<Event>)
    requires ConfigOk(g) && s.sched == Looping(n, |g.names|) && LiveOriginal(s, n)
    requires |turn| == 2 && AllSchedule(turn)
    ensures Run(g, s, turn) == s.(sched := Idle, queue := s.queue + [n])
  {
    FirstOf(g, s, turn, s.(sched := Returning(n)));
    FirstOf(g, s.(sched := Returning(n)), turn[1..], s.(sched := Idle, queue := s.queue + [n]));
  }

  // ----- a worker -----

  /** Steps of worker w and nothing else. */
  predicate AllWork(w: nat, turn: seq<Event>) {
    forall i :: 0 <= i < |turn| ==> turn[i].Work? && turn[i].w == w
  }

  predicate At(s: State, w: nat, pc: WorkerPc) {
    w < |s.workers| && s.workers[w].server < |s.servers| && s.workers[w].pc == pc
  }

  /** The heap without copy c, whose original counts one less. */
  function Without(h: map<nat, Node>, c: nat): map<nat, Node>
    requires c in h && h[c].Copy? && h[c].orig in h && h[h[c].orig].Original?
  {
    var o := h[h[c].orig];
    h[h[c].orig := Original(o.path, o.retain - 1)] - {c}
  }

  /** A worker takes the first copy of its own server's queue. */
  lemma {:induction false} Takes(g: Config, s: State, w: nat, e: Event)
    requires ConfigOk(g) && At(s, w, Waiting) && e.Work? && e.w == w && s.servers[s.workers[w].server] != []
    ensures var sv := s.workers[w].server;
            Run(g, s, [e]) == SetPc(s, w, Holding(s.servers[sv][0])).(servers := s.servers[sv := s.servers[sv][1..]])
  {
    var sv := s.workers[w].server;
    FirstOf(g, s, [e], SetPc(s, w, Holding(s.servers[sv][0])).(servers := s.servers[sv := s.servers[sv][1..]]));
  }

  /** Giving the count back and freeing the copy. */
  lemma {:induction false} Releases(g: Config, s: State, w: nat, c: nat, turn: seq<Event>)
    requires ConfigOk(g) && At(s, w, Releasing(c)) && LiveCopy(s, c) && |turn| == 2 && AllWork(w, turn)
    ensures Run(g, s, turn) == SetPc(s, w, Waiting).(heap := Without(s.heap, c))
  {
    var a := SetPc(s, w, Released(c)).(heap := Uncounted(s.heap, c));
    FirstOf(g, s, turn, a);
    FirstOf(g, a, turn[1..], SetPc(a, w, Waiting).(heap := a.heap - {c}));
    assert SetPc(a, w, Waiting).workers == SetPc(s, w, Waiting).workers;
    assert a.heap - {c} == Without(s.heap, c);
  }

  /** The server is not available or the source is gone: the copy is freed, the flag stays. */
  lemma {:induction false} Refuses(g: Config, s: State, w: nat, c: nat, turn: seq<Event>)
    requires ConfigOk(g) && At(s, w, Holding(c)) && LiveCopy(s, c) && |turn| == 3 && AllWork(w, turn)
    requires !turn[0].ok || SourceOf(g, s.heap[c].path) !in s.files
    ensures Run(g, s, turn) == SetPc(s, w, Waiting).(heap := Without(s.heap, c))
  {
    var a := SetPc(s, w, Releasing(c));
    FirstOf(g, s, turn, a);
    Releases(g, a, w, c, turn[1..]);
    assert SetPc(a, w, Waiting).workers == SetPc(s, w, Waiting).workers;
  }

  /** The call failed: with retries left the copy goes to the end of the queue it came from, or else
      it is freed. The flag stays either way. */
  lemma {:induction false} Fails(g: Config, s: State, w: nat, c: nat, turn: seq<Event>)
    requires ConfigOk(g) && At(s, w, Calling(c)) && LiveCopy(s, c) && |turn| == 3 && AllWork(w, turn) && !turn[0].ok
    ensures var sv := s.workers[w].server;
            if turn[0].retry then Run(g, s, turn[..1]) == SetPc(s, w, Waiting).(servers := s.servers[sv := s.servers[sv] + [c]])
            else Run(g, s, turn) == SetPc(s, w, Waiting).(heap := Without(s.heap, c))
  {
    var sv := s.workers[w].server;
    if turn[0].retry {
      FirstOf(g, s, turn[..1], SetPc(s, w, Waiting).(servers := s.servers[sv := s.servers[sv] + [c]]));
    } else {
      var a := SetPc(s, w, Releasing(c));
      FirstOf(g, s, turn, a);
      Releases(g, a, w, c, turn[1..]);
      assert SetPc(a, w, Waiting).workers == SetPc(s, w, Waiting).workers;
    }
  }

  /** What an upload leaves on disk. */
  function FilesAfter(g: Config, s: State, c: nat, removed: bool): set<File>
    requires c in s.heap && s.heap[c].Copy?
  {
    s.files - (if removed then {SourceOf(g, s.heap[c].path)} else {}) - {Flag(s.heap[c].path, s.heap[c].sg)}
  }

  /** The call returned OK: it is recorded, the source is removed if that works, the flag of the
      group is deleted and the copy freed. */
  lemma {:induction false} Succeeds(g: Config, s: State, w: nat, c: nat, turn: seq<Event>)
    requires ConfigOk(g) && At(s, w, Calling(c)) && LiveCopy(s, c) && |turn| == 5 && AllWork(w, turn) && turn[0].ok
    ensures Run(g, s, turn) == SetPc(s, w, Waiting).(heap := Without(s.heap, c), files := FilesAfter(g, s, c, turn[1].removed),
                                                     done := s.done + {(s.heap[c].path, s.heap[c].group)})
  {
    var path, sg := s.heap[c].path, s.heap[c].sg;
    var a := SetPc(s, w, Removing(c)).(done := s.done + {(path, s.heap[c].group)});
    var f := if turn[1].removed then s.files - {SourceOf(g, path)} else s.files;
    var b := SetPc(a, w, Succeeded(c)).(files := f);
    var d := SetPc(b, w, Releasing(c)).(files := f - {Flag(path, sg)});
    FirstOf(g, s, turn, a);
    FirstOf(g, a, turn[1..], b);
    FirstOf(g, b, turn[2..], d);
    Releases(g, d, w, c, turn[3..]);
    assert SetPc(d, w, Waiting).workers == SetPc(s, w, Waiting).workers;
    assert d.files == FilesAfter(g, s, c, turn[1].removed);
  }

  // ----- the ordinary end, and draining -----

  /** The queue, taken up from its head, consists of nodes whose source is gone. */
  predicate AllGone(g: Config, s: State, queue: seq<nat>) {
    forall i :: 0 <= i < |queue| ==> Gone(g, s, queue[i])
  }

  lemma {:induction false} HeadLeaves(g: Config, s: State, turn: seq<Event>)
    requires ConfigOk(g) && MemoryOk(g, s) && s.sched == Idle && s.queue != [] && Gone(g, s, s.queue[0])
    requires |turn| == 4 && AllSchedule(turn)
    ensures s.queue[0] !in s.queue[1..]
    ensures Run(g, s, turn) == s.(heap := s.heap - {s.queue[0]}, queue := s.queue[1..])
  {
    hide MemoryOk, SourceOf;
    var n := s.queue[0];
    var a := s.(sched := Popped(n), queue := s.queue[1..]);
    FirstOf(g, s, turn, a);
    FirstOf(g, a, turn[1..], a.(sched := Fresh(n)));
    FirstOf(g, a.(sched := Fresh(n)), turn[2..], a.(sched := Dropping(n)));
    FirstOf(g, a.(sched := Dropping(n)), turn[3..], a.(heap := s.heap - {n}, sched := Idle));
    NextKeeps(g, s, turn[0]);
    Parts(g, a);
    OnlyInHand(a, n);
  }

  /** A queue of such nodes is emptied in four steps each; all of them are freed. */
  lemma {:induction false} Drains(g: Config, s: State, turn: seq<Event>)
    requires ConfigOk(g) && MemoryOk(g, s) && s.sched == Idle && AllGone(g, s, s.queue)
    requires |turn| == 4 * |s.queue| && AllSchedule(turn)
    ensures Run(g, s, turn) == s.(heap := s.heap - (set n | n in s.queue), queue := [])
    decreases |s.queue|
  {
    hide MemoryOk, Next;
    if s.queue == [] {
      assert s.heap - (set n | n in s.queue) == s.heap;
    } else {
      var n, first, rest := s.queue[0], turn[..4], turn[4..];
      assert turn == first + rest;
      HeadLeaves(g, s, first);
      RunJoin(g, s, first, rest);
      var t := Run(g, s, first);
      RunKeeps(g, s, first);
      Drains(g, t, rest);
      assert s.heap - (set m | m in s.queue) == t.heap - (set m | m in t.queue);
    }
  }

  /** Every reachable queue of nodes whose sources are gone drains. */
  lemma {:induction false} GoneDrain(g: Config, s: State, turn: seq<Event>)
    requires ConfigOk(g) && Reachable(g, s) && s.sched == Idle && AllGone(g, s, s.queue)
    requires |turn| == 4 * |s.queue| && AllSchedule(turn)
    ensures Run(g, s, turn) == s.(heap := s.heap - (set n | n in s.queue), queue := [])
  {
    hide Reachable, MemoryOk, Run;
    ReachableOk(g, s);
    Drains(g, s, turn);
  }

  /** The ordinary end of an upload: the call for the only copy succeeds and removes the source; when
      the scheduler takes the node again it frees it. Mark and watched file stay behind. */
  lemma {:induction false} OrdinaryEnd(g: Config, s: State, w: nat, c: nat, n: nat, work: seq<Event>, turn: seq<Event>)
    requires ConfigOk(g) && Reachable(g, s) && s.sched == Idle && s.queue == [n] && At(s, w, Calling(c))
    requires LiveCopy(s, c) && s.heap[c].orig == n && s.heap[n].retain == 1
    requires |work| == 5 && AllWork(w, work) && work[0].ok && work[1].removed
    requires |turn| == 4 && AllSchedule(turn)
    ensures var t := Run(g, s, work + turn);
            && t.heap == s.heap - {c, n} && t.queue == [] && t.sched == Idle
            && t.files == FilesAfter(g, s, c, true)
  {
    hide Reachable, MemoryOk, Next, Run;
    ReachableOk(g, s);
    PathOfCopy(g, s, w);
    Succeeds(g, s, w, c, work);
    RunJoin(g, s, work, turn);
    RunKeeps(g, s, work);
    HeadLeaves(g, Run(g, s, work), turn);
    assert Without(s.heap, c) - {n} == s.heap - {c, n};
  }

  /** A copy with a worker carries the path of its original. */
  lemma {:induction false} PathOfCopy(g: Config, s: State, w: nat)
    requires MemoryOk(g, s) && w < |s.workers| && s.workers[w].pc.Calling?
    ensures var c := s.workers[w].pc.c; Counted(s.heap, c) && LiveCopy(s, c) && s.heap[s.heap[c].orig].path == s.heap[c].path
  {
    hide Places, EachOnce;
    assert WorkerOk(s.heap, s.workers[w].pc);
  }
}
