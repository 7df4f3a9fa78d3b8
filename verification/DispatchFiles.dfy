/**
 * Completion safety of the dispatch protocol: a file is finished only after a call for every group
 * returned OK, across crashes, provided that no two groups carry the same name in their flag files.
 */
module DispatchFiles {
  import opened Dispatch
  import opened DispatchMemory

  ghost predicate Distinct(g: Config) {
    forall i, j :: 0 <= i < j < |g.names| ==> g.names[i] != g.names[j]
  }

  predicate AllDone(g: Config, s: State, p: nat) {
    forall i :: 0 <= i < |g.names| ==> (p, i) in s.done
  }

  predicate FlagOrDone(g: Config, s: State, p: nat, i: nat)
    requires i < |g.names|
  {
    Flag(p, g.names[i]) in s.files || (p, i) in s.done
  }

  /** Under the mark, a flag is missing only where a call returned OK. */
  ghost predicate MarkersTrue(g: Config, s: State) {
    forall p, i :: Marker(p) in s.files && 0 <= i < |g.names| ==> FlagOrDone(g, s, p, i)
  }

  /** What the scheduler has found out about the files of its node. */
  predicate SchedKnows(g: Config, s: State)
    requires s.sched.Idle? || LiveOriginal(s, s.sched.n)
  {
    match s.sched
    case Creating(n, i) => forall j :: 0 <= j < i && j < |g.names| ==> Flag(s.heap[n].path, g.names[j]) in s.files
    case CheckingAll(n, i) =>
      && Marker(s.heap[n].path) in s.files
      && forall j :: 0 <= j < i && j < |g.names| ==> Flag(s.heap[n].path, g.names[j]) !in s.files
    case Finishing(n, _) => AllDone(g, s, s.heap[n].path)
    case _ => true
  }

  /** The call for the copy returned OK. */
  predicate Called(pc: WorkerPc) {
    pc.Removing? || pc.Succeeded?
  }

  predicate CallDone(s: State, c: nat) {
    c in s.heap && s.heap[c].Copy? && (s.heap[c].path, s.heap[c].group) in s.done
  }

  predicate WorkersTrue(s: State) {
    forall w :: 0 <= w < |s.workers| && Called(s.workers[w].pc) ==> CallDone(s, s.workers[w].pc.c)
  }

  ghost predicate FilesOk(g: Config, s: State)
    requires s.sched.Idle? || LiveOriginal(s, s.sched.n)
  {
    MarkersTrue(g, s) && SchedKnows(g, s) && WorkersTrue(s)
  }

  ghost predicate AllOk(g: Config, s: State) {
    MemoryOk(g, s) && FilesOk(g, s)
  }

  lemma {:induction false} SchedLive(g: Config, s: State)
    requires MemoryOk(g, s)
    ensures EachOnce(s) && (s.sched.Idle? || LiveOriginal(s, s.sched.n)) && (s.sched.Pushing? ==> s.sched.c in s.heap)
    ensures forall w :: 0 <= w < |s.workers| ==> WorkerOk(s.heap, s.workers[w].pc)
  {
    hide Places, InQueues, WithWorkers, CopiesOf;
  }

  /** While the flags of a path are written no worker is about to delete one of them. */
  lemma {:induction false} NobodyDeletes(g: Config, s: State, w: nat)
    requires MemoryOk(g, s) && Quiet(s.sched) && w < |s.workers| && Called(s.workers[w].pc)
    ensures LiveCopy(s, s.workers[w].pc.c) && s.heap[s.workers[w].pc.c].path != s.heap[s.sched.n].path
  {
    hide InQueues, WithWorkers, Places, CountersRight;
    var c := s.workers[w].pc.c;
    assert WorkerOk(s.heap, s.workers[w].pc);
    assert c in CopiesOf(s.heap, s.heap[c].orig);
  }

  lemma {:induction false} ScheduleMarkers(g: Config, s: State, keep: bool, server: nat, id: nat)
    requires ConfigOk(g) && MarkersTrue(g, s) && (s.sched.Idle? || LiveOriginal(s, s.sched.n)) && SchedKnows(g, s)
    ensures MarkersTrue(g, ScheduleStep(g, s, keep, server, id))
  {
    var t := ScheduleStep(g, s, keep, server, id);
    assert t.done == s.done;
    if s.sched.Creating? && s.sched.i >= |g.names| {
      assert forall j :: 0 <= j < |g.names| ==> FlagOrDone(g, t, s.heap[s.sched.n].path, j);
    }
    forall p, i | Marker(p) in t.files && 0 <= i < |g.names|
      ensures FlagOrDone(g, t, p, i)
    {
      assert Marker(p) in s.files ==> FlagOrDone(g, s, p, i);
    }
  }

  lemma {:induction false} CopiesStay(g: Config, s: State, keep: bool, server: nat, id: nat, c: nat)
    requires ConfigOk(g) && c in s.heap && s.heap[c].Copy?
    ensures var t := ScheduleStep(g, s, keep, server, id);
            c in t.heap && t.heap[c] == s.heap[c]
  {
  }

  lemma {:induction false} WorkersStay(g: Config, s: State, keep: bool, server: nat, id: nat)
    requires ConfigOk(g)
    ensures var t := ScheduleStep(g, s, keep, server, id); t.workers == s.workers && t.done == s.done
  {
    hide WithCopy, SourceOf, LiveOriginal;
  }

  lemma {:induction false} ScheduleWorkers(g: Config, s: State, keep: bool, server: nat, id: nat)
    requires ConfigOk(g) && WorkersTrue(s)
    ensures WorkersTrue(ScheduleStep(g, s, keep, server, id))
  {
    hide ScheduleStep;
    var t := ScheduleStep(g, s, keep, server, id);
    WorkersStay(g, s, keep, server, id);
    forall v | 0 <= v < |t.workers| && Called(t.workers[v].pc)
      ensures CallDone(t, t.workers[v].pc.c)
    {
      CopiesStay(g, s, keep, server, id, s.workers[v].pc.c);
    }
  }

  lemma {:induction false} ScheduleKnows(g: Config, s: State, keep: bool, server: nat, id: nat)
    requires ConfigOk(g) && MarkersTrue(g, s) && (s.sched.Idle? || LiveOriginal(s, s.sched.n)) && SchedKnows(g, s)
    requires !s.sched.Pushing? || s.sched.c in s.heap
    ensures var t := ScheduleStep(g, s, keep, server, id);
            (t.sched.Idle? || LiveOriginal(t, t.sched.n)) ==> SchedKnows(g, t)
  {
    var t := ScheduleStep(g, s, keep, server, id);
    if s.sched.CheckingAll? && t.sched.Finishing? {
      var p := s.heap[s.sched.n].path;
      forall j | 0 <= j < |g.names|
        ensures (p, j) in t.done
      {
        assert FlagOrDone(g, s, p, j);
      }
    }
  }

  lemma {:induction false} ScheduleFiles(g: Config, s: State, keep: bool, server: nat, id: nat)
    requires ConfigOk(g) && AllOk(g, s) && MemoryOk(g, ScheduleStep(g, s, keep, server, id))
    ensures FilesOk(g, ScheduleStep(g, s, keep, server, id))
  {
    hide MemoryOk, MarkersTrue, SchedKnows, WorkersTrue, ScheduleStep;
    var t := ScheduleStep(g, s, keep, server, id);
    SchedLive(g, s);
    SchedLive(g, t);
    ScheduleMarkers(g, s, keep, server, id);
    ScheduleWorkers(g, s, keep, server, id);
    ScheduleKnows(g, s, keep, server, id);
  }

  // ----- a worker deletes a flag only after its call returned OK -----

  lemma {:induction false} FlagGone(g: Config, s: State, p: nat, sg: nat, i: nat)
    requires Distinct(g) && MarkersTrue(g, s) && i < |g.names| && sg == g.names[i] && (p, i) in s.done
    ensures MarkersTrue(g, s.(files := s.files - {Flag(p, sg)}))
  {
    var t := s.(files := s.files - {Flag(p, sg)});
    forall q, j | Marker(q) in t.files && 0 <= j < |g.names|
      ensures FlagOrDone(g, t, q, j)
    {
      assert FlagOrDone(g, s, q, j);
    }
  }

  /** The same flags and marks. */
  ghost predicate SameMarks(a: set<File>, b: set<File>) {
    forall f: File :: f.Flag? || f.Marker? ==> (f in a <==> f in b)
  }

  /** Only these fields matter, and only the path of the scheduler's node. */
  lemma {:induction false} FilesKept(g: Config, s: State, t: State)
    requires (s.sched.Idle? || LiveOriginal(s, s.sched.n)) && FilesOk(g, s) && t.sched == s.sched && SameMarks(s.files, t.files)
    requires s.done <= t.done && (t.sched.Idle? || LiveOriginal(t, t.sched.n))
    requires !s.sched.Idle? ==> t.heap[s.sched.n].path == s.heap[s.sched.n].path
    requires WorkersTrue(t)
    ensures FilesOk(g, t)
  {
    forall p, i | Marker(p) in t.files && 0 <= i < |g.names|
      ensures FlagOrDone(g, t, p, i)
    {
      assert FlagOrDone(g, s, p, i);
    }
  }

  lemma {:induction false} DeleteFiles(g: Config, s: State, w: nat)
    requires Distinct(g) && AllOk(g, s) && w < |s.workers| && s.workers[w].pc.Succeeded?
    ensures LiveCopy(s, s.workers[w].pc.c)
    ensures var c := s.workers[w].pc.c;
            FilesOk(g, SetPc(s, w, Releasing(c)).(files := s.files - {Flag(s.heap[c].path, s.heap[c].sg)}))
  {
    hide Places, InQueues, WithWorkers, CountersRight, CopiesOf;
    var c := s.workers[w].pc.c;
    assert WorkerOk(s.heap, s.workers[w].pc) && LiveCopy(s, c);
    var node := s.heap[c];
    assert node.group < |g.names| && node.sg == g.names[node.group];
    FlagGone(g, s, node.path, node.sg, node.group);
    var t := SetPc(s, w, Releasing(c)).(files := s.files - {Flag(s.heap[c].path, s.heap[c].sg)});
    assert MarkersTrue(g, t) by {
      forall p, i | Marker(p) in t.files && 0 <= i < |g.names|
        ensures FlagOrDone(g, t, p, i)
      {
        assert FlagOrDone(g, s.(files := t.files), p, i);
      }
    }
    if Quiet(s.sched) { NobodyDeletes(g, s, w); }
    assert SchedKnows(g, t);
    assert WorkersTrue(t);
  }

  predicate SameStrings(a: Node, b: Node) {
    (a.Copy? <==> b.Copy?) && a.path == b.path && (a.Copy? ==> a.group == b.group)
  }

  /** What a worker's step leaves alone. */
  lemma {:induction false} WorkEffect(g: Config, s: State, w: nat, ok: bool, retry: bool, removed: bool)
    ensures var t := WorkStep(g, s, w, ok, retry, removed); t.sched == s.sched && s.done <= t.done
  {
    hide Uncounted, SourceOf, LiveCopy;
    if w < |s.workers| && s.workers[w].server < |s.servers| {
      match s.workers[w].pc {
        case Waiting =>
        case Holding(c) =>
        case Calling(c) =>
        case Removing(c) =>
        case Succeeded(c) =>
        case Releasing(c) =>
        case Released(c) =>
      }
    }
  }

  lemma {:induction false} OthersStay(g: Config, s: State, w: nat, ok: bool, retry: bool, removed: bool)
    ensures var t := WorkStep(g, s, w, ok, retry, removed);
            |t.workers| == |s.workers| && forall v :: 0 <= v < |s.workers| && v != w ==> t.workers[v] == s.workers[v]
  {
    hide Uncounted, SourceOf, LiveCopy;
    if w < |s.workers| && s.workers[w].server < |s.servers| {
      match s.workers[w].pc {
        case Waiting =>
        case Holding(c) =>
        case Calling(c) =>
        case Removing(c) =>
        case Succeeded(c) =>
        case Releasing(c) =>
        case Released(c) =>
      }
    }
  }

  lemma {:induction false} StringsStay(g: Config, s: State, w: nat, ok: bool, retry: bool, removed: bool, x: nat)
    requires x in s.heap && !(w < |s.workers| && s.workers[w].pc == Released(x))
    ensures var t := WorkStep(g, s, w, ok, retry, removed); x in t.heap && SameStrings(s.heap[x], t.heap[x])
  {
    hide SourceOf;
    if w < |s.workers| && s.workers[w].server < |s.servers| {
      match s.workers[w].pc {
        case Waiting =>
        case Holding(c) =>
        case Calling(c) =>
        case Removing(c) =>
        case Succeeded(c) =>
        case Releasing(c) =>
        case Released(c) =>
      }
    }
  }

  lemma {:induction false} MarksStay(g: Config, s: State, w: nat, ok: bool, retry: bool, removed: bool)
    requires w < |s.workers| && !s.workers[w].pc.Succeeded?
    ensures SameMarks(s.files, WorkStep(g, s, w, ok, retry, removed).files)
  {
    hide Uncounted, LiveCopy;
  }

  lemma {:induction false} WorkerTrue(g: Config, s: State, w: nat, ok: bool, retry: bool, removed: bool)
    requires w < |s.workers| && !s.workers[w].pc.Succeeded? && (s.workers[w].pc.Removing? ==> CallDone(s, s.workers[w].pc.c))
    ensures var t := WorkStep(g, s, w, ok, retry, removed); Called(t.workers[w].pc) ==> CallDone(t, t.workers[w].pc.c)
  {
    hide Uncounted, SourceOf;
    if s.workers[w].server < |s.servers| {
      match s.workers[w].pc {
        case Waiting =>
        case Holding(c) =>
        case Calling(c) =>
        case Removing(c) =>
        case Succeeded(c) =>
        case Releasing(c) =>
        case Released(c) =>
      }
    }
  }

  lemma {:induction false} WorkTrue(g: Config, s: State, w: nat, ok: bool, retry: bool, removed: bool)
    requires EachOnce(s) && WorkersTrue(s) && w < |s.workers| && !s.workers[w].pc.Succeeded?
    ensures WorkersTrue(WorkStep(g, s, w, ok, retry, removed))
  {
    hide WorkStep, EachOnce;
    var t := WorkStep(g, s, w, ok, retry, removed);
    OthersStay(g, s, w, ok, retry, removed);
    WorkEffect(g, s, w, ok, retry, removed);
    WorkerTrue(g, s, w, ok, retry, removed);
    if !s.workers[w].pc.Waiting? {
      OnlyWithWorker(s, w);
    }
    forall v | 0 <= v < |t.workers| && Called(t.workers[v].pc)
      ensures CallDone(t, t.workers[v].pc.c)
    {
      if v != w { StringsStay(g, s, w, ok, retry, removed, s.workers[v].pc.c); }
    }
  }

  lemma {:induction false} WorkersTrueAt(s: State, w: nat)
    requires WorkersTrue(s) && w < |s.workers| && Called(s.workers[w].pc)
    ensures CallDone(s, s.workers[w].pc.c)
  {
  }

  lemma {:induction false} QuietWork(g: Config, s: State, w: nat, ok: bool, retry: bool, removed: bool)
    requires AllOk(g, s) && MemoryOk(g, WorkStep(g, s, w, ok, retry, removed)) && w < |s.workers| && !s.workers[w].pc.Succeeded?
    ensures FilesOk(g, WorkStep(g, s, w, ok, retry, removed))
  {
    hide MemoryOk, MarkersTrue, SchedKnows, WorkersTrue, WorkStep;
    var t := WorkStep(g, s, w, ok, retry, removed);
    SchedLive(g, s);
    SchedLive(g, t);
    if Called(s.workers[w].pc) { WorkersTrueAt(s, w); }
    WorkEffect(g, s, w, ok, retry, removed);
    MarksStay(g, s, w, ok, retry, removed);
    WorkerTrue(g, s, w, ok, retry, removed);
    WorkTrue(g, s, w, ok, retry, removed);
    if !s.sched.Idle? {
      assert WorkerOk(s.heap, s.workers[w].pc);
      StringsStay(g, s, w, ok, retry, removed, s.sched.n);
    }
    FilesKept(g, s, t);
  }

  lemma {:induction false} WorkFiles(g: Config, s: State, w: nat, ok: bool, retry: bool, removed: bool)
    requires ConfigOk(g) && Distinct(g) && AllOk(g, s) && MemoryOk(g, WorkStep(g, s, w, ok, retry, removed))
    ensures FilesOk(g, WorkStep(g, s, w, ok, retry, removed))
  {
    hide MemoryOk, MarkersTrue, SchedKnows, WorkersTrue;
    if w >= |s.workers| || s.workers[w].server >= |s.servers| {
    } else if s.workers[w].pc.Succeeded? {
      DeleteFiles(g, s, w);
    } else {
      QuietWork(g, s, w, ok, retry, removed);
    }
  }

  lemma {:induction false} AddFiles(g: Config, s: State, p: nat, id: nat)
    requires AllOk(g, s) && id !in s.heap
    ensures FilesOk(g, s.(heap := s.heap[id := Original(p, 0)], queue := s.queue + [id], entered := s.entered + {p}))
  {
    hide MemoryOk;
    SchedLive(g, s);
    FilesKept(g, s, s.(heap := s.heap[id := Original(p, 0)], queue := s.queue + [id], entered := s.entered + {p}));
  }

  lemma {:induction false} ArriveFiles(g: Config, s: State, f: File)
    requires AllOk(g, s) && !f.Flag? && !f.Marker?
    ensures AllOk(g, s.(arrived := s.arrived + {f}, files := s.files + {f}))
  {
    hide MemoryOk;
    SchedLive(g, s);
    ArriveKeeps(g, s, f);
    FilesKept(g, s, s.(arrived := s.arrived + {f}, files := s.files + {f}));
  }

  lemma {:induction false} CrashFiles(g: Config, s: State)
    requires (s.sched.Idle? || LiveOriginal(s, s.sched.n)) && FilesOk(g, s)
    ensures FilesOk(g, AfterCrash(s))
  {
    var t := AfterCrash(s);
    forall q, i | Marker(q) in t.files && 0 <= i < |g.names|
      ensures FlagOrDone(g, t, q, i)
    {
      assert FlagOrDone(g, s, q, i);
    }
  }

  lemma {:induction false} NextFiles(g: Config, s: State, e: Event)
    requires ConfigOk(g) && Distinct(g) && AllOk(g, s)
    ensures AllOk(g, Next(g, s, e))
  {
    hide MemoryOk, FilesOk, MarkersTrue, SchedKnows, WorkersTrue, ScheduleStep, WorkStep, AfterCrash, Distinct;
    NextKeeps(g, s, e);
    match e
    case Arrive(f) => if f !in s.arrived && !f.Flag? && !f.Marker? { ArriveFiles(g, s, f); }
    case Add(p, id) => if id !in s.heap { AddFiles(g, s, p, id); }
    case Schedule(keep, server, id) => ScheduleFiles(g, s, keep, server, id);
    case Work(w, ok, retry, removed) => WorkFiles(g, s, w, ok, retry, removed);
    case Crash =>
      SchedLive(g, s);
      CrashFiles(g, s);
  }

  lemma {:induction false} RunFiles(g: Config, s: State, events: seq<Event>)
    requires ConfigOk(g) && Distinct(g) && AllOk(g, s)
    ensures AllOk(g, Run(g, s, events))
    decreases |events|
  {
    hide AllOk, Next, Distinct;
    if events != [] {
      NextFiles(g, s, events[0]);
      RunFiles(g, Next(g, s, events[0]), events[1..]);
    }
  }

  /** Every removal of a source works. */
  predicate Reliable(events: seq<Event>) {
    forall k :: 0 <= k < |events| && events[k].Work? ==> events[k].removed
  }

  predicate FinishSafe(g: Config, s: State) {
    s.sched.Finishing? && LiveOriginal(s, s.sched.n) ==> AllDone(g, s, s.heap[s.sched.n].path)
  }

  /** In every run, the removal of a source failing or not: whenever the scheduler has decided to
      finish a file, a call returned OK for every group. */
  ghost predicate Safe(g: Config, servers: nat, workers: seq<nat>, mayFail: bool)
    requires ConfigOk(g)
  {
    forall events :: mayFail || Reliable(events) ==> FinishSafe(g, Run(g, Start(servers, workers), events))
  }

  /** With distinct names no run, whatever its interleaving and its crashes, finishes a file too early. */
  lemma {:induction false} CompletionSafe(g: Config, servers: nat, workers: seq<nat>)
    requires ConfigOk(g) && Distinct(g)
    ensures Safe(g, servers, workers, true)
  {
    hide MemoryOk, Run, Distinct, AllDone;
    forall events
      ensures FinishSafe(g, Run(g, Start(servers, workers), events))
    {
      var z := Start(servers, workers);
      EmptyOk(g, z);
      RunFiles(g, z, events);
    }
  }
}
