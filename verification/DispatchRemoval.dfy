/**
 * A worker whose call returned OK also removes the source. If these removals work, no file is ever
 * finished: when a flag is gone the source is gone too, and the scheduler drops the node instead.
 */
module DispatchRemoval {
  import opened Dispatch
  import opened DispatchMemory
  import opened DispatchFiles

  /** The source arrived and has been removed; it does not come back. */
  predicate Gone(g: Config, s: State, p: nat) {
    SourceOf(g, p) in s.arrived && SourceOf(g, p) !in s.files
  }

  predicate FlagOrGone(g: Config, s: State, p: nat, i: nat)
    requires i < |g.names|
  {
    Flag(p, g.names[i]) in s.files || Gone(g, s, p)
  }

  ghost predicate MarkersHold(g: Config, s: State) {
    && (forall f :: f in s.files && (f.Watched? || f.Source?) ==> f in s.arrived)
    && (forall p, i :: Marker(p) in s.files && 0 <= i < |g.names| ==> FlagOrGone(g, s, p, i))
  }

  /** What a worker knows about the source of its copy. */
  predicate CopyKnows(g: Config, s: State, pc: WorkerPc) {
    match pc
    case Calling(c) => c in s.heap && SourceOf(g, s.heap[c].path) in s.arrived
    case Removing(c) => c in s.heap && SourceOf(g, s.heap[c].path) in s.arrived
    case Succeeded(c) => c in s.heap && Gone(g, s, s.heap[c].path)
    case _ => true
  }

  predicate CopiesKnow(g: Config, s: State) {
    forall w :: 0 <= w < |s.workers| ==> CopyKnows(g, s, s.workers[w].pc)
  }

  /** The scheduler has seen the source, and gets no further than the first flag. */
  predicate SeesSource(g: Config, s: State)
    requires s.sched.Idle? || LiveOriginal(s, s.sched.n)
  {
    match s.sched
    case Existing(n) => SourceOf(g, s.heap[n].path) in s.files
    case Creating(n, i) =>
      && SourceOf(g, s.heap[n].path) in s.files
      && forall j :: 0 <= j < i && j < |g.names| ==> Flag(s.heap[n].path, g.names[j]) in s.files
    case CheckingAll(n, i) => SourceOf(g, s.heap[n].path) in s.files && Marker(s.heap[n].path) in s.files && i == 0
    case Finishing(_, _) => false
    case _ => true
  }

  ghost predicate SourcesOk(g: Config, s: State)
    requires s.sched.Idle? || LiveOriginal(s, s.sched.n)
  {
    MarkersHold(g, s) && CopiesKnow(g, s) && SeesSource(g, s)
  }

  ghost predicate QuietOk(g: Config, s: State) {
    MemoryOk(g, s) && SourcesOk(g, s)
  }

  // ----- the scheduler -----

  lemma {:induction false} ScheduleMarkersHold(g: Config, s: State, keep: bool, server: nat, id: nat)
    requires ConfigOk(g) && MarkersHold(g, s) && (s.sched.Idle? || LiveOriginal(s, s.sched.n)) && SeesSource(g, s)
    ensures MarkersHold(g, ScheduleStep(g, s, keep, server, id))
  {
    hide WithCopy;
    var t := ScheduleStep(g, s, keep, server, id);
    assert t.arrived == s.arrived;
    if s.sched.Creating? && s.sched.i >= |g.names| {
      assert forall j :: 0 <= j < |g.names| ==> FlagOrGone(g, t, s.heap[s.sched.n].path, j);
    }
    forall p, i | Marker(p) in t.files && 0 <= i < |g.names|
      ensures FlagOrGone(g, t, p, i)
    {
      assert Marker(p) in s.files ==> FlagOrGone(g, s, p, i);
    }
  }

  lemma {:induction false} ScheduleSees(g: Config, s: State, keep: bool, server: nat, id: nat)
    requires ConfigOk(g) && MarkersHold(g, s) && (s.sched.Idle? || LiveOriginal(s, s.sched.n)) && SeesSource(g, s)
    requires !s.sched.Pushing? || s.sched.c in s.heap
    ensures var t := ScheduleStep(g, s, keep, server, id);
            (t.sched.Idle? || LiveOriginal(t, t.sched.n)) ==> SeesSource(g, t)
  {
    hide WithCopy;
    if s.sched.CheckingAll? {
      assert FlagOrGone(g, s, s.heap[s.sched.n].path, 0);
    }
  }

  /** The scheduler writes flags and marks only. */
  lemma {:induction false} SourcesStay(g: Config, s: State, keep: bool, server: nat, id: nat, p: nat)
    requires ConfigOk(g) && !s.sched.Finishing?
    ensures var t := ScheduleStep(g, s, keep, server, id);
            t.arrived == s.arrived && (SourceOf(g, p) in t.files <==> SourceOf(g, p) in s.files)
  {
    hide WithCopy, LiveOriginal;
  }

  lemma {:induction false} ScheduleCopies(g: Config, s: State, keep: bool, server: nat, id: nat)
    requires ConfigOk(g) && CopiesKnow(g, s) && !s.sched.Finishing?
    requires forall w :: 0 <= w < |s.workers| ==> WorkerOk(s.heap, s.workers[w].pc)
    ensures CopiesKnow(g, ScheduleStep(g, s, keep, server, id))
  {
    hide ScheduleStep;
    var t := ScheduleStep(g, s, keep, server, id);
    WorkersStay(g, s, keep, server, id);
    forall w | 0 <= w < |t.workers|
      ensures CopyKnows(g, t, t.workers[w].pc)
    {
      var pc := s.workers[w].pc;
      assert CopyKnows(g, s, pc) && WorkerOk(s.heap, pc);
      if pc.Calling? || pc.Removing? || pc.Succeeded? {
        CopiesStay(g, s, keep, server, id, pc.c);
        SourcesStay(g, s, keep, server, id, s.heap[pc.c].path);
      }
    }
  }

  lemma {:induction false} ScheduleSources(g: Config, s: State, keep: bool, server: nat, id: nat)
    requires ConfigOk(g) && QuietOk(g, s) && MemoryOk(g, ScheduleStep(g, s, keep, server, id))
    ensures SourcesOk(g, ScheduleStep(g, s, keep, server, id))
  {
    hide MemoryOk, MarkersHold, CopiesKnow, ScheduleStep;
    SchedLive(g, s);
    SchedLive(g, ScheduleStep(g, s, keep, server, id));
    ScheduleMarkersHold(g, s, keep, server, id);
    ScheduleCopies(g, s, keep, server, id);
    ScheduleSees(g, s, keep, server, id);
  }

  // ----- a worker -----

  lemma {:induction false} MarkersWithout(g: Config, s: State, f: File)
    requires MarkersHold(g, s) && !f.Marker?
    requires f.Flag? ==> Gone(g, s, f.path)
    requires !f.Flag? ==> f in s.arrived
    ensures MarkersHold(g, s.(files := s.files - {f}))
  {
    var t := s.(files := s.files - {f});
    forall p, i | Marker(p) in t.files && 0 <= i < |g.names|
      ensures FlagOrGone(g, t, p, i)
    {
      assert FlagOrGone(g, s, p, i);
    }
  }

  lemma {:induction false} SeesKept(g: Config, s: State, t: State)
    requires (s.sched.Idle? || LiveOriginal(s, s.sched.n)) && SeesSource(g, s) && t.sched == s.sched && !s.sched.Finishing?
    requires !s.sched.Idle? ==> LiveOriginal(t, s.sched.n) && t.heap[s.sched.n].path == s.heap[s.sched.n].path
    requires Quiet(s.sched) ==> forall f :: f in s.files && f.path == s.heap[s.sched.n].path ==> f in t.files
    ensures SeesSource(g, t)
  {
  }

  /** A worker with a call behind it works on another path than a quiet scheduler. */
  lemma {:induction false} OtherPath(g: Config, s: State, w: nat)
    requires MemoryOk(g, s) && w < |s.workers| && Called(s.workers[w].pc)
    ensures LiveCopy(s, s.workers[w].pc.c)
    ensures Quiet(s.sched) ==> LiveOriginal(s, s.sched.n) && s.heap[s.workers[w].pc.c].path != s.heap[s.sched.n].path
  {
    hide InQueues, WithWorkers, Places, CountersRight, CopiesOf;
    assert WorkerOk(s.heap, s.workers[w].pc);
    if Quiet(s.sched) { NobodyDeletes(g, s, w); }
  }

  lemma {:induction false} CopiesKept(g: Config, s: State, t: State, w: nat)
    requires CopiesKnow(g, s) && t.arrived == s.arrived && t.files <= s.files && |t.workers| == |s.workers|
    requires w < |s.workers| && CopyKnows(g, t, t.workers[w].pc)
    requires forall v :: 0 <= v < |s.workers| && v != w ==> t.workers[v] == s.workers[v]
    requires forall v :: 0 <= v < |s.workers| && v != w && !s.workers[v].pc.Waiting? ==>
                           var c := s.workers[v].pc.c; c in s.heap ==> c in t.heap && t.heap[c].path == s.heap[c].path
    ensures CopiesKnow(g, t)
  {
    forall v | 0 <= v < |t.workers|
      ensures CopyKnows(g, t, t.workers[v].pc)
    {
      assert CopyKnows(g, s, s.workers[v].pc);
    }
  }

  /** The worker in hand deletes file f of its path: the source, or a flag after the source. */
  lemma {:induction false} DeleteSources(g: Config, s: State, w: nat, pc: WorkerPc, f: File)
    requires QuietOk(g, s) && w < |s.workers| && Called(s.workers[w].pc) && LiveCopy(s, s.workers[w].pc.c)
    requires var c := s.workers[w].pc.c;
             if s.workers[w].pc.Removing? then pc == Succeeded(c) && f == SourceOf(g, s.heap[c].path)
             else pc == Releasing(c) && f == Flag(s.heap[c].path, s.heap[c].sg)
    ensures SourcesOk(g, SetPc(s, w, pc).(files := s.files - {f}))
  {
    hide MemoryOk, MarkersHold, SeesSource;
    SchedLive(g, s);
    OtherPath(g, s, w);
    assert CopyKnows(g, s, s.workers[w].pc);
    var t := SetPc(s, w, pc).(files := s.files - {f});
    MarkersWithout(g, s, f);
    MarkersMoved(g, s.(files := s.files - {f}), t);
    NotFinishing(g, s);
    SeesKept(g, s, t);
    assert CopyKnows(g, t, pc);
    CopiesKept(g, s, t, w);
  }

  lemma {:induction false} NotFinishing(g: Config, s: State)
    requires (s.sched.Idle? || LiveOriginal(s, s.sched.n)) && SeesSource(g, s)
    ensures !s.sched.Finishing?
  {
  }

  lemma {:induction false} MarkersMoved(g: Config, s: State, t: State)
    requires MarkersHold(g, s) && t.files == s.files && t.arrived == s.arrived
    ensures MarkersHold(g, t)
  {
    forall p, i | Marker(p) in t.files && 0 <= i < |g.names|
      ensures FlagOrGone(g, t, p, i)
    {
      assert FlagOrGone(g, s, p, i);
    }
  }

  /** Every other step of a worker leaves the files alone. */
  lemma {:induction false} FilesAlone(g: Config, s: State, w: nat, ok: bool, retry: bool)
    requires w < |s.workers| && !Called(s.workers[w].pc)
    ensures var t := WorkStep(g, s, w, ok, retry, true); t.files == s.files && t.arrived == s.arrived
  {
    hide Uncounted, LiveCopy, SourceOf;
    if s.workers[w].server < |s.servers| {
      match s.workers[w].pc {
        case Waiting =>
        case Holding(c) =>
        case Calling(c) =>
        case Releasing(c) =>
        case Released(c) =>
      }
    }
  }

  lemma {:induction false} WorkerKnows(g: Config, s: State, w: nat, ok: bool, retry: bool)
    requires w < |s.workers| && !Called(s.workers[w].pc) && CopyKnows(g, s, s.workers[w].pc)
    requires forall f :: f in s.files && (f.Watched? || f.Source?) ==> f in s.arrived
    ensures CopyKnows(g, WorkStep(g, s, w, ok, retry, true), WorkStep(g, s, w, ok, retry, true).workers[w].pc)
  {
    hide Uncounted;
    if s.workers[w].server < |s.servers| {
      match s.workers[w].pc {
        case Waiting =>
        case Holding(c) =>
        case Calling(c) =>
        case Releasing(c) =>
        case Released(c) =>
      }
    }
  }

  lemma {:induction false} AloneSources(g: Config, s: State, w: nat, ok: bool, retry: bool)
    requires QuietOk(g, s) && MemoryOk(g, WorkStep(g, s, w, ok, retry, true)) && w < |s.workers| && !Called(s.workers[w].pc)
    ensures SourcesOk(g, WorkStep(g, s, w, ok, retry, true))
  {
    hide MemoryOk, SeesSource, WorkStep, EachOnce, CopyKnows;
    var t := WorkStep(g, s, w, ok, retry, true);
    SchedLive(g, s);
    SchedLive(g, t);
    FilesAlone(g, s, w, ok, retry);
    WorkerKnows(g, s, w, ok, retry);
    OthersStay(g, s, w, ok, retry, true);
    WorkEffect(g, s, w, ok, retry, true);
    NotFinishing(g, s);
    if !s.workers[w].pc.Waiting? { OnlyWithWorker(s, w); }
    forall v | 0 <= v < |s.workers| && v != w && !s.workers[v].pc.Waiting?
      ensures var c := s.workers[v].pc.c; c in s.heap ==> c in t.heap && t.heap[c].path == s.heap[c].path
    {
      if s.workers[v].pc.c in s.heap { StringsStay(g, s, w, ok, retry, true, s.workers[v].pc.c); }
    }
    if !s.sched.Idle? {
      assert WorkerOk(s.heap, s.workers[w].pc);
      StringsStay(g, s, w, ok, retry, true, s.sched.n);
    }
    MarkersMoved(g, s, t);
    SeesKept(g, s, t);
    CopiesKept(g, s, t, w);
  }

  lemma {:induction false} WorkSources(g: Config, s: State, w: nat, ok: bool, retry: bool)
    requires ConfigOk(g) && QuietOk(g, s) && MemoryOk(g, WorkStep(g, s, w, ok, retry, true))
    ensures SourcesOk(g, WorkStep(g, s, w, ok, retry, true))
  {
    hide MemoryOk, SourcesOk;
    if w >= |s.workers| || s.workers[w].server >= |s.servers| {
    } else if Called(s.workers[w].pc) {
      OtherPath(g, s, w);
      var c := s.workers[w].pc.c;
      if s.workers[w].pc.Removing? {
        DeleteSources(g, s, w, Succeeded(c), SourceOf(g, s.heap[c].path));
      } else {
        DeleteSources(g, s, w, Releasing(c), Flag(s.heap[c].path, s.heap[c].sg));
      }
    } else {
      AloneSources(g, s, w, ok, retry);
    }
  }

  // ----- every run -----

  lemma {:induction false} ArriveSources(g: Config, s: State, f: File)
    requires QuietOk(g, s) && !f.Flag? && !f.Marker? && f !in s.arrived
    ensures QuietOk(g, s.(arrived := s.arrived + {f}, files := s.files + {f}))
  {
    hide MemoryOk;
    SchedLive(g, s);
    ArriveKeeps(g, s, f);
    var t := s.(arrived := s.arrived + {f}, files := s.files + {f});
    forall p, i | Marker(p) in t.files && 0 <= i < |g.names|
      ensures FlagOrGone(g, t, p, i)
    {
      assert FlagOrGone(g, s, p, i);
    }
    forall w | 0 <= w < |t.workers|
      ensures CopyKnows(g, t, t.workers[w].pc)
    {
      assert CopyKnows(g, s, s.workers[w].pc);
    }
    SeesKept(g, s, t);
  }

  lemma {:induction false} AddSources(g: Config, s: State, p: nat, id: nat)
    requires QuietOk(g, s) && id !in s.heap
    ensures SourcesOk(g, s.(heap := s.heap[id := Original(p, 0)], queue := s.queue + [id], entered := s.entered + {p}))
  {
    hide MemoryOk;
    SchedLive(g, s);
    var t := s.(heap := s.heap[id := Original(p, 0)], queue := s.queue + [id], entered := s.entered + {p});
    MarkersMoved(g, s, t);
    forall w | 0 <= w < |t.workers|
      ensures CopyKnows(g, t, t.workers[w].pc)
    {
      assert CopyKnows(g, s, s.workers[w].pc);
    }
    SeesKept(g, s, t);
  }

  lemma {:induction false} NextSources(g: Config, s: State, e: Event)
    requires ConfigOk(g) && QuietOk(g, s) && (e.Work? ==> e.removed)
    ensures QuietOk(g, Next(g, s, e))
  {
    hide MemoryOk, SourcesOk, ScheduleStep, WorkStep;
    NextKeeps(g, s, e);
    match e
    case Arrive(f) => if f !in s.arrived && !f.Flag? && !f.Marker? { ArriveSources(g, s, f); }
    case Add(p, id) => if id !in s.heap { AddSources(g, s, p, id); }
    case Schedule(keep, server, id) => ScheduleSources(g, s, keep, server, id);
    case Work(w, ok, retry, removed) => WorkSources(g, s, w, ok, retry);
    case Crash => CrashSources(g, s);
  }

  lemma {:induction false} CrashSources(g: Config, s: State)
    requires QuietOk(g, s)
    ensures SourcesOk(g, AfterCrash(s))
  {
    hide MemoryOk;
    SchedLive(g, s);
    MarkersMoved(g, s, AfterCrash(s));
  }

  lemma {:induction false} RunSources(g: Config, s: State, events: seq<Event>)
    requires ConfigOk(g) && QuietOk(g, s) && Reliable(events)
    ensures QuietOk(g, Run(g, s, events))
    decreases |events|
  {
    hide QuietOk, Next;
    if events != [] {
      NextSources(g, s, events[0]);
      assert Reliable(events[1..]);
      RunSources(g, Next(g, s, events[0]), events[1..]);
    }
  }

  /** If the removals of sources work, no run ever gets to finishing a file: the ordinary end of a
      file is that its node is dropped and its mark stays. */
  lemma {:induction false} NeverFinishes(g: Config, servers: nat, workers: seq<nat>, events: seq<Event>)
    requires ConfigOk(g) && Reliable(events)
    ensures !Run(g, Start(servers, workers), events).sched.Finishing?
  {
    hide MemoryOk, Run, Reliable, MarkersHold, CopiesKnow;
    var z := Start(servers, workers);
    EmptyOk(g, z);
    StartSources(g, servers, workers);
    RunSources(g, z, events);
    SchedLive(g, Run(g, z, events));
  }

  lemma {:induction false} StartSources(g: Config, servers: nat, workers: seq<nat>)
    ensures SourcesOk(g, Start(servers, workers))
  {
  }
}
