/**
 * The dispatch protocol of one monitor group: a scheduler thread and any number of upload workers
 * over shared, reference-counted queue nodes, with completion recorded in marker files. Every
 * event is one atomic step; a run is any sequence of events, crashes included.
 */
module Dispatch {
  /** Server groups: the name of the first primary of each, which its flag files carry, and the
      servers that may serve it. In a same-file configuration the watched file is uploaded itself,
      otherwise its arrival announces a source file. */
  datatype Config = Config(names: seq<nat>, pools: seq<set<nat>>, sameFile: bool)

  /** A monitor group without server groups is refused when the configuration is read. */
  predicate ConfigOk(g: Config) {
    |g.names| == |g.pools| && |g.names| >= 1
  }

  /** A queue node. A copy shares strings and counter of its original; counted is cleared when it
      has given its count back. */
  datatype Node =
    | Original(path: nat, retain: int)
    | Copy(orig: nat, path: nat, group: nat, sg: nat, counted: bool)

  /** On disk: the watched file, the source to be uploaded, the flag of a group, the mark that all
      flags were written. That these are different files is an assumption on the names: a monitor
      group called "upload" with a server called "k" would give the flag the name of the mark. */
  datatype File = Watched(path: nat) | Source(path: nat) | Flag(path: nat, name: nat) | Marker(path: nat)

  function SourceOf(g: Config, path: nat): File {
    if g.sameFile then Watched(path) else Source(path)
  }

  /** Where sche_handle stands. */
  datatype Sched =
    | Idle
    | Popped(n: nat)
    | Fresh(n: nat)
    | Existing(n: nat)
    | Creating(n: nat, i: nat)
    | CheckingAll(n: nat, i: nat)
    | Finishing(n: nat, phase: nat)
    | Looping(n: nat, i: nat)
    | Assigning(n: nat, i: nat)
    | Pushing(n: nat, i: nat, c: nat, server: nat)
    | Returning(n: nat)
    | Dropping(n: nat)

  /** Where an upload_handle thread stands. */
  datatype WorkerPc =
    | Waiting
    | Holding(c: nat)
    | Calling(c: nat)
    | Removing(c: nat)
    | Succeeded(c: nat)
    | Releasing(c: nat)
    | Released(c: nat)

  datatype Worker = Worker(server: nat, pc: WorkerPc)

  /** done remembers for which path and group a call returned OK; fault, whether freed memory was
      used. */
  datatype State = State(
    heap: map<nat, Node>, sched: Sched, queue: seq<nat>, servers: seq<seq<nat>>, workers: seq<Worker>, entered: set<nat>,
    files: set<File>, arrived: set<File>, done: set<(nat, nat)>, fault: bool)

  /** What the environment answers: ok, that the server is available or the call succeeded; retry,
      that the server's retries are not used up; removed, that remove() worked on the source; keep,
      that the finishing action leaves the source; server, the choice of the round robin, if it is
      one of the group; id, what malloc returns. A file arrives once. */
  datatype Event =
    | Arrive(file: File)
    | Add(path: nat, id: nat)
    | Schedule(keep: bool, server: nat, id: nat)
    | Work(w: nat, ok: bool, retry: bool, removed: bool)
    | Crash

  function Start(servers: nat, workers: seq<nat>): State {
    State(map[], Idle, [], seq(servers, _ => []), seq(|workers|, i requires 0 <= i < |workers| => Worker(workers[i], Waiting)),
          {}, {}, {}, {}, false)
  }

  predicate LiveOriginal(s: State, n: nat) {
    n in s.heap && s.heap[n].Original?
  }

  /** A copy whose strings and counter are there. */
  predicate LiveCopy(s: State, c: nat) {
    c in s.heap && s.heap[c].Copy? && LiveOriginal(s, s.heap[c].orig)
  }

  /** The heap with a new copy of n for group i. */
  function WithCopy(g: Config, h: map<nat, Node>, n: nat, id: nat, i: nat): map<nat, Node>
    requires n in h && h[n].Original? && i < |g.names|
  {
    h[n := Original(h[n].path, h[n].retain + 1)][id := Copy(n, h[n].path, i, g.names[i], true)]
  }

  /** The heap when copy c has given its count back. */
  function Uncounted(h: map<nat, Node>, c: nat): map<nat, Node>
    requires c in h && h[c].Copy? && h[c].orig in h && h[h[c].orig].Original?
  {
    var o := h[h[c].orig];
    h[h[c].orig := Original(o.path, o.retain - 1)][c := h[c].(counted := false)]
  }

  function Fault(s: State): State {
    s.(fault := true)
  }

  // ----- the scheduler -----

  function Pop(s: State): State {
    if s.queue == [] then s else s.(sched := Popped(s.queue[0]), queue := s.queue[1..])
  }

  /** One step of sche_handle with node n in hand. */
  function Handle(g: Config, s: State, n: nat, keep: bool, server: nat, id: nat): State
    requires ConfigOk(g) && !s.sched.Idle? && s.sched.n == n && LiveOriginal(s, n)
  {
    var path, k := s.heap[n].path, |g.names|;
    match s.sched
    case Popped(_) =>
      s.(sched := if s.heap[n].retain != 0 then Returning(n) else Fresh(n))
    case Fresh(_) =>
      s.(sched := if SourceOf(g, path) in s.files then Existing(n) else Dropping(n))
    case Existing(_) =>
      s.(sched := if Marker(path) !in s.files then Creating(n, 0) else CheckingAll(n, 0))
    case Creating(_, i) =>
      if i < k then s.(files := s.files + {Flag(path, g.names[i])}, sched := Creating(n, i + 1))
      else s.(files := s.files + {Marker(path)}, sched := Looping(n, 0))
    case CheckingAll(_, i) =>
      if i >= k then s.(sched := Finishing(n, 0))
      else if Flag(path, g.names[i]) in s.files then s.(sched := Looping(n, 0))
      else s.(sched := CheckingAll(n, i + 1))
    case Finishing(_, phase) =>
      if phase == 0 then s.(files := if keep then s.files else s.files - {SourceOf(g, path)}, sched := Finishing(n, 1))
      else if phase == 1 then s.(files := s.files - {Watched(path)}, sched := Finishing(n, 2))
      else if phase == 2 then s.(files := s.files - {Marker(path)}, sched := Finishing(n, 3))
      else s.(heap := s.heap - {n}, sched := Idle)
    case Looping(_, i) =>
      if i >= k then s.(sched := Returning(n))
      else if Flag(path, g.names[i]) !in s.files then s.(sched := Looping(n, i + 1))
      else s.(sched := Assigning(n, i))
    case Assigning(_, i) =>
      if i >= k || server !in g.pools[i] || server >= |s.servers| then s.(sched := Looping(n, i + 1))
      else if id in s.heap then s
      else s.(heap := WithCopy(g, s.heap, n, id, i), sched := Pushing(n, i, id, server))
    case Pushing(_, i, c, sv) =>
      if c !in s.heap then Fault(s)
      else if sv < |s.servers| then s.(servers := s.servers[sv := s.servers[sv] + [c]], sched := Looping(n, i + 1))
      else s
    case Returning(_) =>
      s.(queue := s.queue + [n], sched := Idle)
    case Dropping(_) =>
      s.(heap := s.heap - {n}, sched := Idle)
  }

  function ScheduleStep(g: Config, s: State, keep: bool, server: nat, id: nat): State
    requires ConfigOk(g)
  {
    if s.sched.Idle? then Pop(s)
    else if !LiveOriginal(s, s.sched.n) then Fault(s)
    else Handle(g, s, s.sched.n, keep, server, id)
  }

  // ----- a worker -----

  function SetPc(s: State, w: nat, pc: WorkerPc): State
    requires w < |s.workers|
  {
    s.(workers := s.workers[w := s.workers[w].(pc := pc)])
  }

  /** One step of upload_handle with copy c in hand. */
  function Serve(g: Config, s: State, w: nat, c: nat, ok: bool, retry: bool, removed: bool): State
    requires w < |s.workers| && s.workers[w].server < |s.servers| && !s.workers[w].pc.Waiting? && s.workers[w].pc.c == c
    requires !s.workers[w].pc.Released? && LiveCopy(s, c)
  {
    var node, sv := s.heap[c], s.workers[w].server;
    match s.workers[w].pc
    case Holding(_) => SetPc(s, w, if ok && SourceOf(g, node.path) in s.files then Calling(c) else Releasing(c))
    case Calling(_) =>
      if ok then SetPc(s, w, Removing(c)).(done := s.done + {(node.path, node.group)})
      else if retry then SetPc(s, w, Waiting).(servers := s.servers[sv := s.servers[sv] + [c]])
      else SetPc(s, w, Releasing(c))
    case Removing(_) =>
      SetPc(s, w, Succeeded(c)).(files := if removed then s.files - {SourceOf(g, node.path)} else s.files)
    case Succeeded(_) => SetPc(s, w, Releasing(c)).(files := s.files - {Flag(node.path, node.sg)})
    case Releasing(_) => SetPc(s, w, Released(c)).(heap := Uncounted(s.heap, c))
    case _ => s
  }

  function WorkStep(g: Config, s: State, w: nat, ok: bool, retry: bool, removed: bool): State {
    if w >= |s.workers| || s.workers[w].server >= |s.servers| then s
    else
      var sv := s.workers[w].server;
      match s.workers[w].pc
      case Waiting =>
        if s.servers[sv] == [] then s
        else SetPc(s, w, Holding(s.servers[sv][0])).(servers := s.servers[sv := s.servers[sv][1..]])
      case Released(c) =>
        if c !in s.heap then Fault(s) else SetPc(s, w, Waiting).(heap := s.heap - {c})
      case pc => if !LiveCopy(s, pc.c) then Fault(s) else Serve(g, s, w, pc.c, ok, retry, removed)
  }

  // ----- runs -----

  /** Everything in memory is lost; the files stay. */
  function AfterCrash(s: State): State {
    s.(heap := map[], sched := Idle, queue := [], servers := seq(|s.servers|, _ => []),
       workers := seq(|s.workers|, i requires 0 <= i < |s.workers| => Worker(s.workers[i].server, Waiting)), entered := {})
  }

  function Next(g: Config, s: State, e: Event): State
    requires ConfigOk(g)
  {
    match e
    case Arrive(f) =>
      if f in s.arrived || f.Flag? || f.Marker? then s else s.(arrived := s.arrived + {f}, files := s.files + {f})
    case Add(p, id) =>
      if p in s.entered || Watched(p) !in s.files || id in s.heap then s
      else s.(heap := s.heap[id := Original(p, 0)], queue := s.queue + [id], entered := s.entered + {p})
    case Schedule(keep, server, id) => ScheduleStep(g, s, keep, server, id)
    case Work(w, ok, retry, removed) => WorkStep(g, s, w, ok, retry, removed)
    case Crash => AfterCrash(s)
  }

  function Run(g: Config, s: State, events: seq<Event>): State
    requires ConfigOk(g)
    decreases |events|
  {
    if events == [] then s else Run(g, Next(g, s, events[0]), events[1..])
  }
}
