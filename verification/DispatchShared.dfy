/**
 * Where every group has a server with a worker, the protocol is safe if and only if no two groups
 * carry the same name in their flag files or the removal of a source never fails. The run built here
 * serves one group after the other, no removal working; a group whose name was used before finds
 * its flag gone and is passed over.
 */
module DispatchShared {
  import opened Dispatch
  import opened DispatchMemory
  import opened DispatchFiles
  import opened DispatchRemoval

  // ----- reachability -----

  ghost predicate Reaches(g: Config, s: State, t: State)
    requires ConfigOk(g)
  {
    exists events :: Run(g, s, events) == t
  }

  lemma {:induction false} RunJoin(g: Config, s: State, a: seq<Event>, b: seq<Event>)
    requires ConfigOk(g)
    ensures Run(g, s, a + b) == Run(g, Run(g, s, a), b)
    decreases |a|
  {
    hide Next;
    if a == [] {
      assert a + b == b;
    } else {
      RunJoin(g, Next(g, s, a[0]), a[1..], b);
      assert (a + b)[1..] == a[1..] + b;
    }
  }

  lemma {:induction false} Then(g: Config, s: State, t: State, u: State)
    requires ConfigOk(g) && Reaches(g, s, t) && Reaches(g, t, u)
    ensures Reaches(g, s, u)
  {
    hide Next, Run;
    var a, b :| Run(g, s, a) == t && Run(g, t, b) == u;
    RunJoin(g, s, a, b);
  }

  lemma {:induction false} Stay(g: Config, s: State)
    requires ConfigOk(g)
    ensures Reaches(g, s, s)
  {
    assert Run(g, s, []) == s;
  }

  lemma {:induction false} OneStep(g: Config, s: State, t: State, e: Event, u: State)
    requires ConfigOk(g) && Reaches(g, s, t) && Next(g, t, e) == u
    ensures Reaches(g, s, u)
  {
    assert Run(g, t, [e]) == u by {
      hide Next;
      assert [e][1..] == [];
      assert Run(g, Next(g, t, e), []) == u;
    }
    Then(g, s, t, u);
  }

  // ----- the run -----

  /** One file 0, whose node is 0; all queues empty, all workers waiting. */
  function At(g: Config, servers: nat, workers: seq<nat>, sched: Sched, files: set<File>, done: set<(nat, nat)>): State {
    Start(servers, workers).(heap := map[0 := Original(0, 0)], sched := sched, entered := {0}, done := done,
                             arrived := {Watched(0), SourceOf(g, 0)}, files := files + {Watched(0), SourceOf(g, 0)})
  }

  /** Some worker serves each group. */
  ghost predicate Servable(g: Config, servers: nat, workers: seq<nat>)
    requires ConfigOk(g)
  {
    forall i :: 0 <= i < |g.names| ==> Staffed(g, servers, workers, i)
  }

  ghost predicate Staffed(g: Config, servers: nat, workers: seq<nat>, i: nat)
    requires ConfigOk(g) && i < |g.names|
  {
    exists w: nat :: Serves(g, servers, workers, i, w)
  }

  predicate Serves(g: Config, servers: nat, workers: seq<nat>, i: nat, w: nat)
    requires ConfigOk(g) && i < |g.names|
  {
    w < |workers| && workers[w] < servers && workers[w] in g.pools[i]
  }

  function FlagsTo(g: Config, i: nat): set<File>
    requires i <= |g.names|
  {
    set j | 0 <= j < i :: Flag(0, g.names[j])
  }

  predicate First(g: Config, j: nat)
    requires j < |g.names|
  {
    g.names[j] !in g.names[..j]
  }

  /** The flags left, and what is done, when the groups before i have been served. */
  function FlagsFrom(g: Config, i: nat): set<File>
    requires i <= |g.names|
  {
    set j | 0 <= j < |g.names| && g.names[j] !in g.names[..i] :: Flag(0, g.names[j])
  }

  function DoneTo(g: Config, i: nat): set<(nat, nat)>
    requires i <= |g.names|
  {
    set j | 0 <= j < i && First(g, j) :: (0, j)
  }

  lemma {:induction false} Enter(g: Config, servers: nat, workers: seq<nat>)
    requires ConfigOk(g)
    ensures Reaches(g, Start(servers, workers), At(g, servers, workers, Creating(0, 0), {}, {}))
  {
    hide Reaches;
    var z := Start(servers, workers);
    Stay(g, z);
    var a0 := z.(arrived := {Watched(0)}, files := {Watched(0)});
    OneStep(g, z, z, Arrive(Watched(0)), a0);
    var both := {Watched(0), SourceOf(g, 0)};
    var a := z.(arrived := both, files := both);
    assert {Watched(0)} + {SourceOf(g, 0)} == both;
    OneStep(g, z, a0, Arrive(SourceOf(g, 0)), a);
    var b := a.(heap := map[0 := Original(0, 0)], queue := [0], entered := {0});
    OneStep(g, z, a, Add(0, 0), b);
    var c := b.(sched := Popped(0), queue := []);
    OneStep(g, z, b, Schedule(true, 0, 0), c);
    OneStep(g, z, c, Schedule(true, 0, 0), c.(sched := Fresh(0)));
    OneStep(g, z, c.(sched := Fresh(0)), Schedule(true, 0, 0), c.(sched := Existing(0)));
    OneStep(g, z, c.(sched := Existing(0)), Schedule(true, 0, 0), c.(sched := Creating(0, 0)));
    assert c.(sched := Creating(0, 0)) == At(g, servers, workers, Creating(0, 0), {}, {});
  }

  lemma {:induction false} Flags(g: Config, servers: nat, workers: seq<nat>, i: nat)
    requires ConfigOk(g) && i <= |g.names|
    ensures Reaches(g, At(g, servers, workers, Creating(0, 0), {}, {}), At(g, servers, workers, Creating(0, i), FlagsTo(g, i), {}))
  {
    hide Reaches;
    var z := At(g, servers, workers, Creating(0, 0), {}, {});
    if i == 0 {
      assert FlagsTo(g, 0) == {};
      Stay(g, z);
    } else {
      Flags(g, servers, workers, i - 1);
      var a := At(g, servers, workers, Creating(0, i - 1), FlagsTo(g, i - 1), {});
      var b := At(g, servers, workers, Creating(0, i), FlagsTo(g, i), {});
      assert FlagsTo(g, i) == FlagsTo(g, i - 1) + {Flag(0, g.names[i - 1])};
      assert b.files == a.files + {Flag(0, g.names[i - 1])};
      OneStep(g, z, a, Schedule(true, 0, 0), b);
    }
  }

  function Left(g: Config, i: nat): set<File>
    requires i <= |g.names|
  {
    FlagsFrom(g, i) + {Marker(0)}
  }

  lemma {:induction false} Marked(g: Config, servers: nat, workers: seq<nat>)
    requires ConfigOk(g)
    ensures Reaches(g, Start(servers, workers), At(g, servers, workers, Looping(0, 0), Left(g, 0), DoneTo(g, 0)))
  {
    hide Reaches;
    var k, z := |g.names|, Start(servers, workers);
    Enter(g, servers, workers);
    Flags(g, servers, workers, k);
    var a := At(g, servers, workers, Creating(0, k), FlagsTo(g, k), {});
    Then(g, z, At(g, servers, workers, Creating(0, 0), {}, {}), a);
    var b := At(g, servers, workers, Looping(0, 0), Left(g, 0), DoneTo(g, 0));
    assert FlagsFrom(g, 0) == FlagsTo(g, k) && DoneTo(g, 0) == {};
    assert b.files == a.files + {Marker(0)};
    OneStep(g, z, a, Schedule(true, 0, 0), b);
  }

  lemma {:induction false} FlagLeft(g: Config, i: nat)
    requires i < |g.names|
    ensures First(g, i) <==> Flag(0, g.names[i]) in Left(g, i)
    ensures Left(g, i + 1) == Left(g, i) - {Flag(0, g.names[i])}
    ensures DoneTo(g, i + 1) == DoneTo(g, i) + (if First(g, i) then {(0, i)} else {})
  {
    assert g.names[..i + 1] == g.names[..i] + [g.names[i]];
  }

  /** The scheduler hands the node out to a server of group i. */
  lemma {:induction false} HandOut(g: Config, servers: nat, workers: seq<nat>, i: nat, w: nat, files: set<File>, done: set<(nat, nat)>)
    requires ConfigOk(g) && i < |g.names| && Serves(g, servers, workers, i, w) && Flag(0, g.names[i]) in files
    ensures var sv, z := workers[w], At(g, servers, workers, Looping(0, i), files, done);
            Reaches(g, z, z.(sched := Looping(0, i + 1), servers := z.servers[sv := [1]],
                             heap := map[0 := Original(0, 1), 1 := Copy(0, 0, i, g.names[i], true)]))
  {
    hide Reaches;
    var sv, z := workers[w], At(g, servers, workers, Looping(0, i), files, done);
    Stay(g, z);
    OneStep(g, z, z, Schedule(true, 0, 0), z.(sched := Assigning(0, i)));
    var a := z.(sched := Pushing(0, i, 1, sv), heap := map[0 := Original(0, 1), 1 := Copy(0, 0, i, g.names[i], true)]);
    OneStep(g, z, z.(sched := Assigning(0, i)), Schedule(true, sv, 1), a);
    assert z.servers[sv] + [1] == [1];
    var b := a.(sched := Looping(0, i + 1), servers := z.servers[sv := [1]]);
    OneStep(g, z, a, Schedule(true, 0, 0), b);
  }

  /** Its worker, with the copy, up to the end of the call. */
  lemma {:induction false} CallMade(g: Config, z: State, w: nat, i: nat)
    requires ConfigOk(g) && w < |z.workers| && z.workers[w].server < |z.servers| && z.workers[w].pc.Waiting?
    requires z.servers[z.workers[w].server] == [1] && LiveCopy(z, 1) && z.heap[1].path == 0 && z.heap[1].group == i
    requires SourceOf(g, 0) in z.files
    ensures var sv := z.workers[w].server;
            Reaches(g, z, SetPc(z, w, Succeeded(1)).(servers := z.servers[sv := []], done := z.done + {(0, i)}))
  {
    hide Reaches;
    var sv := z.workers[w].server;
    Stay(g, z);
    assert z.servers[sv][1..] == [];
    var a := SetPc(z, w, Holding(1)).(servers := z.servers[sv := []]);
    OneStep(g, z, z, Work(w, true, false, false), a);
    var b := SetPc(a, w, Calling(1));
    OneStep(g, z, a, Work(w, true, false, false), b);
    var r := SetPc(a, w, Removing(1)).(done := z.done + {(0, i)});
    OneStep(g, z, b, Work(w, true, false, false), r);
    OneStep(g, z, r, Work(w, true, false, false), SetPc(r, w, Succeeded(1)));
    assert SetPc(r, w, Succeeded(1)) == SetPc(z, w, Succeeded(1)).(servers := z.servers[sv := []], done := z.done + {(0, i)});
  }

  /** It succeeds and frees the copy. */
  lemma {:induction false} TakeIn(g: Config, servers: nat, workers: seq<nat>, i: nat, w: nat, files: set<File>, done: set<(nat, nat)>)
    requires ConfigOk(g) && i < |g.names| && Serves(g, servers, workers, i, w)
    ensures var sv, z := workers[w], At(g, servers, workers, Looping(0, i), files, done);
            Reaches(g, z.(sched := Looping(0, i + 1), servers := z.servers[sv := [1]],
                          heap := map[0 := Original(0, 1), 1 := Copy(0, 0, i, g.names[i], true)]),
                    At(g, servers, workers, Looping(0, i + 1), files - {Flag(0, g.names[i])}, done + {(0, i)}))
  {
    hide Reaches;
    var sv, y := workers[w], At(g, servers, workers, Looping(0, i), files, done);
    var z := y.(sched := Looping(0, i + 1), servers := y.servers[sv := [1]],
                heap := map[0 := Original(0, 1), 1 := Copy(0, 0, i, g.names[i], true)]);
    CallMade(g, z, w, i);
    assert z.servers[sv := []] == y.servers;
    var c := SetPc(y, w, Succeeded(1)).(sched := z.sched, heap := z.heap, done := done + {(0, i)});
    assert c == SetPc(z, w, Succeeded(1)).(servers := z.servers[sv := []], done := z.done + {(0, i)});
    var d := SetPc(c, w, Releasing(1)).(files := c.files - {Flag(0, g.names[i])});
    OneStep(g, z, c, Work(w, true, false, false), d);
    var e := SetPc(d, w, Released(1)).(heap := map[0 := Original(0, 0), 1 := Copy(0, 0, i, g.names[i], false)]);
    OneStep(g, z, d, Work(w, true, false, false), e);
    var f := At(g, servers, workers, Looping(0, i + 1), files - {Flag(0, g.names[i])}, done + {(0, i)});
    assert e.heap - {1} == f.heap;
    assert SetPc(e, w, Waiting).workers == f.workers;
    assert d.files == f.files;
    OneStep(g, z, e, Work(w, true, false, false), f);
  }

  lemma {:induction false} ServerThere(g: Config, servers: nat, workers: seq<nat>, i: nat, w: nat)
    requires ConfigOk(g) && i < |g.names| && Serves(g, servers, workers, i, w)
    ensures w < |workers| && workers[w] < servers
  {
  }

  lemma {:induction false} Served(g: Config, servers: nat, workers: seq<nat>, i: nat)
    requires ConfigOk(g) && Servable(g, servers, workers) && i <= |g.names|
    ensures Reaches(g, Start(servers, workers), At(g, servers, workers, Looping(0, i), Left(g, i), DoneTo(g, i)))
  {
    hide Reaches, Left, DoneTo, First, Serves;
    var z := Start(servers, workers);
    if i == 0 {
      Marked(g, servers, workers);
    } else {
      Served(g, servers, workers, i - 1);
      FlagLeft(g, i - 1);
      var a := At(g, servers, workers, Looping(0, i - 1), Left(g, i - 1), DoneTo(g, i - 1));
      var b := At(g, servers, workers, Looping(0, i), Left(g, i), DoneTo(g, i));
      if First(g, i - 1) {
        assert Staffed(g, servers, workers, i - 1);
        var w: nat :| Serves(g, servers, workers, i - 1, w);
        ServerThere(g, servers, workers, i - 1, w);
        var m := a.(sched := Looping(0, i), servers := a.servers[workers[w] := [1]],
                    heap := map[0 := Original(0, 1), 1 := Copy(0, 0, i - 1, g.names[i - 1], true)]);
        HandOut(g, servers, workers, i - 1, w, Left(g, i - 1), DoneTo(g, i - 1));
        TakeIn(g, servers, workers, i - 1, w, Left(g, i - 1), DoneTo(g, i - 1));
        Then(g, a, m, b);
        Then(g, z, a, b);
      } else {
        assert Left(g, i) == Left(g, i - 1);
        OneStep(g, z, a, Schedule(true, 0, 0), b);
      }
    }
  }

  lemma {:induction false} Checked(g: Config, servers: nat, workers: seq<nat>, i: nat)
    requires ConfigOk(g) && Servable(g, servers, workers) && i <= |g.names|
    ensures var k := |g.names|;
            Reaches(g, Start(servers, workers), At(g, servers, workers, CheckingAll(0, i), {Marker(0)}, DoneTo(g, k)))
  {
    hide Reaches, DoneTo, First, Servable;
    var k, z := |g.names|, Start(servers, workers);
    if i == 0 {
      Served(g, servers, workers, k);
      assert g.names[..k] == g.names;
      assert FlagsFrom(g, k) == {};
      assert Left(g, k) == {Marker(0)};
      var a := At(g, servers, workers, Looping(0, k), {Marker(0)}, DoneTo(g, k));
      var b := a.(sched := Idle, queue := [0]);
      OneStep(g, z, a, Schedule(true, 0, 0), a.(sched := Returning(0)));
      OneStep(g, z, a.(sched := Returning(0)), Schedule(true, 0, 0), b);
      OneStep(g, z, b, Schedule(true, 0, 0), a.(sched := Popped(0)));
      OneStep(g, z, a.(sched := Popped(0)), Schedule(true, 0, 0), a.(sched := Fresh(0)));
      OneStep(g, z, a.(sched := Fresh(0)), Schedule(true, 0, 0), a.(sched := Existing(0)));
      OneStep(g, z, a.(sched := Existing(0)), Schedule(true, 0, 0), a.(sched := CheckingAll(0, 0)));
    } else {
      Checked(g, servers, workers, i - 1);
      var a := At(g, servers, workers, CheckingAll(0, i - 1), {Marker(0)}, DoneTo(g, k));
      OneStep(g, z, a, Schedule(true, 0, 0), a.(sched := CheckingAll(0, i)));
    }
  }

  /** A staffed configuration can finish a file; exactly the groups whose name is new were called. */
  lemma {:induction false} CanFinish(g: Config, servers: nat, workers: seq<nat>)
    requires ConfigOk(g) && Servable(g, servers, workers)
    ensures Reaches(g, Start(servers, workers), At(g, servers, workers, Finishing(0, 0), {Marker(0)}, DoneTo(g, |g.names|)))
  {
    hide Reaches, DoneTo, Servable;
    var k := |g.names|;
    Checked(g, servers, workers, k);
    var a := At(g, servers, workers, CheckingAll(0, k), {Marker(0)}, DoneTo(g, k));
    OneStep(g, Start(servers, workers), a, Schedule(true, 0, 0), a.(sched := Finishing(0, 0)));
  }

  /** A name used twice: the second group is never called. */
  lemma {:induction false} TooEarly(g: Config, servers: nat, workers: seq<nat>)
    requires ConfigOk(g) && !Distinct(g)
    ensures !FinishSafe(g, At(g, servers, workers, Finishing(0, 0), {Marker(0)}, DoneTo(g, |g.names|)))
  {
    var i, j :| 0 <= i < j < |g.names| && g.names[i] == g.names[j];
    assert g.names[..j][i] == g.names[j];
    assert (0, j) !in DoneTo(g, |g.names|);
  }

  /** Where every group has a server with a worker: no run finishes a file too early if and only if
      the names in the flag files are distinct or the removal of a source never fails. */
  lemma {:induction false} SafeExactly(g: Config, servers: nat, workers: seq<nat>, mayFail: bool)
    requires ConfigOk(g) && Servable(g, servers, workers)
    ensures Safe(g, servers, workers, mayFail) <==> Distinct(g) || !mayFail
  {
    hide Run, Servable, Distinct;
    if Distinct(g) {
      CompletionSafe(g, servers, workers);
    } else if mayFail {
      CanFinish(g, servers, workers);
      TooEarly(g, servers, workers);
    } else {
      forall events | Reliable(events)
        ensures FinishSafe(g, Run(g, Start(servers, workers), events))
      {
        NeverFinishes(g, servers, workers, events);
      }
    }
  }
}
