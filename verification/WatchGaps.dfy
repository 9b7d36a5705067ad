/**
 Three runs in which a client's copy goes stale without a word: the exceptions of
 Replica.CopyIsTrue are real.
 */
module WatchGaps {
  import opened Wrappers
  import opened Lanes
  import opened WatchRegistry
  import opened DirWatch
  import opened Announcements
  import opened WatchHistory
  import opened Replica

  const D: Dir := "/d"
  const N: Name := "n"

  const START: State := State([], [], {}, map[], map[], {}, 0, Registry(map[], map[], []), [], 0, 0, false, NOTHING,
                              Polling, [], [], Queues([], [], [], []))

  /** s' follows s after some steps of the system. */
  ghost predicate Leads(s: State, s': State) {
    exists path: seq<State> :: IsPath(path, s, s')
  }

  ghost predicate IsPath(path: seq<State>, s: State, s': State) {
    && path != [] && path[0] == s && path[|path| - 1] == s'
    && forall i: nat :: i + 1 < |path| ==> StepAt(path, i)
  }

  lemma Then(s: State, m: State, s': State)
    requires Leads(s, m) && Next(m, s')
    ensures Leads(s, s')
  {
    var path :| IsPath(path, s, m);
    var path' := path + [s'];
    forall i: nat | i + 1 < |path'|
      ensures StepAt(path', i)
    {
      if i + 1 < |path| {
        assert StepAt(path, i);
      }
    }
    assert IsPath(path', s, s');
  }

  lemma ThenWatcher(s: State, m: State, s': State)
    requires Leads(s, m) && WatcherStep(m, s')
    ensures Leads(s, s')
  {
    Then(s, m, s');
  }

  lemma ThenEnv(s: State, m: State, s': State)
    requires Leads(s, m) && EnvStep(m, s')
    ensures Leads(s, s')
  {
    Then(s, m, s');
  }

  /** Reading one event the registry does not care about changes nothing else. */
  lemma ReadIdle(z: State, s: State)
    requires Leads(z, s)
    requires s.phase == Polling && |s.queue| == 1 && AbsorbAll(s.hold, s.reg.byWd, s.queue) == s.hold
    ensures Leads(z, s.(queue := []))
  {
    var s1 := s.(phase := Draining(0));
    assert PollStep(s, s1);
    ThenWatcher(z, s, s1);
    var s2 := s1.(queue := [], phase := Buffered(0, s.queue));
    assert s.queue[..1] == s.queue && s.queue[1..] == [];
    assert ReadStep(s1, s2, 1);
    ThenWatcher(z, s1, s2);
    var s3 := s2.(phase := Draining(0));
    assert DigestStep(s2, s3);
    ThenWatcher(z, s2, s3);
    assert DrainedStep(s3, s.(queue := []));
    ThenWatcher(z, s3, s.(queue := []));
  }

  // ---- A watch begun between a stat and its emission ---------------------

  const CHANGED: State := START.(
    log := [Change(D, N, Entry(1), Some(0))], queue := [Named(0, N)], live := {0}, nextWd := 1,
    began := map[Watch(0, D) := Mark(0, 0)], reg := Registry(map[D := 0], map[0 := D], [D]))

  lemma ToChanged()
    ensures Leads(START, CHANGED)
  {
    assert IsPath([START], START, START);
    var s := CHANGED.(log := [], queue := []);
    assert BeginWatch(START, s, D, 0);
    ThenEnv(START, START, s);
    assert FsChange(s, CHANGED, D, N, Entry(1));
    ThenEnv(START, s, CHANGED);
  }

  const HELD: State := CHANGED.(queue := [], hold := Hold(map[D := {N}], {}, {}, false))

  lemma ToHeld()
    ensures Leads(START, HELD.(phase := Draining(0)))
  {
    ToChanged();
    var s1 := CHANGED.(phase := Draining(0));
    assert PollStep(CHANGED, s1);
    ThenWatcher(START, CHANGED, s1);
    var s2 := CHANGED.(queue := [], phase := Buffered(0, [Named(0, N)]));
    assert s1.queue[..1] == [Named(0, N)] && s1.queue[1..] == [];
    assert ReadStep(s1, s2, 1);
    ThenWatcher(START, s1, s2);
    assert AbsorbAll(NOTHING, CHANGED.reg.byWd, [Named(0, N)]) == HELD.hold;
    assert DigestStep(s2, HELD.(phase := Draining(0)));
    ThenWatcher(START, s2, HELD.(phase := Draining(0)));
  }

  lemma ToStatting()
    ensures Leads(START, HELD.(phase := Statting(0, 1, {}, D, {}, map[N := Read(Entry(1), 1)])))
  {
    ToHeld();
    var s0 := HELD.(phase := Draining(0));
    var s1 := HELD.(phase := FlushOverflow(0, 1));
    assert DrainedStep(s0, s1);
    ThenWatcher(START, s0, s1);
    var s2 := HELD.(phase := FlushGone(0, 1));
    assert OverflowStep(s1, s2);
    ThenWatcher(START, s1, s2);
    var s3 := HELD.(phase := FlushDirs(0, 1, {D}));
    assert HELD.hold.pending.Keys == {D};
    assert GoneDoneStep(s2, s3);
    ThenWatcher(START, s2, s3);
    var s4 := HELD.(phase := Statting(0, 1, {}, D, {N}, map[]));
    assert {D} - {D} == {};
    assert DirStep(s3, s4, D, false);
    ThenWatcher(START, s3, s4);
    var s5 := HELD.(phase := Statting(0, 1, {}, D, {}, map[N := Read(Entry(1), 1)]));
    assert {N} - {N} == {} && StatAt(HELD.log, D, N, 1) == Entry(1);
    assert s4.phase.seen[N := Read(Entry(1), 1)] == s5.phase.seen;
    assert StatStep(s4, s5, N);
    ThenWatcher(START, s4, s5);
  }

  /** The second watch has begun; the first one's read is still unsent. */
  const REWATCHED: State := HELD.(
    log := [Change(D, N, Entry(1), Some(0)), Change(D, N, Entry(2), None)], queue := [SelfGone(0)],
    live := {1}, nextWd := 2, began := map[Watch(0, D) := Mark(0, 0), Watch(1, D) := Mark(2, 0)], ended := {Watch(0, D)},
    reg := Registry(map[D := 1], map[1 := D], [D]),
    phase := Statting(0, 1, {}, D, {}, map[N := Read(Entry(1), 1)]))

  lemma ToRewatched()
    ensures Leads(START, REWATCHED)
  {
    ToStatting();
    var s0 := HELD.(phase := Statting(0, 1, {}, D, {}, map[N := Read(Entry(1), 1)]));
    var s1 := s0.(reg := Registry(map[], map[], []), live := {}, queue := [SelfGone(0)], ended := {Watch(0, D)});
    assert Without([D], D) == [] by {
      assert [D][1..] == [];
    }
    assert map[D := 0] - {D} == map[] && map[0 := D] - {0} == map[];
    assert Drop(s0.reg, D) == Registry(map[], map[], []);
    assert Dropped(s0, s1, D, false);
    ThenEnv(START, s0, s1);
    ChangeUnwatched(s1);
    ThenEnv(START, s1, s1.(log := REWATCHED.log));
    BeginAgain(s1.(log := REWATCHED.log));
  }

  lemma ChangeUnwatched(s1: State)
    requires s1.log == [Change(D, N, Entry(1), Some(0))] && D !in s1.reg.byDir
    ensures EnvStep(s1, s1.(log := REWATCHED.log))
  {
    assert FsChange(s1, s1.(log := REWATCHED.log), D, N, Entry(2));
  }

  lemma BeginAgain(s2: State)
    requires Leads(START, s2)
    requires s2 == REWATCHED.(reg := Registry(map[], map[], []), live := {}, nextWd := 1, began := map[Watch(0, D) := Mark(0, 0)])
    ensures Leads(START, REWATCHED)
  {
    assert Add(s2.reg, D, 1) == REWATCHED.reg;
    assert s2.began[Watch(1, D) := Mark(2, 0)] == REWATCHED.began;
    assert {} + {1} == s2.live + {1} == REWATCHED.live;
    assert BeginWatch(s2, REWATCHED, D, 1);
    ThenEnv(START, s2, REWATCHED);
  }

  const MISTOLD: State := Send(REWATCHED.(hold := NOTHING, phase := Polling), Interactive,
                               Changed(Entries(D, map[N := Read(Entry(1), 1)])))

  lemma ToMistold()
    ensures Leads(REWATCHED, MISTOLD.(queue := []))
  {
    assert IsPath([REWATCHED], REWATCHED, REWATCHED);
    var s1 := MISTOLD.(hold := HELD.hold, phase := FlushDirs(0, 1, {}));
    assert EntriesStep(REWATCHED, s1);
    ThenWatcher(REWATCHED, REWATCHED, s1);
    assert PassDoneStep(s1, MISTOLD);
    ThenWatcher(REWATCHED, s1, MISTOLD);
    assert [SelfGone(0)][1..] == [];
    ReadIdle(REWATCHED, MISTOLD);
  }

  /** A directory is forgotten and watched again while the watcher is between a
      stat of it and the emission. The old read is announced after the new
      listing, and nothing corrects it. */
  lemma StraddledCopyGoesStale() returns (s: State)
    ensures Leads(START, REWATCHED) && Leads(REWATCHED, s)
    ensures REWATCHED.reg.byDir == map[D := 1] && Outdated(REWATCHED, Watch(1, D), N)
    ensures Watch(1, D) !in REWATCHED.blind && Watch(1, D) !in s.ended && Stands(s.reg, Watch(1, D)) && Quiescent(s)
    ensures ReadOk(s.log, D, N, Read(Entry(2), 2), |s.log|) && |REWATCHED.log| <= 2
    ensures !ToldToReread(s.hist, |REWATCHED.hist|, D)
    ensures LastRead(s.hist, |REWATCHED.hist|, D, N, Read(Entry(2), 2)).stat == Entry(1)
    ensures StatAt(s.log, D, N, |s.log|) == Entry(2)
  {
    ToRewatched();
    ToMistold();
    s := MISTOLD.(queue := []);
    MistoldIsStale(s);
  }

  lemma MistoldIsStale(s: State)
    requires s == MISTOLD.(queue := [])
    ensures Outdated(REWATCHED, Watch(1, D), N)
    ensures Watch(1, D) !in REWATCHED.blind && Watch(1, D) !in s.ended && Stands(s.reg, Watch(1, D)) && Quiescent(s)
    ensures ReadOk(s.log, D, N, Read(Entry(2), 2), |s.log|)
    ensures !ToldToReread(s.hist, |REWATCHED.hist|, D)
    ensures LastRead(s.hist, |REWATCHED.hist|, D, N, Read(Entry(2), 2)).stat == Entry(1)
    ensures StatAt(s.log, D, N, |s.log|) == Entry(2)
  {
  }

  // ---- A watch whose end was swallowed by an overflow --------------------

  /** The directory is gone from under its watch and the event was dropped. */
  const ORPHANED: State := START.(
    queue := [Overflow], began := map[Watch(0, D) := Mark(0, 0)], blind := map[Watch(0, D) := Mark(0, 0)], nextWd := 1,
    reg := Registry(map[D := 0], map[0 := D], [D]))

  /** The overflow has been told; the registry still says D is watched. */
  const TOLD: State := Send(ORPHANED.(queue := []), Interactive, Changed(ResetAll))

  lemma ToOrphaned()
    ensures Leads(START, ORPHANED)
  {
    assert IsPath([START], START, START);
    var s := ORPHANED.(queue := [], blind := map[], live := {0});
    assert BeginWatch(START, s, D, 0);
    ThenEnv(START, START, s);
    assert DirGone(s, ORPHANED, 0);
    ThenEnv(START, s, ORPHANED);
  }

  lemma ToOverflowHeld()
    ensures Leads(START, ORPHANED.(queue := [], hold := Hold(map[], {}, {}, true), phase := Draining(0)))
  {
    ToOrphaned();
    var s1 := ORPHANED.(phase := Draining(0));
    assert PollStep(ORPHANED, s1);
    ThenWatcher(START, ORPHANED, s1);
    var s2 := ORPHANED.(queue := [], phase := Buffered(0, [Overflow]));
    assert s1.queue[..1] == [Overflow] && s1.queue[1..] == [];
    assert ReadStep(s1, s2, 1);
    ThenWatcher(START, s1, s2);
    var s3 := ORPHANED.(queue := [], hold := Hold(map[], {}, {}, true), phase := Draining(0));
    assert AbsorbAll(NOTHING, ORPHANED.reg.byWd, [Overflow]) == s3.hold;
    assert DigestStep(s2, s3);
    ThenWatcher(START, s2, s3);
  }

  lemma ToTold()
    ensures Leads(START, TOLD)
  {
    ToOverflowHeld();
    var s0 := ORPHANED.(queue := [], hold := Hold(map[], {}, {}, true), phase := Draining(0));
    var s1 := s0.(phase := FlushOverflow(0, 0));
    assert DrainedStep(s0, s1);
    ThenWatcher(START, s0, s1);
    var s2 := TOLD.(phase := FlushGone(0, 0));
    assert OverflowStep(s1, s2);
    ThenWatcher(START, s1, s2);
    var s3 := TOLD.(phase := FlushDirs(0, 0, {}));
    assert TOLD.hold.pending.Keys == {};
    assert GoneDoneStep(s2, s3);
    ThenWatcher(START, s2, s3);
    assert PassDoneStep(s3, TOLD);
    ThenWatcher(START, s3, TOLD);
  }

  /** After the overflow the client reads D again and is answered that it is
      watched. A later change is never announced. */
  lemma BlindCopyGoesStale() returns (s: State)
    ensures Leads(START, TOLD) && Leads(TOLD, s)
    ensures TOLD.reg.byDir == map[D := 0] && Watch(0, D) in TOLD.blind
    ensures Watch(0, D) !in s.ended && Stands(s.reg, Watch(0, D)) && Quiescent(s)
    ensures ReadOk(s.log, D, N, Read(Deleted, 0), |s.log|)
    ensures !ToldToReread(s.hist, |TOLD.hist|, D)
    ensures LastRead(s.hist, |TOLD.hist|, D, N, Read(Deleted, 0)).stat == Deleted
    ensures StatAt(s.log, D, N, |s.log|) == Entry(1)
  {
    ToTold();
    assert IsPath([TOLD], TOLD, TOLD);
    s := TOLD.(log := [Change(D, N, Entry(1), Some(0))]);
    assert FsChange(TOLD, s, D, N, Entry(1));
    ThenEnv(TOLD, TOLD, s);
  }

  // ---- A descriptor answered for a second name ---------------------------

  const E: Dir := "/e"

  const WATCHED: State := START.(live := {0}, nextWd := 1, began := map[Watch(0, D) := Mark(0, 0)],
                                 reg := Registry(map[D := 0], map[0 := D], [D]))

  /** D was renamed to E, and E is watched before the rename is read: the kernel
      answers the descriptor it still has for the directory. */
  const ALIASED: State := START.(
    queue := [SelfGone(0)], live := {0}, nextWd := 1,
    began := map[Watch(0, D) := Mark(0, 0), Watch(0, E) := Mark(0, 0)], ended := {Watch(0, D)},
    reg := Registry(map[D := 0, E := 0], map[0 := E], [D, E]))

  lemma ToAliased()
    ensures Leads(START, WATCHED) && Leads(WATCHED, ALIASED)
  {
    assert IsPath([START], START, START);
    assert BeginWatch(START, WATCHED, D, 0);
    ThenEnv(START, START, WATCHED);
    assert IsPath([WATCHED], WATCHED, WATCHED);
    var s := WATCHED.(queue := [SelfGone(0)], live := {});
    assert DirGone(WATCHED, s, 0);
    ThenEnv(WATCHED, WATCHED, s);
    AliasBegins(s);
  }

  lemma AliasBegins(s: State)
    requires Leads(WATCHED, s) && s == WATCHED.(queue := [SelfGone(0)], live := {})
    ensures Leads(WATCHED, ALIASED)
  {
    assert Add(s.reg, E, 0) == ALIASED.reg && {} + {0} == ALIASED.live;
    assert BeginWatch(s, ALIASED, E, 0);
    ThenEnv(WATCHED, s, ALIASED);
  }

  /** The rename was read as the end of E, and told. D is still registered. */
  const DANGLING: State := Send(ALIASED.(
    queue := [SelfGone(0)], live := {}, reg := Registry(map[D := 0], map[], [D])), Interactive, Changed(Reset(E, true)))

  lemma ToGoneHeld()
    ensures Leads(WATCHED, ALIASED.(queue := [], hold := Hold(map[], {}, {E}, false), phase := Draining(0)))
  {
    ToAliased();
    var s1 := ALIASED.(phase := Draining(0));
    assert PollStep(ALIASED, s1);
    ThenWatcher(WATCHED, ALIASED, s1);
    var s2 := ALIASED.(queue := [], phase := Buffered(0, [SelfGone(0)]));
    assert s1.queue[..1] == [SelfGone(0)] && s1.queue[1..] == [];
    assert ReadStep(s1, s2, 1);
    ThenWatcher(WATCHED, s1, s2);
    var s3 := ALIASED.(queue := [], hold := Hold(map[], {}, {E}, false), phase := Draining(0));
    assert AbsorbAll(NOTHING, ALIASED.reg.byWd, [SelfGone(0)]) == s3.hold;
    assert DigestStep(s2, s3);
    ThenWatcher(WATCHED, s2, s3);
  }

  lemma ToFlushed()
    ensures Leads(WATCHED, DANGLING.(phase := FlushGone(0, 0)))
  {
    ToGoneHeld();
    var s3 := ALIASED.(queue := [], hold := Hold(map[], {}, {E}, false), phase := Draining(0));
    var s4 := s3.(phase := FlushOverflow(0, 0));
    assert DrainedStep(s3, s4);
    ThenWatcher(WATCHED, s3, s4);
    var s5 := s3.(phase := FlushGone(0, 0));
    assert OverflowStep(s4, s5);
    ThenWatcher(WATCHED, s4, s5);
    DropOfE();
    var s6 := DANGLING.(phase := FlushGone(0, 0));
    assert {E} - {E} == {} && s5.hold.pending - {E} == map[];
    assert Silenced(s5.reg, E, true) == {};
    assert GoneStep(s5, s6, E);
    ThenWatcher(WATCHED, s5, s6);
  }

  lemma DropOfE()
    ensures Drop(ALIASED.reg, E) == Registry(map[D := 0], map[], [D])
  {
    assert [D, E][1..] == [E] && [E][1..] == [];
    assert Without([E], E) == [];
    assert Without([D, E], E) == [D] + Without([E], E);
  }

  lemma ToDangling()
    ensures Leads(WATCHED, DANGLING.(queue := []))
  {
    ToFlushed();
    var s6 := DANGLING.(phase := FlushGone(0, 0));
    var s7 := DANGLING.(phase := FlushDirs(0, 0, {}));
    assert DANGLING.hold.pending.Keys == {};
    assert GoneDoneStep(s6, s7);
    ThenWatcher(WATCHED, s6, s7);
    assert PassDoneStep(s7, DANGLING);
    ThenWatcher(WATCHED, s7, DANGLING);
    assert [SelfGone(0)][1..] == [];
    ReadIdle(WATCHED, DANGLING);
  }

  /** A client that listed D is told nothing when D is renamed, E is listed and the
      rename is read: the farewell goes to E. Nor is one that lists a directory
      made anew under the old name, which watch() says is watched already. A later
      change of D is never announced to either. */
  lemma AliasedCopyGoesStale() returns (s: State)
    ensures Leads(START, WATCHED) && Leads(WATCHED, DANGLING.(queue := [])) && Leads(DANGLING.(queue := []), s) && Leads(WATCHED, s)
    ensures Stands(WATCHED.reg, Watch(0, D)) && Watch(0, D) in s.ended
    ensures DANGLING.reg.byDir == map[D := 0] && s.reg == DANGLING.reg && Quiescent(s)
    ensures ReadOk(s.log, D, N, Read(Deleted, 0), |s.log|)
    ensures !ToldToReread(s.hist, |WATCHED.hist|, D) && !ToldToReread(s.hist, |DANGLING.hist|, D)
    ensures LastRead(s.hist, |WATCHED.hist|, D, N, Read(Deleted, 0)).stat == Deleted
    ensures LastRead(s.hist, |DANGLING.hist|, D, N, Read(Deleted, 0)).stat == Deleted
    ensures StatAt(s.log, D, N, |s.log|) == Entry(1)
  {
    ToDangling();
    ToAliased();
    var z := DANGLING.(queue := []);
    assert IsPath([z], z, z);
    s := z.(log := [Change(D, N, Entry(1), Some(0))]);
    assert FsChange(z, s, D, N, Entry(1));
    ThenEnv(z, z, s);
    ThenEnv(WATCHED, z, s);
    assert s.hist == [Sent(Changed(Reset(E, true)), 0)];
    assert s.hist[..0] == [];
  }
}
