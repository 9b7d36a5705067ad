/**
 The watcher does not cry wolf: what a buffer of events adds to the window,
 exactly; and resets only where their cause is. In a run without overflows and
 without crowded directories nobody is told to re-read, and the copy is true.
 */
module CalmRuns {
  import opened Wrappers
  import opened Lanes
  import opened WatchRegistry
  import opened DirWatch
  import opened Announcements
  import opened WatchHistory
  import opened Replica

  // ---- What a buffer adds ------------------------------------------------

  /** The names of d that events report, temp files aside. */
  function Reported(byWd: map<Wd, Dir>, es: seq<Event>, d: Dir): set<Name> {
    set e | e in es && e.Named? && e.wd in byWd && byWd[e.wd] == d && !IsTemp(e.name) :: e.name
  }

  function Ended(byWd: map<Wd, Dir>, es: seq<Event>): set<Dir> {
    set e | e in es && e.SelfGone? && e.wd in byWd :: byWd[e.wd]
  }

  function Names(h: Hold, d: Dir): set<Name> {
    if d in h.pending then h.pending[d] else {}
  }

  lemma Fewer<T>(a: set<T>, b: set<T>)
    requires a <= b
    ensures |a| <= |b|
  {
    var rest := b - a;
    assert b == a + rest && a !! rest;
  }

  lemma ReportedOn(byWd: map<Wd, Dir>, es: seq<Event>, e: Event, d: Dir)
    ensures Reported(byWd, es + [e], d) == Reported(byWd, es, d) + Reported(byWd, [e], d)
    ensures Ended(byWd, es + [e]) == Ended(byWd, es) + Ended(byWd, [e])
  {
  }

  lemma ReportedOne(byWd: map<Wd, Dir>, e: Event, d: Dir)
    ensures Reported(byWd, [e], d)
         == if e.Named? && e.wd in byWd && byWd[e.wd] == d && !IsTemp(e.name) then {e.name} else {}
    ensures Ended(byWd, [e]) == if e.SelfGone? && e.wd in byWd then {byWd[e.wd]} else {}
  {
    assert e in [e];
  }

  /** Overflow and the directories gone are those of the events. */
  lemma {:induction false} DigestsOthers(h: Hold, byWd: map<Wd, Dir>, es: seq<Event>)
    ensures
      var h' := AbsorbAll(h, byWd, es);
      (h'.overflow <==> h.overflow || Overflow in es) && h'.gone == h.gone + Ended(byWd, es)
    decreases |es|
  {
    if es == [] {
      assert Ended(byWd, []) == {};
    } else {
      var init, e := es[..|es| - 1], es[|es| - 1];
      assert es == init + [e];
      DigestsOthers(h, byWd, init);
      AbsorbLast(h, byWd, init, e);
      ReportedOn(byWd, init, e, "");
      OthersOne(AbsorbAll(h, byWd, init), byWd, e);
    }
  }

  lemma OthersOne(h: Hold, byWd: map<Wd, Dir>, e: Event)
    ensures
      var h' := Absorb(h, byWd, e);
      (h'.overflow <==> h.overflow || e == Overflow) && h'.gone == h.gone + Ended(byWd, [e])
  {
    ReportedOne(byWd, e, "");
  }

  /** The names held are old ones and reported ones, all of them while they are
      fewer than 256; and only 256 of them make a reset. */
  ghost predicate Gathered(h: Hold, h': Hold, byWd: map<Wd, Dir>, es: seq<Event>, d: Dir) {
    var all := Names(h, d) + Reported(byWd, es, d);
    && (d in h'.pending <==> d in h.pending || Reported(byWd, es, d) != {})
    && Names(h, d) <= Names(h', d) <= all
    && (|all| < 256 ==> Names(h', d) == all)
    && (d in h'.resets ==> d in h.resets || |Names(h', d)| >= 256)
    && (d in h.resets ==> d in h'.resets)
  }

  predicate Reports(byWd: map<Wd, Dir>, e: Event, d: Dir) {
    e.Named? && e.wd in byWd && byWd[e.wd] == d && !IsTemp(e.name)
  }

  lemma NamesElse(h: Hold, byWd: map<Wd, Dir>, e: Event, d: Dir)
    requires !Reports(byWd, e, d)
    ensures
      var h' := Absorb(h, byWd, e);
      (d in h'.pending <==> d in h.pending) && Names(h', d) == Names(h, d) && (d in h'.resets <==> d in h.resets)
  {
  }

  /** One event: the name is held, or 256 others are and make a reset. */
  lemma NamesHere(h: Hold, byWd: map<Wd, Dir>, e: Event, d: Dir)
    requires Reports(byWd, e, d)
    ensures
      var h' := Absorb(h, byWd, e);
      && d in h'.pending
      && Names(h', d) == (if |Names(h, d)| < 256 then Names(h, d) + {e.name} else Names(h, d))
      && (d in h'.resets <==> d in h.resets || |Names(h, d)| >= 256)
  {
  }

  lemma SetsGrow<T>(was: set<T>, reported: set<T>, held: set<T>, more: set<T>)
    requires was <= held <= was + reported && (|was + reported| < 256 ==> held == was + reported)
    ensures
      var now, all := if |held| < 256 then held + more else held, was + (reported + more);
      was <= now <= all && (|all| < 256 ==> now == all) && |held| <= |now|
  {
    var now, all := if |held| < 256 then held + more else held, was + (reported + more);
    Fewer(was + reported, all);
    Fewer(held, all);
    Fewer(held, now);
  }

  lemma GathersOne(h: Hold, h': Hold, byWd: map<Wd, Dir>, es: seq<Event>, e: Event, d: Dir)
    requires Gathered(h, h', byWd, es, d)
    ensures Gathered(h, Absorb(h', byWd, e), byWd, es + [e], d)
  {
    ReportedOn(byWd, es, e, d);
    ReportedOne(byWd, e, d);
    if Reports(byWd, e, d) {
      NamesHere(h', byWd, e, d);
      SetsGrow(Names(h, d), Reported(byWd, es, d), Names(h', d), {e.name});
    } else {
      NamesElse(h', byWd, e, d);
      assert Reported(byWd, es + [e], d) == Reported(byWd, es, d);
    }
  }

  lemma {:induction false} DigestsNames(h: Hold, byWd: map<Wd, Dir>, es: seq<Event>, d: Dir)
    ensures Gathered(h, AbsorbAll(h, byWd, es), byWd, es, d)
    decreases |es|
  {
    if es == [] {
      assert Reported(byWd, [], d) == {};
    } else {
      var init, e := es[..|es| - 1], es[|es| - 1];
      assert es == init + [e];
      DigestsNames(h, byWd, init, d);
      AbsorbLast(h, byWd, init, e);
      GathersOne(h, AbsorbAll(h, byWd, init), byWd, init, e, d);
    }
  }

  // ---- No overflow, no reset of all --------------------------------------

  predicate Dry(s: State) {
    && !InPipe(s, Overflow) && !s.hold.overflow
    && forall k :: 0 <= k < |s.hist| ==> s.hist[k].frame != Changed(ResetAll)
  }

  lemma EnvDry(s: State, s': State)
    requires Dry(s) && EnvStep(s, s') && Overflow !in s'.queue
    ensures Dry(s')
  {
    if AsideStep(s, s') {
      AsideIs(s, s');
    } else if d, tell :| Dropped(s, s', d, tell) {
      DroppedIs(s, s', d, tell);
    } else if d, w :| BeginWatch(s, s', d, w) {
      WatchIs(s, s', d, w);
    } else {
      OtherDry(s, s');
    }
  }

  lemma OtherDry(s: State, s': State)
    requires Dry(s) && Overflow !in s'.queue
    requires || (exists d, n, v :: FsChange(s, s', d, n, v)) || (exists t, lane :: SendReply(s, s', t, lane))
             || (exists lane :: SendOther(s, s', lane))
    ensures Dry(s')
  {
  }

  lemma DigestDry(s: State, s': State)
    requires Dry(s) && DigestStep(s, s')
    ensures Dry(s')
  {
    DigestsOthers(s.hold, s.reg.byWd, s.phase.buf);
  }

  lemma DropsDry(s: State, s': State)
    requires Dry(s) && Overflow !in s'.queue
    requires (exists d :: GoneStep(s, s', d)) || (exists d, busy :: DirStep(s, s', d, busy))
    ensures Dry(s')
  {
    if d :| GoneStep(s, s', d) {
      DroppedIs(s.(hold := s'.hold), s', d, true);
    } else {
      var d, busy :| DirStep(s, s', d, busy);
      DirDry(s, s', d, busy);
    }
  }

  lemma DirDry(s: State, s': State, d: Dir, busy: bool)
    requires Dry(s) && Overflow !in s'.queue && DirStep(s, s', d, busy)
    ensures Dry(s')
  {
    if busy && d in s.reg.byDir {
      DroppedIs(s.(phase := s'.phase, reg := Consult(s.reg, d)), s', d, true);
    }
  }

  lemma PassDry(s: State, s': State)
    requires Dry(s)
    requires || (exists k :: ReadStep(s, s', k)) || DrainedStep(s, s') || OverflowStep(s, s') || GoneDoneStep(s, s')
             || ResetStep(s, s') || (exists n :: StatStep(s, s', n)) || EntriesStep(s, s') || PassDoneStep(s, s')
    ensures Dry(s')
  {
  }

  lemma WatcherDry(s: State, s': State)
    requires Dry(s) && WatcherStep(s, s') && Overflow !in s'.queue
    ensures Dry(s')
  {
    if PollStep(s, s') || WakeStep(s, s') {
      PollSilent(s, s');
    } else if DigestStep(s, s') {
      DigestDry(s, s');
    } else if (exists d :: GoneStep(s, s', d)) || (exists d, busy :: DirStep(s, s', d, busy)) {
      DropsDry(s, s');
    } else {
      PassDry(s, s');
    }
  }

  lemma NextDry(s: State, s': State)
    requires Dry(s) && Next(s, s') && Overflow !in s'.queue
    ensures Dry(s')
  {
    if EnvStep(s, s') {
      EnvDry(s, s');
    } else if WatcherStep(s, s') {
      WatcherDry(s, s');
    }
  }

  /** All is reset only after the kernel's queue overflowed. */
  lemma {:induction false} ResetAllMeansOverflow(run: seq<State>, j: nat)
    requires IsRun(run) && j < |run| && forall i :: 0 <= i <= j ==> Overflow !in run[i].queue
    ensures Dry(run[j])
  {
    if j > 0 {
      ResetAllMeansOverflow(run, j - 1);
      RunSteps(run, j - 1);
      NextDry(run[j - 1], run[j]);
    }
  }

  // ---- No crowd, no reset of a directory ---------------------------------

  predicate Uncrowded(h: Hold) {
    forall d :: d in h.pending ==> |h.pending[d]| < 256
  }

  predicate IsLoneReset(f: Frame) {
    f.Changed? && f.note.Reset? && !f.note.unwatched
  }

  predicate Spacious(s: State) {
    && s.hold.resets == {} && !s.phase.EmitReset?
    && forall k :: 0 <= k < |s.hist| ==> !IsLoneReset(s.hist[k].frame)
  }

  lemma EnvSpacious(s: State, s': State)
    requires Spacious(s) && EnvStep(s, s')
    ensures Spacious(s')
  {
    if AsideStep(s, s') {
      AsideIs(s, s');
    } else if d, tell :| Dropped(s, s', d, tell) {
      DroppedIs(s, s', d, tell);
    } else if d, w :| BeginWatch(s, s', d, w) {
      WatchIs(s, s', d, w);
    } else {
      OtherSpacious(s, s');
    }
  }

  lemma OtherSpacious(s: State, s': State)
    requires Spacious(s)
    requires || (exists d, n, v :: FsChange(s, s', d, n, v)) || (exists t, lane :: SendReply(s, s', t, lane))
             || (exists lane :: SendOther(s, s', lane))
    ensures Spacious(s')
  {
  }

  lemma DigestSpacious(s: State, s': State)
    requires Spacious(s) && DigestStep(s, s') && Uncrowded(s'.hold)
    ensures Spacious(s')
  {
    forall d
      ensures d !in s'.hold.resets
    {
      DigestsNames(s.hold, s.reg.byWd, s.phase.buf, d);
    }
    assert s'.hold.resets == {};
  }

  lemma DropsSpacious(s: State, s': State)
    requires Spacious(s)
    requires (exists d :: GoneStep(s, s', d)) || (exists d, busy :: DirStep(s, s', d, busy))
    ensures Spacious(s')
  {
    if d :| GoneStep(s, s', d) {
      DroppedIs(s.(hold := s'.hold), s', d, true);
    } else {
      var d, busy :| DirStep(s, s', d, busy);
      if busy && d in s.reg.byDir {
        DroppedIs(s.(phase := s'.phase, reg := Consult(s.reg, d)), s', d, true);
      }
    }
  }

  lemma PassSpacious(s: State, s': State)
    requires Spacious(s)
    requires || (exists k :: ReadStep(s, s', k)) || DrainedStep(s, s') || OverflowStep(s, s') || GoneDoneStep(s, s')
             || ResetStep(s, s') || (exists n :: StatStep(s, s', n)) || EntriesStep(s, s') || PassDoneStep(s, s')
    ensures Spacious(s')
  {
    if OverflowStep(s, s') || EntriesStep(s, s') {
      TellSpacious(s, s');
    } else if n :| StatStep(s, s', n) {
    } else {
      RestSpacious(s, s');
    }
  }

  lemma TellSpacious(s: State, s': State)
    requires Spacious(s) && (OverflowStep(s, s') || EntriesStep(s, s'))
    ensures Spacious(s')
  {
  }

  lemma RestSpacious(s: State, s': State)
    requires Spacious(s)
    requires (exists k :: ReadStep(s, s', k)) || DrainedStep(s, s') || GoneDoneStep(s, s') || PassDoneStep(s, s') || ResetStep(s, s')
    ensures Spacious(s')
  {
  }

  lemma NextSpacious(s: State, s': State)
    requires Spacious(s) && Next(s, s') && Uncrowded(s'.hold)
    ensures Spacious(s')
  {
    if EnvStep(s, s') {
      EnvSpacious(s, s');
    } else if WatcherStep(s, s') {
      if PollStep(s, s') || WakeStep(s, s') {
        PollSilent(s, s');
      } else if DigestStep(s, s') {
        DigestSpacious(s, s');
      } else if (exists d :: GoneStep(s, s', d)) || (exists d, busy :: DirStep(s, s', d, busy)) {
        DropsSpacious(s, s');
      } else {
        PassSpacious(s, s');
      }
    }
  }

  /** A directory that stays watched is reset only after 256 of its names were
      held at once. */
  lemma {:induction false} ResetMeansCrowd(run: seq<State>, j: nat)
    requires IsRun(run) && j < |run| && forall i :: 0 <= i <= j ==> Uncrowded(run[i].hold)
    ensures Spacious(run[j])
  {
    if j > 0 {
      ResetMeansCrowd(run, j - 1);
      RunSteps(run, j - 1);
      NextSpacious(run[j - 1], run[j]);
    }
  }

  // ---- The copy in a calm run --------------------------------------------

  lemma StandingHeardNoFarewell(s: State, t: State, x: Watch, k: nat)
    requires Inv(s) && ReadInv(t) && Later(s, t) && x in s.began && Stands(t.reg, x) && |s.hist| <= k < |t.hist|
    ensures t.hist[k].frame != Changed(Reset(x.dir, true))
  {
    assert MarkOk(t.log, t.hist, t.began[x], x);
  }

  /** No overflow, no crowd, and the watch stands: nobody is told to re-read, and
      the copy is true name by name, with the one exception of Replica. */
  lemma CalmCopyIsTrue(run: seq<State>, a: nat, b: nat, x: Watch, seed: Name -> Read)
    requires IsRun(run) && a <= b < |run|
    requires forall i :: 0 <= i <= b ==> Overflow !in run[i].queue && Uncrowded(run[i].hold)
    requires x.dir != "" && Stands(run[a].reg, x) && Stands(run[b].reg, x) && x !in run[a].blind
    requires x !in run[b].ended && Quiescent(run[b])
    requires forall n :: |run[a].log| <= seed(n).at && ReadOk(run[b].log, x.dir, n, seed(n), |run[b].log|)
    ensures
      var s, t := run[a], run[b];
      && !ToldToReread(t.hist, |s.hist|, x.dir)
      && forall n :: !IsTemp(n) ==>
           (LastRead(t.hist, |s.hist|, x.dir, n, seed(n)).stat == StatAt(t.log, x.dir, n, |t.log|) <==>
             !(Outdated(s, x, n) && LastRead(t.hist, |s.hist|, x.dir, n, seed(n)) == s.phase.seen[n]))
  {
    CopyIsTrue(run, a, b, x, seed);
    CalmIsUntold(run, a, b, x);
  }

  lemma CalmIsUntold(run: seq<State>, a: nat, b: nat, x: Watch)
    requires IsRun(run) && a <= b < |run|
    requires forall i :: 0 <= i <= b ==> Overflow !in run[i].queue && Uncrowded(run[i].hold)
    requires x.dir != "" && Stands(run[a].reg, x) && Stands(run[b].reg, x)
    ensures !ToldToReread(run[b].hist, |run[a].hist|, x.dir)
  {
    ResetAllMeansOverflow(run, b);
    ResetMeansCrowd(run, b);
    RunKeepsReads(run, a);
    RunKeepsReads(run, b);
    RunLater(run, a, b);
    forall k | |run[a].hist| <= k < |run[b].hist|
      ensures !IsReset(run[b].hist[k].frame, x.dir)
    {
      StandingHeardNoFarewell(run[a], run[b], x, k);
      ResetKinds(run[b].hist[k].frame, x.dir);
    }
  }

  lemma ResetKinds(f: Frame, d: Dir)
    requires f != Changed(ResetAll) && !IsLoneReset(f) && f != Changed(Reset(d, true))
    ensures !IsReset(f, d)
  {
  }
}
