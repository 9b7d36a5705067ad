/**
 A directory that is registered while its descriptor means another name, or none:
 what the agent still says of it. This is what becomes of the older name when
 inotify answers one descriptor for two.
 */
module LostNames {
  import opened Wrappers
  import opened Lanes
  import opened WatchRegistry
  import opened DirWatch
  import opened Announcements
  import opened WatchHistory
  import opened Replica

  /** The watcher thread is not about to speak of d. */
  predicate Unheld(h: Hold, p: Phase, d: Dir) {
    && d !in h.pending && d !in h.resets && d !in h.gone
    && match p
       case FlushDirs(_, _, todo) => d !in todo
       case EmitReset(_, _, todo, dir) => d !in todo && dir != d
       case Statting(_, _, todo, dir, _, _) => d !in todo && dir != d
       case _ => true
  }

  /** Registered, but under a descriptor that does not mean it. */
  predicate Unmeant(reg: Registry, d: Dir) {
    d in reg.byDir && !Means(reg, reg.byDir[d], d)
  }

  ghost predicate Lost(s: State, d: Dir) {
    Sound(s.reg) && Unmeant(s.reg, d) && Unheld(s.hold, s.phase, d)
  }

  /** No descriptor means a lost name. */
  lemma NoneMeansIt(reg: Registry, d: Dir, w: Wd)
    requires Sound(reg) && Unmeant(reg, d) && w in reg.byWd
    ensures reg.byWd[w] != d
  {
  }

  /** A frame that speaks of d in particular. */
  predicate SpeaksOf(f: Frame, d: Dir) {
    f.Changed? && !f.note.ResetAll? && f.note.dir == d
  }

  /** The step says nothing of d, unless it is the farewell as d is dropped. */
  predicate Silent(s: State, s': State, d: Dir) {
    && s.hist <= s'.hist
    && forall k :: |s.hist| <= k < |s'.hist| && SpeaksOf(s'.hist[k].frame, d) ==>
         d !in s'.reg.byDir && s'.hist[k].frame == Changed(Reset(d, true))
  }

  /** The name stays lost in silence, or is not registered any more. */
  ghost predicate StaysLost(s: State, s': State, d: Dir) {
    Silent(s, s', d) && (d in s'.reg.byDir ==> Lost(s', d))
  }

  // ---- Steps -------------------------------------------------------------

  lemma DropLost(s: State, s': State, e: Dir, tell: bool, d: Dir)
    requires Sound(s.reg) && Unmeant(s.reg, d) && Dropped(s, s', e, tell)
    ensures Silent(s, s', d) && Sound(s'.reg) && (d in s'.reg.byDir ==> Unmeant(s'.reg, d))
    ensures s'.hold == s.hold && s'.phase == s.phase
  {
    DropKeepsSound(s.reg, e);
    DroppedIs(s, s', e, tell);
    DroppedRegistry(s, s', e, tell);
  }

  lemma WatchLost(s: State, s': State, e: Dir, w: Wd, d: Dir)
    requires Lost(s, d) && BeginWatch(s, s', e, w)
    ensures StaysLost(s, s', d)
  {
    AddKeepsSound(s.reg, e, w);
    var t := Begun(s, e, w);
    assert Unmeant(t.reg, d) && t.hold == s.hold && t.phase == s.phase && t.hist == s.hist;
    if s' != t {
      DropLost(t, s', s.reg.order[0], true, d);
    }
  }

  lemma EnvLost(s: State, s': State, d: Dir)
    requires Lost(s, d) && EnvStep(s, s')
    ensures StaysLost(s, s', d)
  {
    if AsideStep(s, s') {
      AsideIs(s, s');
    } else if e, tell :| Dropped(s, s', e, tell) {
      DropLost(s, s', e, tell, d);
    } else if e, w :| BeginWatch(s, s', e, w) {
      WatchLost(s, s', e, w, d);
    } else {
      OtherLost(s, s', d);
    }
  }

  lemma OtherLost(s: State, s': State, d: Dir)
    requires Lost(s, d)
    requires || (exists e, n, v :: FsChange(s, s', e, n, v)) || (exists t, lane :: SendReply(s, s', t, lane))
             || (exists lane :: SendOther(s, s', lane))
    ensures StaysLost(s, s', d)
  {
  }

  lemma {:induction false} AbsorbLost(h: Hold, byWd: map<Wd, Dir>, es: seq<Event>, d: Dir)
    requires d !in h.pending && d !in h.resets && d !in h.gone && forall w :: w in byWd ==> byWd[w] != d
    ensures var h' := AbsorbAll(h, byWd, es); d !in h'.pending && d !in h'.resets && d !in h'.gone
    decreases |es|
  {
    if es != [] {
      AbsorbLost(Absorb(h, byWd, es[0]), byWd, es[1..], d);
    }
  }

  lemma DigestLost(s: State, s': State, d: Dir)
    requires Lost(s, d) && DigestStep(s, s')
    ensures StaysLost(s, s', d)
  {
    forall w | w in s.reg.byWd
      ensures s.reg.byWd[w] != d
    {
      NoneMeansIt(s.reg, d, w);
    }
    AbsorbLost(s.hold, s.reg.byWd, s.phase.buf, d);
  }

  lemma TurnLost(s: State, s': State, d: Dir)
    requires Lost(s, d) && TurnStep(s, s') && !DigestStep(s, s')
    ensures StaysLost(s, s', d)
  {
    TurnIs(s, s');
    if PollStep(s, s') || WakeStep(s, s') {
      PollSilent(s, s');
    } else {
      PassLost(s, s', d);
    }
  }

  lemma PassLost(s: State, s': State, d: Dir)
    requires Unheld(s.hold, s.phase, d)
    requires (exists k :: ReadStep(s, s', k)) || DrainedStep(s, s') || GoneDoneStep(s, s') || PassDoneStep(s, s')
    ensures Unheld(s'.hold, s'.phase, d)
  {
  }

  lemma TellLost(s: State, s': State, d: Dir)
    requires Lost(s, d) && (OverflowStep(s, s') || ResetStep(s, s') || EntriesStep(s, s'))
    ensures StaysLost(s, s', d)
  {
    TellingIs(s, s');
  }

  lemma GoneLost(s: State, s': State, e: Dir, d: Dir)
    requires Lost(s, d) && GoneStep(s, s', e)
    ensures StaysLost(s, s', d)
  {
    DropLost(s.(hold := s'.hold), s', e, true, d);
  }

  lemma ConsultLost(reg: Registry, e: Dir, d: Dir)
    requires Sound(reg) && Unmeant(reg, d)
    ensures Sound(Consult(reg, e)) && Unmeant(Consult(reg, e), d)
  {
  }

  lemma DirLost(s: State, s': State, e: Dir, busy: bool, d: Dir)
    requires Lost(s, d) && DirStep(s, s', e, busy)
    ensures StaysLost(s, s', d)
  {
    ConsultLost(s.reg, e, d);
    if busy && e in s.reg.byDir {
      DropLost(s.(phase := s'.phase, reg := Consult(s.reg, e)), s', e, true, d);
    }
  }

  lemma WatcherLost(s: State, s': State, d: Dir)
    requires Lost(s, d) && WatcherStep(s, s')
    ensures StaysLost(s, s', d)
  {
    if DigestStep(s, s') {
      DigestLost(s, s', d);
    } else if TurnStep(s, s') {
      TurnLost(s, s', d);
    } else if OverflowStep(s, s') || ResetStep(s, s') || EntriesStep(s, s') {
      TellLost(s, s', d);
    } else if e :| GoneStep(s, s', e) {
      GoneLost(s, s', e, d);
    } else if e, busy :| DirStep(s, s', e, busy) {
      DirLost(s, s', e, busy, d);
    }
  }

  /** Every step keeps a lost name lost and unmentioned, or drops it. */
  lemma NextStaysLost(s: State, s': State, d: Dir)
    requires Lost(s, d) && Next(s, s')
    ensures StaysLost(s, s', d)
  {
    if EnvStep(s, s') {
      EnvLost(s, s', d);
    } else if WatcherStep(s, s') {
      WatcherLost(s, s', d);
    }
  }

  // ---- Over runs ---------------------------------------------------------

  /** Nothing was said of d in particular since `from`. */
  predicate Unspoken(hist: seq<Sent>, from: nat, d: Dir) {
    forall k :: from <= k < |hist| ==> !SpeaksOf(hist[k].frame, d)
  }

  lemma UnspokenOn(s: State, s': State, from: nat, d: Dir)
    requires from <= |s.hist| && Unspoken(s.hist, from, d) && StaysLost(s, s', d) && d in s'.reg.byDir
    ensures from <= |s'.hist| && Unspoken(s'.hist, from, d)
  {
  }

  ghost predicate Stays(run: seq<State>, a: nat, b: nat, d: Dir)
    requires a <= b < |run|
  {
    forall i :: a <= i <= b ==> d in run[i].reg.byDir
  }

  /** From the moment a name is lost and not held, for as long as it stays
      registered, it stays lost and no frame speaks of it. */
  lemma {:induction false} LostStaysLost(run: seq<State>, a: nat, b: nat, d: Dir)
    requires IsRun(run) && a <= b < |run| && Lost(run[a], d) && Stays(run, a, b, d)
    ensures Lost(run[b], d) && |run[a].hist| <= |run[b].hist| && Unspoken(run[b].hist, |run[a].hist|, d)
  {
    if a < b {
      LostStaysLost(run, a, b - 1, d);
      RunSteps(run, b - 1);
      NextStaysLost(run[b - 1], run[b], d);
      UnspokenOn(run[b - 1], run[b], |run[a].hist|, d);
    }
  }

  lemma {:induction false} UnspokenIsSeed(hist: seq<Sent>, from: nat, d: Dir, n: Name, seed: Read)
    requires Unspoken(hist, from, d)
    ensures LastRead(hist, from, d, n, seed) == seed
    decreases |hist|
  {
    if |hist| > from {
      UnspokenIsSeed(hist[..|hist| - 1], from, d, n, seed);
    }
  }

  /** So a copy seeded by a listing of it stays what the listing read, and is true
      of a name exactly when the name is as it was then; only a reset of everything
      tells its reader to read again. */
  lemma LostCopyIsItsSeed(run: seq<State>, a: nat, b: nat, d: Dir, n: Name, seed: Read)
    requires IsRun(run) && a <= b < |run| && Lost(run[a], d) && Stays(run, a, b, d)
    ensures LastRead(run[b].hist, |run[a].hist|, d, n, seed) == seed
    ensures ToldToReread(run[b].hist, |run[a].hist|, d) <==>
      exists k :: |run[a].hist| <= k < |run[b].hist| && run[b].hist[k].frame == Changed(ResetAll)
  {
    LostStaysLost(run, a, b, d);
    UnspokenIsSeed(run[b].hist, |run[a].hist|, d, n, seed);
    ResetIsAll(run[b].hist, |run[a].hist|, d);
  }

  lemma ResetIsAll(hist: seq<Sent>, from: nat, d: Dir)
    requires Unspoken(hist, from, d)
    ensures ToldToReread(hist, from, d) <==> exists k :: from <= k < |hist| && hist[k].frame == Changed(ResetAll)
  {
    if k :| from <= k < |hist| && hist[k].frame == Changed(ResetAll) {
      assert IsReset(hist[k].frame, d);
    }
    if ToldToReread(hist, from, d) {
      var k :| from <= k < |hist| && IsReset(hist[k].frame, d);
      assert !SpeaksOf(hist[k].frame, d);
      assert hist[k].frame == Changed(ResetAll);
    }
  }

  /** The name that held a descriptor is without one as soon as it is answered for
      another. */
  lemma AliasUnmeans(s: State, e: Dir, w: Wd)
    requires Sound(s.reg) && e !in s.reg.byDir && w in s.reg.byWd && s.reg.byWd[w] != ""
    ensures Unmeant(Begun(s, e, w).reg, s.reg.byWd[w])
  {
  }

  // ---- Who ends without a word -------------------------------------------

  /** Another name is registered under the descriptor of x. */
  predicate SharedBy(reg: Registry, x: Watch, d: Dir) {
    d != x.dir && d in reg.byDir && reg.byDir[d] == x.wd
  }

  lemma DroppedSilences(s: State, s': State, d: Dir, tell: bool, x: Watch)
    requires Dropped(s, s', d, tell) && x in s'.ended && x !in s.ended
    ensures (d == x.dir && !tell) || SharedBy(s.reg, x, d)
  {
  }

  /** A registration ends without a word only when it is forgotten on request, or
      when its descriptor is answered for another name or dropped under one. */
  ghost predicate EndsWithReason(s: State, s': State, x: Watch) {
    || Dropped(s, s', x.dir, false)
    || (exists d :: SharedBy(s.reg, x, d))
    || (exists d :: d != x.dir && BeginWatch(s, s', d, x.wd))
  }

  lemma EndedMeans(s: State, s': State, x: Watch)
    requires NamesOk(s.nextWd, s.began, s.reg) && Next(s, s') && x in s'.ended && x !in s.ended
    ensures EndsWithReason(s, s', x)
  {
    if EnvStep(s, s') {
      EnvEnds(s, s', x);
    } else if WatcherStep(s, s') {
      WatcherEnds(s, s', x);
    }
  }

  /** In every run, so: the watcher and the eviction tell whom they drop. */
  lemma RunEndsWithReason(run: seq<State>, j: nat, x: Watch)
    requires IsRun(run) && j + 1 < |run| && x in run[j + 1].ended && x !in run[j].ended
    ensures EndsWithReason(run[j], run[j + 1], x)
  {
    RunKeepsInv(run, j);
    RunSteps(run, j);
    EndedMeans(run[j], run[j + 1], x);
  }

  lemma EnvEnds(s: State, s': State, x: Watch)
    requires NamesOk(s.nextWd, s.began, s.reg) && EnvStep(s, s') && x in s'.ended && x !in s.ended
    ensures EndsWithReason(s, s', x)
  {
    if d, tell :| Dropped(s, s', d, tell) {
      DroppedSilences(s, s', d, tell, x);
    } else if d, w :| BeginWatch(s, s', d, w) {
      WatchSilences(s, s', d, w, x);
    } else {
      OthersEndNothing(s, s');
    }
  }

  lemma OthersEndNothing(s: State, s': State)
    requires || AsideStep(s, s') || (exists d, n, v :: FsChange(s, s', d, n, v))
             || (exists t, lane :: SendReply(s, s', t, lane)) || (exists lane :: SendOther(s, s', lane))
    ensures s'.ended == s.ended
  {
    if AsideStep(s, s') {
      AsideIs(s, s');
    }
  }

  lemma WatchSilences(s: State, s': State, d: Dir, w: Wd, x: Watch)
    requires NamesOk(s.nextWd, s.began, s.reg) && BeginWatch(s, s', d, w) && x in s'.ended && x !in s.ended
    ensures (d != x.dir && w == x.wd) || exists e :: SharedBy(s.reg, x, e)
  {
    var t := Begun(s, d, w);
    if x in t.ended {
      assert x == Watch(w, s.reg.byWd[w]) && s.reg.byWd[w] in s.reg.byDir;
    } else {
      var victim := s.reg.order[0];
      DroppedSilences(t, s', victim, true, x);
      assert SharedBy(t.reg, x, victim);
      if victim != d { assert SharedBy(s.reg, x, victim); }
    }
  }

  lemma WatcherEnds(s: State, s': State, x: Watch)
    requires WatcherStep(s, s') && x in s'.ended && x !in s.ended
    ensures exists d :: SharedBy(s.reg, x, d)
  {
    if d :| GoneStep(s, s', d) {
      DroppedSilences(s.(hold := s'.hold), s', d, true, x);
    } else if d, busy :| DirStep(s, s', d, busy) {
      DirSilences(s, s', d, busy, x);
    } else {
      TurnsEndNothing(s, s');
    }
  }

  lemma DirSilences(s: State, s': State, d: Dir, busy: bool, x: Watch)
    requires DirStep(s, s', d, busy) && x in s'.ended && x !in s.ended
    ensures SharedBy(s.reg, x, d)
  {
    DroppedSilences(s.(phase := s'.phase, reg := Consult(s.reg, d)), s', d, true, x);
  }

  lemma TurnsEndNothing(s: State, s': State)
    requires || TurnStep(s, s') || OverflowStep(s, s') || ResetStep(s, s') || EntriesStep(s, s')
             || (exists n :: StatStep(s, s', n))
    ensures s'.ended == s.ended
  {
    if TurnStep(s, s') {
      TurnIs(s, s');
    } else if OverflowStep(s, s') || ResetStep(s, s') || EntriesStep(s, s') {
      TellingIs(s, s');
    }
  }

  /** At rest, a registered name whose descriptor does not mean it is lost. */
  lemma RestIsLost(run: seq<State>, b: nat, d: Dir)
    requires IsRun(run) && b < |run| && Quiescent(run[b])
    ensures Lost(run[b], d) <==> Unmeant(run[b].reg, d)
  {
    RunKeepsInv(run, b);
  }
}
