/**
 The client's copy of a watched directory (agent/main.cpp:2263-2282): seeded by
 a listing read while the directory is watched, then patched with every
 notification sent since, in order. When the agent has nothing left to say the
 copy equals the directory, or the client was told to read it again.
 */
module Replica {
  import opened Wrappers
  import opened Lanes
  import opened WatchRegistry
  import opened DirWatch
  import opened Announcements
  import opened WatchHistory

  // ---- The client --------------------------------------------------------

  /** The client's view of one name: the last state announced since `from`, or
      what the listing said. */
  function LastRead(hist: seq<Sent>, from: nat, d: Dir, n: Name, seed: Read): Read
    decreases |hist|
  {
    if |hist| <= from then seed
    else
      var f := hist[|hist| - 1].frame;
      if f.Changed? && f.note.Entries? && f.note.dir == d && n in f.note.seen then f.note.seen[n]
      else LastRead(hist[..|hist| - 1], from, d, n, seed)
  }

  predicate IsReset(f: Frame, d: Dir) {
    f.Changed? && (f.note.ResetAll? || (f.note.Reset? && f.note.dir == d))
  }

  /** The client was told to re-read `d` since `from`. */
  predicate ToldToReread(hist: seq<Sent>, from: nat, d: Dir) {
    exists k :: from <= k < |hist| && IsReset(hist[k].frame, d)
  }

  /** Nothing is queued in the kernel and the watcher holds nothing. */
  predicate Quiescent(s: State) {
    s.queue == [] && s.phase == Polling && s.hold == NOTHING
  }

  // ---- Two moments of one run --------------------------------------------

  /** A read of (d, n) made after s, or one the watcher held unsent at s. */
  predicate FreshRead(s: State, d: Dir, n: Name, r: Read) {
    r.at >= |s.log| || (n in Seen(s.phase) && s.phase.dir == d && s.phase.seen[n] == r)
  }

  /** All reads announced or held since s are fresh. */
  ghost predicate Carries(s: State, t: State) {
    && (forall k, n :: |s.hist| <= k < |t.hist| && IsEntries(t.hist[k].frame) && n in t.hist[k].frame.note.seen
          ==> FreshRead(s, t.hist[k].frame.note.dir, n, t.hist[k].frame.note.seen[n]))
    && (forall n :: n in Seen(t.phase) ==> FreshRead(s, t.phase.dir, n, t.phase.seen[n]))
  }

  ghost predicate Later(s: State, t: State) {
    && s.log <= t.log && s.hist <= t.hist
    && Keeps(s.began, t.began)
    && (forall x :: x in t.blind && x !in s.blind ==> t.blind[x].from >= |s.hist|)
    && Carries(s, t)
  }

  lemma CarriesOn(s: State, t: State, t': State)
    requires Carries(s, t) && s.log <= t.log && s.hist <= t.hist && ReadsStep(t, t')
    ensures Carries(s, t')
  {
  }

  lemma StepLater(s: State, t: State, t': State)
    requires Later(s, t) && Extends(t, t') && Sends(t, t') && Next(t, t')
    ensures Later(s, t')
  {
    NextReads(t, t');
    CarriesOn(s, t, t');
  }

  lemma {:induction false} RunLater(run: seq<State>, a: nat, b: nat)
    requires IsRun(run) && a <= b < |run|
    ensures Later(run[a], run[b])
  {
    if a < b {
      RunLater(run, a, b - 1);
      RunStepLater(run, run[a], b - 1);
    } else {
      LaterNow(run[a]);
    }
  }

  lemma RunStepLater(run: seq<State>, s: State, j: nat)
    requires IsRun(run) && j + 1 < |run| && Later(s, run[j])
    ensures Later(s, run[j + 1])
  {
    var t, t' := run[j], run[j + 1];
    StepOfRun(run, j);
    RunSteps(run, j);
    StepLater(s, t, t');
  }

  lemma LaterNow(s: State)
    ensures Later(s, s)
  {
  }

  predicate Says(f: Sent, d: Dir, n: Name) {
    IsEntries(f.frame) && f.frame.note.dir == d && n in f.frame.note.seen
  }

  lemma {:induction false} LastReadIs(hist: seq<Sent>, from: nat, d: Dir, n: Name, seed: Read) returns (k: int)
    ensures -1 <= k < |hist|
    ensures k == -1 ==> LastRead(hist, from, d, n, seed) == seed
    ensures k != -1 ==> from <= k && Says(hist[k], d, n) && LastRead(hist, from, d, n, seed) == hist[k].frame.note.seen[n]
    ensures forall j :: from <= j < |hist| && j > k ==> !Says(hist[j], d, n)
    decreases |hist|
  {
    if |hist| <= from {
      k := -1;
    } else if Says(hist[|hist| - 1], d, n) {
      k := |hist| - 1;
    } else {
      k := LastReadIs(hist[..|hist| - 1], from, d, n, seed);
    }
  }

  // ---- The copy ----------------------------------------------------------

  /** A listing begins at s and reads (x.dir, n) at `seed`; t is later. */
  ghost predicate Listing(s: State, t: State, x: Watch, n: Name, seed: Read) {
    && Inv(s) && ReadInv(s) && Inv(t) && ReadInv(t) && Later(s, t)
    && x in s.began && Stands(s.reg, x) && x !in s.blind && x !in t.ended
    && |s.log| <= seed.at && ReadOk(t.log, x.dir, n, seed, |t.log|)
  }

  /** The frames before `from` were sent when at most `base` changes had been
      made, and the listing read n no earlier. */
  ghost predicate Seeded(hist: seq<Sent>, from: nat, base: nat, seed: Read) {
    from <= |hist| && base <= seed.at && forall j :: 0 <= j < from ==> hist[j].at <= base
  }

  /** A note of the watcher sent before what the client last heard was sent before
      that was read. */
  lemma Heard(hist: seq<Sent>, from: nat, base: nat, d: Dir, n: Name, seed: Read, k0: int, k: nat)
    requires OrderOk(hist) && Seeded(hist, from, base, seed) && k < |hist| && WatcherNote(hist[k].frame)
    requires -1 <= k0 < |hist| && (k0 != -1 ==> Says(hist[k0], d, n))
    requires if k0 == -1 then k < from else k < k0
    ensures hist[k].at <= if k0 == -1 then seed.at else hist[k0].frame.note.seen[n].at
  {
  }

  /** A batch of reads that covers a change is newer than what the client last
      heard, and so would be what it last heard. */
  lemma NewsIsNoRead(log: seq<Change>, hist: seq<Sent>, from: nat, base: nat, d: Dir, n: Name, seed: Read, i: nat, k: nat)
    requires HistOk(log, hist) && OrderOk(hist) && Seeded(hist, from, base, seed)
    requires LastRead(hist, from, d, n, seed).at <= i && k < |hist| && Says(hist[k], d, n)
    ensures hist[k].frame.note.seen[n].at <= i
  {
    var k0 := LastReadIs(hist, from, d, n, seed);
    if k != k0 {
      Heard(hist, from, base, d, n, seed, k0, k);
      assert ReadOk(log, d, n, hist[k].frame.note.seen[n], hist[k].at);
    }
  }

  /** A frame that covers a change made since the last thing the client heard
      about (d, n) can only be a reset it has heard since. */
  lemma NewsIsReset(log: seq<Change>, hist: seq<Sent>, from: nat, base: nat, x: Watch, m: Mark, n: Name, seed: Read, i: nat, k: nat)
    requires HistOk(log, hist) && OrderOk(hist) && Seeded(hist, from, base, seed) && MarkOk(log, hist, m, x)
    requires LastRead(hist, from, x.dir, n, seed).at <= i && m.at <= i
    requires k < |hist| && Covers(hist[k], x.dir, n, i)
    ensures from <= k && IsReset(hist[k].frame, x.dir)
  {
    if Says(hist[k], x.dir, n) {
      NewsIsNoRead(log, hist, from, base, x.dir, n, seed, i, k);
    } else if k < from {
      var k0 := LastReadIs(hist, from, x.dir, n, seed);
      Heard(hist, from, base, x.dir, n, seed, k0, k);
    }
  }

  /** A registration over by now had its farewell after the listing began. */
  lemma OverIsTold(s: State, t: State, x: Watch, n: Name, seed: Read)
    requires Listing(s, t, x, n, seed) && !Stands(t.reg, x)
    ensures ToldToReread(t.hist, |s.hist|, x.dir)
  {
    assert MarkOk(s.log, s.hist, s.began[x], x);
    assert forall k :: s.began[x].from <= k < |s.hist| ==> t.hist[k].frame != Changed(Reset(x.dir, true));
    var k :| t.began[x].from <= k < |t.hist| && t.hist[k].frame == Changed(Reset(x.dir, true));
    assert IsReset(t.hist[k].frame, x.dir);
  }

  /** Going blind after the listing began, the client is told to re-read all. */
  lemma BlindIsTold(s: State, t: State, x: Watch, n: Name, seed: Read)
    requires Listing(s, t, x, n, seed) && x in t.blind && Quiescent(t)
    ensures ToldToReread(t.hist, |s.hist|, x.dir)
  {
    assert AllTold(t, t.blind[x].from);
    var k :| t.blind[x].from <= k < |t.hist| && t.hist[k].frame == Changed(ResetAll);
    assert IsReset(t.hist[k].frame, x.dir);
  }

  /** A change since the last thing the client heard, made under x, was told. */
  lemma ChangeIsTold(s: State, t: State, x: Watch, n: Name, seed: Read, i: nat)
    requires Listing(s, t, x, n, seed) && Quiescent(t) && !IsTemp(n)
    requires i < |t.log| && t.log[i].dir == x.dir && t.log[i].name == n
    requires LastRead(t.hist, |s.hist|, x.dir, n, seed).at <= i && t.began[x].at <= i
    ensures ToldToReread(t.hist, |s.hist|, x.dir)
  {
    if !Stands(t.reg, x) {
      OverIsTold(s, t, x, n, seed);
    } else if x in t.blind {
      BlindIsTold(s, t, x, n, seed);
    } else {
      ListingSeeds(s, t, x, n, seed);
      StandingIsTold(t, |s.hist|, |s.log|, x, n, seed, i);
    }
  }

  lemma ListingSeeds(s: State, t: State, x: Watch, n: Name, seed: Read)
    requires Listing(s, t, x, n, seed)
    ensures Seeded(t.hist, |s.hist|, |s.log|, seed)
  {
    assert forall j :: 0 <= j < |s.hist| ==> t.hist[j] == s.hist[j];
  }

  /** While the registration stands, what tells of the change is a reset. */
  lemma StandingIsTold(t: State, from: nat, base: nat, x: Watch, n: Name, seed: Read, i: nat)
    requires Inv(t) && MarksInv(t) && Quiescent(t) && Reads(t.log, t.hist, t.phase) && Seeded(t.hist, from, base, seed)
    requires x in t.began && Stands(t.reg, x) && x !in t.ended && x !in t.blind && !IsTemp(n)
    requires i < |t.log| && t.log[i].dir == x.dir && t.log[i].name == n
    requires LastRead(t.hist, from, x.dir, n, seed).at <= i && t.began[x].at <= i
    ensures ToldToReread(t.hist, from, x.dir)
  {
    var k := QuietIsSaid(t, x, i);
    NewsIsReset(t.log, t.hist, from, base, x, t.began[x], n, seed, i, k);
  }

  /** At rest, every change of a standing registration has been told. */
  lemma QuietIsSaid(t: State, x: Watch, i: nat) returns (k: nat)
    requires Inv(t) && MarksInv(t) && Quiescent(t)
    requires x in t.began && Stands(t.reg, x) && x !in t.ended && x !in t.blind
    requires t.began[x].at <= i < |t.log| && t.log[i].dir == x.dir && !IsTemp(t.log[i].name)
    ensures k < |t.hist| && Covers(t.hist[k], x.dir, t.log[i].name, i)
    ensures MarkOk(t.log, t.hist, t.began[x], x)
  {
    assert MarkOk(t.log, t.hist, t.began[x], x);
    assert OnWatch(t.log[i]) == x && Obliged(t, i);
    assert Said(t.hist, x.dir, t.log[i].name, i);
    k :| 0 <= k < |t.hist| && Covers(t.hist[k], x.dir, t.log[i].name, i);
  }

  /** At s the watcher holds an unsent read of n made before the registration x,
      and n had changed by the time x began. */
  predicate Outdated(s: State, x: Watch, n: Name) {
    && x in s.began && s.phase.Statting? && s.phase.dir == x.dir && n in s.phase.seen
    && s.phase.seen[n].at < s.began[x].at <= |s.log|
    && s.phase.seen[n].stat != StatAt(s.log, x.dir, n, s.began[x].at)
  }

  /** What the client last heard: read since x began, or held unsent when the
      listing began. */
  lemma HeardIs(s: State, t: State, x: Watch, n: Name, seed: Read)
    requires Listing(s, t, x, n, seed)
    ensures var r := LastRead(t.hist, |s.hist|, x.dir, n, seed);
      && ReadOk(t.log, x.dir, n, r, |t.log|)
      && (r.at < t.began[x].at ==> s.phase.Statting? && s.phase.dir == x.dir && n in s.phase.seen && s.phase.seen[n] == r)
  {
    var k0 := LastReadIs(t.hist, |s.hist|, x.dir, n, seed);
  }

  lemma CopyOfName(s: State, t: State, x: Watch, n: Name, seed: Read)
    requires Listing(s, t, x, n, seed) && Quiescent(t) && !IsTemp(n)
    requires !ToldToReread(t.hist, |s.hist|, x.dir)
    ensures var r := LastRead(t.hist, |s.hist|, x.dir, n, seed);
      r.stat == StatAt(t.log, x.dir, n, |t.log|) <==> !(Outdated(s, x, n) && r == s.phase.seen[n])
  {
    var r := LastRead(t.hist, |s.hist|, x.dir, n, seed);
    HeardIs(s, t, x, n, seed);
    var m := if r.at < t.began[x].at then t.began[x].at else r.at;
    forall i | m <= i < |t.log|
      ensures !(t.log[i].dir == x.dir && t.log[i].name == n)
    {
      if t.log[i].dir == x.dir && t.log[i].name == n {
        ChangeIsTold(s, t, x, n, seed, i);
      }
    }
    StatAtUnchanged(t.log, x.dir, n, m, |t.log|);
    StatAtPrefix(s.log, t.log, x.dir, n, s.began[x].at);
  }

  /** The copy of a directory. The listing begins at run[a], where the directory
      is registered, its descriptor means it, and it is not blind; it reads each
      name at some later moment. At a later quiescent moment, unless the
      registration ended without a word, the client has been told to re-read, or
      its copy of a name is true, for every name but those of which it last heard
      a read that the watcher held unsent when the listing began and that was
      outdated when the registration began: of those it is false. */
  lemma CopyIsTrue(run: seq<State>, a: nat, b: nat, x: Watch, seed: Name -> Read)
    requires IsRun(run) && a <= b < |run|
    requires x.dir != "" && Stands(run[a].reg, x) && x !in run[a].blind
    requires x !in run[b].ended && Quiescent(run[b])
    requires forall n :: |run[a].log| <= seed(n).at && ReadOk(run[b].log, x.dir, n, seed(n), |run[b].log|)
    ensures
      var s, t := run[a], run[b];
      || ToldToReread(t.hist, |s.hist|, x.dir)
      || forall n :: !IsTemp(n) ==>
           (LastRead(t.hist, |s.hist|, x.dir, n, seed(n)).stat == StatAt(t.log, x.dir, n, |t.log|) <==>
             !(Outdated(s, x, n) && LastRead(t.hist, |s.hist|, x.dir, n, seed(n)) == s.phase.seen[n]))
  {
    var s, t := run[a], run[b];
    RunKeepsReads(run, a);
    RunKeepsReads(run, b);
    RunLater(run, a, b);
    if !ToldToReread(t.hist, |s.hist|, x.dir) {
      forall n | !IsTemp(n)
        ensures LastRead(t.hist, |s.hist|, x.dir, n, seed(n)).stat == StatAt(t.log, x.dir, n, |t.log|) <==>
          !(Outdated(s, x, n) && LastRead(t.hist, |s.hist|, x.dir, n, seed(n)) == s.phase.seen[n])
      {
        assert Listing(s, t, x, n, seed(n));
        CopyOfName(s, t, x, n, seed(n));
      }
    }
  }
}
