/**
 The client's copy judged on what has been transmitted: once the interactive lane
 is empty, the notifications on the wire are those enqueued, in their order, so
 what Replica says of frames enqueued holds of frames received.
 */
module WireCopy {
  import opened Wrappers
  import opened Lanes
  import opened WatchRegistry
  import opened DirWatch
  import opened Announcements
  import opened BarrierOrder
  import opened WatchHistory
  import opened Replica

  /** The last state of (d, n) on the wire among frames enqueued since `from`. */
  function LastHeard(wire: seq<nat>, hist: seq<Sent>, from: nat, d: Dir, n: Name, seed: Read): Read
    decreases |wire|
  {
    if wire == [] then seed
    else
      var i := wire[|wire| - 1];
      if from <= i < |hist| && Says(hist[i], d, n) then hist[i].frame.note.seen[n]
      else LastHeard(wire[..|wire| - 1], hist, from, d, n, seed)
  }

  predicate ToldOnWire(wire: seq<nat>, hist: seq<Sent>, from: nat, d: Dir) {
    exists p :: 0 <= p < |wire| && from <= wire[p] < |hist| && IsReset(hist[wire[p]].frame, d)
  }

  // ---- Every frame goes out once -----------------------------------------

  lemma SendsConserves(s: State, s': State)
    requires Conserved(s.writer, |s.hist|) && Sends(s, s')
    ensures Conserved(s'.writer, |s'.hist|)
  {
    if s'.hist == s.hist {
      if s'.writer != s.writer { TransmitConserves(s.writer, |s.hist|); }
    } else {
      EnqueueConserves(s.writer, s'.lanes[|s.lanes|], |s.hist|);
    }
  }

  lemma {:induction false} RunConserves(run: seq<State>, j: nat)
    requires IsRun(run) && j < |run|
    ensures Conserved(run[j].writer, |run[j].hist|)
  {
    if j == 0 {
      InitConserves(run[0]);
    } else {
      RunConserves(run, j - 1);
      StepOfRun(run, j - 1);
      SendsConserves(run[j - 1], run[j]);
    }
  }

  lemma InitConserves(s: State)
    requires Init(s)
    ensures Conserved(s.writer, |s.hist|)
  {
  }

  // ---- The wire and the frames enqueued ----------------------------------

  /** The wire of a state whose interactive lane is empty. */
  ghost predicate Settled(s: State) {
    WireOk(s) && Conserved(s.writer, |s.hist|) && s.writer.q0 == []
  }

  lemma NewsIsOut(s: State, k: nat) returns (p: nat)
    requires Settled(s) && k < |s.hist| && s.hist[k].frame.Changed?
    ensures p < |s.writer.wire| && s.writer.wire[p] == k
  {
    assert s.lanes[k] == Interactive && k in s.writer.wire;
    p :| 0 <= p < |s.writer.wire| && s.writer.wire[p] == k;
  }

  lemma {:induction false} LastHeardIs(wire: seq<nat>, hist: seq<Sent>, from: nat, d: Dir, n: Name, seed: Read) returns (p: int)
    ensures -1 <= p < |wire|
    ensures p == -1 ==> LastHeard(wire, hist, from, d, n, seed) == seed
    ensures p != -1 ==> from <= wire[p] < |hist| && Says(hist[wire[p]], d, n)
    ensures p != -1 ==> LastHeard(wire, hist, from, d, n, seed) == hist[wire[p]].frame.note.seen[n]
    ensures forall q :: p < q < |wire| && from <= wire[q] < |hist| ==> !Says(hist[wire[q]], d, n)
    decreases |wire|
  {
    if wire == [] {
      p := -1;
    } else {
      var i := wire[|wire| - 1];
      if from <= i < |hist| && Says(hist[i], d, n) {
        p := |wire| - 1;
      } else {
        p := LastHeardIs(wire[..|wire| - 1], hist, from, d, n, seed);
      }
    }
  }

  lemma HeardIsRead(s: State, from: nat, d: Dir, n: Name, seed: Read)
    requires Settled(s)
    ensures LastHeard(s.writer.wire, s.hist, from, d, n, seed) == LastRead(s.hist, from, d, n, seed)
  {
    var k := LastReadIs(s.hist, from, d, n, seed);
    var p := LastHeardIs(s.writer.wire, s.hist, from, d, n, seed);
    if k != -1 {
      var q := NewsIsOut(s, k);
      if q < p {
        InteractiveInOrder(s.writer, s.lanes, q, p);
      }
    }
  }

  lemma ToldIsOut(s: State, from: nat, d: Dir)
    requires Settled(s)
    ensures ToldOnWire(s.writer.wire, s.hist, from, d) <==> ToldToReread(s.hist, from, d)
  {
    if ToldToReread(s.hist, from, d) {
      var k :| from <= k < |s.hist| && IsReset(s.hist[k].frame, d);
      var p := NewsIsOut(s, k);
    }
  }

  // ---- The copy ----------------------------------------------------------

  /** Replica.CopyIsTrue on the wire: the interactive lane is empty, and the copy
      and the resets are those of the frames transmitted. */
  lemma CopyOnWireIsTrue(run: seq<State>, a: nat, b: nat, x: Watch, seed: Name -> Read)
    requires IsRun(run) && a <= b < |run|
    requires x.dir != "" && Stands(run[a].reg, x) && x !in run[a].blind
    requires x !in run[b].ended && Quiescent(run[b]) && run[b].writer.q0 == []
    requires forall n :: |run[a].log| <= seed(n).at && ReadOk(run[b].log, x.dir, n, seed(n), |run[b].log|)
    ensures
      var s, t := run[a], run[b];
      || ToldOnWire(t.writer.wire, t.hist, |s.hist|, x.dir)
      || forall n :: !IsTemp(n) ==>
           (LastHeard(t.writer.wire, t.hist, |s.hist|, x.dir, n, seed(n)).stat == StatAt(t.log, x.dir, n, |t.log|) <==>
             !(Outdated(s, x, n) && LastHeard(t.writer.wire, t.hist, |s.hist|, x.dir, n, seed(n)) == s.phase.seen[n]))
  {
    CopyIsTrue(run, a, b, x, seed);
    RunKeepsOrder(run, b);
    RunConserves(run, b);
    ToldIsOut(run[b], |run[a].hist|, x.dir);
    forall n
      ensures LastHeard(run[b].writer.wire, run[b].hist, |run[a].hist|, x.dir, n, seed(n))
           == LastRead(run[b].hist, |run[a].hist|, x.dir, n, seed(n))
    {
      HeardIsRead(run[b], |run[a].hist|, x.dir, n, seed(n));
    }
  }
}
