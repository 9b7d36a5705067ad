/**
 A barrier ticket is completed: the pass that a wakeup starts serves every ticket
 asked by then, and a complete run in which a reply follows its announcement.
 */
module BarrierServed {
  import opened Wrappers
  import opened Lanes
  import opened WatchRegistry
  import opened DirWatch
  import opened Announcements
  import opened BarrierOrder
  import opened WatchHistory
  import opened WatchGaps

  /** The watcher is in a pass that will complete the tickets up to `ticket`. */
  predicate Serving(p: Phase, ticket: nat) {
    !p.Polling? && !p.Waking? && !p.Exited? && p.bar == ticket
  }

  lemma EnvKeepsPass(s: State, s': State)
    requires EnvStep(s, s')
    ensures s'.phase == s.phase && s'.done == s.done
  {
    if AsideStep(s, s') {
      AsideDone(s, s');
    } else if d, tell :| Dropped(s, s', d, tell) {
      DroppedSends(s, s', d, tell);
    } else if d, w :| BeginWatch(s, s', d, w) {
      if s' != Begun(s, d, w) { DroppedSends(Begun(s, d, w), s', s.reg.order[0], true); }
    } else {
      OtherDone(s, s');
    }
  }

  lemma AsideDone(s: State, s': State)
    requires AsideStep(s, s')
    ensures s'.phase == s.phase && s'.done == s.done
  {
    AsideIs(s, s');
  }

  lemma OtherDone(s: State, s': State)
    requires || (exists d, n, v :: FsChange(s, s', d, n, v)) || (exists t, lane :: SendReply(s, s', t, lane))
             || (exists lane :: SendOther(s, s', lane))
    ensures s'.phase == s.phase && s'.done == s.done
  {
  }

  /** A pass goes on with its tickets, or ends with them completed. */
  ghost predicate GoesOn(s: State, s': State, ticket: nat) {
    if Serving(s'.phase, ticket) then s'.done == s.done else s'.phase == Polling && s'.done >= ticket && s'.done >= s.done
  }

  lemma DropsGoOn(s: State, s': State, ticket: nat)
    requires Serving(s.phase, ticket)
    requires (exists d :: GoneStep(s, s', d)) || (exists d, busy :: DirStep(s, s', d, busy))
    ensures GoesOn(s, s', ticket)
  {
    if d :| GoneStep(s, s', d) {
      DroppedSends(s.(hold := s'.hold), s', d, true);
    } else {
      var d, busy :| DirStep(s, s', d, busy);
      if busy && d in s.reg.byDir {
        DroppedSends(s.(phase := s'.phase, reg := Consult(s.reg, d)), s', d, true);
      }
    }
  }

  lemma PassGoesOn(s: State, s': State, ticket: nat)
    requires Serving(s.phase, ticket) && ticket > 0
    requires || (exists k :: ReadStep(s, s', k)) || DigestStep(s, s') || DrainedStep(s, s') || OverflowStep(s, s')
             || GoneDoneStep(s, s') || ResetStep(s, s') || (exists n :: StatStep(s, s', n)) || EntriesStep(s, s')
             || PassDoneStep(s, s')
    ensures GoesOn(s, s', ticket)
  {
  }

  lemma StepGoesOn(s: State, s': State, ticket: nat)
    requires Serving(s.phase, ticket) && ticket > 0 && Next(s, s')
    ensures GoesOn(s, s', ticket)
  {
    if EnvStep(s, s') {
      EnvKeepsPass(s, s');
    } else if WatcherStep(s, s') {
      if (exists d :: GoneStep(s, s', d)) || (exists d, busy :: DirStep(s, s', d, busy)) {
        DropsGoOn(s, s', ticket);
      } else {
        PassGoesOn(s, s', ticket);
      }
    }
  }

  /** From a moment of the pass to its end, the tickets are still being served. */
  lemma {:induction false} PassEndsServed(run: seq<State>, i: nat, j: nat, ticket: nat)
    requires IsRun(run) && i < j < |run| && Serving(run[i].phase, ticket) && ticket > 0
    requires run[j].phase == Polling && forall k :: i <= k < j ==> run[k].phase != Polling
    ensures run[j].done >= ticket
    decreases j - i
  {
    RunSteps(run, i);
    StepGoesOn(run[i], run[i + 1], ticket);
    if i + 1 < j {
      PassEndsServed(run, i + 1, j, ticket);
    }
  }

  lemma WakeServes(s: State, s': State)
    requires Next(s, s') && s.phase == Waking && s'.phase != Waking && !s.stopping
    ensures s'.phase == Draining(|s.asked|)
  {
    if EnvStep(s, s') {
      EnvKeepsPass(s, s');
    }
  }

  /** In every run: the watcher was woken and goes to work at i, not told to stop.
      When it next comes to rest, every ticket asked by i has been completed. */
  lemma WakeupsCompleteTickets(run: seq<State>, i: nat, j: nat)
    requires IsRun(run) && i + 1 < j < |run|
    requires run[i].phase == Waking && run[i + 1].phase != Waking && !run[i].stopping
    requires run[j].phase == Polling && forall k :: i < k < j ==> run[k].phase != Polling
    ensures run[j].done >= |run[i].asked|
  {
    RunSteps(run, i);
    WakeServes(run[i], run[i + 1]);
    if |run[i].asked| > 0 {
      PassEndsServed(run, i + 1, j, |run[i].asked|);
    }
  }

  // ---- One ticket from asking to reply -----------------------------------

  /** A change of D is queued, and a handler has asked for a barrier. */
  const ASKED: State := CHANGED.(asked := [1], wake := 1)

  const GATHERED: State := HELD.(asked := [1], wake := 0)

  lemma ToGathered()
    ensures Leads(START, GATHERED.(phase := Draining(1)))
  {
    ToChanged();
    assert D in CHANGED.reg.byDir;
    assert AskBarrier(CHANGED, ASKED);
    ThenEnv(START, CHANGED, ASKED);
    var s1 := ASKED.(wake := 0, phase := Waking);
    assert PollStep(ASKED, s1);
    ThenWatcher(START, ASKED, s1);
    var s2 := s1.(phase := Draining(1));
    assert WakeStep(s1, s2);
    ThenWatcher(START, s1, s2);
    Gathers(s2);
  }

  lemma Gathers(s2: State)
    requires Leads(START, s2) && s2 == ASKED.(wake := 0, phase := Draining(1))
    ensures Leads(START, GATHERED.(phase := Draining(1)))
  {
    var s3 := s2.(queue := [], phase := Buffered(1, [Named(0, N)]));
    assert s2.queue[..1] == [Named(0, N)] && s2.queue[1..] == [];
    assert ReadStep(s2, s3, 1);
    ThenWatcher(START, s2, s3);
    assert AbsorbAll(NOTHING, CHANGED.reg.byWd, [Named(0, N)]) == HELD.hold;
    assert DigestStep(s3, GATHERED.(phase := Draining(1)));
    ThenWatcher(START, s3, GATHERED.(phase := Draining(1)));
  }

  lemma ToFlushing()
    ensures Leads(START, GATHERED.(phase := Statting(1, 1, {}, D, {N}, map[])))
  {
    ToGathered();
    var s0 := GATHERED.(phase := Draining(1));
    var s1 := GATHERED.(phase := FlushOverflow(1, 1));
    assert DrainedStep(s0, s1);
    ThenWatcher(START, s0, s1);
    var s2 := GATHERED.(phase := FlushGone(1, 1));
    assert OverflowStep(s1, s2);
    ThenWatcher(START, s1, s2);
    var s3 := GATHERED.(phase := FlushDirs(1, 1, {D}));
    assert GATHERED.hold.pending.Keys == {D};
    assert GoneDoneStep(s2, s3);
    ThenWatcher(START, s2, s3);
    var s4 := GATHERED.(phase := Statting(1, 1, {}, D, {N}, map[]));
    assert {D} - {D} == {};
    assert DirStep(s3, s4, D, false);
    ThenWatcher(START, s3, s4);
  }

  const NEWS: Frame := Changed(Entries(D, map[N := Read(Entry(1), 1)]))

  /** The change has been announced and the ticket completed. */
  const SERVED: State := Send(GATHERED.(hold := NOTHING, done := 1, phase := Polling), Interactive, NEWS)

  lemma ToServed()
    ensures Leads(START, SERVED)
  {
    ToFlushing();
    var s4 := GATHERED.(phase := Statting(1, 1, {}, D, {N}, map[]));
    var s5 := GATHERED.(phase := Statting(1, 1, {}, D, {}, map[N := Read(Entry(1), 1)]));
    assert {N} - {N} == {} && StatAt(GATHERED.log, D, N, 1) == Entry(1);
    assert s4.phase.seen[N := Read(Entry(1), 1)] == s5.phase.seen;
    assert StatStep(s4, s5, N);
    ThenWatcher(START, s4, s5);
    var s6 := SERVED.(hold := GATHERED.hold, done := 0, phase := FlushDirs(1, 1, {}));
    assert EntriesStep(s5, s6);
    ThenWatcher(START, s5, s6);
    assert PassDoneStep(s6, SERVED);
    ThenWatcher(START, s6, SERVED);
  }

  /** The handler replies, in any lane, and both frames go out. */
  lemma ReplyFollowsNews(lane: Lane) returns (s: State)
    ensures Leads(START, s) && s.asked == [1] && s.done == 1 && s.log == [Change(D, N, Entry(1), Some(0))] && Obliged(s, 0)
    ensures s.hist == [Sent(NEWS, 1), Sent(Reply(1), 1)] && s.writer.wire == [0, 1]
    ensures Covers(s.hist[0], D, N, 0)
  {
    var s1 := ToReplied(lane);
    TwoGoOut(lane);
    s := TransmitTwice(s1);
  }

  lemma ToReplied(lane: Lane) returns (s: State)
    ensures Leads(START, s) && s.asked == [1] && s.done == 1 && s.log == [Change(D, N, Entry(1), Some(0))] && Obliged(s, 0)
    ensures s.hist == [Sent(NEWS, 1), Sent(Reply(1), 1)] && s.writer == Queues([0], [], [], []).Enqueue(lane, 1)
  {
    ToServed();
    s := Send(SERVED, lane, Reply(1));
    assert SendReply(SERVED, s, 1, lane);
    ThenEnv(START, SERVED, s);
  }

  lemma TransmitTwice(s1: State) returns (s: State)
    requires Leads(START, s1) && s1.writer.AnyReady() && s1.writer.Transmit().AnyReady()
    ensures Leads(START, s) && s == s1.(writer := s1.writer.Transmit().Transmit())
  {
    var s2 := s1.(writer := s1.writer.Transmit());
    assert WriterStep(s1, s2);
    ThenEnv(START, s1, s2);
    s := s2.(writer := s2.writer.Transmit());
    assert WriterStep(s2, s);
    ThenEnv(START, s2, s);
  }

  lemma TwoGoOut(lane: Lane)
    ensures
      var q := Queues([0], [], [], []).Enqueue(lane, 1);
      q.AnyReady() && q.Transmit().AnyReady() && q.Transmit().Transmit().wire == [0, 1]
  {
  }
}
