/**
 Every run of the lane scheduler: no wakeup is lost, every job is popped once and
 in order, interactive work keeps its reserve, and a stopped pool drains.
 */
module SchedulerProofs {
  import opened Scheduler

  function Min(a: int, b: int): int { if a < b then a else b }

  /** How many jobs could start right now. */
  function Demand(b: Board): int
    requires Shaped(b)
  {
    Min(|b.q[0]|, Cap(0) - b.active[0]) + Min(|b.q[1]|, Cap(1) - b.active[1]) + Min(|b.q[2]|, Cap(2) - b.active[2])
  }

  ghost predicate SlotOk(s: State, l: nat)
    requires Sized(s) && l < 3
  {
    s.board.active[l] == Count(s.workers, Running(l)) <= Cap(l)
  }

  /** A lane's active figure counts the workers running it, within its cap. */
  ghost predicate SlotsOk(s: State) {
    && Sized(s) && |s.workers| == POOL_SIZE && Lanes(s.workers)
    && SlotOk(s, 0) && SlotOk(s, 1) && SlotOk(s, 2)
  }

  ghost predicate HistoryOk(s: State)
    requires Sized(s)
  {
    && s.pushed[0] == s.popped[0] + s.board.q[0]
    && s.pushed[1] == s.popped[1] + s.board.q[1]
    && s.pushed[2] == s.popped[2] + s.board.q[2]
  }

  ghost predicate ExitOk(s: State)
    requires Sized(s)
  {
    Count(s.workers, Exited) > 0 ==> s.board.stop && Empty(s.board)
  }

  /** No wakeup is lost: nobody sleeps, or everybody is about to be woken, or
      enough workers are up or being woken for all the work that could start. */
  ghost predicate ProgressOk(s: State)
    requires Sized(s)
  {
    || Count(s.workers, Asleep) == 0
    || s.alls > 0 || Count(s.workers, Notifying) > 0
    || Count(s.workers, Ready) + s.ones >= Demand(s.board)
  }

  function Busy(s: State): nat {
    Count(s.workers, Running(0)) + Count(s.workers, Running(1)) + Count(s.workers, Running(2)) + Count(s.workers, Notifying)
  }

  /** After stop, somebody who will notify everybody is still on the way for
      whoever sleeps. */
  ghost predicate StopOk(s: State) {
    s.board.stop && Count(s.workers, Asleep) > 0 ==> s.alls > 0 || Busy(s) > 0
  }

  ghost predicate Inv(s: State) {
    SlotsOk(s) && HistoryOk(s) && ExitOk(s) && ProgressOk(s) && StopOk(s)
  }

  // ---- Steps -------------------------------------------------------------

  predicate CountMoves(ws: seq<Worker>, ws': seq<Worker>, was: Worker, now: Worker, k: Worker) {
    Count(ws', k) == Count(ws, k) - (if was == k then 1 else 0) + (if now == k then 1 else 0)
  }

  /** One worker changes from ws[i] to x: every count follows. */
  lemma AllCounts(ws: seq<Worker>, i: nat, x: Worker)
    requires i < |ws|
    ensures
      var ws' := ws[i := x];
      && CountMoves(ws, ws', ws[i], x, Ready) && CountMoves(ws, ws', ws[i], x, Asleep)
      && CountMoves(ws, ws', ws[i], x, Running(0)) && CountMoves(ws, ws', ws[i], x, Running(1))
      && CountMoves(ws, ws', ws[i], x, Running(2))
      && CountMoves(ws, ws', ws[i], x, Notifying) && CountMoves(ws, ws', ws[i], x, Exited)
  {
    CountUpdate(ws, i, x, Ready);
    CountUpdate(ws, i, x, Asleep);
    CountUpdate(ws, i, x, Running(0));
    CountUpdate(ws, i, x, Running(1));
    CountUpdate(ws, i, x, Running(2));
    CountUpdate(ws, i, x, Notifying);
    CountUpdate(ws, i, x, Exited);
  }

  lemma PushKeeps(s: State, s': State, lane: nat, j: Job)
    requires Inv(s) && PushStep(s, s', lane, j)
    ensures Inv(s')
  {
  }

  lemma StopKeeps(s: State, s': State)
    requires Inv(s) && StopStep(s, s')
    ensures Inv(s')
  {
  }

  lemma WakeOneKeeps(s: State, s': State, w: nat)
    requires Inv(s) && (SpuriousStep(s, s', w) || NotifyOneStep(s, s', w))
    ensures Inv(s')
  {
    AllCounts(s.workers, w, Ready);
    CountPositive(s.workers, Asleep);
  }

  lemma StopNotifyKeeps(s: State, s': State)
    requires Inv(s) && StopNotifyStep(s, s')
    ensures Inv(s')
  {
    CountWoken(s.workers);
  }

  lemma NotifyAllKeeps(s: State, s': State, w: nat)
    requires Inv(s) && NotifyAllStep(s, s', w)
    ensures Inv(s')
  {
    AllCounts(s.workers, w, Ready);
    CountWoken(s.workers[w := Ready]);
  }

  lemma FinishKeeps(s: State, s': State, w: nat)
    requires Inv(s) && FinishStep(s, s', w)
    ensures Inv(s')
  {
    AllCounts(s.workers, w, Notifying);
  }

  lemma TakeKeeps(s: State, s': State, w: nat)
    requires Inv(s) && LookStep(s, s', w) && Pick(s.board) < 3
    ensures Inv(s')
  {
    var lane := Pick(s.board);
    AllCounts(s.workers, w, Running(lane));
    TakeLowers(s.board, lane);
    TakeHistory(s, s', w);
  }

  /** The job taken moves from its queue to the popped ones. */
  lemma TakeHistory(s: State, s': State, w: nat)
    requires Sized(s) && HistoryOk(s) && LookStep(s, s', w) && Pick(s.board) < 3
    ensures Sized(s') && HistoryOk(s')
  {
    var lane := Pick(s.board);
    assert s.board.q[lane] == [s.board.q[lane][0]] + s.board.q[lane][1..];
  }

  /** Taking a job lowers the demand by one at least. */
  lemma TakeLowers(b: Board, lane: nat)
    requires Shaped(b) && Runnable(b, lane)
    ensures Demand(Taken(b, lane)) <= Demand(b) - 1
  {
  }

  lemma RestKeeps(s: State, s': State, w: nat)
    requires Inv(s) && LookStep(s, s', w) && Pick(s.board) == 3
    ensures Inv(s')
  {
    AllCounts(s.workers, w, s'.workers[w]);
    assert !Runnable(s.board, 0) && !Runnable(s.board, 1) && !Runnable(s.board, 2);
    assert Demand(s.board) == 0;
  }

  lemma NextKeepsInv(s: State, s': State)
    requires Inv(s) && Next(s, s')
    ensures Inv(s')
  {
    if StopNotifyStep(s, s') {
      StopNotifyKeeps(s, s');
    } else if StopStep(s, s') {
      StopKeeps(s, s');
    } else if lane: nat, j :| PushStep(s, s', lane, j) {
      PushKeeps(s, s', lane, j);
    } else if w: nat :| SpuriousStep(s, s', w) || NotifyOneStep(s, s', w) {
      WakeOneKeeps(s, s', w);
    } else {
      var w: nat :| LookStep(s, s', w) || FinishStep(s, s', w) || NotifyAllStep(s, s', w);
      if FinishStep(s, s', w) {
        FinishKeeps(s, s', w);
      } else if NotifyAllStep(s, s', w) {
        NotifyAllKeeps(s, s', w);
      } else if Pick(s.board) < 3 {
        TakeKeeps(s, s', w);
      } else {
        RestKeeps(s, s', w);
      }
    }
  }

  // ---- Whole runs --------------------------------------------------------

  ghost predicate StepAt(run: seq<State>, i: nat)
    requires i + 1 < |run|
  {
    Next(run[i], run[i + 1])
  }

  ghost predicate IsRun(run: seq<State>) {
    run != [] && Init(run[0]) && forall i: nat :: i + 1 < |run| ==> StepAt(run, i)
  }

  lemma {:induction false} CountAbsent(ws: seq<Worker>, k: Worker)
    requires forall i :: 0 <= i < |ws| ==> ws[i] != k
    ensures Count(ws, k) == 0
  {
    CountPositive(ws, k);
  }

  lemma InitInv(s: State)
    requires Init(s)
    ensures Inv(s)
  {
    forall k | k != Ready {
      CountAbsent(s.workers, k);
    }
    CountTotal(s.workers);
  }

  /** In every reachable state no wakeup is lost, active counts what runs, and
      each lane's pushes are its pops, in order, followed by what is queued. */
  lemma {:induction false} RunKeepsInv(run: seq<State>, j: nat)
    requires IsRun(run) && j < |run|
    ensures Inv(run[j])
  {
    if j == 0 {
      InitInv(run[0]);
    } else {
      RunKeepsInv(run, j - 1);
      assert StepAt(run, j - 1);
      NextKeepsInv(run[j - 1], run[j]);
    }
  }

  /** Work that could start never waits beside a sleeping worker that nobody is
      about to wake. */
  lemma NoIdleWorker(run: seq<State>, j: nat)
    requires IsRun(run) && j < |run|
    requires run[j].ones == 0 && run[j].alls == 0
    requires Ready !in run[j].workers && Notifying !in run[j].workers && Asleep in run[j].workers
    ensures Sized(run[j]) && forall l: nat :: l < 3 ==> !Runnable(run[j].board, l)
  {
    RunKeepsInv(run, j);
    var s := run[j];
    CountPositive(s.workers, Ready);
    CountPositive(s.workers, Notifying);
    CountPositive(s.workers, Asleep);
    assert Demand(s.board) <= 0;
  }

  /** At least six of the sixteen workers never run normal or bulk work. */
  lemma InteractiveReserve(run: seq<State>, j: nat)
    requires IsRun(run) && j < |run|
    ensures Count(run[j].workers, Running(1)) <= NORMAL_SLOTS && Count(run[j].workers, Running(2)) <= BULK_SLOTS
    ensures |run[j].workers| - Count(run[j].workers, Running(1)) - Count(run[j].workers, Running(2)) >= 6
  {
    RunKeepsInv(run, j);
    assert SlotOk(run[j], 1) && SlotOk(run[j], 2);
  }

  /** Jobs of a lane are being run by as many workers as the lane allows. */
  predicate Saturated(s: State, lane: nat)
    requires lane < 3
  {
    Count(s.workers, Running(lane)) == [16, 8, 2][lane]
  }

  /** Strict priority: whenever a job is popped it is its lane's oldest, the lane
      had a slot, and every more urgent lane was empty or saturated. */
  lemma PoppedByPriority(run: seq<State>, j: nat, lane: nat)
    requires IsRun(run) && j + 1 < |run| && lane < 3
    requires Sized(run[j]) && Sized(run[j + 1]) && |run[j + 1].popped[lane]| > |run[j].popped[lane]|
    ensures
      var s, s' := run[j], run[j + 1];
      && s.board.q[lane] != [] && s'.popped[lane] == s.popped[lane] + [s.board.q[lane][0]]
      && Count(s.workers, Running(lane)) < [16, 8, 2][lane]
      && forall k: nat :: k < lane ==> s.board.q[k] == [] || Saturated(s, k)
  {
    RunKeepsInv(run, j);
    assert StepAt(run, j);
    PopIsPick(run[j], run[j + 1], lane);
  }

  lemma PopIsPick(s: State, s': State, lane: nat)
    requires Inv(s) && Next(s, s') && lane < 3 && Sized(s') && |s'.popped[lane]| > |s.popped[lane]|
    ensures s.board.q[lane] != [] && s'.popped[lane] == s.popped[lane] + [s.board.q[lane][0]]
    ensures Count(s.workers, Running(lane)) < [16, 8, 2][lane]
    ensures forall k: nat :: k < lane ==> s.board.q[k] == [] || Saturated(s, k)
  {
    var w: nat :| LookStep(s, s', w);
    assert SlotOk(s, 0) && SlotOk(s, 1) && SlotOk(s, 2);
  }

  lemma EmptyMeansPopped(s: State)
    requires Sized(s) && HistoryOk(s) && Empty(s.board)
    ensures s.popped == s.pushed
  {
    assert s.pushed[0] == s.popped[0] && s.pushed[1] == s.popped[1] && s.pushed[2] == s.popped[2];
  }

  /** A worker leaves only when every job ever pushed has been popped, exactly
      once and in lane order. */
  lemma ExitMeansDrained(run: seq<State>, j: nat)
    requires IsRun(run) && j < |run| && Exited in run[j].workers
    ensures run[j].board.stop && run[j].popped == run[j].pushed
  {
    RunKeepsInv(run, j);
    var s := run[j];
    CountPositive(s.workers, Exited);
    EmptyMeansPopped(s);
  }

  // ---- Draining ----------------------------------------------------------

  /** What a stopped pool still has to do. Every step the pool or a notifier
      takes on its own lowers it. */
  function Remaining(s: State): int
    requires Sized(s)
  {
    18 * (|s.board.q[0]| + |s.board.q[1]| + |s.board.q[2]|)
    + 19 * (Count(s.workers, Running(0)) + Count(s.workers, Running(1)) + Count(s.workers, Running(2)))
    + 18 * Count(s.workers, Notifying) + 2 * Count(s.workers, Ready) + Count(s.workers, Asleep)
    + 2 * s.ones + 17 * s.alls
  }

  lemma NotifyLowers(s: State, s': State)
    requires Inv(s) && (StopNotifyStep(s, s') || exists w: nat :: NotifyAllStep(s, s', w))
    ensures Sized(s') && Remaining(s') < Remaining(s)
  {
    if StopNotifyStep(s, s') {
      CountTotal(s.workers);
      CountWoken(s.workers);
    } else {
      var w: nat :| NotifyAllStep(s, s', w);
      NotifyAllLowers(s, s', w);
    }
  }

  lemma NotifyAllLowers(s: State, s': State, w: nat)
    requires Inv(s) && NotifyAllStep(s, s', w)
    ensures Sized(s') && Remaining(s') < Remaining(s)
  {
    CountTotal(s.workers);
    AllCounts(s.workers, w, Ready);
    CountWoken(s.workers[w := Ready]);
    CountPositive(s.workers, Notifying);
  }

  lemma LookLowers(s: State, s': State, w: nat)
    requires Inv(s) && LookStep(s, s', w)
    ensures Sized(s') && Remaining(s') < Remaining(s)
  {
    AllCounts(s.workers, w, s'.workers[w]);
  }

  lemma WorkLowers(s: State, s': State)
    requires Inv(s) && WorkStep(s, s')
    ensures Sized(s') && Remaining(s') < Remaining(s)
  {
    if StopNotifyStep(s, s') || exists w: nat :: NotifyAllStep(s, s', w) {
      NotifyLowers(s, s');
    } else if w: nat :| LookStep(s, s', w) {
      LookLowers(s, s', w);
    } else {
      var w: nat :| NotifyOneStep(s, s', w) || FinishStep(s, s', w);
      OneLowers(s, s', w);
    }
  }

  lemma OneLowers(s: State, s': State, w: nat)
    requires Inv(s) && (NotifyOneStep(s, s', w) || FinishStep(s, s', w))
    ensures Sized(s') && Remaining(s') < Remaining(s)
  {
    AllCounts(s.workers, w, if FinishStep(s, s', w) then Notifying else Ready);
  }

  ghost predicate Drains(run: seq<State>) {
    run != [] && Inv(run[0]) && forall i: nat :: i + 1 < |run| ==> DrainAt(run, i)
  }

  ghost predicate DrainAt(run: seq<State>, i: nat)
    requires i + 1 < |run|
  {
    WorkStep(run[i], run[i + 1])
  }

  /** Left alone, the pool comes to rest within a number of steps known in
      advance. */
  lemma {:induction false} DrainBound(run: seq<State>)
    requires Drains(run)
    ensures Inv(run[|run| - 1]) && |run| - 1 + Remaining(run[|run| - 1]) <= Remaining(run[0])
    decreases |run|
  {
    if |run| > 1 {
      var init := run[..|run| - 1];
      forall i: nat | i + 1 < |init|
        ensures DrainAt(init, i)
      {
        assert DrainAt(run, i);
      }
      DrainBound(init);
      assert DrainAt(run, |run| - 2);
      NextKeepsInv(run[|run| - 2], run[|run| - 1]);
      WorkLowers(run[|run| - 2], run[|run| - 1]);
    }
  }

  /** Someone can move as long as a worker is up, runs, or has to notify. */
  lemma CanMove(s: State, w: nat)
    requires Inv(s) && w < |s.workers| && s.workers[w] != Asleep && s.workers[w] != Exited
    ensures exists s' :: WorkStep(s, s')
  {
    match s.workers[w]
    case Ready =>
      var lane := Pick(s.board);
      var s' := if lane < 3 then
        s.(board := Taken(s.board, lane), workers := s.workers[w := Running(lane)],
           popped := s.popped[lane := s.popped[lane] + [s.board.q[lane][0]]])
      else
        s.(workers := s.workers[w := if s.board.stop && Empty(s.board) then Exited else Asleep]);
      assert LookStep(s, s', w);
      assert WorkStep(s, s');
    case Running(lane) =>
      CountPositive(s.workers, Running(lane));
      var s' := s.(board := Released(s.board, lane), workers := s.workers[w := Notifying]);
      assert FinishStep(s, s', w);
      assert WorkStep(s, s');
    case Notifying =>
      var s' := s.(workers := Woken(s.workers[w := Ready]));
      assert NotifyAllStep(s, s', w);
      assert WorkStep(s, s');
  }

  lemma CanNotify(s: State)
    requires s.alls > 0
    ensures exists s' :: WorkStep(s, s')
  {
    var s' := s.(alls := s.alls - 1, workers := Woken(s.workers));
    assert StopNotifyStep(s, s');
    assert WorkStep(s, s');
  }

  /** After stop() nobody sleeps forever: a state in which nothing can move is
      one in which every worker has left and every job was popped. */
  lemma RestIsDrained(s: State)
    requires Inv(s) && s.board.stop && forall s' :: !WorkStep(s, s')
    ensures forall w :: 0 <= w < |s.workers| ==> s.workers[w] == Exited
    ensures s.popped == s.pushed
  {
    if s.alls > 0 {
      CanNotify(s);
    }
    forall w: nat | w < |s.workers|
      ensures s.workers[w] == Asleep || s.workers[w] == Exited
    {
      if s.workers[w] != Asleep && s.workers[w] != Exited {
        CanMove(s, w);
      }
    }
    forall k | k != Asleep && k != Exited {
      CountAbsent(s.workers, k);
    }
    CountPositive(s.workers, Asleep);
    CountPositive(s.workers, Exited);
    assert s.workers[0] == Exited;
    EmptyMeansPopped(s);
  }
}
