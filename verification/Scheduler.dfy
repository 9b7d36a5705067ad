/**
 The lane scheduler (agent/main.cpp, WorkQueue and workerLoop): sixteen workers
 over three lanes with caps 16, 8 and 2, strict priority, one condition
 variable. push, finish and stop notify after they released the lock, so each is
 two steps.
 */
module Scheduler {
  const POOL_SIZE: nat := 16
  const NORMAL_SLOTS: nat := 8
  const BULK_SLOTS: nat := 2

  type Job = int

  function Cap(lane: nat): nat {
    if lane == 1 then NORMAL_SLOTS else if lane == 2 then BULK_SLOTS else POOL_SIZE
  }

  /** What the mutex protects. Lane 0 is interactive, 1 normal, 2 bulk. */
  datatype Board = Board(q: seq<seq<Job>>, active: seq<nat>, stop: bool)

  predicate Shaped(b: Board) {
    |b.q| == 3 && |b.active| == 3
  }

  predicate Runnable(b: Board, lane: nat)
    requires Shaped(b)
  {
    lane < 3 && b.q[lane] != [] && b.active[lane] < Cap(lane)
  }

  predicate Empty(b: Board)
    requires Shaped(b)
  {
    b.q[0] == [] && b.q[1] == [] && b.q[2] == []
  }

  /** The lane a worker takes from: the most urgent runnable one, 3 for none. */
  function Pick(b: Board): nat
    requires Shaped(b)
  {
    if Runnable(b, 0) then 0 else if Runnable(b, 1) then 1 else if Runnable(b, 2) then 2 else 3
  }

  function Pushed(b: Board, lane: nat, j: Job): Board
    requires Shaped(b) && lane < 3
  {
    b.(q := b.q[lane := b.q[lane] + [j]])
  }

  function Taken(b: Board, lane: nat): Board
    requires Shaped(b) && Runnable(b, lane)
  {
    b.(q := b.q[lane := b.q[lane][1..]], active := b.active[lane := b.active[lane] + 1])
  }

  function Released(b: Board, lane: nat): Board
    requires Shaped(b) && lane < 3 && b.active[lane] > 0
  {
    b.(active := b.active[lane := b.active[lane] - 1])
  }

  // ---- The queue object --------------------------------------------------

  /** The lane has a job, and fewer running than 16, 8 or 2. */
  predicate Startable(q: seq<seq<Job>>, active: seq<nat>, lane: nat)
    requires |q| == 3 && |active| == 3 && lane < 3
  {
    q[lane] != [] && active[lane] < [16, 8, 2][lane]
  }

  datatype Outcome = Run(job: Job, lane: nat) | Leave | Wait

  class WorkQueue {
    var q: seq<seq<Job>>
    var active: seq<nat>
    var stopped: bool

    ghost function View(): Board
      reads this
    {
      Board(q, active, stopped)
    }

    ghost predicate Valid()
      reads this
    {
      Shaped(View())
    }

    constructor ()
      ensures Valid() && View() == Board([[], [], []], [0, 0, 0], false)
    {
      q, active, stopped := [[], [], []], [0, 0, 0], false;
    }

    method Push(lane: nat, j: Job)
      requires Valid() && lane < 3
      modifies this
      ensures Valid() && View() == Pushed(old(View()), lane, j)
    {
      q := q[lane := q[lane] + [j]];
    }

    /** pickRunnableLocked: first lane with work and a free slot. */
    method PickRunnable() returns (lane: nat)
      requires Valid()
      ensures lane == Pick(View())
      ensures lane <= 3 && (lane < 3 ==> Startable(q, active, lane))
      ensures forall k: nat :: k < lane && k < 3 ==> !Startable(q, active, k)
    {
      lane := 0;
      while lane < 3 && !(q[lane] != [] && active[lane] < Cap(lane))
        invariant lane <= 3
        invariant forall i: nat :: i < lane ==> !Runnable(View(), i)
      {
        lane := lane + 1;
      }
    }

    /** One pass of pop's loop, up to where it would wait. */
    method TryPop() returns (out: Outcome)
      requires Valid()
      modifies this
      ensures Valid()
      ensures
        var b, lane := old(View()), Pick(old(View()));
        if lane < 3 then out == Run(b.q[lane][0], lane) && View() == Taken(b, lane)
        else View() == b && out == (if b.stop && Empty(b) then Leave else Wait)
      ensures
        if out.Run? then
          && out.lane < 3 && old(Startable(q, active, out.lane)) && out.job == old(q)[out.lane][0]
          && forall k: nat :: k < out.lane ==> !old(Startable(q, active, k))
        else forall k: nat :: k < 3 ==> !old(Startable(q, active, k))
    {
      var lane := PickRunnable();
      if lane < 3 {
        out := Run(q[lane][0], lane);
        q := q[lane := q[lane][1..]];
        active := active[lane := active[lane] + 1];
      } else if stopped && q[0] == [] && q[1] == [] && q[2] == [] {
        out := Leave;
      } else {
        out := Wait;
      }
    }

    method Finish(lane: nat)
      requires Valid() && lane < 3 && active[lane] > 0
      modifies this
      ensures Valid() && View() == Released(old(View()), lane)
    {
      active := active[lane := active[lane] - 1];
    }

    method Stop()
      requires Valid()
      modifies this
      ensures Valid() && View() == old(View()).(stop := true)
    {
      stopped := true;
    }
  }

  // ---- The pool ----------------------------------------------------------

  /** Ready: about to take the lock and look. Notifying: finish() released the
      lock and has not called notify_all yet. */
  datatype Worker = Ready | Asleep | Running(lane: nat) | Notifying | Exited

  datatype State = State(
    board: Board,
    workers: seq<Worker>,
    ones: nat,                // pushes that still have to notify one
    alls: nat,                // stops that still have to notify all
    pushed: seq<seq<Job>>,    // per lane, every job pushed, in order
    popped: seq<seq<Job>>)    // per lane, every job popped, in order

  predicate Init(s: State) {
    && s.board == Board([[], [], []], [0, 0, 0], false)
    && |s.workers| == POOL_SIZE && (forall i :: 0 <= i < |s.workers| ==> s.workers[i] == Ready)
    && s.ones == 0 && s.alls == 0 && s.pushed == [[], [], []] && s.popped == [[], [], []]
  }

  function Woken(ws: seq<Worker>): (r: seq<Worker>)
    ensures |r| == |ws|
    ensures forall i :: 0 <= i < |ws| ==> r[i] == if ws[i] == Asleep then Ready else ws[i]
  {
    if ws == [] then [] else [if ws[0] == Asleep then Ready else ws[0]] + Woken(ws[1..])
  }

  predicate Sized(s: State) {
    Shaped(s.board) && |s.pushed| == 3 && |s.popped| == 3
  }

  predicate PushStep(s: State, s': State, lane: nat, j: Job) {
    && Sized(s) && lane < 3 && !s.board.stop
    && s' == s.(board := Pushed(s.board, lane, j), ones := s.ones + 1,
                pushed := s.pushed[lane := s.pushed[lane] + [j]])
  }

  predicate StopStep(s: State, s': State) {
    && !s.board.stop
    && s' == s.(board := s.board.(stop := true), alls := s.alls + 1)
  }

  /** A wakeup nobody asked for. */
  predicate SpuriousStep(s: State, s': State, w: nat) {
    && w < |s.workers| && s.workers[w] == Asleep
    && s' == s.(workers := s.workers[w := Ready])
  }

  predicate NotifyOneStep(s: State, s': State, w: nat) {
    && s.ones > 0 && w < |s.workers|
    && (Asleep in s.workers ==> s.workers[w] == Asleep)
    && s' == s.(ones := s.ones - 1, workers := if s.workers[w] == Asleep then s.workers[w := Ready] else s.workers)
  }

  predicate StopNotifyStep(s: State, s': State) {
    && s.alls > 0
    && s' == s.(alls := s.alls - 1, workers := Woken(s.workers))
  }

  predicate LookStep(s: State, s': State, w: nat) {
    && Sized(s) && w < |s.workers| && s.workers[w] == Ready
    && var lane := Pick(s.board);
       if lane < 3 then
         s' == s.(board := Taken(s.board, lane), workers := s.workers[w := Running(lane)],
                  popped := s.popped[lane := s.popped[lane] + [s.board.q[lane][0]]])
       else
         s' == s.(workers := s.workers[w := if s.board.stop && Empty(s.board) then Exited else Asleep])
  }

  predicate FinishStep(s: State, s': State, w: nat) {
    && Sized(s) && w < |s.workers| && s.workers[w].Running? && s.workers[w].lane < 3
    && s.board.active[s.workers[w].lane] > 0
    && s' == s.(board := Released(s.board, s.workers[w].lane), workers := s.workers[w := Notifying])
  }

  predicate NotifyAllStep(s: State, s': State, w: nat) {
    && w < |s.workers| && s.workers[w] == Notifying
    && s' == s.(workers := Woken(s.workers[w := Ready]))
  }

  /** A step the pool or a notifier takes on its own. */
  ghost predicate WorkStep(s: State, s': State) {
    || StopNotifyStep(s, s')
    || exists w: nat :: NotifyOneStep(s, s', w) || LookStep(s, s', w) || FinishStep(s, s', w) || NotifyAllStep(s, s', w)
  }

  ghost predicate Next(s: State, s': State) {
    || WorkStep(s, s')
    || (exists lane: nat, j :: PushStep(s, s', lane, j))
    || StopStep(s, s')
    || (exists w: nat :: SpuriousStep(s, s', w))
  }

  // ---- Counting workers --------------------------------------------------

  function Count(ws: seq<Worker>, k: Worker): nat {
    if ws == [] then 0 else (if ws[0] == k then 1 else 0) + Count(ws[1..], k)
  }

  lemma {:induction false} CountUpdate(ws: seq<Worker>, i: nat, x: Worker, k: Worker)
    requires i < |ws|
    ensures Count(ws[i := x], k) == Count(ws, k) - (if ws[i] == k then 1 else 0) + (if x == k then 1 else 0)
  {
    if i == 0 {
      assert ws[i := x][1..] == ws[1..];
    } else {
      assert ws[i := x][1..] == ws[1..][i - 1 := x];
      CountUpdate(ws[1..], i - 1, x, k);
    }
  }

  lemma {:induction false} CountPositive(ws: seq<Worker>, k: Worker)
    ensures Count(ws, k) > 0 <==> k in ws
  {
    if ws != [] {
      assert ws == [ws[0]] + ws[1..];
      CountPositive(ws[1..], k);
    }
  }

  lemma {:induction false} CountWoken(ws: seq<Worker>)
    ensures Count(Woken(ws), Asleep) == 0
    ensures Count(Woken(ws), Ready) == Count(ws, Ready) + Count(ws, Asleep)
    ensures forall k :: k != Asleep && k != Ready ==> Count(Woken(ws), k) == Count(ws, k)
  {
    if ws != [] {
      CountWoken(ws[1..]);
    }
  }

  predicate Lanes(ws: seq<Worker>) {
    forall i :: 0 <= i < |ws| && ws[i].Running? ==> ws[i].lane < 3
  }

  lemma {:induction false} CountTotal(ws: seq<Worker>)
    requires Lanes(ws)
    ensures Count(ws, Ready) + Count(ws, Asleep) + Count(ws, Running(0)) + Count(ws, Running(1)) + Count(ws, Running(2))
      + Count(ws, Notifying) + Count(ws, Exited) == |ws|
  {
    if ws != [] {
      CountTotal(ws[1..]);
    }
  }
}
