/**
 The barrier's promise (agent/main.cpp, DirWatcher::barrier): a handler that
 waited for its ticket replies after every earlier change was announced, and the
 announcement is ahead of the reply on the wire, whatever lane the reply takes.
 */
module BarrierOrder {
  import opened Lanes
  import opened WatchRegistry
  import opened DirWatch
  import opened Announcements

  /** Every reply sent so far came after what its ticket covers. */
  ghost predicate RepliesOk(s: State) {
    forall k, i: nat ::
      0 <= k < |s.hist| && s.hist[k].frame.Reply? && Obliged(s, i) ==>
        && 1 <= s.hist[k].frame.ticket <= |s.asked|
        && (i < Asked(s.asked, s.hist[k].frame.ticket) ==> Said(s.hist[..k], s.log[i].dir, s.log[i].name, i))
  }

  ghost predicate WireOk(s: State) {
    && |s.lanes| == |s.hist|
    && Ordered(s.writer, s.lanes)
    && (forall k :: 0 <= k < |s.hist| && s.hist[k].frame.Changed? ==> s.lanes[k] == Interactive)
    && (forall k :: 0 <= k < |s.hist| && s.hist[k].frame.Reply? ==> 1 <= s.hist[k].frame.ticket <= s.done)
  }

  lemma WireKept(s: State, s': State)
    requires WireOk(s) && Extends(s, s') && Sends(s, s')
    ensures WireOk(s')
  {
    if s'.hist == s.hist {
      if s'.writer != s.writer {
        TransmitKeepsOrdered(s.writer, s.lanes);
      }
    } else {
      EnqueueKeepsOrdered(s.writer, s.lanes, s'.lanes[|s.lanes|]);
    }
  }

  lemma OlderTicket(s: State, t: nat)
    requires TicketOk(s.asked, s.done, s.phase, |s.log|) && 1 <= t <= s.done
    ensures Asked(s.asked, t) <= Asked(s.asked, s.done)
  {
  }

  lemma ReplyKept(s: State, s': State, k: nat, i: nat)
    requires Inv(s) && Inv(s') && RepliesOk(s) && WireOk(s) && Extends(s, s') && Sends(s, s')
    requires k < |s'.hist| && s'.hist[k].frame.Reply? && Obliged(s', i)
    ensures 1 <= s'.hist[k].frame.ticket <= |s'.asked|
    ensures i < Asked(s'.asked, s'.hist[k].frame.ticket) ==> Said(s'.hist[..k], s'.log[i].dir, s'.log[i].name, i)
  {
    var t := s'.hist[k].frame.ticket;
    if k < |s.hist| {
      assert s.hist[k] == s'.hist[k] && s'.hist[..k] == s.hist[..k];
    } else {
      assert s'.hist[..k] == s.hist;
      OlderTicket(s, t);
    }
    if i < |s.log| {
      assert Obliged(s, i);
    }
  }

  lemma RepliesKept(s: State, s': State)
    requires Inv(s) && Inv(s') && RepliesOk(s) && WireOk(s) && Extends(s, s') && Sends(s, s')
    ensures RepliesOk(s')
  {
    forall k, i: nat | 0 <= k < |s'.hist| && s'.hist[k].frame.Reply? && Obliged(s', i)
      ensures 1 <= s'.hist[k].frame.ticket <= |s'.asked|
      ensures i < Asked(s'.asked, s'.hist[k].frame.ticket) ==> Said(s'.hist[..k], s'.log[i].dir, s'.log[i].name, i)
    {
      ReplyKept(s, s', k, i);
    }
  }

  ghost predicate OrderInv(s: State) {
    Inv(s) && WireOk(s) && RepliesOk(s)
  }

  lemma InitOrder(s: State)
    requires Init(s)
    ensures OrderInv(s)
  {
  }

  lemma StepKeepsOrder(s: State, s': State)
    requires OrderInv(s) && Next(s, s')
    ensures OrderInv(s')
  {
    NextKeepsInv(s, s');
    WireKept(s, s');
    RepliesKept(s, s');
  }

  lemma {:induction false} RunKeepsOrder(run: seq<State>, j: nat)
    requires IsRun(run) && j < |run|
    ensures OrderInv(run[j])
  {
    if j == 0 {
      InitOrder(run[0]);
    } else {
      RunKeepsOrder(run, j - 1);
      RunStepKeepsOrder(run, j - 1);
    }
  }

  lemma RunStepKeepsOrder(run: seq<State>, j: nat)
    requires IsRun(run) && j + 1 < |run| && OrderInv(run[j])
    ensures OrderInv(run[j + 1])
  {
    RunSteps(run, j);
    StepKeepsOrder(run[j], run[j + 1]);
  }

  /** The reply to ticket `t` is on the wire at position p. Then every change i
      made before the ticket was asked that the agent answers for is announced
      at an earlier position: by a state read after the change, or by a reset
      sent after it. */
  lemma BarrierOrdersWire(run: seq<State>, j: nat, p: nat, i: nat)
    requires IsRun(run) && j < |run|
    requires
      var s := run[j];
      && p < |s.writer.wire| && s.writer.wire[p] < |s.hist| && s.hist[s.writer.wire[p]].frame.Reply?
      && s.hist[s.writer.wire[p]].frame.ticket <= |s.asked|
      && Obliged(s, i) && i < Asked(s.asked, s.hist[s.writer.wire[p]].frame.ticket)
    ensures
      var s := run[j];
      exists q :: 0 <= q < p && s.writer.wire[q] < |s.hist|
        && Covers(s.hist[s.writer.wire[q]], s.log[i].dir, s.log[i].name, i)
  {
    RunKeepsOrder(run, j);
    var s := run[j];
    var k := s.writer.wire[p];
    assert Said(s.hist[..k], s.log[i].dir, s.log[i].name, i);
    var k' :| 0 <= k' < |s.hist[..k]| && Covers(s.hist[..k][k'], s.log[i].dir, s.log[i].name, i);
    assert s.hist[..k][k'] == s.hist[k'];
    assert s.lanes[k'] == Interactive;
    assert k' in s.writer.wire[..p];
    var q :| 0 <= q < p && s.writer.wire[q] == k';
  }
}
