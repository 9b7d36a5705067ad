/**
 Client-to-server bytes of a tunnel (agent/main.cpp, tunnelSend and
 tunnelStdinLoop): the reader thread appends to a bounded queue, one thread per
 tunnel drains it into the process's stdin.
 */
module Tunnel {
  import opened Wrappers
  import opened Base64

  const OUTQ_MAX: nat := 8 * 1024 * 1024

  /** The queue and the flags both threads look at. */
  datatype Pipe = Pipe(outq: seq<Bytes>, outqBytes: int, eof: bool, closing: bool, stdinGone: bool)

  function Concat(chunks: seq<Bytes>): Bytes {
    if chunks == [] then [] else chunks[0] + Concat(chunks[1..])
  }

  lemma {:induction false} ConcatAppend(chunks: seq<Bytes>, b: Bytes)
    ensures Concat(chunks + [b]) == Concat(chunks) + b
  {
    if chunks == [] {
      assert chunks + [b] == [b] && [b][1..] == [];
    } else {
      assert (chunks + [b])[1..] == chunks[1..] + [b];
      ConcatAppend(chunks[1..], b);
      assert chunks[0] + (Concat(chunks[1..]) + b) == chunks[0] + Concat(chunks[1..]) + b;
    }
  }

  /** The figure the bound is checked against is the queue's true size, and
      without its newest chunk the queue is under the bound. */
  ghost predicate Bounded(p: Pipe) {
    && p.outqBytes == |Concat(p.outq)|
    && (forall i :: 0 <= i < |p.outq| ==> p.outq[i] != [])
    && (p.outq != [] ==> p.outqBytes - |p.outq[|p.outq| - 1]| < OUTQ_MAX)
  }

  function Queued(p: Pipe, bytes: Bytes, eof: bool): Pipe {
    p.(outq := p.outq + [bytes], outqBytes := p.outqBytes + |bytes|, eof := p.eof || eof)
  }

  function Popped(p: Pipe): Pipe
    requires p.outq != []
  {
    p.(outq := p.outq[1..], outqBytes := p.outqBytes - |p.outq[0]|)
  }

  predicate MaySend(p: Pipe) {
    p.closing || p.stdinGone || p.outqBytes < OUTQ_MAX
  }

  predicate MayTake(p: Pipe) {
    p.closing || p.eof || p.stdinGone || p.outq != []
  }

  lemma QueuedBounded(p: Pipe, bytes: Bytes, eof: bool)
    requires Bounded(p) && bytes != [] && p.outqBytes < OUTQ_MAX
    ensures Bounded(Queued(p, bytes, eof)) && Concat(Queued(p, bytes, eof).outq) == Concat(p.outq) + bytes
    ensures Queued(p, bytes, eof).outqBytes < OUTQ_MAX + |bytes|
  {
    ConcatAppend(p.outq, bytes);
  }

  lemma PoppedBounded(p: Pipe)
    requires Bounded(p) && p.outq != []
    ensures Bounded(Popped(p)) && p.outq[0] + Concat(Popped(p).outq) == Concat(p.outq)
  {
    if |p.outq| > 1 {
      assert Popped(p).outq[|p.outq| - 2] == p.outq[|p.outq| - 1];
    }
  }

  // ---- The tunnel object -------------------------------------------------

  class TunnelQueue {
    var outq: seq<Bytes>
    var outqBytes: int
    var eof: bool
    var closing: bool
    var stdinGone: bool

    ghost function View(): Pipe
      reads this
    {
      Pipe(outq, outqBytes, eof, closing, stdinGone)
    }

    ghost predicate Valid()
      reads this
    {
      Bounded(View())
    }

    constructor ()
      ensures Valid() && View() == Pipe([], 0, false, false, false)
    {
      outq, outqBytes, eof, closing, stdinGone := [], 0, false, false, false;
    }

    /** tunnelSend once its wait is over. */
    method Accept(bytes: Bytes, last: bool) returns (taken: bool)
      requires Valid() && bytes != [] && MaySend(View())
      modifies this
      ensures Valid()
      ensures taken == !(old(closing) || old(stdinGone))
      ensures View() == if taken then Queued(old(View()), bytes, last) else old(View())
    {
      if closing || stdinGone { return false; }
      QueuedBounded(View(), bytes, last);
      outqBytes := outqBytes + |bytes|;
      outq := outq + [bytes];
      if last { eof := true; }
      taken := true;
    }

    /** tunnelStdinLoop once its wait is over: None means leave the loop. */
    method Take() returns (chunk: Option<Bytes>)
      requires Valid() && MayTake(View())
      modifies this
      ensures Valid()
      ensures chunk.None? <==> old(outq) == [] || old(stdinGone)
      ensures chunk.Some? ==> chunk.value == old(outq)[0] && View() == Popped(old(View()))
      ensures chunk.None? ==> View() == old(View())
    {
      if outq == [] || stdinGone { return None; }
      PoppedBounded(View());
      chunk := Some(outq[0]);
      outq := outq[1..];
      outqBytes := outqBytes - |chunk.value|;
    }
  }

  /** The inner write loop: `accepts` answers how much of a request the kernel
      takes, at most 0 for a failure. What is written is a prefix of the chunk,
      the whole of it unless the loop failed. */
  method WriteChunk(chunk: Bytes, accepts: nat -> int) returns (written: Bytes, failed: bool)
    ensures written <= chunk && (!failed ==> written == chunk)
    ensures failed ==> |written| < |chunk|
  {
    var off := 0;
    failed := false;
    while off < |chunk| && !failed
      invariant 0 <= off <= |chunk| && (failed ==> off < |chunk|)
      decreases |chunk| - off, if failed then 0 else 1
    {
      var w := accepts(|chunk| - off);
      if w <= 0 {
        failed := true;
      } else {
        off := if off + w > |chunk| then |chunk| else off + w;
      }
    }
    written := chunk[..off];
  }

  // ---- Both threads ------------------------------------------------------

  /** `upto` is how much had been accepted when the drainer left, `closing` whether
      the tunnel was being closed then. */
  datatype Drainer = Waiting | Writing(chunk: Bytes, off: nat) | Closed(clean: bool, upto: nat, closing: bool)

  datatype Sender = Idle | Sending(bytes: Bytes, last: bool)

  /** `eofAt` is how much had been accepted when eof was first set. */
  datatype State = State(pipe: Pipe, drainer: Drainer, sender: Sender, accepted: Bytes, written: Bytes, eofAt: Option<nat>)

  predicate Init(s: State) {
    s == State(Pipe([], 0, false, false, false), Waiting, Idle, [], [], None)
  }

  function MarkEof(s: State): Option<nat> {
    if s.eofAt.Some? then s.eofAt else Some(|s.accepted|)
  }

  predicate BeginSend(s: State, s': State, bytes: Bytes, last: bool) {
    && s.sender == Idle && !s.pipe.closing
    && s' == if bytes != [] then s.(sender := Sending(bytes, last))
             else if last then s.(pipe := s.pipe.(eof := true), eofAt := MarkEof(s))
             else s
  }

  predicate EndSend(s: State, s': State) {
    && s.sender.Sending? && MaySend(s.pipe)
    && if s.pipe.closing || s.pipe.stdinGone then s' == s.(sender := Idle)
       else
         var t := s.(pipe := Queued(s.pipe, s.sender.bytes, s.sender.last), accepted := s.accepted + s.sender.bytes, sender := Idle);
         s' == if s.sender.last then t.(eofAt := MarkEof(t)) else t
  }

  predicate TakeStep(s: State, s': State) {
    && s.drainer == Waiting && MayTake(s.pipe)
    && s' == if s.pipe.outq == [] || s.pipe.stdinGone then s.(drainer := Closed(!s.pipe.stdinGone, |s.accepted|, s.pipe.closing))
             else s.(pipe := Popped(s.pipe), drainer := Writing(s.pipe.outq[0], 0))
  }

  predicate WriteStep(s: State, s': State, k: nat) {
    && s.drainer.Writing? && 1 <= k && s.drainer.off + k <= |s.drainer.chunk|
    && var off := s.drainer.off;
       s' == s.(written := s.written + s.drainer.chunk[off..off + k],
                drainer := if off + k == |s.drainer.chunk| then Waiting else Writing(s.drainer.chunk, off + k))
  }

  predicate WriteFails(s: State, s': State) {
    && s.drainer.Writing?
    && s' == s.(pipe := s.pipe.(stdinGone := true), drainer := Closed(false, 0, s.pipe.closing))
  }

  predicate FlagStep(s: State, s': State) {
    || s' == s.(pipe := s.pipe.(closing := true))
    || s' == s.(pipe := s.pipe.(stdinGone := true))
  }

  ghost predicate Next(s: State, s': State) {
    || (exists bytes, last :: BeginSend(s, s', bytes, last))
    || EndSend(s, s') || TakeStep(s, s') || (exists k :: WriteStep(s, s', k)) || WriteFails(s, s') || FlagStep(s, s')
  }

  ghost predicate StepAt(run: seq<State>, i: nat)
    requires i + 1 < |run|
  {
    Next(run[i], run[i + 1])
  }

  ghost predicate IsRun(run: seq<State>) {
    run != [] && Init(run[0]) && forall i: nat :: i + 1 < |run| ==> StepAt(run, i)
  }

  function InFlight(d: Drainer): Bytes {
    if d.Writing? && d.off <= |d.chunk| then d.chunk[d.off..] else []
  }

  /** While the drainer runs, nothing accepted is missing: written, in flight,
      queued, in that order. Once it closed, what was written stays. */
  ghost predicate InOrder(s: State) {
    && (s.drainer.Writing? ==> s.drainer.off < |s.drainer.chunk|)
    && (if s.drainer.Closed? then s.written <= s.accepted
        else s.written + InFlight(s.drainer) + Concat(s.pipe.outq) == s.accepted)
  }

  ghost predicate CleanClose(s: State) {
    s.drainer.Closed? && s.drainer.clean ==>
      && s.drainer.upto <= |s.accepted| && s.written == s.accepted[..s.drainer.upto]
      && (!s.drainer.closing ==> s.eofAt.Some? && s.eofAt.value <= s.drainer.upto)
  }

  ghost predicate Inv(s: State) {
    && Bounded(s.pipe) && InOrder(s) && CleanClose(s)
    && (s.pipe.eof <==> s.eofAt.Some?) && (s.eofAt.Some? ==> s.eofAt.value <= |s.accepted|)
    && (s.sender.Sending? ==> s.sender.bytes != [])
  }

  lemma EndSendKeeps(s: State, s': State)
    requires Inv(s) && EndSend(s, s')
    ensures Inv(s')
  {
    if !(s.pipe.closing || s.pipe.stdinGone) {
      QueuedBounded(s.pipe, s.sender.bytes, s.sender.last);
      assert s'.accepted == s.accepted + s.sender.bytes;
      if s.drainer.Closed? {
        assert s'.accepted[..|s.accepted|] == s.accepted;
      } else {
        assert s.written + InFlight(s.drainer) + (Concat(s.pipe.outq) + s.sender.bytes)
          == (s.written + InFlight(s.drainer) + Concat(s.pipe.outq)) + s.sender.bytes;
      }
    }
  }

  lemma TakeKeeps(s: State, s': State)
    requires Inv(s) && TakeStep(s, s')
    ensures Inv(s')
  {
    if !(s.pipe.outq == [] || s.pipe.stdinGone) {
      PoppedBounded(s.pipe);
      assert InFlight(s'.drainer) == s.pipe.outq[0];
      assert s.written + [] + Concat(s.pipe.outq) == s.written + (s.pipe.outq[0] + Concat(s'.pipe.outq));
      assert s.written + (s.pipe.outq[0] + Concat(s'.pipe.outq)) == s.written + s.pipe.outq[0] + Concat(s'.pipe.outq);
    } else if !s.pipe.stdinGone {
      assert s.written + [] + [] == s.written;
      assert s.accepted[..|s.accepted|] == s.accepted;
    }
  }

  lemma WriteKeeps(s: State, s': State, k: nat)
    requires Inv(s) && WriteStep(s, s', k)
    ensures Inv(s')
  {
    var off := s.drainer.off;
    assert s.drainer.chunk[off..] == s.drainer.chunk[off..off + k] + s.drainer.chunk[off + k..];
    assert s.written + (s.drainer.chunk[off..off + k] + s.drainer.chunk[off + k..]) + Concat(s.pipe.outq)
      == s'.written + s.drainer.chunk[off + k..] + Concat(s.pipe.outq);
  }

  lemma NextKeepsInv(s: State, s': State)
    requires Inv(s) && Next(s, s')
    ensures Inv(s')
  {
    if EndSend(s, s') {
      EndSendKeeps(s, s');
    } else if TakeStep(s, s') {
      TakeKeeps(s, s');
    } else if k :| WriteStep(s, s', k) {
      WriteKeeps(s, s', k);
    } else if WriteFails(s, s') {
      FailKeeps(s, s');
    } else if bytes, last :| BeginSend(s, s', bytes, last) {
      BeginKeeps(s, s', bytes, last);
    } else {
      FlagKeeps(s, s');
    }
  }

  lemma FailKeeps(s: State, s': State)
    requires Inv(s) && WriteFails(s, s')
    ensures Inv(s')
  {
    assert s.written <= s.written + InFlight(s.drainer) + Concat(s.pipe.outq);
  }

  lemma BeginKeeps(s: State, s': State, bytes: Bytes, last: bool)
    requires Inv(s) && BeginSend(s, s', bytes, last)
    ensures Inv(s')
  {
  }

  lemma FlagKeeps(s: State, s': State)
    requires Inv(s) && FlagStep(s, s')
    ensures Inv(s')
  {
  }

  lemma {:induction false} RunKeepsInv(run: seq<State>, j: nat)
    requires IsRun(run) && j < |run|
    ensures Inv(run[j])
  {
    if j > 0 {
      RunKeepsInv(run, j - 1);
      assert StepAt(run, j - 1);
      NextKeepsInv(run[j - 1], run[j]);
    }
  }

  /** In every interleaving the process receives a prefix of what was accepted,
      in arrival order, and the queue never grows past the bound by more than
      its newest chunk. */
  lemma BytesInOrder(run: seq<State>, j: nat)
    requires IsRun(run) && j < |run|
    ensures run[j].written <= run[j].accepted
    ensures Bounded(run[j].pipe)
  {
    RunKeepsInv(run, j);
    var s := run[j];
    if !s.drainer.Closed? {
      assert s.written <= s.written + InFlight(s.drainer) + Concat(s.pipe.outq);
    }
  }

  /** Stdin closed without a failed write or a dead process: everything accepted
      by then was written. Unless the tunnel was being closed at that moment, an
      end of input had been asked for, and everything sent before it was written. */
  lemma CleanCloseIsComplete(run: seq<State>, j: nat)
    requires IsRun(run) && j < |run| && run[j].drainer.Closed? && run[j].drainer.clean
    ensures var s := run[j];
      && s.drainer.upto <= |s.accepted| && s.written == s.accepted[..s.drainer.upto]
      && (!s.drainer.closing ==> s.eofAt.Some? && s.eofAt.value <= s.drainer.upto)
  {
    RunKeepsInv(run, j);
  }

  /** Nobody waits without need: a sender goes on as long as less than 8 MiB is
      queued or there is nobody to send to; the drainer as long as there is
      something to write, or input ended, or it is to close. */
  lemma NobodyWaitsNeedlessly(s: State)
    ensures s.sender.Sending? && (s.pipe.outqBytes < 8388608 || s.pipe.closing || s.pipe.stdinGone) ==> exists s' :: EndSend(s, s')
    ensures s.drainer == Waiting && (s.pipe.outq != [] || s.pipe.eof || s.pipe.closing || s.pipe.stdinGone) ==> exists s' :: TakeStep(s, s')
  {
    if s.sender.Sending? && MaySend(s.pipe) {
      var t := s.(pipe := Queued(s.pipe, s.sender.bytes, s.sender.last), accepted := s.accepted + s.sender.bytes, sender := Idle);
      var s' := if s.pipe.closing || s.pipe.stdinGone then s.(sender := Idle)
                else if s.sender.last then t.(eofAt := MarkEof(t)) else t;
      assert EndSend(s, s');
    }
    if s.drainer == Waiting && MayTake(s.pipe) {
      var s' := if s.pipe.outq == [] || s.pipe.stdinGone then s.(drainer := Closed(!s.pipe.stdinGone, |s.accepted|, s.pipe.closing))
                else s.(pipe := Popped(s.pipe), drainer := Writing(s.pipe.outq[0], 0));
      assert TakeStep(s, s');
    }
  }
}
