/**
 The single writer (agent/main.cpp, class Writer): three FIFO lanes and the
 wire. Every frame boundary transmits the head of the highest-priority lane
 that is not empty.
 */
module Lanes {
  datatype Lane = Interactive | Normal | Bulk

  /** What is queued per lane, and what has been transmitted, in order. */
  datatype Queues<F> = Queues(q0: seq<F>, q1: seq<F>, q2: seq<F>, wire: seq<F>) {
    function Of(lane: Lane): seq<F> {
      match lane
      case Interactive => q0
      case Normal => q1
      case Bulk => q2
    }

    predicate AnyReady() {
      q0 != [] || q1 != [] || q2 != []
    }

    function Enqueue(lane: Lane, f: F): Queues<F> {
      match lane
      case Interactive => this.(q0 := q0 + [f])
      case Normal => this.(q1 := q1 + [f])
      case Bulk => this.(q2 := q2 + [f])
    }

    /** The lane the next frame is taken from. */
    function Ready(): Lane
      requires AnyReady()
    {
      if q0 != [] then Interactive else if q1 != [] then Normal else Bulk
    }

    function Transmit(): Queues<F>
      requires AnyReady()
    {
      match Ready()
      case Interactive => Queues(q0[1..], q1, q2, wire + [q0[0]])
      case Normal => Queues(q0, q1[1..], q2, wire + [q1[0]])
      case Bulk => Queues(q0, q1, q2[1..], wire + [q2[0]])
    }
  }

  // ---- The writer object -------------------------------------------------

  function TotalBytes(frames: seq<string>): nat {
    if frames == [] then 0 else |frames[0]| + TotalBytes(frames[1..])
  }

  lemma {:induction false} TotalBytesAppend(frames: seq<string>, f: string)
    ensures TotalBytes(frames + [f]) == TotalBytes(frames) + |f|
  {
    if frames == [] {
      assert frames + [f] == [f];
    } else {
      assert (frames + [f])[1..] == frames[1..] + [f];
      TotalBytesAppend(frames[1..], f);
    }
  }

  /** Index of a lane in the lane array, as the source casts it. */
  function Index(lane: Lane): (i: nat)
    ensures i < 3
  {
    match lane
    case Interactive => 0
    case Normal => 1
    case Bulk => 2
  }

  class Writer {
    var q: seq<seq<string>>
    var bytes: nat
    var wire: seq<string>

    ghost function View(): Queues<string>
      reads this
      requires |q| == 3
    {
      Queues(q[0], q[1], q[2], wire)
    }

    /** The back-pressure figure is exactly what is queued. */
    ghost predicate Valid()
      reads this
    {
      && |q| == 3
      && bytes == TotalBytes(q[0]) + TotalBytes(q[1]) + TotalBytes(q[2])
    }

    constructor ()
      ensures Valid()
      ensures View() == Queues([], [], [], [])
    {
      q := [[], [], []];
      bytes := 0;
      wire := [];
    }

    method Enqueue(lane: Lane, payload: string)
      requires Valid()
      modifies this
      ensures Valid()
      ensures View() == old(View()).Enqueue(lane, payload)
      ensures bytes == old(bytes) + |payload|
    {
      var i := Index(lane);
      TotalBytesAppend(q[i], payload);
      bytes := bytes + |payload|;
      q := q[i := q[i] + [payload]];
    }

    /** One pass of the writer's loop: pick the first non-empty lane, pop its
        head, and put it on the wire. */
    method TransmitOne() returns (sent: bool)
      requires Valid()
      modifies this
      ensures Valid()
      ensures sent == old(View()).AnyReady()
      ensures View() == if sent then old(View()).Transmit() else old(View())
    {
      var i := 0;
      while i < 3 && q[i] == []
        invariant 0 <= i <= 3
        invariant forall k :: 0 <= k < i ==> q[k] == []
      {
        i := i + 1;
      }
      sent := i < 3;
      if sent {
        var frame := q[i][0];
        q := q[i := q[i][1..]];
        bytes := bytes - |frame|;
        wire := wire + [frame];
      }
    }
  }

  // ---- Urgent frames are never overtaken ---------------------------------
  //
  // Frames are named by their enqueue number, so lanes[i] is the lane the
  // i-th enqueued frame went to.

  predicate Increasing(s: seq<nat>) {
    forall i, j :: 0 <= i < j < |s| ==> s[i] < s[j]
  }

  predicate Below(s: seq<nat>, n: nat) {
    forall i :: 0 <= i < |s| ==> s[i] < n
  }

  /** A frame on the wire comes after every frame that was enqueued before it in
      its own lane or in a more urgent one. */
  ghost predicate NoOvertaking(s: Queues<nat>, lanes: seq<Lane>) {
    forall p, i ::
      0 <= p < |s.wire| && 0 <= i < s.wire[p] < |lanes| && Index(lanes[i]) <= Index(lanes[s.wire[p]])
      ==> i in s.wire[..p]
  }

  /** What waits in a lane was enqueued there, oldest first. */
  ghost predicate Waits(q: seq<nat>, lanes: seq<Lane>, lane: Lane) {
    Increasing(q) && Below(q, |lanes|) && forall k :: 0 <= k < |q| ==> lanes[q[k]] == lane
  }

  ghost predicate Ordered(s: Queues<nat>, lanes: seq<Lane>) {
    && Waits(s.q0, lanes, Interactive) && Waits(s.q1, lanes, Normal) && Waits(s.q2, lanes, Bulk)
    && Below(s.wire, |lanes|)
    && (forall i :: 0 <= i < |lanes| ==> i in s.Of(lanes[i]) || i in s.wire)
    && NoOvertaking(s, lanes)
  }

  lemma WaitsOn(q: seq<nat>, lanes: seq<Lane>, lane: Lane, next: Lane)
    requires Waits(q, lanes, lane)
    ensures Waits(q, lanes + [next], lane)
    ensures next == lane ==> Waits(q + [|lanes|], lanes + [next], lane)
  {
  }

  lemma EnqueueKeepsOrdered(s: Queues<nat>, lanes: seq<Lane>, lane: Lane)
    requires Ordered(s, lanes)
    ensures Ordered(s.Enqueue(lane, |lanes|), lanes + [lane])
  {
    var s', lanes' := s.Enqueue(lane, |lanes|), lanes + [lane];
    WaitsOn(s.q0, lanes, Interactive, lane);
    WaitsOn(s.q1, lanes, Normal, lane);
    WaitsOn(s.q2, lanes, Bulk, lane);
    forall i | 0 <= i < |lanes'|
      ensures i in s'.Of(lanes'[i]) || i in s'.wire
    {
      if i < |lanes| { assert lanes'[i] == lanes[i]; }
    }
    forall p, i | 0 <= p < |s'.wire| && 0 <= i < s'.wire[p] < |lanes'| && Index(lanes'[i]) <= Index(lanes'[s'.wire[p]])
      ensures i in s'.wire[..p]
    {
      assert s.wire[p] < |lanes| && lanes'[i] == lanes[i] && lanes'[s.wire[p]] == lanes[s.wire[p]];
    }
  }

  /** What is taken from a lane comes after all that went there before, and after
      all that went to more urgent lanes, which are empty. */
  lemma NextIsUrgent(s: Queues<nat>, lanes: seq<Lane>, i: nat)
    requires Ordered(s, lanes) && s.AnyReady()
    requires
      var next := s.Of(s.Ready())[0];
      next < |lanes| && i < next && Index(lanes[i]) <= Index(lanes[next])
    ensures i in s.wire
  {
  }

  lemma TransmitKeepsOrdered(s: Queues<nat>, lanes: seq<Lane>)
    requires Ordered(s, lanes) && s.AnyReady()
    ensures Ordered(s.Transmit(), lanes)
  {
    TailWaits(s.Of(s.Ready()), lanes, s.Ready());
    forall i | 0 <= i < |lanes|
      ensures i in s.Transmit().Of(lanes[i]) || i in s.Transmit().wire
    {
      TransmitKeepsAll(s, lanes, i);
    }
    TransmitOvertakesNone(s, lanes);
  }

  lemma TailWaits(q: seq<nat>, lanes: seq<Lane>, lane: Lane)
    requires q != [] && Waits(q, lanes, lane)
    ensures Waits(q[1..], lanes, lane)
  {
  }

  lemma TransmitKeepsAll(s: Queues<nat>, lanes: seq<Lane>, i: nat)
    requires s.AnyReady() && i < |lanes| && (i in s.Of(lanes[i]) || i in s.wire)
    ensures i in s.Transmit().Of(lanes[i]) || i in s.Transmit().wire
  {
    var q := s.Of(s.Ready());
    assert q == [q[0]] + q[1..];
  }

  lemma TransmitOvertakesNone(s: Queues<nat>, lanes: seq<Lane>)
    requires Ordered(s, lanes) && s.AnyReady()
    ensures NoOvertaking(s.Transmit(), lanes)
  {
    var s' := s.Transmit();
    assert s'.wire[..|s.wire|] == s.wire;
    forall p, i | 0 <= p < |s'.wire| && 0 <= i < s'.wire[p] < |lanes| && Index(lanes[i]) <= Index(lanes[s'.wire[p]])
      ensures i in s'.wire[..p]
    {
      if p < |s.wire| {
        assert s'.wire[p] == s.wire[p];
        assert s'.wire[..p] == s.wire[..p];
      } else {
        NextIsUrgent(s, lanes, i);
        assert s'.wire[..p] == s.wire;
      }
    }
  }

  // ---- Every frame is somewhere, once ------------------------------------

  function All<F(==)>(s: Queues<F>): multiset<F> {
    multiset(s.q0) + multiset(s.q1) + multiset(s.q2) + multiset(s.wire)
  }

  /** Each of the first n frames is queued or transmitted exactly once. */
  ghost predicate Conserved(s: Queues<nat>, n: nat) {
    forall i: nat :: All(s)[i] == if i < n then 1 else 0
  }

  lemma EnqueueAdds<F>(s: Queues<F>, lane: Lane, f: F)
    ensures All(s.Enqueue(lane, f)) == All(s) + multiset{f}
  {
  }

  lemma Taken<F>(q: seq<F>)
    requires q != []
    ensures multiset(q) == multiset{q[0]} + multiset(q[1..])
  {
    assert q == [q[0]] + q[1..];
  }

  lemma TransmitMoves<F>(s: Queues<F>)
    requires s.AnyReady()
    ensures All(s.Transmit()) == All(s)
  {
    Taken(s.Of(s.Ready()));
  }

  lemma EnqueueConserves(s: Queues<nat>, lane: Lane, n: nat)
    requires Conserved(s, n)
    ensures Conserved(s.Enqueue(lane, n), n + 1)
  {
    EnqueueAdds(s, lane, n);
  }

  lemma TransmitConserves(s: Queues<nat>, n: nat)
    requires Conserved(s, n) && s.AnyReady()
    ensures Conserved(s.Transmit(), n)
  {
    TransmitMoves(s);
  }

  lemma WireDistinct(s: Queues<nat>, n: nat, p: nat, q: nat)
    requires Conserved(s, n) && p < q < |s.wire|
    ensures s.wire[p] != s.wire[q]
  {
    var w := s.wire;
    assert w == w[..q] + [w[q]] + w[q + 1..];
    assert w[p] in w[..q];
    assert multiset(w) == multiset(w[..q]) + multiset{w[q]} + multiset(w[q + 1..]);
    assert All(s)[w[q]] <= 1;
  }

  /** Interactive frames go out in the order they were enqueued. */
  lemma InteractiveInOrder(s: Queues<nat>, lanes: seq<Lane>, p: nat, q: nat)
    requires Ordered(s, lanes) && Conserved(s, |lanes|) && p < q < |s.wire|
    requires lanes[s.wire[q]] == Interactive
    ensures s.wire[p] < s.wire[q]
  {
    WireDistinct(s, |lanes|, p, q);
    if s.wire[q] < s.wire[p] {
      assert s.wire[q] in s.wire[..p];
      var r :| 0 <= r < p && s.wire[..p][r] == s.wire[q];
      WireDistinct(s, |lanes|, r, q);
    }
  }
}
