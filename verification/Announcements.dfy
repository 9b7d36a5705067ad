/**
 What every run of the DirWatch step system keeps: no change of a watched
 directory is lost, and a completed barrier ticket puts every earlier change on
 the wire ahead of the reply.
 */
module Announcements {
  import opened Wrappers
  import opened Lanes
  import opened WatchRegistry
  import opened DirWatch

  // ---- The bookkeeping invariant -----------------------------------------

  /** The descriptor of a registration still means its directory. */
  predicate Stands(reg: Registry, x: Watch) {
    Means(reg, x.wd, x.dir)
  }

  /** A descriptor in use means a name it was answered for, and every name it was
      answered for is still registered under it. */
  ghost predicate NamesOk(nextWd: int, began: map<Watch, Mark>, reg: Registry) {
    && Sound(reg) && 0 <= nextWd
    && (forall x :: x in began ==> x.wd < nextWd && x.dir != "")
    && (forall x :: x in began && x.wd in reg.byWd && reg.byWd[x.wd] != "" ==> x.dir in reg.byDir && reg.byDir[x.dir] == x.wd)
    && (forall w :: w in reg.byWd ==> w < nextWd && (reg.byWd[w] != "" ==> Watch(w, reg.byWd[w]) in began))
  }

  /** A registered name whose descriptor means something else has ended. */
  ghost predicate RegOk(nextWd: int, began: map<Watch, Mark>, ended: set<Watch>, live: set<Wd>, reg: Registry) {
    && NamesOk(nextWd, began, reg)
    && (forall d :: d in reg.byDir ==> Watch(reg.byDir[d], d) in began)
    && (forall d :: d in reg.byDir ==> Stands(reg, Watch(reg.byDir[d], d)) || Watch(reg.byDir[d], d) in ended)
    && (forall w :: w in live ==> w in reg.byWd && reg.byWd[w] != "")
  }

  ghost predicate MarksOk(log: seq<Change>, sent: nat, began: map<Watch, Mark>, blind: map<Watch, Mark>) {
    && (forall x :: x in began ==> began[x].at <= |log| && began[x].from <= sent)
    && (forall x :: x in blind ==> x in began && blind[x].at <= |log| && blind[x].from <= sent)
    && (forall i :: 0 <= i < |log| && log[i].wd.Some? ==> OnWatch(log[i]) in began)
  }

  /** The registration a change was made under. */
  function OnWatch(c: Change): Watch
    requires c.wd.Some?
  {
    Watch(c.wd.value, c.dir)
  }

  predicate LateFlush(p: Phase) {
    p.FlushDirs? || p.EmitReset? || p.Statting?
  }

  /** resets only names directories that are pending, and the later stages of a
      flush find the earlier ones finished. */
  ghost predicate HoldOk(h: Hold, p: Phase) {
    && (forall d :: d in h.resets ==> d in h.pending)
    && (p.FlushGone? || LateFlush(p) ==> !h.overflow)
    && (LateFlush(p) ==> h.gone == {} && forall d :: d in p.todo ==> d in h.pending)
  }

  predicate Flushing(p: Phase) {
    p.FlushOverflow? || p.FlushGone? || LateFlush(p)
  }

  function Bar(p: Phase): nat {
    if p.Polling? || p.Waking? || p.Exited? then 0 else p.bar
  }

  function Upto(p: Phase): nat {
    if Flushing(p) then p.upto else 0
  }

  /** Changes made before ticket t was asked; 0 before any ticket. */
  function Asked(asked: seq<nat>, t: nat): nat
    requires t <= |asked|
  {
    if t == 0 then 0 else asked[t - 1]
  }

  ghost predicate TicketOk(asked: seq<nat>, done: nat, p: Phase, made: nat) {
    && done <= |asked| && Bar(p) <= |asked|
    && (forall i :: 0 <= i < |asked| ==> asked[i] <= made)
    && (forall i, j :: 0 <= i <= j < |asked| ==> asked[i] <= asked[j])
    && Upto(p) <= made
    && (Flushing(p) ==> Asked(asked, Bar(p)) <= Upto(p))
  }

  // ---- Where a change is -------------------------------------------------

  /** A change the agent answers for: it was made under a registration that has
      not ended without a word, before that registration went blind, and it is
      not a temp file. */
  predicate Obliged(s: State, i: nat) {
    && i < |s.log|
    && s.log[i].wd.Some?
    && OnWatch(s.log[i]) !in s.ended
    && (OnWatch(s.log[i]) in s.blind ==> i < s.blind[OnWatch(s.log[i])].at)
    && !IsTemp(s.log[i].name)
  }

  predicate InPipe(s: State, e: Event) {
    e in s.queue || (s.phase.Buffered? && e in s.phase.buf)
  }

  predicate Piped(s: State, w: Wd, n: Name) {
    InPipe(s, Named(w, n)) || InPipe(s, SelfGone(w)) || InPipe(s, Overflow)
  }

  predicate Due(h: Hold, d: Dir, n: Name) {
    d in h.pending && (n in h.pending[d] || d in h.resets)
  }

  /** The watcher thread still has to speak about (d, n), or read it after the
      first i + 1 changes and has not emitted that yet. */
  predicate InHand(s: State, d: Dir, n: Name, i: nat) {
    || s.hold.overflow
    || d in s.hold.gone
    || (match s.phase
        case FlushDirs(_, _, todo) => d in todo && Due(s.hold, d, n)
        case EmitReset(_, _, todo, dir) => dir == d || (d in todo && Due(s.hold, d, n))
        case Statting(_, _, todo, dir, left, seen) =>
          || (dir == d && (n in left || (n in seen && seen[n].at > i)))
          || (d in todo && Due(s.hold, d, n))
        case _ => Due(s.hold, d, n))
  }

  /** A frame that tells the client about change i of (d, n): the name's state
      read after the change, or a reset sent after it. */
  predicate Covers(f: Sent, d: Dir, n: Name, i: nat) {
    match f.frame
    case Changed(Entries(dir, seen)) => dir == d && n in seen && seen[n].at > i
    case Changed(Reset(dir, _)) => dir == d && f.at > i
    case Changed(ResetAll) => f.at > i
    case _ => false
  }

  predicate Said(hist: seq<Sent>, d: Dir, n: Name, i: nat) {
    exists k :: 0 <= k < |hist| && Covers(hist[k], d, n, i)
  }

  ghost predicate Carried(s: State, i: nat)
    requires i < |s.log|
  {
    InHand(s, s.log[i].dir, s.log[i].name, i) || Said(s.hist, s.log[i].dir, s.log[i].name, i)
  }

  /** No change is lost. */
  ghost predicate NoLoss(s: State) {
    forall i: nat :: Obliged(s, i) ==> Piped(s, s.log[i].wd.value, s.log[i].name) || Carried(s, i)
  }

  /** What a pass found in the queue or before is out of the queue. */
  ghost predicate PassOk(s: State) {
    forall i: nat :: Obliged(s, i) && i < Upto(s.phase) ==> Carried(s, i)
  }

  /** Everything older than a completed ticket has been said. */
  ghost predicate DoneOk(s: State)
    requires s.done <= |s.asked|
  {
    forall i: nat :: Obliged(s, i) && i < Asked(s.asked, s.done) ==> Said(s.hist, s.log[i].dir, s.log[i].name, i)
  }

  /** A change whose registration is over has been told, unless it ended
      without a word. */
  ghost predicate FarewellOk(s: State) {
    forall i: nat :: i < |s.log| && s.log[i].wd.Some? && OnWatch(s.log[i]) !in s.ended && !Stands(s.reg, OnWatch(s.log[i]))
      ==> Said(s.hist, s.log[i].dir, s.log[i].name, i)
  }

  /** A watch the kernel no longer serves is about to be given up. */
  ghost predicate SelfOk(s: State) {
    forall w :: w in s.reg.byWd && s.reg.byWd[w] != "" && w !in s.live && Watch(w, s.reg.byWd[w]) !in s.blind
      ==> InPipe(s, SelfGone(w)) || s.reg.byWd[w] in s.hold.gone
  }

  ghost predicate BlindOk(s: State) {
    forall x :: x in s.blind && Stands(s.reg, x) ==> x.wd !in s.live
  }

  ghost predicate Books(s: State) {
    && RegOk(s.nextWd, s.began, s.ended, s.live, s.reg)
    && MarksOk(s.log, |s.hist|, s.began, s.blind)
    && HoldOk(s.hold, s.phase)
    && TicketOk(s.asked, s.done, s.phase, |s.log|)
    && SelfOk(s) && BlindOk(s)
  }

  ghost predicate Inv(s: State) {
    Books(s) && FarewellOk(s) && NoLoss(s) && PassOk(s) && DoneOk(s)
  }

  // ---- Digesting loses nothing -------------------------------------------

  lemma AbsorbKeeps(h: Hold, byWd: map<Wd, Dir>, e: Event)
    ensures
      var h' := Absorb(h, byWd, e);
      && (h.overflow ==> h'.overflow)
      && h.gone <= h'.gone
      && (forall d, n :: Due(h, d, n) ==> Due(h', d, n))
      && ((forall d :: d in h.resets ==> d in h.pending) ==> (forall d :: d in h'.resets ==> d in h'.pending))
  {
  }

  lemma AbsorbTakes(h: Hold, byWd: map<Wd, Dir>, e: Event)
    ensures
      var h' := Absorb(h, byWd, e);
      && (e.Overflow? ==> h'.overflow)
      && (e.SelfGone? && e.wd in byWd ==> byWd[e.wd] in h'.gone)
      && (e.Named? && e.wd in byWd && !IsTemp(e.name) ==> Due(h', byWd[e.wd], e.name))
  {
  }

  lemma {:induction false} AbsorbAllKeeps(h: Hold, byWd: map<Wd, Dir>, es: seq<Event>)
    ensures
      var h' := AbsorbAll(h, byWd, es);
      && (h.overflow ==> h'.overflow)
      && h.gone <= h'.gone
      && (forall d, n :: Due(h, d, n) ==> Due(h', d, n))
      && ((forall d :: d in h.resets ==> d in h.pending) ==> (forall d :: d in h'.resets ==> d in h'.pending))
    decreases |es|
  {
    if es != [] {
      AbsorbKeeps(h, byWd, es[0]);
      AbsorbAllKeeps(Absorb(h, byWd, es[0]), byWd, es[1..]);
    }
  }

  lemma {:induction false} AbsorbAllTakes(h: Hold, byWd: map<Wd, Dir>, es: seq<Event>, e: Event)
    requires e in es
    ensures
      var h' := AbsorbAll(h, byWd, es);
      && (e.Overflow? ==> h'.overflow)
      && (e.SelfGone? && e.wd in byWd ==> byWd[e.wd] in h'.gone)
      && (e.Named? && e.wd in byWd && !IsTemp(e.name) ==> Due(h', byWd[e.wd], e.name))
    decreases |es|
  {
    var h1 := Absorb(h, byWd, es[0]);
    if es[0] == e {
      AbsorbTakes(h, byWd, e);
      AbsorbAllKeeps(h1, byWd, es[1..]);
    } else {
      AbsorbAllTakes(h1, byWd, es[1..], e);
    }
  }

  // ---- One step, seen by one change --------------------------------------

  lemma SaidGrows(h: seq<Sent>, h': seq<Sent>, d: Dir, n: Name, i: nat)
    requires h <= h' && Said(h, d, n, i)
    ensures Said(h', d, n, i)
  {
    var k :| 0 <= k < |h| && Covers(h[k], d, n, i);
    assert Covers(h'[k], d, n, i);
  }

  /** What was said stays said, what is in hand stays in hand or gets said. */
  ghost predicate HandKept(s: State, s': State, d: Dir, n: Name, i: nat) {
    InHand(s, d, n, i) ==> InHand(s', d, n, i) || Said(s'.hist, d, n, i)
  }

  /** What is in the pipe stays there or is picked up. */
  ghost predicate PipeKept(s: State, s': State, w: Wd, d: Dir, n: Name, i: nat) {
    Piped(s, w, n) ==> Piped(s', w, n) || InHand(s', d, n, i)
  }

  ghost predicate Keeps<K, V>(m: map<K, V>, m': map<K, V>) {
    forall k :: k in m ==> k in m' && m'[k] == m[k]
  }

  /** Nothing is added to what the agent answers for. */
  ghost predicate Shrinks(s: State, s': State) {
    s.log == s'.log && s.hist <= s'.hist && Keeps(s.blind, s'.blind) && s.ended <= s'.ended
  }

  /** A change of a registration that stands stays where it is or moves on; when
      the registration ends, it is told or has ended without a word. */
  ghost predicate Point(s: State, s': State, i: nat)
    requires i < |s.log|
  {
    var c := s.log[i];
    c.wd.Some? && Stands(s.reg, OnWatch(c)) ==>
      if Stands(s'.reg, OnWatch(c)) then
        IsTemp(c.name) || (HandKept(s, s', c.dir, c.name, i) && PipeKept(s, s', c.wd.value, c.dir, c.name, i))
      else OnWatch(c) in s'.ended || Said(s'.hist, c.dir, c.name, i)
  }

  lemma LiftPoint(s: State, s': State, i: nat)
    requires FarewellOk(s) && Shrinks(s, s') && i < |s.log| && Point(s, s', i)
    requires s.log[i].wd.Some? && OnWatch(s.log[i]) !in s'.ended
    ensures !Stands(s'.reg, OnWatch(s.log[i])) ==> Said(s'.hist, s.log[i].dir, s.log[i].name, i)
    ensures Said(s.hist, s.log[i].dir, s.log[i].name, i) ==> Said(s'.hist, s.log[i].dir, s.log[i].name, i)
    ensures !IsTemp(s.log[i].name) && Carried(s, i) ==> Carried(s', i)
    ensures !IsTemp(s.log[i].name) && Piped(s, s.log[i].wd.value, s.log[i].name)
      ==> Piped(s', s.log[i].wd.value, s.log[i].name) || Carried(s', i)
  {
    if Said(s.hist, s.log[i].dir, s.log[i].name, i) {
      SaidGrows(s.hist, s'.hist, s.log[i].dir, s.log[i].name, i);
    }
  }

  lemma Lift(s: State, s': State)
    requires Inv(s) && Shrinks(s, s')
    requires forall i: nat :: i < |s.log| ==> Point(s, s', i)
    requires Upto(s'.phase) == Upto(s.phase) || Upto(s'.phase) == 0
    requires s.asked <= s'.asked && s'.done == s.done
    ensures FarewellOk(s') && NoLoss(s') && PassOk(s') && DoneOk(s')
  {
    forall i: nat | i < |s.log| && s.log[i].wd.Some? && OnWatch(s.log[i]) !in s'.ended
      ensures !Stands(s'.reg, OnWatch(s.log[i])) ==> Said(s'.hist, s.log[i].dir, s.log[i].name, i)
      ensures Obliged(s', i) ==> Piped(s', s'.log[i].wd.value, s'.log[i].name) || Carried(s', i)
      ensures Obliged(s', i) && i < Upto(s'.phase) ==> Carried(s', i)
      ensures Obliged(s', i) && i < Asked(s'.asked, s'.done) ==> Said(s'.hist, s.log[i].dir, s.log[i].name, i)
    {
      assert Point(s, s', i);
      LiftPoint(s, s', i);
      if Obliged(s', i) { assert Obliged(s, i); }
    }
  }

  /** The registrations are as they were. */
  ghost predicate SameWatches(s: State, s': State) {
    && s'.log == s.log && s'.began == s.began && s'.blind == s.blind && s'.ended == s.ended
    && s'.live == s.live && s'.reg == s.reg && s'.nextWd == s.nextWd
  }

  ghost predicate SelfKept(s: State, s': State) {
    && s.hold.gone <= s'.hold.gone
    && forall w :: InPipe(s, SelfGone(w)) && w in s.reg.byWd ==> InPipe(s', SelfGone(w)) || s.reg.byWd[w] in s'.hold.gone
  }

  ghost predicate Moves(s: State, s': State, i: nat)
    requires i < |s.log|
  {
    var c := s.log[i];
    c.wd.Some? && Stands(s.reg, OnWatch(c)) && !IsTemp(c.name) ==>
      HandKept(s, s', c.dir, c.name, i) && PipeKept(s, s', c.wd.value, c.dir, c.name, i)
  }

  /** A step that leaves the registrations alone and lets no change slip. */
  ghost predicate Settles(s: State, s': State) {
    && SameWatches(s, s') && s.hist <= s'.hist
    && HoldOk(s'.hold, s'.phase) && TicketOk(s'.asked, s'.done, s'.phase, |s'.log|)
    && SelfKept(s, s')
    && (forall i: nat :: i < |s.log| ==> Moves(s, s', i))
    && (Upto(s'.phase) == Upto(s.phase) || Upto(s'.phase) == 0)
    && s.asked <= s'.asked && s'.done == s.done
  }

  lemma Settle(s: State, s': State)
    requires Inv(s) && Settles(s, s')
    ensures Inv(s')
  {
    forall i: nat | i < |s.log|
      ensures Point(s, s', i)
    {
      assert Moves(s, s', i);
    }
    Lift(s, s');
  }

  // ---- What a step may add -----------------------------------------------

  ghost predicate Extends(s: State, s': State) {
    && s.log <= s'.log && s.asked <= s'.asked && s.done <= s'.done
    && s.ended <= s'.ended && Keeps(s.began, s'.began) && Keeps(s.blind, s'.blind)
    && (forall x :: x in s'.blind && x !in s.blind ==> s'.blind[x].from >= |s.hist|)
  }

  /** At most one frame is enqueued or transmitted; a notification goes to the
      interactive lane, and a reply has a completed ticket. */
  predicate Sends(s: State, s': State) {
    if s'.hist == s.hist then
      s'.lanes == s.lanes && (s'.writer == s.writer || (s.writer.AnyReady() && s'.writer == s.writer.Transmit()))
    else
      && |s'.hist| == |s.hist| + 1 && |s'.lanes| == |s.lanes| + 1
      && var f := s'.hist[|s.hist|].frame;
         var lane := s'.lanes[|s.lanes|];
         && s'.hist == s.hist + [Sent(f, |s.log|)]
         && s'.lanes == s.lanes + [lane]
         && s'.writer == s.writer.Enqueue(lane, |s.hist|)
         && (f.Changed? ==> lane == Interactive)
         && (f.Reply? ==> 1 <= f.ticket <= s.done)
  }

  // ---- Steps of other threads --------------------------------------------

  lemma QuietKeeps(s: State, s': State)
    requires Inv(s) && s.hist <= s'.hist && (forall e :: e in s.queue ==> e in s'.queue)
    requires s' == s.(queue := s'.queue, hist := s'.hist, lanes := s'.lanes, writer := s'.writer, wake := s'.wake,
                      stopping := s'.stopping, asked := s'.asked)
    requires s'.asked == s.asked || s'.asked == s.asked + [|s.log|]
    ensures Inv(s')
  {
    QuietSettles(s, s');
    Settle(s, s');
  }

  lemma QuietSettles(s: State, s': State)
    requires Books(s) && s.hist <= s'.hist && (forall e :: e in s.queue ==> e in s'.queue)
    requires s' == s.(queue := s'.queue, hist := s'.hist, lanes := s'.lanes, writer := s'.writer, wake := s'.wake,
                      stopping := s'.stopping, asked := s'.asked)
    requires s'.asked == s.asked || s'.asked == s.asked + [|s.log|]
    ensures Settles(s, s')
  {
  }

  lemma StrayKeeps(s: State, s': State, e: Event)
    requires Inv(s) && StrayEvent(s, s', e)
    ensures Inv(s') && Extends(s, s') && Sends(s, s')
  {
    QuietKeeps(s, s');
  }

  lemma SendKeeps(s: State, lane: Lane, f: Frame)
    requires Inv(s) && !f.Changed? && (f.Reply? ==> 1 <= f.ticket <= s.done)
    ensures Inv(Send(s, lane, f)) && Extends(s, Send(s, lane, f)) && Sends(s, Send(s, lane, f))
  {
    QuietKeeps(s, Send(s, lane, f));
  }

  lemma AskKeeps(s: State, s': State)
    requires Inv(s) && (AskBarrier(s, s') || AskStop(s, s') || WriterStep(s, s'))
    ensures Inv(s') && Extends(s, s') && Sends(s, s')
  {
    QuietKeeps(s, s');
  }

  /** The newest change is in the pipe or in hand, or nobody answers for it. */
  lemma NewChange(s: State, s': State, d: Dir, n: Name, v: Stat)
    requires Books(s) && FsChange(s, s', d, n, v) && s'.log[|s.log|].wd.Some?
    ensures OnWatch(s'.log[|s.log|]) in s.began
    ensures Stands(s.reg, OnWatch(s'.log[|s.log|])) || OnWatch(s'.log[|s.log|]) in s.ended
    ensures Obliged(s', |s.log|) ==> Piped(s', s'.log[|s.log|].wd.value, n) || InHand(s', d, n, |s.log|)
  {
  }

  lemma ChangeKeeps(s: State, s': State, d: Dir, n: Name, v: Stat)
    requires Inv(s) && FsChange(s, s', d, n, v)
    ensures Inv(s') && Extends(s, s') && Sends(s, s')
  {
    var mid := s.(queue := s'.queue);
    QuietKeeps(s, mid);
    ChangeBooks(s, s', d, n, v);
    if s'.log[|s.log|].wd.Some? { NewChange(s, s', d, n, v); }
    LogGrows(mid, s');
  }

  /** One more change, in the pipe or in hand if anybody answers for it. */
  lemma LogGrows(s: State, s': State)
    requires Inv(s) && Books(s') && |s'.log| == |s.log| + 1 && s' == s.(log := s'.log) && s.log <= s'.log
    requires var c := s'.log[|s.log|];
      c.wd.Some? ==>
        && (Stands(s.reg, OnWatch(c)) || OnWatch(c) in s.ended)
        && (Obliged(s', |s.log|) ==> Piped(s', c.wd.value, c.name) || InHand(s', c.dir, c.name, |s.log|))
    ensures Inv(s')
  {
    forall i: nat | Obliged(s', i)
      ensures Piped(s', s'.log[i].wd.value, s'.log[i].name) || Carried(s', i)
      ensures i < Upto(s'.phase) ==> Carried(s', i)
      ensures i < Asked(s'.asked, s'.done) ==> Said(s'.hist, s'.log[i].dir, s'.log[i].name, i)
    {
      if i < |s.log| {
        assert Obliged(s, i);
      }
    }
  }

  lemma ChangeBooks(s: State, s': State, d: Dir, n: Name, v: Stat)
    requires Books(s) && FsChange(s, s', d, n, v)
    ensures Books(s')
  {
  }

  lemma DirGoneKeeps(s: State, s': State, w: Wd)
    requires Inv(s) && DirGone(s, s', w)
    ensures Inv(s') && Extends(s, s') && Sends(s, s')
  {
    DirGoneMarks(s, s', w);
    Lift(s, s');
  }

  lemma DirGoneMarks(s: State, s': State, w: Wd)
    requires Books(s) && DirGone(s, s', w)
    ensures Books(s') && Keeps(s.blind, s'.blind)
  {
  }

  lemma BegunNames(s: State, d: Dir, w: Wd)
    requires NamesOk(s.nextWd, s.began, s.reg) && d !in s.reg.byDir && d != "" && MayAnswer(s, w)
    ensures var t := Begun(s, d, w); NamesOk(t.nextWd, t.began, t.reg)
    ensures Watch(w, d) !in s.began
  {
    AddKeepsSound(s.reg, d, w);
  }

  lemma BegunReg(s: State, d: Dir, w: Wd)
    requires RegOk(s.nextWd, s.began, s.ended, s.live, s.reg)
    requires d !in s.reg.byDir && d != "" && MayAnswer(s, w)
    ensures var t := Begun(s, d, w); RegOk(t.nextWd, t.began, t.ended, t.live, t.reg)
    ensures Watch(w, d) !in s.began
  {
    BegunNames(s, d, w);
  }

  lemma BegunBooks(s: State, d: Dir, w: Wd)
    requires Books(s) && d !in s.reg.byDir && d != "" && MayAnswer(s, w)
    ensures Books(Begun(s, d, w)) && Watch(w, d) !in s.began
  {
    BegunReg(s, d, w);
  }

  /** Only a change made under the name that loses its descriptor is touched. */
  lemma BegunPoint(s: State, d: Dir, w: Wd, i: nat)
    requires Books(s) && d !in s.reg.byDir && d != "" && MayAnswer(s, w) && i < |s.log|
    ensures Point(s, Begun(s, d, w), i)
  {
  }

  lemma BegunKeeps(s: State, d: Dir, w: Wd)
    requires Inv(s) && d !in s.reg.byDir && d != "" && MayAnswer(s, w)
    ensures Inv(Begun(s, d, w)) && Extends(s, Begun(s, d, w))
  {
    var t := Begun(s, d, w);
    BegunBooks(s, d, w);
    forall i: nat | i < |s.log|
      ensures Point(s, t, i)
    {
      BegunPoint(s, d, w, i);
    }
    Lift(s, t);
  }

  lemma ExtendsOn(s: State, t: State, s': State)
    requires Extends(s, t) && t.hist == s.hist && t.log == s.log && Extends(t, s')
    ensures Extends(s, s')
  {
  }

  lemma WatchKeeps(s: State, s': State, d: Dir, w: Wd)
    requires Inv(s) && BeginWatch(s, s', d, w)
    ensures Inv(s') && Extends(s, s') && Sends(s, s')
  {
    BegunKeeps(s, d, w);
    var t := Begun(s, d, w);
    if s' != t {
      DropKeeps(t, s', s.reg.order[0], true);
      ExtendsOn(s, t, s');
    }
  }

  lemma DroppedReg(s: State, s': State, d: Dir, tell: bool)
    requires RegOk(s.nextWd, s.began, s.ended, s.live, s.reg) && Dropped(s, s', d, tell)
    ensures RegOk(s'.nextWd, s'.began, s'.ended, s'.live, s'.reg)
  {
    DropKeepsSound(s.reg, d);
  }

  lemma DroppedBooks(s: State, s': State, d: Dir, tell: bool)
    requires Books(s) && Dropped(s, s', d, tell)
    ensures Books(s')
  {
    DroppedReg(s, s', d, tell);
  }

  /** A farewell covers every change of its directory so far. */
  lemma FarewellSaid(hist: seq<Sent>, hist': seq<Sent>, d: Dir, n: Name, at: nat, i: nat)
    requires hist' == hist + [Sent(Changed(Reset(d, true)), at)] && i < at
    ensures Said(hist', d, n, i)
  {
    assert Covers(hist'[|hist|], d, n, i);
  }

  lemma DroppedPoint(s: State, s': State, d: Dir, tell: bool, i: nat)
    requires Books(s) && Dropped(s, s', d, tell) && i < |s.log|
    ensures Point(s, s', i)
  {
    var c := s.log[i];
    if c.wd.Some? && Stands(s.reg, OnWatch(c)) && d in s.reg.byDir {
      if c.wd.value == s.reg.byDir[d] {
        DroppedEnds(s, s', d, tell, i);
      } else {
        DroppedMoves(s, s', d, tell, c.wd.value, c.dir, c.name, i);
      }
    }
  }

  /** The registration the descriptor meant is over: told, or ended in silence. */
  lemma DroppedEnds(s: State, s': State, d: Dir, tell: bool, i: nat)
    requires Dropped(s, s', d, tell) && i < |s.log| && s.log[i].wd.Some? && d in s.reg.byDir
    requires Stands(s.reg, OnWatch(s.log[i])) && s.log[i].wd.value == s.reg.byDir[d]
    ensures !Stands(s'.reg, OnWatch(s.log[i]))
    ensures OnWatch(s.log[i]) in s'.ended || Said(s'.hist, s.log[i].dir, s.log[i].name, i)
  {
    if tell && s.log[i].dir == d {
      FarewellSaid(s.hist, s'.hist, d, s.log[i].name, |s.log|, i);
    }
  }

  lemma DroppedMoves(s: State, s': State, e: Dir, tell: bool, w: Wd, d: Dir, n: Name, i: nat)
    requires Dropped(s, s', e, tell) && e in s.reg.byDir && w != s.reg.byDir[e] && Stands(s.reg, Watch(w, d))
    ensures Stands(s'.reg, Watch(w, d)) && HandKept(s, s', d, n, i) && PipeKept(s, s', w, d, n, i)
  {
    assert s'.hold == s.hold && s'.phase == s.phase;
  }

  lemma DropKeeps(s: State, s': State, d: Dir, tell: bool)
    requires Inv(s) && Dropped(s, s', d, tell)
    ensures Inv(s') && Extends(s, s') && Sends(s, s')
  {
    DroppedBooks(s, s', d, tell);
    forall i: nat | i < |s.log|
      ensures Point(s, s', i)
    {
      DroppedPoint(s, s', d, tell, i);
    }
    DroppedSends(s, s', d, tell);
    Lift(s, s');
  }

  lemma DroppedSends(s: State, s': State, d: Dir, tell: bool)
    requires Dropped(s, s', d, tell)
    ensures Extends(s, s') && Sends(s, s') && Shrinks(s, s')
    ensures s'.phase == s.phase && s'.asked == s.asked && s'.done == s.done && s'.hold == s.hold
  {
  }

  // ---- Steps of the watcher thread ---------------------------------------

  /** A step that sends nothing and leaves the registrations alone. */
  ghost predicate Silent(s: State, s': State) {
    && SameWatches(s, s') && s'.hist == s.hist && s'.lanes == s.lanes && s'.writer == s.writer
    && s'.asked == s.asked
  }

  lemma SilentExtends(s: State, s': State)
    requires Silent(s, s') && s.done <= s'.done
    ensures Extends(s, s') && Sends(s, s')
  {
  }

  lemma PollKeeps(s: State, s': State)
    requires Inv(s) && (PollStep(s, s') || WakeStep(s, s'))
    ensures Inv(s') && Extends(s, s') && Sends(s, s')
  {
    PollSilent(s, s');
    SilentExtends(s, s');
    PollSettles(s, s');
    Settle(s, s');
  }

  lemma PollSettles(s: State, s': State)
    requires Books(s) && Silent(s, s') && s'.hold == s.hold && s'.queue == s.queue && s'.done == s.done
    requires s.phase.Polling? || s.phase.Waking?
    requires s'.phase.Waking? || s'.phase.Exited? || s'.phase == Draining(0) || s'.phase == Draining(|s.asked|)
             || s'.phase == FlushOverflow(0, 0)
    ensures Settles(s, s')
  {
  }

  lemma PollSilent(s: State, s': State)
    requires PollStep(s, s') || WakeStep(s, s')
    ensures Silent(s, s') && s'.hold == s.hold && s'.queue == s.queue && s'.done == s.done
    ensures s.phase.Polling? || s.phase.Waking?
    ensures s'.phase.Waking? || s'.phase.Exited? || s'.phase == Draining(0) || s'.phase == Draining(|s.asked|)
            || s'.phase == FlushOverflow(0, 0)
  {
  }

  lemma ReadKeeps(s: State, s': State, k: nat)
    requires Inv(s) && ReadStep(s, s', k)
    ensures Inv(s') && Extends(s, s') && Sends(s, s')
  {
    ReadSettles(s, s', k);
    SilentExtends(s, s');
    Settle(s, s');
  }

  lemma ReadSettles(s: State, s': State, k: nat)
    requires Books(s) && ReadStep(s, s', k)
    ensures Settles(s, s') && Silent(s, s')
  {
    assert s.queue == s.queue[..k] + s.queue[k..];
    assert forall e :: InPipe(s, e) ==> InPipe(s', e);
  }

  lemma DigestKeeps(s: State, s': State)
    requires Inv(s) && DigestStep(s, s')
    ensures Inv(s') && Extends(s, s') && Sends(s, s')
  {
    DigestSettles(s, s');
    SilentExtends(s, s');
    Settle(s, s');
  }

  lemma DigestSettles(s: State, s': State)
    requires Books(s) && DigestStep(s, s')
    ensures Settles(s, s') && Silent(s, s')
  {
    AbsorbAllKeeps(s.hold, s.reg.byWd, s.phase.buf);
    forall e | e in s.phase.buf
      ensures e.Overflow? ==> s'.hold.overflow
      ensures e.SelfGone? && e.wd in s.reg.byWd ==> s.reg.byWd[e.wd] in s'.hold.gone
      ensures e.Named? && e.wd in s.reg.byWd && !IsTemp(e.name) ==> Due(s'.hold, s.reg.byWd[e.wd], e.name)
    {
      AbsorbAllTakes(s.hold, s.reg.byWd, s.phase.buf, e);
    }
  }

  lemma DrainedKeeps(s: State, s': State)
    requires Inv(s) && DrainedStep(s, s')
    ensures Inv(s') && Extends(s, s') && Sends(s, s')
  {
    var t := s.(phase := Polling);
    RestSettles(s, t);
    Settle(s, t);
    SilentExtends(s, s');
    if s' != t {
      DrainedPass(s, s');
    }
  }

  lemma RestSettles(s: State, t: State)
    requires Books(s) && s.phase.Draining? && t == s.(phase := Polling)
    ensures Settles(s, t)
  {
  }

  /** An empty queue and no buffer: all that is owed is in hand or told. */
  lemma DrainedPass(s: State, s': State)
    requires Inv(s) && Inv(s.(phase := Polling)) && DrainedStep(s, s') && s'.phase == FlushOverflow(s.phase.bar, |s.log|)
    ensures Inv(s')
  {
    var t := s.(phase := Polling);
    forall i: nat | Obliged(s', i)
      ensures Carried(s', i)
    {
      assert Obliged(t, i);
    }
    assert FarewellOk(t) && DoneOk(t);
  }

  lemma OverflowKeeps(s: State, s': State)
    requires Inv(s) && OverflowStep(s, s')
    ensures Inv(s') && Extends(s, s') && Sends(s, s')
  {
    if s.hold.overflow {
      OverflowSettles(s, s');
    } else {
      NoOverflowSettles(s, s');
    }
    TellExtends(s, s');
    Settle(s, s');
  }

  lemma NoOverflowSettles(s: State, s': State)
    requires Books(s) && OverflowStep(s, s') && !s.hold.overflow
    ensures Settles(s, s')
  {
  }

  /** A reset of all tells every change so far. */
  lemma OverflowSettles(s: State, s': State)
    requires Books(s) && OverflowStep(s, s') && s.hold.overflow
    ensures Settles(s, s')
  {
    forall i: nat | i < |s.log|
      ensures Said(s'.hist, s.log[i].dir, s.log[i].name, i)
    {
      assert Covers(s'.hist[|s.hist|], s.log[i].dir, s.log[i].name, i);
    }
  }

  lemma TellExtends(s: State, s': State)
    requires OverflowStep(s, s') || ResetStep(s, s') || EntriesStep(s, s')
    ensures Extends(s, s') && Sends(s, s')
  {
  }

  /** Dropping a directory and then taking it off the list is one step. */
  lemma GoneKeeps(s: State, s': State, d: Dir)
    requires Inv(s) && GoneStep(s, s', d)
    ensures Inv(s') && Extends(s, s') && Sends(s, s')
  {
    var t := s'.(hold := s.hold);
    assert Dropped(s, t, d, true);
    DropKeeps(s, t, d, true);
    Unlist(t, s', d);
  }

  /** A directory that is not registered is owed nothing. */
  lemma Unlist(t: State, s': State, d: Dir)
    requires Inv(t) && d !in t.reg.byDir && t.phase.FlushGone?
    requires s' == t.(hold := Hold(t.hold.pending - {d}, t.hold.resets - {d}, t.hold.gone - {d}, t.hold.overflow))
    ensures Inv(s')
  {
    forall i: nat | i < |t.log|
      ensures Point(t, s', i)
    {
      UnlistPoint(t, s', d, i);
    }
    Lift(t, s');
  }

  lemma UnlistPoint(t: State, s': State, d: Dir, i: nat)
    requires Books(t) && d !in t.reg.byDir && t.phase.FlushGone? && i < |t.log|
    requires s' == t.(hold := Hold(t.hold.pending - {d}, t.hold.resets - {d}, t.hold.gone - {d}, t.hold.overflow))
    ensures Point(t, s', i)
  {
  }

  lemma GoneDoneKeeps(s: State, s': State)
    requires Inv(s) && GoneDoneStep(s, s')
    ensures Inv(s') && Extends(s, s') && Sends(s, s')
  {
    GoneDoneSettles(s, s');
    SilentExtends(s, s');
    Settle(s, s');
  }

  lemma GoneDoneSettles(s: State, s': State)
    requires Books(s) && GoneDoneStep(s, s')
    ensures Settles(s, s') && Silent(s, s')
  {
  }

  lemma ConsultReg(s: State, d: Dir)
    requires RegOk(s.nextWd, s.began, s.ended, s.live, s.reg)
    ensures RegOk(s.nextWd, s.began, s.ended, s.live, Consult(s.reg, d))
    ensures forall x :: x in s.began ==> (Stands(Consult(s.reg, d), x) <==> Stands(s.reg, x))
  {
  }

  lemma ConsultKeeps(s: State, d: Dir)
    requires Inv(s)
    ensures Inv(s.(reg := Consult(s.reg, d)))
  {
    ConsultReg(s, d);
    Lift(s, s.(reg := Consult(s.reg, d)));
  }

  lemma DirTakenKeeps(s: State, s': State, d: Dir)
    requires Inv(s) && DirStep(s, s', d, false)
    ensures Inv(s') && Extends(s, s') && Sends(s, s')
  {
    ConsultKeeps(s, d);
    TakenSettles(s.(reg := Consult(s.reg, d)), s', d);
    TakenExtends(s, s', d);
  }

  lemma TakenExtends(s: State, s': State, d: Dir)
    requires DirStep(s, s', d, false)
    ensures Extends(s, s') && Sends(s, s')
  {
  }

  lemma TakenSettles(t: State, s': State, d: Dir)
    requires Inv(t) && DirStep(t, s', d, false) && t.reg == Consult(t.reg, d)
    ensures Inv(s')
  {
    if d !in t.reg.byDir {
      SkipSettles(t, s', d);
    } else if d in t.hold.resets {
      ResetSettles(t, s', d);
    } else {
      StatSettles(t, s', d);
    }
    Settle(t, s');
  }

  /** A directory dropped meanwhile is owed nothing. */
  lemma SkipSettles(t: State, s': State, d: Dir)
    requires Books(t) && t.phase.FlushDirs? && d in t.phase.todo && d !in t.reg.byDir
    requires s' == t.(phase := FlushDirs(t.phase.bar, t.phase.upto, t.phase.todo - {d}))
    ensures Settles(t, s')
  {
  }

  lemma ResetSettles(t: State, s': State, d: Dir)
    requires Books(t) && t.phase.FlushDirs? && d in t.phase.todo
    requires s' == t.(phase := EmitReset(t.phase.bar, t.phase.upto, t.phase.todo - {d}, d))
    ensures Settles(t, s')
  {
  }

  lemma StatSettles(t: State, s': State, d: Dir)
    requires Books(t) && t.phase.FlushDirs? && d in t.phase.todo && d in t.hold.pending && d !in t.hold.resets
    requires s' == t.(phase := Statting(t.phase.bar, t.phase.upto, t.phase.todo - {d}, d, t.hold.pending[d], map[]))
    ensures Settles(t, s')
  {
  }

  lemma DirBusyKeeps(s: State, s': State, d: Dir)
    requires Inv(s) && DirStep(s, s', d, true) && d in s.reg.byDir
    ensures Inv(s') && Extends(s, s') && Sends(s, s')
  {
    var t := s.(reg := Consult(s.reg, d));
    ConsultKeeps(s, d);
    var u := s'.(phase := s.phase);
    assert Dropped(t, u, d, true);
    DropKeeps(t, u, d, true);
    Unlisted(u, s', d);
  }

  lemma Unlisted(u: State, s': State, d: Dir)
    requires Inv(u) && d !in u.reg.byDir && u.phase.FlushDirs? && d in u.phase.todo
    requires s' == u.(phase := FlushDirs(u.phase.bar, u.phase.upto, u.phase.todo - {d}))
    ensures Inv(s')
  {
    SkipSettles(u, s', d);
    Settle(u, s');
  }

  lemma DirKeeps(s: State, s': State, d: Dir, busy: bool)
    requires Inv(s) && DirStep(s, s', d, busy)
    ensures Inv(s') && Extends(s, s') && Sends(s, s')
  {
    if busy && d in s.reg.byDir {
      DirBusyKeeps(s, s', d);
    } else {
      DirTakenKeeps(s, s', d);
    }
  }

  lemma ResetKeeps(s: State, s': State)
    requires Inv(s) && ResetStep(s, s')
    ensures Inv(s') && Extends(s, s') && Sends(s, s')
  {
    ResetTold(s, s');
    TellExtends(s, s');
    Settle(s, s');
  }

  lemma ResetTold(s: State, s': State)
    requires Books(s) && ResetStep(s, s')
    ensures Settles(s, s')
  {
    forall i: nat | i < |s.log| && s.log[i].dir == s.phase.dir
      ensures Said(s'.hist, s.log[i].dir, s.log[i].name, i)
    {
      assert Covers(s'.hist[|s.hist|], s.log[i].dir, s.log[i].name, i);
    }
  }

  lemma EntriesKeeps(s: State, s': State)
    requires Inv(s) && EntriesStep(s, s')
    ensures Inv(s') && Extends(s, s') && Sends(s, s')
  {
    EntriesTold(s, s');
    TellExtends(s, s');
    Settle(s, s');
  }

  lemma EntriesTold(s: State, s': State)
    requires Books(s) && EntriesStep(s, s')
    ensures Settles(s, s')
  {
    forall i: nat | i < |s.log|
      ensures Moves(s, s', i)
    {
      var c := s.log[i];
      if c.dir == s.phase.dir && c.name in s.phase.seen && s.phase.seen[c.name].at > i {
        assert Covers(s'.hist[|s.hist|], c.dir, c.name, i);
      }
    }
  }

  lemma StatKeeps(s: State, s': State, n: Name)
    requires Inv(s) && StatStep(s, s', n)
    ensures Inv(s') && Extends(s, s') && Sends(s, s')
  {
    StatReads(s, s', n);
    SilentExtends(s, s');
    Settle(s, s');
  }

  lemma StatReads(s: State, s': State, n: Name)
    requires Books(s) && StatStep(s, s', n)
    ensures Settles(s, s') && Silent(s, s')
  {
  }

  lemma PassDoneKeeps(s: State, s': State)
    requires Inv(s) && PassDoneStep(s, s')
    ensures Inv(s') && Extends(s, s') && Sends(s, s')
  {
    PassDoneInv(s, s');
    SilentExtends(s, s');
  }

  lemma PassDoneSettles(s: State, s': State)
    requires Books(s) && PassDoneStep(s, s')
    ensures Settles(s, s'.(done := s.done)) && s'.done <= |s.asked|
  {
  }

  lemma PassDoneInv(s: State, s': State)
    requires Inv(s) && PassDoneStep(s, s')
    ensures Inv(s')
  {
    var t := s'.(done := s.done);
    PassDoneSettles(s, s');
    Settle(s, t);
    forall i: nat | Obliged(s, i) && i < Asked(s'.asked, s'.done)
      ensures Said(s.hist, s.log[i].dir, s.log[i].name, i)
    {
      PassTold(s, i);
    }
    DoneRises(t, s');
  }

  /** At the end of a pass, all that is older than its ticket has been told. */
  lemma PassTold(s: State, i: nat)
    requires Inv(s) && s.phase.FlushDirs? && s.phase.todo == {} && Obliged(s, i)
    requires i < Asked(s.asked, s.done) || i < Asked(s.asked, s.phase.bar)
    ensures Said(s.hist, s.log[i].dir, s.log[i].name, i)
  {
  }

  lemma DoneRises(t: State, s': State)
    requires Inv(t) && s' == t.(done := s'.done) && s'.done <= |t.asked|
    requires forall i: nat :: Obliged(t, i) && i < Asked(t.asked, s'.done) ==> Said(t.hist, t.log[i].dir, t.log[i].name, i)
    ensures Inv(s')
  {
    forall i: nat | Obliged(s', i)
      ensures Piped(s', s'.log[i].wd.value, s'.log[i].name) || Carried(s', i)
      ensures i < Upto(s'.phase) ==> Carried(s', i)
      ensures i < Asked(s'.asked, s'.done) ==> Said(s'.hist, s'.log[i].dir, s'.log[i].name, i)
    {
      assert Obliged(t, i);
    }
  }

  // ---- Over whole runs ---------------------------------------------------

  lemma EnvKeepsInv(s: State, s': State)
    requires Inv(s) && EnvStep(s, s')
    ensures Inv(s') && Extends(s, s') && Sends(s, s')
  {
    if d, n, v :| FsChange(s, s', d, n, v) {
      ChangeKeeps(s, s', d, n, v);
    } else if w :| DirGone(s, s', w) {
      DirGoneKeeps(s, s', w);
    } else if d, w :| BeginWatch(s, s', d, w) {
      WatchKeeps(s, s', d, w);
    } else if d, tell :| Dropped(s, s', d, tell) {
      DropKeeps(s, s', d, tell);
    } else if e :| StrayEvent(s, s', e) {
      StrayKeeps(s, s', e);
    } else if t, lane :| SendReply(s, s', t, lane) {
      SendKeeps(s, lane, Reply(t));
    } else if lane :| SendOther(s, s', lane) {
      SendKeeps(s, lane, Other);
    } else {
      AskKeeps(s, s');
    }
  }

  lemma WatcherKeepsInv(s: State, s': State)
    requires Inv(s) && WatcherStep(s, s')
    ensures Inv(s') && Extends(s, s') && Sends(s, s')
  {
    if PollStep(s, s') || WakeStep(s, s') {
      PollKeeps(s, s');
    } else if k :| ReadStep(s, s', k) {
      ReadKeeps(s, s', k);
    } else if DigestStep(s, s') {
      DigestKeeps(s, s');
    } else if DrainedStep(s, s') {
      DrainedKeeps(s, s');
    } else if OverflowStep(s, s') {
      OverflowKeeps(s, s');
    } else if d :| GoneStep(s, s', d) {
      GoneKeeps(s, s', d);
    } else if GoneDoneStep(s, s') {
      GoneDoneKeeps(s, s');
    } else if d, busy :| DirStep(s, s', d, busy) {
      DirKeeps(s, s', d, busy);
    } else if ResetStep(s, s') {
      ResetKeeps(s, s');
    } else if EntriesStep(s, s') {
      EntriesKeeps(s, s');
    } else if n :| StatStep(s, s', n) {
      StatKeeps(s, s', n);
    } else {
      PassDoneKeeps(s, s');
    }
  }

  lemma NextKeepsInv(s: State, s': State)
    requires Inv(s) && Next(s, s')
    ensures Inv(s') && Extends(s, s') && Sends(s, s')
  {
    if EnvStep(s, s') {
      EnvKeepsInv(s, s');
    } else if WatcherStep(s, s') {
      WatcherKeepsInv(s, s');
    }
  }

  /** In every reachable state, every change the agent answers for is in the
      kernel queue, in the watcher's hands, or on its way to the client as a
      state read after it or a reset sent after it. */
  lemma {:induction false} RunKeepsInv(run: seq<State>, j: nat)
    requires IsRun(run) && j < |run|
    ensures Inv(run[j])
  {
    if j == 0 {
      InitInv(run[0]);
    } else {
      RunKeepsInv(run, j - 1);
      StepKeepsInv(run, j - 1);
    }
  }

  lemma StepKeepsInv(run: seq<State>, j: nat)
    requires IsRun(run) && j + 1 < |run| && Inv(run[j])
    ensures Inv(run[j + 1])
  {
    RunSteps(run, j);
    NextKeepsInv(run[j], run[j + 1]);
  }

  lemma InitInv(s: State)
    requires Init(s)
    ensures Inv(s)
  {
  }

  lemma StepOfRun(run: seq<State>, j: nat)
    requires IsRun(run) && j + 1 < |run|
    ensures Extends(run[j], run[j + 1]) && Sends(run[j], run[j + 1])
  {
    RunKeepsInv(run, j);
    RunSteps(run, j);
    NextKeepsInv(run[j], run[j + 1]);
  }

  /** At every moment of every run, a change made under a watch is in the kernel's
      queue or the read buffer, in the watcher's hands, or told: unless the watch
      had gone blind by then, or has ended without a word since. */
  lemma NoChangeIsLost(run: seq<State>, j: nat, i: nat)
    requires IsRun(run) && j < |run| && Obliged(run[j], i)
    ensures
      var s, c := run[j], run[j].log[i];
      Piped(s, c.wd.value, c.name) || InHand(s, c.dir, c.name, i) || Said(s.hist, c.dir, c.name, i)
  {
    RunKeepsInv(run, j);
  }
}
