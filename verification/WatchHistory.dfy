/**
 What every run of the DirWatch step system keeps about its past: reads announced
 are true and in order, registrations stand or had their farewell, and a watch
 that went blind left an overflow for the client to hear of.
 */
module WatchHistory {
  import opened Wrappers
  import opened Lanes
  import opened WatchRegistry
  import opened DirWatch
  import opened Announcements

  // ---- The invariant -----------------------------------------------------

  predicate ReadOk(log: seq<Change>, d: Dir, n: Name, r: Read, sent: nat) {
    r.at <= sent <= |log| && r.stat == StatAt(log, d, n, r.at)
  }

  predicate IsEntries(f: Frame) {
    f.Changed? && f.note.Entries?
  }

  /** Notes only the watcher thread sends: the ones it orders with its stats. */
  predicate WatcherNote(f: Frame) {
    f.Changed? && (f.note.Reset? ==> !f.note.unwatched)
  }

  ghost predicate HistOk(log: seq<Change>, hist: seq<Sent>) {
    && (forall k :: 0 <= k < |hist| ==> hist[k].at <= |log|)
    && (forall k, k' :: 0 <= k <= k' < |hist| ==> hist[k].at <= hist[k'].at)
    && (forall k, n :: 0 <= k < |hist| && IsEntries(hist[k].frame) && n in hist[k].frame.note.seen
          ==> ReadOk(log, hist[k].frame.note.dir, n, hist[k].frame.note.seen[n], hist[k].at))
  }

  /** Later entries are read after earlier notes of the watcher were sent. */
  ghost predicate OrderOk(hist: seq<Sent>) {
    forall k, k', n ::
      0 <= k < k' < |hist| && WatcherNote(hist[k].frame) && IsEntries(hist[k'].frame) && n in hist[k'].frame.note.seen
      ==> hist[k].at <= hist[k'].frame.note.seen[n].at
  }

  function Seen(p: Phase): map<Name, Read> {
    if p.Statting? then p.seen else map[]
  }

  ghost predicate SeenOk(log: seq<Change>, hist: seq<Sent>, p: Phase) {
    && (forall n :: n in Seen(p) ==> ReadOk(log, p.dir, n, p.seen[n], |log|))
    && (forall n, k :: n in Seen(p) && 0 <= k < |hist| && WatcherNote(hist[k].frame) ==> hist[k].at <= p.seen[n].at)
  }

  /** What has been read and announced: true at its moment, in order. */
  ghost predicate Reads(log: seq<Change>, hist: seq<Sent>, p: Phase) {
    HistOk(log, hist) && OrderOk(hist) && SeenOk(log, hist, p)
  }

  /** A registration that stands: no farewell since it began, and every change of
      its directory since was made under it. */
  ghost predicate MarkOk(log: seq<Change>, hist: seq<Sent>, m: Mark, x: Watch) {
    && m.at <= |log| && m.from <= |hist|
    && (forall k :: 0 <= k < m.from ==> hist[k].at <= m.at)
    && (forall k :: m.from <= k < |hist| ==> hist[k].frame != Changed(Reset(x.dir, true)))
    && (forall i :: m.at <= i < |log| && log[i].dir == x.dir ==> log[i].wd == Some(x.wd))
  }

  predicate Farewell(hist: seq<Sent>, from: nat, d: Dir) {
    exists k :: from <= k < |hist| && hist[k].frame == Changed(Reset(d, true))
  }

  /** Every registration stands, ended without a word, or had its farewell. */
  ghost predicate MarksInv(s: State) {
    forall x :: x in s.began ==>
      if Stands(s.reg, x) then MarkOk(s.log, s.hist, s.began[x], x)
      else x in s.ended || Farewell(s.hist, s.began[x].from, x.dir)
  }

  /** An overflow is in the pipe or held, or all was reset since `from`. */
  predicate AllTold(s: State, from: nat) {
    || InPipe(s, Overflow) || s.hold.overflow
    || exists k :: from <= k < |s.hist| && s.hist[k].frame == Changed(ResetAll)
  }

  ghost predicate BlindInv(s: State) {
    forall x :: x in s.blind ==> AllTold(s, s.blind[x].from)
  }

  ghost predicate ReadInv(s: State) {
    Reads(s.log, s.hist, s.phase) && MarksInv(s) && BlindInv(s)
  }

  // ---- Reads -------------------------------------------------------------

  lemma {:induction false} StatAtPrefix(log: seq<Change>, log': seq<Change>, d: Dir, n: Name, at: nat)
    requires at <= |log| && log <= log'
    ensures StatAt(log', d, n, at) == StatAt(log, d, n, at)
  {
    if at > 0 {
      StatAtPrefix(log, log', d, n, at - 1);
    }
  }

  lemma {:induction false} StatAtUnchanged(log: seq<Change>, d: Dir, n: Name, a: nat, b: nat)
    requires a <= b <= |log|
    requires forall i :: a <= i < b ==> !(log[i].dir == d && log[i].name == n)
    ensures StatAt(log, d, n, a) == StatAt(log, d, n, b)
  {
    if a < b {
      StatAtUnchanged(log, d, n, a, b - 1);
    }
  }

  /** Nothing is read or announced. */
  predicate StillStep(s: State, s': State) {
    s.log <= s'.log && s'.hist == s.hist && (s'.phase == s.phase || Seen(s'.phase) == map[])
  }

  /** A frame other than entries is sent; one of the watcher's only when it holds
      no read. */
  predicate FrameStep(s: State, s': State) {
    && s'.log == s.log && |s'.hist| == |s.hist| + 1
    && var f := s'.hist[|s.hist|].frame;
       && s'.hist == s.hist + [Sent(f, |s.log|)] && !IsEntries(f)
       && ((s'.phase == s.phase && !WatcherNote(f)) || Seen(s'.phase) == map[])
  }

  ghost predicate ReadsStep(s: State, s': State) {
    StillStep(s, s') || FrameStep(s, s') || (exists n :: StatStep(s, s', n)) || EntriesStep(s, s')
  }

  // The steps by what they touch.

  /** Something happens aside: nothing is changed, registered, read or told. */
  ghost predicate Aside(s: State, s': State) {
    && s'.log == s.log && s'.hist == s.hist && s'.phase == s.phase && s'.hold == s.hold
    && s'.reg == s.reg && s'.began == s.began && s'.ended == s.ended
    && (forall e :: e in s.queue ==> e in s'.queue)
    && (s'.blind == s.blind || Overflow in s'.queue)
  }

  ghost predicate AsideStep(s: State, s': State) {
    || (exists e :: StrayEvent(s, s', e)) || (exists w :: DirGone(s, s', w))
    || AskBarrier(s, s') || WriterStep(s, s') || AskStop(s, s')
  }

  lemma AsideIs(s: State, s': State)
    requires AsideStep(s, s')
    ensures Aside(s, s')
  {
  }

  /** The watcher neither reads a name nor tells anything. */
  ghost predicate Turn(s: State, s': State) {
    && s'.log == s.log && s'.hist == s.hist && Seen(s'.phase) == map[]
    && s'.reg == s.reg && s'.began == s.began && s'.ended == s.ended && s'.blind == s.blind
  }

  ghost predicate TurnStep(s: State, s': State) {
    || PollStep(s, s') || WakeStep(s, s') || (exists k :: ReadStep(s, s', k)) || DigestStep(s, s')
    || DrainedStep(s, s') || GoneDoneStep(s, s') || PassDoneStep(s, s')
  }

  lemma TurnIs(s: State, s': State)
    requires TurnStep(s, s')
    ensures Turn(s, s')
  {
    if PollStep(s, s') || WakeStep(s, s') {
      PollSilent(s, s');
    }
  }

  /** A reset or a batch of reads goes out. */
  ghost predicate Telling(s: State, s': State) {
    && s'.log == s.log && Seen(s'.phase) == map[]
    && s'.reg == s.reg && s'.began == s.began && s'.ended == s.ended && s'.blind == s.blind
    && (s'.hist == s.hist
        || (|s'.hist| == |s.hist| + 1
            && s'.hist == s.hist + [Sent(s'.hist[|s.hist|].frame, |s.log|)]
            && WatcherNote(s'.hist[|s.hist|].frame)))
  }

  lemma TellingIs(s: State, s': State)
    requires OverflowStep(s, s') || ResetStep(s, s') || EntriesStep(s, s')
    ensures Telling(s, s')
  {
  }

  lemma DroppedIs(s: State, s': State, d: Dir, tell: bool)
    requires Dropped(s, s', d, tell)
    ensures s'.log == s.log && s'.phase == s.phase && s'.hold == s.hold && s'.blind == s.blind && s'.began == s.began
    ensures forall e :: e in s.queue ==> e in s'.queue
    ensures s'.hist == s.hist || s'.hist == s.hist + [Sent(Changed(Reset(d, true)), |s.log|)]
  {
  }

  /** Any step: aside, a turn, a reset, a change, a frame of another thread, a
      registration or its end, a stat or a batch of reads. */
  lemma NextReads(s: State, s': State)
    requires Next(s, s')
    ensures ReadsStep(s, s')
  {
    if EnvStep(s, s') {
      EnvReads(s, s');
    } else if WatcherStep(s, s') {
      WatcherReads(s, s');
    }
  }

  lemma EnvReads(s: State, s': State)
    requires EnvStep(s, s')
    ensures ReadsStep(s, s')
  {
    if AsideStep(s, s') {
      AsideIs(s, s');
    } else if d, tell :| Dropped(s, s', d, tell) {
      DroppedIs(s, s', d, tell);
    } else if d, w :| BeginWatch(s, s', d, w) {
      WatchIs(s, s', d, w);
    } else {
      OtherReads(s, s');
    }
  }

  lemma OtherReads(s: State, s': State)
    requires || (exists d, n, v :: FsChange(s, s', d, n, v)) || (exists t, lane :: SendReply(s, s', t, lane))
             || (exists lane :: SendOther(s, s', lane))
    ensures StillStep(s, s') || FrameStep(s, s')
  {
  }

  lemma WatchIs(s: State, s': State, d: Dir, w: Wd)
    requires BeginWatch(s, s', d, w)
    ensures s'.log == s.log && s'.phase == s.phase && s'.hold == s.hold && s'.blind == s.blind
    ensures forall e :: e in s.queue ==> e in s'.queue
    ensures s'.hist == s.hist || exists f: Dir :: s'.hist == s.hist + [Sent(Changed(Reset(f, true)), |s.log|)]
  {
    if s' != Begun(s, d, w) {
      DroppedIs(Begun(s, d, w), s', s.reg.order[0], true);
    }
  }

  lemma WatcherReads(s: State, s': State)
    requires WatcherStep(s, s')
    ensures ReadsStep(s, s')
  {
    if TurnStep(s, s') {
      TurnIs(s, s');
    } else if OverflowStep(s, s') || ResetStep(s, s') {
      FlushReads(s, s');
    } else if d :| GoneStep(s, s', d) {
      DroppedIs(s.(hold := s'.hold), s', d, true);
    } else if d, busy :| DirStep(s, s', d, busy) {
      DirReads(s, s', d, busy);
    }
  }

  lemma DirReads(s: State, s': State, d: Dir, busy: bool)
    requires DirStep(s, s', d, busy)
    ensures ReadsStep(s, s')
  {
    if busy && d in s.reg.byDir {
      DroppedIs(s.(phase := s'.phase, reg := Consult(s.reg, d)), s', d, true);
    }
  }

  lemma FlushReads(s: State, s': State)
    requires OverflowStep(s, s') || ResetStep(s, s')
    ensures StillStep(s, s') || FrameStep(s, s')
  {
  }

  lemma StillKeepsReads(s: State, s': State)
    requires Reads(s.log, s.hist, s.phase) && StillStep(s, s')
    ensures Reads(s'.log, s'.hist, s'.phase)
  {
    forall d, n, at | 0 <= at <= |s.log|
      ensures StatAt(s'.log, d, n, at) == StatAt(s.log, d, n, at)
    {
      StatAtPrefix(s.log, s'.log, d, n, at);
    }
  }

  lemma FrameKeepsReads(s: State, s': State)
    requires Reads(s.log, s.hist, s.phase) && FrameStep(s, s')
    ensures Reads(s'.log, s'.hist, s'.phase)
  {
  }

  lemma EntriesKeepsReads(s: State, s': State)
    requires Reads(s.log, s.hist, s.phase) && EntriesStep(s, s')
    ensures Reads(s'.log, s'.hist, s'.phase)
  {
  }

  lemma StatKeepsReads(s: State, s': State, n: Name)
    requires Reads(s.log, s.hist, s.phase) && StatStep(s, s', n)
    ensures Reads(s'.log, s'.hist, s'.phase)
  {
  }

  lemma StepKeepsReads(s: State, s': State)
    requires Reads(s.log, s.hist, s.phase) && Next(s, s')
    ensures Reads(s'.log, s'.hist, s'.phase)
  {
    NextReads(s, s');
    if StillStep(s, s') {
      StillKeepsReads(s, s');
    } else if FrameStep(s, s') {
      FrameKeepsReads(s, s');
    } else if EntriesStep(s, s') {
      EntriesKeepsReads(s, s');
    } else {
      var n :| StatStep(s, s', n);
      StatKeepsReads(s, s', n);
    }
  }

  // ---- Registrations -----------------------------------------------------

  /** The registrations are as they were, and nobody is told of an end. */
  predicate Steady(s: State, s': State) {
    && s'.log == s.log && s'.began == s.began && s'.ended == s.ended
    && (s'.hist == s.hist
        || (|s'.hist| == |s.hist| + 1 && s'.hist[..|s.hist|] == s.hist
            && (s'.hist[|s.hist|].frame.Changed? ==> !s'.hist[|s.hist|].frame.note.Reset? || !s'.hist[|s.hist|].frame.note.unwatched)))
  }

  lemma FarewellGrows(hist: seq<Sent>, hist': seq<Sent>, from: nat, d: Dir)
    requires hist <= hist' && Farewell(hist, from, d)
    ensures Farewell(hist', from, d)
  {
    var k :| from <= k < |hist| && hist[k].frame == Changed(Reset(d, true));
    assert hist'[k].frame == Changed(Reset(d, true));
  }

  lemma SteadyKeepsMarks(s: State, s': State)
    requires MarksInv(s) && Steady(s, s')
    requires forall x :: x in s.began ==> (Stands(s'.reg, x) <==> Stands(s.reg, x))
    ensures MarksInv(s')
  {
    forall x | x in s'.began
      ensures Stands(s'.reg, x) ==> MarkOk(s'.log, s'.hist, s'.began[x], x)
      ensures !Stands(s'.reg, x) ==> x in s'.ended || Farewell(s'.hist, s'.began[x].from, x.dir)
    {
      if !Stands(s.reg, x) && x !in s.ended {
        FarewellGrows(s.hist, s'.hist, s.began[x].from, x.dir);
      }
    }
  }

  lemma ChangeKeepsMarks(s: State, s': State, d: Dir, n: Name, v: Stat)
    requires Books(s) && MarksInv(s) && FsChange(s, s', d, n, v)
    ensures MarksInv(s')
  {
    forall x | x in s'.began && Stands(s'.reg, x)
      ensures MarkOk(s'.log, s'.hist, s'.began[x], x)
    {
      assert MarkOk(s.log, s.hist, s.began[x], x);
    }
  }

  lemma BegunKeepsMarks(s: State, d: Dir, w: Wd)
    requires Books(s) && MarksInv(s) && d !in s.reg.byDir && d != "" && MayAnswer(s, w)
    requires HistOk(s.log, s.hist)
    ensures MarksInv(Begun(s, d, w))
  {
    var t := Begun(s, d, w);
    BegunReg(s, d, w);
    forall x | x in t.began
      ensures Stands(t.reg, x) ==> MarkOk(t.log, t.hist, t.began[x], x)
      ensures !Stands(t.reg, x) ==> x in t.ended || Farewell(t.hist, t.began[x].from, x.dir)
    {
      if x != Watch(w, d) {
        assert x in s.began;
      }
    }
  }

  lemma DroppedKeepsMarks(s: State, s': State, d: Dir, tell: bool)
    requires Books(s) && MarksInv(s) && Dropped(s, s', d, tell)
    ensures MarksInv(s')
  {
    forall x | x in s'.began
      ensures Stands(s'.reg, x) ==> MarkOk(s'.log, s'.hist, s'.began[x], x)
      ensures !Stands(s'.reg, x) ==> x in s'.ended || Farewell(s'.hist, s'.began[x].from, x.dir)
    {
      if !Stands(s.reg, x) && x !in s.ended {
        FarewellGrows(s.hist, s'.hist, s.began[x].from, x.dir);
      } else if d in s.reg.byDir && x == Watch(s.reg.byDir[d], d) && tell {
        assert s'.hist[|s.hist|].frame == Changed(Reset(d, true));
      }
    }
  }

  lemma EnvKeepsMarks(s: State, s': State)
    requires Inv(s) && ReadInv(s) && EnvStep(s, s')
    ensures MarksInv(s')
  {
    if d, n, v :| FsChange(s, s', d, n, v) {
      ChangeKeepsMarks(s, s', d, n, v);
    } else if d, w :| BeginWatch(s, s', d, w) {
      WatchKeepsMarks(s, s', d, w);
    } else if d, tell :| Dropped(s, s', d, tell) {
      DroppedKeepsMarks(s, s', d, tell);
    } else {
      EnvIsSteady(s, s');
      SteadyKeepsMarks(s, s');
    }
  }

  lemma EnvIsSteady(s: State, s': State)
    requires AsideStep(s, s') || (exists t, lane :: SendReply(s, s', t, lane)) || (exists lane :: SendOther(s, s', lane))
    ensures Steady(s, s') && s'.reg == s.reg
  {
    if AsideStep(s, s') {
      AsideIs(s, s');
    }
  }

  lemma WatchKeepsMarks(s: State, s': State, d: Dir, w: Wd)
    requires Inv(s) && ReadInv(s) && BeginWatch(s, s', d, w)
    ensures MarksInv(s')
  {
    var t := Begun(s, d, w);
    BegunKeepsMarks(s, d, w);
    if s' != t {
      BegunBooks(s, d, w);
      DroppedKeepsMarks(t, s', s.reg.order[0], true);
    }
  }

  lemma ConsultKeepsMarks(s: State, d: Dir)
    requires Books(s) && MarksInv(s)
    ensures MarksInv(s.(reg := Consult(s.reg, d)))
  {
    ConsultReg(s, d);
    SteadyKeepsMarks(s, s.(reg := Consult(s.reg, d)));
  }

  lemma DirKeepsMarks(s: State, s': State, d: Dir, busy: bool)
    requires Inv(s) && MarksInv(s) && DirStep(s, s', d, busy)
    ensures MarksInv(s')
  {
    var t := s.(reg := Consult(s.reg, d));
    ConsultKeeps(s, d);
    ConsultKeepsMarks(s, d);
    if busy && d in s.reg.byDir {
      var u := s'.(phase := s.phase);
      assert Dropped(t, u, d, true);
      DroppedKeepsMarks(t, u, d, true);
    }
  }

  lemma GoneKeepsMarks(s: State, s': State, d: Dir)
    requires Books(s) && MarksInv(s) && GoneStep(s, s', d)
    ensures MarksInv(s')
  {
    var u := s'.(hold := s.hold);
    assert Dropped(s, u, d, true);
    DroppedKeepsMarks(s, u, d, true);
  }

  lemma WatcherKeepsMarks(s: State, s': State)
    requires Inv(s) && MarksInv(s) && WatcherStep(s, s')
    ensures MarksInv(s')
  {
    if d :| GoneStep(s, s', d) {
      GoneKeepsMarks(s, s', d);
    } else if d, busy :| DirStep(s, s', d, busy) {
      DirKeepsMarks(s, s', d, busy);
    } else if TurnStep(s, s') {
      TurnIs(s, s');
      SteadyKeepsMarks(s, s');
    } else if n :| StatStep(s, s', n) {
      SteadyKeepsMarks(s, s');
    } else {
      TellingIs(s, s');
      SteadyKeepsMarks(s, s');
    }
  }

  // ---- Overflows ---------------------------------------------------------

  /** What is in the pipe stays there. */
  lemma PipedStaysTold(s: State, s': State, from: nat)
    requires AllTold(s, from) && s.hist <= s'.hist
    requires InPipe(s, Overflow) ==> InPipe(s', Overflow) || s'.hold.overflow
    requires s.hold.overflow ==> s'.hold.overflow
    ensures AllTold(s', from)
  {
    if k :| from <= k < |s.hist| && s.hist[k].frame == Changed(ResetAll) {
      assert s'.hist[k].frame == Changed(ResetAll);
    }
  }

  ghost predicate OverflowKept(s: State, s': State) {
    && s.hist <= s'.hist
    && (InPipe(s, Overflow) ==> InPipe(s', Overflow) || s'.hold.overflow)
    && (s.hold.overflow ==> s'.hold.overflow)
  }

  lemma EnvOverflow(s: State, s': State)
    requires EnvStep(s, s')
    ensures OverflowKept(s, s') && (s'.blind == s.blind || Overflow in s'.queue)
  {
    if AsideStep(s, s') {
      AsideIs(s, s');
    } else if d, tell :| Dropped(s, s', d, tell) {
      DroppedIs(s, s', d, tell);
    } else if d, w :| BeginWatch(s, s', d, w) {
      WatchIs(s, s', d, w);
    } else {
      OtherOverflow(s, s');
    }
  }

  lemma OtherOverflow(s: State, s': State)
    requires || (exists d, n, v :: FsChange(s, s', d, n, v)) || (exists t, lane :: SendReply(s, s', t, lane))
             || (exists lane :: SendOther(s, s', lane))
    ensures OverflowKept(s, s') && s'.blind == s.blind
  {
  }

  lemma DigestOverflow(s: State, s': State)
    requires DigestStep(s, s')
    ensures OverflowKept(s, s')
  {
    AbsorbAllKeeps(s.hold, s.reg.byWd, s.phase.buf);
    if Overflow in s.phase.buf {
      AbsorbAllTakes(s.hold, s.reg.byWd, s.phase.buf, Overflow);
    }
  }

  lemma ReadOverflow(s: State, s': State, k: nat)
    requires ReadStep(s, s', k)
    ensures OverflowKept(s, s')
  {
    assert s.queue == s.queue[..k] + s.queue[k..];
  }

  lemma FlushOverflowTold(s: State, s': State, from: nat)
    requires OverflowStep(s, s') && AllTold(s, from) && from <= |s.hist|
    ensures AllTold(s', from)
  {
    if s.hold.overflow {
      assert s'.hist[|s.hist|].frame == Changed(ResetAll);
    } else {
      PipedStaysTold(s, s', from);
    }
  }

  lemma DirOverflow(s: State, s': State, d: Dir, busy: bool)
    requires DirStep(s, s', d, busy)
    ensures OverflowKept(s, s') && s'.blind == s.blind
  {
    if busy && d in s.reg.byDir {
      DroppedIs(s.(phase := s'.phase, reg := Consult(s.reg, d)), s', d, true);
    }
  }

  lemma RestOverflow(s: State, s': State)
    requires || PollStep(s, s') || WakeStep(s, s') || DrainedStep(s, s') || GoneDoneStep(s, s') || PassDoneStep(s, s')
             || ResetStep(s, s') || EntriesStep(s, s') || (exists n :: StatStep(s, s', n))
    ensures OverflowKept(s, s')
  {
    if PollStep(s, s') || WakeStep(s, s') {
      PollSilent(s, s');
    } else if ResetStep(s, s') || EntriesStep(s, s') {
      TellOverflow(s, s');
    } else if n :| StatStep(s, s', n) {
    } else {
      PassOverflow(s, s');
    }
  }

  lemma TellOverflow(s: State, s': State)
    requires ResetStep(s, s') || EntriesStep(s, s')
    ensures OverflowKept(s, s')
  {
  }

  lemma PassOverflow(s: State, s': State)
    requires DrainedStep(s, s') || GoneDoneStep(s, s') || PassDoneStep(s, s')
    ensures OverflowKept(s, s')
  {
  }

  lemma WatcherOverflow(s: State, s': State)
    requires WatcherStep(s, s') && !OverflowStep(s, s')
    ensures OverflowKept(s, s')
  {
    if DigestStep(s, s') {
      DigestOverflow(s, s');
    } else if k :| ReadStep(s, s', k) {
      ReadOverflow(s, s', k);
    } else if d :| GoneStep(s, s', d) {
      DroppedIs(s.(hold := s'.hold), s', d, true);
    } else if d, busy :| DirStep(s, s', d, busy) {
      DirOverflow(s, s', d, busy);
    } else {
      RestOverflow(s, s');
    }
  }

  lemma NextStaysTold(s: State, s': State, from: nat)
    requires Next(s, s') && AllTold(s, from) && from <= |s.hist|
    ensures AllTold(s', from)
  {
    if OverflowStep(s, s') {
      FlushOverflowTold(s, s', from);
    } else {
      if EnvStep(s, s') {
        EnvOverflow(s, s');
      } else if WatcherStep(s, s') {
        WatcherOverflow(s, s');
      }
      PipedStaysTold(s, s', from);
    }
  }

  /** A registration goes blind only with an overflow in the queue. */
  lemma NewlyBlind(s: State, s': State)
    requires Next(s, s')
    ensures s'.blind == s.blind || Overflow in s'.queue
  {
    if EnvStep(s, s') {
      EnvOverflow(s, s');
    } else if WatcherStep(s, s') {
      WatcherBlind(s, s');
    }
  }

  lemma WatcherBlind(s: State, s': State)
    requires WatcherStep(s, s')
    ensures s'.blind == s.blind
  {
    if TurnStep(s, s') {
      TurnIs(s, s');
    } else if d :| GoneStep(s, s', d) {
      DroppedIs(s.(hold := s'.hold), s', d, true);
    } else if d, busy :| DirStep(s, s', d, busy) {
      DirOverflow(s, s', d, busy);
    } else if OverflowStep(s, s') || ResetStep(s, s') || EntriesStep(s, s') {
      TellingIs(s, s');
    }
  }

  lemma StepKeepsBlind(s: State, s': State)
    requires Inv(s) && BlindInv(s) && Next(s, s') && Extends(s, s')
    ensures BlindInv(s')
  {
    forall x | x in s'.blind
      ensures AllTold(s', s'.blind[x].from)
    {
      if x in s.blind {
        NextStaysTold(s, s', s.blind[x].from);
      } else {
        NewlyBlind(s, s');
      }
    }
  }

  // ---- Over whole runs ---------------------------------------------------

  lemma InitReads(s: State)
    requires Init(s)
    ensures Inv(s) && ReadInv(s)
  {
  }

  lemma StepKeepsAll(s: State, s': State)
    requires Inv(s) && ReadInv(s) && Next(s, s')
    ensures Inv(s') && ReadInv(s') && Extends(s, s') && Sends(s, s')
  {
    NextKeepsInv(s, s');
    StepKeepsReads(s, s');
    StepKeepsBlind(s, s');
    if EnvStep(s, s') {
      EnvKeepsMarks(s, s');
    } else if WatcherStep(s, s') {
      WatcherKeepsMarks(s, s');
    }
  }

  lemma {:induction false} RunKeepsReads(run: seq<State>, j: nat)
    requires IsRun(run) && j < |run|
    ensures Inv(run[j]) && ReadInv(run[j])
  {
    if j == 0 {
      InitReads(run[0]);
    } else {
      RunKeepsReads(run, j - 1);
      RunStepKeepsAll(run, j - 1);
    }
  }

  lemma RunStepKeepsAll(run: seq<State>, j: nat)
    requires IsRun(run) && j + 1 < |run| && Inv(run[j]) && ReadInv(run[j])
    ensures Inv(run[j + 1]) && ReadInv(run[j + 1])
  {
    RunSteps(run, j);
    StepKeepsAll(run[j], run[j + 1]);
  }

  // ---- The registry ------------------------------------------------------

  lemma NextKeepsRegistry(s: State, s': State)
    requires Kept(s.reg) && Next(s, s')
    ensures Kept(s'.reg)
  {
    if EnvStep(s, s') {
      EnvRegistry(s, s');
    } else if WatcherStep(s, s') {
      WatcherRegistry(s, s');
    }
  }

  lemma EnvRegistry(s: State, s': State)
    requires Kept(s.reg) && EnvStep(s, s')
    ensures Kept(s'.reg)
  {
    if AsideStep(s, s') {
      AsideIs(s, s');
    } else if d, w :| BeginWatch(s, s', d, w) {
      WatchedRegistry(s, s', d, w);
      WatchedKept(s.reg, d, w);
    } else if d, tell :| Dropped(s, s', d, tell) {
      DroppedRegistry(s, s', d, tell);
      DropKept(s.reg, d);
    }
  }

  lemma DroppedRegistry(s: State, s': State, d: Dir, tell: bool)
    requires Dropped(s, s', d, tell)
    ensures s'.reg == Drop(s.reg, d)
  {
  }

  lemma WatchedRegistry(s: State, s': State, d: Dir, w: Wd)
    requires BeginWatch(s, s', d, w)
    ensures s'.reg == Watched(s.reg, d, w)
  {
    if s' != Begun(s, d, w) {
      DroppedRegistry(Begun(s, d, w), s', s.reg.order[0], true);
    }
  }

  lemma WatcherRegistry(s: State, s': State)
    requires Kept(s.reg) && WatcherStep(s, s')
    ensures Kept(s'.reg)
  {
    if TurnStep(s, s') {
      TurnIs(s, s');
    } else if d :| GoneStep(s, s', d) {
      DroppedRegistry(s.(hold := s'.hold), s', d, true);
      DropKept(s.reg, d);
    } else if d, busy :| DirStep(s, s', d, busy) {
      ConsultedRegistry(s, s', d, busy);
      OpKeeps(s.reg, Look(d));
      DropKept(Consult(s.reg, d), d);
    } else if OverflowStep(s, s') || ResetStep(s, s') || EntriesStep(s, s') {
      TellingIs(s, s');
    }
  }

  lemma ConsultedRegistry(s: State, s': State, d: Dir, busy: bool)
    requires DirStep(s, s', d, busy)
    ensures s'.reg == Consult(s.reg, d) || s'.reg == Drop(Consult(s.reg, d), d)
  {
    if busy && d in s.reg.byDir {
      DroppedRegistry(s.(phase := s'.phase, reg := Consult(s.reg, d)), s', d, true);
    }
  }

  lemma InitRegistry(s: State)
    requires Init(s)
    ensures Kept(s.reg)
  {
    HistoryKeeps([]);
    assert s.reg == History([]);
  }

  /** In every state of every run the order lists exactly the watched directories,
      there are at most 2048, and descriptors mean names registered under them. */
  lemma {:induction false} RunKeepsRegistry(run: seq<State>, j: nat)
    requires IsRun(run) && j < |run|
    ensures Kept(run[j].reg)
  {
    if j == 0 {
      InitRegistry(run[0]);
    } else {
      RunKeepsRegistry(run, j - 1);
      RunStepKeepsRegistry(run, j - 1);
    }
  }

  lemma RunStepKeepsRegistry(run: seq<State>, j: nat)
    requires IsRun(run) && j + 1 < |run| && Kept(run[j].reg)
    ensures Kept(run[j + 1].reg)
  {
    RunSteps(run, j);
    NextKeepsRegistry(run[j], run[j + 1]);
  }
}
