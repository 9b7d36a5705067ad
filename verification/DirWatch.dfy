/**
 Directory watches and the fs.changed announcements (agent/main.cpp, class
 DirWatcher, together with the Writer): a step system over the kernel's event
 queue, the registry, the watcher thread, the barrier tickets, and the wire.

 Everything done under one hold of the watcher's mutex is one step. Reading the
 inotify descriptor, taking the lock, each stat and each emission are separate
 steps, so anything else may happen in between.
 */
module DirWatch {
  import opened Wrappers
  import opened Lanes
  import opened WatchRegistry

  type Name = string

  const MAX_NAMES_PER_NOTE: nat := 256

  /** What a stat of one name answers. */
  datatype Stat = Deleted | Entry(attrs: int)

  /** One change of one name. `wd` is the watch the registry held for the
      directory when the change was made. */
  datatype Change = Change(dir: Dir, name: Name, stat: Stat, wd: Option<Wd>)

  datatype Event = Named(wd: Wd, name: Name) | SelfGone(wd: Wd) | Overflow

  /** A stat answer and how many changes had been made when it was read. */
  datatype Read = Read(stat: Stat, at: nat)

  datatype Note = Entries(dir: Dir, seen: map<Name, Read>) | Reset(dir: Dir, unwatched: bool) | ResetAll

  /** A frame handed to the writer: a notification, the reply of a handler
      whose barrier ticket was completed, or anything else. */
  datatype Frame = Changed(note: Note) | Reply(ticket: nat) | Other

  /** One registration: a directory and the descriptor answered for it. */
  datatype Watch = Watch(wd: Wd, dir: Dir)

  /** A moment: changes made and frames enqueued before it. */
  datatype Mark = Mark(at: nat, from: nat)

  /** A frame and how many changes had been made when it was enqueued. */
  datatype Sent = Sent(frame: Frame, at: nat)

  /** The watcher thread's locals: names changed in the current window. */
  datatype Hold = Hold(pending: map<Dir, set<Name>>, resets: set<Dir>, gone: set<Dir>, overflow: bool)

  const NOTHING: Hold := Hold(map[], {}, {}, false)

  /** Where the watcher thread is. `bar` is the barrier ticket the pass will
      complete, 0 for none; `upto` says how many changes had been made when
      the pass found the kernel queue empty, 0 when it did not look. */
  datatype Phase =
    | Polling
    | Waking
    | Draining(bar: nat)
    | Buffered(bar: nat, buf: seq<Event>)
    | FlushOverflow(bar: nat, upto: nat)
    | FlushGone(bar: nat, upto: nat)
    | FlushDirs(bar: nat, upto: nat, todo: set<Dir>)
    | EmitReset(bar: nat, upto: nat, todo: set<Dir>, dir: Dir)
    | Statting(bar: nat, upto: nat, todo: set<Dir>, dir: Dir, left: set<Name>, seen: map<Name, Read>)
    | Exited

  datatype State = State(
    log: seq<Change>,          // every named change so far
    queue: seq<Event>,         // the kernel's inotify queue
    live: set<Wd>,             // descriptors that report on the directory they mean
    began: map<Watch, Mark>,   // when each registration began
    blind: map<Watch, Mark>,   // when an overflow swallowed a registration's self event
    ended: set<Watch>,         // registrations that ended without a word on the wire
    nextWd: int,
    reg: Registry,
    asked: seq<nat>,           // per ticket, changes made before it was asked
    done: nat,
    wake: nat,
    stopping: bool,
    hold: Hold,
    phase: Phase,
    hist: seq<Sent>,           // every frame enqueued so far
    lanes: seq<Lane>,
    writer: Queues<nat>)       // frames by enqueue number

  predicate Init(s: State) {
    s == State([], [], {}, map[], map[], {}, 0, Registry(map[], map[], []), [], 0, 0, false, NOTHING, Polling,
               [], [], Queues([], [], [], []))
  }

  predicate IsTemp(name: Name) {
    ".scrutiny-write-" <= name
  }

  // ---- Digesting events --------------------------------------------------

  function Absorb(h: Hold, byWd: map<Wd, Dir>, e: Event): Hold {
    match e
    case Overflow => h.(overflow := true)
    case SelfGone(w) => if w in byWd then h.(gone := h.gone + {byWd[w]}) else h
    case Named(w, name) =>
      if w !in byWd || IsTemp(name) then h
      else
        var dir := byWd[w];
        var names := if dir in h.pending then h.pending[dir] else {};
        if |names| >= MAX_NAMES_PER_NOTE
        then h.(pending := h.pending[dir := names], resets := h.resets + {dir})
        else h.(pending := h.pending[dir := names + {name}])
  }

  function AbsorbAll(h: Hold, byWd: map<Wd, Dir>, es: seq<Event>): Hold
    decreases |es|
  {
    if es == [] then h else AbsorbAll(Absorb(h, byWd, es[0]), byWd, es[1..])
  }

  lemma {:induction false} AbsorbLast(h: Hold, byWd: map<Wd, Dir>, es: seq<Event>, e: Event)
    ensures AbsorbAll(h, byWd, es + [e]) == Absorb(AbsorbAll(h, byWd, es), byWd, e)
    decreases |es|
  {
    if es == [] {
      assert [e][1..] == [];
    } else {
      assert (es + [e])[1..] == es[1..] + [e];
      AbsorbLast(Absorb(h, byWd, es[0]), byWd, es[1..], e);
    }
  }

  /** The watcher thread's coalescing window. */
  class Window {
    var pending: map<Dir, set<Name>>
    var resets: set<Dir>
    var gone: set<Dir>
    var overflow: bool

    ghost function View(): Hold
      reads this
    {
      Hold(pending, resets, gone, overflow)
    }

    constructor ()
      ensures View() == NOTHING
    {
      pending, resets, gone, overflow := map[], {}, {}, false;
    }

    /** The loop over one buffer of inotify events. */
    method Digest(byWd: map<Wd, Dir>, buf: seq<Event>)
      modifies this
      ensures View() == AbsorbAll(old(View()), byWd, buf)
    {
      for p := 0 to |buf|
        invariant View() == AbsorbAll(old(View()), byWd, buf[..p])
      {
        assert buf[..p + 1] == buf[..p] + [buf[p]];
        AbsorbLast(old(View()), byWd, buf[..p], buf[p]);
        Take(byWd, buf[p]);
      }
      assert buf[..|buf|] == buf;
    }

    method Take(byWd: map<Wd, Dir>, e: Event)
      modifies this
      ensures View() == Absorb(old(View()), byWd, e)
    {
      match e
      case Overflow =>
        overflow := true;
      case SelfGone(wd) =>
        if wd in byWd {
          gone := gone + {byWd[wd]};
        }
      case Named(wd, name) =>
        if wd in byWd && !IsTemp(name) {
          var dir := byWd[wd];
          var names := if dir in pending then pending[dir] else {};
          pending := pending[dir := names];
          if |names| >= MAX_NAMES_PER_NOTE {
            resets := resets + {dir};
          } else {
            pending := pending[dir := names + {name}];
          }
        }
    }
  }

  // ---- Steps of the kernel and of other threads --------------------------

  /** Queueing one event: appended, merged into an identical last one, or
      dropped with an overflow marker in the queue. */
  predicate Queued(q: seq<Event>, e: Event, q': seq<Event>) {
    || q' == q + [e]
    || (q != [] && q[|q| - 1] == e && q' == q)
    || (Overflow in q && q' == q)
    || (Overflow !in q && q' == q + [Overflow])
  }

  function Send(s: State, lane: Lane, f: Frame): State {
    s.(hist := s.hist + [Sent(f, |s.log|)],
       lanes := s.lanes + [lane],
       writer := s.writer.Enqueue(lane, |s.hist|))
  }

  function WatchOf(s: State, dir: Dir): Option<Wd> {
    if dir in s.reg.byDir then Some(s.reg.byDir[dir]) else None
  }

  /** A name in a directory changes. The kernel queues an event as part of it
      when the directory's descriptor is live and means it. Reports a shared
      descriptor makes for its other name are stray events. */
  predicate FsChange(s: State, s': State, dir: Dir, name: Name, stat: Stat) {
    var w := WatchOf(s, dir);
    && s' == s.(log := s.log + [Change(dir, name, stat, w)], queue := s'.queue)
    && (if w.Some? && w.value in s.live && Means(s.reg, w.value, dir)
        then Queued(s.queue, Named(w.value, name), s'.queue)
        else s'.queue == s.queue)
  }

  /** An event with no change behind it. */
  predicate StrayEvent(s: State, s': State, e: Event) {
    && s' == s.(queue := s'.queue)
    && Queued(s.queue, e, s'.queue)
  }

  function Now(s: State): Mark {
    Mark(|s.log|, |s.hist|)
  }

  /** A watched directory is deleted or moved away. */
  predicate DirGone(s: State, s': State, wd: Wd) {
    && wd in s.live && wd in s.reg.byWd
    && Queued(s.queue, SelfGone(wd), s'.queue)
    && s' == s.(queue := s'.queue, live := s.live - {wd},
                blind := if SelfGone(wd) in s'.queue then s.blind else s.blind[Watch(wd, s.reg.byWd[wd]) := Now(s)])
  }

  /** The kernel answers a descriptor it never gave before, or, for an inode it
      watches under another name, the one in use. */
  predicate MayAnswer(s: State, wd: Wd) {
    wd == s.nextWd || (wd in s.reg.byWd && s.reg.byWd[wd] != "")
  }

  /** watch() has registered a directory that was not watched. The name that
      held the descriptor until now has lost it. */
  function Begun(s: State, dir: Dir, wd: Wd): State {
    s.(reg := Add(s.reg, dir, wd), nextWd := if wd == s.nextWd then wd + 1 else s.nextWd, live := s.live + {wd},
       began := s.began[Watch(wd, dir) := Now(s)],
       ended := if wd in s.reg.byWd then s.ended + {Watch(wd, s.reg.byWd[wd])} else s.ended)
  }

  /** watch() of a directory not yet watched; the oldest gives way when the
      table is full. */
  predicate BeginWatch(s: State, s': State, dir: Dir, wd: Wd) {
    && dir !in s.reg.byDir && dir != "" && !s.stopping && MayAnswer(s, wd)
    && if |s.reg.byDir| < MAX_WATCHES || s.reg.order == [] then s' == Begun(s, dir, wd)
       else Dropped(Begun(s, dir, wd), s', s.reg.order[0], true)
  }

  /** The registration that a drop of `dir` ends without announcing it: its own
      when it is not told, or that of another name meant by its descriptor. */
  function Silenced(reg: Registry, dir: Dir, tell: bool): set<Watch>
    requires dir in reg.byDir
  {
    var wd := reg.byDir[dir];
    if wd !in reg.byWd || (reg.byWd[wd] == dir && tell) then {} else {Watch(wd, reg.byWd[wd])}
  }

  /** dropLocked; the kernel answers the removal with IN_IGNORED when the
      descriptor is still good. */
  predicate Dropped(s: State, s': State, dir: Dir, tell: bool) {
    if dir !in s.reg.byDir then s' == s
    else
      var wd := s.reg.byDir[dir];
      && (s'.queue == s.queue || Queued(s.queue, SelfGone(wd), s'.queue))
      && var t := s.(reg := Drop(s.reg, dir), live := s.live - {wd}, queue := s'.queue,
                     ended := s.ended + Silenced(s.reg, dir, tell));
         s' == if tell then Send(t, Interactive, Changed(Reset(dir, true))) else t
  }

  /** barrier(): take a ticket and wake the watcher. */
  predicate AskBarrier(s: State, s': State) {
    && !s.stopping && s.reg.byDir != map[]
    && s' == s.(asked := s.asked + [|s.log|], wake := s.wake + 1)
  }

  /** A handler whose ticket was completed replies, on any lane. */
  predicate SendReply(s: State, s': State, ticket: nat, lane: Lane) {
    && 1 <= ticket <= s.done
    && s' == Send(s, lane, Reply(ticket))
  }

  predicate SendOther(s: State, s': State, lane: Lane) {
    s' == Send(s, lane, Other)
  }

  predicate WriterStep(s: State, s': State) {
    && s.writer.AnyReady()
    && s' == s.(writer := s.writer.Transmit())
  }

  predicate AskStop(s: State, s': State) {
    s' == s.(stopping := true, wake := s.wake + 1)
  }

  // ---- Steps of the watcher thread ---------------------------------------

  predicate Holding(h: Hold) {
    h.pending != map[] || h.resets != {} || h.gone != {} || h.overflow
  }

  predicate PollStep(s: State, s': State) {
    && s.phase == Polling
    && (|| (s.wake > 0 && s' == s.(wake := if s.wake > 64 then s.wake - 64 else 0, phase := Waking))
        || (s.queue != [] && s' == s.(phase := Draining(0)))
        || (Holding(s.hold) && s' == s.(phase := FlushOverflow(0, 0))))
  }

  predicate WakeStep(s: State, s': State) {
    && s.phase == Waking
    && s' == s.(phase := if s.stopping then Exited else Draining(|s.asked|))
  }

  predicate ReadStep(s: State, s': State, k: nat) {
    && s.phase.Draining?
    && 1 <= k <= |s.queue|
    && s' == s.(queue := s.queue[k..], phase := Buffered(s.phase.bar, s.queue[..k]))
  }

  predicate DigestStep(s: State, s': State) {
    && s.phase.Buffered?
    && s' == s.(hold := AbsorbAll(s.hold, s.reg.byWd, s.phase.buf), phase := Draining(s.phase.bar))
  }

  /** The queue is empty. A barrier flushes now; otherwise the clock decides. */
  predicate DrainedStep(s: State, s': State) {
    && s.phase.Draining? && s.queue == []
    && (|| s' == s.(phase := FlushOverflow(s.phase.bar, |s.log|))
        || (s.phase.bar == 0 && s' == s.(phase := Polling)))
  }

  predicate OverflowStep(s: State, s': State) {
    && s.phase.FlushOverflow?
    && var next := s.(phase := FlushGone(s.phase.bar, s.phase.upto));
       s' == if s.hold.overflow
             then Send(next.(hold := Hold(map[], {}, s.hold.gone, false)), Interactive, Changed(ResetAll))
             else next
  }

  predicate GoneStep(s: State, s': State, dir: Dir) {
    && s.phase.FlushGone? && dir in s.hold.gone
    && Dropped(s.(hold := Hold(s.hold.pending - {dir}, s.hold.resets - {dir}, s.hold.gone - {dir}, s.hold.overflow)),
               s', dir, true)
  }

  predicate GoneDoneStep(s: State, s': State) {
    && s.phase.FlushGone? && s.hold.gone == {}
    && s' == s.(phase := FlushDirs(s.phase.bar, s.phase.upto, s.hold.pending.Keys))
  }

  /** One directory of the window: dropped meanwhile, dropped for being busy,
      declared stale as a whole, or narrated name by name. */
  predicate DirStep(s: State, s': State, dir: Dir, busy: bool) {
    && s.phase.FlushDirs? && dir in s.phase.todo && dir in s.hold.pending
    && var todo := s.phase.todo - {dir};
       var reg := Consult(s.reg, dir);
       var skip := s.(phase := FlushDirs(s.phase.bar, s.phase.upto, todo), reg := reg);
       if dir !in s.reg.byDir then s' == skip
       else if busy then Dropped(skip, s', dir, true)
       else if dir in s.hold.resets then s' == s.(phase := EmitReset(s.phase.bar, s.phase.upto, todo, dir), reg := reg)
       else s' == s.(phase := Statting(s.phase.bar, s.phase.upto, todo, dir, s.hold.pending[dir], map[]), reg := reg)
  }

  predicate ResetStep(s: State, s': State) {
    && s.phase.EmitReset?
    && s' == Send(s.(phase := FlushDirs(s.phase.bar, s.phase.upto, s.phase.todo)), Interactive,
                  Changed(Reset(s.phase.dir, false)))
  }

  predicate StatStep(s: State, s': State, name: Name) {
    && s.phase.Statting? && name in s.phase.left
    && s' == s.(phase := s.phase.(left := s.phase.left - {name},
                                  seen := s.phase.seen[name := Read(StatAt(s.log, s.phase.dir, name, |s.log|), |s.log|)]))
  }

  predicate EntriesStep(s: State, s': State) {
    && s.phase.Statting? && s.phase.left == {}
    && s' == Send(s.(phase := FlushDirs(s.phase.bar, s.phase.upto, s.phase.todo)), Interactive,
                  Changed(Entries(s.phase.dir, s.phase.seen)))
  }

  /** The pass ends: the window is empty and the tickets it served are done. */
  predicate PassDoneStep(s: State, s': State) {
    && s.phase.FlushDirs? && s.phase.todo == {}
    && s' == s.(hold := s.hold.(pending := map[], resets := {}),
                done := if s.phase.bar > s.done then s.phase.bar else s.done,
                phase := Polling)
  }

  ghost predicate EnvStep(s: State, s': State) {
    || (exists d, n, v :: FsChange(s, s', d, n, v))
    || (exists e :: StrayEvent(s, s', e))
    || (exists w :: DirGone(s, s', w))
    || (exists d, w :: BeginWatch(s, s', d, w))
    || (exists d, tell :: Dropped(s, s', d, tell))
    || AskBarrier(s, s')
    || (exists t, lane :: SendReply(s, s', t, lane))
    || (exists lane :: SendOther(s, s', lane))
    || WriterStep(s, s')
    || AskStop(s, s')
  }

  ghost predicate WatcherStep(s: State, s': State) {
    || PollStep(s, s')
    || WakeStep(s, s')
    || (exists k :: ReadStep(s, s', k))
    || DigestStep(s, s')
    || DrainedStep(s, s')
    || OverflowStep(s, s')
    || (exists d :: GoneStep(s, s', d))
    || GoneDoneStep(s, s')
    || (exists d, busy :: DirStep(s, s', d, busy))
    || ResetStep(s, s')
    || (exists n :: StatStep(s, s', n))
    || EntriesStep(s, s')
    || PassDoneStep(s, s')
  }

  ghost predicate Next(s: State, s': State) {
    s' == s || EnvStep(s, s') || WatcherStep(s, s')
  }

  ghost predicate StepAt(run: seq<State>, i: nat)
    requires i + 1 < |run|
  {
    Next(run[i], run[i + 1])
  }

  ghost predicate IsRun(run: seq<State>) {
    && run != [] && Init(run[0])
    && forall i: nat :: i + 1 < |run| ==> StepAt(run, i)
  }

  lemma RunSteps(run: seq<State>, i: nat)
    requires IsRun(run) && i + 1 < |run|
    ensures Next(run[i], run[i + 1])
  {
    assert StepAt(run, i);
  }

  // ---- What a directory holds --------------------------------------------

  /** The stat of a name after the first `at` changes. */
  function StatAt(log: seq<Change>, dir: Dir, name: Name, at: nat): Stat
    requires at <= |log|
    decreases at
  {
    if at == 0 then Deleted
    else if log[at - 1].dir == dir && log[at - 1].name == name then log[at - 1].stat
    else StatAt(log, dir, name, at - 1)
  }
}
