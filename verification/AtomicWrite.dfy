/**
 fs.writeFile (agent/main.cpp, handleFsWriteFile): the bytes land in a temp file
 beside the target, are synced, and are renamed over it. Any number of requests
 run at once; every system call is one step; the machine may crash after any of
 them.
 */
module AtomicWrite {
  import opened Wrappers
  import opened Base64

  type Ino = nat

  datatype File = File(bytes: Bytes, synced: bool)

  datatype Answer = Written | Conflict | Failed

  /** `tmp` names a request's temp file. `saw` is the target at its stat, `at`
      how many files had been installed by then. */
  datatype Progress =
    | Start
    | Writing(tmp: nat, off: nat)
    | Flushed(tmp: nat)
    | Ready(tmp: nat, saw: Option<Ino>, at: nat)
    | Aborting(tmp: nat, answer: Answer)
    | Done(answer: Answer)

  /** `wanted` is ifMtimeNs, when given. */
  datatype Request = Request(bytes: Bytes, wanted: Option<int>, pc: Progress)

  /** A temp file and the request that created it. */
  datatype Temp = Temp(ino: Ino, owner: nat)

  /** An installed file and the request that installed it. */
  datatype Install = Install(ino: Ino, owner: nat)

  datatype State = State(
    target: Option<Ino>,
    files: map<Ino, File>,
    temps: map<nat, Temp>,
    nextIno: Ino,
    writeSeq: nat,
    installs: seq<Install>,
    reqs: seq<Request>)

  /** `before` is the target's content when the first request arrives. */
  predicate Init(s: State, before: Option<Bytes>) {
    && s.temps == map[] && s.writeSeq == 0 && s.installs == [] && s.nextIno == 1
    && (forall r :: 0 <= r < |s.reqs| ==> s.reqs[r].pc == Start)
    && match before
       case None => s.target == None && s.files == map[]
       case Some(b) => s.target == Some(0) && s.files == map[0 := File(b, true)]
  }

  function With(s: State, r: nat, pc: Progress): State
    requires r < |s.reqs|
  {
    s.(reqs := s.reqs[r := s.reqs[r].(pc := pc)])
  }

  predicate OpenStep(s: State, s': State, r: nat) {
    && r < |s.reqs| && s.reqs[r].pc == Start
    && var tmp := s.writeSeq + 1;
       || s' == With(s.(writeSeq := tmp), r, Done(Failed))
       || s' == With(s.(writeSeq := tmp, temps := s.temps[tmp := Temp(s.nextIno, r)], files := s.files[s.nextIno := File([], false)],
                        nextIno := s.nextIno + 1), r, Writing(tmp, 0))
  }

  predicate WriteStep(s: State, s': State, r: nat, k: nat) {
    && r < |s.reqs| && s.reqs[r].pc.Writing?
    && var tmp, off, bytes := s.reqs[r].pc.tmp, s.reqs[r].pc.off, s.reqs[r].bytes;
       && tmp in s.temps && s.temps[tmp].ino in s.files && 1 <= k && off + k <= |bytes|
       && var ino := s.temps[tmp].ino;
          s' == With(s.(files := s.files[ino := File(s.files[ino].bytes + bytes[off..off + k], false)]), r, Writing(tmp, off + k))
  }

  predicate SyncStep(s: State, s': State, r: nat) {
    && r < |s.reqs| && s.reqs[r].pc.Writing? && s.reqs[r].pc.off == |s.reqs[r].bytes|
    && var tmp := s.reqs[r].pc.tmp;
       && tmp in s.temps && s.temps[tmp].ino in s.files
       && s' == With(s.(files := s.files[s.temps[tmp].ino := s.files[s.temps[tmp].ino].(synced := true)]), r, Flushed(tmp))
  }

  /** A write, the sync or the rename fails. */
  predicate FailStep(s: State, s': State, r: nat) {
    && r < |s.reqs| && (s.reqs[r].pc.Writing? || s.reqs[r].pc.Ready?)
    && s' == With(s, r, Aborting(s.reqs[r].pc.tmp, Failed))
  }

  /** The time stamp the comparison uses; 0 stands for no file. */
  function Stamp(mtime: Ino -> int, target: Option<Ino>): int {
    if target.Some? then mtime(target.value) else 0
  }

  /** The stat and, when asked for, the comparison with what the client saw. */
  predicate CheckStep(mtime: Ino -> int, s: State, s': State, r: nat) {
    && r < |s.reqs| && s.reqs[r].pc.Flushed?
    && var tmp, wanted := s.reqs[r].pc.tmp, s.reqs[r].wanted;
       s' == With(s, r, if wanted.Some? && wanted.value != Stamp(mtime, s.target) then Aborting(tmp, Conflict)
                        else Ready(tmp, s.target, |s.installs|))
  }

  predicate RenameStep(s: State, s': State, r: nat) {
    && r < |s.reqs| && s.reqs[r].pc.Ready? && s.reqs[r].pc.tmp in s.temps
    && var ino := s.temps[s.reqs[r].pc.tmp].ino;
       s' == With(s.(target := Some(ino), temps := s.temps - {s.reqs[r].pc.tmp}, installs := s.installs + [Install(ino, r)]),
                  r, Done(Written))
  }

  predicate UnlinkStep(s: State, s': State, r: nat) {
    && r < |s.reqs| && s.reqs[r].pc.Aborting?
    && s' == With(s.(temps := s.temps - {s.reqs[r].pc.tmp}), r, Done(s.reqs[r].pc.answer))
  }

  ghost predicate StepOf(mtime: Ino -> int, s: State, s': State, r: nat) {
    || OpenStep(s, s', r) || (exists k :: WriteStep(s, s', r, k)) || SyncStep(s, s', r) || FailStep(s, s', r)
    || CheckStep(mtime, s, s', r) || RenameStep(s, s', r) || UnlinkStep(s, s', r)
  }

  ghost predicate Next(mtime: Ino -> int, s: State, s': State) {
    exists r :: StepOf(mtime, s, s', r)
  }

  ghost predicate StepAt(mtime: Ino -> int, run: seq<State>, i: nat)
    requires i + 1 < |run|
  {
    Next(mtime, run[i], run[i + 1])
  }

  ghost predicate IsRun(mtime: Ino -> int, before: Option<Bytes>, run: seq<State>) {
    && run != [] && Init(run[0], before)
    && forall i: nat :: i + 1 < |run| ==> StepAt(mtime, run, i)
  }

  // ---- What a reader or a crash can find ---------------------------------

  /** What the target holds while the machine runs. */
  function Content(s: State): Option<Bytes> {
    if s.target.Some? && s.target.value in s.files then Some(s.files[s.target.value].bytes) else None
  }

  /** After a crash the directory may show any state it had so far, and a file
      that was not synced may hold anything. */
  predicate AfterCrash(s: State, before: Option<Bytes>, found: Option<Bytes>) {
    || found == before
    || exists k :: 0 <= k < |s.installs| && CrashFile(s, s.installs[k].ino, found)
  }

  predicate CrashFile(s: State, ino: Ino, found: Option<Bytes>) {
    found.Some? && (ino in s.files && s.files[ino].synced ==> found.value == s.files[ino].bytes)
  }

  // ---- The invariant -----------------------------------------------------

  predicate Holds(pc: Progress) {
    pc.Writing? || pc.Flushed? || pc.Ready? || pc.Aborting?
  }

  /** One request's temp file is its own, and holds what it wrote so far. */
  ghost predicate TempOk(s: State, r: nat)
    requires r < |s.reqs|
  {
    Holds(s.reqs[r].pc) ==>
      && s.reqs[r].pc.tmp in s.temps && s.temps[s.reqs[r].pc.tmp].owner == r
      && var ino := s.temps[s.reqs[r].pc.tmp].ino;
         && ino in s.files
         && (s.reqs[r].pc.Writing? ==> s.reqs[r].pc.off <= |s.reqs[r].bytes| && s.files[ino].bytes == s.reqs[r].bytes[..s.reqs[r].pc.off])
         && (s.reqs[r].pc.Flushed? || s.reqs[r].pc.Ready? ==> s.files[ino] == File(s.reqs[r].bytes, true))
         && (s.reqs[r].pc.Aborting? ==> s.reqs[r].pc.answer != Written)
  }

  ghost predicate InstallOk(s: State, k: nat)
    requires k < |s.installs|
  {
    var i := s.installs[k];
    && i.ino in s.files && i.owner < |s.reqs|
    && s.reqs[i.owner].pc == Done(Written)
    && s.files[i.ino] == File(s.reqs[i.owner].bytes, true)
  }

  /** No temp file without a request that still holds it. */
  ghost predicate NameOk(s: State, t: nat)
    requires t in s.temps
  {
    && t <= s.writeSeq && s.temps[t].owner < |s.reqs|
    && Holds(s.reqs[s.temps[t].owner].pc) && s.reqs[s.temps[t].owner].pc.tmp == t
  }

  /** A file belongs to one temp name or to one install. */
  ghost predicate InosOk(temps: map<nat, Temp>, installs: seq<Install>, nextIno: Ino) {
    && 0 < nextIno
    && (forall t :: t in temps ==> 0 < temps[t].ino < nextIno)
    && (forall k :: 0 <= k < |installs| ==> 0 < installs[k].ino < nextIno)
    && (forall t, u :: t in temps && u in temps && t != u ==> temps[t].ino != temps[u].ino)
    && (forall t, k :: t in temps && 0 <= k < |installs| ==> temps[t].ino != installs[k].ino)
    && (forall j, k :: 0 <= j < k < |installs| ==> installs[j].ino != installs[k].ino)
  }

  ghost predicate TargetOk(s: State, before: Option<Bytes>) {
    if s.installs == [] then
      s.target == (if before.Some? then Some(0) else None) && (before.Some? ==> 0 in s.files && s.files[0] == File(before.value, true))
    else s.target == Some(s.installs[|s.installs| - 1].ino)
  }

  ghost predicate SawOk(s: State, r: nat, before: Option<Bytes>)
    requires r < |s.reqs|
  {
    s.reqs[r].pc.Ready? ==>
      && s.reqs[r].pc.at <= |s.installs|
      && s.reqs[r].pc.saw == (if s.reqs[r].pc.at > 0 then Some(s.installs[s.reqs[r].pc.at - 1].ino)
                              else if before.Some? then Some(0) else None)
  }

  ghost predicate Inv(s: State, before: Option<Bytes>) {
    && InosOk(s.temps, s.installs, s.nextIno) && TargetOk(s, before)
    && (forall i :: i in s.files ==> i < s.nextIno)
    && (forall t :: t in s.temps ==> NameOk(s, t))
    && (forall r: nat :: r < |s.reqs| ==> TempOk(s, r) && SawOk(s, r, before))
    && (forall k: nat :: k < |s.installs| ==> InstallOk(s, k))
  }

  // ---- Steps -------------------------------------------------------------

  /** The file request r works on, if it has one. */
  function Mine(s: State, r: nat): Option<Ino>
    requires r < |s.reqs|
  {
    if Holds(s.reqs[r].pc) && s.reqs[r].pc.tmp in s.temps then Some(s.temps[s.reqs[r].pc.tmp].ino) else None
  }

  /** What every step of request r leaves alone. */
  ghost predicate OnlyOf(s: State, s': State, r: nat) {
    && r < |s.reqs| && |s'.reqs| == |s.reqs| && s'.reqs == s.reqs[r := s.reqs[r].(pc := s'.reqs[r].pc)]
    && s.installs <= s'.installs && s.writeSeq <= s'.writeSeq
    && (forall t :: t in s.temps && s.temps[t].owner != r ==> t in s'.temps && s'.temps[t] == s.temps[t])
    && (forall i :: i in s.files && Mine(s, r) != Some(i) ==> i in s'.files && s'.files[i] == s.files[i])
  }

  lemma OthersKept(s: State, s': State, r: nat, before: Option<Bytes>, q: nat)
    requires Inv(s, before) && OnlyOf(s, s', r) && q < |s.reqs| && q != r
    ensures TempOk(s', q) && SawOk(s', q, before)
  {
    assert TempOk(s, q) && SawOk(s, q, before) && TempOk(s, r);
  }

  lemma InstallsKept(s: State, s': State, r: nat, before: Option<Bytes>, k: nat)
    requires Inv(s, before) && OnlyOf(s, s', r) && k < |s.installs| && s.reqs[r].pc != Done(Written)
    ensures InstallOk(s', k)
  {
    assert InstallOk(s, k) && TempOk(s, r);
  }

  /** Everything but request r's own part of the invariant. */
  lemma RestKept(s: State, s': State, r: nat, before: Option<Bytes>)
    requires Inv(s, before) && OnlyOf(s, s', r) && s.reqs[r].pc != Done(Written)
    requires TempOk(s', r) && SawOk(s', r, before)
    requires InosOk(s'.temps, s'.installs, s'.nextIno) && TargetOk(s', before)
    requires forall i :: i in s'.files ==> i < s'.nextIno
    requires forall t :: t in s'.temps && (t !in s.temps || s.temps[t].owner == r) ==> NameOk(s', t)
    requires forall k: nat :: |s.installs| <= k < |s'.installs| ==> InstallOk(s', k)
    requires forall t :: t in s'.temps && t in s.temps ==> s'.temps[t] == s.temps[t]
    ensures Inv(s', before)
  {
    forall q: nat | q < |s'.reqs|
      ensures TempOk(s', q) && SawOk(s', q, before)
    {
      if q != r { OthersKept(s, s', r, before, q); }
    }
    forall k: nat | k < |s'.installs|
      ensures InstallOk(s', k)
    {
      if k < |s.installs| { InstallsKept(s, s', r, before, k); }
    }
    forall t | t in s'.temps
      ensures NameOk(s', t)
    {
      if t in s.temps { assert NameOk(s, t); }
    }
  }

  lemma RefusedKeeps(s: State, r: nat, before: Option<Bytes>)
    requires Inv(s, before) && r < |s.reqs| && s.reqs[r].pc == Start
    ensures Inv(With(s.(writeSeq := s.writeSeq + 1), r, Done(Failed)), before)
  {
    assert forall t :: t in s.temps ==> NameOk(s, t);
    RestKept(s, With(s.(writeSeq := s.writeSeq + 1), r, Done(Failed)), r, before);
  }

  lemma InosAdded(temps: map<nat, Temp>, installs: seq<Install>, n: Ino, t: nat, r: nat)
    requires InosOk(temps, installs, n) && t !in temps
    ensures InosOk(temps[t := Temp(n, r)], installs, n + 1)
  {
  }

  lemma InosInstalled(temps: map<nat, Temp>, installs: seq<Install>, n: Ino, t: nat, r: nat)
    requires InosOk(temps, installs, n) && t in temps
    ensures InosOk(temps - {t}, installs + [Install(temps[t].ino, r)], n)
  {
  }

  lemma OpenedOnlyOf(s: State, s': State, r: nat)
    requires OpenStep(s, s', r) && s'.reqs[r].pc.Writing? && s.writeSeq + 1 !in s.temps && s.nextIno !in s.files
    ensures OnlyOf(s, s', r) && TempOk(s', r) && NameOk(s', s.writeSeq + 1)
    ensures s'.target == s.target && s'.installs == s.installs && s'.nextIno == s.nextIno + 1
    ensures s'.temps == s.temps[s.writeSeq + 1 := Temp(s.nextIno, r)]
    ensures forall i :: i in s'.files ==> i in s.files || i == s.nextIno
  {
  }

  lemma FreshNames(s: State, r: nat, before: Option<Bytes>)
    requires Inv(s, before) && r < |s.reqs| && s.reqs[r].pc == Start
    ensures s.writeSeq + 1 !in s.temps && s.nextIno !in s.files
    ensures forall t :: t in s.temps ==> s.temps[t].owner != r
  {
    assert forall t :: t in s.temps ==> NameOk(s, t);
  }

  lemma OpenedKeeps(s: State, s': State, r: nat, before: Option<Bytes>)
    requires Inv(s, before) && OpenStep(s, s', r) && s'.reqs[r].pc.Writing?
    ensures Inv(s', before)
  {
    FreshNames(s, r, before);
    InosAdded(s.temps, s.installs, s.nextIno, s.writeSeq + 1, r);
    OpenedOnlyOf(s, s', r);
    RestKept(s, s', r, before);
  }

  lemma OpenKeeps(s: State, s': State, r: nat, before: Option<Bytes>)
    requires Inv(s, before) && OpenStep(s, s', r)
    ensures Inv(s', before)
  {
    if s'.reqs[r].pc.Writing? {
      OpenedKeeps(s, s', r, before);
    } else {
      RefusedKeeps(s, r, before);
    }
  }

  lemma WriteKeeps(s: State, s': State, r: nat, k: nat, before: Option<Bytes>)
    requires Inv(s, before) && WriteStep(s, s', r, k)
    ensures Inv(s', before)
  {
    assert TempOk(s, r);
    var off, bytes := s.reqs[r].pc.off, s.reqs[r].bytes;
    assert bytes[..off + k] == bytes[..off] + bytes[off..off + k];
    RestKept(s, s', r, before);
  }

  lemma SyncKeeps(s: State, s': State, r: nat, before: Option<Bytes>)
    requires Inv(s, before) && SyncStep(s, s', r)
    ensures Inv(s', before)
  {
    assert TempOk(s, r);
    assert s.reqs[r].bytes[..|s.reqs[r].bytes|] == s.reqs[r].bytes;
    RestKept(s, s', r, before);
  }

  lemma FailKeeps(s: State, s': State, r: nat, before: Option<Bytes>)
    requires Inv(s, before) && FailStep(s, s', r)
    ensures Inv(s', before)
  {
    assert TempOk(s, r);
    RestKept(s, s', r, before);
  }

  lemma CheckKeeps(mtime: Ino -> int, s: State, s': State, r: nat, before: Option<Bytes>)
    requires Inv(s, before) && CheckStep(mtime, s, s', r)
    ensures Inv(s', before)
  {
    assert TempOk(s, r);
    RestKept(s, s', r, before);
  }

  lemma RenameKeeps(s: State, s': State, r: nat, before: Option<Bytes>)
    requires Inv(s, before) && RenameStep(s, s', r)
    ensures Inv(s', before)
  {
    assert TempOk(s, r);
    InosInstalled(s.temps, s.installs, s.nextIno, s.reqs[r].pc.tmp, r);
    assert forall t :: t in s.temps && s.temps[t].owner == r ==> t == s.reqs[r].pc.tmp;
    RestKept(s, s', r, before);
  }

  lemma UnlinkKeeps(s: State, s': State, r: nat, before: Option<Bytes>)
    requires Inv(s, before) && UnlinkStep(s, s', r)
    ensures Inv(s', before)
  {
    assert TempOk(s, r);
    assert forall t :: t in s.temps ==> NameOk(s, t);
    RestKept(s, s', r, before);
  }

  lemma StepKeepsInv(mtime: Ino -> int, s: State, s': State, before: Option<Bytes>)
    requires Inv(s, before) && Next(mtime, s, s')
    ensures Inv(s', before)
  {
    var r :| StepOf(mtime, s, s', r);
    if OpenStep(s, s', r) {
      OpenKeeps(s, s', r, before);
    } else if k :| WriteStep(s, s', r, k) {
      WriteKeeps(s, s', r, k, before);
    } else if SyncStep(s, s', r) {
      SyncKeeps(s, s', r, before);
    } else if RenameStep(s, s', r) {
      RenameKeeps(s, s', r, before);
    } else if UnlinkStep(s, s', r) {
      UnlinkKeeps(s, s', r, before);
    } else if FailStep(s, s', r) {
      FailKeeps(s, s', r, before);
    } else {
      CheckKeeps(mtime, s, s', r, before);
    }
  }

  lemma {:induction false} RunKeepsInv(mtime: Ino -> int, before: Option<Bytes>, run: seq<State>, j: nat)
    requires IsRun(mtime, before, run) && j < |run|
    ensures Inv(run[j], before)
  {
    if j > 0 {
      RunKeepsInv(mtime, before, run, j - 1);
      assert StepAt(mtime, run, j - 1);
      StepKeepsInv(mtime, run[j - 1], run[j], before);
    }
  }

  // ---- The promises ------------------------------------------------------

  /** The bytes of a request that was answered `Written`. */
  predicate WholeWrite(s: State, found: Option<Bytes>) {
    exists r :: 0 <= r < |s.reqs| && s.reqs[r].pc == Done(Written) && found == Some(s.reqs[r].bytes)
  }

  /** In every interleaving, with short writes and failures anywhere, the target
      holds what it held before or the complete bytes of one request; and so it
      does after a crash at any point. */
  lemma TargetIsWhole(mtime: Ino -> int, before: Option<Bytes>, run: seq<State>, j: nat, found: Option<Bytes>)
    requires IsRun(mtime, before, run) && j < |run|
    requires found == Content(run[j]) || AfterCrash(run[j], before, found)
    ensures found == before || WholeWrite(run[j], found)
  {
    RunKeepsInv(mtime, before, run, j);
    var s := run[j];
    if found == Content(s) {
      if s.installs != [] {
        assert InstallOk(s, |s.installs| - 1);
        assert s.reqs[s.installs[|s.installs| - 1].owner].pc == Done(Written);
      }
    } else if found != before {
      var k :| 0 <= k < |s.installs| && CrashFile(s, s.installs[k].ino, found);
      assert InstallOk(s, k);
    }
  }

  /** A request that answered a conflict or an error never touched the target. */
  lemma RefusalsInstallNothing(mtime: Ino -> int, before: Option<Bytes>, run: seq<State>, j: nat, k: nat)
    requires IsRun(mtime, before, run) && j < |run| && k < |run[j].installs|
    ensures run[j].installs[k].owner < |run[j].reqs| && run[j].reqs[run[j].installs[k].owner].pc == Done(Written)
  {
    RunKeepsInv(mtime, before, run, j);
    assert InstallOk(run[j], k);
  }

  /** Every request answered as written has installed its bytes. */
  ghost predicate SuccessOk(s: State) {
    forall r :: 0 <= r < |s.reqs| && s.reqs[r].pc == Done(Written) ==> exists k :: 0 <= k < |s.installs| && s.installs[k].owner == r
  }

  lemma StepKeepsSuccess(mtime: Ino -> int, s: State, s': State, before: Option<Bytes>, q: nat)
    requires Inv(s, before) && SuccessOk(s) && StepOf(mtime, s, s', q)
    ensures SuccessOk(s')
  {
    assert s.installs <= s'.installs;
    forall r | 0 <= r < |s'.reqs| && s'.reqs[r].pc == Done(Written)
      ensures exists k :: 0 <= k < |s'.installs| && s'.installs[k].owner == r
    {
      if r == q {
        assert TempOk(s, r);
        if RenameStep(s, s', r) {
          assert s'.installs[|s.installs|].owner == r;
        }
      }
      if s.reqs[r].pc == Done(Written) {
        var k :| 0 <= k < |s.installs| && s.installs[k].owner == r;
        assert s'.installs[k].owner == r;
      }
    }
  }

  lemma {:induction false} SuccessMeansInstalled(mtime: Ino -> int, before: Option<Bytes>, run: seq<State>, j: nat)
    requires IsRun(mtime, before, run) && j < |run|
    ensures SuccessOk(run[j])
  {
    if j > 0 {
      SuccessMeansInstalled(mtime, before, run, j - 1);
      RunKeepsInv(mtime, before, run, j - 1);
      assert StepAt(mtime, run, j - 1);
      var q :| StepOf(mtime, run[j - 1], run[j], q);
      StepKeepsSuccess(mtime, run[j - 1], run[j], before, q);
    }
  }

  /** No temp file outlives its request: at every moment each temp file belongs to
      a request that is under way and works on that very file. */
  lemma NoTempLeftBehind(mtime: Ino -> int, before: Option<Bytes>, run: seq<State>, j: nat, t: nat)
    requires IsRun(mtime, before, run) && j < |run| && t in run[j].temps
    ensures var s, owner := run[j], run[j].temps[t].owner;
      && owner < |s.reqs| && !s.reqs[owner].pc.Start? && !s.reqs[owner].pc.Done?
      && s.reqs[owner].pc.tmp == t
  {
    RunKeepsInv(mtime, before, run, j);
    assert NameOk(run[j], t);
  }

  // ---- Conditional writes ------------------------------------------------

  /** A write replaces the file it saw exactly when nothing was installed between
      its stat and its rename: the two are separate steps. */
  lemma ReplacesWhatItSaw(mtime: Ino -> int, before: Option<Bytes>, run: seq<State>, j: nat, r: nat)
    requires IsRun(mtime, before, run) && j < |run| && r < |run[j].reqs| && run[j].reqs[r].pc.Ready?
    ensures run[j].target == run[j].reqs[r].pc.saw <==> |run[j].installs| == run[j].reqs[r].pc.at
  {
    RunKeepsInv(mtime, before, run, j);
    assert SawOk(run[j], r, before);
  }

  /** A request about to rename saw a file with the stamp it asked for. */
  ghost predicate StampsOk(mtime: Ino -> int, s: State) {
    forall r :: 0 <= r < |s.reqs| && s.reqs[r].pc.Ready? && s.reqs[r].wanted.Some? ==>
      s.reqs[r].wanted.value == Stamp(mtime, s.reqs[r].pc.saw)
  }

  lemma StepKeepsStamps(mtime: Ino -> int, s: State, s': State, r: nat)
    requires StampsOk(mtime, s) && StepOf(mtime, s, s', r)
    ensures StampsOk(mtime, s')
  {
  }

  lemma {:induction false} RunKeepsStamps(mtime: Ino -> int, before: Option<Bytes>, run: seq<State>, j: nat)
    requires IsRun(mtime, before, run) && j < |run|
    ensures StampsOk(mtime, run[j])
  {
    if j > 0 {
      RunKeepsStamps(mtime, before, run, j - 1);
      assert StepAt(mtime, run, j - 1);
      var r :| StepOf(mtime, run[j - 1], run[j], r);
      StepKeepsStamps(mtime, run[j - 1], run[j], r);
    }
  }

  /** Which way a request goes at its check, told by the step's effect: on to the
      rename, having seen the target as it is, exactly when it named no stamp or the
      target's (0 for none); else to a conflict. */
  lemma CheckedByStamp(mtime: Ino -> int, s: State, s': State, r: nat)
    requires Next(mtime, s, s') && r < |s.reqs| && |s'.reqs| == |s.reqs| && s.reqs[r].pc.Flushed? && s'.reqs[r].pc != s.reqs[r].pc
    ensures
      var actual := if s.target.Some? then mtime(s.target.value) else 0;
      s'.reqs[r].pc == if s.reqs[r].wanted.None? || s.reqs[r].wanted.value == actual
                       then Ready(s.reqs[r].pc.tmp, s.target, |s.installs|) else Aborting(s.reqs[r].pc.tmp, Conflict)
  {
    var q :| StepOf(mtime, s, s', q);
    assert q == r;
  }

  /** The target after the first k installs. */
  function TargetAt(before: Option<Bytes>, installs: seq<Install>, k: nat): Option<Ino>
    requires k <= |installs|
  {
    if k > 0 then Some(installs[k - 1].ino) else if before.Some? then Some(0) else None
  }

  /** No file is installed twice, so the target is what it was after k installs
      exactly when there have been no more. */
  lemma TargetTells(before: Option<Bytes>, installs: seq<Install>, nextIno: Ino, temps: map<nat, Temp>, k: nat, m: nat)
    requires InosOk(temps, installs, nextIno) && k <= |installs| && m <= |installs|
    ensures TargetAt(before, installs, k) == TargetAt(before, installs, m) <==> k == m
  {
  }

  /** "Replace the file I read." The client read the target as it was after k
      installs and names its stamp; the request found what it saw worth replacing
      and is about to rename. What it saw carries the stamp asked for, and the file
      it is about to replace is the one the client read exactly when nothing was
      installed since the check and the check did not take another file of the same
      stamp for it. */
  lemma ReplacesWhatWasRead(mtime: Ino -> int, before: Option<Bytes>, run: seq<State>, j: nat, r: nat, k: nat)
    requires IsRun(mtime, before, run) && j < |run| && r < |run[j].reqs| && run[j].reqs[r].pc.Ready?
    requires k <= run[j].reqs[r].pc.at && k <= |run[j].installs|
    requires run[j].reqs[r].wanted == Some(Stamp(mtime, TargetAt(before, run[j].installs, k)))
    ensures
      var s, pc, read := run[j], run[j].reqs[r].pc, TargetAt(before, run[j].installs, k);
      && Stamp(mtime, pc.saw) == Stamp(mtime, read)
      && (s.target == read <==> |s.installs| == k)
      && (s.target == read <==> |s.installs| == pc.at && !(pc.saw != read && Stamp(mtime, pc.saw) == Stamp(mtime, read)))
  {
    RunKeepsInv(mtime, before, run, j);
    RunKeepsStamps(mtime, before, run, j);
    var s := run[j];
    assert SawOk(s, r, before);
    TargetTells(before, s.installs, s.nextIno, s.temps, k, |s.installs|);
    TargetTells(before, s.installs, s.nextIno, s.temps, k, s.reqs[r].pc.at);
    TargetTells(before, s.installs, s.nextIno, s.temps, s.reqs[r].pc.at, |s.installs|);
  }

  /** "Only if it does not exist." A request with stamp 0 that is about to rename
      finds no file there exactly when nothing was installed since the check and
      the check did not take an existing file of stamp 0 for none. */
  lemma CreatesOnlyIfAbsent(mtime: Ino -> int, before: Option<Bytes>, run: seq<State>, j: nat, r: nat)
    requires IsRun(mtime, before, run) && j < |run| && r < |run[j].reqs| && run[j].reqs[r].pc.Ready?
    requires run[j].reqs[r].wanted == Some(0)
    ensures
      var s, pc := run[j], run[j].reqs[r].pc;
      s.target == None <==> |s.installs| == pc.at && !(pc.saw.Some? && mtime(pc.saw.value) == 0)
  {
    RunKeepsInv(mtime, before, run, j);
    RunKeepsStamps(mtime, before, run, j);
    assert SawOk(run[j], r, before);
  }

  // ---- Where it fails ----------------------------------------------------

  lemma Then(mtime: Ino -> int, before: Option<Bytes>, run: seq<State>, s: State, r: nat)
    requires IsRun(mtime, before, run) && StepOf(mtime, run[|run| - 1], s, r)
    ensures IsRun(mtime, before, run + [s])
  {
    var run' := run + [s];
    forall i: nat | i + 1 < |run'|
      ensures StepAt(mtime, run', i)
    {
      if i + 1 < |run| {
        assert StepAt(mtime, run, i);
      }
    }
  }

  /** A request for an empty file, up to where it would rename. */
  lemma Prepare(mtime: Ino -> int, before: Option<Bytes>, run: seq<State>, r: nat) returns (run': seq<State>)
    requires IsRun(mtime, before, run) && r < |run[|run| - 1].reqs|
    requires
      var s := run[|run| - 1];
      Stamp(mtime, s.target) == 0 && s.reqs[r] == Request([], Some(0), Start)
    ensures IsRun(mtime, before, run')
    ensures
      var s, s' := run[|run| - 1], run'[|run'| - 1];
      && s'.target == s.target && s'.installs == s.installs && s'.writeSeq == s.writeSeq + 1
      && s'.temps == s.temps[s.writeSeq + 1 := Temp(s.nextIno, r)]
      && s'.reqs == s.reqs[r := Request([], Some(0), Ready(s.writeSeq + 1, s.target, |s.installs|))]
  {
    var s, tmp := run[|run| - 1], run[|run| - 1].writeSeq + 1;
    var s1 := With(s.(writeSeq := tmp, temps := s.temps[tmp := Temp(s.nextIno, r)],
                      files := s.files[s.nextIno := File([], false)], nextIno := s.nextIno + 1), r, Writing(tmp, 0));
    assert OpenStep(s, s1, r);
    Then(mtime, before, run, s1, r);
    var s2 := With(s1.(files := s1.files[s.nextIno := File([], true)]), r, Flushed(tmp));
    assert SyncStep(s1, s2, r);
    Then(mtime, before, run + [s1], s2, r);
    var s3 := With(s2, r, Ready(tmp, s.target, |s.installs|));
    assert CheckStep(mtime, s2, s3, r);
    Then(mtime, before, run + [s1] + [s2], s3, r);
    run' := run + [s1] + [s2] + [s3];
  }

  lemma Rename(mtime: Ino -> int, before: Option<Bytes>, run: seq<State>, r: nat) returns (s': State)
    requires IsRun(mtime, before, run) && r < |run[|run| - 1].reqs|
    requires var s := run[|run| - 1]; s.reqs[r].pc.Ready? && s.reqs[r].pc.tmp in s.temps
    ensures IsRun(mtime, before, run + [s']) && RenameStep(run[|run| - 1], s', r)
  {
    var s := run[|run| - 1];
    var ino := s.temps[s.reqs[r].pc.tmp].ino;
    s' := With(s.(target := Some(ino), temps := s.temps - {s.reqs[r].pc.tmp}, installs := s.installs + [Install(ino, r)]),
               r, Done(Written));
    assert RenameStep(s, s', r);
    Then(mtime, before, run, s', r);
  }

  /** Two requests both ask to write only if the file does not exist, and both
      are answered as written: the second replaced the first one's file. */
  lemma BothCreate(mtime: Ino -> int) returns (run: seq<State>)
    ensures IsRun(mtime, None, run)
    ensures var done := Request([], Some(0), Done(Written)); run[|run| - 1].reqs == [done, done]
    ensures |run[|run| - 1].installs| == 2
  {
    var req := Request([], Some(0), Start);
    run := [State(None, map[], map[], 1, 0, [], [req, req])];
    run := Prepare(mtime, None, run, 0);
    run := Prepare(mtime, None, run, 1);
    var s := Rename(mtime, None, run, 0);
    run := run + [s];
    var s' := Rename(mtime, None, run, 1);
    run := run + [s'];
  }

  /** A request asks to write only if the file does not exist, and replaces one
      that does: its time stamp is 0. No other request is under way. */
  lemma CreateOverStampZero(mtime: Ino -> int, bytes: Bytes) returns (run: seq<State>)
    requires mtime(0) == 0
    ensures IsRun(mtime, Some(bytes), run) && run[0].target == Some(0)
    ensures run[|run| - 1].reqs == [Request([], Some(0), Done(Written))] && run[|run| - 1].target != Some(0)
  {
    run := [State(Some(0), map[0 := File(bytes, true)], map[], 1, 0, [], [Request([], Some(0), Start)])];
    run := Prepare(mtime, Some(bytes), run, 0);
    var s := Rename(mtime, Some(bytes), run, 0);
    run := run + [s];
  }
}
