/**
 The bookkeeping of DirWatcher (agent/main.cpp): which directories are
 watched, under which inotify descriptor, and in what order they were added.
 */
module WatchRegistry {
  type Dir = string
  type Wd = int

  const MAX_WATCHES: nat := 2048

  datatype Registry = Registry(byDir: map<Dir, Wd>, byWd: map<Wd, Dir>, order: seq<Dir>)

  function Without(order: seq<Dir>, dir: Dir): (r: seq<Dir>)
    ensures forall d :: d in r <==> d in order && d != dir
    ensures Distinct(order) ==> Distinct(r)
  {
    if order == [] then []
    else if order[0] == dir then Without(order[1..], dir)
    else
      var rest := Without(order[1..], dir);
      assert order == [order[0]] + order[1..];
      assert Distinct(order) ==> order[0] !in order[1..];
      [order[0]] + rest
  }

  predicate Distinct(s: seq<Dir>) {
    forall i, j :: 0 <= i < j < |s| ==> s[i] != s[j]
  }

  lemma {:induction false} WithoutAbsent(order: seq<Dir>, dir: Dir)
    requires dir !in order
    ensures Without(order, dir) == order
  {
    if order != [] {
      WithoutAbsent(order[1..], dir);
    }
  }

  /** order lists exactly the watched directories, once each. */
  ghost predicate Listed(r: Registry) {
    && Distinct(r.order)
    && (forall d :: d in r.order <==> d in r.byDir)
  }

  /** The descriptor means the directory. */
  predicate Means(r: Registry, wd: Wd, dir: Dir) {
    wd in r.byWd && r.byWd[wd] == dir
  }

  /** The half of the inverse that holds whatever descriptors the kernel
      answers: a descriptor means a directory registered under it, or it is an
      empty entry left by Consult. No directory has the empty name. */
  ghost predicate Sound(r: Registry) {
    && "" !in r.byDir
    && forall w :: w in r.byWd && r.byWd[w] != "" ==> r.byWd[w] in r.byDir && r.byDir[r.byWd[w]] == w
  }

  /** The two maps are inverse to each other. */
  ghost predicate Inverse(r: Registry) {
    && (forall d :: d in r.byDir ==> r.byDir[d] in r.byWd && r.byWd[r.byDir[d]] == d)
    && (forall w :: w in r.byWd ==> r.byWd[w] in r.byDir && r.byDir[r.byWd[w]] == w)
  }

  function Add(r: Registry, dir: Dir, wd: Wd): Registry {
    Registry(r.byDir[dir := wd], r.byWd[wd := dir], r.order + [dir])
  }

  /** dropLocked: forget a directory, if it is watched at all. */
  function Drop(r: Registry, dir: Dir): Registry {
    if dir !in r.byDir then r
    else Registry(r.byDir - {dir}, r.byWd - {r.byDir[dir]}, Without(r.order, dir))
  }

  /** Looking up the notes of a directory's watch by descriptor: an entry with no
      name springs up when the descriptor has none. */
  function Consult(r: Registry, dir: Dir): Registry {
    if dir in r.byDir && r.byDir[dir] !in r.byWd then r.(byWd := r.byWd[r.byDir[dir] := ""]) else r
  }

  lemma AddKeepsListed(r: Registry, dir: Dir, wd: Wd)
    requires Listed(r) && dir !in r.byDir
    ensures Listed(Add(r, dir, wd))
  {
  }

  lemma DropKeepsListed(r: Registry, dir: Dir)
    requires Listed(r)
    ensures Listed(Drop(r, dir))
  {
  }

  lemma DropKeepsInverse(r: Registry, dir: Dir)
    requires Inverse(r)
    ensures Inverse(Drop(r, dir))
  {
  }

  /** inotify_add_watch answers an existing descriptor when the inode is
      already watched under another name. The maps stay inverse exactly when
      that did not happen. */
  lemma AddInverseIffFresh(r: Registry, dir: Dir, wd: Wd)
    requires Inverse(r) && dir !in r.byDir
    ensures Inverse(Add(r, dir, wd)) <==> wd !in r.byWd
  {
    var r' := Add(r, dir, wd);
    if wd in r.byWd {
      var other := r.byWd[wd];
      assert r'.byDir[other] == wd && r'.byWd[wd] != other;
    }
  }

  /** The registry after watch(dir) got `wd` for a directory not yet watched:
      the oldest watch gives way when the table was full. */
  function Watched(r: Registry, dir: Dir, wd: Wd): Registry {
    var added := Add(r, dir, wd);
    if |r.byDir| < MAX_WATCHES || r.order == [] then added else Drop(added, r.order[0])
  }

  lemma FullHasOldest(r: Registry)
    requires Listed(r) && |r.byDir| == MAX_WATCHES
    ensures r.order != [] && r.order[0] in r.byDir
  {
    assert r.byDir.Keys != {};
    var any :| any in r.byDir.Keys;
    assert any in r.order;
  }

  /** The oldest of a full table can give way to `dir`: it is another
      directory, it is listed once, and dropping it makes room. */
  ghost predicate Evictable(r: Registry, dir: Dir, wd: Wd) {
    && r.order != [] && r.order[0] != dir && r.order[0] in r.byDir
    && var added := Add(r, dir, wd);
       && added.order[0] == r.order[0]
       && Without(added.order[1..], r.order[0]) == Without(added.order, r.order[0])
       && |Drop(added, r.order[0]).byDir| == |r.byDir|
  }

  lemma FullIsEvictable(r: Registry, dir: Dir, wd: Wd)
    requires Listed(r) && dir !in r.byDir && |r.byDir| == MAX_WATCHES
    ensures Evictable(r, dir, wd)
  {
    FullHasOldest(r);
    AddCounts(r, dir, wd);
    DropCounts(Add(r, dir, wd), r.order[0]);
  }

  lemma WatchedListed(r: Registry, dir: Dir, wd: Wd)
    requires Listed(r) && |r.byDir| <= MAX_WATCHES && dir !in r.byDir
    ensures Listed(Watched(r, dir, wd)) && |Watched(r, dir, wd).byDir| <= MAX_WATCHES
    ensures dir in Watched(r, dir, wd).byDir
    ensures |r.byDir| == MAX_WATCHES ==> r.order != [] && r.order[0] in r.byDir
  {
    AddKeepsListed(r, dir, wd);
    AddCounts(r, dir, wd);
    if |r.byDir| == MAX_WATCHES {
      FullHasOldest(r);
      DropKeepsListed(Add(r, dir, wd), r.order[0]);
      DropCounts(Add(r, dir, wd), r.order[0]);
    }
  }

  /** Exactly which directories are watched afterwards: the new one too, and at
      2048 without the one that was added first. */
  lemma WatchedKeys(r: Registry, dir: Dir, wd: Wd)
    requires Listed(r) && |r.byDir| <= 2048 && dir !in r.byDir
    ensures |r.byDir| < 2048 ==> Watched(r, dir, wd).byDir.Keys == r.byDir.Keys + {dir}
    ensures |r.byDir| == 2048 ==> r.order != [] && Watched(r, dir, wd).byDir.Keys == r.byDir.Keys + {dir} - {r.order[0]}
    ensures forall d :: d in Watched(r, dir, wd).byDir ==> Watched(r, dir, wd).byDir[d] == if d == dir then wd else r.byDir[d]
  {
    if |r.byDir| == 2048 { FullHasOldest(r); }
  }

  /** What watching `dir` anew can count on. */
  lemma Prepared(r: Registry, dir: Dir, wd: Wd)
    requires Listed(r) && |r.byDir| <= MAX_WATCHES && dir !in r.byDir
    ensures |Add(r, dir, wd).byDir| == |r.byDir| + 1
    ensures |r.byDir| == MAX_WATCHES ==> Evictable(r, dir, wd)
    ensures Listed(Watched(r, dir, wd)) && |Watched(r, dir, wd).byDir| <= MAX_WATCHES
    ensures dir in Watched(r, dir, wd).byDir
    ensures Inverse(r) ==> (Inverse(Watched(r, dir, wd)) <==> wd !in r.byWd)
  {
    AddCounts(r, dir, wd);
    WatchedListed(r, dir, wd);
    if |r.byDir| == MAX_WATCHES { FullIsEvictable(r, dir, wd); }
    if Inverse(r) { WatchedInvariant(r, dir, wd); }
  }

  lemma DropFits(r: Registry, dir: Dir)
    requires Listed(r) && |r.byDir| <= MAX_WATCHES
    ensures Listed(Drop(r, dir)) && |Drop(r, dir).byDir| <= MAX_WATCHES
  {
    DropKeepsListed(r, dir);
    if dir in r.byDir { DropCounts(r, dir); }
  }

  lemma AddCounts(r: Registry, dir: Dir, wd: Wd)
    requires dir !in r.byDir
    ensures |Add(r, dir, wd).byDir| == |r.byDir| + 1
  {
    assert Add(r, dir, wd).byDir.Keys == r.byDir.Keys + {dir};
  }

  lemma DropCounts(r: Registry, dir: Dir)
    requires dir in r.byDir
    ensures |Drop(r, dir).byDir| == |r.byDir| - 1
  {
    assert Drop(r, dir).byDir.Keys == r.byDir.Keys - {dir};
  }

  /** The whole invariant, over the one operation that can break it. */
  lemma WatchedInvariant(r: Registry, dir: Dir, wd: Wd)
    requires Listed(r) && Inverse(r) && |r.byDir| <= MAX_WATCHES && dir !in r.byDir
    ensures Listed(Watched(r, dir, wd)) && |Watched(r, dir, wd).byDir| <= MAX_WATCHES
    ensures dir in Watched(r, dir, wd).byDir
    ensures Inverse(Watched(r, dir, wd)) <==> wd !in r.byWd
  {
    WatchedListed(r, dir, wd);
    AddInverseIffFresh(r, dir, wd);
    if |r.byDir| == MAX_WATCHES {
      if wd in r.byWd {
        AliasSurvivesDrop(r, dir, wd, r.order[0]);
      } else {
        DropKeepsInverse(Add(r, dir, wd), r.order[0]);
      }
    }
  }

  lemma AliasSurvivesDrop(r: Registry, dir: Dir, wd: Wd, victim: Dir)
    requires Inverse(r) && dir !in r.byDir && wd in r.byWd && victim in r.byDir
    ensures !Inverse(Drop(Add(r, dir, wd), victim))
  {
    var r' := Drop(Add(r, dir, wd), victim);
    assert r'.byDir[dir] == wd;
    var other := r.byWd[wd];
    if other != victim {
      assert r'.byDir[other] == wd;
    }
  }

  // ---- Repair ------------------------------------------------------------

  function DropAll(r: Registry, victims: seq<Dir>): Registry
    decreases |victims|
  {
    if victims == [] then r else DropAll(Drop(r, victims[0]), victims[1..])
  }

  /** Two names registered under one descriptor. */
  ghost predicate Shared(r: Registry, a: Dir, b: Dir, wd: Wd) {
    a != b && a in r.byDir && b in r.byDir && r.byDir[a] == wd == r.byDir[b]
  }

  /** One name registered under a descriptor that means nothing any more. */
  ghost predicate Orphan(r: Registry, a: Dir, wd: Wd) {
    a in r.byDir && r.byDir[a] == wd && wd !in r.byWd
  }

  /** Inverse but for the names in `odd`, registered under `wd`. */
  ghost predicate InverseBut(r: Registry, wd: Wd, odd: set<Dir>) {
    && (forall d :: d in r.byDir && d !in odd ==> r.byDir[d] != wd && Means(r, r.byDir[d], d))
    && (forall w :: w in r.byWd && w != wd ==> r.byWd[w] in r.byDir && r.byDir[r.byWd[w]] == w)
  }

  lemma AliasIsShared(r: Registry, dir: Dir, wd: Wd)
    requires Inverse(r) && dir !in r.byDir && wd in r.byWd
    ensures var r' := Add(r, dir, wd); Shared(r', r.byWd[wd], dir, wd) && InverseBut(r', wd, {r.byWd[wd], dir})
  {
  }

  lemma SharedDrop(r: Registry, a: Dir, b: Dir, wd: Wd, victim: Dir)
    requires Shared(r, a, b, wd) && InverseBut(r, wd, {a, b})
    ensures var r' := Drop(r, victim);
      if victim == a then Orphan(r', b, wd) && InverseBut(r', wd, {b})
      else if victim == b then Orphan(r', a, wd) && InverseBut(r', wd, {a})
      else Shared(r', a, b, wd) && InverseBut(r', wd, {a, b})
  {
  }

  lemma OrphanDrop(r: Registry, a: Dir, wd: Wd, victim: Dir)
    requires Orphan(r, a, wd) && InverseBut(r, wd, {a})
    ensures var r' := Drop(r, victim);
      if victim == a then Inverse(r') else Orphan(r', a, wd) && InverseBut(r', wd, {a})
  {
  }

  lemma {:induction false} InverseDrops(r: Registry, victims: seq<Dir>)
    requires Inverse(r)
    ensures Inverse(DropAll(r, victims))
    decreases |victims|
  {
    if victims != [] {
      DropKeepsInverse(r, victims[0]);
      InverseDrops(Drop(r, victims[0]), victims[1..]);
    }
  }

  lemma {:induction false} OrphanRepaired(r: Registry, a: Dir, wd: Wd, victims: seq<Dir>)
    requires Orphan(r, a, wd) && InverseBut(r, wd, {a})
    ensures Inverse(DropAll(r, victims)) <==> a in victims
    decreases |victims|
  {
    if victims != [] {
      OrphanDrop(r, a, wd, victims[0]);
      if victims[0] == a {
        InverseDrops(Drop(r, a), victims[1..]);
      } else {
        OrphanRepaired(Drop(r, victims[0]), a, wd, victims[1..]);
      }
    }
  }

  lemma {:induction false} SharedRepaired(r: Registry, a: Dir, b: Dir, wd: Wd, victims: seq<Dir>)
    requires Shared(r, a, b, wd) && InverseBut(r, wd, {a, b})
    ensures Inverse(DropAll(r, victims)) <==> a in victims && b in victims
    decreases |victims|
  {
    if victims != [] {
      var v, rest := victims[0], victims[1..];
      assert forall d :: d in victims <==> d == v || d in rest;
      SharedDrop(r, a, b, wd, v);
      if v == a {
        OrphanRepaired(Drop(r, v), b, wd, rest);
      } else if v == b {
        OrphanRepaired(Drop(r, v), a, wd, rest);
      } else {
        SharedRepaired(Drop(r, v), a, b, wd, rest);
      }
    }
  }

  /** After a descriptor was answered twice, the maps are inverse again exactly
      when both names that shared it have been dropped, in either order. */
  lemma RepairedIff(r: Registry, dir: Dir, wd: Wd, victims: seq<Dir>)
    requires Inverse(r) && dir !in r.byDir && wd in r.byWd
    ensures Inverse(DropAll(Add(r, dir, wd), victims)) <==> dir in victims && r.byWd[wd] in victims
  {
    AliasIsShared(r, dir, wd);
    SharedRepaired(Add(r, dir, wd), r.byWd[wd], dir, wd, victims);
  }

  // ---- Histories ---------------------------------------------------------

  /** watch() that got a descriptor, any drop, and the look at a watch's notes. */
  datatype Op = Register(dir: Dir, wd: Wd) | Forget(dir: Dir) | Look(dir: Dir)

  predicate Registers(r: Registry, op: Op) {
    op.Register? && op.dir != "" && op.dir !in r.byDir && op.wd >= 0
  }

  function Apply(r: Registry, op: Op): Registry {
    match op
    case Register(dir, wd) => if Registers(r, op) then Watched(r, dir, wd) else r
    case Forget(dir) => Drop(r, dir)
    case Look(dir) => Consult(r, dir)
  }

  function History(ops: seq<Op>): Registry {
    if ops == [] then Registry(map[], map[], []) else Apply(History(ops[..|ops| - 1]), ops[|ops| - 1])
  }

  ghost predicate Kept(r: Registry) {
    Listed(r) && |r.byDir| <= MAX_WATCHES && Sound(r)
  }

  lemma AddKeepsSound(r: Registry, dir: Dir, wd: Wd)
    requires Sound(r) && dir !in r.byDir && dir != ""
    ensures Sound(Add(r, dir, wd))
  {
  }

  lemma DropKeepsSound(r: Registry, dir: Dir)
    requires Sound(r)
    ensures Sound(Drop(r, dir))
  {
  }

  lemma WatchedKept(r: Registry, dir: Dir, wd: Wd)
    requires Kept(r) && dir != "" && dir !in r.byDir
    ensures Kept(Watched(r, dir, wd))
  {
    WatchedListed(r, dir, wd);
    AddKeepsSound(r, dir, wd);
    if |r.byDir| == MAX_WATCHES {
      DropKeepsSound(Add(r, dir, wd), r.order[0]);
    }
  }

  lemma DropKept(r: Registry, dir: Dir)
    requires Kept(r)
    ensures Kept(Drop(r, dir))
  {
    DropFits(r, dir);
    DropKeepsSound(r, dir);
  }

  lemma OpKeeps(r: Registry, op: Op)
    requires Kept(r)
    ensures Kept(Apply(r, op))
  {
    match op
    case Register(dir, wd) =>
      if Registers(r, op) { WatchedKept(r, dir, wd); }
    case Forget(dir) => DropKept(r, dir);
    case Look(_) =>
  }

  /** Every history of the registry, whatever descriptors the kernel answers:
      the order lists exactly the watched directories, there are at most 2048,
      and a descriptor means a directory registered under it. */
  lemma {:induction false} HistoryKeeps(ops: seq<Op>)
    ensures Kept(History(ops))
  {
    if ops != [] {
      HistoryKeeps(ops[..|ops| - 1]);
      OpKeeps(History(ops[..|ops| - 1]), ops[|ops| - 1]);
    }
  }

  /** One operation takes inverse maps to inverse maps exactly when it does not
      register a second name under a descriptor in use. */
  lemma OpInverseIff(r: Registry, op: Op)
    requires Kept(r) && Inverse(r)
    ensures Inverse(Apply(r, op)) <==> !(Registers(r, op) && op.wd in r.byWd)
  {
    match op
    case Register(dir, wd) =>
      if Registers(r, op) { WatchedInvariant(r, dir, wd); }
    case Forget(dir) => DropKeepsInverse(r, dir);
    case Look(_) =>
  }

  ghost predicate FreshAt(ops: seq<Op>, i: nat)
    requires i < |ops|
  {
    ops[i].Register? ==> ops[i].wd !in History(ops[..i]).byWd
  }

  /** While the kernel answers no descriptor in use, the maps stay inverse. */
  lemma {:induction false} FreshHistoryIsInverse(ops: seq<Op>)
    requires forall i: nat :: i < |ops| ==> FreshAt(ops, i)
    ensures Inverse(History(ops))
  {
    if ops != [] {
      var last := |ops| - 1;
      forall i: nat | i < last
        ensures FreshAt(ops[..last], i)
      {
        assert FreshAt(ops, i) && ops[..last][..i] == ops[..i];
      }
      FreshHistoryIsInverse(ops[..last]);
      HistoryKeeps(ops[..last]);
      assert FreshAt(ops, last);
      OpInverseIff(History(ops[..last]), ops[last]);
    }
  }

  /** A directory renamed and listed under its new name before its
      IN_MOVE_SELF was read: the old name stays listed as watched, under a
      descriptor that now means the new one. */
  lemma AliasedWatchBreaksInverse()
    ensures
      var r := Add(Registry(map[], map[], []), "/old", 1);
      var r' := Watched(r, "/new", 1);
      && Inverse(r) && !Inverse(r')
      && "/old" in r'.byDir && r'.byWd[r'.byDir["/old"]] == "/new"
  {
    var empty := Registry(map[], map[], []);
    AddInverseIffFresh(empty, "/old", 1);
    AddInverseIffFresh(Add(empty, "/old", 1), "/new", 1);
  }

  // ---- The registry object -----------------------------------------------

  class DirRegistry {
    var byDir: map<Dir, Wd>
    var byWd: map<Wd, Dir>
    var order: seq<Dir>

    ghost function View(): Registry
      reads this
    {
      Registry(byDir, byWd, order)
    }

    ghost predicate Valid()
      reads this
    {
      Listed(View()) && |byDir| <= MAX_WATCHES
    }

    constructor ()
      ensures Valid() && Inverse(View()) && View() == Registry(map[], map[], [])
    {
      byDir, byWd, order := map[], map[], [];
    }

    method DropLocked(dir: Dir) returns (dropped: bool)
      modifies this
      ensures dropped == old(dir in byDir)
      ensures View() == Drop(old(View()), dir)
      ensures old(Valid()) ==> Valid()
      ensures old(Inverse(View())) ==> Inverse(View())
    {
      ghost var r := View();
      if Listed(r) && |r.byDir| <= MAX_WATCHES { DropFits(r, dir); }
      if Inverse(r) { DropKeepsInverse(r, dir); }
      dropped := dir in byDir;
      if dropped {
        byWd := byWd - {byDir[dir]};
        byDir := byDir - {dir};
        order := Without(order, dir);
      }
    }

    /** The flush's look at a directory's watch before it is narrated. */
    method LookUp(dir: Dir) returns (found: bool)
      modifies this
      ensures found == (dir in byDir)
      ensures View() == Consult(old(View()), dir)
      ensures old(Valid()) ==> Valid()
      ensures found ==> byDir[dir] in byWd
    {
      found := dir in byDir;
      if found && byDir[dir] !in byWd {
        byWd := byWd[byDir[dir] := ""];
      }
    }

    /** The eviction loop of watch, right after `dir` was added to `r`. It drops
        at most one directory, the oldest, and never the one just added. */
    method Trim(ghost r: Registry, dir: Dir, ghost wd: Wd) returns (told: seq<Dir>)
      requires |r.byDir| <= MAX_WATCHES && |Add(r, dir, wd).byDir| == |r.byDir| + 1
      requires |r.byDir| == MAX_WATCHES ==> Evictable(r, dir, wd)
      requires View() == Add(r, dir, wd)
      modifies this
      ensures View() == Watched(r, dir, wd)
      ensures told == (if |r.byDir| < MAX_WATCHES then [] else [r.order[0]])
    {
      told := [];
      while |byDir| > MAX_WATCHES && order != []
        invariant |byDir| > MAX_WATCHES ==> View() == Add(r, dir, wd) && told == [] && |r.byDir| == MAX_WATCHES
        invariant |byDir| <= MAX_WATCHES ==> View() == Watched(r, dir, wd)
        invariant |byDir| <= MAX_WATCHES ==> told == (if |r.byDir| < MAX_WATCHES then [] else [r.order[0]])
        decreases |byDir|
      {
        var victim := order[0];
        order := order[1..];
        if victim == dir {
          // The source rotates the new directory to the back here. It never
          // runs: the new directory is last and not alone.
          assert false;
        }
        var dropped := DropLocked(victim);
        told := [victim];
      }
    }

    /** watch(dir): `eligible` says the directory is on a local filesystem and
        the watcher is running; `wd` is the kernel's answer, negative when it
        refused. */
    method Watch(dir: Dir, eligible: bool, wd: Wd) returns (watched: bool, told: seq<Dir>)
      requires Valid()
      modifies this
      ensures Valid()
      ensures watched == (dir in byDir)
      ensures watched <==> old(dir in byDir) || (eligible && wd >= 0)
      ensures old(dir in byDir) || !watched ==> View() == old(View()) && told == []
      ensures watched && old(dir !in byDir) ==>
        && View() == Watched(old(View()), dir, wd)
        && told == (if old(|byDir|) < 2048 then [] else [old(order)[0]])
      ensures old(Inverse(View())) && watched && old(dir !in byDir) ==> (Inverse(View()) <==> old(wd !in byWd))
    {
      told := [];
      if dir in byDir { return true, []; }
      if !eligible || wd < 0 { return false, []; }
      ghost var r := View();
      Prepared(r, dir, wd);
      byDir := byDir[dir := wd];
      byWd := byWd[wd := dir];
      order := order + [dir];
      watched := true;
      told := Trim(r, dir, wd);
    }
  }
}
