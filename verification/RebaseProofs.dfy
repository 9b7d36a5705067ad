/**
 What a successful rebase leaves behind: one chain of commits, every action
 mapped, runs of squashes sharing a commit, and meaning preserved when a chain is
 replayed onto its own base.
 */
module RebaseProofs {
  import opened Wrappers
  import opened Rebase

  // ---- The objects -------------------------------------------------------

  /** Object ids name their content. */
  ghost predicate Hashed(g: Git, store: Store) {
    && (forall c :: g.content(g.hash(c)) == c)
    && (forall o :: o in store ==> g.hash(store[o]) == o)
  }

  predicate Grows(store: Store, store': Store) {
    forall o :: o in store ==> o in store' && store'[o] == store[o]
  }

  /** The created commits, oldest first, each with the one before as its only
      parent; `parent` is the last. */
  ghost predicate Chain(store: Store, onto: Oid, created: seq<Oid>, parent: Oid) {
    && (forall k: nat :: k < |created| ==> LinkAt(store, onto, created, k))
    && parent == Before(onto, created, |created|)
  }

  predicate LinkAt(store: Store, onto: Oid, created: seq<Oid>, k: nat)
    requires k < |created|
  {
    created[k] in store && store[created[k]].parents == [Before(onto, created, k)]
  }

  function Before(onto: Oid, created: seq<Oid>, k: nat): Oid
    requires k <= |created|
  {
    if k == 0 then onto else created[k - 1]
  }

  // ---- Which action makes which commit -----------------------------------

  /** Action i ends in a commit: it stands alone, or is the last of its run. */
  predicate Ends(p: Plan, i: nat) {
    i < |p.actions| && p.actions[i].kind != Drop && !(JoinsAt(p, i) && JoinsAt(p, i + 1))
  }

  /** The action whose commit action i is part of. */
  function EndOf(p: Plan, i: nat): (j: nat)
    requires i < |p.actions|
    ensures i <= j < |p.actions|
    ensures p.actions[i].kind != Drop ==> Ends(p, j)
    ensures j > i ==> forall k :: i <= k <= j ==> JoinsAt(p, k)
    decreases |p.actions| - i
  {
    if JoinsAt(p, i) && JoinsAt(p, i + 1) then EndOf(p, i + 1) else i
  }

  /** Commits made by the first i actions. */
  function Made(p: Plan, i: nat): nat
    requires i <= |p.actions|
  {
    if i == 0 then 0 else Made(p, i - 1) + if Ends(p, i - 1) then 1 else 0
  }

  /** The loop is between two members of one run. */
  predicate InRun(p: Plan, i: nat) {
    0 < i && JoinsAt(p, i - 1) && JoinsAt(p, i)
  }

  // ---- The invariant -----------------------------------------------------

  ghost predicate StoreOk(g: Git, p: Plan, store0: Store, e: Exec) {
    Hashed(g, e.store) && Grows(store0, e.store) && Chain(e.store, p.onto, e.created, e.parent)
  }

  ghost predicate PendingOk(p: Plan, i: nat, e: Exec) {
    if InRun(p, i) then e.message != "" ==> e.parent in e.store && e.author == Some(e.store[e.parent].author)
    else e.message == "" && e.author == None && e.squashed == []
  }

  /** Action j is mapped to its commit, or waits in the open run. */
  ghost predicate MappedAt(p: Plan, i: nat, e: Exec, j: nat)
    requires j < |p.actions|
  {
    var end := EndOf(p, j);
    if end < i then Made(p, end) < |e.created| && (p.actions[j].original, e.created[Made(p, end)]) in e.mapping
    else p.actions[j].original in e.squashed
  }

  ghost predicate MappingOk(p: Plan, i: nat, e: Exec) {
    forall j: nat :: j < i && j < |p.actions| && p.actions[j].kind != Drop ==> MappedAt(p, i, e, j)
  }

  ghost predicate Inv(g: Git, p: Plan, store0: Store, i: nat, e: Exec) {
    && i <= |p.actions|
    && StoreOk(g, p, store0, e) && PendingOk(p, i, e) && MappingOk(p, i, e)
    && |e.created| == Made(p, i)
  }

  // ---- One turn of the loop ----------------------------------------------

  lemma CommitsKeepStore(g: Git, p: Plan, store0: Store, e: Exec, original: Oid, c: Commit)
    requires StoreOk(g, p, store0, e) && c.parents == [e.parent]
    ensures StoreOk(g, p, store0, Commits(g, e, original, c))
    ensures Grows(e.store, Commits(g, e, original, c).store)
  {
    var e' := Commits(g, e, original, c);
    assert forall o :: o in e.store ==> e'.store[o] == e.store[o];
    forall k: nat | k < |e'.created|
      ensures LinkAt(e'.store, p.onto, e'.created, k)
    {
      if k < |e.created| {
        assert LinkAt(e.store, p.onto, e.created, k);
      }
    }
  }

  /** A commit at action i maps everything that was waiting for it. */
  lemma CommitsMap(g: Git, p: Plan, i: nat, e: Exec, w: Exec, c: Commit, j: nat)
    requires i < |p.actions| && Ends(p, i) && MappingOk(p, i, e) && |e.created| == Made(p, i)
    requires w.created == e.created && w.mapping == e.mapping && forall o :: o in e.squashed ==> o in w.squashed
    requires j <= i && p.actions[j].kind != Drop
    ensures MappedAt(p, i + 1, Commits(g, w, p.actions[i].original, c), j)
  {
    var e' := Commits(g, w, p.actions[i].original, c);
    var oid := g.hash(c);
    var end := EndOf(p, j);
    assert e'.created[Made(p, i)] == oid;
    if j < i {
      assert MappedAt(p, i, e, j);
      if end < i {
        assert e'.created[Made(p, end)] == e.created[Made(p, end)];
      } else {
        EndsAtFirst(p, j, i);
        var o := p.actions[j].original;
        var k :| 0 <= k < |w.squashed| && w.squashed[k] == o;
        assert Pairs(w.squashed, oid)[k] == (o, oid);
      }
    } else {
      assert end == i;
    }
  }

  lemma {:induction false} EndsAtFirst(p: Plan, j: nat, i: nat)
    requires j < |p.actions| && j <= i <= EndOf(p, j) && Ends(p, i)
    ensures EndOf(p, j) == i
    decreases |p.actions| - j
  {
    if JoinsAt(p, j) && JoinsAt(p, j + 1) {
      if j < i { EndsAtFirst(p, j + 1, i); }
    }
  }

  lemma CommitTurn(g: Git, p: Plan, store0: Store, i: nat, e: Exec, w: Exec, c: Commit)
    requires Inv(g, p, store0, i, e) && Ends(p, i) && c.parents == [e.parent]
    requires w == e.(squashed := w.squashed) && forall o :: o in e.squashed ==> o in w.squashed
    ensures Inv(g, p, store0, i + 1, Commits(g, w, p.actions[i].original, c))
  {
    var e' := Commits(g, w, p.actions[i].original, c);
    CommitsKeepStore(g, p, store0, w, p.actions[i].original, c);
    forall j: nat | j < i + 1 && p.actions[j].kind != Drop
      ensures MappedAt(p, i + 1, e', j)
    {
      CommitsMap(g, p, i, e, w, c, j);
    }
  }

  lemma WaitMaps(p: Plan, i: nat, e: Exec, e': Exec, j: nat)
    requires i < |p.actions| && MappingOk(p, i, e) && JoinsAt(p, i) && JoinsAt(p, i + 1)
    requires e'.created == e.created && e'.mapping == e.mapping && e'.squashed == e.squashed + [p.actions[i].original]
    requires j <= i && p.actions[j].kind != Drop
    ensures MappedAt(p, i + 1, e', j)
  {
    if j < i {
      assert MappedAt(p, i, e, j);
      if EndOf(p, j) >= i {
        NotEndHere(p, j, i);
      }
    } else {
      NotEndHere(p, i, i);
    }
  }

  lemma WaitTurn(g: Git, p: Plan, store0: Store, i: nat, e: Exec, e': Exec)
    requires Inv(g, p, store0, i, e) && i < |p.actions| && JoinsAt(p, i) && JoinsAt(p, i + 1) && e.parent in e.store
    requires e' == e.(message := e'.message, author := e'.author, squashed := e.squashed + [p.actions[i].original])
    requires e'.author == Some(e.store[e.parent].author)
    ensures Inv(g, p, store0, i + 1, e')
  {
    assert StoreOk(g, p, store0, e') && PendingOk(p, i + 1, e') && !Ends(p, i);
    forall j: nat | j < i + 1 && p.actions[j].kind != Drop
      ensures MappedAt(p, i + 1, e', j)
    {
      WaitMaps(p, i, e, e', j);
    }
  }

  lemma NotEndHere(p: Plan, j: nat, i: nat)
    requires j < |p.actions| && j <= i <= EndOf(p, j) && p.actions[j].kind != Drop && JoinsAt(p, i) && JoinsAt(p, i + 1)
    ensures EndOf(p, j) > i
  {
    assert Ends(p, EndOf(p, j));
  }

  lemma DropTurn(g: Git, p: Plan, store0: Store, i: nat, e: Exec)
    requires Inv(g, p, store0, i, e) && i < |p.actions| && p.actions[i].kind == Drop
    ensures Inv(g, p, store0, i + 1, e)
  {
    forall j: nat | j < i + 1 && p.actions[j].kind != Drop
      ensures MappedAt(p, i + 1, e, j)
    {
      assert MappedAt(p, i, e, j);
      assert EndOf(p, j) != i;
    }
  }

  lemma SeededAuthor(p: Plan, i: nat, e: Exec)
    requires PendingOk(p, i, e) && e.parent in e.store
    ensures Seeded(e, e.store[e.parent]).1 == Some(e.store[e.parent].author)
  {
  }

  lemma StepKeepsInv(g: Git, p: Plan, store0: Store, i: nat, e: Exec)
    requires Inv(g, p, store0, i, e) && i < |p.actions| && Step(g, p, i, e).Some?
    ensures Inv(g, p, store0, i + 1, Step(g, p, i, e).value)
  {
    var a := p.actions[i];
    if a.kind == Drop {
      DropTurn(g, p, store0, i, e);
    } else {
      var e' := Step(g, p, i, e).value;
      var original, parent := e.store[a.original], e.store[e.parent];
      var tree := NewTree(g, p, i, e.store, original, parent).value;
      if Joins(a.kind) {
        SeededAuthor(p, i, e);
        if JoinsAt(p, i + 1) {
          WaitTurn(g, p, store0, i, e, e');
        } else {
          CommitTurn(g, p, store0, i, e, e.(squashed := e.squashed + [a.original]),
                     Commit(tree, [e.parent], parent.author, Joined(a, original, Seeded(e, parent).0)));
        }
      } else {
        CommitTurn(g, p, store0, i, e, e, Commit(tree, [e.parent], original.author,
                   if a.kind == Reword && a.newMessage.Some? then a.newMessage.value else original.message));
      }
    }
  }

  lemma RunTurns(g: Git, p: Plan, i: nat, e: Exec)
    requires i < |p.actions| && Run(g, p, i, e).Some?
    ensures Step(g, p, i, e).Some? && Run(g, p, i, e) == Run(g, p, i + 1, Step(g, p, i, e).value)
  {
  }

  lemma {:induction false} RunKeepsInv(g: Git, p: Plan, store0: Store, i: nat, e: Exec)
    requires Inv(g, p, store0, i, e) && Run(g, p, i, e).Some?
    ensures Inv(g, p, store0, |p.actions|, Run(g, p, i, e).value)
    decreases |p.actions| - i
  {
    if i < |p.actions| {
      RunTurns(g, p, i, e);
      var e' := Step(g, p, i, e).value;
      StepKeepsInv(g, p, store0, i, e);
      RunKeepsInv(g, p, store0, i + 1, e');
    }
  }

  /** One commit per pick, reword and edit, and one per maximal run of adjacent
      squashes and fixups; the commits form one single-parent chain from `onto`
      to the new head; and every action that is not dropped is mapped to the
      commit it ended in, so all members of a run to the same one. */
  lemma RebaseMakesChain(g: Git, p: Plan, store: Store)
    requires Hashed(g, store) && Run(g, p, 0, Begin(p, store)).Some?
    ensures
      var e := Run(g, p, 0, Begin(p, store)).value;
      && |e.created| == Made(p, |p.actions|)
      && Grows(store, e.store) && Chain(e.store, p.onto, e.created, e.parent)
      && forall j: nat :: j < |p.actions| && p.actions[j].kind != Drop ==>
           && Made(p, EndOf(p, j)) < |e.created|
           && (p.actions[j].original, e.created[Made(p, EndOf(p, j))]) in e.mapping
  {
    RunKeepsInv(g, p, store, 0, Begin(p, store));
    var e := Run(g, p, 0, Begin(p, store)).value;
    forall j: nat | j < |p.actions| && p.actions[j].kind != Drop
      ensures Made(p, EndOf(p, j)) < |e.created| && (p.actions[j].original, e.created[Made(p, EndOf(p, j))]) in e.mapping
    {
      assert MappedAt(p, |p.actions|, e, j);
    }
  }

  /** Members of one run end in the same commit. */
  lemma RunSharesCommit(p: Plan, i: nat)
    requires JoinsAt(p, i) && JoinsAt(p, i + 1)
    ensures EndOf(p, i) == EndOf(p, i + 1)
  {
  }

  // ---- Who wrote what ----------------------------------------------------

  /** The commit of action j: a standing action keeps its author, and its
      message unless reworded; a run takes its author from the created commit
      before it, never from `onto`. */
  predicate ContentAt(p: Plan, e: Exec, j: nat)
    requires j < |p.actions|
  {
    var a, k := p.actions[j], Made(p, j);
    && k < |e.created| && e.created[k] in e.store && a.original in e.store
    && var c, original := e.store[e.created[k]], e.store[a.original];
       if Joins(a.kind) then k > 0 && e.created[k - 1] in e.store && c.author == e.store[e.created[k - 1]].author
       else
         && c.author == original.author
         && c.message == (if a.kind == Reword && a.newMessage.Some? then a.newMessage.value else original.message)
  }

  ghost predicate ContentOk(p: Plan, i: nat, e: Exec) {
    forall j: nat :: j < i && Ends(p, j) ==> ContentAt(p, e, j)
  }

  lemma {:induction false} MadePositive(p: Plan, j: nat, i: nat)
    requires j < i <= |p.actions| && Stands(p.actions[j].kind)
    ensures Made(p, i) > 0
    decreases i
  {
    if j < i - 1 {
      MadePositive(p, j, i - 1);
    }
  }

  lemma ContentKept(p: Plan, e: Exec, e': Exec, j: nat)
    requires j < |p.actions| && ContentAt(p, e, j) && Grows(e.store, e'.store) && e.created <= e'.created
    ensures ContentAt(p, e', j)
  {
  }

  lemma JoinParent(g: Git, p: Plan, store0: Store, i: nat, e: Exec)
    requires Valid(p) && Inv(g, p, store0, i, e) && JoinsAt(p, i)
    ensures |e.created| > 0 && e.parent == e.created[|e.created| - 1] && e.parent in e.store
  {
    var j :| 0 <= j < i && Stands(p.actions[j].kind);
    MadePositive(p, j, i);
    assert LinkAt(e.store, p.onto, e.created, |e.created| - 1);
  }

  lemma StepGrows(g: Git, p: Plan, store0: Store, i: nat, e: Exec)
    requires Inv(g, p, store0, i, e) && i < |p.actions| && Step(g, p, i, e).Some?
    ensures Grows(e.store, Step(g, p, i, e).value.store) && e.created <= Step(g, p, i, e).value.created
  {
  }

  lemma StepContent(g: Git, p: Plan, store0: Store, i: nat, e: Exec)
    requires Valid(p) && Inv(g, p, store0, i, e) && Ends(p, i) && Step(g, p, i, e).Some?
    ensures ContentAt(p, Step(g, p, i, e).value, i)
  {
    StepGrows(g, p, store0, i, e);
    var e' := Step(g, p, i, e).value;
    assert e'.created[Made(p, i)] == e'.parent;
    if Joins(p.actions[i].kind) {
      JoinParent(g, p, store0, i, e);
      SeededAuthor(p, i, e);
      assert e'.created[|e.created| - 1] == e.parent;
    }
  }

  lemma StepKeepsContent(g: Git, p: Plan, store0: Store, i: nat, e: Exec)
    requires Valid(p) && Inv(g, p, store0, i, e) && i < |p.actions| && Step(g, p, i, e).Some? && ContentOk(p, i, e)
    ensures ContentOk(p, i + 1, Step(g, p, i, e).value)
  {
    var e' := Step(g, p, i, e).value;
    StepGrows(g, p, store0, i, e);
    forall j: nat | j < i + 1 && Ends(p, j)
      ensures ContentAt(p, e', j)
    {
      if j < i {
        ContentKept(p, e, e', j);
      } else {
        StepContent(g, p, store0, i, e);
      }
    }
  }

  lemma {:induction false} RunKeepsContent(g: Git, p: Plan, store0: Store, i: nat, e: Exec)
    requires Valid(p) && Inv(g, p, store0, i, e) && ContentOk(p, i, e) && Run(g, p, i, e).Some?
    ensures ContentOk(p, |p.actions|, Run(g, p, i, e).value)
    decreases |p.actions| - i
  {
    if i < |p.actions| {
      RunTurns(g, p, i, e);
      StepKeepsInv(g, p, store0, i, e);
      StepKeepsContent(g, p, store0, i, e);
      RunKeepsContent(g, p, store0, i + 1, Step(g, p, i, e).value);
    }
  }

  /** Authors and messages after any successful rebase of a valid plan. */
  lemma RebaseKeepsAuthors(g: Git, p: Plan, store: Store, j: nat)
    requires Valid(p) && Hashed(g, store) && Run(g, p, 0, Begin(p, store)).Some? && Ends(p, j)
    ensures ContentAt(p, Run(g, p, 0, Begin(p, store)).value, j)
  {
    RunKeepsContent(g, p, store, 0, Begin(p, store));
  }

  // ---- Replaying a chain onto its own base -------------------------------

  /** The plan picks, rewords or edits a linear chain that starts at `onto`, and
      changes no tree. */
  ghost predicate Replays(p: Plan, store: Store) {
    && p.onto in store && p.mods == map[]
    && forall i: nat :: i < |p.actions| ==> ReplayAt(p, store, i)
  }

  /** The commit a chain's i-th action sits on. */
  function Under(p: Plan, i: nat): Oid
    requires i <= |p.actions|
  {
    if i == 0 then p.onto else p.actions[i - 1].original
  }

  predicate ReplayAt(p: Plan, store: Store, i: nat)
    requires i < |p.actions|
  {
    && Stands(p.actions[i].kind) && p.actions[i].original in store
    && store[p.actions[i].original].parents == [Under(p, i)]
  }

  lemma {:induction false} MadeAll(p: Plan, store: Store, i: nat)
    requires Replays(p, store) && i <= |p.actions|
    ensures Made(p, i) == i
  {
    if i > 0 {
      assert ReplayAt(p, store, i - 1);
      MadeAll(p, store, i - 1);
    }
  }

  lemma UnderInStore(p: Plan, store: Store, i: nat)
    requires Replays(p, store) && i <= |p.actions|
    ensures Under(p, i) in store
  {
    if i > 0 {
      assert ReplayAt(p, store, i - 1);
    }
  }

  /** The trees made so far are those of the originals. */
  ghost predicate SameTrees(p: Plan, store: Store, i: nat, e: Exec) {
    && i <= |p.actions| && |e.created| == i
    && (forall k: nat :: k < i ==> SameTreeAt(p, store, e, k))
    && e.parent in e.store && Under(p, i) in store && e.store[e.parent].tree == store[Under(p, i)].tree
  }

  predicate SameTreeAt(p: Plan, store: Store, e: Exec, k: nat)
    requires k < |p.actions|
  {
    && k < |e.created| && e.created[k] in e.store && p.actions[k].original in store
    && e.store[e.created[k]].tree == store[p.actions[k].original].tree
  }

  lemma ReplayStep(g: Git, p: Plan, store: Store, i: nat, e: Exec)
    requires Replays(p, store) && (forall x, t :: g.merge(x, x, t) == Some(t))
    requires Inv(g, p, store, i, e) && SameTrees(p, store, i, e) && i < |p.actions|
    ensures Step(g, p, i, e).Some? && SameTrees(p, store, i + 1, Step(g, p, i, e).value)
  {
    assert ReplayAt(p, store, i);
    UnderInStore(p, store, i);
    var a := p.actions[i];
    assert e.store[a.original] == store[a.original] && e.store[Under(p, i)] == store[Under(p, i)];
    assert NewTree(g, p, i, e.store, e.store[a.original], e.store[e.parent]) == Some(store[a.original].tree);
    StepGrows(g, p, store, i, e);
    var e' := Step(g, p, i, e).value;
    forall k: nat | k < i + 1
      ensures SameTreeAt(p, store, e', k)
    {
      if k < i {
        assert SameTreeAt(p, store, e, k);
      } else {
        assert e'.created[i] == e'.parent;
      }
    }
  }

  lemma {:induction false} ReplayRuns(g: Git, p: Plan, store: Store, i: nat, e: Exec)
    requires Replays(p, store) && (forall x, t :: g.merge(x, x, t) == Some(t))
    requires Inv(g, p, store, i, e) && SameTrees(p, store, i, e)
    ensures Run(g, p, i, e).Some? && SameTrees(p, store, |p.actions|, Run(g, p, i, e).value)
    decreases |p.actions| - i
  {
    if i < |p.actions| {
      ReplayStep(g, p, store, i, e);
      StepKeepsInv(g, p, store, i, e);
      ReplayRuns(g, p, store, i + 1, Step(g, p, i, e).value);
    }
  }

  /** Replay preserves meaning: with a merge that answers `theirs` when base and
      ours agree, replaying a chain onto its own base succeeds and reproduces
      every commit's tree and author in order, and every message that was not
      reworded. */
  lemma ReplayPreserves(g: Git, p: Plan, store: Store)
    requires Valid(p) && Hashed(g, store) && Replays(p, store) && forall x, t :: g.merge(x, x, t) == Some(t)
    ensures Run(g, p, 0, Begin(p, store)).Some?
    ensures
      var e := Run(g, p, 0, Begin(p, store)).value;
      && |e.created| == |p.actions|
      && forall k: nat :: k < |p.actions| ==>
           && SameTreeAt(p, store, e, k)
           && var was, now := store[p.actions[k].original], e.store[e.created[k]];
              && now.author == was.author
              && (p.actions[k].kind != Reword ==> now.message == was.message)
  {
    var e0 := Begin(p, store);
    ReplayRuns(g, p, store, 0, e0);
    RunKeepsInv(g, p, store, 0, e0);
    var e := Run(g, p, 0, e0).value;
    forall k: nat | k < |p.actions|
      ensures SameTreeAt(p, store, e, k)
      ensures var was, now := store[p.actions[k].original], e.store[e.created[k]];
        && now.author == was.author && (p.actions[k].kind != Reword ==> now.message == was.message)
    {
      assert SameTreeAt(p, store, e, k);
      assert ReplayAt(p, store, k);
      MadeAll(p, store, k);
      RebaseKeepsAuthors(g, p, store, k);
    }
  }
}
