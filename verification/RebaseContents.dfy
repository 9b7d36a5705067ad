/**
 What each commit of a successful rebase holds: the tree and the message,
 written from the plan and the finished store rather than from the loop.
 */
module RebaseContents {
  import opened Wrappers
  import opened Rebase
  import opened RebaseProofs

  function MessageOf(store: Store, o: Oid): string {
    if o in store then store[o].message else ""
  }

  /** Every member of the run up to j is there. */
  predicate RunKnown(p: Plan, store: Store, j: nat)
    requires j < |p.actions|
  {
    p.actions[j].original in store && (InRun(p, j) ==> RunKnown(p, store, j - 1))
  }

  /** The message a run has collected by member j, starting from the message of
      the commit before it. An empty one starts over. */
  function RunMessage(p: Plan, store: Store, j: nat, seed: string): string
    requires j < |p.actions|
  {
    var before := if InRun(p, j) then RunMessage(p, store, j - 1, seed) else "";
    var base, a := if before == "" then seed else before, p.actions[j];
    if a.kind == Fixup then base
    else if a.newMessage.Some? then a.newMessage.value
    else base + Addition(p, store, j)
  }

  /** What a squash's own commit adds; a fixup adds nothing. */
  function Addition(p: Plan, store: Store, j: nat): string
    requires j < |p.actions|
  {
    if p.actions[j].kind == Fixup then "" else "\n\n" + MessageOf(store, p.actions[j].original)
  }

  lemma {:induction false} RunMessageGrows(p: Plan, store: Store, store': Store, j: nat, seed: string)
    requires j < |p.actions| && RunKnown(p, store, j) && Grows(store, store')
    ensures RunKnown(p, store', j) && RunMessage(p, store', j, seed) == RunMessage(p, store, j, seed)
  {
    if InRun(p, j) {
      RunMessageGrows(p, store, store', j - 1, seed);
    }
  }

  // ---- The shape of an ordinary run's message ----------------------------

  /** What members a..j add, in order. */
  function Additions(p: Plan, store: Store, a: nat, j: nat): string
    requires a <= j < |p.actions|
    decreases j
  {
    if a < j then Additions(p, store, a, j - 1) + Addition(p, store, j) else Addition(p, store, j)
  }

  /** A squash or fixup that brings no message of its own. */
  predicate Plain(p: Plan, i: nat) {
    JoinsAt(p, i) && p.actions[i].newMessage.None?
  }

  lemma PlainTurn(p: Plan, store: Store, j: nat, seed: string)
    requires Plain(p, j)
    ensures
      var before := if InRun(p, j) then RunMessage(p, store, j - 1, seed) else "";
      RunMessage(p, store, j, seed) == (if before == "" then seed else before) + Addition(p, store, j)
  {
  }

  /** A seed that stays empty is not lost by starting over from it. */
  lemma Regroup(seed: string, added: string, more: string)
    ensures (if seed + added == "" then seed else seed + added) + more == seed + (added + more)
  {
    assert seed + added == "" ==> added == "";
  }

  /** A run a..j whose squashes bring no message of their own keeps the message
      before it and adds each squash's, in order. */
  lemma {:induction false} PlainRunMessage(p: Plan, store: Store, a: nat, j: nat, seed: string)
    requires a <= j < |p.actions| && !InRun(p, a)
    requires forall i: nat :: a <= i <= j ==> Plain(p, i)
    ensures RunMessage(p, store, j, seed) == seed + Additions(p, store, a, j)
    decreases j
  {
    assert Plain(p, j);
    if a < j {
      assert Plain(p, j - 1);
      PlainRunMessage(p, store, a, j - 1, seed);
      PlainStep(p, store, a, j, seed, seed);
    } else {
      PlainTurn(p, store, j, seed);
    }
  }

  /** One more plain member adds its own part. */
  lemma PlainStep(p: Plan, store: Store, a: nat, j: nat, seed: string, base: string)
    requires a < j && Plain(p, j) && Plain(p, j - 1) && (base == seed || base != "")
    requires RunMessage(p, store, j - 1, seed) == base + Additions(p, store, a, j - 1)
    ensures RunMessage(p, store, j, seed) == base + Additions(p, store, a, j)
  {
    PlainTurn(p, store, j, seed);
    Regroup(base, Additions(p, store, a, j - 1), Addition(p, store, j));
  }

  /** A squash's own message replaces what the run had collected, and the plain
      members after it add to it. */
  lemma {:induction false} OwnMessageRestarts(p: Plan, store: Store, k: nat, j: nat, seed: string)
    requires k < j < |p.actions| && JoinsAt(p, k) && p.actions[k].kind == Squash
    requires p.actions[k].newMessage.Some? && p.actions[k].newMessage.value != ""
    requires forall i: nat :: k < i <= j ==> Plain(p, i)
    ensures RunMessage(p, store, j, seed) == p.actions[k].newMessage.value + Additions(p, store, k + 1, j)
    decreases j
  {
    assert Plain(p, j);
    if j > k + 1 {
      assert Plain(p, j - 1);
      OwnMessageRestarts(p, store, k, j - 1, seed);
      PlainStep(p, store, k + 1, j, seed, p.actions[k].newMessage.value);
    } else {
      PlainTurn(p, store, j, seed);
    }
  }

  // ---- The commit of an ending action ------------------------------------

  /** The tree the plan makes of `original` on top of `under`: its own tree for a
      root commit, else the merge of its first parent's tree as base, the tree
      below as ours and its own as theirs; then the plan's changes at j. */
  ghost predicate TreeOf(g: Git, p: Plan, store: Store, j: nat, original: Commit, under: Commit, tree: Tree) {
    exists picked ::
      && Picked(g, store, original, under, picked)
      && tree == (if j in p.mods && p.mods[j] != [] then g.edit(picked, p.mods[j]) else picked)
  }

  predicate Picked(g: Git, store: Store, original: Commit, under: Commit, picked: Tree) {
    if original.parents == [] then picked == original.tree
    else
      && original.parents[0] in store
      && g.merge(store[original.parents[0]].tree, under.tree, original.tree) == Some(picked)
  }

  lemma NewTreeIs(g: Git, p: Plan, store: Store, j: nat, original: Commit, under: Commit, tree: Tree)
    requires NewTree(g, p, j, store, original, under) == Some(tree)
    ensures TreeOf(g, p, store, j, original, under, tree)
  {
    var picked := CherryPick(g, store, original, under).value;
    assert Picked(g, store, original, under, picked);
  }

  /** The commit of action j sits on the one before it in the chain. Its tree is
      the original's change merged onto that commit's tree and then edited; a
      run's message is the one collected over its members. */
  ghost predicate MadeFrom(g: Git, p: Plan, e: Exec, j: nat)
    requires j < |p.actions|
  {
    var a, k := p.actions[j], Made(p, j);
    && k < |e.created| && e.created[k] in e.store && a.original in e.store
    && Before(p.onto, e.created, k) in e.store
    && var c, original, under := e.store[e.created[k]], e.store[a.original], e.store[Before(p.onto, e.created, k)];
       && TreeOf(g, p, e.store, j, original, under, c.tree)
       && (Joins(a.kind) ==> RunKnown(p, e.store, j) && c.message == RunMessage(p, e.store, j, under.message))
  }

  lemma TreeKept(g: Git, p: Plan, store: Store, store': Store, j: nat, original: Commit, under: Commit, tree: Tree)
    requires TreeOf(g, p, store, j, original, under, tree) && Grows(store, store')
    ensures TreeOf(g, p, store', j, original, under, tree)
  {
    var picked :|
      && Picked(g, store, original, under, picked)
      && tree == (if j in p.mods && p.mods[j] != [] then g.edit(picked, p.mods[j]) else picked);
    assert Picked(g, store', original, under, picked);
  }

  lemma MadeKept(g: Git, p: Plan, e: Exec, e': Exec, j: nat)
    requires j < |p.actions| && MadeFrom(g, p, e, j) && Grows(e.store, e'.store) && e.created <= e'.created
    ensures MadeFrom(g, p, e', j)
  {
    var under := e.store[Before(p.onto, e.created, Made(p, j))];
    TreeKept(g, p, e.store, e'.store, j, e.store[p.actions[j].original], under, e.store[e.created[Made(p, j)]].tree);
    if JoinsAt(p, j) {
      RunMessageGrows(p, e.store, e'.store, j, under.message);
    }
  }

  /** The pending message is the one collected so far. */
  ghost predicate Collected(p: Plan, i: nat, e: Exec) {
    i <= |p.actions| && (InRun(p, i) ==>
      && e.parent in e.store && RunKnown(p, e.store, i - 1)
      && e.message == RunMessage(p, e.store, i - 1, e.store[e.parent].message))
  }

  lemma JoinedIsCollected(p: Plan, i: nat, e: Exec)
    requires Collected(p, i, e) && PendingOk(p, i, e) && JoinsAt(p, i)
    requires e.parent in e.store && p.actions[i].original in e.store
    ensures RunKnown(p, e.store, i)
    ensures var parent := e.store[e.parent];
      Joined(p.actions[i], e.store[p.actions[i].original], Seeded(e, parent).0) == RunMessage(p, e.store, i, parent.message)
  {
    var a := p.actions[i];
    var seed := Seeded(e, e.store[e.parent]).0;
    assert seed + Addition(p, e.store, i) == seed + "\n\n" + MessageOf(e.store, a.original) || a.kind == Fixup;
  }

  lemma StepMakes(g: Git, p: Plan, store0: Store, i: nat, e: Exec)
    requires Inv(g, p, store0, i, e) && Collected(p, i, e) && Ends(p, i) && Step(g, p, i, e).Some?
    ensures MadeFrom(g, p, Step(g, p, i, e).value, i)
  {
    var e' := Step(g, p, i, e).value;
    StepGrows(g, p, store0, i, e);
    assert e'.created == e.created + [e'.parent];
    assert Before(p.onto, e'.created, Made(p, i)) == e.parent;
    var original, under := e.store[p.actions[i].original], e.store[e.parent];
    NewTreeIs(g, p, e.store, i, original, under, e'.store[e'.parent].tree);
    TreeKept(g, p, e.store, e'.store, i, original, under, e'.store[e'.parent].tree);
    if JoinsAt(p, i) {
      JoinedIsCollected(p, i, e);
      RunMessageGrows(p, e.store, e'.store, i, e.store[e.parent].message);
    }
  }

  lemma StepCollects(g: Git, p: Plan, store0: Store, i: nat, e: Exec)
    requires Inv(g, p, store0, i, e) && Collected(p, i, e) && i < |p.actions| && Step(g, p, i, e).Some?
    ensures Collected(p, i + 1, Step(g, p, i, e).value)
  {
    if InRun(p, i + 1) {
      JoinedIsCollected(p, i, e);
    }
  }

  ghost predicate AllMade(g: Git, p: Plan, i: nat, e: Exec) {
    forall j: nat :: j < i && Ends(p, j) ==> MadeFrom(g, p, e, j)
  }

  lemma StepKeepsMade(g: Git, p: Plan, store0: Store, i: nat, e: Exec)
    requires Inv(g, p, store0, i, e) && Collected(p, i, e) && AllMade(g, p, i, e)
    requires i < |p.actions| && Step(g, p, i, e).Some?
    ensures AllMade(g, p, i + 1, Step(g, p, i, e).value)
  {
    var e' := Step(g, p, i, e).value;
    StepGrows(g, p, store0, i, e);
    forall j: nat | j < i + 1 && Ends(p, j)
      ensures MadeFrom(g, p, e', j)
    {
      if j < i {
        MadeKept(g, p, e, e', j);
      } else {
        StepMakes(g, p, store0, i, e);
      }
    }
  }

  lemma {:induction false} RunKeepsMade(g: Git, p: Plan, store0: Store, i: nat, e: Exec)
    requires Inv(g, p, store0, i, e) && Collected(p, i, e) && AllMade(g, p, i, e) && Run(g, p, i, e).Some?
    ensures AllMade(g, p, |p.actions|, Run(g, p, i, e).value)
    decreases |p.actions| - i
  {
    if i < |p.actions| {
      RunTurns(g, p, i, e);
      StepKeepsInv(g, p, store0, i, e);
      StepCollects(g, p, store0, i, e);
      StepKeepsMade(g, p, store0, i, e);
      RunKeepsMade(g, p, store0, i + 1, Step(g, p, i, e).value);
    }
  }

  /** Trees and run messages after any successful rebase. */
  lemma RebaseMakesContents(g: Git, p: Plan, store: Store, j: nat)
    requires Hashed(g, store) && Run(g, p, 0, Begin(p, store)).Some? && Ends(p, j)
    ensures MadeFrom(g, p, Run(g, p, 0, Begin(p, store)).value, j)
  {
    RunKeepsMade(g, p, store, 0, Begin(p, store));
  }

  /** A commit that changed nothing, picked without further changes, leaves the
      tree as it was below, whatever else was done there: for a merge that answers
      `ours` when base and theirs agree. */
  lemma EmptyChangeKeepsTree(g: Git, p: Plan, store: Store, j: nat)
    requires Hashed(g, store) && Run(g, p, 0, Begin(p, store)).Some? && Ends(p, j) && (forall x, t :: g.merge(x, t, x) == Some(t))
    requires j !in p.mods && p.actions[j].original in store
    requires
      var original := store[p.actions[j].original];
      original.parents != [] && original.parents[0] in store && original.tree == store[original.parents[0]].tree
    ensures
      var e := Run(g, p, 0, Begin(p, store)).value;
      && Made(p, j) < |e.created| && e.created[Made(p, j)] in e.store && Before(p.onto, e.created, Made(p, j)) in e.store
      && e.store[e.created[Made(p, j)]].tree == e.store[Before(p.onto, e.created, Made(p, j))].tree
  {
    RebaseMakesContents(g, p, store, j);
    RebaseMakesChain(g, p, store);
  }

  // ---- The mapping -------------------------------------------------------

  /** The pair stands at two places. */
  predicate Twice(mapping: seq<(Oid, Oid)>, pair: (Oid, Oid)) {
    exists a, b :: 0 <= a < b < |mapping| && mapping[a] == mapping[b] == pair
  }

  /** The action that closes a run is mapped with its commit and again with the
      run's members. */
  ghost predicate ClosedTwice(p: Plan, e: Exec, j: nat)
    requires j < |p.actions|
  {
    Made(p, j) < |e.created| && Twice(e.mapping, (p.actions[j].original, e.created[Made(p, j)]))
  }

  lemma TwiceKept(p: Plan, e: Exec, e': Exec, j: nat)
    requires j < |p.actions| && ClosedTwice(p, e, j) && e.mapping <= e'.mapping && e.created <= e'.created
    ensures ClosedTwice(p, e', j)
  {
    var pair := (p.actions[j].original, e.created[Made(p, j)]);
    var a, b :| 0 <= a < b < |e.mapping| && e.mapping[a] == e.mapping[b] == pair;
    assert e'.mapping[a] == e'.mapping[b] == pair;
  }

  lemma StepMapsTwice(g: Git, p: Plan, store0: Store, i: nat, e: Exec)
    requires Inv(g, p, store0, i, e) && Ends(p, i) && JoinsAt(p, i) && Step(g, p, i, e).Some?
    ensures ClosedTwice(p, Step(g, p, i, e).value, i)
  {
    var e', o := Step(g, p, i, e).value, p.actions[i].original;
    var pairs := Pairs(e.squashed + [o], e'.parent);
    assert e'.created == e.created + [e'.parent];
    assert e'.mapping == e.mapping + [(o, e'.parent)] + pairs;
    var a, b := |e.mapping|, |e.mapping| + |pairs|;
    assert pairs[|pairs| - 1] == (o, e'.parent);
    assert e'.mapping[a] == e'.mapping[b] == (o, e'.parent);
  }

  lemma StepMappingGrows(g: Git, p: Plan, i: nat, e: Exec)
    requires i < |p.actions| && Step(g, p, i, e).Some?
    ensures e.mapping <= Step(g, p, i, e).value.mapping && e.created <= Step(g, p, i, e).value.created
  {
  }

  ghost predicate AllTwice(p: Plan, i: nat, e: Exec) {
    forall j: nat :: j < i && Ends(p, j) && JoinsAt(p, j) ==> ClosedTwice(p, e, j)
  }

  lemma {:induction false} RunKeepsTwice(g: Git, p: Plan, store0: Store, i: nat, e: Exec)
    requires Inv(g, p, store0, i, e) && AllTwice(p, i, e) && Run(g, p, i, e).Some?
    ensures AllTwice(p, |p.actions|, Run(g, p, i, e).value)
    decreases |p.actions| - i
  {
    if i < |p.actions| {
      var e' := TwiceTurn(g, p, store0, i, e);
      RunKeepsTwice(g, p, store0, i + 1, e');
    }
  }

  lemma TwiceTurn(g: Git, p: Plan, store0: Store, i: nat, e: Exec) returns (e': Exec)
    requires Inv(g, p, store0, i, e) && AllTwice(p, i, e) && i < |p.actions| && Run(g, p, i, e).Some?
    ensures Inv(g, p, store0, i + 1, e') && AllTwice(p, i + 1, e') && Run(g, p, i, e) == Run(g, p, i + 1, e')
  {
    RunTurns(g, p, i, e);
    e' := Step(g, p, i, e).value;
    StepKeepsInv(g, p, store0, i, e);
    StepKeepsTwice(g, p, store0, i, e);
  }

  lemma StepKeepsTwice(g: Git, p: Plan, store0: Store, i: nat, e: Exec)
    requires Inv(g, p, store0, i, e) && AllTwice(p, i, e) && i < |p.actions| && Step(g, p, i, e).Some?
    ensures AllTwice(p, i + 1, Step(g, p, i, e).value)
  {
    var e' := Step(g, p, i, e).value;
    StepMappingGrows(g, p, i, e);
    forall j: nat | j < i + 1 && Ends(p, j) && JoinsAt(p, j)
      ensures ClosedTwice(p, e', j)
    {
      if j < i {
        TwiceKept(p, e, e', j);
      } else {
        StepMapsTwice(g, p, store0, i, e);
      }
    }
  }

  /** After any successful rebase the last member of every run is mapped twice. */
  lemma LastMemberMappedTwice(g: Git, p: Plan, store: Store, j: nat)
    requires Hashed(g, store) && Run(g, p, 0, Begin(p, store)).Some? && Ends(p, j) && JoinsAt(p, j)
    ensures ClosedTwice(p, Run(g, p, 0, Begin(p, store)).value, j)
  {
    RunKeepsTwice(g, p, store, 0, Begin(p, store));
  }
}
