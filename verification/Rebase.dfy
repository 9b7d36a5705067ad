/**
 The rebase executor (gitmanip/src/operations.cpp, Operations::execute and
 cherry_pick_tree) and the plan it accepts (gitmanip/src/rebase_plan.cpp). The
 three-way merge, the tree edits and the object hash are parameters.
 */
module Rebase {
  import opened Wrappers

  type Oid = nat
  type Tree = int
  type Signature = int
  type Mods = seq<int>

  const ZERO: Oid := 0

  datatype Commit = Commit(tree: Tree, parents: seq<Oid>, author: Signature, message: string)

  type Store = map<Oid, Commit>

  /** `merge(base, ours, theirs)` answers None for a conflict; `content` is the
      object an id names. */
  datatype Git = Git(
    merge: (Tree, Tree, Tree) -> Option<Tree>,
    edit: (Tree, Mods) -> Tree,
    hash: Commit -> Oid,
    content: Oid -> Commit)

  datatype Kind = Pick | Reword | Edit | Squash | Fixup | Drop

  datatype Action = Action(kind: Kind, original: Oid, newMessage: Option<string>)

  datatype Plan = Plan(onto: Oid, actions: seq<Action>, mods: map<nat, Mods>)

  predicate Joins(k: Kind) {
    k == Squash || k == Fixup
  }

  /** Action i joins the commit before it rather than making its own. */
  predicate JoinsAt(p: Plan, i: nat) {
    i < |p.actions| && Joins(p.actions[i].kind)
  }

  // ---- Validation --------------------------------------------------------

  datatype Complaint = NoOnto | JoinsNothing(at: nat) | NoMessage(at: nat)

  predicate Stands(k: Kind) {
    !Joins(k) && k != Drop
  }

  /** A plan that can be executed. */
  ghost predicate Valid(p: Plan) {
    && p.onto != ZERO
    && (forall i :: 0 <= i < |p.actions| && Joins(p.actions[i].kind) ==> exists j :: 0 <= j < i && Stands(p.actions[j].kind))
    && (forall i :: 0 <= i < |p.actions| && p.actions[i].kind == Reword ==> p.actions[i].newMessage.Some?)
  }

  /** A squash or fixup with only squashes, fixups and drops before it. */
  predicate Lonely(p: Plan, i: nat)
    requires i < |p.actions|
  {
    && (p.actions[i].kind == Squash || p.actions[i].kind == Fixup)
    && forall j :: 0 <= j < i ==> p.actions[j].kind == Squash || p.actions[j].kind == Fixup || p.actions[j].kind == Drop
  }

  /** A reword without a message. */
  predicate Wordless(p: Plan, i: nat)
    requires i < |p.actions|
  {
    p.actions[i].kind == Reword && p.actions[i].newMessage == None
  }

  method ValidationErrors(p: Plan) returns (errors: seq<Complaint>)
    ensures errors == [] <==> Valid(p)
    ensures NoOnto in errors <==> p.onto == 0
    ensures forall i: nat :: JoinsNothing(i) in errors <==> i < |p.actions| && Lonely(p, i)
    ensures forall i: nat :: NoMessage(i) in errors <==> i < |p.actions| && Wordless(p, i)
  {
    errors := [];
    if p.onto == ZERO { errors := [NoOnto]; }
    var sawNonSquash := false;
    for i := 0 to |p.actions|
      invariant NoOnto in errors <==> p.onto == 0
      invariant forall k: nat :: JoinsNothing(k) in errors <==> k < i && Lonely(p, k)
      invariant forall k: nat :: NoMessage(k) in errors <==> k < i && Wordless(p, k)
      invariant sawNonSquash <==> exists j :: 0 <= j < i && Stands(p.actions[j].kind)
      invariant errors == [] <==>
        && p.onto != ZERO
        && (forall k :: 0 <= k < i && Joins(p.actions[k].kind) ==> exists j :: 0 <= j < k && Stands(p.actions[j].kind))
        && (forall k :: 0 <= k < i && p.actions[k].kind == Reword ==> p.actions[k].newMessage.Some?)
    {
      var a := p.actions[i];
      if Joins(a.kind) {
        if i == 0 || !sawNonSquash { errors := errors + [JoinsNothing(i)]; }
      } else if a.kind != Drop {
        sawNonSquash := true;
      }
      if a.kind == Reword && a.newMessage.None? { errors := errors + [NoMessage(i)]; }
    }
  }

  // ---- Execution ---------------------------------------------------------

  /** The tree of `original` replayed onto `parent`; None for a conflict or a
      commit that is not there. */
  function CherryPick(g: Git, store: Store, original: Commit, parent: Commit): Option<Tree> {
    if original.parents == [] then Some(original.tree)
    else if original.parents[0] !in store then None
    else g.merge(store[original.parents[0]].tree, parent.tree, original.tree)
  }

  /** The loop's variables. */
  datatype Exec = Exec(
    store: Store,
    parent: Oid,
    message: string,              // pending_message
    author: Option<Signature>,    // pending_author
    squashed: seq<Oid>,           // pending_squash_mapping
    mapping: seq<(Oid, Oid)>,
    created: seq<Oid>)

  function Pairs(olds: seq<Oid>, oid: Oid): (r: seq<(Oid, Oid)>)
    ensures |r| == |olds| && forall i :: 0 <= i < |olds| ==> r[i] == (olds[i], oid)
  {
    if olds == [] then [] else [(olds[0], oid)] + Pairs(olds[1..], oid)
  }

  /** create_commit on top of the current parent. */
  function Commits(g: Git, e: Exec, original: Oid, c: Commit): Exec {
    var oid := g.hash(c);
    Exec(e.store[oid := c], oid, "", None, [], e.mapping + [(original, oid)] + Pairs(e.squashed, oid), e.created + [oid])
  }

  /** What a squash or fixup adds to: the pending message, or the commit before
      the run. An empty pending message counts as none. */
  function Seeded(e: Exec, parent: Commit): (string, Option<Signature>) {
    if e.message == "" then (parent.message, Some(parent.author)) else (e.message, e.author)
  }

  function Joined(a: Action, original: Commit, seed: string): string {
    if a.kind == Fixup then seed
    else if a.newMessage.Some? then a.newMessage.value
    else seed + "\n\n" + original.message
  }

  function NewTree(g: Git, p: Plan, i: nat, store: Store, original: Commit, parent: Commit): Option<Tree> {
    var picked := CherryPick(g, store, original, parent);
    if picked.Some? && i in p.mods && p.mods[i] != [] then Some(g.edit(picked.value, p.mods[i])) else picked
  }

  /** One turn of the loop; None is the exception path. */
  function Step(g: Git, p: Plan, i: nat, e: Exec): Option<Exec>
    requires i < |p.actions|
  {
    var a := p.actions[i];
    if a.kind == Drop then Some(e)
    else if a.original !in e.store || e.parent !in e.store then None
    else
      var original, parent := e.store[a.original], e.store[e.parent];
      var tree := NewTree(g, p, i, e.store, original, parent);
      if tree.None? then None
      else if Joins(a.kind) then
        var seed := Seeded(e, parent);
        var message := Joined(a, original, seed.0);
        if JoinsAt(p, i + 1) then
          Some(e.(message := message, author := seed.1, squashed := e.squashed + [a.original]))
        else
          var author := if seed.1.Some? then seed.1.value else original.author;
          Some(Commits(g, e.(squashed := e.squashed + [a.original]), a.original, Commit(tree.value, [e.parent], author, message)))
      else
        var message := if a.kind == Reword && a.newMessage.Some? then a.newMessage.value else original.message;
        Some(Commits(g, e, a.original, Commit(tree.value, [e.parent], original.author, message)))
  }

  function Run(g: Git, p: Plan, i: nat, e: Exec): Option<Exec>
    requires i <= |p.actions|
    decreases |p.actions| - i
  {
    if i == |p.actions| then Some(e)
    else
      match Step(g, p, i, e)
      case None => None
      case Some(e') => Run(g, p, i + 1, e')
  }

  function Begin(p: Plan, store: Store): Exec {
    Exec(store, p.onto, "", None, [], [], [])
  }

  /** execute(): None when the plan is refused, a commit is missing or a merge
      conflicts. */
  method Execute(g: Git, p: Plan, store: Store) returns (r: Option<Exec>)
    ensures r.Some? ==> Valid(p)
    ensures Valid(p) && (p.actions == [] || p.onto in store) ==> r == Run(g, p, 0, Begin(p, store))
    ensures Valid(p) && p.actions != [] && p.onto !in store ==> r == None
  {
    var errors := ValidationErrors(p);
    if errors != [] { return None; }
    if p.actions == [] { return Some(Begin(p, store)); }
    if p.onto !in store { return None; }
    var e := Begin(p, store);
    for i := 0 to |p.actions|
      invariant Run(g, p, 0, Begin(p, store)) == Run(g, p, i, e)
    {
      var next := Step(g, p, i, e);
      if next.None? { return None; }
      e := next.value;
    }
    r := Some(e);
  }
}
