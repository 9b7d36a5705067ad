/**
 * Building nested git trees out of a flat map of pending paths. A written tree
 * is identified with its contents; which entry names git refuses is a
 * parameter.
 */
module TreeBuilder {
  import opened Wrappers

  datatype Entry = Entry(oid: string, filemode: int)

  // What a tree holds under a name.
  datatype Node = Blob(entry: Entry) | Tree(nodes: map<string, Node>)

  const BLOB_MODE: int := 0x81A4

  // Index of the first slash, or the length.
  function Slash(s: string): (i: nat)
    ensures i <= |s|
    ensures '/' !in s[..i]
    ensures i < |s| ==> s[i] == '/'
  {
    if s == [] || s[0] == '/' then 0
    else
      var i := Slash(s[1..]) + 1;
      assert s[..i] == [s[0]] + s[1..][..i - 1];
      i
  }

  predicate Nested(s: string) { Slash(s) < |s| }

  function Head(s: string): string { s[..Slash(s)] }

  function Rest(s: string): string
    requires Nested(s)
  {
    s[Slash(s) + 1..]
  }

  // Names of the files, and of the directories, that paths put straight under a prefix.
  function Files(paths: set<string>, prefix: string): set<string> {
    set p | p in paths && prefix <= p && !Nested(p[|prefix|..]) :: p[|prefix|..]
  }

  function Dirs(paths: set<string>, prefix: string): set<string> {
    set p | p in paths && prefix <= p && Nested(p[|prefix|..]) :: Head(p[|prefix|..])
  }

  ghost function Longest(paths: set<string>): (n: nat)
    ensures forall p :: p in paths ==> |p| <= n
  {
    if paths == {} then 0
    else
      var p :| p in paths;
      var n := Longest(paths - {p});
      assert forall q :: q in paths ==> q == p || q in paths - {p};
      if |p| > n then |p| else n
  }

  // A directory's prefix is no longer than a path under it.
  lemma DirFits(paths: set<string>, prefix: string, dir: string)
    requires dir in Dirs(paths, prefix)
    ensures |prefix| + |dir| + 1 <= Longest(paths)
  {
    var p :| p in paths && prefix <= p && Nested(p[|prefix|..]) && dir == Head(p[|prefix|..]);
  }

  lemma FileIffPath(paths: set<string>, prefix: string, name: string)
    ensures name in Files(paths, prefix) <==> prefix + name in paths && !Nested(name)
  {
    assert (prefix + name)[|prefix|..] == name;
    if name in Files(paths, prefix) {
      var p :| p in paths && prefix <= p && !Nested(p[|prefix|..]) && p[|prefix|..] == name;
      assert p == prefix + name;
    }
  }

  // The tree of everything pending under a prefix: a directory wins over a file of its name.
  ghost function Built(pending: map<string, Entry>, prefix: string): map<string, Node>
    decreases Longest(pending.Keys) - |prefix|
  {
    map name | name in Files(pending.Keys, prefix) + Dirs(pending.Keys, prefix) ::
      if name in Dirs(pending.Keys, prefix) then
        DirFits(pending.Keys, prefix, name);
        Tree(Built(pending, prefix + name + "/"))
      else FileIffPath(pending.Keys, prefix, name); Blob(pending[prefix + name])
  }

  // Every component of the path is a name git accepts.
  predicate NamesOk(path: string, ok: string -> bool)
    decreases |path|
  {
    ok(Head(path)) && (Nested(path) ==> NamesOk(Rest(path), ok))
  }

  ghost predicate Writable(paths: set<string>, prefix: string, ok: string -> bool) {
    forall p :: p in paths && prefix <= p ==> NamesOk(p[|prefix|..], ok)
  }

  ghost predicate AllOk(names: set<string>, ok: string -> bool) {
    forall n :: n in names ==> ok(n)
  }

  // The first loop of build_tree_recursive: files go in, directories are noted.
  method Scan(pending: map<string, Entry>, prefix: string, ok: string -> bool)
    returns (files: map<string, Node>, subtrees: set<string>, refused: Option<string>)
    ensures refused.None? <==> AllOk(Files(pending.Keys, prefix), ok)
    ensures refused.None? ==> subtrees == Dirs(pending.Keys, prefix) && files == FileNodes(pending, prefix, pending.Keys)
  {
    files, subtrees, refused := map[], {}, None;
    var todo := pending.Keys;
    ghost var done: set<string> := {};
    while todo != {}
      invariant done + todo == pending.Keys
      invariant files == FileNodes(pending, prefix, done)
      invariant subtrees == Dirs(done, prefix) && AllOk(Files(done, prefix), ok)
      decreases todo
    {
      var path :| path in todo;
      FilesSnoc(done, prefix, path);
      FileNodesSnoc(pending, prefix, done, path);
      todo, done := todo - {path}, done + {path};
      if prefix <= path {
        var relative := path[|prefix|..];
        if !Nested(relative) {
          if !ok(relative) {
            assert relative in Files(pending.Keys, prefix);
            refused := Some(path);
            return;
          }
          files := files[relative := Blob(pending[path])];
        } else {
          subtrees := subtrees + {Head(relative)};
        }
      }
    }
    assert done == pending.Keys;
  }

  // build_tree_recursive: the files, then each directory by recursion. An error
  // carries the name or path that git refused.
  method BuildRecursive(pending: map<string, Entry>, prefix: string, ok: string -> bool)
    returns (r: Result<map<string, Node>, string>)
    ensures r.Ok? <==> Writable(pending.Keys, prefix, ok)
    ensures r.Ok? ==> r.value == Built(pending, prefix)
    decreases Longest(pending.Keys) - |prefix|
  {
    var files, subtrees, refused := Scan(pending, prefix, ok);
    WritableIffParts(pending.Keys, prefix, ok);
    if refused.Some? { return Err(refused.value); }
    var tree, todo := files, subtrees;
    ghost var done: set<string> := {};
    MergeNone(files, pending, prefix);
    while todo != {}
      invariant done + todo == Dirs(pending.Keys, prefix)
      invariant tree == Merge(files, pending, prefix, done)
      invariant DirsOk(pending.Keys, prefix, done, ok)
      decreases todo
    {
      var dirname :| dirname in todo;
      DirFits(pending.Keys, prefix, dirname);
      DirNeeded(pending.Keys, prefix, dirname, ok);
      MergeSnoc(files, pending, prefix, done, dirname);
      var sub := BuildRecursive(pending, prefix + dirname + "/", ok);
      if sub.Err? { return Err(sub.error); }
      if !ok(dirname) { return Err(dirname); }
      tree := tree[dirname := Tree(sub.value)];
      todo, done := todo - {dirname}, done + {dirname};
    }
    assert done == Dirs(pending.Keys, prefix);
    MergeIsBuilt(pending, prefix);
    r := Ok(tree);
  }

  // The files alone, and the files with some directories put in.
  ghost function FileNodes(pending: map<string, Entry>, prefix: string, done: set<string>): map<string, Node>
    requires done <= pending.Keys
  {
    map n | n in Files(done, prefix) :: FileIffPath(done, prefix, n); Blob(pending[prefix + n])
  }

  lemma FileNodesSnoc(pending: map<string, Entry>, prefix: string, done: set<string>, path: string)
    requires done <= pending.Keys && path in pending
    ensures FileNodes(pending, prefix, done + {path}) ==
      if prefix <= path && !Nested(path[|prefix|..]) then
        FileNodes(pending, prefix, done)[path[|prefix|..] := Blob(pending[path])]
      else FileNodes(pending, prefix, done)
  {
    FilesSnoc(done, prefix, path);
    if prefix <= path { assert path == prefix + path[|prefix|..]; }
  }

  ghost function Merge(files: map<string, Node>, pending: map<string, Entry>, prefix: string, dirs: set<string>): map<string, Node> {
    map n | n in files.Keys + dirs :: if n in dirs then Tree(Built(pending, prefix + n + "/")) else files[n]
  }

  lemma MergeNone(files: map<string, Node>, pending: map<string, Entry>, prefix: string)
    ensures Merge(files, pending, prefix, {}) == files
  {
  }

  lemma MergeSnoc(files: map<string, Node>, pending: map<string, Entry>, prefix: string, dirs: set<string>, dir: string)
    ensures Merge(files, pending, prefix, dirs + {dir})
         == Merge(files, pending, prefix, dirs)[dir := Tree(Built(pending, prefix + dir + "/"))]
  {
  }

  lemma MergeIsBuilt(pending: map<string, Entry>, prefix: string)
    ensures Merge(FileNodes(pending, prefix, pending.Keys), pending, prefix, Dirs(pending.Keys, prefix))
         == Built(pending, prefix)
  {
  }

  lemma FilesSnoc(paths: set<string>, prefix: string, path: string)
    ensures var rel := if prefix <= path then path[|prefix|..] else "";
      && Files(paths + {path}, prefix) == Files(paths, prefix) + (if prefix <= path && !Nested(rel) then {rel} else {})
      && Dirs(paths + {path}, prefix) == Dirs(paths, prefix) + (if prefix <= path && Nested(rel) then {Head(rel)} else {})
  {
  }

  lemma {:induction false} SlashIs(s: string, i: nat)
    requires i <= |s| && '/' !in s[..i] && (i < |s| ==> s[i] == '/')
    ensures Slash(s) == i
  {
    if i > 0 {
      assert s[..i][0] == s[0] && s[1..][..i - 1] == s[..i][1..];
      SlashIs(s[1..], i - 1);
    }
  }

  lemma SlashOf(dir: string, rest: string)
    requires '/' !in dir
    ensures Nested(dir + "/" + rest) && Head(dir + "/" + rest) == dir && Rest(dir + "/" + rest) == rest
  {
    SlashIs(dir + "/" + rest, |dir|);
  }

  lemma NestedSplits(s: string)
    requires Nested(s)
    ensures '/' !in Head(s) && s == Head(s) + "/" + Rest(s)
  {
  }

  // A slash-free name is a directory exactly when some path lies below it.
  lemma DirIffBelow(paths: set<string>, prefix: string, dir: string)
    requires '/' !in dir
    ensures dir in Dirs(paths, prefix) <==> exists p :: p in paths && prefix + dir + "/" <= p
  {
    if dir in Dirs(paths, prefix) {
      var p :| p in paths && prefix <= p && Nested(p[|prefix|..]) && dir == Head(p[|prefix|..]);
      InDir(prefix, p);
    }
    if exists p :: p in paths && prefix + dir + "/" <= p {
      var p :| p in paths && prefix + dir + "/" <= p;
      UnderDir(prefix, dir, p);
    }
  }

  // Paths under a directory are its slash-free name, a slash and the rest.
  lemma UnderDir(prefix: string, dir: string, path: string)
    requires '/' !in dir && prefix + dir + "/" <= path
    ensures prefix <= path && Nested(path[|prefix|..]) && Head(path[|prefix|..]) == dir
    ensures Rest(path[|prefix|..]) == path[|prefix + dir + "/"|..]
  {
    var rest := path[|prefix + dir + "/"|..];
    assert path == prefix + (dir + "/" + rest);
    assert path[|prefix|..] == dir + "/" + rest;
    SlashOf(dir, rest);
  }

  lemma InDir(prefix: string, path: string)
    requires prefix <= path && Nested(path[|prefix|..])
    ensures prefix + Head(path[|prefix|..]) + "/" <= path
  {
    NestedSplits(path[|prefix|..]);
    assert path == prefix + Head(path[|prefix|..]) + "/" + Rest(path[|prefix|..]);
  }

  ghost predicate DirOk(paths: set<string>, prefix: string, dir: string, ok: string -> bool) {
    ok(dir) && Writable(paths, prefix + dir + "/", ok)
  }

  ghost predicate DirsOk(paths: set<string>, prefix: string, dirs: set<string>, ok: string -> bool) {
    forall d :: d in dirs ==> DirOk(paths, prefix, d, ok)
  }

  lemma DirNeeded(paths: set<string>, prefix: string, dir: string, ok: string -> bool)
    requires dir in Dirs(paths, prefix)
    ensures Writable(paths, prefix, ok) ==> DirOk(paths, prefix, dir, ok)
  {
    if Writable(paths, prefix, ok) { WritableDir(paths, prefix, dir, ok); }
  }

  lemma WritableIffParts(paths: set<string>, prefix: string, ok: string -> bool)
    ensures Writable(paths, prefix, ok) <==>
      AllOk(Files(paths, prefix), ok) && DirsOk(paths, prefix, Dirs(paths, prefix), ok)
  {
    if Writable(paths, prefix, ok) {
      forall d | d in Dirs(paths, prefix)
        ensures DirOk(paths, prefix, d, ok)
      {
        WritableDir(paths, prefix, d, ok);
      }
      forall n | n in Files(paths, prefix)
        ensures ok(n)
      {
        var p :| p in paths && prefix <= p && !Nested(p[|prefix|..]) && n == p[|prefix|..];
        assert NamesOk(n, ok) && Head(n) == n;
      }
    }
    if AllOk(Files(paths, prefix), ok) && DirsOk(paths, prefix, Dirs(paths, prefix), ok) {
      WritableFromParts(paths, prefix, ok);
    }
  }

  lemma WritableDir(paths: set<string>, prefix: string, dir: string, ok: string -> bool)
    requires dir in Dirs(paths, prefix) && Writable(paths, prefix, ok)
    ensures DirOk(paths, prefix, dir, ok)
  {
    var p :| p in paths && prefix <= p && Nested(p[|prefix|..]) && dir == Head(p[|prefix|..]);
    assert NamesOk(p[|prefix|..], ok);
    NestedSplits(p[|prefix|..]);
    forall q | q in paths && prefix + dir + "/" <= q
      ensures NamesOk(q[|prefix + dir + "/"|..], ok)
    {
      UnderDir(prefix, dir, q);
      assert NamesOk(q[|prefix|..], ok);
    }
  }

  lemma WritableFromParts(paths: set<string>, prefix: string, ok: string -> bool)
    requires AllOk(Files(paths, prefix), ok) && DirsOk(paths, prefix, Dirs(paths, prefix), ok)
    ensures Writable(paths, prefix, ok)
  {
    forall p | p in paths && prefix <= p
      ensures NamesOk(p[|prefix|..], ok)
    {
      var rel := p[|prefix|..];
      if Nested(rel) {
        var d := Head(rel);
        assert d in Dirs(paths, prefix);
        NestedSplits(rel);
        InDir(prefix, p);
        UnderDir(prefix, d, p);
      } else {
        assert rel in Files(paths, prefix) && Head(rel) == rel;
      }
    }
  }

  // entry_by_path: the blob a path leads to.
  function Lookup(tree: map<string, Node>, path: string): Option<Entry>
    decreases |path|
  {
    var name := Head(path);
    if name !in tree then None
    else if !Nested(path) then
      (match tree[name] case Blob(e) => Some(e) case Tree(_) => None)
    else
      match tree[name] case Blob(_) => None case Tree(sub) => Lookup(sub, Rest(path))
  }

  // A pending path other paths use as a directory.
  ghost predicate Shadowed(pending: map<string, Entry>, path: string) {
    exists q :: q in pending && path + "/" <= q
  }

  // What the tree of a prefix answers, for every pending map and every path.
  lemma {:induction false} LookupBuilt(pending: map<string, Entry>, prefix: string, path: string)
    ensures Lookup(Built(pending, prefix), path)
         == if prefix + path in pending && !Shadowed(pending, prefix + path) then Some(pending[prefix + path]) else None
    decreases |path|
  {
    var name := Head(path);
    DirIffBelow(pending.Keys, prefix, name);
    if Nested(path) {
      NestedSplits(path);
      var below := prefix + name + "/";
      assert prefix + path == below + Rest(path);
      if name in Dirs(pending.Keys, prefix) {
        LookupBuilt(pending, below, Rest(path));
      } else {
        NotADir(pending, prefix, path);
      }
    } else {
      assert name == path;
      FileIffPath(pending.Keys, prefix, path);
    }
  }

  // Below a name that is no directory there is nothing.
  lemma NotADir(pending: map<string, Entry>, prefix: string, path: string)
    requires Nested(path) && Head(path) !in Dirs(pending.Keys, prefix)
    ensures prefix + path !in pending
    ensures Lookup(Built(pending, prefix), path) == None
  {
    NestedSplits(path);
    DirIffBelow(pending.Keys, prefix, Head(path));
    assert prefix + path == prefix + Head(path) + "/" + Rest(path);
  }

  // No pending path is a directory of another.
  ghost predicate ConflictFree(pending: map<string, Entry>) {
    forall p :: p in pending ==> !Shadowed(pending, p)
  }

  // Flattening gives back what was pending, under a prefix, and nothing else.
  ghost predicate Flattens(tree: map<string, Node>, pending: map<string, Entry>, prefix: string) {
    forall path ::
      Lookup(tree, path) == if prefix + path in pending then Some(pending[prefix + path]) else None
  }

  lemma BuildThenFlatten(pending: map<string, Entry>, prefix: string)
    requires ConflictFree(pending)
    ensures Flattens(Built(pending, prefix), pending, prefix)
  {
    forall path
      ensures Lookup(Built(pending, prefix), path)
           == if prefix + path in pending then Some(pending[prefix + path]) else None
    {
      LookupBuilt(pending, prefix, path);
    }
  }

  // Flattening undoes building exactly for the conflict-free maps.
  lemma FlattensIffConflictFree(pending: map<string, Entry>)
    ensures Flattens(Built(pending, ""), pending, "") <==> ConflictFree(pending)
  {
    if ConflictFree(pending) {
      BuildThenFlatten(pending, "");
    }
    if Flattens(Built(pending, ""), pending, "") {
      forall p | p in pending
        ensures !Shadowed(pending, p)
      {
        LookupBuilt(pending, "", p);
        assert "" + p == p;
        assert Lookup(Built(pending, ""), p) == Some(pending[p]);
      }
    }
  }

  // What a builder holds: plain names in the flat builder, nested paths waiting.
  ghost predicate Sorted(flat: map<string, Entry>, pending: map<string, Entry>) {
    (forall n :: n in flat ==> !Nested(n)) && (forall p :: p in pending ==> Nested(p))
  }

  function Nodes(flat: map<string, Entry>): map<string, Node> {
    map n | n in flat :: Blob(flat[n])
  }

  // build_oid's choice: the flat builder is not looked at once anything is nested.
  ghost function Written(flat: map<string, Entry>, pending: map<string, Entry>): map<string, Node> {
    if pending != map[] then Built(pending, "") else Nodes(flat)
  }

  lemma LookupFlat(flat: map<string, Entry>, path: string)
    requires forall n :: n in flat ==> !Nested(n)
    ensures Lookup(Nodes(flat), path) == if path in flat then Some(flat[path]) else None
  {
    if !Nested(path) { assert Head(path) == path; }
  }

  lemma LookupWritten(flat: map<string, Entry>, pending: map<string, Entry>, path: string)
    requires Sorted(flat, pending)
    ensures Lookup(Written(flat, pending), path) ==
      if path in pending && !Shadowed(pending, path) then Some(pending[path])
      else if pending == map[] && path in flat then Some(flat[path])
      else None
  {
    assert "" + path == path;
    LookupBuilt(pending, "", path);
    LookupFlat(flat, path);
  }

  // All that was inserted can be looked up, exactly when nested and plain
  // paths were not mixed and no path is a directory of another.
  lemma AllWrittenIff(flat: map<string, Entry>, pending: map<string, Entry>)
    requires Sorted(flat, pending)
    ensures (forall p :: p in flat + pending ==> Lookup(Written(flat, pending), p) == Some((flat + pending)[p]))
       <==> ConflictFree(pending) && (flat == map[] || pending == map[])
  {
    forall p
      ensures p in flat + pending ==>
        (Lookup(Written(flat, pending), p) == Some((flat + pending)[p]) <==>
          if p in pending then !Shadowed(pending, p) else pending == map[])
    {
      LookupWritten(flat, pending, p);
    }
    if flat != map[] {
      var n :| n in flat;
      assert n in flat + pending && n !in pending;
    }
    if !ConflictFree(pending) {
      var p :| p in pending && Shadowed(pending, p);
      assert p in flat + pending;
    }
  }

  // The builder object.
  class Builder {
    const ok: string -> bool
    var flat: map<string, Entry>
    var pending: map<string, Entry>

    ghost predicate Valid()
      reads this
    {
      Sorted(flat, pending)
    }

    constructor (ok: string -> bool)
      ensures Valid() && this.ok == ok && flat == map[] && pending == map[]
    {
      this.ok, flat, pending := ok, map[], map[];
    }

    // A plain name git refuses fails at once; a nested path only when built.
    method InsertBlob(path: string, oid: string) returns (done: bool)
      requires Valid()
      modifies this
      ensures Valid()
      ensures done <==> Nested(path) || ok(path)
      ensures flat + pending == if done then old(flat + pending)[path := Entry(oid, BLOB_MODE)] else old(flat + pending)
      ensures if Nested(path) then flat == old(flat) else pending == old(pending)
    {
      if Nested(path) {
        pending := pending[path := Entry(oid, BLOB_MODE)];
      } else if !ok(path) {
        return false;
      } else {
        flat := flat[path := Entry(oid, BLOB_MODE)];
      }
      done := true;
    }

    method Clear()
      modifies this
      ensures Valid() && flat == map[] && pending == map[]
    {
      flat, pending := map[], map[];
    }

    method Build() returns (r: Result<map<string, Node>, string>)
      requires Valid()
      ensures r.Ok? <==> Writable(pending.Keys, "", ok)
      ensures r.Ok? ==>
        forall p ::
          Lookup(r.value, p) ==
          if p in pending && !Shadowed(pending, p) then Some(pending[p])
          else if pending == map[] && p in flat then Some(flat[p])
          else None
    {
      forall p
        ensures Lookup(Written(flat, pending), p) ==
          if p in pending && !Shadowed(pending, p) then Some(pending[p])
          else if pending == map[] && p in flat then Some(flat[p])
          else None
      {
        LookupWritten(flat, pending, p);
      }
      if pending != map[] {
        r := BuildRecursive(pending, "", ok);
      } else {
        r := Ok(Nodes(flat));
      }
    }
  }
}
