/**
 * What the ranked search returns: every declaring line of every visited file,
 * best first, the same list whatever order the walk took.
 */
module DeclarationProofs {
  import opened Wrappers
  import opened Paths
  import opened WordSearch
  import opened Declarations

  // ---- The candidates are exactly the declaring lines ----

  ghost predicate DeclaredIn(q: Query, f: File, r: Ranked) {
    exists n :: 0 <= n < |Lines(f.content)| && Declares(q, Lines(f.content)[n])
      && r == Candidate(q, f.path, n, Lines(f.content)[n])
  }

  ghost predicate Meets(q: Query, path: string, lines: seq<string>, n: nat, r: Ranked) {
    n < |lines| && r in OnLine(q, path, n, lines[n])
  }

  lemma {:induction false} InLinesIff(q: Query, path: string, lines: seq<string>, r: Ranked)
    ensures r in InLines(q, path, lines) <==> exists n: nat :: Meets(q, path, lines, n, r)
  {
    if lines != [] {
      var last := |lines| - 1;
      var init := lines[..last];
      InLinesIff(q, path, init, r);
      forall n: nat
        ensures Meets(q, path, lines, n, r) <==> Meets(q, path, init, n, r) || (n == last && r in OnLine(q, path, last, lines[last]))
      {
        if n < last { assert init[n] == lines[n]; }
      }
      if r in OnLine(q, path, last, lines[last]) { assert Meets(q, path, lines, last, r); }
    }
  }

  // Skipping a file that does not mention the name loses no candidate.
  lemma InFileIff(q: Query, f: File, r: Ranked)
    ensures r in InFile(q, f) <==> DeclaredIn(q, f, r)
  {
    var lines := Lines(f.content);
    InLinesIff(q, f.path, lines, r);
    if n: nat :| Meets(q, f.path, lines, n, r) {
      LineOccurs(q, f, n);
      assert Declares(q, lines[n]) && r == Candidate(q, f.path, n, lines[n]);
    }
    if DeclaredIn(q, f, r) {
      var n: nat :| n < |lines| && Declares(q, lines[n]) && r == Candidate(q, f.path, n, lines[n]);
      assert Meets(q, f.path, lines, n, r);
    }
  }

  lemma LineOccurs(q: Query, f: File, n: nat)
    requires n < |Lines(f.content)| && Declares(q, Lines(f.content)[n])
    ensures Find(f.content, q.name, 0).Some?
  {
    var line := Lines(f.content)[n];
    assert line == Pieces(f.content)[n];
    PieceOccurs(f.content, n, q.name, Find(line, q.name, 0).value);
    var p: nat :| OccursAt(f.content, q.name, p);
  }

  lemma {:induction false} GatherIff<T, R>(scan: T -> seq<R>, s: seq<T>, r: R)
    ensures r in Gather(scan, s) <==> exists x :: x in s && r in scan(x)
  {
    if s != [] {
      var init, last := s[..|s| - 1], s[|s| - 1];
      GatherIff(scan, init, r);
      assert s == init + [last];
    }
  }

  // Exactly the declaring lines of the visited files are found.
  lemma FoundIff(q: Query, files: seq<File>, r: Ranked)
    ensures r in Found(q, files) <==> exists f :: f in files && DeclaredIn(q, f, r)
  {
    GatherIff(FileScan(q), files, r);
    forall f | f in files
      ensures r in FileScan(q)(f) <==> DeclaredIn(q, f, r)
    {
      InFileIff(q, f, r);
    }
  }

  // ---- The order ----

  lemma {:induction false} LexTotal(a: string, b: string)
    ensures a != b ==> LexLess(a, b) != LexLess(b, a)
    ensures !LexLess(a, a)
  {
    if a != "" {
      LexTotal(a[1..], if b == "" then "" else b[1..]);
      if b != "" {
        assert a == [a[0]] + a[1..] && b == [b[0]] + b[1..];
      }
    }
  }

  lemma {:induction false} LexTransitive(a: string, b: string, c: string)
    requires LexLess(a, b) && LexLess(b, c)
    ensures LexLess(a, c)
  {
    if a != "" && a[0] == b[0] && b[0] == c[0] {
      LexTransitive(a[1..], b[1..], c[1..]);
    }
  }

  // What identifies a candidate.
  function Key(r: Ranked): (string, int) { (r.location.uri, r.location.line) }

  lemma BeforeTotal(a: Ranked, b: Ranked)
    ensures Before(a, b) ==> !Before(b, a)
    ensures Key(a) != Key(b) ==> Before(a, b) || Before(b, a)
  {
    LexTotal(a.location.uri, b.location.uri);
  }

  lemma NotBeforeTransitive(a: Ranked, b: Ranked, c: Ranked)
    requires !Before(b, a) && !Before(c, b)
    ensures !Before(c, a)
  {
    var u, v, w := a.location.uri, b.location.uri, c.location.uri;
    LexTotal(u, v);
    LexTotal(v, w);
    LexTotal(u, w);
    if LexLess(u, v) && LexLess(v, w) { LexTransitive(u, v, w); }
  }

  ghost predicate Ordered(s: seq<Ranked>) {
    forall i, j :: 0 <= i < j < |s| ==> !Before(s[j], s[i])
  }

  lemma OrderedSnoc(s: seq<Ranked>, x: Ranked)
    requires Ordered(s) && forall y :: y in s ==> !Before(x, y)
    ensures Ordered(s + [x])
  {
  }

  lemma LastIsWorst(s: seq<Ranked>, x: Ranked, y: Ranked)
    requires s != [] && Ordered(s) && !Before(x, s[|s| - 1]) && y in s
    ensures !Before(x, y)
  {
    var i :| 0 <= i < |s| && s[i] == y;
    if i < |s| - 1 { NotBeforeTransitive(y, s[|s| - 1], x); }
  }

  lemma {:induction false} PlaceOrders(s: seq<Ranked>, x: Ranked)
    requires Ordered(s)
    ensures Ordered(Place(s, x)) && multiset(Place(s, x)) == multiset(s) + multiset{x}
  {
    if s == [] || !Before(x, s[|s| - 1]) {
      forall y | y in s
        ensures !Before(x, y)
      {
        LastIsWorst(s, x, y);
      }
      OrderedSnoc(s, x);
    } else {
      var init, last := s[..|s| - 1], s[|s| - 1];
      assert s == init + [last];
      PlaceOrders(init, x);
      BeforeTotal(x, last);
      forall y | y in Place(init, x)
        ensures !Before(last, y)
      {
        assert y in multiset(Place(init, x));
      }
      OrderedSnoc(Place(init, x), last);
    }
  }

  lemma {:induction false} SortOrders(s: seq<Ranked>)
    ensures Ordered(Sort(s)) && multiset(Sort(s)) == multiset(s)
  {
    if s != [] {
      var init := s[..|s| - 1];
      SortOrders(init);
      PlaceOrders(Sort(init), s[|s| - 1]);
      assert s == init + [s[|s| - 1]];
    }
  }

  lemma OrderedSplit(all: seq<Ranked>, n: nat)
    requires Ordered(all) && n <= |all|
    ensures Ordered(all[..n])
    ensures forall r, d :: r in all[..n] && d in all[n..] ==> !Before(d, r)
  {
    forall r, d | r in all[..n] && d in all[n..]
      ensures !Before(d, r)
    {
      var i :| 0 <= i < n && all[i] == r;
      var j :| n <= j < |all| && all[j] == d;
    }
  }

  // As many of the candidates as fit, in order, none worse than one left out.
  ghost predicate BestOf(top: seq<Ranked>, all: seq<Ranked>, maxResults: nat) {
    && |top| == (if |all| < maxResults then |all| else maxResults)
    && top == all[..|top|] && Ordered(top)
    && forall r, d :: r in top && d in all[|top|..] ==> !Before(d, r)
  }

  lemma TopIsBest(q: Query, files: seq<File>, maxResults: nat)
    ensures multiset(Sort(Found(q, files))) == multiset(Found(q, files))
    ensures BestOf(Top(Sort(Found(q, files)), maxResults), Sort(Found(q, files)), maxResults)
  {
    SortOrders(Found(q, files));
    CutIsBest(Sort(Found(q, files)), maxResults);
  }

  lemma CutIsBest(all: seq<Ranked>, maxResults: nat)
    requires Ordered(all)
    ensures BestOf(Top(all, maxResults), all, maxResults)
  {
    OrderedSplit(all, |Top(all, maxResults)|);
    assert all[..|all|] == all;
  }

  // ---- The walk's order does not matter ----

  // A multiset in which a key occurs once.
  ghost predicate Keyed(m: multiset<Ranked>) {
    && (forall x :: m[x] <= 1)
    && (forall x, y :: x in m && y in m && Key(x) == Key(y) ==> x == y)
  }

  lemma KeyedSum(m: multiset<Ranked>, n: multiset<Ranked>)
    requires Keyed(m) && Keyed(n)
    requires forall x, y :: x in m && y in n ==> Key(x) != Key(y)
    ensures Keyed(m + n)
  {
    forall x
      ensures (m + n)[x] <= 1
    {
      assert x in m ==> x !in n;
    }
  }

  lemma OnLineKeyed(q: Query, path: string, n: nat, line: string)
    ensures Keyed(multiset(OnLine(q, path, n, line)))
    ensures forall r :: r in OnLine(q, path, n, line) ==> Key(r) == (ToFileUri(path), n)
  {
  }

  lemma {:induction false} InLinesKeyed(q: Query, path: string, lines: seq<string>)
    ensures Keyed(multiset(InLines(q, path, lines)))
    ensures forall r :: r in InLines(q, path, lines) ==>
      r.location.uri == ToFileUri(path) && r.location.line < |lines|
  {
    if lines != [] {
      var n := |lines| - 1;
      var before, here := InLines(q, path, lines[..n]), OnLine(q, path, n, lines[n]);
      InLinesKeyed(q, path, lines[..n]);
      OnLineKeyed(q, path, n, lines[n]);
      KeyedSum(multiset(before), multiset(here));
      assert multiset(before + here) == multiset(before) + multiset(here);
    }
  }

  ghost predicate UrisDistinct(files: seq<File>) {
    forall i, j :: 0 <= i < j < |files| ==> ToFileUri(files[i].path) != ToFileUri(files[j].path)
  }

  // Distinct paths have distinct URIs when all or none of them carry the
  // scheme, as all paths below one workspace do.
  lemma PathsGiveUris(files: seq<File>)
    requires forall i, j :: 0 <= i < j < |files| ==> files[i].path != files[j].path
    requires forall i, j :: 0 <= i < j < |files| ==> (SCHEME <= files[i].path <==> SCHEME <= files[j].path)
    ensures UrisDistinct(files)
  {
    forall i, j | 0 <= i < j < |files|
      ensures ToFileUri(files[i].path) != ToFileUri(files[j].path)
    {
      var a, b := files[i].path, files[j].path;
      assert (SCHEME + a)[|SCHEME|..] == a && (SCHEME + b)[|SCHEME|..] == b;
    }
  }

  function Uris(files: seq<File>): set<string> {
    set f | f in files :: ToFileUri(f.path)
  }

  lemma UrisSnoc(files: seq<File>)
    requires files != [] && UrisDistinct(files)
    ensures var init, f := files[..|files| - 1], files[|files| - 1];
      UrisDistinct(init) && ToFileUri(f.path) !in Uris(init) && Uris(files) == Uris(init) + {ToFileUri(f.path)}
  {
    var init, f := files[..|files| - 1], files[|files| - 1];
    assert files == init + [f];
    forall g | g in init
      ensures ToFileUri(g.path) != ToFileUri(f.path)
    {
      var i :| 0 <= i < |init| && init[i] == g;
      assert files[i] == g;
    }
  }

  lemma InFileKeyed(q: Query, f: File)
    ensures Keyed(multiset(InFile(q, f)))
    ensures forall r :: r in InFile(q, f) ==> r.location.uri == ToFileUri(f.path)
  {
    InLinesKeyed(q, f.path, Lines(f.content));
  }

  lemma {:induction false} FoundKeyed(q: Query, files: seq<File>)
    requires UrisDistinct(files)
    ensures Keyed(multiset(Found(q, files)))
    ensures forall r :: r in Found(q, files) ==> r.location.uri in Uris(files)
  {
    if files != [] {
      var init, f := files[..|files| - 1], files[|files| - 1];
      UrisSnoc(files);
      FoundKeyed(q, init);
      InFileKeyed(q, f);
      KeyedSum(multiset(Found(q, init)), multiset(InFile(q, f)));
      assert Found(q, files) == Found(q, init) + InFile(q, f);
    }
  }

  lemma {:induction false} GatherSplits<T, R>(scan: T -> seq<R>, a: seq<T>, b: seq<T>)
    ensures Gather(scan, a + b) == Gather(scan, a) + Gather(scan, b)
  {
    if b == [] {
      assert a + b == a;
    } else {
      var last := |b| - 1;
      GatherSplits(scan, a, b[..last]);
      assert (a + b)[..|a + b| - 1] == a + b[..last];
    }
  }

  lemma GatherMiddle<T, R>(scan: T -> seq<R>, left: seq<T>, x: T, right: seq<T>)
    ensures multiset(Gather(scan, left + [x] + right)) == multiset(Gather(scan, left + right)) + multiset(scan(x))
  {
    GatherSplits(scan, left + [x], right);
    GatherSplits(scan, left, right);
    assert (left + [x])[..|left|] == left;
  }

  lemma Pluck<T>(s: seq<T>, k: nat)
    requires k < |s|
    ensures s == s[..k] + [s[k]] + s[k + 1..]
    ensures multiset(s) == multiset(s[..k] + s[k + 1..]) + multiset{s[k]}
  {
    assert s == s[..k] + [s[k]] + s[k + 1..];
  }

  lemma Behead<T>(s: seq<T>)
    requires s != []
    ensures s == [s[0]] + s[1..]
    ensures multiset(s) == multiset(s[1..]) + multiset{s[0]}
  {
    assert s == [s[0]] + s[1..];
  }

  lemma Cancel<T>(m: multiset<T>, n: multiset<T>, x: T)
    requires m + multiset{x} == n + multiset{x}
    ensures m == n
  {
    assert m == (m + multiset{x}) - multiset{x};
    assert n == (n + multiset{x}) - multiset{x};
  }

  lemma {:induction false} GatherPermutes<T, R>(scan: T -> seq<R>, a: seq<T>, b: seq<T>)
    requires multiset(a) == multiset(b)
    ensures multiset(Gather(scan, a)) == multiset(Gather(scan, b))
    decreases |a|
  {
    if a == [] {
      assert |b| == |multiset(b)| == 0;
    } else {
      var x, init := a[|a| - 1], a[..|a| - 1];
      assert a == init + [x];
      assert x in multiset(b);
      var k :| 0 <= k < |b| && b[k] == x;
      Pluck(b, k);
      Cancel(multiset(init), multiset(b[..k] + b[k + 1..]), x);
      GatherPermutes(scan, init, b[..k] + b[k + 1..]);
      GatherMiddle(scan, b[..k], x, b[k + 1..]);
    }
  }

  lemma {:induction false} OrderedIsUnique(a: seq<Ranked>, b: seq<Ranked>)
    requires Ordered(a) && Ordered(b) && multiset(a) == multiset(b) && Keyed(multiset(a))
    ensures a == b
  {
    assert |a| == |multiset(a)| && |b| == |multiset(b)|;
    if a != [] {
      var x := a[0];
      FirstsAgree(a, b);
      Behead(a);
      Behead(b);
      Cancel(multiset(a[1..]), multiset(b[1..]), x);
      KeyedPart(multiset(a[1..]), x);
      OrderedIsUnique(a[1..], b[1..]);
    }
  }

  lemma KeyedPart(m: multiset<Ranked>, x: Ranked)
    requires Keyed(m + multiset{x})
    ensures Keyed(m)
  {
    forall y
      ensures m[y] <= 1
    {
      assert m[y] <= (m + multiset{x})[y];
    }
  }

  lemma FirstsAgree(a: seq<Ranked>, b: seq<Ranked>)
    requires a != [] && b != []
    requires Ordered(a) && Ordered(b) && multiset(a) == multiset(b) && Keyed(multiset(a))
    ensures a[0] == b[0]
  {
    var x, y := a[0], b[0];
    assert x in multiset(b) && y in multiset(a);
    var i :| 0 <= i < |b| && b[i] == x;
    var j :| 0 <= j < |a| && a[j] == y;
    BeforeTotal(x, y);
  }

  // Any two visit orders of the same files return the same list.
  lemma WalkOrderIsIrrelevant(q: Query, a: seq<File>, b: seq<File>, maxResults: nat)
    requires multiset(a) == multiset(b) && UrisDistinct(a)
    ensures Declared(q, a, maxResults) == Declared(q, b, maxResults)
  {
    GatherPermutes(FileScan(q), a, b);
    FoundKeyed(q, a);
    SortOrders(Found(q, a));
    SortOrders(Found(q, b));
    OrderedIsUnique(Sort(Found(q, a)), Sort(Found(q, b)));
  }

  // ---- The order, spelled out --------------------------------------------

  // Equal up to k, and then the first ends or has the smaller character.
  ghost predicate LessAt(a: string, b: string, k: nat) {
    k <= |a| && k < |b| && a[..k] == b[..k] && (k == |a| || a[k] < b[k])
  }

  lemma LessAtFirst(a: string, b: string, k: nat)
    requires a != "" && LessAt(a, b, k)
    ensures k == 0 || a[0] == b[0]
  {
    if k > 0 { assert a[..k][0] == b[..k][0]; }
  }

  lemma {:induction false} LexLessIs(a: string, b: string)
    ensures LexLess(a, b) <==> exists k: nat :: LessAt(a, b, k)
  {
    if b == "" {
    } else if a == "" {
      assert LessAt(a, b, 0);
    } else if a[0] != b[0] {
      if a[0] < b[0] { assert LessAt(a, b, 0); }
      forall k: nat | LessAt(a, b, k)
        ensures k == 0
      {
        LessAtFirst(a, b, k);
      }
    } else {
      LexLessIs(a[1..], b[1..]);
      if k: nat :| LessAt(a[1..], b[1..], k) {
        assert a[..k + 1] == [a[0]] + a[1..][..k] && b[..k + 1] == [b[0]] + b[1..][..k];
        assert LessAt(a, b, k + 1);
      }
      if k: nat :| LessAt(a, b, k) {
        assert k > 0;
        assert a[1..][..k - 1] == a[..k][1..] && b[1..][..k - 1] == b[..k][1..];
        assert LessAt(a[1..], b[1..], k - 1);
      }
    }
  }

  // No candidate follows one of smaller rank; with equal ranks none follows one
  // farther off; then none a URI that is greater; then none a later line.
  lemma RankedInOrder(q: Query, files: seq<File>, maxResults: nat, i: nat, j: nat)
    requires i < j < |Top(Sort(Found(q, files)), maxResults)|
    ensures
      var a, b := Top(Sort(Found(q, files)), maxResults)[i], Top(Sort(Found(q, files)), maxResults)[j];
      && a.rank >= b.rank
      && (a.rank == b.rank ==> a.proximity <= b.proximity)
      && (a.rank == b.rank && a.proximity == b.proximity ==>
            a.location.uri == b.location.uri || exists k: nat :: LessAt(a.location.uri, b.location.uri, k))
      && (a.rank == b.rank && a.proximity == b.proximity && a.location.uri == b.location.uri ==> a.location.line <= b.location.line)
  {
    var top := Top(Sort(Found(q, files)), maxResults);
    TopIsBest(q, files, maxResults);
    assert !Before(top[j], top[i]);
    LexTotal(top[i].location.uri, top[j].location.uri);
    LexLessIs(top[i].location.uri, top[j].location.uri);
  }

  // ---- What a candidate says ---------------------------------------------

  // Directory and file name of a path; a path without a slash has no directory.
  ghost predicate Splits(path: string, dir: string, name: string) {
    '/' !in name && (path == dir + "/" + name || (path == name && dir == ""))
  }

  lemma ParentSplits(path: string)
    ensures exists name :: Splits(path, ParentDir(path), name)
  {
    var p := LastSlash(path);
    if p < 0 {
      assert forall i :: 0 <= i < |path| ==> path[i] != '/';
      assert Splits(path, ParentDir(path), path);
    } else {
      var name := path[p + 1..];
      assert path == path[..p] + "/" + name;
      assert forall i :: 0 <= i < |name| ==> name[i] == path[p + 1 + i];
      assert ParentDir(path) == path[..p];
      assert Splits(path, ParentDir(path), name);
    }
  }

  lemma SplitIsParent(path: string, dir: string, name: string)
    requires Splits(path, dir, name)
    ensures dir == ParentDir(path)
  {
    var p := LastSlash(path);
    if path == dir + "/" + name {
      assert path[|dir|] == '/';
      assert forall i :: |dir| < i < |path| ==> path[i] == name[i - |dir| - 1];
      assert p == |dir|;
      assert path[..p] == dir;
    } else {
      assert p < 0;
    }
  }

  // 0 for the requesting file itself, 1 for one whose directory is the same, 2
  // otherwise and when no file asks.
  lemma ProximityMeans(path: string, requesting: string)
    ensures
      var near := ProximityOf(path, requesting);
      && (near == 0 <==> requesting != "" && path == requesting)
      && (near == 1 <==> requesting != "" && path != requesting
                         && exists dir, a, b :: Splits(path, dir, a) && Splits(requesting, dir, b))
      && near in {0, 1, 2}
  {
    ParentSplits(path);
    ParentSplits(requesting);
    if ProximityOf(path, requesting) == 1 {
      var a :| Splits(path, ParentDir(path), a);
      var b :| Splits(requesting, ParentDir(requesting), b);
      assert Splits(path, ParentDir(path), a) && Splits(requesting, ParentDir(path), b);
    }
    forall dir, a, b | Splits(path, dir, a) && Splits(requesting, dir, b)
      ensures ParentDir(path) == ParentDir(requesting)
    {
      SplitIsParent(path, dir, a);
      SplitIsParent(requesting, dir, b);
    }
  }

  // A candidate's location is a span of a line of its file that reads the name as
  // a whole word, the first of that line; or starts at -1 when there is none.
  lemma CandidateSpansName(q: Query, f: File, n: nat)
    requires n < |Lines(f.content)| && Declares(q, Lines(f.content)[n]) && q.name != ""
    ensures
      var line, r := Lines(f.content)[n], Candidate(q, f.path, n, Lines(f.content)[n]);
      && r.location.line == n && r.location.end == r.location.start + |q.name|
      && r.location.uri == (if SCHEME <= f.path then f.path else SCHEME + f.path)
      && (r.location.start == -1 <==> forall p: nat :: !WordAt(line, q.name, p))
      && (r.location.start != -1 ==>
            && 0 <= r.location.start && r.location.end <= |line| && line[r.location.start..r.location.end] == q.name
            && WordAt(line, q.name, r.location.start)
            && forall p: nat :: p < r.location.start ==> !WordAt(line, q.name, p))
      && IsBest(q.rules, line, r.rank) && r.rank > 0
  {
    var line := Lines(f.content)[n];
    var col := FirstWord(line, q.name, 0);
  }

  // Only identifiers are looked for.
  lemma NoIdentifierNoResult(q: Query, files: seq<File>, maxResults: nat)
    requires !IsIdentifier(q.name)
    ensures Declared(q, files, maxResults) == []
  {
  }
}
