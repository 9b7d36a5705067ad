/**
 Path authorization (agent/main.cpp, isUnderRoot, resolveAndAuthorize,
 resolveAndAuthorizeForCreate). realpath() is a parameter: a partial function to
 canonical absolute paths, given by their component lists.
 */
module Sandbox {
  import opened Wrappers
  import opened Paths

  type Path = seq<string>   // components of a canonical absolute path

  predicate IsName(c: string) {
    c != "" && '/' !in c && c != "." && c != ".."
  }

  predicate IsPath(p: Path) {
    forall i :: 0 <= i < |p| ==> IsName(p[i])
  }

  /** "/a/b" for [a, b]; empty for no components. */
  function Slashed(p: seq<string>): string {
    if p == [] then "" else "/" + p[0] + Slashed(p[1..])
  }

  /** The canonical spelling. */
  function Render(p: Path): string {
    if p == [] then "/" else Slashed(p)
  }

  // ---- isUnderRoot -------------------------------------------------------

  predicate IsUnderRoot(path: string, root: string) {
    && root != ""
    && |path| >= |root|
    && path[..|root|] == root
    && (|path| == |root| || root[|root| - 1] == '/' || path[|root|] == '/')
  }

  /** `root` ends at a component boundary of `path`. */
  predicate AtBoundary(path: string, root: string) {
    root <= path && (|path| == |root| || path[|root|] == '/')
  }

  lemma {:induction false} SlashedStarts(p: Path)
    ensures p != [] ==> Slashed(p) != "" && Slashed(p)[0] == '/'
  {
  }

  lemma {:induction false} SlashedEnds(p: Path)
    requires IsPath(p) && p != []
    ensures Slashed(p) != "" && Slashed(p)[|Slashed(p)| - 1] != '/'
  {
    if |p| == 1 {
      assert Slashed(p[1..]) == "";
      assert Slashed(p) == "/" + p[0];
      assert p[0][|p[0]| - 1] in p[0];
    } else {
      SlashedEnds(p[1..]);
    }
  }

  predicate Tail(s: string) {
    s == "" || s[0] == '/'
  }

  /** A shorter or longer first component is never at a boundary. */
  lemma FirstDiffers(a: string, ra: string, b: string, rb: string)
    requires IsName(a) && IsName(b) && Tail(ra) && Tail(rb) && |a| != |b|
    ensures !AtBoundary("/" + a + ra, "/" + b + rb)
  {
    var path, root := "/" + a + ra, "/" + b + rb;
    if |b| < |a| {
      assert path[1 + |b|] == a[|b|] && a[|b|] in a;
      assert rb != "" ==> root[1 + |b|] == '/';
    } else {
      assert root[1 + |a|] == b[|a|] && b[|a|] in b;
      assert ra != "" ==> path[1 + |a|] == '/';
    }
  }

  /** The first components agree, or the boundary is not one. */
  lemma FirstAgrees(a: string, ra: string, b: string, rb: string)
    requires IsName(a) && IsName(b) && Tail(ra) && Tail(rb)
    requires AtBoundary("/" + a + ra, "/" + b + rb)
    ensures a == b && AtBoundary(ra, rb)
  {
    if |a| != |b| {
      FirstDiffers(a, ra, b, rb);
    }
    var path, root := "/" + a + ra, "/" + b + rb;
    assert a == path[1..1 + |a|] && b == root[1..1 + |b|];
    assert path[1 + |a|..] == ra && root[1 + |b|..] == rb;
  }

  lemma {:induction false} BoundaryIsPrefix(p: Path, r: Path)
    requires IsPath(p) && IsPath(r)
    ensures AtBoundary(Slashed(p), Slashed(r)) <==> r <= p
    decreases |p| + |r|
  {
    if r == [] {
      SlashedStarts(p);
    } else if p == [] {
    } else {
      var ps, rs := p[1..], r[1..];
      SlashedStarts(ps);
      SlashedStarts(rs);
      BoundaryIsPrefix(ps, rs);
      if AtBoundary(Slashed(p), Slashed(r)) {
        FirstAgrees(p[0], Slashed(ps), r[0], Slashed(rs));
        assert p == [p[0]] + ps && r == [r[0]] + rs;
      }
      if r <= p {
        assert rs <= ps && r[0] == p[0];
        assert Slashed(p) == "/" + p[0] + Slashed(ps) && Slashed(r) == "/" + p[0] + Slashed(rs);
      }
    }
  }

  /** On canonical paths the string test is the component test. */
  lemma UnderRootIsPrefix(p: Path, r: Path)
    requires IsPath(p) && IsPath(r)
    ensures IsUnderRoot(Render(p), Render(r)) <==> r <= p
  {
    BoundaryIsPrefix(p, r);
    SlashedStarts(p);
    if r == [] {
      assert Render(p)[..1] == "/";
    } else {
      SlashedEnds(r);
      SlashedStarts(r);
      if p == [] {
        assert |Slashed(r)| >= 2;
      }
    }
  }

  // ---- Authorizing -------------------------------------------------------

  datatype Error = NotFound | Denied | InvalidRequest

  type Resolve = string -> Option<Path>

  ghost predicate IsResolve(resolve: Resolve) {
    forall s :: resolve(s).Some? ==> IsPath(resolve(s).value)
  }

  predicate Allowed(p: Path, roots: seq<Path>) {
    exists i :: 0 <= i < |roots| && IsUnderRoot(Render(p), Render(roots[i]))
  }

  function Authorize(anchored: string, resolve: Resolve, roots: seq<Path>): Result<Path, Error> {
    if resolve(anchored).None? then Err(NotFound)
    else if Allowed(resolve(anchored).value, roots) then Ok(resolve(anchored).value)
    else Err(Denied)
  }

  // ---- Peeling off what does not exist -----------------------------------

  /** Components the source drops while peeling. */
  predicate Idle(leaf: string) {
    leaf == "" || leaf == "."
  }

  datatype Peeled = Found(existing: string, missing: seq<string>) | Refused

  /** The loop of resolveAndAuthorizeForCreate. `missing` collects leaves
      innermost first. */
  function Peel(existing: string, missing: seq<string>, resolve: Resolve): Peeled
    decreases |existing|
  {
    var slash := LastSlash(existing);
    if slash <= 0 then Refused
    else
      var leaf, parent := existing[slash + 1..], existing[..slash];
      if Idle(leaf) then Peel(parent, missing, resolve)
      else if leaf == ".." then Refused
      else if resolve(parent).Some? then Found(parent, missing + [leaf])
      else Peel(parent, missing + [leaf], resolve)
  }

  function Reversed(s: seq<string>): seq<string> {
    if s == [] then [] else [s[|s| - 1]] + Reversed(s[..|s| - 1])
  }

  /** The path handed back: canonical existing part, then what is missing. */
  function Create(anchored: string, resolve: Resolve, roots: seq<Path>): Result<string, Error> {
    if resolve(anchored).Some? then
      (match Authorize(anchored, resolve, roots) case Ok(p) => Ok(Render(p)) case Err(e) => Err(e))
    else
      match Peel(anchored, [], resolve)
      case Refused => Err(InvalidRequest)
      case Found(existing, missing) =>
        match Authorize(existing, resolve, roots)
        case Err(e) => Err(e)
        case Ok(p) => Ok(Render(p) + Slashed(Reversed(missing)))
  }

  /** The peeling loop. */
  method PeelOff(anchored: string, resolve: Resolve) returns (p: Peeled)
    ensures p == Peel(anchored, [], resolve)
  {
    var missing: seq<string> := [];
    var existing := anchored;
    ghost var result := Peel(anchored, [], resolve);
    while true
      invariant result == Peel(existing, missing, resolve)
      decreases |existing|
    {
      var slash := LastSlash(existing);
      if slash <= 0 { return Refused; }
      var leaf := existing[slash + 1..];
      existing := existing[..slash];
      if Idle(leaf) { continue; }
      if leaf == ".." { return Refused; }
      missing := missing + [leaf];
      if resolve(existing).Some? { return Found(existing, missing); }
    }
  }

  /** Appending what is missing, outermost first. */
  method Append(base: string, missing: seq<string>) returns (out: string)
    ensures out == base + Slashed(Reversed(missing))
  {
    out := base;
    var todo := missing;
    while todo != []
      invariant base + Slashed(Reversed(missing)) == out + Slashed(Reversed(todo))
      decreases |todo|
    {
      assert Reversed(todo)[1..] == Reversed(todo[..|todo| - 1]);
      out := out + "/" + todo[|todo| - 1];
      todo := todo[..|todo| - 1];
    }
  }

  method ResolveForCreate(anchored: string, resolve: Resolve, roots: seq<Path>) returns (r: Result<string, Error>)
    ensures r == Create(anchored, resolve, roots)
  {
    if resolve(anchored).Some? {
      var a := Authorize(anchored, resolve, roots);
      return if a.Ok? then Ok(Render(a.value)) else Err(a.error);
    }
    var peeled := PeelOff(anchored, resolve);
    if peeled.Refused? { return Err(InvalidRequest); }
    var a := Authorize(peeled.existing, resolve, roots);
    if a.Err? { return Err(a.error); }
    var out := Append(Render(a.value), peeled.missing);
    r := Ok(out);
  }

  /** What the client named, minus the empty and "." parts. */
  function Kept(raw: seq<string>): seq<string> {
    if raw == [] then [] else (if Idle(raw[0]) then [] else [raw[0]]) + Kept(raw[1..])
  }

  lemma {:induction false} SlashedAppend(p: seq<string>, c: string)
    ensures Slashed(p + [c]) == Slashed(p) + "/" + c
  {
    if p == [] {
      assert p + [c] == [c] && [c][1..] == [];
    } else {
      assert (p + [c])[1..] == p[1..] + [c];
      SlashedAppend(p[1..], c);
    }
  }

  lemma {:induction false} KeptAppend(raw: seq<string>, c: string)
    ensures Kept(raw + [c]) == Kept(raw) + (if Idle(c) then [] else [c])
  {
    if raw == [] {
      assert raw + [c] == [c] && [c][1..] == [];
    } else {
      assert (raw + [c])[1..] == raw[1..] + [c];
      KeptAppend(raw[1..], c);
    }
  }

  lemma ReversedAppend(s: seq<string>, c: string)
    ensures Reversed(s + [c]) == [c] + Reversed(s)
  {
    assert (s + [c])[..|s|] == s;
  }

  /** What was peeled off: `raw` are the components after the existing part, in
      the order the client wrote them. */
  ghost predicate Explains(start: string, missing: seq<string>, resolve: Resolve, e: string, m: seq<string>, raw: seq<string>) {
    && start == e + Slashed(raw)
    && e != "" && raw != [] && !Idle(raw[0])
    && (forall k :: 0 <= k < |raw| ==> '/' !in raw[k] && raw[k] != "..")
    && Reversed(m) == Kept(raw) + Reversed(missing)
    && resolve(e).Some?
    && (forall k :: 0 < k < |raw| && !Idle(raw[k]) ==> resolve(e + Slashed(raw[..k])).None?)
  }

  lemma ExplainMore(start: string, parent: string, leaf: string, missing: seq<string>, missing': seq<string>,
                    resolve: Resolve, e: string, m: seq<string>, raw: seq<string>)
    requires start == parent + "/" + leaf && '/' !in leaf && leaf != ".."
    requires Explains(parent, missing', resolve, e, m, raw)
    requires if Idle(leaf) then missing' == missing else missing' == missing + [leaf] && resolve(parent).None?
    ensures Explains(start, missing, resolve, e, m, raw + [leaf])
  {
    SlashedAppend(raw, leaf);
    KeptAppend(raw, leaf);
    if !Idle(leaf) {
      ReversedAppend(missing, leaf);
    }
    TriedMore(parent, leaf, resolve, e, raw);
  }

  lemma TriedMore(parent: string, leaf: string, resolve: Resolve, e: string, raw: seq<string>)
    requires parent == e + Slashed(raw) && (!Idle(leaf) ==> resolve(parent).None?)
    requires forall k :: 0 < k < |raw| && !Idle(raw[k]) ==> resolve(e + Slashed(raw[..k])).None?
    ensures var raw' := raw + [leaf];
      forall k :: 0 < k < |raw'| && !Idle(raw'[k]) ==> resolve(e + Slashed(raw'[..k])).None?
  {
    var raw' := raw + [leaf];
    forall k | 0 < k < |raw'| && !Idle(raw'[k])
      ensures resolve(e + Slashed(raw'[..k])).None?
    {
      if k < |raw| {
        assert raw'[..k] == raw[..k] && raw'[k] == raw[k];
      } else {
        assert raw'[..k] == raw;
      }
    }
  }

  lemma ExplainFirst(start: string, parent: string, leaf: string, missing: seq<string>, resolve: Resolve)
    requires start == parent + "/" + leaf && '/' !in leaf && leaf != ".." && !Idle(leaf) && resolve(parent).Some? && parent != ""
    ensures Explains(start, missing, resolve, parent, missing + [leaf], [leaf])
  {
    assert [leaf][1..] == [];
    assert Slashed([leaf]) == "/" + leaf;
    assert Kept([leaf]) == [leaf];
    ReversedAppend(missing, leaf);
  }

  /** Success of the peeling loop, explained. */
  lemma {:induction false} PeelExplains(start: string, missing: seq<string>, resolve: Resolve) returns (raw: seq<string>)
    requires Peel(start, missing, resolve).Found?
    ensures var f := Peel(start, missing, resolve); Explains(start, missing, resolve, f.existing, f.missing, raw)
    decreases |start|
  {
    var f := Peel(start, missing, resolve);
    var slash := LastSlash(start);
    var leaf, parent := start[slash + 1..], start[..slash];
    assert start == parent + "/" + leaf;
    if Idle(leaf) {
      raw := PeelExplains(parent, missing, resolve);
      ExplainMore(start, parent, leaf, missing, missing, resolve, f.existing, f.missing, raw);
      raw := raw + [leaf];
    } else if resolve(parent).Some? {
      ExplainFirst(start, parent, leaf, missing, resolve);
      raw := [leaf];
    } else {
      raw := PeelExplains(parent, missing + [leaf], resolve);
      ExplainMore(start, parent, leaf, missing, missing + [leaf], resolve, f.existing, f.missing, raw);
      raw := raw + [leaf];
    }
  }

  lemma {:induction false} KeptAreNames(raw: seq<string>)
    requires forall k :: 0 <= k < |raw| ==> '/' !in raw[k] && raw[k] != ".."
    ensures IsPath(Kept(raw))
  {
    if raw != [] {
      KeptAreNames(raw[1..]);
    }
  }

  lemma {:induction false} SlashedConcat(p: seq<string>, q: seq<string>)
    ensures Slashed(p + q) == Slashed(p) + Slashed(q)
  {
    if p == [] {
      assert p + q == q;
    } else {
      assert (p + q)[1..] == p[1..] + q;
      SlashedConcat(p[1..], q);
    }
  }

  /** No path strictly between `e` and the whole one resolves. */
  predicate Deepest(e: string, raw: seq<string>, resolve: Resolve) {
    forall k :: 0 < k < |raw| ==> resolve(e + Slashed(raw[..k])).None?
  }

  /** None of those before an empty or "." component does. */
  predicate SkippedFail(e: string, raw: seq<string>, resolve: Resolve) {
    forall k :: 0 < k < |raw| && Idle(raw[k]) ==> resolve(e + Slashed(raw[..k])).None?
  }

  // ---- What is granted ---------------------------------------------------

  lemma {:induction false} ReversedTwice(s: seq<string>)
    ensures Reversed(Reversed(s)) == s
  {
    if s != [] {
      var init, last := s[..|s| - 1], s[|s| - 1];
      ReversedTwice(init);
      ReversedPrepend(last, Reversed(init));
    }
  }

  lemma {:induction false} ReversedPrepend(c: string, s: seq<string>)
    ensures Reversed([c] + s) == Reversed(s) + [c]
  {
    if s == [] {
      assert [c] + s == [c] && [c][..0] == [];
    } else {
      assert ([c] + s)[..|s|] == [c] + s[..|s| - 1];
      ReversedPrepend(c, s[..|s| - 1]);
    }
  }

  lemma LastSlashOf(parent: string, leaf: string)
    requires '/' !in leaf
    ensures LastSlash(parent + "/" + leaf) == |parent|
  {
    var head := parent + "/";
    SlashThenLeaf(head, leaf);
    LastSlashIs(head + leaf, |parent|);
  }

  lemma SlashThenLeaf(head: string, leaf: string)
    requires head != "" && head[|head| - 1] == '/' && '/' !in leaf
    ensures (head + leaf)[|head| - 1] == '/'
    ensures forall i :: |head| <= i < |head + leaf| ==> (head + leaf)[i] != '/'
  {
    forall i | |head| <= i < |head + leaf|
      ensures (head + leaf)[i] != '/'
    {
      assert (head + leaf)[i] == leaf[i - |head|];
    }
  }

  lemma LastSlashIs(s: string, i: nat)
    requires i < |s| && s[i] == '/' && forall k :: i < k < |s| ==> s[k] != '/'
    ensures LastSlash(s) == i
  {
    var k := LastSlash(s);
    assert k >= i;
  }

  /** The path is a nonempty resolving part `e` and components to create: none
      "..", the first a name, and every part the loop tries on its way up to `e`
      fails to resolve. */
  ghost predicate Missing(anchored: string, resolve: Resolve, e: string, raw: seq<string>) {
    && anchored == e + Slashed(raw) && e != "" && resolve(e).Some?
    && raw != [] && !Idle(raw[0])
    && (forall k :: 0 <= k < |raw| ==> '/' !in raw[k] && raw[k] != "..")
    && (forall k :: 0 < k < |raw| && !Idle(raw[k]) ==> resolve(e + Slashed(raw[..k])).None?)
  }

  lemma MissingLess(anchored: string, resolve: Resolve, e: string, raw: seq<string>)
    requires Missing(anchored, resolve, e, raw) && |raw| > 1
    ensures Missing(e + Slashed(raw[..|raw| - 1]), resolve, e, raw[..|raw| - 1])
  {
    var less := raw[..|raw| - 1];
    forall k | 0 < k < |less| && !Idle(less[k])
      ensures resolve(e + Slashed(less[..k])).None?
    {
      assert less[..k] == raw[..k];
    }
  }

  lemma SplitLast(e: string, raw: seq<string>)
    requires raw != [] && forall k :: 0 <= k < |raw| ==> '/' !in raw[k]
    ensures
      var leaf, parent := raw[|raw| - 1], e + Slashed(raw[..|raw| - 1]);
      && e + Slashed(raw) == parent + "/" + leaf && LastSlash(e + Slashed(raw)) == |parent|
      && (e + Slashed(raw))[..|parent|] == parent && (e + Slashed(raw))[|parent| + 1..] == leaf
  {
    var leaf, less := raw[|raw| - 1], raw[..|raw| - 1];
    assert raw == less + [leaf];
    SlashedAppend(less, leaf);
    assert e + Slashed(raw) == (e + Slashed(less)) + "/" + leaf;
    LastSlashOf(e + Slashed(less), leaf);
  }

  /** The loop finds every such path, however many components are missing. */
  lemma {:induction false} PeelFinds(anchored: string, missing: seq<string>, resolve: Resolve, e: string, raw: seq<string>)
    requires Missing(anchored, resolve, e, raw)
    ensures Peel(anchored, missing, resolve) == Found(e, missing + Reversed(Kept(raw)))
    decreases |raw|
  {
    var leaf, less := raw[|raw| - 1], raw[..|raw| - 1];
    var parent := e + Slashed(less);
    SplitLast(e, raw);
    assert raw == less + [leaf];
    KeptAppend(less, leaf);
    if |raw| == 1 {
      assert less == [] && parent == e;
      assert Kept(raw) == [leaf] && Reversed([leaf]) == [leaf];
    } else {
      MissingLess(anchored, resolve, e, raw);
      PeelTurns(anchored, missing, resolve, parent, leaf);
      if Idle(leaf) {
        PeelFinds(parent, missing, resolve, e, less);
        assert Kept(raw) == Kept(less);
      } else {
        PeelFinds(parent, missing + [leaf], resolve, e, less);
        ReversedAppend(Kept(less), leaf);
        assert missing + [leaf] + Reversed(Kept(less)) == missing + ([leaf] + Reversed(Kept(less)));
      }
    }
  }

  /** One turn of the loop over a component that does not end it. */
  lemma PeelTurns(anchored: string, missing: seq<string>, resolve: Resolve, parent: string, leaf: string)
    requires parent != "" && LastSlash(anchored) == |parent| && anchored[..|parent|] == parent && anchored[|parent| + 1..] == leaf
    requires leaf != ".." && (!Idle(leaf) ==> resolve(parent).None?)
    ensures Peel(anchored, missing, resolve) == Peel(parent, if Idle(leaf) then missing else missing + [leaf], resolve)
  {
  }

  ghost predicate UnderSome(p: Path, roots: seq<Path>) {
    exists i :: 0 <= i < |roots| && roots[i] <= p
  }

  lemma AllowedIff(p: Path, roots: seq<Path>)
    requires IsPath(p) && forall k :: 0 <= k < |roots| ==> IsPath(roots[k])
    ensures Allowed(p, roots) <==> UnderSome(p, roots)
  {
    forall i | 0 <= i < |roots|
      ensures IsUnderRoot(Render(p), Render(roots[i])) <==> roots[i] <= p
    {
      UnderRootIsPrefix(p, roots[i]);
    }
  }

  /** An existing path is granted exactly when it lies under a root, under its own
      canonical spelling, and is denied otherwise. */
  lemma ExistingIsGrantedIff(anchored: string, resolve: Resolve, roots: seq<Path>)
    requires IsResolve(resolve) && (forall k :: 0 <= k < |roots| ==> IsPath(roots[k])) && resolve(anchored).Some?
    ensures Create(anchored, resolve, roots)
         == if UnderSome(resolve(anchored).value, roots) then Ok(Render(resolve(anchored).value)) else Err(Denied)
  {
    AllowedIff(resolve(anchored).value, roots);
  }

  /** A path with missing parts is granted exactly when its resolving part lies
      under a root, as that part's canonical spelling and the missing names in the
      order written. */
  lemma MissingIsGrantedIff(anchored: string, resolve: Resolve, roots: seq<Path>, e: string, raw: seq<string>)
    requires IsResolve(resolve) && (forall k :: 0 <= k < |roots| ==> IsPath(roots[k]))
    requires resolve(anchored).None? && Missing(anchored, resolve, e, raw)
    ensures Create(anchored, resolve, roots)
         == if UnderSome(resolve(e).value, roots) then Ok(Render(resolve(e).value) + Slashed(Kept(raw))) else Err(Denied)
  {
    PeelFinds(anchored, [], resolve, e, raw);
    assert [] + Reversed(Kept(raw)) == Reversed(Kept(raw));
    ReversedTwice(Kept(raw));
    AllowedIff(resolve(e).value, roots);
  }

  /** Any other path is an invalid request. */
  lemma OthersAreInvalid(anchored: string, resolve: Resolve, roots: seq<Path>)
    requires resolve(anchored).None? && forall e, raw :: !Missing(anchored, resolve, e, raw)
    ensures Create(anchored, resolve, roots) == Err(InvalidRequest)
  {
    if Peel(anchored, [], resolve).Found? {
      var raw := PeelExplains(anchored, [], resolve);
      assert Missing(anchored, resolve, Peel(anchored, [], resolve).existing, raw);
    }
  }

  lemma {:induction false} NamesAreKept(raw: seq<string>)
    requires IsPath(raw)
    ensures Kept(raw) == raw
  {
    if raw != [] {
      NamesAreKept(raw[1..]);
      assert raw == [raw[0]] + raw[1..];
    }
  }

  /** Several missing levels at once: the deepest resolving part, then all the
      names that follow it. */
  lemma MissingLevelsAreGranted(anchored: string, resolve: Resolve, roots: seq<Path>, e: string, raw: seq<string>)
    requires IsResolve(resolve) && (forall k :: 0 <= k < |roots| ==> IsPath(roots[k]))
    requires anchored == e + Slashed(raw) && e != "" && resolve(e).Some? && UnderSome(resolve(e).value, roots)
    requires raw != [] && IsPath(raw) && forall k :: 0 < k <= |raw| ==> resolve(e + Slashed(raw[..k])).None?
    ensures Create(anchored, resolve, roots) == Ok(Render(resolve(e).value) + Slashed(raw))
  {
    assert raw[..|raw|] == raw;
    assert Missing(anchored, resolve, e, raw);
    MissingIsGrantedIff(anchored, resolve, roots, e, raw);
    NamesAreKept(raw);
  }

  /** A path that does not exist yet and is granted: an ancestor of what was
      asked resolves under an allowed root, and what follows it are the
      remaining components in the order written, none empty, "." or "..". The
      ancestor is the deepest that resolves exactly when no path that the loop
      stepped over without trying it resolves. */
  lemma CreateIsConfined(anchored: string, resolve: Resolve, roots: seq<Path>) returns (e: string, raw: seq<string>, i: nat)
    requires IsResolve(resolve) && (forall k :: 0 <= k < |roots| ==> IsPath(roots[k]))
    requires resolve(anchored).None? && Create(anchored, resolve, roots).Ok?
    ensures anchored == e + Slashed(raw) && resolve(e).Some?
    ensures IsPath(Kept(raw)) && Kept(raw) != [] && forall k :: 0 <= k < |raw| ==> raw[k] != ".."
    ensures Deepest(e, raw, resolve) <==> SkippedFail(e, raw, resolve)
    ensures i < |roots| && roots[i] <= resolve(e).value
    ensures Create(anchored, resolve, roots) == Ok(Render(resolve(e).value) + Slashed(Kept(raw)))
  {
    var f := Peel(anchored, [], resolve);
    raw := PeelExplains(anchored, [], resolve);
    e := f.existing;
    KeptAreNames(raw);
    assert Reversed(f.missing) == Kept(raw) + [] == Kept(raw);
    i := AllowedRoot(resolve(e).value, roots);
  }

  lemma AllowedRoot(p: Path, roots: seq<Path>) returns (i: nat)
    requires IsPath(p) && (forall k :: 0 <= k < |roots| ==> IsPath(roots[k])) && Allowed(p, roots)
    ensures i < |roots| && roots[i] <= p
  {
    i :| 0 <= i < |roots| && IsUnderRoot(Render(p), Render(roots[i]));
    UnderRootIsPrefix(p, roots[i]);
  }

  /** The granted path is itself under an allowed root, by the same test. It is
      spelled canonically unless the existing part is "/" itself, where the
      source writes two slashes. */
  lemma CreatedIsUnderRoot(anchored: string, resolve: Resolve, roots: seq<Path>)
    requires IsResolve(resolve) && (forall k :: 0 <= k < |roots| ==> IsPath(roots[k]))
    requires Create(anchored, resolve, roots).Ok?
    ensures exists i :: 0 <= i < |roots| && IsUnderRoot(Create(anchored, resolve, roots).value, Render(roots[i]))
  {
    if resolve(anchored).None? {
      var e, raw, i := CreateIsConfined(anchored, resolve, roots);
      GrantIsUnder(resolve(e).value, Kept(raw), roots[i]);
    } else {
      assert Allowed(resolve(anchored).value, roots);
    }
  }

  lemma GrantIsUnder(p: Path, more: Path, root: Path)
    requires IsPath(p) && IsPath(more) && IsPath(root) && root <= p
    ensures IsUnderRoot(Render(p) + Slashed(more), Render(root))
    ensures Render(p) + Slashed(more) == Render(p + more) <==> p != [] || more == []
  {
    if p != [] {
      SlashedConcat(p, more);
      UnderRootIsPrefix(p + more, root);
    } else if more != [] {
      SlashedStarts(more);
      assert p + more == more;
      assert |Render(p) + Slashed(more)| == 1 + |Slashed(more)|;
    }
  }

  /** "/d/f/." where f is a plain file: realpath refuses the whole, f itself is
      never tried, and the answer treats it as missing. */
  lemma SkippedAncestor(resolve: Resolve)
    requires resolve("/d/f/.") == None && resolve("/d/f") == Some(["d", "f"]) && resolve("/d") == Some(["d"])
    ensures Peel("/d/f/.", [], resolve) == Found("/d", ["f"])
    ensures !Deepest("/d", ["f", "."], resolve) && "/d/f/." == "/d" + Slashed(["f", "."])
  {
    assert LastSlash("/d/f/.") == 4 && "/d/f/."[5..] == "." && "/d/f/."[..4] == "/d/f";
    assert LastSlash("/d/f") == 2 && "/d/f"[3..] == "f" && "/d/f"[..2] == "/d";
    assert [] + ["f"] == ["f"];
    assert ["f", "."][1..] == ["."] && ["."][1..] == [];
    assert ["f", "."][..1] == ["f"] && ["f"][1..] == [];
    assert Slashed(["f"]) == "/f" && Slashed(["."]) == "/.";
    assert "/d" + Slashed(["f", "."][..1]) == "/d/f";
  }
}
