/**
 * Ranking declaration candidates found in a walk over the workspace. The
 * regular-expression rules are uninterpreted tests on a line.
 */
module Declarations {
  import opened Wrappers
  import opened WordSearch
  import opened Paths

  datatype File = File(path: string, content: string)

  datatype Location = Location(uri: string, line: int, start: int, end: int)

  datatype Ranked = Ranked(location: Location, rank: int, proximity: int)

  // One pattern with the rank it awards.
  datatype Rule = Rule(rank: int, matches: string -> bool)

  datatype Query = Query(name: string, rules: seq<Rule>, requesting: string)

  function ToFileUri(path: string): string {
    if SCHEME <= path then path else SCHEME + path
  }

  function ParentDir(path: string): string {
    var p := LastSlash(path);
    if p < 0 then "" else path[..p]
  }

  function ProximityOf(path: string, requesting: string): int {
    if requesting == "" then 2
    else if path == requesting then 0
    else if ParentDir(path) == ParentDir(requesting) then 1
    else 2
  }

  // The best rank a line earns: 0, or the largest rank of a matching rule.
  ghost predicate IsBest(rules: seq<Rule>, line: string, best: int) {
    && best >= 0
    && (best > 0 ==> exists i :: 0 <= i < |rules| && rules[i].matches(line) && rules[i].rank == best)
    && (forall i :: 0 <= i < |rules| && rules[i].matches(line) ==> rules[i].rank <= best)
  }

  function Best(rules: seq<Rule>, line: string): (best: int)
    ensures IsBest(rules, line, best)
  {
    if rules == [] then 0
    else
      var r, best := rules[|rules| - 1], Best(rules[..|rules| - 1], line);
      assert forall i :: 0 <= i < |rules| - 1 ==> rules[..|rules| - 1][i] == rules[i];
      if r.rank > best && r.matches(line) then r.rank else best
  }

  method BestRank(rules: seq<Rule>, line: string) returns (best: int)
    ensures best == Best(rules, line)
  {
    best := 0;
    for i := 0 to |rules|
      invariant best == Best(rules[..i], line)
    {
      assert rules[..i + 1][..i] == rules[..i];
      if rules[i].rank <= best { continue; }
      if rules[i].matches(line) { best := rules[i].rank; }
    }
    assert rules[..|rules|] == rules;
  }

  // A line that mentions the name and earns a rank is a candidate.
  predicate Declares(q: Query, line: string) {
    Find(line, q.name, 0).Some? && Best(q.rules, line) != 0
  }

  // A rule that matches where the name is no whole word yields column -1.
  function Column(q: Query, line: string): int {
    var col := FirstWord(line, q.name, 0);
    if col.Some? then col.value else -1
  }

  function Candidate(q: Query, path: string, lineNo: nat, line: string): Ranked {
    var col := Column(q, line);
    Ranked(Location(ToFileUri(path), lineNo, col, col + |q.name|),
           Best(q.rules, line), ProximityOf(path, StripScheme(q.requesting)))
  }

  function InLines(q: Query, path: string, lines: seq<string>): seq<Ranked> {
    if lines == [] then []
    else
      var n := |lines| - 1;
      InLines(q, path, lines[..n]) + OnLine(q, path, n, lines[n])
  }

  // A file that does not mention the name is skipped unread.
  function InFile(q: Query, f: File): seq<Ranked> {
    if Find(f.content, q.name, 0).None? then [] else InLines(q, f.path, Lines(f.content))
  }

  function Gather<T, R>(scan: T -> seq<R>, s: seq<T>): seq<R> {
    if s == [] then [] else Gather(scan, s[..|s| - 1]) + scan(s[|s| - 1])
  }

  function FileScan(q: Query): File -> seq<Ranked> { f => InFile(q, f) }

  // All candidates, in the order the walk meets them.
  function Found(q: Query, files: seq<File>): seq<Ranked> { Gather(FileScan(q), files) }

  // std::string's order: byte by byte, a proper prefix first.
  predicate LexLess(a: string, b: string) {
    b != "" && (a == "" || a[0] < b[0] || (a[0] == b[0] && LexLess(a[1..], b[1..])))
  }

  // The comparator of the sort.
  predicate Before(a: Ranked, b: Ranked) {
    if a.rank != b.rank then a.rank > b.rank
    else if a.proximity != b.proximity then a.proximity < b.proximity
    else if a.location.uri != b.location.uri then LexLess(a.location.uri, b.location.uri)
    else a.location.line < b.location.line
  }

  // std::stable_sort: each element goes after all it is not before.
  function Place(s: seq<Ranked>, x: Ranked): seq<Ranked> {
    if s == [] || !Before(x, s[|s| - 1]) then s + [x]
    else Place(s[..|s| - 1], x) + [s[|s| - 1]]
  }

  function Sort(s: seq<Ranked>): seq<Ranked> {
    if s == [] then [] else Place(Sort(s[..|s| - 1]), s[|s| - 1])
  }

  function Locations(s: seq<Ranked>): seq<Location> {
    seq(|s|, i requires 0 <= i < |s| => s[i].location)
  }

  function Top(s: seq<Ranked>, maxResults: nat): seq<Ranked> {
    if |s| <= maxResults then s else s[..maxResults]
  }

  function Declared(q: Query, files: seq<File>, maxResults: nat): seq<Location> {
    if !IsIdentifier(q.name) then [] else Locations(Top(Sort(Found(q, files)), maxResults))
  }

  function OnLine(q: Query, path: string, lineNo: nat, line: string): seq<Ranked> {
    if Declares(q, line) then [Candidate(q, path, lineNo, line)] else []
  }

  method ScanLine(q: Query, path: string, lineNo: nat, line: string) returns (found: seq<Ranked>)
    ensures found == OnLine(q, path, lineNo, line)
  {
    if Find(line, q.name, 0).None? { return []; }
    var best := BestRank(q.rules, line);
    if best == 0 { return []; }
    var word := FindWord(line, q.name, 0);
    var col := if word.Some? then word.value else -1;
    var location := Location(ToFileUri(path), lineNo, col, col + |q.name|);
    found := [Ranked(location, best, ProximityOf(path, StripScheme(q.requesting)))];
  }

  lemma InLinesSnoc(q: Query, path: string, lines: seq<string>, n: nat)
    requires n < |lines|
    ensures InLines(q, path, lines[..n + 1]) == InLines(q, path, lines[..n]) + OnLine(q, path, n, lines[n])
  {
    assert lines[..n + 1][..n] == lines[..n];
  }

  method ScanLines(q: Query, path: string, lines: seq<string>) returns (found: seq<Ranked>)
    ensures found == InLines(q, path, lines)
  {
    found := [];
    for lineNo := 0 to |lines|
      invariant found == InLines(q, path, lines[..lineNo])
    {
      InLinesSnoc(q, path, lines, lineNo);
      var more := ScanLine(q, path, lineNo, lines[lineNo]);
      found := found + more;
    }
    assert lines[..|lines|] == lines;
  }

  method ScanFile(q: Query, f: File) returns (found: seq<Ranked>)
    ensures found == InFile(q, f)
  {
    if Find(f.content, q.name, 0).None? { return []; }
    found := ScanLines(q, f.path, Lines(f.content));
  }

  method Cut(found: seq<Ranked>, maxResults: nat) returns (out: seq<Location>)
    ensures out == Locations(Top(found, maxResults))
  {
    out := [];
    for i := 0 to |found|
      invariant i <= maxResults && out == Locations(found[..i])
    {
      if |out| >= maxResults { return; }
      out := out + [found[i].location];
    }
    assert found[..|found|] == found;
  }

  // findDeclarations over the files the walk visits, in its order.
  method FindDeclarations(q: Query, files: seq<File>, maxResults: nat) returns (out: seq<Location>)
    ensures out == Declared(q, files, maxResults)
  {
    if !IsIdentifier(q.name) { return []; }
    var found: seq<Ranked> := [];
    for i := 0 to |files|
      invariant found == Found(q, files[..i])
    {
      assert files[..i + 1][..i] == files[..i];
      var more := ScanFile(q, files[i]);
      found := found + more;
    }
    assert files[..|files|] == files;
    out := Cut(Sort(found), maxResults);
  }
}
