/**
 * Whole-word text search over the lines of a file, and the identifier under a
 * cursor. Characters are bytes classified as in the C locale.
 */
module WordSearch {
  import opened Wrappers

  predicate IsDigit(c: char) { '0' <= c <= '9' }

  predicate IsIdentChar(c: char) { 'a' <= c <= 'z' || 'A' <= c <= 'Z' || IsDigit(c) || c == '_' }

  predicate AllIdent(s: string) { forall i :: 0 <= i < |s| ==> IsIdentChar(s[i]) }

  predicate IsIdentifier(s: string) { s != "" && !IsDigit(s[0]) && AllIdent(s) }

  predicate OccursAt(line: string, name: string, p: nat) {
    p + |name| <= |line| && line[p..p + |name|] == name
  }

  // An occurrence with no identifier character on either side.
  predicate WordAt(line: string, name: string, p: nat) {
    && OccursAt(line, name, p)
    && (p > 0 ==> !IsIdentChar(line[p - 1]))
    && (p + |name| < |line| ==> !IsIdentChar(line[p + |name|]))
  }

  // std::string::find
  function Find(s: string, name: string, from: nat): (r: Option<nat>)
    ensures r.Some? ==> r.value >= from && OccursAt(s, name, r.value)
    ensures forall p: nat :: from <= p < (if r.Some? then r.value else |s| + 1) ==> !OccursAt(s, name, p)
    decreases |s| - from
  {
    if from + |name| > |s| then None
    else if OccursAt(s, name, from) then Some(from)
    else Find(s, name, from + 1)
  }

  // The first whole-word occurrence, by trying every position.
  function FirstWord(line: string, name: string, from: nat): (r: Option<nat>)
    ensures r.Some? ==> r.value >= from && WordAt(line, name, r.value)
    ensures name != "" ==> forall p: nat :: from <= p && WordAt(line, name, p) ==> r.Some? && r.value <= p
    decreases |line| - from
  {
    if name == "" || from + |name| > |line| then None
    else if WordAt(line, name, from) then Some(from)
    else FirstWord(line, name, from + 1)
  }

  method FindWord(line: string, name: string, from: nat) returns (r: Option<nat>)
    ensures r == FirstWord(line, name, from)
  {
    if name == "" { return None; }
    var p := Find(line, name, from);
    while p.Some?
      invariant p.Some? ==> p.value >= from && OccursAt(line, name, p.value)
      invariant forall q: nat :: from <= q && WordAt(line, name, q) ==> p.Some? && p.value <= q
      decreases if p.Some? then |line| + 1 - p.value else 0
    {
      var leftOk := p.value == 0 || !IsIdentChar(line[p.value - 1]);
      var after := p.value + |name|;
      var rightOk := after >= |line| || !IsIdentChar(line[after]);
      if leftOk && rightOk {
        assert WordAt(line, name, p.value);
        return p;
      }
      p := Find(line, name, p.value + 1);
    }
    r := None;
  }

  // Two whole-word occurrences of an identifier never overlap.
  lemma WordsDisjoint(line: string, name: string, p: nat, q: nat)
    requires IsIdentifier(name) && WordAt(line, name, p) && WordAt(line, name, q) && p < q
    ensures p + |name| <= q
  {
    IdentSpan(line, name, p);
  }

  lemma WordsAfter(line: string, name: string, p: nat)
    requires IsIdentifier(name) && WordAt(line, name, p)
    ensures forall q: nat :: WordAt(line, name, q) ==> q <= p || q >= p + |name|
  {
    forall q: nat | WordAt(line, name, q)
      ensures q <= p || q >= p + |name|
    {
      if q > p { WordsDisjoint(line, name, p, q); }
    }
  }

  predicate Increasing(s: seq<nat>) { forall i, j :: 0 <= i < j < |s| ==> s[i] < s[j] }

  // The scan of one line: each next search starts after the word just found.
  method Occurrences(line: string, name: string) returns (cols: seq<nat>)
    requires IsIdentifier(name)
    ensures Increasing(cols)
    ensures forall p: nat :: p in cols <==> WordAt(line, name, p)
  {
    cols := [];
    var col := FindWord(line, name, 0);
    while col.Some?
      invariant Listing(cols, line, name, if col.Some? then col.value else |line| + 1)
      invariant col.Some? ==> WordAt(line, name, col.value)
      decreases if col.Some? then |line| + 1 - col.value else 0
    {
      var here := col.value;
      cols := cols + [here];
      col := FindWord(line, name, here + |name|);
      ListingGrows(cols[..|cols| - 1], line, name, here, if col.Some? then col.value else |line| + 1);
    }
  }

  // The columns listed so far: every word that starts before `next`.
  ghost predicate Listing(cols: seq<nat>, line: string, name: string, next: nat) {
    Increasing(cols) && forall p: nat :: p in cols <==> p < next && WordAt(line, name, p)
  }

  lemma ListingGrows(cols: seq<nat>, line: string, name: string, here: nat, next: nat)
    requires IsIdentifier(name) && Listing(cols, line, name, here) && WordAt(line, name, here) && here < next
    requires forall p: nat :: here + |name| <= p < next ==> !WordAt(line, name, p)
    ensures Listing(cols + [here], line, name, next)
  {
    WordsAfter(line, name, here);
    forall i | 0 <= i < |cols|
      ensures cols[i] < here
    {
      assert cols[i] in cols;
    }
  }

  // The newline-separated pieces of a text: one more than it has newlines.
  function Pieces(s: string): (r: seq<string>)
    ensures r != []
  {
    match Find(s, "\n", 0)
    case None => [s]
    case Some(nl) => [s[..nl]] + Pieces(s[nl + 1..])
  }

  // What std::getline yields: no last line for text that ends in a newline.
  function Lines(s: string): seq<string> {
    var r := Pieces(s);
    if r[|r| - 1] == "" then r[..|r| - 1] else r
  }

  function Join(pieces: seq<string>): string
    requires pieces != []
  {
    if |pieces| == 1 then pieces[0] else pieces[0] + "\n" + Join(pieces[1..])
  }

  // Splitting loses nothing and leaves no newline in a piece.
  lemma {:induction false} PiecesJoin(s: string)
    ensures Join(Pieces(s)) == s
    ensures forall i :: 0 <= i < |Pieces(s)| ==> '\n' !in Pieces(s)[i]
    decreases |s|
  {
    var nl := Find(s, "\n", 0);
    var end := if nl.Some? then nl.value else |s|;
    forall i | 0 <= i < end
      ensures s[i] != '\n'
    {
      assert !OccursAt(s, "\n", i);
      assert s[i..i + 1] == [s[i]];
    }
    if nl.Some? {
      assert s[nl.value..nl.value + 1] == "\n";
      assert s == s[..nl.value] + "\n" + s[nl.value + 1..];
      PiecesJoin(s[nl.value + 1..]);
      assert Pieces(s)[1..] == Pieces(s[nl.value + 1..]);
    }
  }

  lemma OccursWithin(s: string, a: nat, b: nat, name: string, p: nat)
    requires a <= b <= |s| && OccursAt(s[a..b], name, p)
    ensures OccursAt(s, name, a + p)
  {
    var sub, span := s[a..b], s[a + p..a + p + |name|];
    forall k | 0 <= k < |name|
      ensures span[k] == name[k]
    {
      assert sub[p..p + |name|][k] == sub[p + k];
    }
  }

  // What occurs in a line occurs in the text.
  lemma {:induction false} PieceOccurs(s: string, i: nat, name: string, p: nat)
    requires i < |Pieces(s)| && OccursAt(Pieces(s)[i], name, p)
    ensures exists q: nat :: OccursAt(s, name, q)
    decreases |s|
  {
    var nl := Find(s, "\n", 0);
    if nl.Some? {
      if i == 0 {
        assert s[0..nl.value] == Pieces(s)[0];
        OccursWithin(s, 0, nl.value, name, p);
      } else {
        var tail := s[nl.value + 1..|s|];
        assert tail == s[nl.value + 1..];
        PieceOccurs(tail, i - 1, name, p);
        var q: nat :| OccursAt(tail, name, q);
        OccursWithin(s, nl.value + 1, |s|, name, q);
      }
    }
  }

  // The word under, or ending at, a cursor in one line.
  method IdentifierInLine(l: string, character: nat) returns (r: string)
    ensures r == "" || IsIdentifier(r)
    ensures forall w :: IsIdentifier(w) ==> (r == w <==> Touches(l, w, character))
  {
    var c := character;
    if c >= |l| || !IsIdentChar(l[c]) {
      if c >= 1 && c - 1 < |l| && IsIdentChar(l[c - 1]) {
        c := c - 1;
      } else {
        forall w | IsIdentifier(w)
          ensures !Touches(l, w, character)
        {
          NothingTouches(l, w, character);
        }
        return "";
      }
    }
    var s := c;
    while s > 0 && IsIdentChar(l[s - 1])
      invariant 0 <= s <= c && forall i :: s <= i < c ==> IsIdentChar(l[i])
    {
      s := s - 1;
    }
    var e := c;
    while e < |l| && IsIdentChar(l[e])
      invariant c <= e <= |l| && forall i :: c <= i < e ==> IsIdentChar(l[i])
    {
      e := e + 1;
    }
    var word := l[s..e];
    forall w | IsIdentifier(w)
      ensures Touches(l, w, character) <==> w == word
    {
      RunIsTheWord(l, s, e, c, w, character);
    }
    r := if IsIdentifier(word) then word else "";
  }

  // A whole-word occurrence whose span, ends included, holds the cursor.
  ghost predicate Touches(l: string, w: string, character: nat) {
    exists p: nat :: WordAt(l, w, p) && p <= character <= p + |w|
  }

  lemma NothingTouches(l: string, w: string, c: nat)
    requires IsIdentifier(w)
    requires c >= |l| || !IsIdentChar(l[c])
    requires c == 0 || c - 1 >= |l| || !IsIdentChar(l[c - 1])
    ensures !Touches(l, w, c)
  {
    forall p: nat | WordAt(l, w, p)
      ensures !(p <= c <= p + |w|)
    {
      IdentSpan(l, w, p);
    }
  }

  lemma IdentSpan(l: string, w: string, p: nat)
    requires AllIdent(w) && OccursAt(l, w, p)
    ensures forall i :: p <= i < p + |w| ==> IsIdentChar(l[i])
  {
    forall i | p <= i < p + |w|
      ensures IsIdentChar(l[i])
    {
      assert l[i] == l[p..p + |w|][i - p];
    }
  }

  // The run of identifier characters around c is the one word that can touch the cursor.
  lemma RunIsTheWord(l: string, s: nat, e: nat, c: nat, w: string, character: nat)
    requires IsIdentifier(w) && s <= c < e <= |l| && forall i :: s <= i < e ==> IsIdentChar(l[i])
    requires s > 0 ==> !IsIdentChar(l[s - 1])
    requires e < |l| ==> !IsIdentChar(l[e])
    requires c == character || (c + 1 == character && (character >= |l| || !IsIdentChar(l[character])))
    ensures Touches(l, w, character) <==> w == l[s..e]
  {
    if w == l[s..e] {
      assert WordAt(l, w, s);
    }
    if Touches(l, w, character) {
      var p: nat :| WordAt(l, w, p) && p <= character <= p + |w|;
      IdentSpan(l, w, p);
      SameRun(l, s, e, p, p + |w|, c);
    }
  }

  // Two maximal runs of identifier characters sharing a position are one.
  lemma SameRun(l: string, s: nat, e: nat, p: nat, q: nat, c: nat)
    requires s <= c < e <= |l| && p <= q <= |l| && p <= c <= q && (c == q ==> c < |l|) && p < q
    requires forall i :: s <= i < e ==> IsIdentChar(l[i])
    requires forall i :: p <= i < q ==> IsIdentChar(l[i])
    requires s > 0 ==> !IsIdentChar(l[s - 1])
    requires p > 0 ==> !IsIdentChar(l[p - 1])
    requires e < |l| ==> !IsIdentChar(l[e])
    requires q < |l| ==> !IsIdentChar(l[q])
    ensures s == p && e == q
  {
  }

  // The loop over newlines that finds a numbered line.
  method LineAt(content: string, line: nat) returns (r: Option<string>)
    ensures r == if line < |Pieces(content)| then Some(Pieces(content)[line]) else None
  {
    var pos := 0;
    assert content[0..] == content;
    for cur := 0 to line
      invariant 0 <= pos <= |content|
      invariant cur < |Pieces(content)| && Pieces(content)[cur..] == Pieces(content[pos..])
    {
      var nl := Find(content[pos..], "\n", 0);
      if nl.None? { return None; }
      assert Pieces(content[pos..])[1..] == Pieces(content[pos..][nl.value + 1..]);
      assert content[pos..][nl.value + 1..] == content[pos + nl.value + 1..];
      pos := pos + nl.value + 1;
    }
    var end := Find(content[pos..], "\n", 0);
    r := Some(if end.Some? then content[pos..][..end.value] else content[pos..]);
    assert r.value == Pieces(content)[line..][0];
  }

  // The identifier at a position of a text; empty for a position outside it.
  method IdentifierAt(content: string, line: int, character: int) returns (r: string)
    ensures r == "" || IsIdentifier(r)
    ensures forall w :: IsIdentifier(w) ==>
      (r == w <==> 0 <= line < |Lines(content)| && 0 <= character && Touches(Lines(content)[line], w, character))
  {
    if line < 0 || character < 0 { return ""; }
    var l := LineAt(content, line);
    if l.None? { return ""; }
    r := IdentifierInLine(l.value, character);
    forall w | IsIdentifier(w)
      ensures l.value == "" ==> !Touches(l.value, w, character)
    {
      if l.value == "" { NothingTouches(l.value, w, character); }
    }
  }

  // Whatever the cursor selects is listed by the scan of its line, at a column
  // whose span the cursor touches.
  method SelectThenScan(content: string, line: int, character: int) returns (name: string, cols: seq<nat>)
    ensures name == "" ==> cols == []
    ensures name != "" ==>
      && 0 <= line < |Lines(content)|
      && Increasing(cols)
      && (forall p: nat :: p in cols <==> WordAt(Lines(content)[line], name, p))
      && exists p :: p in cols && p <= character <= p + |name|
  {
    name := IdentifierAt(content, line, character);
    cols := [];
    if name != "" {
      assert Touches(Lines(content)[line], name, character);
      cols := Occurrences(Lines(content)[line], name);
    }
  }
}
