/**
 Which answers of the language-server cache a lookup sees: told by file, line,
 character and SHA of rows and questions, not by the cache's own key.
 */
module CacheKeys {
  import opened Wrappers
  import opened Paths
  import opened RowTable
  import opened LspCache

  // The same place: line, character, and file up to one leading scheme.
  predicate SamePlace(a: Spot, b: Spot) {
    a.line == b.line && a.character == b.character && StripScheme(a.file) == StripScheme(b.file)
  }

  // All that can be asked of the cache at one place and one query.
  predicate SameAnswers(a: Db, b: Db, spot: Spot, query: string) {
    && Definitions(a, spot) == Definitions(b, spot)
    && References(a, spot) == References(b, spot)
    && WorkspaceSymbols(a, query) == WorkspaceSymbols(b, query)
  }

  lemma SamePlaceSameAnswers(db: Db, a: Spot, b: Spot)
    requires SamePlace(a, b)
    ensures Definitions(db, a) == Definitions(db, b) && References(db, a) == References(db, b)
  {
  }

  lemma SelectElsewhere<K, A>(rows: seq<Row<K, A>>, key: K, sha: string, hits: seq<Hit<A>>, k: K, s: string)
    requires k != key || s != sha
    ensures Select(Insert(rows, key, sha, hits), k, s) == Select(rows, k, s)
  {
    SelectInsert(rows, key, sha, hits, k, s);
    assert Select(rows, k, s) + [] == Select(rows, k, s);
  }

  // Caching a definition changes what is answered at its own place only.
  lemma DefinitionStaysPut(db: Db, spot: Spot, target: Location, other: Spot, query: string)
    ensures
      var now := Apply(db, CacheDefinition(spot, target));
      && (!SamePlace(spot, other) ==> Definitions(now, other) == Definitions(db, other))
      && References(now, other) == References(db, other) && WorkspaceSymbols(now, query) == WorkspaceSymbols(db, query)
  {
    if !SamePlace(spot, other) {
      SelectElsewhere(db.definitions, Key(spot), db.sha, Stored([target]), Key(other), db.sha);
    }
  }

  lemma ReferencesStayPut(db: Db, spot: Spot, locations: seq<Location>, other: Spot, query: string)
    ensures
      var now := Apply(db, CacheReferences(spot, locations));
      && (!SamePlace(spot, other) ==> References(now, other) == References(db, other))
      && Definitions(now, other) == Definitions(db, other) && WorkspaceSymbols(now, query) == WorkspaceSymbols(db, query)
  {
    if !SamePlace(spot, other) {
      SelectElsewhere(db.references, Key(spot), db.sha, Stored(locations), Key(other), db.sha);
    }
  }

  lemma SymbolsStayPut(db: Db, query: string, symbols: seq<Symbol>, spot: Spot, other: string)
    ensures
      var now := Apply(db, CacheSymbols(query, symbols));
      && (other != query ==> WorkspaceSymbols(now, other) == WorkspaceSymbols(db, other))
      && Definitions(now, spot) == Definitions(db, spot) && References(now, spot) == References(db, spot)
  {
    if other != query {
      ReplacedElsewhere(db.symbols, query, db.sha, StoredSymbols(symbols), other, db.sha);
    }
  }

  lemma ReplacedElsewhere(rows: seq<Row<string, Details>>, query: string, sha: string, hits: seq<Hit<Details>>, k: string, s: string)
    requires k != query || s != sha
    ensures Select(Insert(Delete(rows, Exactly(query, sha)), query, sha, hits), k, s) == Select(rows, k, s)
  {
    SelectDelete(rows, Exactly(query, sha), k, s);
    SelectElsewhere(Delete(rows, Exactly(query, sha)), query, sha, hits, k, s);
  }

  // The operation caches an answer.
  predicate Caches(op: Op) {
    op.CacheDefinition? || op.CacheReferences? || op.CacheSymbols?
  }

  // What is cached at one SHA is neither seen nor disturbed at another.
  lemma ShasAreApart(db: Db, op: Op, sha: string, spot: Spot, query: string)
    requires Caches(op) && sha != db.sha
    ensures SameAnswers(Apply(Apply(db, op), SetSha(sha)), Apply(db, SetSha(sha)), spot, query)
  {
    match op
    case CacheDefinition(at, target) =>
      SelectElsewhere(db.definitions, Key(at), db.sha, Stored([target]), Key(spot), sha);
    case CacheReferences(at, locations) =>
      SelectElsewhere(db.references, Key(at), db.sha, Stored(locations), Key(spot), sha);
    case CacheSymbols(q, symbols) =>
      ReplacedElsewhere(db.symbols, q, db.sha, StoredSymbols(symbols), query, sha);
    case _ =>
  }

  // Going to another SHA and back changes nothing.
  lemma ShaComesBack(db: Db, sha: string)
    ensures Apply(Apply(db, SetSha(sha)), SetSha(db.sha)) == db
  {
  }

  // A closed database, or no SHA: nothing is stored and nothing answered.
  lemma DeadCacheIsSilent(db: Db, op: Op, spot: Spot, query: string)
    requires !db.isOpen || db.sha == ""
    ensures Caches(op) ==> Apply(db, op) == db
    ensures Definitions(db, spot) == None && References(db, spot) == None && WorkspaceSymbols(db, query) == None
    ensures !db.isOpen && !op.SetSha? ==> Apply(db, op) == db
  {
  }

  // Clearing the other SHAs keeps what was answered at this one, and no more.
  lemma OtherShasAreCleared(db: Db, sha: string, at: string, spot: Spot, query: string)
    requires db.isOpen
    ensures
      var now := Apply(Apply(db, InvalidateOthers(sha)), SetSha(at));
      if at == sha then SameAnswers(now, Apply(db, SetSha(at)), spot, query)
      else Definitions(now, spot) == None && References(now, spot) == None && WorkspaceSymbols(now, query) == None
  {
    SelectDelete(db.definitions, OtherThan(sha), Key(spot), at);
    SelectDelete(db.references, OtherThan(sha), Key(spot), at);
    SelectDelete(db.symbols, OtherThan(sha), query, at);
  }

  // Some row stored for the place, at whatever SHA, points into the file.
  ghost predicate RowPoints(rows: seq<Row<Spot, Extent>>, spot: Spot, f: string) {
    exists i ::
      && 0 <= i < |rows| && rows[i].file == f
      && rows[i].key.line == spot.line && rows[i].key.character == spot.character && rows[i].key.file == StripScheme(spot.file)
  }

  ghost predicate QueryPoints(rows: seq<Row<string, Details>>, query: string, f: string) {
    exists i :: 0 <= i < |rows| && rows[i].file == f && rows[i].key == query
  }

  lemma SelectInvalidated<K(!new), A(!new)>(rows: seq<Row<K, A>>, f: string, asked: K -> bool, k: K, s: string)
    ensures Select(Invalidate(rows, f, asked), k, s) == if asked(k) || k in KeysInto(rows, f) then [] else Select(rows, k, s)
  {
    InvalidateWholeOrGone(rows, f, asked, k, s);
    KeysIntoPoint(rows, f, k);
  }

  lemma KeysIntoIs(rows: seq<Row<Spot, Extent>>, spot: Spot, f: string)
    ensures Key(spot) in KeysInto(rows, f) <==> RowPoints(rows, spot, f)
  {
    if RowPoints(rows, spot, f) {
      var i :|
        && 0 <= i < |rows| && rows[i].file == f
        && rows[i].key.line == spot.line && rows[i].key.character == spot.character && rows[i].key.file == StripScheme(spot.file);
      assert rows[i].key == Key(spot);
    }
  }

  lemma PlaceInvalidated(rows: seq<Row<Spot, Extent>>, f: string, spot: Spot, sha: string)
    ensures Select(Invalidate(rows, f, AskedFrom(f)), Key(spot), sha)
         == if StripScheme(spot.file) == f || RowPoints(rows, spot, f) then [] else Select(rows, Key(spot), sha)
  {
    SelectInvalidated(rows, f, AskedFrom(f), Key(spot), sha);
    KeysIntoIs(rows, spot, f);
  }

  lemma QueryInvalidated(rows: seq<Row<string, Details>>, f: string, query: string, sha: string)
    ensures Select(Invalidate(rows, f, Never()), query, sha)
         == if QueryPoints(rows, query, f) then [] else Select(rows, query, sha)
  {
    SelectInvalidated(rows, f, Never(), query, sha);
  }

  // An invalidation takes exactly the answers asked from the file and those with a
  // row in it, and leaves every other answer as it was.
  lemma DefinitionsInvalidated(db: Db, file: string, spot: Spot)
    requires db.isOpen
    ensures
      var f := StripScheme(file);
      Definitions(Apply(db, InvalidateFile(file)), spot)
      == if StripScheme(spot.file) == f || RowPoints(db.definitions, spot, f) then None else Definitions(db, spot)
  {
    PlaceInvalidated(db.definitions, StripScheme(file), spot, db.sha);
  }

  lemma ReferencesInvalidated(db: Db, file: string, spot: Spot)
    requires db.isOpen
    ensures
      var f := StripScheme(file);
      References(Apply(db, InvalidateFile(file)), spot)
      == if StripScheme(spot.file) == f || RowPoints(db.references, spot, f) then None else References(db, spot)
  {
    PlaceInvalidated(db.references, StripScheme(file), spot, db.sha);
  }

  lemma SymbolsInvalidated(db: Db, file: string, query: string)
    requires db.isOpen
    ensures WorkspaceSymbols(Apply(db, InvalidateFile(file)), query)
         == if QueryPoints(db.symbols, query, StripScheme(file)) then None else WorkspaceSymbols(db, query)
  {
    QueryInvalidated(db.symbols, StripScheme(file), query, db.sha);
  }
}
