/**
 * The SQL-row cache of language-server answers: definitions, references and
 * workspace symbols, each answer stored under the current commit's SHA.
 */
module LspCache {
  import opened Wrappers
  import opened Paths
  import opened RowTable

  datatype Spot = Spot(file: string, line: int, character: int)
  datatype Extent = Extent(startLine: int, startCharacter: int, endLine: int, endCharacter: int)
  datatype Location = Location(uri: string, extent: Extent)
  datatype Details = Details(name: string, kind: string, container: string, extent: Extent)
  datatype Symbol = Symbol(filePath: string, details: Details, gitSha: string)

  function Stored(locations: seq<Location>): seq<Hit<Extent>> {
    seq(|locations|, i requires 0 <= i < |locations| => Hit(StripScheme(locations[i].uri), locations[i].extent))
  }

  function Located(hits: seq<Hit<Extent>>): seq<Location> {
    seq(|hits|, i requires 0 <= i < |hits| => Location(SCHEME + hits[i].file, hits[i].payload))
  }

  function StoredSymbols(symbols: seq<Symbol>): seq<Hit<Details>> {
    seq(|symbols|, i requires 0 <= i < |symbols| => Hit(StripScheme(symbols[i].filePath), symbols[i].details))
  }

  function Listed(hits: seq<Hit<Details>>, sha: string): seq<Symbol> {
    seq(|hits|, i requires 0 <= i < |hits| => Symbol(hits[i].file, hits[i].payload, sha))
  }

  // The three tables as values.
  datatype Db = Db(
    isOpen: bool, sha: string,
    definitions: seq<Row<Spot, Extent>>, references: seq<Row<Spot, Extent>>, symbols: seq<Row<string, Details>>)
  {
    predicate Live() { isOpen && sha != "" }
  }

  datatype Op =
    | SetSha(sha: string)
    | CacheDefinition(spot: Spot, target: Location)
    | CacheReferences(spot: Spot, references: seq<Location>)
    | CacheSymbols(query: string, symbols: seq<Symbol>)
    | InvalidateFile(file: string)
    | InvalidateOthers(sha: string)

  function Key(spot: Spot): Spot { spot.(file := StripScheme(spot.file)) }

  function Apply(db: Db, op: Op): Db {
    match op
    case SetSha(sha) => db.(sha := sha)
    case CacheDefinition(spot, target) =>
      if !db.Live() then db
      else db.(definitions := Insert(db.definitions, Key(spot), db.sha, Stored([target])))
    case CacheReferences(spot, references) =>
      if !db.Live() then db
      else db.(references := Insert(db.references, Key(spot), db.sha, Stored(references)))
    case CacheSymbols(query, symbols) =>
      if !db.Live() then db
      else
        var left := Delete(db.symbols, Exactly(query, db.sha));
        db.(symbols := Insert(left, query, db.sha, StoredSymbols(symbols)))
    case InvalidateFile(file) =>
      if !db.isOpen then db
      else
        var f := StripScheme(file);
        db.(definitions := Invalidate(db.definitions, f, AskedFrom(f)),
            references := Invalidate(db.references, f, AskedFrom(f)),
            symbols := Invalidate(db.symbols, f, Never()))
    case InvalidateOthers(sha) =>
      if !db.isOpen then db
      else
        db.(definitions := Delete(db.definitions, OtherThan(sha)),
            references := Delete(db.references, OtherThan(sha)),
            symbols := Delete(db.symbols, OtherThan(sha)))
  }

  function Run(db: Db, ops: seq<Op>): Db {
    if ops == [] then db else Apply(Run(db, ops[..|ops| - 1]), ops[|ops| - 1])
  }

  // The conditions of the DELETE statements.
  function Exactly<K(==)>(key: K, sha: string): (K, string) -> bool { (k, s) => k == key && s == sha }

  function OtherThan<K>(sha: string): (K, string) -> bool { (k, s) => s != sha }

  function AskedFrom(f: string): Spot -> bool { (k: Spot) => k.file == f }

  function Never(): string -> bool { k => false }

  class Cache {
    const isOpen: bool
    var currentGitSha: string
    var definitions: seq<Row<Spot, Extent>>
    var references: seq<Row<Spot, Extent>>
    var symbols: seq<Row<string, Details>>

    ghost function Value(): Db
      reads this
    {
      Db(isOpen, currentGitSha, definitions, references, symbols)
    }

    constructor (isOpen: bool)
      ensures Value() == Db(isOpen, "", [], [], [])
    {
      this.isOpen, currentGitSha, definitions, references, symbols := isOpen, "", [], [], [];
    }

    method SetCurrentGitSha(sha: string)
      modifies this
      ensures Value() == Apply(old(Value()), SetSha(sha))
    {
      currentGitSha := sha;
    }

    method AddDefinition(spot: Spot, target: Location)
      modifies this
      ensures Value() == Apply(old(Value()), CacheDefinition(spot, target))
    {
      if !isOpen || currentGitSha == "" { return; }
      definitions := definitions + [Row(Key(spot), currentGitSha, StripScheme(target.uri), target.extent)];
    }

    method AddReferences(spot: Spot, locations: seq<Location>)
      modifies this
      ensures Value() == Apply(old(Value()), CacheReferences(spot, locations))
    {
      if !isOpen || currentGitSha == "" { return; }
      for i := 0 to |locations|
        invariant Value() == old(Value()).(references := references)
        invariant references == Insert(old(references), Key(spot), currentGitSha, Stored(locations)[..i])
      {
        InsertSnoc(old(references), Key(spot), currentGitSha, Stored(locations), i);
        references :=
          references + [Row(Key(spot), currentGitSha, StripScheme(locations[i].uri), locations[i].extent)];
      }
      assert Stored(locations)[..|locations|] == Stored(locations);
    }

    method ReplaceSymbols(query: string, found: seq<Symbol>)
      modifies this
      ensures Value() == Apply(old(Value()), CacheSymbols(query, found))
    {
      if !isOpen || currentGitSha == "" { return; }
      var sha := currentGitSha;
      symbols := Delete(symbols, Exactly(query, sha));
      ghost var left := symbols;
      for i := 0 to |found|
        invariant Value() == old(Value()).(symbols := symbols)
        invariant symbols == Insert(left, query, sha, StoredSymbols(found)[..i])
      {
        InsertSnoc(left, query, sha, StoredSymbols(found), i);
        symbols := symbols + [Row(query, sha, StripScheme(found[i].filePath), found[i].details)];
      }
      assert StoredSymbols(found)[..|found|] == StoredSymbols(found);
    }

    method ForgetFile(file: string)
      modifies this
      ensures Value() == Apply(old(Value()), InvalidateFile(file))
    {
      if !isOpen { return; }
      var f := StripScheme(file);
      definitions := Invalidate(definitions, f, AskedFrom(f));
      references := Invalidate(references, f, AskedFrom(f));
      symbols := Invalidate(symbols, f, Never());
    }

    method ForgetOtherShas(sha: string)
      modifies this
      ensures Value() == Apply(old(Value()), InvalidateOthers(sha))
    {
      if !isOpen { return; }
      definitions := Delete(definitions, OtherThan(sha));
      references := Delete(references, OtherThan(sha));
      symbols := Delete(symbols, OtherThan(sha));
    }

    method GetDefinitions(spot: Spot) returns (r: Option<seq<Location>>)
      ensures r == Definitions(Value(), spot)
    {
      if !isOpen || currentGitSha == "" { return None; }
      var results := Collect(definitions, Key(spot), currentGitSha);
      r := if results == [] then None else Some(results);
    }

    method GetReferences(spot: Spot) returns (r: Option<seq<Location>>)
      ensures r == References(Value(), spot)
    {
      if !isOpen || currentGitSha == "" { return None; }
      var results := Collect(references, Key(spot), currentGitSha);
      r := if results == [] then None else Some(results);
    }

    method GetSymbols(query: string) returns (r: Option<seq<Symbol>>)
      ensures r == WorkspaceSymbols(Value(), query)
    {
      if !isOpen || currentGitSha == "" { return None; }
      var results: seq<Symbol> := [];
      for i := 0 to |symbols|
        invariant results == Listed(Select(symbols[..i], query, currentGitSha), currentGitSha)
      {
        assert symbols[..i + 1][..i] == symbols[..i];
        if symbols[i].key == query && symbols[i].sha == currentGitSha {
          results := results + [Symbol(symbols[i].file, symbols[i].payload, currentGitSha)];
        }
      }
      assert symbols[..|symbols|] == symbols;
      r := if results == [] then None else Some(results);
    }
  }

  // Stepping through a SELECT on a location table.
  method Collect(rows: seq<Row<Spot, Extent>>, key: Spot, sha: string) returns (results: seq<Location>)
    ensures results == Located(Select(rows, key, sha))
  {
    results := [];
    for i := 0 to |rows|
      invariant results == Located(Select(rows[..i], key, sha))
    {
      assert rows[..i + 1][..i] == rows[..i];
      if rows[i].key == key && rows[i].sha == sha {
        results := results + [Location(SCHEME + rows[i].file, rows[i].payload)];
      }
    }
    assert rows[..|rows|] == rows;
  }

  function Definitions(db: Db, spot: Spot): Option<seq<Location>> {
    var hits := Select(db.definitions, Key(spot), db.sha);
    if !db.Live() || hits == [] then None else Some(Located(hits))
  }

  function References(db: Db, spot: Spot): Option<seq<Location>> {
    var hits := Select(db.references, Key(spot), db.sha);
    if !db.Live() || hits == [] then None else Some(Located(hits))
  }

  function WorkspaceSymbols(db: Db, query: string): Option<seq<Symbol>> {
    var hits := Select(db.symbols, query, db.sha);
    if !db.Live() || hits == [] then None else Some(Listed(hits, db.sha))
  }

  // The reference: the same operations on maps from (key, SHA) to answers.
  datatype Store = Store(
    isOpen: bool, sha: string,
    definitions: Answers<Spot, Extent>, references: Answers<Spot, Extent>, symbols: Answers<string, Details>)
  {
    predicate Live() { isOpen && sha != "" }
  }

  ghost function MapApply(st: Store, op: Op): Store {
    match op
    case SetSha(sha) => st.(sha := sha)
    case CacheDefinition(spot, target) =>
      if !st.Live() then st
      else st.(definitions := Add(st.definitions, Key(spot), st.sha, multiset(Stored([target]))))
    case CacheReferences(spot, references) =>
      if !st.Live() then st
      else st.(references := Add(st.references, Key(spot), st.sha, multiset(Stored(references))))
    case CacheSymbols(query, symbols) =>
      if !st.Live() then st
      else st.(symbols := Add(st.symbols - {(query, st.sha)}, query, st.sha, multiset(StoredSymbols(symbols))))
    case InvalidateFile(file) =>
      if !st.isOpen then st
      else
        var f := StripScheme(file);
        st.(definitions := Forget(st.definitions, f, AskedFrom(f)),
            references := Forget(st.references, f, AskedFrom(f)),
            symbols := Forget(st.symbols, f, Never()))
    case InvalidateOthers(sha) =>
      if !st.isOpen then st
      else
        st.(definitions := OfSha(st.definitions, sha),
            references := OfSha(st.references, sha),
            symbols := OfSha(st.symbols, sha))
  }

  ghost function OfSha<K, A>(m: Answers<K, A>, sha: string): Answers<K, A> {
    map ks | ks in m && ks.1 == sha :: m[ks]
  }

  ghost function MapRun(st: Store, ops: seq<Op>): Store {
    if ops == [] then st else MapApply(MapRun(st, ops[..|ops| - 1]), ops[|ops| - 1])
  }

  ghost function Abstract(db: Db): Store {
    Store(db.isOpen, db.sha, View(db.definitions), View(db.references), View(db.symbols))
  }

  lemma WithoutOne<K(!new), A(!new)>(m: Answers<K, A>, key: K, sha: string)
    ensures Without(m, Exactly(key, sha)) == m - {(key, sha)}
  {
    forall ks: (K, string)
      ensures ks in Without(m, Exactly(key, sha)) <==> ks in m - {(key, sha)}
    {
      assert ks == (ks.0, ks.1);
    }
  }

  lemma DeleteExactly<K(!new), A(!new)>(rows: seq<Row<K, A>>, key: K, sha: string)
    ensures View(Delete(rows, Exactly(key, sha))) == View(rows) - {(key, sha)}
  {
    DeleteRefines(rows, Exactly(key, sha));
    WithoutOne(View(rows), key, sha);
  }

  lemma SymbolsRefine(db: Db, query: string, symbols: seq<Symbol>)
    requires db.Live()
    ensures Abstract(Apply(db, CacheSymbols(query, symbols))) == MapApply(Abstract(db), CacheSymbols(query, symbols))
  {
    var sha := db.sha;
    DeleteExactly(db.symbols, query, sha);
    InsertRefines(Delete(db.symbols, Exactly(query, sha)), query, sha, StoredSymbols(symbols));
  }

  lemma OthersRefine<K(!new), A(!new)>(rows: seq<Row<K, A>>, sha: string)
    ensures View(Delete(rows, OtherThan(sha))) == OfSha(View(rows), sha)
  {
    DeleteRefines(rows, OtherThan(sha));
    assert Without(View(rows), OtherThan(sha)) == OfSha(View(rows), sha);
  }

  lemma ApplyRefines(db: Db, op: Op)
    ensures Abstract(Apply(db, op)) == MapApply(Abstract(db), op)
  {
    match op
    case SetSha(_) =>
    case CacheDefinition(spot, target) => InsertRefines(db.definitions, Key(spot), db.sha, Stored([target]));
    case CacheReferences(spot, references) => InsertRefines(db.references, Key(spot), db.sha, Stored(references));
    case CacheSymbols(query, symbols) =>
      if db.Live() { SymbolsRefine(db, query, symbols); }
    case InvalidateFile(file) =>
      var f := StripScheme(file);
      InvalidateRefines(db.definitions, f, AskedFrom(f));
      InvalidateRefines(db.references, f, AskedFrom(f));
      InvalidateRefines(db.symbols, f, Never());
    case InvalidateOthers(sha) =>
      OthersRefine(db.definitions, sha);
      OthersRefine(db.references, sha);
      OthersRefine(db.symbols, sha);
  }

  // Every history: the rows are the map the reference holds.
  lemma {:induction false} RunRefines(db: Db, ops: seq<Op>)
    ensures Abstract(Run(db, ops)) == MapRun(Abstract(db), ops)
  {
    if ops != [] {
      RunRefines(db, ops[..|ops| - 1]);
      ApplyRefines(Run(db, ops[..|ops| - 1]), ops[|ops| - 1]);
    }
  }

  // What a lookup must return: the answer as a multiset, none for no answer.
  ghost predicate Returns(r: Option<seq<Location>>, answer: multiset<Hit<Extent>>) {
    (r.None? <==> answer == multiset{})
    && (r.Some? ==> (forall l :: l in r.value ==> SCHEME <= l.uri) && multiset(Stored(r.value)) == answer)
  }

  ghost predicate ReturnsSymbols(r: Option<seq<Symbol>>, answer: multiset<Hit<Details>>, sha: string) {
    (r.None? <==> answer == multiset{})
    && (r.Some? ==> exists hits :: multiset(hits) == answer && r.value == Listed(hits, sha))
  }

  lemma LocatedReturns(hits: seq<Hit<Extent>>)
    ensures Returns(if hits == [] then None else Some(Located(hits)), multiset(hits))
  {
    assert Stored(Located(hits)) == hits;
    if hits != [] { assert hits[0] in multiset(hits); }
  }

  // Every lookup after every history, from any database, answers as the map does.
  lemma LookupsRefine(db: Db, ops: seq<Op>, spot: Spot, query: string)
    ensures var now, st := Run(db, ops), MapRun(Abstract(db), ops);
      && now.Live() == st.Live() && now.sha == st.sha
      && (now.Live() ==>
            && Returns(Definitions(now, spot), Answer(st.definitions, Key(spot), st.sha))
            && Returns(References(now, spot), Answer(st.references, Key(spot), st.sha))
            && ReturnsSymbols(WorkspaceSymbols(now, query), Answer(st.symbols, query, st.sha), st.sha))
      && (!now.Live() ==>
            Definitions(now, spot) == None && References(now, spot) == None && WorkspaceSymbols(now, query) == None)
  {
    var now := Run(db, ops);
    RunRefines(db, ops);
    ViewAnswers(now.definitions, Key(spot), now.sha);
    ViewAnswers(now.references, Key(spot), now.sha);
    ViewAnswers(now.symbols, query, now.sha);
    LocatedReturns(Select(now.definitions, Key(spot), now.sha));
    LocatedReturns(Select(now.references, Key(spot), now.sha));
    var hits := Select(now.symbols, query, now.sha);
    if hits != [] { assert hits[0] in multiset(hits); }
  }

  // A location comes back as it was cached exactly when its URI has the scheme.
  lemma UrisRoundTrip(locations: seq<Location>)
    ensures Located(Stored(locations)) == locations <==> (forall l :: l in locations ==> SCHEME <= l.uri)
  {
    var back := Located(Stored(locations));
    if back == locations {
      forall l | l in locations
        ensures SCHEME <= l.uri
      {
        var i :| 0 <= i < |locations| && locations[i] == l;
        assert back[i].uri == SCHEME + StripScheme(locations[i].uri);
      }
    }
    if forall l :: l in locations ==> SCHEME <= l.uri {
      forall i | 0 <= i < |locations|
        ensures back[i] == locations[i]
      {
        assert locations[i] in locations;
      }
    }
  }

  // Caching appends to what is stored for the spot at the current SHA: it is
  // read back alone exactly when nothing was stored there before.
  lemma AppendIsRead(rows: seq<Row<Spot, Extent>>, key: Spot, sha: string, locations: seq<Location>)
    requires forall l :: l in locations ==> SCHEME <= l.uri
    ensures Located(Select(Insert(rows, key, sha, Stored(locations)), key, sha))
         == Located(Select(rows, key, sha)) + locations
  {
    SelectInsert(rows, key, sha, Stored(locations), key, sha);
    UrisRoundTrip(locations);
    var was, hits := Select(rows, key, sha), Stored(locations);
    assert Located(was + hits) == Located(was) + Located(hits);
  }

  function OrEmpty<T>(r: Option<seq<T>>): seq<T> {
    if r.Some? then r.value else []
  }

  lemma ReferencesAreRead(db: Db, spot: Spot, locations: seq<Location>)
    requires db.Live() && forall l :: l in locations ==> SCHEME <= l.uri
    ensures OrEmpty(References(Apply(db, CacheReferences(spot, locations)), spot))
         == OrEmpty(References(db, spot)) + locations
  {
    AppendIsRead(db.references, Key(spot), db.sha, locations);
  }

  lemma DefinitionIsRead(db: Db, spot: Spot, target: Location)
    requires db.Live() && SCHEME <= target.uri
    ensures OrEmpty(Definitions(Apply(db, CacheDefinition(spot, target)), spot))
         == OrEmpty(Definitions(db, spot)) + [target]
  {
    AppendIsRead(db.definitions, Key(spot), db.sha, [target]);
  }

  // A symbol as it comes back: its path without the scheme, the SHA it was found under.
  function Stamped(symbol: Symbol, sha: string): Symbol {
    symbol.(filePath := StripScheme(symbol.filePath), gitSha := sha)
  }

  lemma SymbolsRoundTrip(symbols: seq<Symbol>, sha: string)
    ensures |Listed(StoredSymbols(symbols), sha)| == |symbols|
    ensures forall i :: 0 <= i < |symbols| ==> Listed(StoredSymbols(symbols), sha)[i] == Stamped(symbols[i], sha)
  {
  }

  lemma ReplacedSelects<A>(rows: seq<Row<string, A>>, query: string, sha: string, hits: seq<Hit<A>>)
    ensures Select(Insert(Delete(rows, Exactly(query, sha)), query, sha, hits), query, sha) == hits
  {
    SelectDelete(rows, Exactly(query, sha), query, sha);
    SelectInsert(Delete(rows, Exactly(query, sha)), query, sha, hits, query, sha);
  }

  // Caching a query replaces its answer at the current SHA.
  lemma SymbolsAreRead(db: Db, query: string, symbols: seq<Symbol>)
    requires db.Live()
    ensures var r := OrEmpty(WorkspaceSymbols(Apply(db, CacheSymbols(query, symbols)), query));
      |r| == |symbols| && forall i :: 0 <= i < |r| ==> r[i] == Stamped(symbols[i], db.sha)
  {
    ReplacedSelects(db.symbols, query, db.sha, StoredSymbols(symbols));
    SymbolsRoundTrip(symbols, db.sha);
  }

  // Nothing the operation caches was asked from f or points into f.
  ghost predicate Spares(op: Op, f: string) {
    match op
    case CacheDefinition(spot, target) => StripScheme(spot.file) != f && StripScheme(target.uri) != f
    case CacheReferences(spot, references) =>
      references != [] ==>
        StripScheme(spot.file) != f && forall l :: l in references ==> StripScheme(l.uri) != f
    case CacheSymbols(_, symbols) => forall s :: s in symbols ==> StripScheme(s.filePath) != f
    case _ => true
  }

  ghost predicate Clean(st: Store, f: string) {
    && FreeOf(st.definitions, f, AskedFrom(f))
    && FreeOf(st.references, f, AskedFrom(f))
    && FreeOf(st.symbols, f, Never())
  }

  lemma StoredSpares(locations: seq<Location>, f: string)
    requires forall l :: l in locations ==> StripScheme(l.uri) != f
    ensures !Points(multiset(Stored(locations)), f)
  {
    forall h | h in multiset(Stored(locations))
      ensures h.file != f
    {
      var i :| 0 <= i < |locations| && Stored(locations)[i] == h;
      assert locations[i] in locations;
    }
  }

  lemma StoredSymbolsSpares(symbols: seq<Symbol>, f: string)
    requires forall s :: s in symbols ==> StripScheme(s.filePath) != f
    ensures !Points(multiset(StoredSymbols(symbols)), f)
  {
    forall h | h in multiset(StoredSymbols(symbols))
      ensures h.file != f
    {
      var i :| 0 <= i < |symbols| && StoredSymbols(symbols)[i] == h;
      assert symbols[i] in symbols;
    }
  }

  lemma SparingKeepsClean(st: Store, op: Op, f: string)
    requires Clean(st, f) && Spares(op, f)
    ensures Clean(MapApply(st, op), f)
  {
    match op
    case CacheDefinition(spot, target) =>
      StoredSpares([target], f);
      AddKeepsFree(st.definitions, Key(spot), st.sha, multiset(Stored([target])), f, AskedFrom(f));
    case CacheReferences(spot, references) =>
      if references != [] {
        StoredSpares(references, f);
        AddKeepsFree(st.references, Key(spot), st.sha, multiset(Stored(references)), f, AskedFrom(f));
      }
    case CacheSymbols(query, symbols) =>
      StoredSymbolsSpares(symbols, f);
      AddKeepsFree(st.symbols - {(query, st.sha)}, query, st.sha, multiset(StoredSymbols(symbols)), f, Never());
    case _ =>
  }

  lemma {:induction false} RunStaysClean(st: Store, ops: seq<Op>, f: string)
    requires Clean(st, f) && forall i :: 0 <= i < |ops| ==> Spares(ops[i], f)
    ensures Clean(MapRun(st, ops), f)
  {
    if ops != [] {
      RunStaysClean(st, ops[..|ops| - 1], f);
      SparingKeepsClean(MapRun(st, ops[..|ops| - 1]), ops[|ops| - 1], f);
    }
  }

  // What the lookups of a database free of f return.
  ghost predicate AnswersWithout(now: Db, f: string, spot: Spot, query: string) {
    && (StripScheme(spot.file) == f ==> Definitions(now, spot) == None && References(now, spot) == None)
    && (Definitions(now, spot).Some? ==> forall l :: l in Definitions(now, spot).value ==> l.uri != SCHEME + f)
    && (References(now, spot).Some? ==> forall l :: l in References(now, spot).value ==> l.uri != SCHEME + f)
    && (WorkspaceSymbols(now, query).Some? ==> forall s :: s in WorkspaceSymbols(now, query).value ==> s.filePath != f)
  }

  lemma InvalidateCleans(db: Db, file: string)
    requires db.isOpen
    ensures Clean(Abstract(Apply(db, InvalidateFile(file))), StripScheme(file))
  {
    var f := StripScheme(file);
    ApplyRefines(db, InvalidateFile(file));
    ForgetFrees(View(db.definitions), f, AskedFrom(f));
    ForgetFrees(View(db.references), f, AskedFrom(f));
    ForgetFrees(View(db.symbols), f, Never());
  }

  lemma LocatedAvoids(hits: seq<Hit<Extent>>, f: string)
    requires forall h :: h in hits ==> h.file != f
    ensures forall l :: l in Located(hits) ==> l.uri != SCHEME + f
  {
    forall l | l in Located(hits)
      ensures l.uri != SCHEME + f
    {
      var i :| 0 <= i < |hits| && Located(hits)[i] == l;
      assert hits[i] in hits;
      assert l.uri[|SCHEME|..] == hits[i].file;
      assert (SCHEME + f)[|SCHEME|..] == f;
    }
  }

  lemma CleanAnswersWithout(now: Db, f: string, spot: Spot, query: string)
    requires Clean(Abstract(now), f)
    ensures AnswersWithout(now, f, spot, query)
  {
    FreeLookup(now.definitions, Key(spot), now.sha, f, AskedFrom(f));
    FreeLookup(now.references, Key(spot), now.sha, f, AskedFrom(f));
    FreeLookup(now.symbols, query, now.sha, f, Never());
    LocatedAvoids(Select(now.definitions, Key(spot), now.sha), f);
    LocatedAvoids(Select(now.references, Key(spot), now.sha), f);
  }

  // From an invalidation on, until something naming the file is cached again,
  // no lookup at any SHA answers from the file or with a place in it.
  lemma InvalidatedStaysGone(db: Db, file: string, ops: seq<Op>, spot: Spot, query: string)
    requires db.isOpen
    requires forall i :: 0 <= i < |ops| ==> Spares(ops[i], StripScheme(file))
    ensures AnswersWithout(Run(Apply(db, InvalidateFile(file)), ops), StripScheme(file), spot, query)
  {
    var f, start := StripScheme(file), Apply(db, InvalidateFile(file));
    InvalidateCleans(db, file);
    RunStaysClean(Abstract(start), ops, f);
    RunRefines(start, ops);
    CleanAnswersWithout(Run(start, ops), f, spot, query);
  }

  lemma FreeLookup<K(!new), A(!new)>(rows: seq<Row<K, A>>, k: K, s: string, f: string, asked: K -> bool)
    requires FreeOf(View(rows), f, asked)
    ensures asked(k) ==> Select(rows, k, s) == []
    ensures forall h :: h in Select(rows, k, s) ==> h.file != f
  {
    ViewAnswers(rows, k, s);
    forall h | h in Select(rows, k, s)
      ensures h.file != f
    {
      assert (k, s) in View(rows);
      assert h in View(rows)[(k, s)];
    }
  }
}
