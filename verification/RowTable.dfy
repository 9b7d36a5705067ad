/**
 * One on-demand table of the cache: rows inserted one by one, deleted by a
 * condition on their key and SHA, selected by key and SHA. The table is proved
 * to be a map from (key, SHA) to answers.
 */
module RowTable {
  datatype Row<K, A> = Row(key: K, sha: string, file: string, payload: A)

  // What a SELECT returns of a row: the file it points into, and the rest.
  datatype Hit<A> = Hit(file: string, payload: A)

  // SELECT file, payload WHERE key = ? AND git_sha = ?
  function Select<K(==), A>(rows: seq<Row<K, A>>, key: K, sha: string): seq<Hit<A>> {
    if rows == [] then []
    else
      var r := rows[|rows| - 1];
      Select(rows[..|rows| - 1], key, sha)
      + (if r.key == key && r.sha == sha then [Hit(r.file, r.payload)] else [])
  }

  // INSERT, once per hit.
  function Insert<K, A>(rows: seq<Row<K, A>>, key: K, sha: string, hits: seq<Hit<A>>): seq<Row<K, A>> {
    rows + seq(|hits|, i requires 0 <= i < |hits| => Row(key, sha, hits[i].file, hits[i].payload))
  }

  lemma InsertSnoc<K, A>(rows: seq<Row<K, A>>, key: K, sha: string, hits: seq<Hit<A>>, i: nat)
    requires i < |hits|
    ensures Insert(rows, key, sha, hits[..i + 1])
         == Insert(rows, key, sha, hits[..i]) + [Row(key, sha, hits[i].file, hits[i].payload)]
  {
    assert hits[..i + 1][..i] == hits[..i];
  }

  // DELETE of the rows whose key and SHA are doomed.
  function Delete<K, A>(rows: seq<Row<K, A>>, doomed: (K, string) -> bool): seq<Row<K, A>> {
    if rows == [] then []
    else
      var r := rows[|rows| - 1];
      Delete(rows[..|rows| - 1], doomed) + (if doomed(r.key, r.sha) then [] else [r])
  }

  // The subselect of the invalidation: keys of rows pointing into f, whatever their SHA.
  function KeysInto<K(==), A>(rows: seq<Row<K, A>>, f: string): set<K> {
    set i | 0 <= i < |rows| && rows[i].file == f :: rows[i].key
  }

  // DELETE WHERE asked-from-f OR key IN (SELECT key WHERE file = f)
  function Invalidate<K(==), A>(rows: seq<Row<K, A>>, f: string, asked: K -> bool): seq<Row<K, A>> {
    var into := KeysInto(rows, f);
    Delete(rows, (k, s) => asked(k) || k in into)
  }

  // The reference: a map from (key, SHA) to the answer stored under it.
  type Answers<K(==), A(==)> = map<(K, string), multiset<Hit<A>>>

  ghost function Answer<K, A>(m: Answers<K, A>, key: K, sha: string): multiset<Hit<A>> {
    if (key, sha) in m then m[(key, sha)] else multiset{}
  }

  ghost function Add<K, A>(m: Answers<K, A>, key: K, sha: string, hits: multiset<Hit<A>>): Answers<K, A> {
    if hits == multiset{} then m else m[(key, sha) := Answer(m, key, sha) + hits]
  }

  ghost function Without<K, A>(m: Answers<K, A>, doomed: (K, string) -> bool): Answers<K, A> {
    map ks | ks in m && !doomed(ks.0, ks.1) :: m[ks]
  }

  ghost predicate Points<A(!new)>(hits: multiset<Hit<A>>, f: string) {
    exists h :: h in hits && h.file == f
  }

  ghost predicate KeyPoints<K(!new), A(!new)>(m: Answers<K, A>, key: K, f: string) {
    exists sha :: (key, sha) in m && Points(m[(key, sha)], f)
  }

  // Each answer is kept whole, or is gone.
  ghost function Forget<K(!new), A(!new)>(m: Answers<K, A>, f: string, asked: K -> bool): Answers<K, A> {
    map ks | ks in m && !asked(ks.0) && !KeyPoints(m, ks.0, f) :: m[ks]
  }

  ghost function View<K, A>(rows: seq<Row<K, A>>): Answers<K, A> {
    map ks | ks in set i | 0 <= i < |rows| :: (rows[i].key, rows[i].sha) :: multiset(Select(rows, ks.0, ks.1))
  }

  lemma {:induction false} SelectFinds<K, A>(rows: seq<Row<K, A>>, key: K, sha: string)
    ensures forall i :: 0 <= i < |rows| && rows[i].key == key && rows[i].sha == sha ==>
      Hit(rows[i].file, rows[i].payload) in Select(rows, key, sha)
    ensures forall h :: h in Select(rows, key, sha) ==>
      exists i :: 0 <= i < |rows| && rows[i] == Row(key, sha, h.file, h.payload)
  {
    if rows != [] {
      var init := rows[..|rows| - 1];
      SelectFinds(init, key, sha);
      forall h | h in Select(rows, key, sha)
        ensures exists i :: 0 <= i < |rows| && rows[i] == Row(key, sha, h.file, h.payload)
      {
        if h in Select(init, key, sha) {
          var i :| 0 <= i < |init| && init[i] == Row(key, sha, h.file, h.payload);
          assert rows[i] == init[i];
        } else {
          assert rows[|rows| - 1] == Row(key, sha, h.file, h.payload);
        }
      }
    }
  }

  // The map answers what the SELECT answers; nothing stored is nothing mapped.
  lemma ViewAnswers<K, A>(rows: seq<Row<K, A>>, key: K, sha: string)
    ensures Answer(View(rows), key, sha) == multiset(Select(rows, key, sha))
    ensures (key, sha) in View(rows) <==> Select(rows, key, sha) != []
  {
    SelectFinds(rows, key, sha);
    if Select(rows, key, sha) != [] {
      var h := Select(rows, key, sha)[0];
      var i :| 0 <= i < |rows| && rows[i] == Row(key, sha, h.file, h.payload);
      assert (rows[i].key, rows[i].sha) in View(rows);
    }
  }

  // Two maps holding no empty answer are equal when they answer alike.
  lemma Extensional<K(!new), A(!new)>(m: Answers<K, A>, n: Answers<K, A>)
    requires multiset{} !in m.Values && multiset{} !in n.Values
    requires forall k, s :: Answer(m, k, s) == Answer(n, k, s)
    ensures m == n
  {
    forall ks: (K, string)
      ensures ks in m <==> ks in n
      ensures ks in m ==> m[ks] == n[ks]
    {
      assert Answer(m, ks.0, ks.1) == Answer(n, ks.0, ks.1);
      assert ks == (ks.0, ks.1);
      if ks in m { assert m[ks] in m.Values; }
      if ks in n { assert n[ks] in n.Values; }
    }
  }

  lemma ViewHoldsNoEmpty<K, A>(rows: seq<Row<K, A>>)
    ensures multiset{} !in View(rows).Values
  {
    forall ks | ks in View(rows)
      ensures View(rows)[ks] != multiset{}
    {
      ViewAnswers(rows, ks.0, ks.1);
      assert ks == (ks.0, ks.1);
      assert Select(rows, ks.0, ks.1)[0] in multiset(Select(rows, ks.0, ks.1));
    }
  }

  lemma {:induction false} SelectInsert<K, A>(rows: seq<Row<K, A>>, key: K, sha: string, hits: seq<Hit<A>>, k: K, s: string)
    ensures Select(Insert(rows, key, sha, hits), k, s)
         == Select(rows, k, s) + (if k == key && s == sha then hits else [])
  {
    var all := Insert(rows, key, sha, hits);
    if hits == [] {
      assert all == rows;
    } else {
      var init := hits[..|hits| - 1];
      SelectInsert(rows, key, sha, init, k, s);
      assert all[..|all| - 1] == Insert(rows, key, sha, init);
      assert hits == init + [hits[|hits| - 1]];
    }
  }

  lemma {:induction false} SelectDelete<K, A>(rows: seq<Row<K, A>>, doomed: (K, string) -> bool, k: K, s: string)
    ensures Select(Delete(rows, doomed), k, s) == if doomed(k, s) then [] else Select(rows, k, s)
  {
    if rows != [] {
      var init, r := rows[..|rows| - 1], rows[|rows| - 1];
      SelectDelete(init, doomed, k, s);
      if doomed(r.key, r.sha) {
        assert Delete(rows, doomed) == Delete(init, doomed);
      } else {
        assert Delete(rows, doomed)[..|Delete(rows, doomed)| - 1] == Delete(init, doomed);
      }
    }
  }

  lemma AddAnswers<K(!new), A(!new)>(m: Answers<K, A>, key: K, sha: string, hits: multiset<Hit<A>>)
    ensures forall k, s ::
      Answer(Add(m, key, sha, hits), k, s) == Answer(m, k, s) + (if k == key && s == sha then hits else multiset{})
    ensures multiset{} !in m.Values ==> multiset{} !in Add(m, key, sha, hits).Values
  {
    if hits != multiset{} {
      var h :| h in hits;
      assert h in Answer(m, key, sha) + hits;
    }
  }

  lemma InsertRefines<K(!new), A(!new)>(rows: seq<Row<K, A>>, key: K, sha: string, hits: seq<Hit<A>>)
    ensures View(Insert(rows, key, sha, hits)) == Add(View(rows), key, sha, multiset(hits))
  {
    var after, m := Insert(rows, key, sha, hits), Add(View(rows), key, sha, multiset(hits));
    ViewHoldsNoEmpty(rows);
    ViewHoldsNoEmpty(after);
    AddAnswers(View(rows), key, sha, multiset(hits));
    forall k, s
      ensures Answer(View(after), k, s) == Answer(m, k, s)
    {
      ViewAnswers(rows, k, s);
      ViewAnswers(after, k, s);
      SelectInsert(rows, key, sha, hits, k, s);
    }
    Extensional(View(after), m);
  }

  lemma DeleteRefines<K(!new), A(!new)>(rows: seq<Row<K, A>>, doomed: (K, string) -> bool)
    ensures View(Delete(rows, doomed)) == Without(View(rows), doomed)
  {
    var after, m := Delete(rows, doomed), Without(View(rows), doomed);
    ViewHoldsNoEmpty(rows);
    ViewHoldsNoEmpty(after);
    forall k, s
      ensures Answer(View(after), k, s) == Answer(m, k, s)
    {
      ViewAnswers(rows, k, s);
      ViewAnswers(after, k, s);
      SelectDelete(rows, doomed, k, s);
    }
    Extensional(View(after), m);
  }

  lemma KeyIntoPoints<K(!new), A(!new)>(rows: seq<Row<K, A>>, f: string, i: nat)
    requires i < |rows| && rows[i].file == f
    ensures KeyPoints(View(rows), rows[i].key, f)
  {
    var key, sha := rows[i].key, rows[i].sha;
    ViewAnswers(rows, key, sha);
    SelectFinds(rows, key, sha);
    assert Hit(f, rows[i].payload) in View(rows)[(key, sha)];
  }

  lemma PointingKeyIsInto<K(!new), A(!new)>(rows: seq<Row<K, A>>, f: string, key: K, sha: string, h: Hit<A>)
    requires h in Answer(View(rows), key, sha) && h.file == f
    ensures key in KeysInto(rows, f)
  {
    ViewAnswers(rows, key, sha);
    SelectFinds(rows, key, sha);
    assert h in Select(rows, key, sha);
    var i :| 0 <= i < |rows| && rows[i] == Row(key, sha, h.file, h.payload);
    assert rows[i].key in KeysInto(rows, f);
  }

  lemma KeysIntoPoint<K(!new), A(!new)>(rows: seq<Row<K, A>>, f: string, key: K)
    ensures key in KeysInto(rows, f) <==> KeyPoints(View(rows), key, f)
  {
    if key in KeysInto(rows, f) {
      var i :| 0 <= i < |rows| && rows[i].file == f && rows[i].key == key;
      KeyIntoPoints(rows, f, i);
    }
    if KeyPoints(View(rows), key, f) {
      var sha :| (key, sha) in View(rows) && Points(View(rows)[(key, sha)], f);
      var h: Hit<A> :| h in View(rows)[(key, sha)] && h.file == f;
      PointingKeyIsInto(rows, f, key, sha, h);
    }
  }

  lemma InvalidateRefines<K(!new), A(!new)>(rows: seq<Row<K, A>>, f: string, asked: K -> bool)
    ensures View(Invalidate(rows, f, asked)) == Forget(View(rows), f, asked)
  {
    var into := KeysInto(rows, f);
    var doomed := (k: K, s: string) => asked(k) || k in into;
    DeleteRefines(rows, doomed);
    forall k: K
      ensures k in into <==> KeyPoints(View(rows), k, f)
    {
      KeysIntoPoint(rows, f, k);
    }
    assert Without(View(rows), doomed) == Forget(View(rows), f, asked);
  }

  // An answer survives an invalidation whole and in order, or no row of it does.
  lemma InvalidateWholeOrGone<K(!new), A(!new)>(rows: seq<Row<K, A>>, f: string, asked: K -> bool, k: K, s: string)
    ensures Select(Invalidate(rows, f, asked), k, s) ==
      if asked(k) || KeyPoints(View(rows), k, f) then [] else Select(rows, k, s)
  {
    var into := KeysInto(rows, f);
    SelectDelete(rows, (k, s) => asked(k) || k in into, k, s);
    KeysIntoPoint(rows, f, k);
  }

  // No answer points into f, and none was asked from it.
  ghost predicate FreeOf<K(!new), A(!new)>(m: Answers<K, A>, f: string, asked: K -> bool) {
    forall ks :: ks in m ==> !asked(ks.0) && !Points(m[ks], f)
  }

  lemma ForgetFrees<K(!new), A(!new)>(m: Answers<K, A>, f: string, asked: K -> bool)
    ensures FreeOf(Forget(m, f, asked), f, asked)
    ensures forall k, s ::
      Answer(Forget(m, f, asked), k, s) == if asked(k) || KeyPoints(m, k, f) then multiset{} else Answer(m, k, s)
  {
    var n := Forget(m, f, asked);
    forall ks | ks in n
      ensures !Points(n[ks], f)
    {
      assert ks == (ks.0, ks.1);
      assert !KeyPoints(m, ks.0, f);
    }
  }

  lemma AddKeepsFree<K(!new), A(!new)>(m: Answers<K, A>, key: K, sha: string, hits: multiset<Hit<A>>, f: string, asked: K -> bool)
    requires FreeOf(m, f, asked) && (hits == multiset{} || !asked(key)) && !Points(hits, f)
    ensures FreeOf(Add(m, key, sha, hits), f, asked)
  {
    var n := Add(m, key, sha, hits);
    forall ks | ks in n
      ensures !asked(ks.0) && !Points(n[ks], f)
    {
      assert ks == (ks.0, ks.1);
      if ks == (key, sha) && hits != multiset{} {
        assert n[ks] == Answer(m, key, sha) + hits;
        if ks in m { assert !Points(m[ks], f); }
      }
    }
  }
}
