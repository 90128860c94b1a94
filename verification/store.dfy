/** The persistence store behind every repository: one table per entity type,
    keyed by integer identity. Identity generation is the table's own counter,
    as an IDENTITY column hands out keys; listings run in ascending key order. */
module Store {

  import opened Values

  /** A table: its rows by key, and the key the next insert receives. */
  datatype Table<T> = Table(rows: map<int, T>, nextId: int)

  /** A table no row has been saved into yet. */
  function Empty<T>(): (t: Table<T>)
    ensures Valid(t) && t.rows == map[]
  {
    Table(map[], 1)
  }

  /** Every key was handed out by the counter: it lies in [1, nextId). */
  predicate Valid<T>(t: Table<T>) {
    1 <= t.nextId && forall k :: k in t.rows ==> 1 <= k < t.nextId
  }

  /** Every row carries its own key as its id, as `idOf` reads it. */
  predicate IdsMatch<T>(t: Table<T>, idOf: T -> Option<int>) {
    forall k :: k in t.rows ==> idOf(t.rows[k]) == Some(k)
  }

  /** `save` of a new entity: the row is stored under a key no other row has. */
  function Insert<T>(t: Table<T>, row: T): (r: Table<T>)
    ensures r.rows.Keys == t.rows.Keys + {t.nextId}
    ensures r.rows[t.nextId] == row
    ensures forall k :: k in t.rows && k != t.nextId ==> r.rows[k] == t.rows[k]
    ensures Valid(t) ==> t.nextId !in t.rows && Valid(r) && |r.rows| == |t.rows| + 1
  {
    Table(t.rows[t.nextId := row], t.nextId + 1)
  }

  /** `after` is `before` with exactly one row added, under the next key;
      every other row is as it was. */
  predicate AddedOne<T(==)>(before: Table<T>, after: Table<T>) {
    && after.rows.Keys == before.rows.Keys + {before.nextId} && after.nextId == before.nextId + 1
    && forall j :: j in before.rows && j != before.nextId ==> after.rows[j] == before.rows[j]
  }

  /** A table with exactly one row added under the next key is the insert of
      that row. */
  lemma AddedOneIsInsert<T>(before: Table<T>, after: Table<T>)
    requires AddedOne(before, after)
    ensures after == Insert(before, after.rows[before.nextId])
  {
    var rows := before.rows[before.nextId := after.rows[before.nextId]];
    assert rows.Keys == after.rows.Keys;
    forall j | j in rows ensures rows[j] == after.rows[j] {
    }
    assert rows == after.rows;
  }

  /** `save` of an entity that already has a key: its row is replaced. */
  function Replace<T>(t: Table<T>, id: int, row: T): (r: Table<T>)
    requires id in t.rows
    ensures r.rows.Keys == t.rows.Keys && r.nextId == t.nextId
    ensures r.rows[id] == row
    ensures forall k :: k in t.rows && k != id ==> r.rows[k] == t.rows[k]
    ensures Valid(t) ==> Valid(r)
  {
    Table(t.rows[id := row], t.nextId)
  }

  /** The delete every service performs: `existsById`, then `deleteById`,
      reporting whether anything was there. */
  function Delete<T>(t: Table<T>, id: int): (r: (Table<T>, bool))
    ensures r.1 <==> id in t.rows
    ensures r.0.rows == t.rows - {id} && r.0.nextId == t.nextId
    ensures !r.1 ==> r.0 == t
    ensures Valid(t) ==> Valid(r.0)
  {
    if id in t.rows then (Table(t.rows - {id}, t.nextId), true) else (t, false)
  }

  /** Deleting the same key twice: the second call finds nothing and changes nothing. */
  lemma DeleteTwice<T>(t: Table<T>, id: int)
    ensures !Delete(Delete(t, id).0, id).1
    ensures Delete(Delete(t, id).0, id).0 == Delete(t, id).0
  {
  }

  /** The keys in [from, nextId) that hold a row, in ascending order. */
  function KeysFrom<T>(t: Table<T>, from: int): (r: seq<int>)
    ensures forall i :: 0 <= i < |r| ==> r[i] in t.rows && from <= r[i] < t.nextId
    ensures forall k :: k in t.rows && from <= k < t.nextId ==> k in r
    decreases t.nextId - from
  {
    if from >= t.nextId then []
    else
      var rest := KeysFrom(t, from + 1);
      if from in t.rows then
        assert forall i :: 0 < i <= |rest| ==> ([from] + rest)[i] == rest[i - 1];
        [from] + rest
      else rest
  }

  /** Strictly ascending: no repeats, smaller first. */
  predicate Ascending(s: seq<int>) {
    forall i, j :: 0 <= i < j < |s| ==> s[i] < s[j]
  }

  /** A key below every element of an ascending sequence can go in front. */
  lemma AscendingCons(x: int, s: seq<int>)
    requires Ascending(s)
    requires forall i :: 0 <= i < |s| ==> x < s[i]
    ensures Ascending([x] + s)
  {
    var r := [x] + s;
    forall i, j | 0 <= i < j < |r| ensures r[i] < r[j] {
      assert r[j] == s[j - 1];
      if i > 0 {
        assert r[i] == s[i - 1];
      }
    }
  }

  /** The keys come out strictly ascending. */
  lemma {:induction false} KeysFromAscending<T>(t: Table<T>, from: int)
    ensures Ascending(KeysFrom(t, from))
    decreases t.nextId - from
  {
    if from < t.nextId {
      KeysFromAscending(t, from + 1);
      if from in t.rows {
        AscendingCons(from, KeysFrom(t, from + 1));
      }
    }
  }

  /** All keys of the table, ascending: the order `findAll` lists rows in. */
  function Keys<T>(t: Table<T>): (r: seq<int>)
    ensures forall i :: 0 <= i < |r| ==> r[i] in t.rows && r[i] < t.nextId
    ensures forall i, j :: 0 <= i < j < |r| ==> r[i] < r[j]
    ensures Valid(t) ==> forall k :: k in t.rows <==> k in r
  {
    KeysFromAscending(t, 1);
    KeysFrom(t, 1)
  }

  /** All rows of the table, in ascending key order. */
  function Rows<T>(t: Table<T>): (r: seq<T>)
    ensures |r| == |Keys(t)|
    ensures forall i :: 0 <= i < |r| ==> r[i] == t.rows[Keys(t)[i]]
  {
    var keys := Keys(t);
    seq(|keys|, i requires 0 <= i < |keys| => t.rows[keys[i]])
  }

  /** In a valid table, `Rows` lists exactly the stored rows. */
  lemma InRows<T>(t: Table<T>, x: T)
    requires Valid(t)
    ensures x in Rows(t) <==> exists k :: k in t.rows && t.rows[k] == x
  {
    var keys := Keys(t);
    if k :| k in t.rows && t.rows[k] == x {
      var i :| 0 <= i < |keys| && keys[i] == k;
      assert Rows(t)[i] == x;
    }
  }

  /** The elements of `s` that satisfy `p`, in their original order. */
  function Filter<T>(s: seq<T>, p: T -> bool): (r: seq<T>)
    ensures |r| <= |s|
    ensures forall i :: 0 <= i < |r| ==> r[i] in s && p(r[i])
    ensures forall i :: 0 <= i < |s| && p(s[i]) ==> s[i] in r
  {
    if |s| == 0 then []
    else (if p(s[0]) then [s[0]] else []) + Filter(s[1..], p)
  }

  /** Membership in a filtered sequence, element-wise. */
  lemma FilterMembership<T>(s: seq<T>, p: T -> bool, x: T)
    ensures x in Filter(s, p) <==> x in s && p(x)
  {
    var r := Filter(s, p);
    if x in r {
      var i :| 0 <= i < |r| && r[i] == x;
    }
    if x in s && p(x) {
      var i :| 0 <= i < |s| && s[i] == x;
    }
  }

  /** Filtering depends only on the predicate's values on the elements. */
  lemma {:induction false} FilterExtensional<T>(s: seq<T>, p: T -> bool, q: T -> bool)
    requires forall x :: x in s ==> p(x) == q(x)
    ensures Filter(s, p) == Filter(s, q)
  {
    if |s| > 0 {
      assert forall x :: x in s[1..] ==> x in s;
      FilterExtensional(s[1..], p, q);
    }
  }

  /** Filtering by a conjunction is filtering by one conjunct, then the other. */
  lemma {:induction false} FilterConjunction<T>(s: seq<T>, p: T -> bool, q: T -> bool, pq: T -> bool)
    requires forall x :: x in s ==> pq(x) == (p(x) && q(x))
    ensures Filter(s, pq) == Filter(Filter(s, p), q)
  {
    if |s| > 0 {
      assert forall x :: x in s[1..] ==> x in s;
      FilterConjunction(s[1..], p, q, pq);
      var rest := Filter(s[1..], p);
      if p(s[0]) {
        assert Filter(s, p) == [s[0]] + rest;
        assert ([s[0]] + rest)[1..] == rest;
        assert Filter(Filter(s, p), q) == (if q(s[0]) then [s[0]] else []) + Filter(rest, q);
      } else {
        assert Filter(s, p) == rest;
      }
    }
  }

  /** A filter every element passes keeps the whole sequence. */
  lemma {:induction false} FilterAll<T>(s: seq<T>, p: T -> bool)
    requires forall x :: x in s ==> p(x)
    ensures Filter(s, p) == s
  {
    if |s| > 0 {
      assert forall x :: x in s[1..] ==> x in s;
      FilterAll(s[1..], p);
      assert p(s[0]);
      assert Filter(s, p) == [s[0]] + s[1..];
      assert [s[0]] + s[1..] == s;
    }
  }

  /** Filtering a sequence whose first part every element fails and whose
      second part every element passes leaves the second part. */
  lemma {:induction false} FilterRejectThenKeep<T>(a: seq<T>, b: seq<T>, p: T -> bool)
    requires forall x :: x in a ==> !p(x)
    requires forall x :: x in b ==> p(x)
    ensures Filter(a + b, p) == b
  {
    if |a| == 0 {
      assert a + b == b;
      FilterAll(b, p);
    } else {
      assert forall x :: x in a[1..] ==> x in a;
      FilterRejectThenKeep(a[1..], b, p);
      assert (a + b)[0] == a[0] && !p(a[0]);
      assert (a + b)[1..] == a[1..] + b;
    }
  }

  /** An insert lists its row after all earlier ones: keys only grow. */
  lemma {:induction false} KeysFromInsert<T>(t: Table<T>, row: T, from: int)
    requires from <= t.nextId
    ensures KeysFrom(Insert(t, row), from) == KeysFrom(t, from) + [t.nextId]
    decreases t.nextId - from
  {
    var t' := Insert(t, row);
    if from < t.nextId {
      KeysFromInsert(t, row, from + 1);
      if from in t.rows {
        assert KeysFrom(t', from) == [from] + KeysFrom(t', from + 1);
        assert KeysFrom(t, from) == [from] + KeysFrom(t, from + 1);
      } else {
        assert KeysFrom(t', from) == KeysFrom(t', from + 1);
      }
    } else {
      assert KeysFrom(t', from + 1) == [];
      assert KeysFrom(t', from) == [from];
      assert KeysFrom(t, from) == [];
    }
  }

  /** Saving a new row appends it to the listing. */
  lemma RowsInsert<T>(t: Table<T>, row: T)
    requires Valid(t)
    ensures Rows(Insert(t, row)) == Rows(t) + [row]
  {
    var keys, keys' := Keys(t), Keys(Insert(t, row));
    KeysFromInsert(t, row, 1);
    assert keys' == keys + [t.nextId];
    var before, after := Rows(t), Rows(Insert(t, row));
    forall i | 0 <= i < |after| ensures after[i] == (before + [row])[i] {
      if i < |before| {
        assert keys'[i] == keys[i] && keys[i] < t.nextId;
      } else {
        assert keys'[i] == t.nextId;
      }
    }
  }

  /** Filtering an appended element adds it at the end when it passes. */
  lemma {:induction false} FilterAppend<T>(s: seq<T>, x: T, p: T -> bool)
    ensures Filter(s + [x], p) == Filter(s, p) + (if p(x) then [x] else [])
  {
    if |s| == 0 {
      assert s + [x] == [x];
    } else {
      assert (s + [x])[1..] == s[1..] + [x];
      FilterAppend(s[1..], x, p);
    }
  }

  /** Every element converted, order kept. */
  function MapSeq<T, U>(s: seq<T>, f: T -> U): (r: seq<U>)
    ensures |r| == |s|
    ensures forall i :: 0 <= i < |s| ==> r[i] == f(s[i])
  {
    seq(|s|, i requires 0 <= i < |s| => f(s[i]))
  }

  /** Converting a concatenation converts each part. */
  lemma MapAppend<T, U>(a: seq<T>, b: seq<T>, f: T -> U)
    ensures MapSeq(a + b, f) == MapSeq(a, f) + MapSeq(b, f)
  {
    var lhs := MapSeq(a + b, f);
    var rhs := MapSeq(a, f) + MapSeq(b, f);
    forall i | 0 <= i < |lhs| ensures lhs[i] == rhs[i] {
      if i < |a| {
        assert (a + b)[i] == a[i];
      } else {
        assert (a + b)[i] == b[i - |a|];
      }
    }
  }

  /** Filtering and converting a sequence with one more element at the end
      adds that element's image when it passes. */
  lemma MapFilterAppend<T, U>(s: seq<T>, x: T, p: T -> bool, f: T -> U)
    ensures MapSeq(Filter(s + [x], p), f) == MapSeq(Filter(s, p), f) + (if p(x) then [f(x)] else [])
  {
    var tail := if p(x) then [x] else [];
    FilterAppend(s, x, p);
    MapAppend(Filter(s, p), tail, f);
    assert MapSeq(tail, f) == if p(x) then [f(x)] else [];
  }

  /** The converted listing after an insert is the old one with the new row,
      converted, at its end. */
  lemma MapRowsInsert<T, U>(t: Table<T>, row: T, f: T -> U)
    requires Valid(t)
    ensures MapSeq(Rows(Insert(t, row)), f) == MapSeq(Rows(t), f) + [f(row)]
  {
    RowsInsert(t, row);
    MapAppend(Rows(t), [row], f);
  }
}
