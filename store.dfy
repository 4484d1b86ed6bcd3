/** The row store every entity table is kept in: a table is a sequence of rows
    in insertion order, and a lookup returns the first row whose key matches
    (SELECT ... WHERE key = k LIMIT 1). */
module Store {
  import opened Wrappers

  /** Surrogate identifier the store assigns to a row when it inserts it. */
  type Id = nat

  /** Position of the first row of `t` whose key is `k`, if there is one. */
  function IndexOfKey<T, K(==)>(t: seq<T>, key: T -> K, k: K): (r: Option<nat>)
    ensures r.Some? ==> r.value < |t| && key(t[r.value]) == k
    ensures r.Some? ==> forall j :: 0 <= j < r.value ==> key(t[j]) != k
    ensures r.None? <==> forall j :: 0 <= j < |t| ==> key(t[j]) != k
  {
    if t == [] then None
    else if key(t[0]) == k then Some(0)
    else match IndexOfKey(t[1..], key, k)
      case Some(i) => Some(i + 1)
      case None => None
  }

  /** The first row of `t` whose key is `k`, if there is one. */
  function FindOne<T, K(==)>(t: seq<T>, key: T -> K, k: K): (r: Option<T>)
    ensures r.Some? ==> r.value in t && key(r.value) == k
    ensures r.None? <==> forall j :: 0 <= j < |t| ==> key(t[j]) != k
  {
    match IndexOfKey(t, key, k)
    case Some(i) => Some(t[i])
    case None => None
  }

  /** No two rows of `t` share a key (a UNIQUE column). */
  ghost predicate UniqueKeys<T, K>(t: seq<T>, key: T -> K) {
    forall i, j :: 0 <= i < j < |t| ==> key(t[i]) != key(t[j])
  }

  /** Row ids are 1, 2, 3, ... in insertion order: the id records creation order. */
  ghost predicate Numbered<T>(t: seq<T>, idOf: T -> Id) {
    forall i :: 0 <= i < |t| ==> idOf(t[i]) == i + 1
  }

  /** With unique keys, the lookup of a row's own key finds that row. */
  lemma FindOneUnique<T, K>(t: seq<T>, key: T -> K, i: nat)
    requires UniqueKeys(t, key) && i < |t|
    ensures FindOne(t, key, key(t[i])) == Some(t[i])
  {
    var j := IndexOfKey(t, key, key(t[i]));
    assert j.Some? && j.value <= i;
  }

  /** In a numbered table, lookup by id is positional. */
  lemma FindById<T>(t: seq<T>, idOf: T -> Id, id: Id)
    requires Numbered(t, idOf)
    ensures FindOne(t, idOf, id) == if 1 <= id <= |t| then Some(t[id - 1]) else None
  {
    if 1 <= id <= |t| {
      assert idOf(t[id - 1]) == id;
      var j := IndexOfKey(t, idOf, id);
      assert j.Some? && idOf(t[j.value]) == j.value + 1;
    }
  }

  /** Replacing row `i` by a row with the same key changes the lookup of that key
      only, and keeps keys unique. */
  lemma FindOneAfterSet<T, K>(t: seq<T>, key: T -> K, i: nat, x: T, k: K)
    requires i < |t| && key(x) == key(t[i]) && UniqueKeys(t, key)
    ensures FindOne(t[i := x], key, k) == if k == key(x) then Some(x) else FindOne(t, key, k)
    ensures UniqueKeys(t[i := x], key)
  {
    var u := t[i := x];
    assert forall j :: 0 <= j < |t| ==> key(u[j]) == key(t[j]);
    var a, b := IndexOfKey(u, key, k), IndexOfKey(t, key, k);
    assert a == b by {
      if a.Some? && b.Some? {
        assert !(a.value < b.value) && !(b.value < a.value);
      }
    }
    if k == key(x) {
      FindOneUnique(t, key, i);
    }
  }

  /** Appending a row whose key is new makes it the lookup of that key and
      changes no other lookup. */
  lemma FindOneAfterAppend<T, K>(t: seq<T>, key: T -> K, x: T, k: K)
    requires FindOne(t, key, key(x)).None?
    ensures FindOne(t + [x], key, k) == if k == key(x) then Some(x) else FindOne(t, key, k)
    ensures UniqueKeys(t, key) ==> UniqueKeys(t + [x], key)
  {
    var u := t + [x];
    var a, b := IndexOfKey(u, key, k), IndexOfKey(t, key, k);
    if b.Some? {
      assert key(u[b.value]) == k;
      assert a.Some? && a.value <= b.value;
    } else if k == key(x) {
      assert key(u[|t|]) == k;
    }
  }

  /** Ids grow with position: the order of a table is creation order. */
  ghost predicate Ascending<T>(t: seq<T>, idOf: T -> Id) {
    forall i, j :: 0 <= i < j < |t| ==> idOf(t[i]) < idOf(t[j])
  }

  lemma NumberedAscending<T>(t: seq<T>, idOf: T -> Id)
    requires Numbered(t, idOf)
    ensures Ascending(t, idOf) && UniqueKeys(t, idOf)
  {
  }

  /** A row appended with the next id keeps the table numbered, and no
      earlier row had that id. */
  lemma AppendNumbered<T>(t: seq<T>, idOf: T -> Id, x: T)
    requires Numbered(t, idOf) && idOf(x) == |t| + 1
    ensures Numbered(t + [x], idOf)
    ensures FindOne(t, idOf, idOf(x)).None?
    ensures forall k :: FindOne(t + [x], idOf, k) == if k == idOf(x) then Some(x) else FindOne(t, idOf, k)
  {
    FindById(t, idOf, idOf(x));
    forall k ensures FindOne(t + [x], idOf, k) == if k == idOf(x) then Some(x) else FindOne(t, idOf, k) {
      FindOneAfterAppend(t, idOf, x, k);
    }
  }

  /** The rows after the first of an ascending table are ascending, and all
      come after the first. */
  lemma AscendingTail<T>(t: seq<T>, idOf: T -> Id)
    requires Ascending(t, idOf) && t != []
    ensures Ascending(t[1..], idOf)
    ensures forall j :: 1 <= j < |t| ==> idOf(t[0]) < idOf(t[j])
  {
    forall i, j | 0 <= i < j < |t[1..]| ensures idOf(t[1..][i]) < idOf(t[1..][j]) {
      assert t[1..][i] == t[i + 1] && t[1..][j] == t[j + 1];
    }
  }

  /** A row placed before an ascending table whose ids all exceed its own
      keeps the table ascending. */
  lemma AscendingCons<T>(x: T, rest: seq<T>, idOf: T -> Id)
    requires Ascending(rest, idOf) && forall y :: y in rest ==> idOf(x) < idOf(y)
    ensures Ascending([x] + rest, idOf)
  {
    var r := [x] + rest;
    forall i, j | 0 <= i < j < |r| ensures idOf(r[i]) < idOf(r[j]) {
      assert r[j] == rest[j - 1];
      if i > 0 { assert r[i] == rest[i - 1]; }
    }
  }
}
