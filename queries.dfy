/** The query shapes the actions share: `select().from(t).where(cond)
    .orderBy(col)` over one table, and the one-row ownership lookup
    `where(and(eq(t.id, id), eq(t.userId, uid))).limit(1)`. */
module Queries {
  import opened Common
  import opened Ordering
  import opened DbSchema

  /** No row appears twice. */
  ghost predicate Distinct<R>(s: seq<R>) {
    forall i, j :: 0 <= i < j < |s| ==> s[i] != s[j]
  }

  /** `rows` is exactly the set of rows of `t` that satisfy `cond`, each
      once. */
  ghost predicate Selects<D>(rows: seq<Row<D>>, t: Table<D>, cond: Row<D> -> bool) {
    && (forall i :: 0 <= i < |rows| ==> rows[i].id in t && t[rows[i].id] == rows[i] && cond(rows[i]))
    && (forall k :: k in t && cond(t[k]) ==> t[k] in rows)
    && Distinct(rows)
  }

  /** The rows of `t` that satisfy `cond`, in the order the keys are
      visited (an unordered query). */
  method SelectWhere<D>(t: Table<D>, cond: Row<D> -> bool) returns (rows: seq<Row<D>>)
    requires KeyedById(t)
    ensures Selects(rows, t, cond)
  {
    rows := [];
    var rest := t.Keys;
    while rest != {}
      invariant rest <= t.Keys
      invariant forall i :: 0 <= i < |rows| ==> rows[i].id in t && t[rows[i].id] == rows[i] && cond(rows[i]) && rows[i].id !in rest
      invariant forall k :: k in t && k !in rest && cond(t[k]) ==> t[k] in rows
      invariant Distinct(rows)
      decreases rest
    {
      var k :| k in rest;
      if cond(t[k]) {
        rows := rows + [t[k]];
      }
      rest := rest - {k};
    }
  }

  /** `select ... where cond orderBy key`: the selected rows, sorted. */
  method ListWhere<D>(t: Table<D>, cond: Row<D> -> bool, key: Row<D> -> SortKey, ascending: bool)
    returns (rows: seq<Row<D>>)
    requires KeyedById(t)
    ensures Selects(rows, t, cond)
    ensures SortedBy(rows, key, ascending)
  {
    var selected := SelectWhere(t, cond);
    rows := SortBy(selected, key, ascending);
    SelectsPermutation(selected, rows, t, cond);
  }

  /** Reordering a selection keeps it a selection. */
  lemma SelectsPermutation<D>(a: seq<Row<D>>, b: seq<Row<D>>, t: Table<D>, cond: Row<D> -> bool)
    requires Selects(a, t, cond) && multiset(a) == multiset(b)
    ensures Selects(b, t, cond)
  {
    SameElements(a, b);
    DistinctPermutation(a, b);
    forall i | 0 <= i < |b| ensures b[i].id in t && t[b[i].id] == b[i] && cond(b[i]) {
      assert b[i] in a;
      var j :| 0 <= j < |a| && a[j] == b[i];
    }
  }

  /** A permutation of a sequence without repeats has no repeats. */
  lemma DistinctPermutation<R>(a: seq<R>, b: seq<R>)
    requires multiset(a) == multiset(b) && Distinct(a)
    ensures Distinct(b)
  {
    DistinctCounts(a);
    forall i, j | 0 <= i < j < |b| ensures b[i] != b[j] {
      if b[i] == b[j] {
        RepeatCounts(b, i, j);
        assert false;
      }
    }
  }

  /** Each element of a sequence without repeats occurs once. */
  lemma {:induction false} DistinctCounts<R>(s: seq<R>)
    requires Distinct(s)
    ensures forall x :: multiset(s)[x] <= 1
  {
    if s != [] {
      assert Distinct(s[1..]) by {
        forall i, j | 0 <= i < j < |s[1..]| ensures s[1..][i] != s[1..][j] {
          assert s[1..][i] == s[i + 1] && s[1..][j] == s[j + 1];
        }
      }
      DistinctCounts(s[1..]);
      assert s == [s[0]] + s[1..];
      assert s[0] !in s[1..];
      assert multiset(s) == multiset{s[0]} + multiset(s[1..]);
    }
  }

  /** An element at two positions occurs at least twice. */
  lemma RepeatCounts<R>(s: seq<R>, i: int, j: int)
    requires 0 <= i < j < |s| && s[i] == s[j]
    ensures multiset(s)[s[i]] >= 2
  {
    assert s == s[..i] + [s[i]] + s[i + 1..j] + [s[j]] + s[j + 1..];
    assert multiset(s) == multiset(s[..i]) + multiset{s[i]} + multiset(s[i + 1..j]) + multiset{s[j]} + multiset(s[j + 1..]);
  }

  /** `orderBy(t.createdAt)` */
  function CreatedKey<D>(r: Row<D>): SortKey {
    ByTime(r.createdAt)
  }

  /** `orderBy(t.updatedAt)` */
  function UpdatedKey<D>(r: Row<D>): SortKey {
    ByTime(r.updatedAt)
  }

  /** The ownership lookup: the row when `id` names a row of `uid`. */
  function FindOwned<D>(t: Table<D>, id: Id, uid: Id): (r: Option<Row<D>>)
    requires KeyedById(t)
    ensures r.Some? <==> Owns(t, id, uid)
    ensures r.Some? ==> r.value == t[id] && r.value.id == id && r.value.userId == uid
  {
    if Owns(t, id, uid) then Some(t[id]) else None
  }

  /** The lookup never returns another user's row, nor a row of another id. */
  lemma FindOwnedIsolates<D>(t: Table<D>, id: Id, uid: Id, other: Id)
    requires KeyedById(t) && other != uid
    requires Owns(t, id, other)
    ensures FindOwned(t, id, uid).None?
  {
  }

  /** A row with new fields and `updatedAt: new Date()`. */
  function Touched<D>(row: Row<D>, fields: D, now: Timestamp): (r: Row<D>)
    ensures r.id == row.id && r.userId == row.userId && r.createdAt == row.createdAt
    ensures r.fields == fields && r.updatedAt == now
  {
    row.(fields := fields, updatedAt := now)
  }

  /** Rows of other users are untouched and every new row is the caller's. */
  ghost predicate OnlyOwnRowsChanged<D>(before: Table<D>, after: Table<D>, uid: Id) {
    && (forall k :: k in before && before[k].userId != uid ==> k in after && after[k] == before[k])
    && (forall k :: k in after && (k !in before || after[k] != before[k]) ==> after[k].userId == uid)
  }

  function OwnerIs<D>(uid: Id): Row<D> -> bool {
    (x: Row<D>) => x.userId == uid
  }

  /** Every listed row is a stored row of the caller. */
  lemma ListedRowsAreOwned<D>(rows: seq<Row<D>>, t: Table<D>, uid: Id)
    requires Selects(rows, t, OwnerIs(uid))
    ensures forall i :: 0 <= i < |rows| ==> Owns(t, rows[i].id, uid)
    ensures rows != [] ==> Owns(t, rows[0].id, uid)
  {
    forall i | 0 <= i < |rows| ensures Owns(t, rows[i].id, uid) {
      assert OwnerIs(uid)(rows[i]);
    }
  }
}
