/** The `orderBy(asc(column))` / `orderBy(desc(column))` of the list
    queries: a column value as a sort key, the database's ordering on it,
    and a stable sort that yields a permutation of its input in that order. */
module Ordering {

  /** The value of the sorted column: a timestamp or a text column. */
  datatype SortKey = ByTime(t: int) | ByText(s: string)

  /** Text order: lexicographic by code point. */
  predicate TextLe(a: string, b: string)
    decreases |a|
  {
    a == [] || (b != [] && (a[0] < b[0] || (a[0] == b[0] && TextLe(a[1..], b[1..]))))
  }

  predicate KeyLe(a: SortKey, b: SortKey) {
    match (a, b)
    case (ByTime(x), ByTime(y)) => x <= y
    case (ByText(x), ByText(y)) => TextLe(x, y)
    case (ByTime(_), ByText(_)) => true
    case (ByText(_), ByTime(_)) => false
  }

  lemma {:induction false} TextLeTotal(a: string, b: string)
    ensures TextLe(a, b) || TextLe(b, a)
    decreases |a|
  {
    if a != [] && b != [] && a[0] == b[0] {
      TextLeTotal(a[1..], b[1..]);
    }
  }

  lemma {:induction false} TextLeTransitive(a: string, b: string, c: string)
    requires TextLe(a, b) && TextLe(b, c)
    ensures TextLe(a, c)
    decreases |a|
  {
    if a != [] && a[0] == b[0] && b[0] == c[0] {
      TextLeTransitive(a[1..], b[1..], c[1..]);
    }
  }

  lemma KeyLeTotal(a: SortKey, b: SortKey)
    ensures KeyLe(a, b) || KeyLe(b, a)
  {
    if a.ByText? && b.ByText? { TextLeTotal(a.s, b.s); }
  }

  lemma KeyLeTransitive(a: SortKey, b: SortKey, c: SortKey)
    requires KeyLe(a, b) && KeyLe(b, c)
    ensures KeyLe(a, c)
  {
    if a.ByText? && b.ByText? && c.ByText? { TextLeTransitive(a.s, b.s, c.s); }
  }

  /** `a` may come before `b` under `asc` (ascending) or `desc`. */
  predicate InOrder(a: SortKey, b: SortKey, ascending: bool) {
    if ascending then KeyLe(a, b) else KeyLe(b, a)
  }

  lemma InOrderTotal(a: SortKey, b: SortKey, ascending: bool)
    ensures InOrder(a, b, ascending) || InOrder(b, a, ascending)
  {
    KeyLeTotal(a, b);
  }

  lemma InOrderTransitive(a: SortKey, b: SortKey, c: SortKey, ascending: bool)
    requires InOrder(a, b, ascending) && InOrder(b, c, ascending)
    ensures InOrder(a, c, ascending)
  {
    if ascending { KeyLeTransitive(a, b, c); } else { KeyLeTransitive(c, b, a); }
  }

  ghost predicate SortedBy<R>(s: seq<R>, key: R -> SortKey, ascending: bool) {
    forall i, j :: 0 <= i < j < |s| ==> InOrder(key(s[i]), key(s[j]), ascending)
  }

  /** Inserts `x` into a sorted sequence, before the first element it may
      precede. */
  function Insert<R>(x: R, s: seq<R>, key: R -> SortKey, ascending: bool): (r: seq<R>)
    requires SortedBy(s, key, ascending)
    ensures multiset(r) == multiset(s) + multiset{x}
    ensures SortedBy(r, key, ascending)
  {
    if s == [] then [x]
    else if InOrder(key(x), key(s[0]), ascending) then
      InsertFront(x, s, key, ascending);
      [x] + s
    else
      assert s == [s[0]] + s[1..];
      var rest := Insert(x, s[1..], key, ascending);
      InsertBehind(x, s, rest, key, ascending);
      [s[0]] + rest
  }

  lemma InsertFront<R>(x: R, s: seq<R>, key: R -> SortKey, ascending: bool)
    requires s != [] && SortedBy(s, key, ascending)
    requires InOrder(key(x), key(s[0]), ascending)
    ensures SortedBy([x] + s, key, ascending)
  {
    var r := [x] + s;
    forall i, j | 0 <= i < j < |r| ensures InOrder(key(r[i]), key(r[j]), ascending) {
      if i == 0 && j > 1 {
        InOrderTransitive(key(x), key(s[0]), key(s[j - 1]), ascending);
      }
    }
  }

  lemma InsertBehind<R>(x: R, s: seq<R>, rest: seq<R>, key: R -> SortKey, ascending: bool)
    requires s != [] && SortedBy(s, key, ascending)
    requires !InOrder(key(x), key(s[0]), ascending)
    requires SortedBy(rest, key, ascending)
    requires multiset(rest) == multiset(s[1..]) + multiset{x}
    ensures SortedBy([s[0]] + rest, key, ascending)
  {
    InOrderTotal(key(x), key(s[0]), ascending);
    var r := [s[0]] + rest;
    forall i, j | 0 <= i < j < |r| ensures InOrder(key(r[i]), key(r[j]), ascending) {
      if i == 0 {
        var y := rest[j - 1];
        assert y in multiset(rest);
        if y != x {
          assert y in multiset(s[1..]);
          var k :| 0 <= k < |s[1..]| && s[1..][k] == y;
          assert s[k + 1] == y;
        }
      } else {
        assert r[i] == rest[i - 1] && r[j] == rest[j - 1];
      }
    }
  }

  /** The rows in the order the query returns them: a permutation of the
      input, sorted on the key. */
  function SortBy<R>(s: seq<R>, key: R -> SortKey, ascending: bool): (r: seq<R>)
    ensures multiset(r) == multiset(s)
    ensures SortedBy(r, key, ascending)
  {
    if s == [] then []
    else
      assert s == [s[0]] + s[1..];
      Insert(s[0], SortBy(s[1..], key, ascending), key, ascending)
  }

  /** A permutation has the same elements. */
  lemma SameElements<R>(a: seq<R>, b: seq<R>)
    requires multiset(a) == multiset(b)
    ensures forall x :: x in a <==> x in b
  {
    forall x ensures x in a <==> x in b {
      assert x in a <==> x in multiset(a);
      assert x in b <==> x in multiset(b);
    }
  }
}
