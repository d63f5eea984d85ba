/** The store's `ILIKE` operator, which the photo searches use with the
    pattern `%<search>%`: '%' matches any run of characters, '_' any one
    character, '\' makes the next character literal, and letters compare
    without regard to case. */
module Like {
  import opened Text

  /** `s LIKE p` */
  predicate LikeMatch(s: string, p: string)
    decreases |s| + |p|
  {
    if p == [] then s == []
    else if p[0] == '%' then LikeMatch(s, p[1..]) || (s != [] && LikeMatch(s[1..], p))
    else if p[0] == '_' then s != [] && LikeMatch(s[1..], p[1..])
    else if p[0] == '\\' && |p| >= 2 then s != [] && s[0] == p[1] && LikeMatch(s[1..], p[2..])
    else s != [] && s[0] == p[0] && LikeMatch(s[1..], p[1..])
  }

  /** `s ILIKE p` */
  predicate ILike(s: string, p: string) {
    LikeMatch(ToLower(s), ToLower(p))
  }

  /** The pattern `%q%` the searches build from the trimmed search text. */
  function SearchPattern(q: string): string {
    "%" + q + "%"
  }

  /** A character the pattern syntax gives a meaning to. */
  predicate IsLikeSpecial(c: char) {
    c == '%' || c == '_' || c == '\\'
  }

  predicate IsLiteral(q: string) {
    forall i :: 0 <= i < |q| ==> !IsLikeSpecial(q[i])
  }

  /** A search text without '%', '_' or '\' finds exactly the names that
      contain it, ignoring case. */
  lemma SearchIsSubstring(name: string, q: string)
    requires IsLiteral(q)
    ensures ILike(name, SearchPattern(q)) <==> Contains(ToLower(name), ToLower(q))
  {
    assert ToLower(SearchPattern(q)) == SearchPattern(ToLower(q));
    assert IsLiteral(ToLower(q));
    PercentLiteralPercent(ToLower(name), ToLower(q));
  }

  lemma {:induction false} PercentLiteralPercent(s: string, q: string)
    requires IsLiteral(q)
    ensures LikeMatch(s, SearchPattern(q)) <==> Contains(s, q)
    decreases |s|
  {
    var p := SearchPattern(q);
    assert p[0] == '%' && p[1..] == q + "%";
    LiteralPercent(s, q);
    if s != [] {
      PercentLiteralPercent(s[1..], q);
    }
    if |q| <= |s| && s[..|q|] != q {
      assert s != [];
    }
  }

  /** `q%` matches exactly the strings that start with `q`. */
  lemma {:induction false} LiteralPercent(s: string, q: string)
    requires IsLiteral(q)
    ensures LikeMatch(s, q + "%") <==> StartsWith(s, q)
    decreases |q|
  {
    if q == [] {
      assert q + "%" == "%";
      PercentMatchesAll(s);
    } else {
      var p := q + "%";
      assert p[0] == q[0] && p[1..] == q[1..] + "%";
      assert !IsLikeSpecial(q[0]);
      assert IsLiteral(q[1..]) by {
        forall i | 0 <= i < |q[1..]| ensures !IsLikeSpecial(q[1..][i]) {
          assert q[1..][i] == q[i + 1];
        }
      }
      if s != [] {
        LiteralPercent(s[1..], q[1..]);
        if s[0] == q[0] && StartsWith(s[1..], q[1..]) {
          assert s[..|q|] == [s[0]] + s[1..][..|q| - 1];
        }
        if StartsWith(s, q) {
          assert s[1..][..|q| - 1] == s[..|q|][1..];
        }
      }
    }
  }

  /** A lone '%' matches every string. */
  lemma {:induction false} PercentMatchesAll(s: string)
    ensures LikeMatch(s, "%")
    decreases |s|
  {
    if s != [] {
      PercentMatchesAll(s[1..]);
    }
  }

  /** '_' is a wildcard: a search for "_" finds every non-empty name, though
      no name need contain an underscore. */
  lemma UnderscoreIsWildcard(name: string)
    requires name != []
    ensures ILike(name, SearchPattern("_"))
    ensures '_' !in name ==> !Contains(ToLower(name), ToLower("_"))
  {
    var s := ToLower(name);
    var p := SearchPattern("_");
    assert ToLower(p) == p;
    assert p[0] == '%' && p[1..] == "_%";
    assert "_%"[1..] == "%";
    PercentMatchesAll(s[1..]);
    assert LikeMatch(s, "_%");
    if '_' !in name {
      assert '_' !in s by {
        forall i | 0 <= i < |s| ensures s[i] != '_' {
          assert s[i] == LowerChar(name[i]);
        }
      }
      CharInfix(s, '_');
    }
  }

  /** A one-character string occurs only where its character does. */
  lemma CharInfix(s: string, c: char)
    ensures Contains(s, [c]) ==> c in s
  {
    if Contains(s, [c]) {
      var i :| OccursAt(s, [c], i);
      assert s[i..i + 1][0] == s[i];
    }
  }
}
