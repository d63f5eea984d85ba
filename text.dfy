/** The JavaScript string operations the actions rely on: `trim`,
    `toLowerCase`, `startsWith`, `includes`, `split`, `pop` and
    `Number.prototype.toString()` for a file size. */
module Text {

  /** The characters `String.prototype.trim` removes: the ECMAScript
      WhiteSpace and LineTerminator code points. */
  predicate IsWhitespace(c: char) {
    c in {'\t', '\n', '\U{000B}', '\U{000C}', '\r', ' ', '\U{00A0}', '\U{1680}',
          '\U{2028}', '\U{2029}', '\U{202F}', '\U{205F}', '\U{3000}', '\U{FEFF}'}
    || ('\U{2000}' <= c <= '\U{200A}')
  }

  /** A string that `trim` turns into "" (the source's `!s.trim()`). */
  predicate IsBlank(s: string) {
    forall i :: 0 <= i < |s| ==> IsWhitespace(s[i])
  }

  function TrimStart(s: string): (r: string)
    ensures |r| <= |s| && r == s[|s| - |r|..]
    ensures r == [] || !IsWhitespace(r[0])
    ensures forall i :: 0 <= i < |s| - |r| ==> IsWhitespace(s[i])
  {
    if s != [] && IsWhitespace(s[0]) then TrimStart(s[1..]) else s
  }

  function TrimEnd(s: string): (r: string)
    ensures |r| <= |s| && r == s[..|r|]
    ensures r == [] || !IsWhitespace(r[|r| - 1])
    ensures forall i :: |r| <= i < |s| ==> IsWhitespace(s[i])
  {
    if s != [] && IsWhitespace(s[|s| - 1]) then TrimEnd(s[..|s| - 1]) else s
  }

  /** `s.trim()`: the slice of `s` left after removing whitespace from both
      ends; it is empty exactly when `s` is blank. */
  function Trim(s: string): (r: string)
    ensures IsInfix(r, s)
    ensures NoOuterWhitespace(r)
    ensures r == [] <==> IsBlank(s)
  {
    TrimmedSlice(s, TrimStart(s), TrimEnd(TrimStart(s)));
    TrimmedEmptyIsBlank(s, TrimStart(s), TrimEnd(TrimStart(s)));
    TrimEnd(TrimStart(s))
  }

  /** `trim` removes whitespace at the two ends and nothing else: the
      result sits in `s` between a blank prefix and a blank suffix. */
  lemma TrimRemovesOnlyEnds(s: string)
    ensures exists i :: TrimmedAt(s, Trim(s), i)
  {
    var a := TrimStart(s);
    TrimmedSlice(s, a, TrimEnd(a));
    assert TrimmedAt(s, Trim(s), |s| - |a|);
  }

  /** Neither end of `r` is whitespace. */
  predicate NoOuterWhitespace(r: string) {
    r == [] || (!IsWhitespace(r[0]) && !IsWhitespace(r[|r| - 1]))
  }

  /** TrimStart drops a whitespace prefix and TrimEnd a whitespace suffix of
      what is left, so together they cut `s` only at its two ends. */
  lemma TrimmedSlice(s: string, a: string, r: string)
    requires a == TrimStart(s) && r == TrimEnd(a)
    ensures OccursAt(s, r, |s| - |a|) && TrimmedAt(s, r, |s| - |a|)
  {
    PrefixOfSuffixOccurs(s, a, r);
    WhitespaceTailCarries(s, a, r);
  }

  /** A prefix `r` of a suffix `a` of `s` occurs in `s` where `a` starts. */
  lemma PrefixOfSuffixOccurs(s: string, a: string, r: string)
    requires |a| <= |s| && a == s[|s| - |a|..] && |r| <= |a| && r == a[..|r|]
    ensures OccursAt(s, r, |s| - |a|)
  {
    var i := |s| - |a|;
    assert s[i..][..|r|] == s[i..i + |r|];
  }

  /** Whitespace after `r` in the suffix `a` is whitespace after `r` in `s`. */
  lemma WhitespaceTailCarries(s: string, a: string, r: string)
    requires |a| <= |s| && a == s[|s| - |a|..] && |r| <= |a|
    requires forall j :: |r| <= j < |a| ==> IsWhitespace(a[j])
    ensures forall k :: |s| - |a| + |r| <= k < |s| ==> IsWhitespace(s[k])
  {
    var i := |s| - |a|;
    forall k | i + |r| <= k < |s|
      ensures IsWhitespace(s[k])
    {
      assert s[k] == a[k - i];
    }
  }

  /** `r` occurs in `s` at offset `i` and everything around it is
      whitespace: only the two ends of `s` were removed. */
  ghost predicate TrimmedAt(s: string, r: string, i: int) {
    && OccursAt(s, r, i)
    && (forall k :: 0 <= k < i ==> IsWhitespace(s[k]))
    && (forall k :: i + |r| <= k < |s| ==> IsWhitespace(s[k]))
  }

  /** Trimming both ends leaves nothing exactly when every character was
      whitespace; otherwise the result starts where the non-blank text does. */
  lemma TrimmedEmptyIsBlank(s: string, a: string, r: string)
    requires a == TrimStart(s) && r == TrimEnd(a)
    ensures r == [] <==> IsBlank(s)
    ensures NoOuterWhitespace(r)
  {
    assert |a| > 0 ==> a[0] == s[|s| - |a|];
    assert |r| > 0 ==> r[0] == a[0];
    assert |a| > 0 ==> |r| > 0;
  }

  lemma {:induction false} TrimStartIdempotent(s: string)
    requires s == [] || !IsWhitespace(s[0])
    ensures TrimStart(s) == s
  {
  }

  lemma {:induction false} TrimEndIdempotent(s: string)
    requires s == [] || !IsWhitespace(s[|s| - 1])
    ensures TrimEnd(s) == s
  {
  }

  /** Trimming twice is trimming once. */
  lemma TrimIdempotent(s: string)
    ensures Trim(Trim(s)) == Trim(s)
  {
    var t := Trim(s);
    TrimStartIdempotent(t);
    TrimEndIdempotent(t);
  }

  /** ASCII case mapping of `toLowerCase`. */
  function LowerChar(c: char): (d: char)
    ensures !('A' <= d <= 'Z')
    ensures 'A' <= c <= 'Z' ==> d as int == c as int + 32
    ensures !('A' <= c <= 'Z') ==> d == c
  {
    if 'A' <= c <= 'Z' then (c as int + 32) as char else c
  }

  function ToLower(s: string): (r: string)
    ensures |r| == |s|
    ensures forall i :: 0 <= i < |s| ==> r[i] == LowerChar(s[i])
  {
    seq(|s|, i requires 0 <= i < |s| => LowerChar(s[i]))
  }

  /** Lower-casing is idempotent. */
  lemma ToLowerIdempotent(s: string)
    ensures ToLower(ToLower(s)) == ToLower(s)
  {
  }

  /** The UTF-16 code units of one character: two for a character outside
      the Basic Multilingual Plane (a surrogate pair), one otherwise. */
  function CodeUnits(c: char): (n: nat)
    ensures n == 1 || n == 2
    ensures n == 2 <==> c as int >= 0x1_0000
  {
    if c as int >= 0x1_0000 then 2 else 1
  }

  /** `s.length`: JavaScript counts UTF-16 code units, not characters. */
  function Utf16Length(s: string): (n: nat)
    ensures |s| <= n <= 2 * |s|
    ensures n == 0 <==> s == []
  {
    if s == [] then 0 else CodeUnits(s[0]) + Utf16Length(s[1..])
  }

  /** Text of the Basic Multilingual Plane has one code unit per character. */
  lemma {:induction false} Utf16LengthOfPlaneZero(s: string)
    requires forall i :: 0 <= i < |s| ==> s[i] as int < 0x1_0000
    ensures Utf16Length(s) == |s|
  {
    if s != [] {
      Utf16LengthOfPlaneZero(s[1..]);
    }
  }

  /** Text made only of characters outside that plane has two code units per
      character, so `length` counts each twice. */
  lemma {:induction false} Utf16LengthOfAstral(s: string)
    requires forall i :: 0 <= i < |s| ==> s[i] as int >= 0x1_0000
    ensures Utf16Length(s) == 2 * |s|
  {
    if s != [] {
      Utf16LengthOfAstral(s[1..]);
    }
  }

  predicate StartsWith(s: string, prefix: string) {
    |prefix| <= |s| && s[..|prefix|] == prefix
  }

  /** `sub` occurs in `s` starting at offset `i`. */
  predicate OccursAt(s: string, sub: string, i: int) {
    0 <= i <= |s| - |sub| && s[i..i + |sub|] == sub
  }

  ghost predicate IsInfix(sub: string, s: string) {
    exists i :: OccursAt(s, sub, i)
  }

  predicate IsHexDigit(c: char) {
    '0' <= c <= '9' || 'a' <= c <= 'f' || 'A' <= c <= 'F'
  }

  /** `s.includes(sub)`: `sub` occurs in `s` at some offset. */
  function Contains(s: string, sub: string): (b: bool)
    ensures b <==> IsInfix(sub, s)
    decreases |s|
  {
    if |sub| > |s| then false
    else if s[..|sub|] == sub then
      assert OccursAt(s, sub, 0);
      true
    else
      ContainsStep(s, sub);
      Contains(s[1..], sub)
  }

  lemma ContainsStep(s: string, sub: string)
    requires |sub| <= |s| && s[..|sub|] != sub
    ensures IsInfix(sub, s[1..]) <==> IsInfix(sub, s)
  {
    if IsInfix(sub, s[1..]) {
      var i :| OccursAt(s[1..], sub, i);
      assert s[1..][i..i + |sub|] == s[i + 1..i + 1 + |sub|];
      assert OccursAt(s, sub, i + 1);
    }
    if IsInfix(sub, s) {
      var i :| OccursAt(s, sub, i);
      assert i != 0;
      assert s[1..][i - 1..i - 1 + |sub|] == s[i..i + |sub|];
      assert OccursAt(s[1..], sub, i - 1);
    }
  }

  /** The empty string occurs in every string. */
  lemma ContainsEmpty(s: string)
    ensures Contains(s, "")
  {
    assert OccursAt(s, "", 0);
  }

  /** `s.split(sep)` for a one-character separator: the pieces between
      separators, in order, always at least one. */
  function Split(s: string, sep: char): (parts: seq<string>)
    ensures |parts| >= 1
    ensures forall p :: p in parts ==> sep !in p
    ensures Join(parts, sep) == s
  {
    if s == [] then [""]
    else
      var rest := Split(s[1..], sep);
      if s[0] == sep then [""] + rest
      else
        var r := [[s[0]] + rest[0]] + rest[1..];
        assert r[1..] == rest[1..];
        assert forall p :: p in r ==> p == r[0] || p in rest;
        r
  }

  /** `parts.join(sep)`; Split's inverse. */
  function Join(parts: seq<string>, sep: char): string
    requires |parts| >= 1
  {
    if |parts| == 1 then parts[0] else parts[0] + [sep] + Join(parts[1..], sep)
  }

  /** Split undoes Join when no piece holds the separator. */
  lemma {:induction false} SplitJoin(parts: seq<string>, sep: char)
    requires |parts| >= 1
    requires forall p :: p in parts ==> sep !in p
    ensures Split(Join(parts, sep), sep) == parts
    decreases |parts|, |parts[0]|
  {
    var head := parts[0];
    if |head| > 0 {
      var shorter := [head[1..]] + parts[1..];
      assert head in parts;
      forall p | p in shorter
        ensures sep !in p
      {
        if p == head[1..] {
          assert forall c :: c in head[1..] ==> c in head;
        } else {
          assert p in parts[1..];
        }
      }
      SplitJoin(shorter, sep);
      JoinConsHead(parts, sep);
      assert head[0] in head;
      SplitOtherHead(head[0], Join(shorter, sep), sep);
      assert [head[0]] + head[1..] == head;
      assert [head] + shorter[1..] == parts;
    } else if |parts| > 1 {
      SplitJoin(parts[1..], sep);
      assert Join(parts, sep) == [sep] + Join(parts[1..], sep);
      SplitSepHead(Join(parts[1..], sep), sep);
      assert [""] + parts[1..] == parts;
    }
  }

  /** A leading character other than the separator joins the first piece. */
  lemma SplitOtherHead(c: char, s: string, sep: char)
    requires c != sep
    ensures Split([c] + s, sep) == [[c] + Split(s, sep)[0]] + Split(s, sep)[1..]
  {
    assert ([c] + s)[1..] == s;
  }

  /** A leading separator starts an empty first piece. */
  lemma SplitSepHead(s: string, sep: char)
    ensures Split([sep] + s, sep) == [""] + Split(s, sep)
  {
    assert ([sep] + s)[1..] == s;
  }

  lemma JoinConsHead(parts: seq<string>, sep: char)
    requires |parts| >= 1 && |parts[0]| > 0
    ensures Join(parts, sep) == [parts[0][0]] + Join([parts[0][1..]] + parts[1..], sep)
  {
    var shorter := [parts[0][1..]] + parts[1..];
    assert shorter[1..] == parts[1..];
    assert [parts[0][0]] + parts[0][1..] == parts[0];
  }

  /** `s.split(sep).pop()`: the text after the last separator, or all of `s`
      when it has none. */
  function LastPiece(s: string, sep: char): (r: string)
    ensures sep !in r
    ensures |r| <= |s| && s[|s| - |r|..] == r
    ensures |r| < |s| ==> s[|s| - |r| - 1] == sep
    ensures sep !in s ==> r == s
  {
    var parts := Split(s, sep);
    LastPieceIsSuffix(parts, sep);
    if sep !in s then
      SplitJoin([s], sep);
      parts[|parts| - 1]
    else
      parts[|parts| - 1]
  }

  lemma {:induction false} LastPieceIsSuffix(parts: seq<string>, sep: char)
    requires |parts| >= 1
    ensures var j := Join(parts, sep); var l := parts[|parts| - 1];
      |l| <= |j| && j[|j| - |l|..] == l
    ensures var j := Join(parts, sep); var l := parts[|parts| - 1];
      |parts| > 1 ==> |l| < |j| && j[|j| - |l| - 1] == sep
  {
    if |parts| > 1 {
      LastPieceIsSuffix(parts[1..], sep);
      var j := Join(parts, sep);
      var j' := Join(parts[1..], sep);
      var l := parts[|parts| - 1];
      assert parts[1..][|parts[1..]| - 1] == l;
      assert j == parts[0] + [sep] + j';
      assert j[|j| - |j'|..] == j';
      if |parts| == 2 {
        assert j' == l;
      } else {
        assert j'[|j'| - |l| - 1] == sep;
      }
    }
  }

  /** The text after the last separator of `a + [sep] + b`, when `b` has
      none, is `b`. */
  lemma LastPieceAfter(a: string, b: string, sep: char)
    requires sep !in b
    ensures LastPiece(a + [sep] + b, sep) == b
  {
    var s := a + [sep] + b;
    var r := LastPiece(s, sep);
    SuffixAroundSep(s, a, b, r, sep);
    assert s[|s| - |b|..] == b;
  }

  lemma SuffixAroundSep(s: string, a: string, b: string, r: string, sep: char)
    requires s == a + [sep] + b && sep !in b
    requires |r| <= |s| && s[|s| - |r|..] == r
    ensures |r| > |b| ==> sep in r
    ensures |r| < |b| ==> s[|s| - |r| - 1] != sep
  {
    assert |s| == |a| + 1 + |b|;
    assert s[|a|] == sep;
    if |r| > |b| {
      var k := |r| - |b| - 1;
      assert r[k] == s[|s| - |r|..][k] == s[|a|];
    }
    if |r| < |b| {
      var k := |b| - |r| - 1;
      assert s[|s| - |r| - 1] == s[|a| + 1 + k] == b[k];
    }
  }

  /** Splitting `a + [sep] + b` where `a` has no separator gives `a` first. */
  lemma SplitFirst(a: string, b: string, sep: char)
    requires sep !in a
    ensures Split(a + [sep] + b, sep)[0] == a
  {
    var parts := Split(b, sep);
    var whole := [a] + parts;
    assert forall p :: p in whole ==> p == a || p in parts;
    SplitJoin(whole, sep);
    assert whole[1..] == parts;
    assert Join(whole, sep) == a + [sep] + b;
  }

  function Digit(d: nat): char
    requires d < 10
  {
    "0123456789"[d]
  }

  /** `n.toString()` for a non-negative integer: its decimal digits. */
  function NatToString(n: nat): (s: string)
    ensures |s| >= 1
    ensures forall i :: 0 <= i < |s| ==> '0' <= s[i] <= '9'
    ensures s[0] == '0' ==> n == 0
  {
    if n < 10 then [Digit(n)] else NatToString(n / 10) + [Digit(n % 10)]
  }

  /** The number a string of decimal digits denotes. */
  function DecimalValue(s: string): nat
    requires forall i :: 0 <= i < |s| ==> '0' <= s[i] <= '9'
  {
    if s == [] then 0 else 10 * DecimalValue(s[..|s| - 1]) + (s[|s| - 1] as int - '0' as int)
  }

  /** Reading back the decimal string of a size gives the size. */
  lemma {:induction false} DecimalRoundTrip(n: nat)
    ensures DecimalValue(NatToString(n)) == n
  {
    if n >= 10 {
      DecimalRoundTrip(n / 10);
      var s := NatToString(n);
      assert s[..|s| - 1] == NatToString(n / 10);
    }
  }
}
