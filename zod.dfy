/** The checks of the validation schemas (`z.string().min/max`, `z.uuid`,
    `z.email`, `z.url`, `regex(/^[1-5]$/)`, `z.enum`) and how an action
    turns a failed parse into its one error string. */
module Zod {
  import opened Common
  import opened Text
  import opened DbSchema

  /** One validation issue: the field it is about (`issue.path[0]`) and
      its message. Issues come in the order of the schema's keys. */
  datatype Issue = Issue(path: string, message: string)

  /** A schema's outcome: the parsed value or a non-empty list of issues. */
  datatype Parsed<+T> = Valid(value: T) | Invalid(issues: seq<Issue>)

  /** `result.error.issues[0]?.message || "Invalid input"`. */
  function FirstIssueMessage(issues: seq<Issue>): (m: string)
    ensures m != ""
    ensures issues != [] && issues[0].message != "" ==> m == issues[0].message
    ensures issues == [] ==> m == "Invalid input"
  {
    if issues != [] && issues[0].message != "" then issues[0].message else "Invalid input"
  }

  /** The library's message for a form field that is missing (`null`). */
  const ExpectedStringMessage := "Invalid input: expected string, received null"

  /** `z.string().min(lo, loMessage).max(hi, hiMessage)` on a string that is
      present: at most one issue, since both bounds cannot fail at once. The
      bounds are on `length`, in UTF-16 code units. */
  function LengthIssues(path: string, s: string, lo: nat, loMessage: string, hi: nat, hiMessage: string)
    : (issues: seq<Issue>)
    ensures issues == [] <==> lo <= Utf16Length(s) <= hi
    ensures |issues| <= 1
    ensures issues != [] ==> issues[0] == Issue(path, if Utf16Length(s) < lo then loMessage else hiMessage)
  {
    var n := Utf16Length(s);
    if n < lo then [Issue(path, loMessage)]
    else if n > hi then [Issue(path, hiMessage)]
    else []
  }

  const TitleRequired := "Title is required"
  const TitleTooLong := "Title is too long"

  /** The `title` key of the todo and note schemas, on a form field that may be missing. */
  function TitleIssues(title: Option<string>): (issues: seq<Issue>)
    ensures issues == [] <==> title.Some? && 1 <= Utf16Length(title.value) <= 255
    ensures title.None? ==> issues == [Issue("title", ExpectedStringMessage)]
    ensures title == Some("") ==> issues == [Issue("title", TitleRequired)]
    ensures title.Some? && Utf16Length(title.value) > 255 ==> issues == [Issue("title", TitleTooLong)]
  {
    if title.None? then [Issue("title", ExpectedStringMessage)]
    else LengthIssues("title", title.value, 1, TitleRequired, 255, TitleTooLong)
  }

  /** `z.string().min(lo, loMessage)` with no upper bound, in UTF-16 code
      units. */
  function MinLengthIssues(path: string, s: string, lo: nat, loMessage: string): (issues: seq<Issue>)
    ensures issues == [] <==> lo <= Utf16Length(s)
    ensures issues != [] ==> issues == [Issue(path, loMessage)]
  {
    if Utf16Length(s) < lo then [Issue(path, loMessage)] else []
  }

  /** 128 characters outside the Basic Multilingual Plane are 256 code units,
      so such a title is too long although it has only 128 characters. */
  lemma AstralTitleTooLong(title: string)
    requires |title| == 128 && forall i :: 0 <= i < 128 ==> title[i] == '\U{1F600}'
    ensures TitleIssues(Some(title)) == [Issue("title", TitleTooLong)]
  {
    Utf16LengthOfAstral(title);
  }

  /** Three such characters are six code units, enough for `min(6)`. */
  lemma AstralMinLength(path: string, s: string, message: string)
    requires |s| == 3 && forall i :: 0 <= i < 3 ==> s[i] as int >= 0x1_0000
    ensures MinLengthIssues(path, s, 6, message) == []
  {
    Utf16LengthOfAstral(s);
  }

  /** The positions of the four hyphens in the 8-4-4-4-12 layout. */
  predicate IsHyphenPosition(i: int) {
    i == 8 || i == 13 || i == 18 || i == 23
  }

  /** Hex digits in the 8-4-4-4-12 layout. */
  predicate IsUuidLayout(s: string) {
    && |s| == 36
    && (forall i :: 0 <= i < 36 && IsHyphenPosition(i) ==> s[i] == '-')
    && (forall i :: 0 <= i < 36 && !IsHyphenPosition(i) ==> IsHexDigit(s[i]))
  }

  /** Every digit of a laid-out UUID is `d` (the nil and the max UUID). */
  predicate AllDigits(s: string, d: char)
    requires |s| == 36
  {
    forall i :: 0 <= i < 36 && !IsHyphenPosition(i) ==> s[i] == d
  }

  /** `z.uuid()`: the layout with a version digit 1-8 and a variant digit 8,
      9, a or b, or the nil or the max UUID. */
  predicate IsUuid(s: string) {
    && IsUuidLayout(s)
    && (('1' <= s[14] <= '8' && s[19] in "89abAB") || AllDigits(s, '0') || AllDigits(s, 'f'))
  }

  /** `z.uuid(message)` as a list of issues. */
  function UuidIssues(path: string, s: string, message: string): (issues: seq<Issue>)
    ensures issues == [] <==> IsUuid(s)
    ensures issues != [] ==> issues == [Issue(path, message)]
  {
    if IsUuid(s) then [] else [Issue(path, message)]
  }

  /** The offset of the `n`th byte's first digit in the 8-4-4-4-12 layout. */
  function LayoutOffset(n: nat): nat {
    2 * n + (if n > 3 then 1 else 0) + (if n > 5 then 1 else 0) + (if n > 7 then 1 else 0) + (if n > 9 then 1 else 0)
  }

  /** Every id the schemas accept is text the store accepts as a uuid, so a
      validated id never makes the query fail. */
  lemma UuidIsUuidText(s: string)
    requires IsUuid(s)
    ensures IsUuidText(s)
  {
    LayoutBytes(s, 0);
    assert s[LayoutOffset(0)..] == s;
  }

  lemma {:induction false} LayoutBytes(s: string, n: nat)
    requires IsUuidLayout(s) && n <= 16
    ensures LayoutOffset(n) <= 36 && UuidBytes(s[LayoutOffset(n)..], n)
    decreases 16 - n
  {
    var p := LayoutOffset(n);
    if n < 16 {
      LayoutBytes(s, n + 1);
      assert !IsHyphenPosition(p) && !IsHyphenPosition(p + 1);
      var rest := s[p..][2..];
      assert rest == s[p + 2..];
      if n == 3 || n == 5 || n == 7 || n == 9 {
        assert IsHyphenPosition(p + 2);
        assert rest[1..] == s[LayoutOffset(n + 1)..];
      } else {
        assert p + 2 == LayoutOffset(n + 1);
        assert rest != [] ==> !IsHyphenPosition(p + 2) && rest[0] == s[p + 2];
      }
    } else {
      assert p == 36;
    }
  }

  /** A UUID never contains a '/', so it can head a storage path. */
  lemma UuidHasNoSlash(s: string)
    requires IsUuid(s)
    ensures '/' !in s
  {
    forall i | 0 <= i < 36 ensures s[i] != '/' {
      if !IsHyphenPosition(i) { assert IsHexDigit(s[i]); }
    }
  }

  predicate IsAsciiLetter(c: char) {
    'a' <= c <= 'z' || 'A' <= c <= 'Z'
  }

  predicate IsAsciiAlnum(c: char) {
    IsAsciiLetter(c) || '0' <= c <= '9'
  }

  /** A character allowed in the local part of an address. */
  predicate IsLocalChar(c: char) {
    IsAsciiAlnum(c) || c == '_' || c == '\'' || c == '+' || c == '-' || c == '.'
  }

  /** `([A-Za-z0-9_'+\-\.]*)[A-Za-z0-9_+-]` not starting with '.'. */
  predicate IsLocalPart(l: string) {
    |l| >= 1
    && l[0] != '.'
    && (forall i :: 0 <= i < |l| ==> IsLocalChar(l[i]))
    && (IsAsciiAlnum(l[|l| - 1]) || l[|l| - 1] in "_+-")
  }

  /** One domain label: `[A-Za-z0-9][A-Za-z0-9\-]*`. */
  predicate IsDomainLabel(l: string) {
    |l| >= 1
    && IsAsciiAlnum(l[0])
    && (forall i :: 0 <= i < |l| ==> IsAsciiAlnum(l[i]) || l[i] == '-')
  }

  /** `[A-Za-z]{2,}` */
  predicate IsTopLevelDomain(l: string) {
    |l| >= 2 && forall i :: 0 <= i < |l| ==> IsAsciiLetter(l[i])
  }

  /** `([A-Za-z0-9][A-Za-z0-9\-]*\.)+[A-Za-z]{2,}`: at least one label and a
      top-level domain, joined by dots. */
  predicate IsDomain(d: string) {
    var labels := Split(d, '.');
    |labels| >= 2
    && (forall i :: 0 <= i < |labels| - 1 ==> IsDomainLabel(labels[i]))
    && IsTopLevelDomain(labels[|labels| - 1])
  }

  /** `z.email()`: the library's default address pattern, a local part, one
      '@' and a domain, with no ".." anywhere. */
  predicate IsEmail(s: string) {
    var parts := Split(s, '@');
    |parts| == 2 && IsLocalPart(parts[0]) && IsDomain(parts[1]) && !Contains(s, "..")
  }

  /** An address splits into exactly its local part and its domain around
      its single '@'. */
  lemma EmailParts(s: string)
    requires IsEmail(s)
    ensures var parts := Split(s, '@'); s == parts[0] + "@" + parts[1]
  {
    var parts := Split(s, '@');
    assert parts[1..] == [parts[1]];
    assert Join(parts[1..], '@') == parts[1];
    assert Join(parts, '@') == parts[0] + ['@'] + parts[1];
  }

  predicate IsSchemeChar(c: char) {
    IsAsciiAlnum(c) || c == '+' || c == '-' || c == '.'
  }

  /** The schemes the URL standard calls special: they need a host. */
  predicate IsSpecialScheme(scheme: string) {
    scheme in {"http", "https", "ws", "wss", "ftp"}
  }

  /** `z.string().url()`, which accepts what `new URL(s)` parses, as
      approximated here: a scheme (a letter, then letters, digits, '+', '-'
      or '.'), a ':', and for the special schemes a non-empty host after the
      slashes. */
  predicate IsUrl(s: string) {
    exists colon :: 0 < colon < |s| && s[colon] == ':' && IsUrlAt(s, colon)
  }

  predicate IsUrlAt(s: string, colon: nat)
    requires colon < |s|
  {
    IsAsciiLetter(s[0])
    && (forall i :: 0 <= i < colon ==> IsSchemeChar(s[i]))
    && (IsSpecialScheme(ToLower(s[..colon])) ==> HasHost(s[colon + 1..]))
  }

  /** After any run of '/' or '\', at least one character that does not
      end the host. */
  predicate HasHost(rest: string) {
    var afterSlashes := StripSlashes(rest);
    afterSlashes != [] && afterSlashes[0] !in "/\\?#"
  }

  function StripSlashes(s: string): (r: string)
    ensures |r| <= |s| && r == s[|s| - |r|..]
    ensures r == [] || r[0] !in "/\\"
  {
    if s != [] && s[0] in "/\\" then StripSlashes(s[1..]) else s
  }

  /** `z.string().regex(/^[1-5]$/)`: exactly one digit from 1 to 5. */
  predicate IsRating(s: string) {
    |s| == 1 && '1' <= s[0] <= '5'
  }

  /** The numeric value of a valid rating. */
  function RatingValue(s: string): (v: nat)
    requires IsRating(s)
    ensures 1 <= v <= 5
  {
    s[0] as int - '0' as int
  }
}
