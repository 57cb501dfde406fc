/** String helpers shared by the C# and Rust parts of the model.
    Strings are sequences of Unicode scalar values. */
module Text {

  /** The characters for which both C# `char.IsWhiteSpace` and Rust
      `char::is_whitespace` hold (the two sets coincide). */
  predicate IsWhiteSpace(c: char) {
    || c == ' '
    || ('\t' <= c <= '\r')
    || c == '\U{0085}' || c == '\U{00A0}' || c == '\U{1680}'
    || ('\U{2000}' <= c <= '\U{200A}')
    || c == '\U{2028}' || c == '\U{2029}' || c == '\U{202F}'
    || c == '\U{205F}' || c == '\U{3000}'
  }

  /** C# `string.IsNullOrWhiteSpace` on a non-null string. */
  predicate IsBlank(s: string) {
    forall i :: 0 <= i < |s| ==> IsWhiteSpace(s[i])
  }

  /** Index of the first non-whitespace character at or after `i`, or `|s|`. */
  function SkipWhiteSpace(s: string, i: nat): (n: nat)
    requires i <= |s|
    ensures i <= n <= |s|
    ensures forall k :: i <= k < n ==> IsWhiteSpace(s[k])
    ensures n == |s| || !IsWhiteSpace(s[n])
    decreases |s| - i
  {
    if i < |s| && IsWhiteSpace(s[i]) then SkipWhiteSpace(s, i + 1) else i
  }

  /** Going down from the end position `j`, but not below `lo`: the end of
      the last non-whitespace character, or `lo`. */
  function SkipWhiteSpaceBack(s: string, j: nat, lo: nat): (n: nat)
    requires lo <= j <= |s|
    ensures lo <= n <= j
    ensures forall k :: n <= k < j ==> IsWhiteSpace(s[k])
    ensures n == lo || !IsWhiteSpace(s[n - 1])
    decreases j
  {
    if j > lo && IsWhiteSpace(s[j - 1]) then SkipWhiteSpaceBack(s, j - 1, lo) else j
  }

  /** C# `string.Trim()` and Rust `str::trim`: leading and trailing
      whitespace removed. */
  function Trim(s: string): (r: string)
  {
    var a := SkipWhiteSpace(s, 0);
    s[a..SkipWhiteSpaceBack(s, |s|, a)]
  }

  /** What trimming keeps is flanked by whitespace only and starts and ends
      with a non-whitespace character. */
  lemma TrimShape(s: string)
    ensures var a := SkipWhiteSpace(s, 0);
            var b := SkipWhiteSpaceBack(s, |s|, a);
            && Trim(s) == s[a..b]
            && IsBlank(s[..a]) && IsBlank(s[b..])
    ensures Trim(s) == [] || (!IsWhiteSpace(Trim(s)[0]) && !IsWhiteSpace(Trim(s)[|Trim(s)| - 1]))
  {
    var a := SkipWhiteSpace(s, 0);
    var b := SkipWhiteSpaceBack(s, |s|, a);
    assert forall k :: 0 <= k < a ==> s[..a][k] == s[k];
    assert forall k :: 0 <= k < |s| - b ==> s[b..][k] == s[b + k];
  }

  /** A string with no whitespace at either end is its own trim. */
  lemma TrimOfTrimmed(s: string)
    requires s == [] || (!IsWhiteSpace(s[0]) && !IsWhiteSpace(s[|s| - 1]))
    ensures Trim(s) == s
  {
  }

  lemma {:induction false} TrimIdempotent(s: string)
    ensures Trim(Trim(s)) == Trim(s)
  {
    TrimShape(s);
    TrimOfTrimmed(Trim(s));
  }

  /** Trimming leaves nothing exactly when the string is blank. */
  lemma TrimEmptyIffBlank(s: string)
    ensures Trim(s) == [] <==> IsBlank(s)
  {
  }

  predicate StartsWith(s: string, prefix: string) {
    |prefix| <= |s| && s[..|prefix|] == prefix
  }

  /** ASCII upper-casing, the part of ordinal case-insensitive comparison this
      model covers. */
  function FoldCase(c: char): (u: char)
    ensures 'a' <= c <= 'z' ==> u as int == c as int - 32
    ensures !('a' <= c <= 'z') ==> u == c
  {
    if 'a' <= c <= 'z' then (c as int - 32) as char else c
  }

  /** `string.Equals(a, b, StringComparison.OrdinalIgnoreCase)`. */
  predicate EqualsIgnoreCase(a: string, b: string) {
    |a| == |b| && forall i :: 0 <= i < |a| ==> FoldCase(a[i]) == FoldCase(b[i])
  }

  /** `s.EndsWith(suffix, StringComparison.OrdinalIgnoreCase)`. */
  predicate EndsWithIgnoreCase(s: string, suffix: string) {
    |suffix| <= |s| && EqualsIgnoreCase(s[|s| - |suffix|..], suffix)
  }

  /** The least index whose `name` equals `target` ignoring case, or -1:
      the first-match loop the profile and device searches share. */
  function IndexIgnoringCase<T>(xs: seq<T>, name: T -> string, target: string): (k: int)
    ensures -1 <= k < |xs|
    ensures k >= 0 ==> EqualsIgnoreCase(name(xs[k]), target)
    ensures forall j :: 0 <= j < |xs| && (k < 0 || j < k) ==> !EqualsIgnoreCase(name(xs[j]), target)
    decreases |xs|
  {
    if xs == [] then -1
    else if EqualsIgnoreCase(name(xs[0]), target) then 0
    else
      var k := IndexIgnoringCase(xs[1..], name, target);
      if k < 0 then -1 else k + 1
  }

  /** Case-insensitive equality is an equivalence relation. */
  lemma EqualsIgnoreCaseEquivalence(a: string, b: string, c: string)
    ensures EqualsIgnoreCase(a, a)
    ensures EqualsIgnoreCase(a, b) ==> EqualsIgnoreCase(b, a)
    ensures EqualsIgnoreCase(a, b) && EqualsIgnoreCase(b, c) ==> EqualsIgnoreCase(a, c)
  {
  }
}
