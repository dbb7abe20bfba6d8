/** The JavaScript string operations the tutor relies on: `toLowerCase`,
    `includes` and `trim`. A Dafny `char` is a Unicode scalar value, while
    JavaScript strings are sequences of UTF-16 code units. The two agree on
    text inside the Basic Multilingual Plane, which holds every delimiter,
    white-space unit and search string used here; characters outside it and
    lone surrogates are not represented. */
module Text {

  /** `p` occurs in `s` starting at index `i`. */
  ghost predicate OccursAt(s: string, p: string, i: nat)
  {
    i + |p| <= |s| && s[i..i + |p|] == p
  }

  /** `s.includes(p)`: scans the start positions from `k` on. */
  function ContainsFrom(s: string, p: string, k: nat): (r: bool)
    requires k <= |s|
    ensures r <==> exists i :: k <= i <= |s| && OccursAt(s, p, i)
    decreases |s| - k
  {
    if k + |p| > |s| then
      assert forall i :: k <= i <= |s| ==> !OccursAt(s, p, i);
      false
    else if s[k..k + |p|] == p then
      assert OccursAt(s, p, k);
      true
    else
      ContainsFrom(s, p, k + 1)
  }

  /** `s.includes(p)`: some start position of `s` begins a copy of `p`. */
  function Contains(s: string, p: string): (r: bool)
    ensures r <==> exists i :: 0 <= i <= |s| && OccursAt(s, p, i)
  {
    ContainsFrom(s, p, 0)
  }

  /** Lower-casing of one code unit; only the ASCII capitals are mapped. */
  function LowerChar(c: char): char
  {
    if IsUpper(c) then (c as int + 32) as char else c
  }

  predicate IsUpper(c: char)
  {
    'A' <= c <= 'Z'
  }

  /** `s.toLowerCase()` restricted to ASCII: the same length; no capital is
      left, each capital becomes the letter 32 code points above it, and
      every other unit is kept. */
  function ToLower(s: string): (r: string)
    ensures |r| == |s|
    ensures forall i :: 0 <= i < |r| ==> !IsUpper(r[i])
    ensures forall i :: 0 <= i < |s| && IsUpper(s[i]) ==> r[i] as int == s[i] as int + 32
    ensures forall i :: 0 <= i < |s| && !IsUpper(s[i]) ==> r[i] == s[i]
  {
    seq(|s|, i requires 0 <= i < |s| => LowerChar(s[i]))
  }

  /** Lower-casing twice is lower-casing once, and a text without capitals
      is its own lower-case form. */
  lemma ToLowerIdempotent(s: string)
    ensures ToLower(ToLower(s)) == ToLower(s)
    ensures (forall i :: 0 <= i < |s| ==> !IsUpper(s[i])) ==> ToLower(s) == s
  {
  }

  /** The units `trim` removes: ECMAScript white space and line terminators. */
  predicate IsSpace(c: char)
  {
    c == '\t' || c == '\n' || c == '\U{000B}' || c == '\U{000C}' || c == '\r' || c == ' '
    || c == '\U{00A0}' || c == '\U{1680}' || ('\U{2000}' <= c <= '\U{200A}')
    || c == '\U{2028}' || c == '\U{2029}' || c == '\U{202F}' || c == '\U{205F}'
    || c == '\U{3000}' || c == '\U{FEFF}'
  }

  predicate AllSpace(s: string)
  {
    forall i :: 0 <= i < |s| ==> IsSpace(s[i])
  }

  /** The number of white-space units `s` starts with. */
  function LeadingSpaces(s: string): (n: nat)
    ensures n <= |s| && AllSpace(s[..n])
    ensures n < |s| ==> !IsSpace(s[n])
  {
    if s == [] || !IsSpace(s[0]) then 0
    else
      var n := 1 + LeadingSpaces(s[1..]);
      assert s[..n] == [s[0]] + s[1..][..n - 1];
      n
  }

  /** The number of white-space units `s` ends with. */
  function TrailingSpaces(s: string): (n: nat)
    ensures n <= |s| && AllSpace(s[|s| - n..])
    ensures n < |s| ==> !IsSpace(s[|s| - 1 - n])
  {
    if s == [] || !IsSpace(s[|s| - 1]) then 0
    else
      var n := 1 + TrailingSpaces(s[..|s| - 1]);
      assert s[|s| - n..] == s[..|s| - 1][|s| - n..] + [s[|s| - 1]];
      n
  }

  /** `s.trim()`: `s` is the trimmed text with white space only around it;
      the result is empty exactly when `s` is all white space, and otherwise
      neither starts nor ends with white space. */
  function Trim(s: string): (r: string)
    ensures AllSpace(s) <==> r == []
    ensures r != [] ==> !IsSpace(r[0]) && !IsSpace(r[|r| - 1])
    ensures LeadingSpaces(s) + |r| <= |s|
    ensures s == s[..LeadingSpaces(s)] + r + s[LeadingSpaces(s) + |r|..]
    ensures AllSpace(s[LeadingSpaces(s) + |r|..])
  {
    var i := LeadingSpaces(s);
    if i == |s| then
      assert s[..i] == s;
      []
    else
      var n := TrailingSpaces(s);
      TrimmedCore(s, i, n);
      var r := s[i..|s| - n];
      assert s[i + |r|..] == s[|s| - n..];
      r
  }

  /** Past a leading run of `i` white-space units that does not cover `s`
      and before a trailing run of `n`, there is a non-empty text that starts
      and ends with a non-space unit. */
  lemma TrimmedCore(s: string, i: nat, n: nat)
    requires i < |s| && !IsSpace(s[i])
    requires n <= |s| && AllSpace(s[|s| - n..])
    requires n < |s| ==> !IsSpace(s[|s| - 1 - n])
    ensures i < |s| - n
    ensures !IsSpace(s[i..|s| - n][0]) && !IsSpace(s[i..|s| - n][|s| - n - i - 1])
    ensures s == s[..i] + s[i..|s| - n] + s[|s| - n..]
    ensures !AllSpace(s)
  {
    assert s == s[..i] + s[i..|s| - n] + s[|s| - n..];
  }
}
