/**
 * The JavaScript string operations the curated-list page relies on, over
 * `seq<char>`: `startsWith`, `includes`, ASCII `toLowerCase`, `trim` and
 * `split` on a single separator character.
 */
module Text {

  /** `s.startsWith(prefix)`. */
  predicate StartsWith(s: string, prefix: string)
  {
    |prefix| <= |s| && s[..|prefix|] == prefix
  }

  /** The literal `lit` occurs in `s` at position `p`. */
  predicate At(s: string, p: nat, lit: string)
  {
    p + |lit| <= |s| && s[p..p + |lit|] == lit
  }

  lemma AtShift(s: string, p: nat, lit: string)
    requires 0 < |s|
    ensures At(s[1..], p, lit) <==> At(s, p + 1, lit)
  {
    if p + |lit| <= |s[1..]| {
      assert s[1..][p..p + |lit|] == s[p + 1..p + 1 + |lit|];
    }
  }

  /** A slice cut at five inner points is the concatenation of the six pieces. */
  lemma SliceParts(s: string, i0: nat, i1: nat, i2: nat, i3: nat, i4: nat, i5: nat, i6: nat)
    requires i0 <= i1 <= i2 <= i3 <= i4 <= i5 <= i6 <= |s|
    ensures s[i0..i6] == s[i0..i1] + s[i1..i2] + s[i2..i3] + s[i3..i4] + s[i4..i5] + s[i5..i6]
  {
    assert s[i0..i6] == s[i0..i5] + s[i5..i6];
    assert s[i0..i5] == s[i0..i4] + s[i4..i5];
    assert s[i0..i4] == s[i0..i3] + s[i3..i4];
    assert s[i0..i3] == s[i0..i2] + s[i2..i3];
    assert s[i0..i2] == s[i0..i1] + s[i1..i2];
  }

  /** `s.includes(t)`: some position of `s` holds `t`. */
  function Contains(s: string, t: string): (r: bool)
    ensures r <==> exists p: nat :: At(s, p, t)
    decreases |s|
  {
    if StartsWith(s, t) then
      assert At(s, 0, t);
      true
    else if |s| == 0 then
      false
    else
      var rest := Contains(s[1..], t);
      assert forall p: nat :: At(s[1..], p, t) <==> At(s, p + 1, t) by {
        forall p: nat ensures At(s[1..], p, t) <==> At(s, p + 1, t) { AtShift(s, p, t); }
      }
      assert rest <==> exists p: nat :: At(s, p, t) by {
        if !rest {
          forall p: nat ensures !At(s, p, t) {
            if p > 0 { assert !At(s[1..], p - 1, t); }
          }
        }
      }
      rest
  }

  /** `toLowerCase` on one character, restricted to ASCII letters. */
  function LowerChar(c: char): char
  {
    if 'A' <= c <= 'Z' then (c as int + 32) as char else c
  }

  /** `s.toLowerCase()` for ASCII: each letter `A`-`Z` becomes `a`-`z`, all else is kept. */
  function Lower(s: string): (r: string)
    ensures |r| == |s|
    ensures forall i :: 0 <= i < |s| ==> r[i] == LowerChar(s[i])
  {
    if s == [] then [] else [LowerChar(s[0])] + Lower(s[1..])
  }

  /**
   * The characters `String.prototype.trim` removes: the ECMAScript WhiteSpace
   * (tab, vertical tab, form feed, space, no-break space, zero-width no-break
   * space and category Zs) and LineTerminator (LF, CR, LS, PS) characters.
   */
  predicate IsJsWhitespace(c: char)
  {
    c == '\t' || c == '\n' || c == '\U{000B}' || c == '\U{000C}' || c == '\r' || c == ' '
    || c == '\U{00A0}' || c == '\U{1680}' || ('\U{2000}' <= c <= '\U{200A}')
    || c == '\U{2028}' || c == '\U{2029}' || c == '\U{202F}' || c == '\U{205F}'
    || c == '\U{3000}' || c == '\U{FEFF}'
  }

  predicate AllWhitespace(s: string)
  {
    forall i :: 0 <= i < |s| ==> IsJsWhitespace(s[i])
  }

  /** The length of the leading run of whitespace. */
  function LeadingSpace(s: string): (n: nat)
    ensures n <= |s|
    ensures forall i :: 0 <= i < n ==> IsJsWhitespace(s[i])
    ensures n < |s| ==> !IsJsWhitespace(s[n])
  {
    if s == [] || !IsJsWhitespace(s[0]) then 0 else 1 + LeadingSpace(s[1..])
  }

  /** Where the trailing run of whitespace starts. */
  function TrailingSpace(s: string): (n: nat)
    ensures n <= |s|
    ensures forall i :: n <= i < |s| ==> IsJsWhitespace(s[i])
    ensures 0 < n ==> !IsJsWhitespace(s[n - 1])
  {
    if s == [] || !IsJsWhitespace(s[|s| - 1]) then |s| else TrailingSpace(s[..|s| - 1])
  }

  /** Drops the leading whitespace: the result is a suffix of `s`. */
  function TrimStart(s: string): (r: string)
    ensures |r| <= |s| && r == s[|s| - |r|..]
    ensures AllWhitespace(s[..|s| - |r|])
    ensures r != [] ==> !IsJsWhitespace(r[0])
  {
    s[LeadingSpace(s)..]
  }

  /** Drops the trailing whitespace: the result is a prefix of `s`. */
  function TrimEnd(s: string): (r: string)
    ensures |r| <= |s| && r == s[..|r|]
    ensures AllWhitespace(s[|r|..])
    ensures r != [] ==> !IsJsWhitespace(r[|r| - 1])
  {
    s[..TrailingSpace(s)]
  }

  /** `r` is the slice of `s` from `a` with only whitespace before and after it. */
  ghost predicate TrimmedAt(s: string, a: nat, r: string)
  {
    a + |r| <= |s| && r == s[a..a + |r|] && AllWhitespace(s[..a]) && AllWhitespace(s[a + |r|..])
  }

  lemma TrimmedSuffixPrefix(s: string, t: string, r: string)
    requires |t| <= |s| && t == s[|s| - |t|..] && AllWhitespace(s[..|s| - |t|])
    requires |r| <= |t| && r == t[..|r|] && AllWhitespace(t[|r|..])
    ensures TrimmedAt(s, |s| - |t|, r)
  {
    var a := |s| - |t|;
    assert r == s[a..a + |r|];
    assert s[a + |r|..] == t[|r|..];
  }

  /**
   * `s.trim()`: the slice of `s` left when all leading and all trailing
   * whitespace is removed; the slice neither starts nor ends with whitespace.
   */
  function Trim(s: string): (r: string)
    ensures exists a :: TrimmedAt(s, a, r)
    ensures r != [] ==> !IsJsWhitespace(r[0]) && !IsJsWhitespace(r[|r| - 1])
  {
    var t := TrimStart(s);
    var r := TrimEnd(t);
    TrimmedSuffixPrefix(s, t, r);
    r
  }

  /** `lines.join(sep)`. */
  function Join(lines: seq<string>, sep: char): string
    requires |lines| >= 1
  {
    if |lines| == 1 then lines[0] else lines[0] + [sep] + Join(lines[1..], sep)
  }

  /**
   * `s.split(sep)` for a one-character separator: the pieces between the
   * separators, none of them holding `sep`, which `Join` puts back together.
   */
  function Split(s: string, sep: char): (lines: seq<string>)
    ensures |lines| >= 1
    ensures forall i :: 0 <= i < |lines| ==> sep !in lines[i]
    ensures Join(lines, sep) == s
  {
    if s == [] then
      [[]]
    else
      var rest := Split(s[1..], sep);
      if s[0] == sep then
        [[]] + rest
      else
        var lines := [[s[0]] + rest[0]] + rest[1..];
        assert lines[1..] == rest[1..];
        lines
  }
}
