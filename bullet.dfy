/**
 * The resource pattern of the curated-list page, `/- \[(.*?)\]\((.*?)\) - (.*)/`,
 * matched with `String.prototype.match` (unanchored, first match wins) and
 * the trailing-period removal `.replace(/\.$/, '')` applied to the third group.
 *
 * A match is identified by three positions in the line: `start` (where
 * `- [` stands), `close` (where `](` ends the first lazy group) and `sep`
 * (where `) - ` ends the second lazy group). The engine's backtracking
 * search is written out as functions; the lemmas `LazyUrlIsLeast`,
 * `LazyNameIsLeast` and `SearchIsLeast` state that the match found is the
 * least such triple in lexicographic order, which is what leftmost-first
 * matching with two lazy groups means.
 */
module BulletPattern {
  import opened Wrappers
  import opened Text

  datatype Resource = Resource(name: string, url: string, description: string)

  /** A match: `- [` at `start`, `](` at `close`, `) - ` at `sep`. */
  datatype Span = Span(start: nat, close: nat, sep: nat)

  /** Characters that `.` does not match. */
  predicate IsLineTerminator(c: char)
  {
    c == '\n' || c == '\r' || c == '\U{2028}' || c == '\U{2029}'
  }

  /** `s` holds no line terminator: `.` can match each of its characters. */
  predicate TerminatorFree(s: string)
  {
    forall i :: 0 <= i < |s| ==> !IsLineTerminator(s[i])
  }

  /** Where a run of `.` starting at `a` has to stop: the first line terminator at or after `a`, or the end. */
  function DotEnd(s: string, a: nat): (e: nat)
    requires a <= |s|
    ensures a <= e <= |s|
    ensures forall m :: a <= m < e ==> !IsLineTerminator(s[m])
    ensures e < |s| ==> IsLineTerminator(s[e])
    decreases |s| - a
  {
    if a == |s| || IsLineTerminator(s[a]) then a else DotEnd(s, a + 1)
  }

  /**
   * For a match starting at `st` (so its first group starts at `st + 3`):
   * `](` at `close` ends the first group and `) - ` at `sep` ends the second.
   */
  predicate GroupsFit(s: string, st: nat, close: nat, sep: nat)
    requires st + 3 <= |s|
  {
    && st + 3 <= close <= DotEnd(s, st + 3) && At(s, close, "](")
    && close + 2 <= sep <= DotEnd(s, close + 2) && At(s, sep, ") - ")
  }

  /** The whole pattern matches with its groups ending at `close` and `sep`. */
  predicate IsMatch(s: string, start: nat, close: nat, sep: nat)
  {
    At(s, start, "- [") && GroupsFit(s, start, close, sep)
  }

  /** `x` comes no later than `y`: by start, then by the end of the first group, then of the second. */
  predicate LexLeq(x: Span, y: Span)
  {
    x.start < y.start || (x.start == y.start && (x.close < y.close || (x.close == y.close && x.sep <= y.sep)))
  }

  /** The second, lazy group: try to end it at `k`, then `k + 1`, ... until `) - ` follows. */
  function LazyUrl(s: string, b: nat, k: nat): (r: Option<nat>)
    requires b <= |s| && b <= k <= DotEnd(s, b)
    ensures r.Some? ==> k <= r.value <= DotEnd(s, b) && At(s, r.value, ") - ")
    decreases |s| - k
  {
    if At(s, k, ") - ") then Some(k)
    else if k < |s| && !IsLineTerminator(s[k]) then LazyUrl(s, b, k + 1)
    else None
  }

  /** The second group stops at the first `) - ` it can reach. */
  lemma {:induction false} LazyUrlIsLeast(s: string, b: nat, k: nat, k': nat)
    requires b <= |s| && b <= k <= k' <= DotEnd(s, b) && At(s, k', ") - ")
    ensures LazyUrl(s, b, k).Some? && LazyUrl(s, b, k).value <= k'
    decreases |s| - k
  {
    if !At(s, k, ") - ") {
      assert k < k';
      LazyUrlIsLeast(s, b, k + 1, k');
    }
  }

  /** A literal without line terminators that stands inside a run of `.` does not shorten the run. */
  lemma DotEndPast(s: string, a: nat, p: nat, lit: string)
    requires a <= |s| && a <= p <= DotEnd(s, a) && At(s, p, lit)
    requires forall i :: 0 <= i < |lit| ==> !IsLineTerminator(lit[i])
    ensures DotEnd(s, p + |lit|) == DotEnd(s, a)
    decreases |s| - a
  {
    if a < p {
      DotEndPast(s, a + 1, p, lit);
    } else if lit != [] {
      assert s[a] == lit[0];
      assert At(s, a + 1, lit[1..]) by { assert s[a + 1..a + 1 + |lit[1..]|] == lit[1..]; }
      DotEndPast(s, a + 1, a + 1, lit[1..]);
    }
  }

  /**
   * The first, lazy group of a match starting at `st`: try to end it at `j`,
   * then `j + 1`, ... until `](` and a successful second group follow.
   */
  function LazyName(s: string, st: nat, j: nat): (r: Option<Span>)
    requires st + 3 <= |s| && st + 3 <= j <= DotEnd(s, st + 3)
    ensures r.Some? ==> r.value.start == st && j <= r.value.close && GroupsFit(s, st, r.value.close, r.value.sep)
    decreases |s| - j
  {
    var url := if At(s, j, "](") then LazyUrl(s, j + 2, j + 2) else None;
    if url.Some? then
      Some(Span(st, j, url.value))
    else if j < |s| && !IsLineTerminator(s[j]) then
      LazyName(s, st, j + 1)
    else
      None
  }

  /** Where `](` and a second group follow, the first group ends at `j`. */
  lemma LazyNameHere(s: string, st: nat, j: nat)
    requires st + 3 <= |s| && st + 3 <= j <= DotEnd(s, st + 3)
    requires At(s, j, "](") && LazyUrl(s, j + 2, j + 2).Some?
    ensures LazyName(s, st, j) == Some(Span(st, j, LazyUrl(s, j + 2, j + 2).value))
  {
  }

  /** Either the first group ends at `j`, or, `.` going on, the search gives what it gives from `j + 1`. */
  lemma LazyNameStep(s: string, st: nat, j: nat)
    requires st + 3 <= |s| && st + 3 <= j < DotEnd(s, st + 3)
    ensures || (LazyName(s, st, j).Some? && LazyName(s, st, j).value.close == j)
            || LazyName(s, st, j) == LazyName(s, st, j + 1)
  {
    assert j < |s| && !IsLineTerminator(s[j]);
  }

  /** Where `](` and a second group ending by `p` follow `j`, the first group ends at `j`. */
  lemma LazyNameAtClose(s: string, st: nat, j: nat, p: nat)
    requires st + 3 <= |s| && st + 3 <= j <= DotEnd(s, st + 3) && GroupsFit(s, st, j, p)
    ensures LazyName(s, st, j).Some? && LazyName(s, st, j).value.close == j && LazyName(s, st, j).value.sep <= p
  {
    LazyUrlIsLeast(s, j + 2, j + 2, p);
    LazyNameHere(s, st, j);
  }

  /** The first group stops at the first `](` that a second group can follow. */
  lemma {:induction false} LazyNameIsLeast(s: string, st: nat, j: nat, c: nat, p: nat)
    requires st + 3 <= |s| && st + 3 <= j <= DotEnd(s, st + 3)
    requires j <= c && GroupsFit(s, st, c, p)
    ensures LazyName(s, st, j).Some?
    ensures LazyName(s, st, j).value.close < c || (LazyName(s, st, j).value.close == c && LazyName(s, st, j).value.sep <= p)
    decreases |s| - j
  {
    if c == j {
      LazyNameAtClose(s, st, j, p);
    } else {
      LazyNameStep(s, st, j);
      if !(LazyName(s, st, j).Some? && LazyName(s, st, j).value.close == j) {
        LazyNameIsLeast(s, st, j + 1, c, p);
      }
    }
  }

  /** The leftmost position at or after `i` where the pattern matches. */
  function Search(s: string, i: nat): (r: Option<Span>)
    requires i <= |s|
    ensures r.Some? ==> i <= r.value.start && IsMatch(s, r.value.start, r.value.close, r.value.sep)
    decreases |s| - i
  {
    var m := if At(s, i, "- [") then LazyName(s, i, i + 3) else None;
    if m.Some? then
      m
    else if i < |s| then
      Search(s, i + 1)
    else
      None
  }

  /** The match found is the least of all matches starting at or after `i`. */
  lemma {:induction false} SearchIsLeast(s: string, i: nat, st: nat, c: nat, p: nat)
    requires i <= st && IsMatch(s, st, c, p)
    ensures i <= |s| && Search(s, i).Some? && LexLeq(Search(s, i).value, Span(st, c, p))
    decreases |s| - i
  {
    if st == i {
      LazyNameIsLeast(s, i, i + 3, c, p);
    } else if !(At(s, i, "- [") && LazyName(s, i, i + 3).Some?) {
      SearchIsLeast(s, i + 1, st, c, p);
    }
  }

  /** `d.replace(/\.$/, '')`: one final `.` is removed, if there is one. */
  function StripFinalPeriod(d: string): (r: string)
    ensures d != [] && d[|d| - 1] == '.' ==> r + "." == d
    ensures d == [] || d[|d| - 1] != '.' ==> r == d
  {
    if d != [] && d[|d| - 1] == '.' then d[..|d| - 1] else d
  }

  /** `line.match(...)` turned into a resource: the two lazy groups and the rest of the line up to a line terminator. */
  function ParseResource(line: string): (r: Option<Resource>)
    ensures r.Some? ==> |r.value.name| + |r.value.url| + |r.value.description| + 9 <= |line|
  {
    var m := Search(line, 0);
    if m.None? then None else Some(ResourceOf(line, m.value, DotEnd(line, m.value.sep + 4)))
  }

  /** A line yields a resource exactly when the pattern matches somewhere in it. */
  lemma ParseResourceFindsMatch(line: string)
    ensures ParseResource(line).Some? <==> exists st, c, p :: IsMatch(line, st, c, p)
  {
    if st, c, p :| IsMatch(line, st, c, p) {
      SearchIsLeast(line, 0, st, c, p);
    }
  }

  /** The resource read off a match whose greedy third group ends at `e`: the description drops one final period. */
  function ResourceOf(line: string, m: Span, e: nat): Resource
    requires m.start + 3 <= m.close && m.close + 2 <= m.sep && m.sep + 4 <= e <= |line|
  {
    Resource(line[m.start + 3..m.close], line[m.close + 2..m.sep], StripFinalPeriod(line[m.sep + 4..e]))
  }

  /** `- [`, `](` and `) - ` stand, in this order and without overlapping, at the three positions of `m`. */
  predicate Framed(line: string, m: Span)
  {
    && m.start + 3 <= m.close && m.close + 2 <= m.sep && m.sep + 4 <= |line|
    && At(line, m.start, "- [") && At(line, m.close, "](") && At(line, m.sep, ") - ")
  }

  /** A run of `.` from `a` stops at `e`: no line terminator before it, and the end of the line or a line terminator at it. */
  predicate RunEnd(line: string, a: nat, e: nat)
  {
    && a <= e <= |line|
    && (e == |line| || IsLineTerminator(line[e]))
    && (forall i :: a <= i < e ==> !IsLineTerminator(line[i]))
  }

  /** The text a match spans: `- [` name `](` url `) - ` raw. */
  function Spanned(name: string, url: string, raw: string): string
  {
    "- [" + name + "](" + url + ") - " + raw
  }

  /**
   * From `st` the line holds `- [` name `](` url `) - ` raw, followed by the
   * end of the line or a line terminator; raw holds no line terminator, and
   * the description is raw without one final period.
   */
  predicate LaidOutAt(line: string, st: nat, raw: string, res: Resource)
  {
    var t := Spanned(res.name, res.url, raw);
    && At(line, st, t)
    && (st + |t| == |line| || IsLineTerminator(line[st + |t|]))
    && res.description == StripFinalPeriod(raw)
    && TerminatorFree(raw)
  }

  /** `res` is read off `line` somewhere, in the shape `LaidOutAt` describes. */
  ghost predicate LaidOut(line: string, res: Resource)
  {
    exists st: nat, raw :: LaidOutAt(line, st, raw, res)
  }

  /**
   * Neither group holds a line terminator, the name holds no `](` and the
   * url no `) - `: the name stops at the FIRST `](` and the url at the first
   * `) - ` after it.
   */
  predicate ShortestGroups(res: Resource)
  {
    && TerminatorFree(res.name)
    && TerminatorFree(res.url)
    && !Contains(res.name, "](")
    && !Contains(res.url, ") - ")
  }
}
