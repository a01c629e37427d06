/**
 * Properties of the resource pattern of the curated-list page: the resource
 * it reads is laid out in the line as `- [` name `](` url `) - ` description,
 * and its two lazy groups are the shortest the line allows.
 */
module BulletFacts {
  import opened Wrappers
  import opened Text
  import opened BulletPattern

  /** The match a parsed resource was read from, and the end of its greedy third group. */
  lemma ParsedMatch(line: string) returns (m: Span, e: nat)
    requires ParseResource(line).Some?
    ensures m == Search(line, 0).value && e == DotEnd(line, m.sep + 4)
    ensures IsMatch(line, m.start, m.close, m.sep) && Framed(line, m) && m.sep + 4 <= e <= |line|
    ensures ParseResource(line).value == ResourceOf(line, m, e)
  {
    m := Search(line, 0).value;
    e := DotEnd(line, m.sep + 4);
    assert IsMatch(line, m.start, m.close, m.sep);
    MatchFramed(line, m);
    assert ParseResource(line) == Some(ResourceOf(line, m, e));
  }

  /**
   * The match found is the leftmost one, and among those starting there the
   * one whose groups end first.
   */
  lemma FoundMatchIsLeast(line: string)
    requires Search(line, 0).Some?
    ensures var m := Search(line, 0).value;
      && (forall st, c, p :: IsMatch(line, st, c, p) ==> m.start <= st)
      && (forall c, p :: IsMatch(line, m.start, c, p) ==> m.close < c || (m.close == c && m.sep <= p))
  {
    forall st, c, p | IsMatch(line, st, c, p)
      ensures LexLeq(Search(line, 0).value, Span(st, c, p))
    {
      SearchIsLeast(line, 0, st, c, p);
    }
  }

  lemma MatchFramed(line: string, m: Span)
    requires IsMatch(line, m.start, m.close, m.sep)
    ensures Framed(line, m)
  {
  }

  lemma DotEndIsRunEnd(line: string, a: nat)
    requires a <= |line|
    ensures RunEnd(line, a, DotEnd(line, a))
  {
  }

  lemma SpannedSlice(line: string, st: nat, c: nat, p: nat, e: nat)
    requires st + 3 <= c && c + 2 <= p && p + 4 <= e <= |line|
    requires At(line, st, "- [") && At(line, c, "](") && At(line, p, ") - ")
    ensures line[st..e] == Spanned(line[st + 3..c], line[c + 2..p], line[p + 4..e])
  {
    SliceParts(line, st, st + 3, c, c + 2, p, p + 4, e);
  }

  /** A framed match whose third group runs to `e` spells out the slice from its start to `e`. */
  lemma SpanAt(line: string, m: Span, e: nat)
    requires Framed(line, m) && m.sep + 4 <= e <= |line|
    ensures var res := ResourceOf(line, m, e); var t := Spanned(res.name, res.url, line[m.sep + 4..e]);
      m.start + |t| == e && At(line, m.start, t)
  {
    assert ResourceOf(line, m, e).name == line[m.start + 3..m.close];
    assert ResourceOf(line, m, e).url == line[m.close + 2..m.sep];
    SpannedSlice(line, m.start, m.close, m.sep, e);
  }

  /** A run of `.` holds no line terminator. */
  lemma RunIsTerminatorFree(line: string, a: nat, e: nat)
    requires RunEnd(line, a, e)
    ensures TerminatorFree(line[a..e])
  {
  }

  /**
   * With `- [`, `](` and `) - ` at the positions of `m` and the third group
   * running as far as `.` can, to `e`, the resource read off `m` is laid out
   * in the line from the match's start.
   */
  lemma GroupsLaidOut(line: string, m: Span, e: nat)
    requires Framed(line, m) && m.sep + 4 <= e && RunEnd(line, m.sep + 4, e)
    ensures LaidOutAt(line, m.start, line[m.sep + 4..e], ResourceOf(line, m, e))
  {
    SpanAt(line, m, e);
    RunIsTerminatorFree(line, m.sep + 4, e);
  }

  /** A resource laid out from some position is laid out. */
  lemma LaidOutSomewhere(line: string, st: nat, raw: string, res: Resource)
    requires LaidOutAt(line, st, raw, res)
    ensures LaidOut(line, res)
  {
  }

  /** A parsed resource is laid out in its line as the pattern says. */
  lemma ResourceLayout(line: string)
    requires ParseResource(line).Some?
    ensures LaidOut(line, ParseResource(line).value)
  {
    var m, e := ParsedMatch(line);
    DotEndIsRunEnd(line, m.sep + 4);
    GroupsLaidOut(line, m, e);
    LaidOutSomewhere(line, m.start, line[m.sep + 4..e], ResourceOf(line, m, e));
  }

  /** A literal found in a slice stands in the whole string at the shifted position. */
  lemma AtInSlice(s: string, a: nat, b: nat, q: nat, lit: string)
    requires a <= b <= |s| && At(s[a..b], q, lit)
    ensures At(s, a + q, lit) && a + q + |lit| <= b
  {
    var n := |lit|;
    assert s[a..b][q..q + n] == lit;
    forall i | 0 <= i < n
      ensures s[a + q..a + q + n][i] == lit[i]
    {
      assert s[a..b][q..q + n][i] == lit[i];
      assert s[a..b][q + i] == s[a + q + i];
    }
    assert s[a + q..a + q + n] == lit;
  }

  /** A `](` inside the first group can end it instead, with the same second group end. */
  lemma EarlierClose(line: string, st: nat, c: nat, p: nat, c': nat)
    requires st + 3 <= |line| && GroupsFit(line, st, c, p)
    requires st + 3 <= c' && c' + 2 <= c && At(line, c', "](")
    ensures GroupsFit(line, st, c', p)
  {
    DotEndPast(line, st + 3, c, "](");
    DotEndPast(line, st + 3, c', "](");
  }

  /** Within a match, the first group ends at the first `](`: an earlier one would give a smaller match. */
  lemma NameIsShortest(line: string, m: Span)
    requires IsMatch(line, m.start, m.close, m.sep)
    requires forall c, p :: IsMatch(line, m.start, c, p) ==> m.close < c || (m.close == c && m.sep <= p)
    ensures !Contains(line[m.start + 3..m.close], "](")
  {
    var st, c, p := m.start, m.close, m.sep;
    if Contains(line[st + 3..c], "](") {
      var q: nat :| At(line[st + 3..c], q, "](");
      AtInSlice(line, st + 3, c, q, "](");
      EarlierClose(line, st, c, p, st + 3 + q);
      assert IsMatch(line, st, st + 3 + q, p);
      assert false;
    }
  }

  /** Within a match, the second group ends at the first `) - ` after `](`: an earlier one would give a smaller match. */
  lemma UrlIsShortest(line: string, m: Span)
    requires IsMatch(line, m.start, m.close, m.sep)
    requires forall c, p :: IsMatch(line, m.start, c, p) ==> m.close < c || (m.close == c && m.sep <= p)
    ensures !Contains(line[m.close + 2..m.sep], ") - ")
  {
    var st, c, p := m.start, m.close, m.sep;
    if Contains(line[c + 2..p], ") - ") {
      var q: nat :| At(line[c + 2..p], q, ") - ");
      AtInSlice(line, c + 2, p, q, ") - ");
      assert IsMatch(line, st, c, c + 2 + q);
      assert false;
    }
  }

  /** Neither group of a match holds a line terminator. */
  lemma GroupsTerminatorFree(line: string, m: Span)
    requires IsMatch(line, m.start, m.close, m.sep)
    ensures TerminatorFree(line[m.start + 3..m.close])
    ensures TerminatorFree(line[m.close + 2..m.sep])
  {
  }

  /** The groups of the match with the earliest-ending groups are as short as they can be. */
  lemma MatchGroupsShortest(line: string, m: Span, e: nat)
    requires IsMatch(line, m.start, m.close, m.sep) && Framed(line, m) && m.sep + 4 <= e <= |line|
    requires forall c, p :: IsMatch(line, m.start, c, p) ==> m.close < c || (m.close == c && m.sep <= p)
    ensures ShortestGroups(ResourceOf(line, m, e))
  {
    NameIsShortest(line, m);
    UrlIsShortest(line, m);
    GroupsTerminatorFree(line, m);
    ShortestOf(line[m.start + 3..m.close], line[m.close + 2..m.sep], StripFinalPeriod(line[m.sep + 4..e]));
    assert ResourceOf(line, m, e) == Resource(line[m.start + 3..m.close], line[m.close + 2..m.sep], StripFinalPeriod(line[m.sep + 4..e]));
  }

  lemma ShortestOf(name: string, url: string, d: string)
    requires TerminatorFree(name) && TerminatorFree(url)
    requires !Contains(name, "](") && !Contains(url, ") - ")
    ensures ShortestGroups(Resource(name, url, d))
  {
  }

  /**
   * The name stops at the FIRST `](` after `- [` and the url at the first
   * `) - ` after that; neither holds a line terminator.
   */
  lemma ResourceGroupsAreShortest(line: string)
    requires ParseResource(line).Some?
    ensures ShortestGroups(ParseResource(line).value)
  {
    var m, e := ParsedMatch(line);
    FoundMatchIsLeast(line);
    MatchGroupsShortest(line, m, e);
  }

  /** Without line terminators, every run of `.` reaches the end of the line. */
  lemma RunToEnd(line: string, a: nat)
    requires a <= |line| && forall i :: 0 <= i < |line| ==> !IsLineTerminator(line[i])
    ensures DotEnd(line, a) == |line|
  {
  }

  /** In a line without line terminators, a match's groups fit just as well from a `- [` at the front. */
  lemma MatchFromFront(line: string, m: Span)
    requires StartsWith(line, "- [") && IsMatch(line, m.start, m.close, m.sep)
    requires forall i :: 0 <= i < |line| ==> !IsLineTerminator(line[i])
    ensures IsMatch(line, 0, m.close, m.sep)
  {
    RunToEnd(line, 3);
    RunToEnd(line, m.close + 2);
    assert line[0..3] == line[..3];
  }

  /** A framed match from the front whose third group runs to the end spans the whole line. */
  lemma WholeLineSpanned(line: string, m: Span, e: nat)
    requires m.start == 0 && Framed(line, m) && e == |line|
    ensures var res := ResourceOf(line, m, e); var raw := line[m.sep + 4..e];
      line == Spanned(res.name, res.url, raw) && res.description == StripFinalPeriod(raw)
  {
    SpannedSlice(line, 0, m.close, m.sep, |line|);
    assert line == line[0..|line|];
  }

  lemma SpannedWitness(line: string, res: Resource, raw: string)
    requires line == Spanned(res.name, res.url, raw) && res.description == StripFinalPeriod(raw)
    ensures exists raw :: line == Spanned(res.name, res.url, raw) && res.description == StripFinalPeriod(raw)
  {
  }

  /**
   * A bullet line without line terminators that matches at all matches from
   * its first character: it is exactly `- [` name `](` url `) - ` raw.
   */
  lemma BulletMatchesWholeLine(line: string)
    requires StartsWith(line, "- [") && ParseResource(line).Some?
    requires forall i :: 0 <= i < |line| ==> !IsLineTerminator(line[i])
    ensures var res := ParseResource(line).value;
      exists raw :: line == Spanned(res.name, res.url, raw)
                    && res.description == StripFinalPeriod(raw)
  {
    var m, e := ParsedMatch(line);
    MatchFromFront(line, m);
    SearchIsLeast(line, 0, 0, m.close, m.sep);
    RunToEnd(line, m.sep + 4);
    WholeLineSpanned(line, m, e);
    SpannedWitness(line, ResourceOf(line, m, e), line[m.sep + 4..e]);
  }
}
