/**
 * The anchor slug of a category heading on the curated-list page:
 * `title.toLowerCase().replace(/[^a-z0-9]+/g, '-')`.
 */
module Slugs {
  import opened Text

  /** The characters of the class `[a-z0-9]`. */
  predicate IsSlugChar(c: char)
  {
    'a' <= c <= 'z' || '0' <= c <= '9'
  }

  /** A slug holds only `a`-`z`, `0`-`9` and `-`, and never two `-` in a row. */
  predicate WellFormedSlug(r: string)
  {
    && (forall i :: 0 <= i < |r| ==> IsSlugChar(r[i]) || r[i] == '-')
    && (forall i :: 0 <= i < |r| - 1 ==> r[i] != '-' || r[i + 1] != '-')
  }

  /** Length of the leading run of characters outside `[a-z0-9]`: what the greedy `[^a-z0-9]+` consumes. */
  function RunLength(s: string): (n: nat)
    ensures n <= |s|
    ensures forall i :: 0 <= i < n ==> !IsSlugChar(s[i])
    ensures n < |s| ==> IsSlugChar(s[n])
  {
    if s == [] || IsSlugChar(s[0]) then 0 else 1 + RunLength(s[1..])
  }

  /**
   * `s.replace(/[^a-z0-9]+/g, '-')`: scanning left to right, each maximal run
   * of characters outside `[a-z0-9]` becomes a single `-`.
   */
  function CollapseRuns(s: string): (r: string)
    ensures WellFormedSlug(r)
    ensures s != [] && IsSlugChar(s[0]) ==> r != [] && r[0] == s[0]
    decreases |s|
  {
    if s == [] then
      []
    else if IsSlugChar(s[0]) then
      [s[0]] + CollapseRuns(s[1..])
    else
      var n := RunLength(s);
      "-" + CollapseRuns(s[n..])
  }

  /** The slug of a category title. */
  function Slug(title: string): (r: string)
    ensures WellFormedSlug(r)
  {
    CollapseRuns(Lower(title))
  }

  // An independent reading of the same replacement: first turn every
  // character outside [a-z0-9] into '-', then squeeze each run of '-' to one.

  function DashChar(c: char): char
  {
    if IsSlugChar(c) then c else '-'
  }

  function Dashify(s: string): (r: string)
    ensures |r| == |s|
    ensures forall i :: 0 <= i < |s| ==> r[i] == DashChar(s[i])
  {
    if s == [] then [] else [DashChar(s[0])] + Dashify(s[1..])
  }

  /** Drops every `-` that directly follows another `-`. */
  function Squeeze(s: string): string
  {
    if |s| <= 1 then s
    else if s[0] == '-' && s[1] == '-' then Squeeze(s[1..])
    else [s[0]] + Squeeze(s[1..])
  }

  lemma DashifyAppend(a: string, b: string)
    ensures Dashify(a + b) == Dashify(a) + Dashify(b)
  {
  }

  /** A run of one or more `-` followed by text not starting with `-` squeezes to one `-`. */
  lemma {:induction false} SqueezeDashRun(d: string, t: string)
    requires d != [] && forall i :: 0 <= i < |d| ==> d[i] == '-'
    requires t == [] || t[0] != '-'
    ensures Squeeze(d + t) == "-" + Squeeze(t)
    decreases |d|
  {
    if |d| == 1 {
      if t != [] {
        assert (d + t)[1..] == t;
      } else {
        assert d + t == "-";
      }
    } else {
      assert (d + t)[1..] == d[1..] + t;
      SqueezeDashRun(d[1..], t);
    }
  }

  /** The run-by-run replacement equals dashing every outside character and then squeezing. */
  lemma {:induction false} CollapseRunsIsSqueezedDashify(s: string)
    ensures CollapseRuns(s) == Squeeze(Dashify(s))
    decreases |s|
  {
    if s == [] {
    } else if IsSlugChar(s[0]) {
      CollapseRunsIsSqueezedDashify(s[1..]);
      var t := Dashify(s[1..]);
      assert Dashify(s) == [s[0]] + t;
      if t != [] {
        assert ([s[0]] + t)[1..] == t;
      }
    } else {
      var n := RunLength(s);
      CollapseRunsIsSqueezedDashify(s[n..]);
      assert s == s[..n] + s[n..];
      DashifyAppend(s[..n], s[n..]);
      SqueezeDashRun(Dashify(s[..n]), Dashify(s[n..]));
    }
  }

  /** The slug is the lowercased title with each character outside `[a-z0-9]` dashed and each run of `-` squeezed. */
  lemma SlugIsSqueezedDashify(title: string)
    ensures Slug(title) == Squeeze(Dashify(Lower(title)))
  {
    CollapseRunsIsSqueezedDashify(Lower(title));
  }
}
