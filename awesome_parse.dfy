/**
 * `parseMarkdown` of the curated-list page: one pass over the lines of the
 * markdown document. A `## ` heading (unless it mentions `Contents`) opens a
 * category; a `- [` bullet that the resource pattern matches adds a
 * resource to the open category; a category is kept only once it holds a
 * resource, and the meta sections `Contribute` and `Contact` are dropped at
 * the end.
 *
 * `Step` and `Steps` are the specification of one iteration and of the
 * loop; `ParseMarkdown` is the loop itself, proved to compute `Parse`.
 */
module AwesomeParse {
  import opened Wrappers
  import opened Text
  import opened Seqs
  import opened Slugs
  import opened BulletPattern

  datatype Category = Category(title: string, slug: string, resources: seq<Resource>)

  /** A line that opens a category: it starts with `## ` and holds no `Contents` anywhere. */
  predicate IsHeading(line: string)
  {
    StartsWith(line, "## ") && !Contains(line, "Contents")
  }

  /** A line the resource pattern is tried on. */
  predicate IsBullet(line: string)
  {
    StartsWith(line, "- [")
  }

  /** `title` stands at `a` in a heading line, after its `## `, with only whitespace around it. */
  ghost predicate TitleAt(line: string, a: nat, title: string)
  {
    && 3 <= a && a + |title| <= |line| && title == line[a..a + |title|]
    && AllWhitespace(line[3..a]) && AllWhitespace(line[a + |title|..])
  }

  /**
   * The title of a heading: the line without its `## ` (the first occurrence
   * of `## ` is the prefix itself), trimmed.
   */
  function HeadingTitle(line: string): (title: string)
    requires StartsWith(line, "## ")
    ensures exists a: nat :: TitleAt(line, a, title)
    ensures title != [] ==> !IsJsWhitespace(title[0]) && !IsJsWhitespace(title[|title| - 1])
  {
    var title := Trim(line[3..]);
    TrimmedTitleAt(line, title);
    title
  }

  /** Trimmed in the text after `## `, the title stands in the heading line at the shifted position. */
  lemma TrimmedTitleAt(line: string, title: string)
    requires 3 <= |line| && exists a: nat :: TrimmedAt(line[3..], a, title)
    ensures exists a: nat :: TitleAt(line, a, title)
  {
    var a: nat :| TrimmedAt(line[3..], a, title);
    assert line[3..][..a] == line[3..3 + a] && line[3..][a + |title|..] == line[3 + a + |title|..];
    assert line[3..][a..a + |title|] == line[3 + a..3 + a + |title|];
    assert TitleAt(line, 3 + a, title);
  }

  /** The category a heading opens: its title, the title's slug, no resources yet. */
  function NewCategory(line: string): (c: Category)
    requires StartsWith(line, "## ")
    ensures c.title == HeadingTitle(line) && c.slug == Slug(c.title) && c.resources == []
  {
    var title := HeadingTitle(line);
    Category(title, Slug(title), [])
  }

  /** The loop's state: the categories pushed so far and the open category, if any. */
  datatype ParseState = ParseState(done: seq<Category>, current: Option<Category>)

  const Start: ParseState := ParseState([], None)

  /** The open category is pushed only when it holds a resource. */
  function Close(done: seq<Category>, current: Option<Category>): seq<Category>
  {
    if current.Some? && |current.value.resources| > 0 then done + [current.value] else done
  }

  /** A heading pushes the open category (if it holds a resource) and opens a new one. */
  function Open(st: ParseState, line: string): ParseState
    requires StartsWith(line, "## ")
  {
    ParseState(Close(st.done, st.current), Some(NewCategory(line)))
  }

  /** The resource a line adds to the open category: only a bullet is matched. */
  function LineMatch(line: string): Option<Resource>
  {
    if IsBullet(line) then ParseResource(line) else None
  }

  /** The resource is pushed onto the open category's resources. */
  function Add(st: ParseState, r: Resource): ParseState
    requires st.current.Some?
  {
    var c := st.current.value;
    ParseState(st.done, Some(c.(resources := c.resources + [r])))
  }

  /**
   * One iteration of the loop: the heading test, then the bullet test. Only
   * a heading pushes a category, and only the open one; once a heading has
   * been seen a category stays open.
   */
  function Step(st: ParseState, line: string): (r: ParseState)
    ensures !IsHeading(line) ==> r.done == st.done
    ensures IsHeading(line) ==> r.done == Close(st.done, st.current)
    ensures r.current.Some? <==> st.current.Some? || IsHeading(line)
  {
    var afterHeading := if IsHeading(line) then Open(st, line) else st;
    var m := LineMatch(line);
    if afterHeading.current.Some? && m.Some? then Add(afterHeading, m.value) else afterHeading
  }

  /** The loop run over `lines` from `st`: a pushed category is never taken back. */
  function Steps(st: ParseState, lines: seq<string>): (r: ParseState)
    ensures |st.done| <= |r.done| && r.done[..|st.done|] == st.done
    decreases |lines|
  {
    if lines == [] then st
    else
      var before := Steps(st, lines[..|lines| - 1]);
      var r := Step(before, lines[|lines| - 1]);
      assert Close(before.done, before.current)[..|before.done|] == before.done;
      assert r.done[..|st.done|] == before.done[..|before.done|][..|st.done|];
      r
  }

  /** One more line of the same document is one more step. */
  lemma StepsPrefix(st: ParseState, lines: seq<string>, i: nat)
    requires i < |lines|
    ensures Steps(st, lines[..i + 1]) == Step(Steps(st, lines[..i]), lines[i])
  {
    assert lines[..i + 1][..i] == lines[..i];
  }

  /** The meta sections the page removes. */
  predicate IsMeta(c: Category)
  {
    c.title == "Contribute" || c.title == "Contact"
  }

  /** `categories.filter(cat => !['Contribute', 'Contact'].includes(cat.title))`. */
  function DropMeta(cats: seq<Category>): (r: seq<Category>)
    ensures forall c :: c in r <==> c in cats && !IsMeta(c)
    ensures forall c :: multiset(r)[c] == if IsMeta(c) then 0 else multiset(cats)[c]
    ensures Subsequence(r, cats)
  {
    if cats == [] then
      []
    else
      var init, last := cats[..|cats| - 1], cats[|cats| - 1];
      assert cats == init + [last];
      var r := DropMeta(init);
      FilterSnoc(c => !IsMeta(c), r, init, last);
      if IsMeta(last) then r else r + [last]
  }

  /** The categories the loop leaves, after the last push and the meta filter. */
  function ParseLines(lines: seq<string>): seq<Category>
  {
    var st := Steps(Start, lines);
    DropMeta(Close(st.done, st.current))
  }

  /** `parseMarkdown(markdown)`. */
  function Parse(markdown: string): seq<Category>
  {
    ParseLines(Split(markdown, '\n'))
  }

  /** `parseMarkdown`: the loop over the lines, with the open category as a local. */
  method ParseMarkdown(markdown: string) returns (cats: seq<Category>)
    ensures cats == Parse(markdown)
  {
    var lines := Split(markdown, '\n');
    var categories: seq<Category> := [];
    var current: Option<Category> := None;
    for i := 0 to |lines|
      invariant ParseState(categories, current) == Steps(Start, lines[..i])
    {
      var line := lines[i];
      ghost var before := ParseState(categories, current);
      if IsHeading(line) {
        if current.Some? && |current.value.resources| > 0 {
          categories := categories + [current.value];
        }
        current := Some(NewCategory(line));
      }
      ghost var afterHeading := ParseState(categories, current);
      assert afterHeading == if IsHeading(line) then Open(before, line) else before;
      if IsBullet(line) && current.Some? {
        var m := ParseResource(line);
        if m.Some? {
          current := Some(current.value.(resources := current.value.resources + [m.value]));
        }
      }
      assert ParseState(categories, current) == Step(before, line);
      StepsPrefix(Start, lines, i);
    }
    assert lines[..|lines|] == lines;
    if current.Some? && |current.value.resources| > 0 {
      categories := categories + [current.value];
    }
    cats := DropMeta(categories);
  }

  // ---------------------------------------------------------------------
  // What every category the page shows looks like

  /** A category as the page shows it: it holds a resource, and its slug is its title's. */
  predicate Shown(c: Category)
  {
    |c.resources| > 0 && c.slug == Slug(c.title)
  }

  /** The loop keeps: every pushed category is shown, and the open one carries its title's slug. */
  predicate Good(st: ParseState)
  {
    && (forall c :: c in st.done ==> Shown(c))
    && (st.current.Some? ==> st.current.value.slug == Slug(st.current.value.title))
  }

  /** Pushing the open category, only when it holds a resource, keeps every pushed category shown. */
  lemma CloseGood(st: ParseState)
    requires Good(st)
    ensures forall c :: c in Close(st.done, st.current) ==> Shown(c)
  {
  }

  lemma OpenGood(st: ParseState, line: string)
    requires Good(st) && StartsWith(line, "## ")
    ensures Good(Open(st, line))
  {
    CloseGood(st);
    var c := NewCategory(line);
    assert c.slug == Slug(c.title);
  }

  lemma AddGood(st: ParseState, r: Resource)
    requires Good(st) && st.current.Some?
    ensures Good(Add(st, r))
  {
  }

  lemma StepGood(st: ParseState, line: string)
    requires Good(st)
    ensures Good(Step(st, line))
  {
    var afterHeading := if IsHeading(line) then Open(st, line) else st;
    if IsHeading(line) {
      OpenGood(st, line);
    }
    var m := LineMatch(line);
    if afterHeading.current.Some? && m.Some? {
      AddGood(afterHeading, m.value);
    }
  }

  lemma {:induction false} StepsGood(lines: seq<string>)
    ensures Good(Steps(Start, lines))
    decreases |lines|
  {
    if lines != [] {
      StepsGood(lines[..|lines| - 1]);
      StepGood(Steps(Start, lines[..|lines| - 1]), lines[|lines| - 1]);
    }
  }

  /**
   * Every category returned holds at least one resource (a heading followed
   * by no matching bullet is discarded), is not a meta section, and carries
   * the slug of its title, which is well formed.
   */
  lemma ParsedCategoriesShown(lines: seq<string>)
    ensures forall c :: c in ParseLines(lines) ==>
      Shown(c) && !IsMeta(c) && WellFormedSlug(c.slug)
  {
    StepsGood(lines);
  }

  // ---------------------------------------------------------------------
  // Lines that do nothing

  /** A line that opens nothing and adds nothing leaves the state as it was. */
  lemma InertLine(st: ParseState, line: string)
    requires !IsHeading(line) && LineMatch(line).None?
    ensures Step(st, line) == st
  {
  }

  /**
   * A `## ` line that mentions `Contents` opens no category, so the bullets
   * after it go on filling the category open before it.
   */
  lemma ContentsLineInert(st: ParseState, line: string)
    requires StartsWith(line, "## ") && Contains(line, "Contents")
    ensures Step(st, line) == st
  {
    HeadingNotBullet(line);
  }

  /** A `## ` line is never a bullet. */
  lemma HeadingNotBullet(line: string)
    requires StartsWith(line, "## ")
    ensures LineMatch(line).None?
  {
    assert !IsBullet(line) by {
      assert line[..3] == "## ";
      assert line[..3] != "- [";
    }
  }

  /** Before the first heading nothing is open, and bullets contribute nothing. */
  lemma {:induction false} PreambleIgnored(lines: seq<string>)
    requires forall i :: 0 <= i < |lines| ==> !IsHeading(lines[i])
    ensures Steps(Start, lines) == Start
    decreases |lines|
  {
    if lines != [] {
      PreambleIgnored(lines[..|lines| - 1]);
    }
  }

  /** Running the loop over two pieces is running it over the first, then the second. */
  lemma {:induction false} StepsAppend(st: ParseState, a: seq<string>, b: seq<string>)
    ensures Steps(st, a + b) == Steps(Steps(st, a), b)
    decreases |b|
  {
    if b == [] {
      assert a + b == a;
    } else {
      var b' := b[..|b| - 1];
      assert (a + b)[..|a + b| - 1] == a + b';
      StepsAppend(st, a, b');
    }
  }

  // ---------------------------------------------------------------------
  // Which resources come out, and in which order

  /** The resources of the categories, one category after another. */
  function Flatten(cats: seq<Category>): seq<Resource>
  {
    if cats == [] then [] else Flatten(cats[..|cats| - 1]) + cats[|cats| - 1].resources
  }

  /** What a line contributes when a category is open: its resource, if the pattern matches. */
  function LineResource(line: string): seq<Resource>
  {
    if LineMatch(line).Some? then [LineMatch(line).value] else []
  }

  /** The resources of the matching bullet lines, in line order. */
  function Matched(lines: seq<string>): seq<Resource>
  {
    if lines == [] then [] else Matched(lines[..|lines| - 1]) + LineResource(lines[|lines| - 1])
  }

  /** The resources the state holds: the pushed categories', then the open one's. */
  function Held(st: ParseState): seq<Resource>
  {
    Flatten(st.done) + (if st.current.Some? then st.current.value.resources else [])
  }

  lemma FlattenSnoc(cats: seq<Category>, c: Category)
    ensures Flatten(cats + [c]) == Flatten(cats) + c.resources
  {
    assert (cats + [c])[..|cats|] == cats;
  }

  /** Pushing the open category, or dropping it while empty, loses no resource. */
  lemma CloseKeepsHeld(st: ParseState)
    ensures Flatten(Close(st.done, st.current)) == Held(st)
  {
    if st.current.Some? && |st.current.value.resources| > 0 {
      FlattenSnoc(st.done, st.current.value);
    }
  }

  /** A heading pushes or drops the open category, which loses no resource, and opens an empty one. */
  lemma OpenHeld(st: ParseState, line: string)
    requires StartsWith(line, "## ")
    ensures Held(Open(st, line)) == Held(st)
  {
    CloseKeepsHeld(st);
  }

  /** Adding a resource puts it after all held before. */
  lemma AddHeld(st: ParseState, r: Resource)
    requires st.current.Some?
    ensures Held(Add(st, r)) == Held(st) + [r]
  {
  }

  /** With a category open, each line adds its resource, if any, after all held before. */
  lemma StepHeld(st: ParseState, line: string)
    requires st.current.Some?
    ensures Step(st, line).current.Some?
    ensures Held(Step(st, line)) == Held(st) + LineResource(line)
  {
    var afterHeading := if IsHeading(line) then Open(st, line) else st;
    if IsHeading(line) {
      OpenHeld(st, line);
    }
    assert afterHeading.current.Some? && Held(afterHeading) == Held(st);
    var m := LineMatch(line);
    if m.Some? {
      AddHeld(afterHeading, m.value);
      assert Step(st, line) == Add(afterHeading, m.value);
    } else {
      assert Held(st) + LineResource(line) == Held(st);
    }
  }

  lemma {:induction false} StepsHeld(st: ParseState, lines: seq<string>)
    requires st.current.Some?
    ensures Steps(st, lines).current.Some?
    ensures Held(Steps(st, lines)) == Held(st) + Matched(lines)
    decreases |lines|
  {
    if lines != [] {
      var init := lines[..|lines| - 1];
      StepsHeld(st, init);
      StepHeld(Steps(st, init), lines[|lines| - 1]);
    }
  }

  /**
   * Before the meta filter, the resources come out exactly as the matching
   * bullets after the first heading, in line order; bullets before it are
   * ignored.
   */
  lemma ResourcesInLineOrder(pre: seq<string>, heading: string, rest: seq<string>)
    requires forall i :: 0 <= i < |pre| ==> !IsHeading(pre[i])
    requires IsHeading(heading)
    ensures var st := Steps(Start, pre + [heading] + rest);
      Flatten(Close(st.done, st.current)) == Matched(rest)
  {
    var first := Step(Start, heading);
    FirstHeading(pre, heading);
    StepsAppend(Start, pre + [heading], rest);
    OpenedEmpty(heading);
    StepsHeld(first, rest);
    CloseKeepsHeld(Steps(first, rest));
  }

  /** Through the first heading, the loop has opened that heading's category and nothing else. */
  lemma FirstHeading(pre: seq<string>, heading: string)
    requires forall i :: 0 <= i < |pre| ==> !IsHeading(pre[i])
    ensures Steps(Start, pre + [heading]) == Step(Start, heading)
  {
    PreambleIgnored(pre);
    assert (pre + [heading])[..|pre|] == pre;
  }

  /** The first heading opens a category and holds no resource yet. */
  lemma OpenedEmpty(heading: string)
    requires IsHeading(heading)
    ensures Step(Start, heading).current.Some? && Held(Step(Start, heading)) == []
  {
    HeadingNotBullet(heading);
  }

  /** A document without a heading yields no category. */
  lemma NoHeadingNoCategory(lines: seq<string>)
    requires forall i :: 0 <= i < |lines| ==> !IsHeading(lines[i])
    ensures ParseLines(lines) == []
  {
    PreambleIgnored(lines);
  }

  /** The number of lines that start with `- [`. */
  function BulletCount(lines: seq<string>): nat
  {
    if lines == [] then 0 else BulletCount(lines[..|lines| - 1]) + (if IsBullet(lines[|lines| - 1]) then 1 else 0)
  }

  lemma StepHeldGrowth(st: ParseState, line: string)
    ensures |Held(Step(st, line))| <= |Held(st)| + (if IsBullet(line) then 1 else 0)
  {
    if IsHeading(line) {
      CloseKeepsHeld(st);
    }
  }

  lemma {:induction false} StepsHeldBound(lines: seq<string>)
    ensures |Held(Steps(Start, lines))| <= BulletCount(lines)
    decreases |lines|
  {
    if lines != [] {
      StepsHeldBound(lines[..|lines| - 1]);
      StepHeldGrowth(Steps(Start, lines[..|lines| - 1]), lines[|lines| - 1]);
    }
  }

  lemma {:induction false} DropMetaFlatten(cats: seq<Category>)
    ensures |Flatten(DropMeta(cats))| <= |Flatten(cats)|
    decreases |cats|
  {
    if cats != [] {
      var init, last := cats[..|cats| - 1], cats[|cats| - 1];
      DropMetaFlatten(init);
      if !IsMeta(last) {
        FlattenSnoc(DropMeta(init), last);
      }
    }
  }

  /** The page shows at most one resource per line starting with `- [`. */
  lemma ResourceCountBound(lines: seq<string>)
    ensures |Flatten(ParseLines(lines))| <= BulletCount(lines)
  {
    var st := Steps(Start, lines);
    StepsHeldBound(lines);
    CloseKeepsHeld(st);
    DropMetaFlatten(Close(st.done, st.current));
  }

  // ---------------------------------------------------------------------
  // Categories in document order

  function Titles(cats: seq<Category>): seq<string>
  {
    if cats == [] then [] else Titles(cats[..|cats| - 1]) + [cats[|cats| - 1].title]
  }

  /** The titles of the headings, in line order. */
  function HeadingTitles(lines: seq<string>): seq<string>
  {
    if lines == [] then []
    else HeadingTitles(lines[..|lines| - 1]) + (if IsHeading(lines[|lines| - 1]) then [HeadingTitle(lines[|lines| - 1])] else [])
  }

  /** The titles the state holds: the pushed categories', then the open one's. */
  function HeldTitles(st: ParseState): seq<string>
  {
    Titles(st.done) + (if st.current.Some? then [st.current.value.title] else [])
  }

  lemma TitlesSnoc(cats: seq<Category>, c: Category)
    ensures Titles(cats + [c]) == Titles(cats) + [c.title]
  {
    assert (cats + [c])[..|cats|] == cats;
  }

  /** The titles left after the push are the held ones, maybe without the last. */
  lemma CloseTitles(st: ParseState, hs: seq<string>)
    requires Subsequence(HeldTitles(st), hs)
    ensures Subsequence(Titles(Close(st.done, st.current)), hs)
  {
    var held := HeldTitles(st);
    if st.current.None? {
      assert held == Titles(st.done);
    } else if |st.current.value.resources| > 0 {
      TitlesSnoc(st.done, st.current.value);
    } else {
      assert held[..|held| - 1] == Titles(st.done);
      SubsequenceDropLast(held, hs);
    }
  }

  /** A line that opens no category keeps the titles held. */
  lemma StepKeepsTitles(st: ParseState, line: string)
    requires !IsHeading(line)
    ensures HeldTitles(Step(st, line)) == HeldTitles(st)
  {
  }

  /** A heading's title follows the titles left after the push. */
  lemma StepOpensTitle(st: ParseState, line: string)
    requires IsHeading(line)
    ensures HeldTitles(Step(st, line)) == Titles(Close(st.done, st.current)) + [HeadingTitle(line)]
  {
    HeadingNotBullet(line);
  }

  lemma StepTitles(st: ParseState, hs: seq<string>, line: string)
    requires Subsequence(HeldTitles(st), hs)
    ensures Subsequence(HeldTitles(Step(st, line)), hs + (if IsHeading(line) then [HeadingTitle(line)] else []))
  {
    if IsHeading(line) {
      StepOpensTitle(st, line);
      CloseTitles(st, hs);
      SubsequenceSnoc(Titles(Close(st.done, st.current)), hs, HeadingTitle(line));
    } else {
      StepKeepsTitles(st, line);
      assert hs + [] == hs;
    }
  }

  lemma {:induction false} StepsTitles(lines: seq<string>)
    ensures Subsequence(HeldTitles(Steps(Start, lines)), HeadingTitles(lines))
    decreases |lines|
  {
    if lines != [] {
      var init := lines[..|lines| - 1];
      StepsTitles(init);
      StepTitles(Steps(Start, init), HeadingTitles(init), lines[|lines| - 1]);
    }
  }

  lemma {:induction false} DropMetaTitles(cats: seq<Category>)
    ensures Subsequence(Titles(DropMeta(cats)), Titles(cats))
    decreases |cats|
  {
    if cats != [] {
      var init, last := cats[..|cats| - 1], cats[|cats| - 1];
      DropMetaTitles(init);
      if IsMeta(last) {
        SubsequenceExtend(Titles(DropMeta(init)), Titles(init), last.title);
      } else {
        TitlesSnoc(DropMeta(init), last);
        SubsequenceSnoc(Titles(DropMeta(init)), Titles(init), last.title);
      }
    }
  }

  /** The categories come out in the order of their headings in the document. */
  lemma CategoriesInDocumentOrder(lines: seq<string>)
    ensures Subsequence(Titles(ParseLines(lines)), HeadingTitles(lines))
  {
    var st := Steps(Start, lines);
    StepsTitles(lines);
    CloseTitles(st, HeadingTitles(lines));
    DropMetaTitles(Close(st.done, st.current));
    SubsequenceTransitive(Titles(ParseLines(lines)), Titles(Close(st.done, st.current)), HeadingTitles(lines));
  }
}
