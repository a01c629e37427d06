/**
 * The search box of the curated-list page: an empty search term shows every
 * category; otherwise each category keeps the resources whose lowercased
 * name or description contains the lowercased term, and the categories left
 * without a resource are dropped.
 */
module AwesomeSearch {
  import opened Text
  import opened Seqs
  import opened Slugs
  import opened BulletPattern
  import opened AwesomeParse

  /** The lowercased name or the lowercased description contains `term`. */
  predicate MatchesTerm(r: Resource, term: string)
  {
    Contains(Lower(r.name), term) || Contains(Lower(r.description), term)
  }

  /** `resources.filter(...)`: every occurrence of a resource matching `term`, in their order. */
  function Keep(rs: seq<Resource>, term: string): (r: seq<Resource>)
    ensures forall x :: x in r <==> x in rs && MatchesTerm(x, term)
    ensures forall x :: multiset(r)[x] == if MatchesTerm(x, term) then multiset(rs)[x] else 0
    ensures Subsequence(r, rs)
  {
    if rs == [] then
      []
    else
      var init, last := rs[..|rs| - 1], rs[|rs| - 1];
      assert rs == init + [last];
      var r := Keep(init, term);
      FilterSnoc(x => MatchesTerm(x, term), r, init, last);
      if MatchesTerm(last, term) then r + [last] else r
  }

  /** `{...category, resources: ...}`: the category, with the same title and slug, keeping its matching resources only, in their order. */
  function Narrow(c: Category, term: string): (r: Category)
    ensures r.title == c.title && r.slug == c.slug
    ensures forall x :: x in r.resources <==> x in c.resources && MatchesTerm(x, term)
    ensures forall x :: multiset(r.resources)[x] == if MatchesTerm(x, term) then multiset(c.resources)[x] else 0
    ensures Subsequence(r.resources, c.resources)
  {
    c.(resources := Keep(c.resources, term))
  }

  /** `categories.map(...)`. */
  function NarrowAll(cats: seq<Category>, term: string): (r: seq<Category>)
    ensures |r| == |cats|
    ensures forall i :: 0 <= i < |cats| ==> r[i] == Narrow(cats[i], term)
  {
    if cats == [] then [] else NarrowAll(cats[..|cats| - 1], term) + [Narrow(cats[|cats| - 1], term)]
  }

  /** The category holds a resource. */
  predicate HasResource(c: Category)
  {
    |c.resources| > 0
  }

  /** `.filter(category => category.resources.length > 0)`: every occurrence of a non-empty category, in order. */
  function DropEmpty(cats: seq<Category>): (r: seq<Category>)
    ensures forall c :: c in r <==> c in cats && HasResource(c)
    ensures forall c :: multiset(r)[c] == if HasResource(c) then multiset(cats)[c] else 0
    ensures Subsequence(r, cats)
  {
    if cats == [] then
      []
    else
      var init, last := cats[..|cats| - 1], cats[|cats| - 1];
      assert cats == init + [last];
      var r := DropEmpty(init);
      FilterSnoc(HasResource, r, init, last);
      if HasResource(last) then r + [last] else r
  }

  /** The categories shown for a search term. */
  function FilterCategories(categories: seq<Category>, searchTerm: string): (r: seq<Category>)
    ensures searchTerm == [] ==> r == categories
    ensures searchTerm != [] ==> forall d :: d in r ==>
      |d.resources| > 0 && forall x :: x in d.resources ==> MatchesTerm(x, Lower(searchTerm))
    ensures searchTerm != [] ==> forall d ::
      multiset(r)[d] == (if |d.resources| > 0 then multiset(NarrowAll(categories, Lower(searchTerm)))[d] else 0)
    ensures searchTerm != [] ==> Subsequence(r, NarrowAll(categories, Lower(searchTerm)))
  {
    if searchTerm == [] then categories else DropEmpty(NarrowAll(categories, Lower(searchTerm)))
  }

  /**
   * Each category shown for a non-empty term is a listed category, with the
   * same title and slug, keeping exactly its matching resources in order.
   */
  lemma FilterSound(categories: seq<Category>, searchTerm: string, d: Category)
    requires searchTerm != [] && d in FilterCategories(categories, searchTerm)
    ensures exists c :: c in categories && d == Narrow(c, Lower(searchTerm))
  {
    var narrowed := NarrowAll(categories, Lower(searchTerm));
    var i :| 0 <= i < |narrowed| && narrowed[i] == d;
    assert categories[i] in categories;
  }

  /**
   * A listed category holding a resource that matches the term is shown,
   * narrowed to its matching resources, and the resource is among them.
   */
  lemma FilterComplete(categories: seq<Category>, searchTerm: string, c: Category, x: Resource)
    requires searchTerm != [] && c in categories && x in c.resources && MatchesTerm(x, Lower(searchTerm))
    ensures Narrow(c, Lower(searchTerm)) in FilterCategories(categories, searchTerm)
    ensures x in Narrow(c, Lower(searchTerm)).resources
  {
    var term := Lower(searchTerm);
    var narrowed := NarrowAll(categories, term);
    var i :| 0 <= i < |categories| && categories[i] == c;
    assert narrowed[i] == Narrow(c, term);
    assert x in Keep(c.resources, term);
  }

  /** For any term, every category shown from a parsed document holds a resource and carries its title's well-formed slug. */
  lemma ParsedSearchShown(lines: seq<string>, searchTerm: string)
    ensures forall d :: d in FilterCategories(ParseLines(lines), searchTerm) ==>
      |d.resources| > 0 && d.slug == Slug(d.title) && !IsMeta(d)
  {
    ParsedCategoriesShown(lines);
    if searchTerm != [] {
      forall d | d in FilterCategories(ParseLines(lines), searchTerm)
        ensures d.slug == Slug(d.title) && !IsMeta(d)
      {
        FilterSound(ParseLines(lines), searchTerm, d);
      }
    }
  }
}
