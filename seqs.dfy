/**
 * Order-preserving selection on sequences: `a` is a subsequence of `b` when
 * `b` holds the elements of `a` in the same order, possibly with others in
 * between. The folds of the curated-list page grow their sequences at the
 * back, so the definition matches from the back.
 */
module Seqs {

  /** `a` is a subsequence of `b` (matched greedily from the last element). */
  predicate Subsequence<T(==)>(a: seq<T>, b: seq<T>)
    decreases |b|
  {
    if a == [] then true
    else if b == [] then false
    else if a[|a| - 1] == b[|b| - 1] then Subsequence(a[..|a| - 1], b[..|b| - 1])
    else Subsequence(a, b[..|b| - 1])
  }

  /** A subsequence holds no element its host does not. */
  lemma {:induction false} SubsequenceMembers<T>(a: seq<T>, b: seq<T>, x: T)
    requires Subsequence(a, b) && x in a
    ensures x in b
    decreases |b|
  {
    assert b != [];
    var a', b' := a[..|a| - 1], b[..|b| - 1];
    assert b == b' + [b[|b| - 1]];
    if a[|a| - 1] == b[|b| - 1] {
      assert a == a' + [a[|a| - 1]];
      if x != a[|a| - 1] {
        SubsequenceMembers(a', b', x);
      }
    } else {
      SubsequenceMembers(a, b', x);
    }
  }

  /** Leaving out the last element keeps a subsequence a subsequence. */
  lemma {:induction false} SubsequenceDropLast<T>(a: seq<T>, b: seq<T>)
    requires a != [] && Subsequence(a, b)
    ensures Subsequence(a[..|a| - 1], b)
    decreases |b|, 0
  {
    var a' := a[..|a| - 1];
    var b' := b[..|b| - 1];
    if a' != [] {
      if a[|a| - 1] == b[|b| - 1] {
        SubsequenceExtend(a', b', b[|b| - 1]);
        assert b' + [b[|b| - 1]] == b;
      } else {
        SubsequenceDropLast(a, b');
        SubsequenceExtend(a', b', b[|b| - 1]);
        assert b' + [b[|b| - 1]] == b;
      }
    }
  }

  /** An element appended to the host alone keeps a subsequence a subsequence. */
  lemma {:induction false} SubsequenceExtend<T>(a: seq<T>, b: seq<T>, x: T)
    requires Subsequence(a, b)
    ensures Subsequence(a, b + [x])
    decreases |b|, 1
  {
    assert (b + [x])[..|b|] == b;
    if a != [] && a[|a| - 1] == x {
      SubsequenceDropLast(a, b);
    }
  }

  /** An element appended to both keeps a subsequence a subsequence. */
  lemma SubsequenceSnoc<T>(a: seq<T>, b: seq<T>, x: T)
    requires Subsequence(a, b)
    ensures Subsequence(a + [x], b + [x])
  {
    assert (a + [x])[..|a|] == a;
    assert (b + [x])[..|b|] == b;
  }

  /**
   * What a `filter` by `keep` promises: the kept elements are exactly the
   * accepted ones, each as often as in the host, in the host's order.
   */
  ghost predicate Filtered<T(!new)>(keep: T -> bool, r: seq<T>, s: seq<T>)
  {
    && (forall y :: y in r <==> y in s && keep(y))
    && (forall y :: multiset(r)[y] == if keep(y) then multiset(s)[y] else 0)
    && Subsequence(r, s)
  }

  /** One more element at the back of the host is kept exactly when `keep` accepts it. */
  lemma FilterSnoc<T(!new)>(keep: T -> bool, r: seq<T>, s: seq<T>, x: T)
    requires Filtered(keep, r, s)
    ensures Filtered(keep, if keep(x) then r + [x] else r, s + [x])
  {
    assert multiset(s + [x]) == multiset(s) + multiset{x};
    if keep(x) {
      assert multiset(r + [x]) == multiset(r) + multiset{x};
      SubsequenceSnoc(r, s, x);
    } else {
      SubsequenceExtend(r, s, x);
    }
  }

  /** A subsequence of a subsequence is a subsequence. */
  lemma {:induction false} SubsequenceTransitive<T>(a: seq<T>, b: seq<T>, c: seq<T>)
    requires Subsequence(a, b) && Subsequence(b, c)
    ensures Subsequence(a, c)
    decreases |c|
  {
    if a != [] {
      var a', b', c' := a[..|a| - 1], b[..|b| - 1], c[..|c| - 1];
      assert c == c' + [c[|c| - 1]];
      if b[|b| - 1] == c[|c| - 1] {
        if a[|a| - 1] == b[|b| - 1] {
          SubsequenceTransitive(a', b', c');
        } else {
          SubsequenceTransitive(a, b', c');
          SubsequenceExtend(a, c', c[|c| - 1]);
        }
      } else {
        SubsequenceTransitive(a, b, c');
        SubsequenceExtend(a, c', c[|c| - 1]);
      }
    }
  }
}
