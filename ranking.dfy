/**
 * The ranking step of `getStaticProps` (pages/index.tsx): the collected videos are sorted
 * by view count, highest first, with `Array.prototype.sort` and the comparator
 * `(a, b) => b - a` on view counts. That sort is stable, so videos with equal counts keep
 * the order in which they were collected.
 */
module Ranking {
  import opened Videos

  /** Every video has at least as many views as every video after it. */
  predicate SortedByViews(s: seq<Record>) {
    forall i, j :: 0 <= i < j < |s| ==> s[i].viewCount >= s[j].viewCount
  }

  /** The videos of `s` that have exactly `views` views, in their order in `s`. */
  function WithViews(s: seq<Record>, views: nat): seq<Record> {
    if s == [] then []
    else (if s[0].viewCount == views then [s[0]] else []) + WithViews(s[1..], views)
  }

  /** Place `x` before the first video that has at most as many views. */
  function Insert(x: Record, s: seq<Record>): (r: seq<Record>)
    ensures multiset(r) == multiset(s) + multiset{x}
    ensures forall y :: y in r <==> y == x || y in s
  {
    if s == [] || s[0].viewCount <= x.viewCount then [x] + s
    else
      assert s == [s[0]] + s[1..];
      [s[0]] + Insert(x, s[1..])
  }

  /** Inserting into a sorted list keeps it sorted. */
  lemma {:induction false} InsertSorted(x: Record, s: seq<Record>)
    requires SortedByViews(s)
    ensures SortedByViews(Insert(x, s))
  {
    var r := Insert(x, s);
    if s == [] || s[0].viewCount <= x.viewCount {
      forall i, j | 0 <= i < j < |r|
        ensures r[i].viewCount >= r[j].viewCount
      {
        if i == 0 {
          assert r[j] == s[j - 1];
          assert s[0].viewCount >= s[j - 1].viewCount;
        } else {
          assert r[i] == s[i - 1] && r[j] == s[j - 1];
        }
      }
    } else {
      var rest := Insert(x, s[1..]);
      InsertSorted(x, s[1..]);
      assert r == [s[0]] + rest;
      forall i, j | 0 <= i < j < |r|
        ensures r[i].viewCount >= r[j].viewCount
      {
        if i == 0 {
          assert r[j] == rest[j - 1];
          assert rest[j - 1] == x || rest[j - 1] in s[1..];
        } else {
          assert r[i] == rest[i - 1] && r[j] == rest[j - 1];
        }
      }
    }
  }

  /** The sorted order of the comparator `(a, b) => b.viewCount - a.viewCount`. */
  function SortByViews(s: seq<Record>): (r: seq<Record>)
    ensures multiset(r) == multiset(s)
    ensures SortedByViews(r)
  {
    if s == [] then []
    else
      assert s == [s[0]] + s[1..];
      var rest := SortByViews(s[1..]);
      InsertSorted(s[0], rest);
      Insert(s[0], rest)
  }

  /** Inserting `x` into a sorted list puts it ahead of nothing with its own view count. */
  lemma {:induction false} InsertWithViews(x: Record, s: seq<Record>, views: nat)
    requires SortedByViews(s)
    ensures WithViews(Insert(x, s), views) == (if x.viewCount == views then [x] else []) + WithViews(s, views)
  {
    if s == [] || s[0].viewCount <= x.viewCount {
      assert ([x] + s)[1..] == s;
    } else {
      var rest := Insert(x, s[1..]);
      var first := if s[0].viewCount == views then [s[0]] else [];
      var mine := if x.viewCount == views then [x] else [];
      assert ([s[0]] + rest)[0] == s[0] && ([s[0]] + rest)[1..] == rest;
      assert WithViews([s[0]] + rest, views) == first + WithViews(rest, views);
      InsertWithViews(x, s[1..], views);
      assert WithViews(s, views) == first + WithViews(s[1..], views);
      assert first == [] || mine == [];
    }
  }

  /** The sort is stable: among videos with equal view counts, the input order is kept. */
  lemma {:induction false} SortIsStable(s: seq<Record>, views: nat)
    ensures WithViews(SortByViews(s), views) == WithViews(s, views)
  {
    if s != [] {
      SortIsStable(s[1..], views);
      InsertWithViews(s[0], SortByViews(s[1..]), views);
    }
  }
}
