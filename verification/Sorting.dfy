/** The stable sort of Python lists, and the order of its strings. */
module Sorting {

  // Strings compare by code point, and a prefix comes first.
  predicate TextBefore(a: string, b: string) {
    b != "" && (a == "" || a[0] < b[0] || (a[0] == b[0] && TextBefore(a[1..], b[1..])))
  }

  lemma {:induction false} TextIsTotal(a: string, b: string)
    ensures TextBefore(a, b) || TextBefore(b, a) || a == b
    ensures !(TextBefore(a, b) && TextBefore(b, a))
    ensures !TextBefore(a, a)
  {
    if a != "" {
      TextIsTotal(a[1..], a[1..]);
    }
    if a != "" && b != "" {
      TextIsTotal(a[1..], b[1..]);
      assert a == [a[0]] + a[1..] && b == [b[0]] + b[1..];
    }
  }

  lemma {:induction false} TextIsTransitive(a: string, b: string, c: string)
    requires TextBefore(a, b) && TextBefore(b, c)
    ensures TextBefore(a, c)
  {
    if a != "" && a[0] == b[0] && b[0] == c[0] {
      TextIsTransitive(a[1..], b[1..], c[1..]);
    }
  }

  // A text comes before another if it is a proper prefix of it, or smaller at the first difference.
  ghost predicate FirstDifferenceIsSmaller(a: string, b: string, k: nat) {
    k <= |a| && k < |b| && a[..k] == b[..k] && (k == |a| || a[k] < b[k])
  }

  lemma {:induction false} DifferenceOfTails(a: string, b: string, k: nat)
    requires k > 0 && FirstDifferenceIsSmaller(a, b, k)
    ensures a != "" && b != "" && a[0] == b[0] && FirstDifferenceIsSmaller(a[1..], b[1..], k - 1)
  {
    assert a[..k][0] == b[..k][0];
    assert a[1..][..k - 1] == a[..k][1..] && b[1..][..k - 1] == b[..k][1..];
  }

  lemma {:induction false} TextBeforeMeans(a: string, b: string)
    ensures TextBefore(a, b) <==> exists k: nat :: FirstDifferenceIsSmaller(a, b, k)
  {
    forall k: nat | k > 0 && FirstDifferenceIsSmaller(a, b, k)
      ensures a != "" && b != "" && a[0] == b[0] && FirstDifferenceIsSmaller(a[1..], b[1..], k - 1)
    {
      DifferenceOfTails(a, b, k);
    }
    if a == "" || b == "" || a[0] != b[0] {
      assert b != "" && (a == "" || a[0] < b[0]) ==> FirstDifferenceIsSmaller(a, b, 0);
    } else {
      TextBeforeMeans(a[1..], b[1..]);
      if k: nat :| FirstDifferenceIsSmaller(a[1..], b[1..], k) {
        assert a[..k + 1] == [a[0]] + a[1..][..k] && b[..k + 1] == [b[0]] + b[1..][..k];
        assert FirstDifferenceIsSmaller(a, b, k + 1);
      }
    }
  }

  // A new element goes in front of the elements equal to it: `Sort` inserts from the back.
  function Insert<T>(x: T, sorted: seq<T>, before: (T, T) -> bool): seq<T> {
    if sorted == [] || !before(sorted[0], x) then [x] + sorted
    else [sorted[0]] + Insert(x, sorted[1..], before)
  }

  function Sort<T>(items: seq<T>, before: (T, T) -> bool): seq<T> {
    if items == [] then [] else Insert(items[0], Sort(items[1..], before), before)
  }

  ghost predicate Pairwise<T>(s: seq<T>, rel: (T, T) -> bool) {
    forall i, j | 0 <= i < j < |s| :: rel(s[i], s[j])
  }

  // Asymmetric, and its complement is transitive: what a key comparison gives.
  ghost predicate IsOrder<T(!new)>(before: (T, T) -> bool) {
    && (forall a, b :: before(a, b) ==> !before(b, a))
    && (forall a, b, c :: before(a, c) ==> before(a, b) || before(b, c))
  }

  lemma {:induction false} InsertKeepsElements<T>(x: T, sorted: seq<T>, before: (T, T) -> bool)
    ensures multiset(Insert(x, sorted, before)) == multiset{x} + multiset(sorted)
  {
    if sorted != [] && before(sorted[0], x) {
      InsertKeepsElements(x, sorted[1..], before);
      assert sorted == [sorted[0]] + sorted[1..];
    }
  }

  lemma {:induction false} SortPermutes<T>(items: seq<T>, before: (T, T) -> bool)
    ensures multiset(Sort(items, before)) == multiset(items)
    ensures |Sort(items, before)| == |items|
    ensures forall x :: x in Sort(items, before) <==> x in items
  {
    if items != [] {
      SortPermutes(items[1..], before);
      InsertKeepsElements(items[0], Sort(items[1..], before), before);
      assert items == [items[0]] + items[1..];
    }
    assert |Sort(items, before)| == |multiset(Sort(items, before))|;
    forall x ensures x in Sort(items, before) <==> x in items {
      assert x in Sort(items, before) <==> x in multiset(Sort(items, before));
      assert x in items <==> x in multiset(items);
    }
  }

  lemma {:induction false} InsertKeepsPairwise<T>(x: T, sorted: seq<T>, before: (T, T) -> bool, rel: (T, T) -> bool)
    requires Pairwise(sorted, rel)
    requires forall y | y in sorted :: before(y, x) ==> rel(y, x)
    requires forall y | y in sorted :: !before(y, x) ==> rel(x, y)
    requires forall i, j | 0 <= i < j < |sorted| :: before(sorted[j], x) ==> before(sorted[i], x)
    ensures Pairwise(Insert(x, sorted, before), rel)
  {
    var s := Insert(x, sorted, before);
    if sorted == [] || !before(sorted[0], x) {
      forall i, j | 0 <= i < j < |s| ensures rel(s[i], s[j]) {
        assert s[j] == sorted[j - 1] && s[j] in sorted;
        assert i > 0 ==> s[i] == sorted[i - 1];
      }
    } else {
      InsertKeepsPairwise(x, sorted[1..], before, rel);
      InsertKeepsElements(x, sorted[1..], before);
      var rest := Insert(x, sorted[1..], before);
      forall j | 0 <= j < |rest| ensures rel(sorted[0], rest[j]) {
        assert rest[j] in multiset(rest);
        assert rest[j] == x || rest[j] in sorted[1..];
        if rest[j] in sorted[1..] {
          var k :| 0 <= k < |sorted[1..]| && sorted[1..][k] == rest[j];
          assert rel(sorted[0], sorted[k + 1]);
        }
      }
    }
  }

  // The result is ordered by the comparison ...
  lemma {:induction false} SortOrders<T(!new)>(items: seq<T>, before: (T, T) -> bool)
    requires IsOrder(before)
    ensures Pairwise(Sort(items, before), (a, b) => !before(b, a))
  {
    if items != [] {
      SortOrders(items[1..], before);
      InsertKeepsPairwise(items[0], Sort(items[1..], before), before, (a, b) => !before(b, a));
    }
  }

  // ... and keeps every symmetric relation between the elements, such as having different keys.
  lemma {:induction false} SortKeepsSymmetric<T(!new)>(items: seq<T>, before: (T, T) -> bool, rel: (T, T) -> bool)
    requires IsOrder(before) && Pairwise(items, rel) && forall a, b :: rel(a, b) ==> rel(b, a)
    ensures Pairwise(Sort(items, before), rel)
  {
    if items != [] {
      var rest := Sort(items[1..], before);
      SortKeepsSymmetric(items[1..], before, rel);
      SortOrders(items[1..], before);
      SortPermutes(items[1..], before);
      forall y | y in rest ensures rel(items[0], y) {
        var k :| 0 <= k < |items[1..]| && items[1..][k] == y;
        assert rel(items[0], items[k + 1]);
      }
      InsertKeepsPairwise(items[0], rest, before, rel);
    }
  }

  // The elements that compare equal to `x`, in their order.
  function Ties<T>(items: seq<T>, x: T, before: (T, T) -> bool): seq<T> {
    if items == [] then []
    else (if !before(items[0], x) && !before(x, items[0]) then [items[0]] else []) + Ties(items[1..], x, before)
  }

  lemma {:induction false} InsertIsStable<T(!new)>(y: T, sorted: seq<T>, x: T, before: (T, T) -> bool)
    requires IsOrder(before)
    ensures Ties(Insert(y, sorted, before), x, before) == Ties([y] + sorted, x, before)
  {
    assert ([y] + sorted)[1..] == sorted;
    if sorted != [] && before(sorted[0], y) {
      InsertIsStable(y, sorted[1..], x, before);
      assert ([y] + sorted[1..])[1..] == sorted[1..];
      var rest := Insert(y, sorted[1..], before);
      assert ([sorted[0]] + rest)[1..] == rest;
    }
  }

  // Sorting never swaps elements that compare equal.
  lemma {:induction false} SortIsStable<T(!new)>(items: seq<T>, x: T, before: (T, T) -> bool)
    requires IsOrder(before)
    ensures Ties(Sort(items, before), x, before) == Ties(items, x, before)
  {
    if items != [] {
      var rest := Sort(items[1..], before);
      SortIsStable(items[1..], x, before);
      InsertIsStable(items[0], rest, x, before);
      assert ([items[0]] + rest)[1..] == rest;
    }
  }
}
