/** Following next cursors over a source that may change between the pages. */
module CursorWalk {
  import opened Prelude

  datatype Page<+T> = Page(items: seq<T>, next: Option<string>, watermark: Option<string>, complete: bool)

  // Every page has at least one item of room.
  type Limit = n: int | 1 <= n witness 1

  // One page per state of the source, each asked with the cursor the page before it returned.
  function Walk<S, T, F>(fetch: (Option<string>, S) -> Result<Page<T>, F>, cursor: Option<string>, sources: seq<S>)
    : Result<seq<Page<T>>, F>
    decreases |sources|
  {
    if sources == [] then Ok([])
    else
      match fetch(cursor, sources[0])
      case Err(e) => Err(e)
      case Ok(page) =>
        if page.next.None? then Ok([page])
        else
          match Walk(fetch, page.next, sources[1..])
          case Err(e) => Err(e)
          case Ok(rest) => Ok([page] + rest)
  }

  function Items<T>(pages: seq<Page<T>>): seq<T> {
    if pages == [] then [] else pages[0].items + Items(pages[1..])
  }

  predicate Finished<T>(pages: seq<Page<T>>) {
    pages != [] && pages[|pages| - 1].next.None?
  }

  function View<T, R>(view: T -> R, items: seq<T>): (r: seq<R>)
    ensures |r| == |items| && forall i | 0 <= i < |items| :: r[i] == view(items[i])
  {
    seq(|items|, i requires 0 <= i < |items| => view(items[i]))
  }

  // ceil(n / limit) pages, and one page for an empty result.
  function PageCount(n: nat, limit: Limit): nat
    decreases n
  {
    if n <= limit then 1 else 1 + PageCount(n - limit, limit)
  }

  lemma {:induction false} PageCountIsTheCeiling(n: nat, limit: Limit)
    ensures var count := PageCount(n, limit);
            count >= 1 && n <= count * limit && (count > 1 ==> (count - 1) * limit < n)
    decreases n
  {
    if n > limit {
      PageCountIsTheCeiling(n - limit, limit);
      var rest := PageCount(n - limit, limit);
      assert (rest + 1) * limit == rest * limit + limit;
      assert (rest - 1) * limit == rest * limit - limit;
    }
  }

  // The page is the slice of `all` at `p`, and its cursor, if any is left, points past it.
  ghost predicate IsSlice<T, R>(page: Page<T>, view: T -> R, all: seq<R>, p: nat, limit: Limit,
                                pointsAt: (Option<string>, nat) -> bool)
  {
    && p <= |all|
    && (page.next.Some? <==> p + limit < |all|)
    && (page.next.None? ==> View(view, page.items) == all[p..])
    && (page.next.Some? ==>
          View(view, page.items) == all[p..p + limit] && pointsAt(page.next, p + limit))
  }

  lemma {:induction false} SliceByParts<T, R>(page: Page<T>, view: T -> R, all: seq<R>, p: nat, limit: Limit,
                           pointsAt: (Option<string>, nat) -> bool)
    requires p <= |all|
    requires p + limit < |all| ==>
               page.next.Some? && View(view, page.items) == all[p..p + limit] && pointsAt(page.next, p + limit)
    requires p + limit >= |all| ==> page.next.None? && View(view, page.items) == all[p..]
    ensures IsSlice(page, view, all, p, limit, pointsAt)
  {}

  lemma {:induction false} ViewsJoin<T, R>(view: T -> R, page: Page<T>, rest: seq<Page<T>>)
    ensures View(view, Items([page] + rest)) == View(view, page.items) + View(view, Items(rest))
    ensures View(view, Items([page])) == View(view, page.items)
  {
    assert ([page] + rest)[1..] == rest;
    assert Items([page]) == page.items;
  }

  lemma {:induction false} SlicesJoin<T, R>(
      view: T -> R, all: seq<R>, p: nat, q: nat, page: Page<T>, rest: seq<Page<T>>)
    requires p <= q <= |all| && View(view, page.items) == all[p..q]
    ensures View(view, Items(rest)) == all[q..] ==> View(view, Items([page] + rest)) == all[p..]
    ensures View(view, Items(rest)) <= all[q..] ==> View(view, Items([page] + rest)) <= all[p..]
  {
    ViewsJoin(view, page, rest);
    assert all[p..q] + all[q..] == all[p..];
  }

  // The source answers every cursor with its slice.
  ghost predicate Serves<S, T, R, F>(
      fetch: (Option<string>, S) -> Result<Page<T>, F>, view: T -> R, all: seq<R>, limit: Limit,
      pointsAt: (Option<string>, nat) -> bool, source: S)
  {
    forall c, q: nat | pointsAt(c, q) ::
      fetch(c, source).Ok? && IsSlice(fetch(c, source).value, view, all, q, limit, pointsAt)
  }

  // Sources that all serve `all` are walked through once, from start to end.
  lemma {:induction false} WalkReadsOnce<S, T, R, F>(
      fetch: (Option<string>, S) -> Result<Page<T>, F>, view: T -> R, all: seq<R>, limit: Limit,
      pointsAt: (Option<string>, nat) -> bool, cursor: Option<string>, p: nat, sources: seq<S>)
    requires pointsAt(cursor, p) && p <= |all|
    requires forall i | 0 <= i < |sources| :: Serves(fetch, view, all, limit, pointsAt, sources[i])
    requires |sources| >= PageCount(|all| - p, limit)
    ensures var pages := Walk(fetch, cursor, sources);
            && pages.Ok?
            && |pages.value| == PageCount(|all| - p, limit)
            && Finished(pages.value)
            && View(view, Items(pages.value)) == all[p..]
    decreases |sources|
  {
    assert Serves(fetch, view, all, limit, pointsAt, sources[0]);
    var page := fetch(cursor, sources[0]).value;
    assert IsSlice(page, view, all, p, limit, pointsAt);
    if p + limit < |all| {
      var later := sources[1..];
      assert forall i | 0 <= i < |later| :: later[i] == sources[i + 1];
      WalkReadsOnce(fetch, view, all, limit, pointsAt, page.next, p + limit, later);
      SlicesJoin(view, all, p, p + limit, page, Walk(fetch, page.next, later).value);
    } else {
      ViewsJoin(view, page, []);
    }
  }

  // If every answer that is not an error is the slice of `all`, the walk never leaves it.
  lemma {:induction false} WalkStaysInside<S(!new), T, R, F>(
      fetch: (Option<string>, S) -> Result<Page<T>, F>, view: T -> R, all: seq<R>, limit: Limit,
      pointsAt: (Option<string>, nat) -> bool, cursor: Option<string>, p: nat, sources: seq<S>)
    requires pointsAt(cursor, p) && p <= |all|
    requires sources != [] && fetch(cursor, sources[0]).Ok? ==>
               IsSlice(fetch(cursor, sources[0]).value, view, all, p, limit, pointsAt)
    requires forall c, q: nat, s | pointsAt(c, q) && q > 0 && fetch(c, s).Ok? ::
               IsSlice(fetch(c, s).value, view, all, q, limit, pointsAt)
    ensures var pages := Walk(fetch, cursor, sources);
            pages.Ok? ==>
              && View(view, Items(pages.value)) <= all[p..]
              && (Finished(pages.value) ==> View(view, Items(pages.value)) == all[p..])
    decreases |sources|
  {
    if sources != [] && Walk(fetch, cursor, sources).Ok? {
      var page := fetch(cursor, sources[0]).value;
      if p + limit < |all| {
        WalkStaysInside(fetch, view, all, limit, pointsAt, page.next, p + limit, sources[1..]);
        var rest := Walk(fetch, page.next, sources[1..]).value;
        SlicesJoin(view, all, p, p + limit, page, rest);
        assert rest != [] ==> ([page] + rest)[|rest|] == rest[|rest| - 1];
      } else {
        ViewsJoin(view, page, []);
      }
    }
  }
}
