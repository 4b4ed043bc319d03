/** Regional fixtures: a chain of raw pages, each parsed, filtered, sorted and cut into query
    pages. One cursor names the raw page and the offset inside it. */
module FixturePaging {
  import opened CursorCodec
  import opened CursorWalk
  import opened Prelude
  import opened Sorting

  // ---- Data -----------------------------------------------------------------------------------

  // Fixture fields that are present hold text.
  type Text = s: string | s != "" witness "x"

  datatype Item = Item(key: Text, value: string)

  // A raw record: the ID it carries, if that is text, and what parsing makes of it.
  datatype Record = Record(recordId: Option<Text>, parsed: Option<Item>)

  datatype RawPage = RawPage(cursor: Option<Text>, records: seq<Record>, next: Option<Text>)

  // The pages of one dataset: one page without a cursor, or a list to search.
  datatype Pages = Single(page: RawPage) | Listed(pages: seq<RawPage>)

  datatype Fixture = Fixture(fetchedAt: Text, watermark: Option<Text>, pages: Pages)

  // What a query asks for. The fingerprint and the dataset name hold no ':'.
  datatype Query = Query(includes: Item -> bool, limit: Limit, dataset: string, fingerprint: string)

  const MAX_CONSECUTIVE_EMPTY_PAGES := 2

  // ---- One raw page ---------------------------------------------------------------------------

  function FirstWithCursor(pages: seq<RawPage>, cursor: Option<string>): Option<RawPage> {
    if pages == [] then None
    else if pages[0].cursor == cursor then Some(pages[0])
    else FirstWithCursor(pages[1..], cursor)
  }

  // _fixture_page
  function Lookup(fixture: Fixture, cursor: Option<string>): Option<RawPage> {
    match fixture.pages
    case Single(page) => if cursor.Some? then None else Some(page)
    case Listed(pages) => FirstWithCursor(pages, cursor)
  }

  function Ids(records: seq<Record>): seq<Text> {
    if records == [] then []
    else
      var last := records[|records| - 1];
      Ids(records[..|records| - 1]) + (if last.recordId.Some? then [last.recordId.value] else [])
  }

  predicate NoDuplicates(ids: seq<Text>) {
    forall i, j | 0 <= i < j < |ids| :: ids[i] != ids[j]
  }

  // The parsed records the query includes, in file order.
  function Kept(records: seq<Record>, includes: Item -> bool): seq<Item> {
    if records == [] then []
    else
      var last := records[|records| - 1];
      Kept(records[..|records| - 1], includes)
      + (if last.parsed.Some? && includes(last.parsed.value) then [last.parsed.value] else [])
  }

  function Rejected(records: seq<Record>): seq<nat> {
    if records == [] then []
    else
      Rejected(records[..|records| - 1])
      + (if records[|records| - 1].parsed.None? then [|records| - 1] else [])
  }

  function ByKey(): (Item, Item) -> bool {
    (a: Item, b: Item) => TextBefore(a.key, b.key)
  }

  function Shown(page: RawPage, includes: Item -> bool): seq<Item> {
    Sort(Kept(page.records, includes), ByKey())
  }

  // The loop over the raw records of a page.
  method ParseRecords(records: seq<Record>, includes: Item -> bool) returns (items: seq<Item>, warnings: seq<nat>)
    ensures items == Kept(records, includes) && warnings == Rejected(records)
  {
    items, warnings := [], [];
    for n := 0 to |records|
      invariant items == Kept(records[..n], includes) && warnings == Rejected(records[..n])
    {
      assert records[..n + 1][..n] == records[..n];
      match records[n].parsed {
        case None => warnings := warnings + [n];
        case Some(item) =>
          if includes(item) {
            items := items + [item];
          }
      }
    }
    assert records[..|records|] == records;
  }

  // ---- One query page -------------------------------------------------------------------------

  // What a raw page fails with after `empty` raw pages in a row, itself counted, were empty.
  function Failing(page: RawPage, empty: nat, includes: Item -> bool): Option<Failure> {
    if page.records == [] && page.next.Some? && empty > MAX_CONSECUTIVE_EMPTY_PAGES then Some(InvalidPagination)
    else if !NoDuplicates(Ids(page.records)) then Some(InvalidPagination)
    else if page.records != [] && Kept(page.records, includes) == [] && Rejected(page.records) != [] then
      Some(SchemaDrift)
    else None
  }

  function Empty(page: RawPage, before: nat): nat {
    if page.records == [] then before + 1 else 0
  }

  // A query page before its next cursor is turned into text.
  datatype Slice = Slice(items: seq<Item>, next: Option<FixtureCursor>)

  function LastKey(items: seq<Item>): Option<string> {
    if items == [] then None else Some(items[|items| - 1].key)
  }

  // _limit_page: a slice of the sorted items, then the raw page's own continuation.
  function Limited(fixture: Fixture, at: FixtureCursor, items: seq<Item>, page: RawPage, limit: Limit)
    : Result<Slice, Failure>
  {
    var end := at.offset + limit;
    if at.offset > |items| then Err(CursorRejected)
    else if at.offset > 0 && at.lastRecordKey != Some(items[at.offset - 1].key) then Err(SnapshotChanged)
    else if end < |items| then
      Ok(Slice(items[at.offset..end],
               Some(FixtureCursor(at.rawCursor, end, at.emptyPages, Some(fixture.fetchedAt), fixture.watermark,
                                  Some(items[end - 1].key)))))
    else
      Ok(Slice(items[at.offset..],
               if page.next.None? then None
               else Some(FixtureCursor(page.next, 0, Empty(page, at.emptyPages), Some(fixture.fetchedAt),
                                       fixture.watermark, LastKey(items)))))
  }

  predicate SameSnapshot(fixture: Fixture, at: FixtureCursor) {
    && (at.snapshotAt.None? || at.snapshotAt == Some(fixture.fetchedAt))
    && (at.snapshotWatermark.None? || at.snapshotWatermark == fixture.watermark)
  }

  function FetchedAt(query: Query, at: FixtureCursor, fixture: Fixture): Result<Slice, Failure> {
    if !SameSnapshot(fixture, at) then Err(SnapshotChanged)
    else
      match Lookup(fixture, at.rawCursor)
      case None => Err(InvalidPagination)
      case Some(page) =>
        match Failing(page, Empty(page, at.emptyPages), query.includes)
        case Some(failure) => Err(failure)
        case None => Limited(fixture, at, Shown(page, query.includes), page, query.limit)
  }

  function Paged(wire: Wire, query: Query, fixture: Fixture, slice: Result<Slice, Failure>): Result<Page<Item>, Failure>
  {
    match slice
    case Err(e) => Err(e)
    case Ok(Slice(items, next)) =>
      Ok(Page(items,
              if next.None? then None
              else Some(EncodeFixture(wire, query.dataset, next.value, query.fingerprint)),
              fixture.watermark, next.None?))
  }

  function Fetched(wire: Wire, query: Query, cursor: Option<string>, fixture: Fixture): Result<Page<Item>, Failure> {
    match DecodeFixture(wire, cursor, query.dataset, query.fingerprint)
    case Err(e) => Err(e)
    case Ok(at) => Paged(wire, query, fixture, FetchedAt(query, at, fixture))
  }

  // _build_page and _limit_page, in the order the checks are made.
  method FetchPage(wire: Wire, query: Query, cursor: Option<string>, fixture: Fixture)
    returns (page: Result<Page<Item>, Failure>)
    ensures page == Fetched(wire, query, cursor, fixture)
  {
    var decoded := DecodeFixture(wire, cursor, query.dataset, query.fingerprint);
    if decoded.Err? {
      return Err(decoded.error);
    }
    var at := decoded.value;
    if at.snapshotAt.Some? && at.snapshotAt != Some(fixture.fetchedAt) {
      return Err(SnapshotChanged);
    }
    if at.snapshotWatermark.Some? && at.snapshotWatermark != fixture.watermark {
      return Err(SnapshotChanged);
    }
    var found := Lookup(fixture, at.rawCursor);
    if found.None? {
      return Err(InvalidPagination);
    }
    var raw := found.value;
    var emptyPages := if raw.records == [] then at.emptyPages + 1 else 0;
    if raw.records == [] && raw.next.Some? && emptyPages > MAX_CONSECUTIVE_EMPTY_PAGES {
      return Err(InvalidPagination);
    }
    if !NoDuplicates(Ids(raw.records)) {
      return Err(InvalidPagination);
    }
    var items, warnings := ParseRecords(raw.records, query.includes);
    if raw.records != [] && items == [] && warnings != [] {
      return Err(SchemaDrift);
    }
    items := Sort(items, ByKey());
    page := Paged(wire, query, fixture, Limited(fixture, at, items, raw, query.limit));
  }

  // ---- What a page shows ------------------------------------------------------------------------

  // The raw page behind a cursor is the first listed under it; a lone page has no cursor.
  lemma {:induction false} LookupFindsTheFirst(pages: seq<RawPage>, cursor: Option<string>, k: nat)
    requires k < |pages| && pages[k].cursor == cursor && forall i | 0 <= i < k :: pages[i].cursor != cursor
    ensures FirstWithCursor(pages, cursor) == Some(pages[k])
  {
    if k > 0 {
      assert forall i | 0 <= i < k - 1 :: pages[1..][i] == pages[i + 1];
      LookupFindsTheFirst(pages[1..], cursor, k - 1);
    }
  }

  lemma {:induction false} UnlistedIsNotFound(fixture: Fixture, cursor: Option<string>)
    ensures Lookup(fixture, cursor).None?
       <==> match fixture.pages
            case Single(_) => cursor.Some?
            case Listed(pages) => forall page <- pages :: page.cursor != cursor
    ensures fixture.pages.Single? && cursor.None? ==> Lookup(fixture, cursor) == Some(fixture.pages.page)
  {
    if fixture.pages.Listed? {
      NoneIsListed(fixture.pages.pages, cursor);
    }
  }

  lemma {:induction false} NoneIsListed(pages: seq<RawPage>, cursor: Option<string>)
    ensures FirstWithCursor(pages, cursor).None? <==> forall page <- pages :: page.cursor != cursor
  {
    if pages != [] {
      NoneIsListed(pages[1..], cursor);
      assert pages == [pages[0]] + pages[1..];
    }
  }

  // How often a parsed item occurs among the records.
  function Count(records: seq<Record>, item: Item): nat {
    if records == [] then 0
    else Count(records[1..], item) + (if records[0].parsed == Some(item) then 1 else 0)
  }

  lemma {:induction false} CountJoins(records: seq<Record>, last: Record, item: Item)
    ensures Count(records + [last], item) == Count(records, item) + (if last.parsed == Some(item) then 1 else 0)
  {
    if records == [] {
      assert [last][1..] == [] && [] + [last] == [last];
    } else {
      assert (records + [last])[1..] == records[1..] + [last];
      CountJoins(records[1..], last, item);
    }
  }

  lemma {:induction false} KeptAreIncluded(records: seq<Record>, includes: Item -> bool, item: Item)
    ensures multiset(Kept(records, includes))[item] == if includes(item) then Count(records, item) else 0
  {
    if records != [] {
      var front, last := records[..|records| - 1], records[|records| - 1];
      KeptAreIncluded(front, includes, item);
      CountJoins(front, last, item);
      assert records == front + [last];
    }
  }

  lemma {:induction false} KeysAreOrdered()
    ensures IsOrder(ByKey())
  {
    forall a: Item, b: Item | TextBefore(a.key, b.key) ensures !TextBefore(b.key, a.key) {
      TextIsTotal(a.key, b.key);
    }
    forall a: Item, b: Item, c: Item | TextBefore(a.key, c.key)
      ensures TextBefore(a.key, b.key) || TextBefore(b.key, c.key)
    {
      TextIsTotal(a.key, b.key);
      if TextBefore(b.key, a.key) {
        TextIsTransitive(b.key, a.key, c.key);
      }
    }
  }

  // A raw page shows the included items as often as its records parse to them, by key, and under
  // one key in file order.
  lemma {:induction false} ShownAreIncludedByKey(page: RawPage, includes: Item -> bool, item: Item)
    ensures var shown := Shown(page, includes);
            && multiset(shown)[item] == (if includes(item) then Count(page.records, item) else 0)
            && (forall i, j | 0 <= i < j < |shown| :: !TextBefore(shown[j].key, shown[i].key))
            && UnderKey(shown, item.key) == UnderKey(Kept(page.records, includes), item.key)
  {
    var kept := Kept(page.records, includes);
    KeysAreOrdered();
    KeptAreIncluded(page.records, includes, item);
    SortPermutes(kept, ByKey());
    SortOrders(kept, ByKey());
    SortIsStable(kept, item, ByKey());
    TiesAreUnderOneKey(kept, item);
    TiesAreUnderOneKey(Sort(kept, ByKey()), item);
    var shown := Shown(page, includes);
    forall i, j | 0 <= i < j < |shown| ensures !TextBefore(shown[j].key, shown[i].key) {
      assert !ByKey()(shown[j], shown[i]);
    }
  }

  function UnderKey(items: seq<Item>, key: string): seq<Item> {
    if items == [] then [] else (if items[0].key == key then [items[0]] else []) + UnderKey(items[1..], key)
  }

  lemma {:induction false} TiesAreUnderOneKey(items: seq<Item>, item: Item)
    ensures Ties(items, item, ByKey()) == UnderKey(items, item.key)
  {
    if items != [] {
      TiesAreUnderOneKey(items[1..], item);
      TextIsTotal(items[0].key, item.key);
    }
  }

  ghost predicate IdRepeats(records: seq<Record>) {
    exists i, j :: 0 <= i < j < |records| && records[i].recordId.Some? && records[i].recordId == records[j].recordId
  }

  ghost predicate HasId(records: seq<Record>, id: Text) {
    exists k :: 0 <= k < |records| && records[k].recordId == Some(id)
  }

  lemma {:induction false} IdsAreOfTheRecords(records: seq<Record>, id: Text)
    ensures id in Ids(records) <==> HasId(records, id)
  {
    if records != [] {
      var n := |records| - 1;
      IdsAreOfTheRecords(records[..n], id);
      if HasId(records[..n], id) {
        var k :| 0 <= k < n && records[..n][k].recordId == Some(id);
        assert records[k].recordId == Some(id);
      }
      if HasId(records, id) && records[n].recordId != Some(id) {
        var k :| 0 <= k < n && records[k].recordId == Some(id);
        assert records[..n][k].recordId == Some(id);
      }
    }
  }

  lemma {:induction false} DuplicatesAreOfTheRecords(records: seq<Record>)
    ensures NoDuplicates(Ids(records)) <==> !IdRepeats(records)
  {
    if records != [] {
      var n := |records| - 1;
      var front, last := records[..n], records[n];
      DuplicatesAreOfTheRecords(front);
      RepeatsByTheLast(records);
      assert Ids(front) + [] == Ids(front);
      if last.recordId.Some? {
        IdsAreOfTheRecords(front, last.recordId.value);
        DuplicatesByTheLast(Ids(front), last.recordId.value);
      }
    }
  }

  lemma {:induction false} DuplicatesByTheLast(ids: seq<Text>, id: Text)
    ensures NoDuplicates(ids + [id]) <==> NoDuplicates(ids) && id !in ids
  {
    var longer := ids + [id];
    assert forall i | 0 <= i < |ids| :: longer[i] == ids[i];
    if id in ids {
      var k :| 0 <= k < |ids| && ids[k] == id;
      assert longer[k] == longer[|ids|];
    }
  }

  lemma {:induction false} RepeatsByTheLast(records: seq<Record>)
    requires records != []
    ensures var n := |records| - 1;
            IdRepeats(records)
            <==> || IdRepeats(records[..n])
                 || (records[n].recordId.Some? && HasId(records[..n], records[n].recordId.value))
  {
    var n := |records| - 1;
    var front := records[..n];
    assert forall i | 0 <= i < n :: front[i] == records[i];
    if IdRepeats(front) {
      var i, j :| 0 <= i < j < n && front[i].recordId.Some? && front[i].recordId == front[j].recordId;
      assert records[i].recordId == records[j].recordId;
    }
    if records[n].recordId.Some? && HasId(front, records[n].recordId.value) {
      var k :| 0 <= k < n && front[k].recordId == records[n].recordId;
      assert records[k].recordId == records[n].recordId;
    }
    if IdRepeats(records) {
      var i, j :| 0 <= i < j < |records| && records[i].recordId.Some? && records[i].recordId == records[j].recordId;
      assert front[i].recordId == records[j].recordId && (j < n ==> front[j].recordId == records[j].recordId);
    }
  }

  // A raw page fails exactly as the third empty one in a row that continues, with a repeated record
  // ID, or as one of which nothing included can be read and something is rejected.
  lemma {:induction false} RawPageFailsExactly(page: RawPage, before: nat, includes: Item -> bool)
    ensures var failing := Failing(page, Empty(page, before), includes);
            && (failing == Some(InvalidPagination)
                <==> || (page.records == [] && page.next.Some? && before >= 2)
                     || IdRepeats(page.records))
            && (failing == Some(SchemaDrift)
                <==> && !IdRepeats(page.records)
                     && (exists r <- page.records :: r.parsed.None?)
                     && (forall r <- page.records | r.parsed.Some? :: !includes(r.parsed.value)))
            && (failing.Some? ==> failing.value in {InvalidPagination, SchemaDrift})
  {
    DuplicatesAreOfTheRecords(page.records);
    NothingIsKept(page.records, includes);
  }

  lemma {:induction false} NothingIsKept(records: seq<Record>, includes: Item -> bool)
    ensures Kept(records, includes) == [] <==> forall r <- records | r.parsed.Some? :: !includes(r.parsed.value)
    ensures Rejected(records) == [] <==> forall r <- records :: r.parsed.Some?
  {
    if records != [] {
      NothingIsKept(records[..|records| - 1], includes);
      assert records == records[..|records| - 1] + [records[|records| - 1]];
    }
  }

  // An offset behind the end of the shown items is rejected, and one in front of which another
  // record stands than the cursor names is stale.
  lemma {:induction false} OffsetIsChecked(
      fixture: Fixture, at: FixtureCursor, items: seq<Item>, page: RawPage, limit: Limit)
    ensures var slice := Limited(fixture, at, items, page, limit);
            && (slice == Err(CursorRejected) <==> at.offset > |items|)
            && (slice == Err(SnapshotChanged)
                <==> 0 < at.offset <= |items| && at.lastRecordKey != Some(items[at.offset - 1].key))
            && (slice.Err? ==> slice.error in {CursorRejected, SnapshotChanged})
  {}

  // The next cursor names the fixture's time and watermark, and the last item in front of it.
  lemma {:induction false} NextCursorNamesTheSnapshot(
      fixture: Fixture, at: FixtureCursor, items: seq<Item>, page: RawPage, limit: Limit)
    requires var slice := Limited(fixture, at, items, page, limit); slice.Ok? && slice.value.next.Some?
    ensures var next := Limited(fixture, at, items, page, limit).value.next.value;
            && next.snapshotAt == Some(fixture.fetchedAt) && next.snapshotWatermark == fixture.watermark
            && next.offset <= |items|
            && (if next.offset > 0 then next.rawCursor == at.rawCursor else next.rawCursor == page.next)
            && next.lastRecordKey
               == (if items == [] then None
                   else if next.offset > 0 then Some(items[next.offset - 1].key)
                   else Some(items[|items| - 1].key))
  {}

  // A query page is labelled with the watermark of the fixture, and is complete exactly if nothing
  // follows.
  lemma {:induction false} PageIsLabelled(wire: Wire, query: Query, cursor: Option<string>, fixture: Fixture)
    requires Fetched(wire, query, cursor, fixture).Ok?
    ensures var page := Fetched(wire, query, cursor, fixture).value;
            page.watermark == fixture.watermark && page.complete == page.next.None?
  {}

  // ---- Chains ---------------------------------------------------------------------------------

  function CursorOf(chain: seq<RawPage>, i: nat): Option<string>
    requires i <= |chain|
  {
    if i == 0 then None else chain[i - 1].next
  }

  ghost predicate LinksTo(fixture: Fixture, chain: seq<RawPage>, i: nat)
    requires i < |chain|
  {
    && Lookup(fixture, CursorOf(chain, i)) == Some(chain[i])
    && (chain[i].next.Some? <==> i + 1 < |chain|)
  }

  // The raw pages from the first to one without a continuation.
  ghost predicate IsChain(fixture: Fixture, chain: seq<RawPage>) {
    chain != [] && forall i | 0 <= i < |chain| :: LinksTo(fixture, chain, i)
  }

  // How many raw pages right before page `i` were empty.
  function EmptyBefore(chain: seq<RawPage>, i: nat): nat
    requires i <= |chain|
  {
    if i == 0 then 0 else Empty(chain[i - 1], EmptyBefore(chain, i - 1))
  }

  function FailingAt(chain: seq<RawPage>, i: nat, includes: Item -> bool): Option<Failure>
    requires i < |chain|
  {
    Failing(chain[i], Empty(chain[i], EmptyBefore(chain, i)), includes)
  }

  // What a reader at offset `off` of page `i` is still to read: the rest of the page and every
  // page behind it, up to the first one that fails.
  function Rest(chain: seq<RawPage>, i: nat, off: nat, includes: Item -> bool): Result<seq<Item>, Failure>
    requires i < |chain| && off <= |Shown(chain[i], includes)|
    decreases |chain| - i
  {
    if FailingAt(chain, i, includes).Some? then Err(FailingAt(chain, i, includes).value)
    else if i + 1 == |chain| then Ok(Shown(chain[i], includes)[off..])
    else
      match Rest(chain, i + 1, 0, includes)
      case Err(e) => Err(e)
      case Ok(later) => Ok(Shown(chain[i], includes)[off..] + later)
  }

  // The query pages that takes.
  function Needed(chain: seq<RawPage>, i: nat, off: nat, query: Query): nat
    requires i < |chain| && off <= |Shown(chain[i], query.includes)|
    decreases |chain| - i
  {
    PageCount(|Shown(chain[i], query.includes)| - off, query.limit)
    + if i + 1 == |chain| then 0 else Needed(chain, i + 1, 0, query)
  }

  // The cursor fields of a reader at offset `off` of page `i`.
  ghost predicate Stands(fixture: Fixture, chain: seq<RawPage>, includes: Item -> bool, at: FixtureCursor, i: nat,
                         off: nat)
  {
    && i < |chain| && at.rawCursor == CursorOf(chain, i) && at.emptyPages == EmptyBefore(chain, i)
    && SameSnapshot(fixture, at) && at.offset == off
    && (off > 0 ==> off < |Shown(chain[i], includes)|
                    && at.lastRecordKey == Some(Shown(chain[i], includes)[off - 1].key))
  }

  ghost predicate PointsAt(wire: Wire, query: Query, fixture: Fixture, chain: seq<RawPage>, cursor: Option<string>,
                           i: nat, off: nat)
  {
    var at := DecodeFixture(wire, cursor, query.dataset, query.fingerprint);
    at.Ok? && Stands(fixture, chain, query.includes, at.value, i, off)
  }

  // One fetch of the typed layer.
  lemma {:induction false} SliceOnChain(
      query: Query, fixture: Fixture, chain: seq<RawPage>, at: FixtureCursor, i: nat, off: nat)
    requires IsChain(fixture, chain) && Stands(fixture, chain, query.includes, at, i, off)
    ensures var slice := FetchedAt(query, at, fixture);
            var all := Shown(chain[i], query.includes);
            var failing := FailingAt(chain, i, query.includes);
            && (failing.Some? ==> slice == Err(failing.value))
            && (failing.None? ==>
                  && slice.Ok?
                  && (off + query.limit < |all| ==>
                        && slice.value.items == all[off..off + query.limit]
                        && slice.value.next.Some?
                        && Stands(fixture, chain, query.includes, slice.value.next.value, i, off + query.limit))
                  && (off + query.limit >= |all| ==>
                        && slice.value.items == all[off..]
                        && (slice.value.next.None? <==> i + 1 == |chain|)
                        && (slice.value.next.Some? ==>
                              Stands(fixture, chain, query.includes, slice.value.next.value, i + 1, 0))))
  {
    assert LinksTo(fixture, chain, i);
  }

  lemma {:induction false} NextCursorIsEncodable(query: Query, at: FixtureCursor, fixture: Fixture)
    requires Encodable(at)
    ensures var slice := FetchedAt(query, at, fixture);
            slice.Ok? && slice.value.next.Some? ==> Encodable(slice.value.next.value)
  {}

  lemma {:induction false} DecodedIsEncodable(
      wire: Wire, cursor: Option<string>, dataset: string, fingerprint: string)
    ensures var at := DecodeFixture(wire, cursor, dataset, fingerprint);
            at.Ok? ==> Encodable(at.value)
  {}

  // The page is the slice at offset `off` of raw page `i`, and its cursor points past it.
  ghost predicate Answers(page: Result<Page<Item>, Failure>, query: Query, chain: seq<RawPage>,
                          pointsAt: (Option<string>, nat, nat) -> bool, i: nat, off: nat)
  {
    && i < |chain| && off <= |Shown(chain[i], query.includes)|
    && var all := Shown(chain[i], query.includes);
       var failing := FailingAt(chain, i, query.includes);
       if failing.Some? then page == Err(failing.value)
       else
         && page.Ok?
         && if off + query.limit < |all| then
              && page.value.items == all[off..off + query.limit]
              && page.value.next.Some? && pointsAt(page.value.next, i, off + query.limit)
            else
              && page.value.items == all[off..]
              && (page.value.next.None? <==> i + 1 == |chain|)
              && (page.value.next.Some? ==> pointsAt(page.value.next, i + 1, 0))
  }

  ghost function CursorInto(wire: Wire, query: Query, fixture: Fixture, chain: seq<RawPage>)
    : (Option<string>, nat, nat) -> bool
  {
    (c: Option<string>, i: nat, off: nat) => PointsAt(wire, query, fixture, chain, c, i, off)
  }

  // One fetch through the text cursor.
  lemma {:induction false} PageOnChain(
      wire: Wire, query: Query, fixture: Fixture, chain: seq<RawPage>, cursor: Option<string>, i: nat, off: nat)
    requires wire.Faithful() && ':' !in query.dataset && ':' !in query.fingerprint
    requires IsChain(fixture, chain) && PointsAt(wire, query, fixture, chain, cursor, i, off)
    ensures Answers(Fetched(wire, query, cursor, fixture), query, chain, CursorInto(wire, query, fixture, chain),
                    i, off)
  {
    var at := DecodeFixture(wire, cursor, query.dataset, query.fingerprint).value;
    SliceOnChain(query, fixture, chain, at, i, off);
    DecodedIsEncodable(wire, cursor, query.dataset, query.fingerprint);
    NextCursorIsEncodable(query, at, fixture);
    var slice := FetchedAt(query, at, fixture);
    if slice.Ok? && slice.value.next.Some? {
      var (j, next) := if off + query.limit < |Shown(chain[i], query.includes)| then (i, off + query.limit)
                       else (i + 1, 0);
      CursorStands(wire, query, fixture, chain, slice.value.next.value, j, next);
    }
  }

  // A typed cursor and its text stand at the same position.
  lemma {:induction false} CursorStands(
      wire: Wire, query: Query, fixture: Fixture, chain: seq<RawPage>, at: FixtureCursor, i: nat, off: nat)
    requires wire.Faithful() && ':' !in query.dataset && ':' !in query.fingerprint && Encodable(at)
    requires Stands(fixture, chain, query.includes, at, i, off)
    ensures CursorInto(wire, query, fixture, chain)(
              Some(EncodeFixture(wire, query.dataset, at, query.fingerprint)), i, off)
  {
    FixtureRoundTrip(wire, at, query.dataset, query.fingerprint, query.dataset, query.fingerprint);
  }

  ghost function Fetcher(wire: Wire, query: Query): (Option<string>, Fixture) -> Result<Page<Item>, Failure> {
    (cursor, fixture) => Fetched(wire, query, cursor, fixture)
  }

  function Prepend(items: seq<Item>, rest: Result<seq<Item>, Failure>): Result<seq<Item>, Failure> {
    match rest case Err(e) => Err(e) case Ok(later) => Ok(items + later)
  }

  // What is left before a page is the page and what is left behind it.
  lemma {:induction false} RestStep(chain: seq<RawPage>, i: nat, off: nat, query: Query)
    requires i < |chain| && off <= |Shown(chain[i], query.includes)|
    requires FailingAt(chain, i, query.includes).None?
    ensures var all := Shown(chain[i], query.includes);
            if off + query.limit < |all| then
              && Rest(chain, i, off, query.includes)
                 == Prepend(all[off..off + query.limit], Rest(chain, i, off + query.limit, query.includes))
              && Needed(chain, i, off, query) == 1 + Needed(chain, i, off + query.limit, query)
            else if i + 1 < |chain| then
              && Rest(chain, i, off, query.includes) == Prepend(all[off..], Rest(chain, i + 1, 0, query.includes))
              && Needed(chain, i, off, query) == 1 + Needed(chain, i + 1, 0, query)
            else Rest(chain, i, off, query.includes) == Ok(all[off..]) && Needed(chain, i, off, query) == 1
  {
    var all := Shown(chain[i], query.includes);
    if off + query.limit < |all| {
      assert all[off..] == all[off..off + query.limit] + all[off + query.limit..];
      if i + 1 < |chain| && Rest(chain, i + 1, 0, query.includes).Ok? {
        var later := Rest(chain, i + 1, 0, query.includes).value;
        assert all[off..] + later == all[off..off + query.limit] + (all[off + query.limit..] + later);
      }
    }
  }

  // The walk gave what `rest` says, in `needed` pages.
  ghost predicate Reads(pages: Result<seq<Page<Item>>, Failure>, rest: Result<seq<Item>, Failure>, needed: nat) {
    match rest
    case Err(e) => pages == Err(e)
    case Ok(items) => pages.Ok? && Finished(pages.value) && Items(pages.value) == items && |pages.value| == needed
  }

  lemma {:induction false} FirstPage(
      page: Page<Item>, later: Result<seq<Page<Item>>, Failure>, rest: Result<seq<Item>, Failure>, needed: nat)
    ensures Reads(later, rest, needed) ==>
              Reads(match later case Err(e) => Err(e) case Ok(pages) => Ok([page] + pages),
                    Prepend(page.items, rest), 1 + needed)
    ensures page.next.None? ==> Reads(Ok([page]), Ok(page.items), 1)
  {
    assert Items([page]) == page.items;
    if later.Ok? {
      assert ([page] + later.value)[1..] == later.value;
      assert later.value != [] ==> ([page] + later.value)[|later.value|] == later.value[|later.value| - 1];
    }
  }

  // The position behind the query page at offset `off` of page `i`.
  function Behind(chain: seq<RawPage>, i: nat, off: nat, query: Query): (nat, nat)
    requires i < |chain|
  {
    if off + query.limit < |Shown(chain[i], query.includes)| then (i, off + query.limit) else (i + 1, 0)
  }

  // What is left before a page that continues is the page and what is left behind it.
  lemma {:induction false} NextIsInside(
      query: Query, chain: seq<RawPage>, pointsAt: (Option<string>, nat, nat) -> bool, i: nat, off: nat,
      page: Page<Item>)
    requires Answers(Ok(page), query, chain, pointsAt, i, off) && page.next.Some?
    ensures var (j, next) := Behind(chain, i, off, query);
            && j < |chain| && next <= |Shown(chain[j], query.includes)|
            && pointsAt(page.next, j, next)
            && Needed(chain, i, off, query) == 1 + Needed(chain, j, next, query)
            && Rest(chain, i, off, query.includes) == Prepend(page.items, Rest(chain, j, next, query.includes))
  {
    RestStep(chain, i, off, query);
  }

  lemma {:induction false} ReadsLast(
      query: Query, chain: seq<RawPage>, pointsAt: (Option<string>, nat, nat) -> bool, i: nat, off: nat,
      page: Page<Item>)
    requires Answers(Ok(page), query, chain, pointsAt, i, off) && page.next.None?
    ensures Reads(Ok([page]), Rest(chain, i, off, query.includes), Needed(chain, i, off, query))
  {
    RestStep(chain, i, off, query);
    FirstPage(page, Ok([]), Ok([]), 0);
  }

  // A fetcher that answers every position as above is walked through to the end of the chain.
  lemma {:induction false} WalkOnChain(fetch: (Option<string>, Fixture) -> Result<Page<Item>, Failure>, query: Query,
                                       fixture: Fixture, chain: seq<RawPage>,
                                       pointsAt: (Option<string>, nat, nat) -> bool,
                                       cursor: Option<string>, i: nat, off: nat, sources: seq<Fixture>)
    requires forall c, k: nat, o: nat | pointsAt(c, k, o) :: Answers(fetch(c, fixture), query, chain, pointsAt, k, o)
    requires pointsAt(cursor, i, off) && i < |chain| && off <= |Shown(chain[i], query.includes)|
    requires forall k | 0 <= k < |sources| :: sources[k] == fixture
    requires |sources| >= Needed(chain, i, off, query)
    ensures Reads(Walk(fetch, cursor, sources), Rest(chain, i, off, query.includes), Needed(chain, i, off, query))
    decreases |sources|
  {
    assert Answers(fetch(cursor, fixture), query, chain, pointsAt, i, off);
    var first := fetch(cursor, sources[0]);
    if first.Ok? {
      assert first == fetch(cursor, fixture);
      if first.value.next.Some? {
        var (j, next) := Behind(chain, i, off, query);
        NextIsInside(query, chain, pointsAt, i, off, first.value);
        WalkOnChain(fetch, query, fixture, chain, pointsAt, first.value.next, j, next, sources[1..]);
        FirstPage(first.value, Walk(fetch, first.value.next, sources[1..]),
                  Rest(chain, j, next, query.includes), Needed(chain, j, next, query));
      } else {
        ReadsLast(query, chain, pointsAt, i, off, first.value);
      }
    }
  }

  // ---- What a query reads -----------------------------------------------------------------------

  // Over every chain of raw pages and for every limit, following the cursors yields the sorted
  // included items of the raw pages one after the other, or the error of the first page that
  // fails. Nothing is skipped or repeated, and the number of query pages is known in advance.
  lemma {:induction false} ChainIsReadOnce(
      wire: Wire, query: Query, fixture: Fixture, chain: seq<RawPage>, sources: seq<Fixture>)
    requires wire.Faithful() && ':' !in query.dataset && ':' !in query.fingerprint
    requires IsChain(fixture, chain)
    requires forall k | 0 <= k < |sources| :: sources[k] == fixture
    requires |sources| >= Needed(chain, 0, 0, query)
    ensures Reads(Walk(Fetcher(wire, query), None, sources),
                  Rest(chain, 0, 0, query.includes), Needed(chain, 0, 0, query))
  {
    var pointsAt := CursorInto(wire, query, fixture, chain);
    forall c, i: nat, off: nat | pointsAt(c, i, off)
      ensures Answers(Fetched(wire, query, c, fixture), query, chain, pointsAt, i, off)
    {
      PageOnChain(wire, query, fixture, chain, c, i, off);
    }
    WalkOnChain(Fetcher(wire, query), query, fixture, chain, pointsAt, None, 0, 0, sources);
  }

  // A page whose records can be read: no ID twice, and not every record rejected.
  ghost predicate Readable(page: RawPage, includes: Item -> bool) {
    && NoDuplicates(Ids(page.records))
    && (page.records == [] || Kept(page.records, includes) != [] || Rejected(page.records) == [])
  }

  // The third empty raw page in a row that still has a continuation.
  ghost predicate ThirdEmpty(chain: seq<RawPage>, i: nat) {
    && 2 <= i && i + 1 < |chain|
    && chain[i].records == [] && chain[i - 1].records == [] && chain[i - 2].records == []
  }

  function AllShown(chain: seq<RawPage>, includes: Item -> bool): seq<Item> {
    if chain == [] then [] else Shown(chain[0], includes) + AllShown(chain[1..], includes)
  }

  lemma {:induction false} RestOfReadablePages(fixture: Fixture, chain: seq<RawPage>, i: nat, includes: Item -> bool)
    requires IsChain(fixture, chain) && i < |chain|
    requires forall page <- chain :: Readable(page, includes)
    ensures Rest(chain, i, 0, includes)
         == if exists k :: i <= k < |chain| && ThirdEmpty(chain, k) then Err(InvalidPagination)
            else Ok(AllShown(chain[i..], includes))
    decreases |chain| - i
  {
    assert LinksTo(fixture, chain, i) && Readable(chain[i], includes);
    assert i > 0 ==> EmptyBefore(chain, i) == Empty(chain[i - 1], EmptyBefore(chain, i - 1));
    assert i > 1 ==> EmptyBefore(chain, i - 1) == Empty(chain[i - 2], EmptyBefore(chain, i - 2));
    assert FailingAt(chain, i, includes).Some? <==> ThirdEmpty(chain, i);
    assert chain[i..][1..] == chain[i + 1..];
    if i + 1 < |chain| {
      RestOfReadablePages(fixture, chain, i + 1, includes);
      assert forall k | i <= k < |chain| && ThirdEmpty(chain, k) :: k == i || i + 1 <= k;
    } else {
      assert forall k | i <= k < |chain| :: !ThirdEmpty(chain, k);
      var shown := Shown(chain[i], includes);
      assert AllShown(chain[i..], includes) == shown + AllShown(chain[i..][1..], includes);
      assert shown[0..] == shown && shown + [] == shown;
      assert FailingAt(chain, i, includes).None?;
    }
  }

  // With readable pages a walk fails exactly when some third empty page in a row continues, and
  // otherwise yields every page's items in order, whatever the limit.
  lemma {:induction false} FailsExactlyAtTheThirdEmptyPage(
      wire: Wire, query: Query, fixture: Fixture, chain: seq<RawPage>, sources: seq<Fixture>)
    requires wire.Faithful() && ':' !in query.dataset && ':' !in query.fingerprint
    requires IsChain(fixture, chain) && forall page <- chain :: Readable(page, query.includes)
    requires forall k | 0 <= k < |sources| :: sources[k] == fixture
    requires |sources| >= Needed(chain, 0, 0, query)
    ensures var pages := Walk(Fetcher(wire, query), None, sources);
            if exists i :: ThirdEmpty(chain, i) then pages == Err(InvalidPagination)
            else pages.Ok? && Finished(pages.value) && Items(pages.value) == AllShown(chain, query.includes)
  {
    ChainIsReadOnce(wire, query, fixture, chain, sources);
    RestOfReadablePages(fixture, chain, 0, query.includes);
    assert chain[0..] == chain;
  }

  // A cursor cut from one state of the fixture is refused by a later state with another
  // timestamp, or with another watermark if the first state had one.
  lemma {:induction false} OtherSnapshotIsRefused(
      wire: Wire, query: Query, cursor: Option<string>, fixture: Fixture, later: Fixture)
    requires wire.Faithful() && ':' !in query.dataset && ':' !in query.fingerprint
    requires Fetched(wire, query, cursor, fixture).Ok? && Fetched(wire, query, cursor, fixture).value.next.Some?
    requires || later.fetchedAt != fixture.fetchedAt
             || (fixture.watermark.Some? && later.watermark != fixture.watermark)
    ensures Fetched(wire, query, Fetched(wire, query, cursor, fixture).value.next, later) == Err(SnapshotChanged)
  {
    var at := DecodeFixture(wire, cursor, query.dataset, query.fingerprint).value;
    DecodedIsEncodable(wire, cursor, query.dataset, query.fingerprint);
    NextCursorIsEncodable(query, at, fixture);
    FixtureRoundTrip(wire, FetchedAt(query, at, fixture).value.next.value, query.dataset, query.fingerprint,
                     query.dataset, query.fingerprint);
  }
}
