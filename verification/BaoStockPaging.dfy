/** Daily bars of the BaoStock provider: every page fetches and sorts the whole result again,
    and the signed cursor ties a page to the snapshot the first page saw. */
module BaoStockPaging {
  import opened CursorCodec
  import opened CursorWalk
  import opened Prelude
  import opened Sorting

  // ---- Data -----------------------------------------------------------------------------------

  // The approved index symbols.
  datatype Symbol = SseComposite | Csi300 | SzseComponent

  datatype Instrument = Instrument(id: string, symbol: Symbol)

  // One source row: its date if that parses, and the checksum of its parsed fields if they make
  // a bar of the requested symbol.
  datatype Row = Row(date: Option<int>, checksum: Option<string>)

  datatype Bar = Bar(instrument: Instrument, date: int, checksum: string, fetchedAt: int)

  // What the service answers while one page is fetched.
  datatype Source = Source(rows: Instrument -> seq<Row>, fetchedAt: int)

  datatype Query = Query(ids: seq<string>, start: int, end: int, limit: Limit)

  const MAX_ROWS_PER_INSTRUMENT := 2_500
  const MINUTE := 60
  const DAY := 24 * 60 * MINUTE

  // 09:30 and 15:00 in Shanghai.
  function SessionOpen(date: int): int { date * DAY + 90 * MINUTE }
  function SessionClose(date: int): int { date * DAY + 420 * MINUTE }

  // Derived names: the stable bar ID, the provider's record ID and the canonical checksum.
  datatype Names = Names(
    barId: (string, int) -> string, recordId: (Symbol, int) -> string, digest: seq<(string, string)> -> string)
  {
    // Different things have different names.
    ghost predicate Distinct() {
      && (forall i, d, j, e :: TellsBarsApart(i, d, j, e))
      && (forall a, d, b, e :: TellsRecordsApart(a, d, b, e))
      && (forall s, t :: TellsListsApart(s, t))
    }

    ghost predicate TellsBarsApart(i: string, d: int, j: string, e: int) {
      barId(i, d) == barId(j, e) ==> i == j && d == e
    }

    ghost predicate TellsRecordsApart(a: Symbol, d: int, b: Symbol, e: int) {
      recordId(a, d) == recordId(b, e) ==> a == b && d == e
    }

    ghost predicate TellsListsApart(s: seq<(string, string)>, t: seq<(string, string)>) {
      digest(s) == digest(t) ==> s == t
    }

    function Id(bar: Bar): string { barId(bar.instrument.id, bar.date) }

    function Record(bar: Bar): (string, string) { (recordId(bar.instrument.symbol, bar.date), bar.checksum) }

    function Viewer(): Bar -> (string, string) { bar => Record(bar) }

    function Records(bars: seq<Bar>): seq<(string, string)> { View(Viewer(), bars) }

    function Watermark(bars: seq<Bar>): string { digest(Records(bars)) }

    // The sort key: bar_end, instrument_id, bar_id.
    predicate Before(a: Bar, b: Bar) {
      || SessionClose(a.date) < SessionClose(b.date)
      || (SessionClose(a.date) == SessionClose(b.date)
          && (|| TextBefore(a.instrument.id, b.instrument.id)
              || (a.instrument.id == b.instrument.id && TextBefore(Id(a), Id(b)))))
    }

    function Order(): (Bar, Bar) -> bool { (a, b) => Before(a, b) }

    function Sorted(bars: seq<Bar>): seq<Bar> { Sort(bars, Order()) }
  }

  // The constructor refuses repeated IDs and symbols.
  ghost predicate ValidConfig(config: seq<Instrument>) {
    forall i, j | 0 <= i < j < |config| :: config[i].id != config[j].id && config[i].symbol != config[j].symbol
  }

  // ---- Reading one instrument -----------------------------------------------------------------

  // The dates that parse, in row order.
  function Dates(rows: seq<Row>): seq<int> {
    if rows == [] then []
    else
      var last := rows[|rows| - 1];
      Dates(rows[..|rows| - 1]) + (if last.date.Some? then [last.date.value] else [])
  }

  predicate Ascending(dates: seq<int>) {
    forall i, j | 0 <= i < j < |dates| :: dates[i] < dates[j]
  }

  // Rows that make a bar inside the window.
  function Kept(rows: seq<Row>, instrument: Instrument, query: Query, fetchedAt: int): seq<Bar> {
    if rows == [] then []
    else
      var last := rows[|rows| - 1];
      var front := Kept(rows[..|rows| - 1], instrument, query, fetchedAt);
      if last.date.Some? && last.checksum.Some? && query.start <= SessionOpen(last.date.value) < query.end
      then front + [Bar(instrument, last.date.value, last.checksum.value, fetchedAt)]
      else front
  }

  // Rows that make none; each is reported in a warning.
  function Quarantined(rows: seq<Row>): seq<nat> {
    if rows == [] then []
    else
      var last := rows[|rows| - 1];
      Quarantined(rows[..|rows| - 1])
      + (if last.date.None? || last.checksum.None? then [|rows| - 1] else [])
  }

  lemma {:induction false} KeptInOrder(rows: seq<Row>, instrument: Instrument, query: Query, fetchedAt: int)
    requires Ascending(Dates(rows))
    ensures var kept := Kept(rows, instrument, query, fetchedAt);
            && |kept| <= |rows|
            && (forall b <- kept :: b.instrument == instrument)
            && (forall i, j | 0 <= i < j < |kept| :: kept[i].date < kept[j].date)
            && (forall b <- kept :: b.date in Dates(rows))
  {
    if rows != [] {
      var front := rows[..|rows| - 1];
      assert forall i | 0 <= i < |Dates(front)| :: Dates(rows)[i] == Dates(front)[i];
      KeptInOrder(front, instrument, query, fetchedAt);
      var last := rows[|rows| - 1];
      if last.date.Some? {
        forall b | b in Kept(front, instrument, query, fetchedAt) ensures b.date < last.date.value {
          var k :| 0 <= k < |Dates(front)| && Dates(front)[k] == b.date;
          assert Dates(rows)[k] < Dates(rows)[|Dates(front)|];
        }
      }
    }
  }

  // The loop's own reading of the order: each parseable date exceeds the last one before it.
  function LastDate(rows: seq<Row>): Option<int> {
    if rows == [] then None
    else if rows[|rows| - 1].date.Some? then rows[|rows| - 1].date
    else LastDate(rows[..|rows| - 1])
  }

  predicate Breaks(row: Row, previous: Option<int>) {
    row.date.Some? && previous.Some? && row.date.value <= previous.value
  }

  predicate InOrder(rows: seq<Row>) {
    rows == [] || (InOrder(rows[..|rows| - 1]) && !Breaks(rows[|rows| - 1], LastDate(rows[..|rows| - 1])))
  }

  lemma {:induction false} AscendingExtends(dates: seq<int>, date: int)
    ensures Ascending(dates + [date]) <==> Ascending(dates) && (dates == [] || dates[|dates| - 1] < date)
  {
    var longer := dates + [date];
    assert forall i | 0 <= i < |dates| :: longer[i] == dates[i];
    if dates != [] {
      assert longer[|dates| - 1] == dates[|dates| - 1] && longer[|dates|] == date;
    }
  }

  lemma {:induction false} InOrderMeansAscending(rows: seq<Row>)
    ensures InOrder(rows) <==> Ascending(Dates(rows))
    ensures LastDate(rows) == if Dates(rows) == [] then None else Some(Dates(rows)[|Dates(rows)| - 1])
  {
    if rows != [] {
      var front, last := rows[..|rows| - 1], rows[|rows| - 1];
      InOrderMeansAscending(front);
      if last.date.Some? {
        AscendingExtends(Dates(front), last.date.value);
      } else {
        assert Dates(front) + [] == Dates(front);
      }
    }
  }

  lemma {:induction false} DisorderStays(rows: seq<Row>, n: nat)
    requires n <= |rows| && !InOrder(rows[..n])
    ensures !InOrder(rows)
  {
    if n == |rows| {
      assert rows[..n] == rows;
    } else {
      assert rows[..|rows| - 1][..n] == rows[..n];
      DisorderStays(rows[..|rows| - 1], n);
    }
  }

  // What the loop has made of the rows before `index`.
  ghost predicate ParsedUpTo(rows: seq<Row>, index: nat, instrument: Instrument, query: Query, fetchedAt: int,
                             bars: seq<Bar>, warnings: seq<nat>)
  {
    && index <= |rows|
    && bars == Kept(rows[..index], instrument, query, fetchedAt)
    && warnings == Quarantined(rows[..index])
  }

  function KeptOf(row: Row, instrument: Instrument, query: Query, fetchedAt: int): seq<Bar> {
    if row.date.Some? && row.checksum.Some? && query.start <= SessionOpen(row.date.value) < query.end
    then [Bar(instrument, row.date.value, row.checksum.value, fetchedAt)] else []
  }

  lemma {:induction false} ParsedOneMore(
      rows: seq<Row>, index: nat, instrument: Instrument, query: Query, fetchedAt: int, bars: seq<Bar>,
      warnings: seq<nat>)
    requires index < |rows| && ParsedUpTo(rows, index, instrument, query, fetchedAt, bars, warnings)
    ensures ParsedUpTo(rows, index + 1, instrument, query, fetchedAt,
                       bars + KeptOf(rows[index], instrument, query, fetchedAt),
                       warnings + (if rows[index].date.None? || rows[index].checksum.None? then [index] else []))
  {
    var longer := rows[..index + 1];
    assert longer[..|longer| - 1] == rows[..index] && longer[|longer| - 1] == rows[index];
    assert bars + [] == bars && warnings + [] == warnings;
  }

  // A parseable date that does not exceed the last parseable one stops the page, wherever the
  // rest of its row would have ended up; every other row is kept, filtered or quarantined.
  method ParseRows(rows: seq<Row>, instrument: Instrument, query: Query, fetchedAt: int)
    returns (r: Result<(seq<Bar>, seq<nat>), Failure>)
    ensures r.Ok? <==> Ascending(Dates(rows))
    ensures r.Ok? ==> r.value == (Kept(rows, instrument, query, fetchedAt), Quarantined(rows))
    ensures r.Err? ==> r.error == InvalidPagination
  {
    InOrderMeansAscending(rows);
    var bars: seq<Bar> := [];
    var warnings: seq<nat> := [];
    var previous: Option<int> := None;
    for index := 0 to |rows|
      invariant ParsedUpTo(rows, index, instrument, query, fetchedAt, bars, warnings)
      invariant InOrder(rows[..index]) && previous == LastDate(rows[..index])
    {
      var row := rows[index];
      assert rows[..index + 1][..index] == rows[..index];
      if row.date.Some? {
        if previous.Some? && row.date.value <= previous.value {
          DisorderStays(rows, index + 1);
          return Err(InvalidPagination);
        }
        previous := row.date;
      }
      ParsedOneMore(rows, index, instrument, query, fetchedAt, bars, warnings);
      bars, warnings := ParseRow(row, index, instrument, query, fetchedAt, bars, warnings);
    }
    assert rows[..|rows|] == rows;
    return Ok((bars, warnings));
  }

  // The rest of the loop body: quarantine, filter or append.
  method ParseRow(row: Row, index: nat, instrument: Instrument, query: Query, fetchedAt: int, bars: seq<Bar>,
                  warnings: seq<nat>)
    returns (longer: seq<Bar>, more: seq<nat>)
    ensures longer == bars + KeptOf(row, instrument, query, fetchedAt)
    ensures more == warnings + (if row.date.None? || row.checksum.None? then [index] else [])
  {
    longer, more := bars, warnings;
    if row.date.None? || row.checksum.None? {
      more := more + [index];
    } else if query.start <= SessionOpen(row.date.value) < query.end {
      longer := longer + [Bar(instrument, row.date.value, row.checksum.value, fetchedAt)];
    }
  }

  // ---- Reading all of them --------------------------------------------------------------------

  function Lookup(config: seq<Instrument>, id: string): (found: Option<Instrument>)
    ensures found.Some? ==> found.value in config && found.value.id == id
    ensures found.None? ==> forall x <- config :: x.id != id
  {
    if config == [] then None
    else if config[0].id == id then Some(config[0])
    else Lookup(config[1..], id)
  }

  // The configured instruments behind the distinct IDs, in the order of first mention.
  function Requested(config: seq<Instrument>, ids: seq<string>): Option<seq<Instrument>> {
    if ids == [] then Some([])
    else
      var n := |ids| - 1;
      match (Requested(config, ids[..n]), Lookup(config, ids[n]))
      case (Some(front), _) =>
        if ids[n] in ids[..n] then Some(front)
        else if Lookup(config, ids[n]).None? then None
        else Some(front + [Lookup(config, ids[n]).value])
      case (None, _) => None
  }

  ghost predicate AllDiffer(found: seq<Instrument>) {
    forall i, j | 0 <= i < j < |found| :: found[i].id != found[j].id && found[i].symbol != found[j].symbol
  }

  lemma {:induction false} DifferentIdsDiffer(config: seq<Instrument>, a: Instrument, b: Instrument)
    requires ValidConfig(config) && a in config && b in config && a.id != b.id
    ensures a.symbol != b.symbol
  {
    var k :| 0 <= k < |config| && config[k] == a;
    var l :| 0 <= l < |config| && config[l] == b;
    assert k < l || l < k;
  }

  lemma {:induction false} RequestedAreDistinct(config: seq<Instrument>, ids: seq<string>)
    requires ValidConfig(config) && Requested(config, ids).Some?
    ensures var found := Requested(config, ids).value;
            (forall x <- found :: x in config && x.id in ids) && AllDiffer(found)
  {
    if ids != [] {
      var n := |ids| - 1;
      RequestedAreDistinct(config, ids[..n]);
      var front := Requested(config, ids[..n]).value;
      if ids[n] !in ids[..n] {
        var added := Lookup(config, ids[n]).value;
        assert Requested(config, ids).value == front + [added];
        forall i | 0 <= i < |front| ensures front[i].id != added.id && front[i].symbol != added.symbol {
          assert front[i] in front;
          DifferentIdsDiffer(config, front[i], added);
        }
      }
    }
  }

  // There are three approved symbols, so there are at most three instruments to read.
  lemma {:induction false} AtMostThree(found: seq<Instrument>)
    requires forall i, j | 0 <= i < j < |found| :: found[i].symbol != found[j].symbol
    ensures |found| <= 3
  {
    CountSymbols(found);
    var all := {SseComposite, Csi300, SzseComponent};
    assert Symbols(found) <= all;
    assert |all - Symbols(found)| == |all| - |Symbols(found)|;
  }

  function Symbols(found: seq<Instrument>): (symbols: set<Symbol>)
    ensures forall symbol <- symbols :: exists x <- found :: x.symbol == symbol
  {
    if found == [] then {} else Symbols(found[1..]) + {found[0].symbol}
  }

  lemma {:induction false} CountSymbols(found: seq<Instrument>)
    requires forall i, j | 0 <= i < j < |found| :: found[i].symbol != found[j].symbol
    ensures |Symbols(found)| == |found|
  {
    if found != [] {
      CountSymbols(found[1..]);
    }
  }

  // The bars of the instruments in turn; the first instrument that fails decides the error.
  function Collected(instruments: seq<Instrument>, query: Query, source: Source)
    : (bars: Result<seq<Bar>, Failure>)
    ensures bars.Err? ==> bars.error == SchemaDrift || bars.error == InvalidPagination
  {
    if instruments == [] then Ok([])
    else
      var n := |instruments| - 1;
      var rows := source.rows(instruments[n]);
      match Collected(instruments[..n], query, source)
      case Err(e) => Err(e)
      case Ok(front) =>
        if |rows| > MAX_ROWS_PER_INSTRUMENT then Err(SchemaDrift)
        else if !Ascending(Dates(rows)) then Err(InvalidPagination)
        else Ok(front + Kept(rows, instruments[n], query, source.fetchedAt))
  }

  predicate SameBar(a: Bar, b: Bar) {
    a.instrument.id == b.instrument.id && a.date == b.date
  }

  lemma {:induction false} CollectedAreDistinct(instruments: seq<Instrument>, query: Query, source: Source)
    requires forall i, j | 0 <= i < j < |instruments| :: instruments[i].id != instruments[j].id
    requires Collected(instruments, query, source).Ok?
    ensures var bars := Collected(instruments, query, source).value;
            && |bars| <= MAX_ROWS_PER_INSTRUMENT * |instruments|
            && (forall b <- bars :: b.instrument in instruments)
            && Pairwise(bars, (a, b) => !SameBar(a, b))
  {
    if instruments != [] {
      var n := |instruments| - 1;
      CollectedAreDistinct(instruments[..n], query, source);
      KeptInOrder(source.rows(instruments[n]), instruments[n], query, source.fetchedAt);
      var front := Collected(instruments[..n], query, source).value;
      var kept := Kept(source.rows(instruments[n]), instruments[n], query, source.fetchedAt);
      var bars := front + kept;
      forall i, j | 0 <= i < j < |bars| ensures !SameBar(bars[i], bars[j]) {
        if j < |front| {
        } else if i < |front| {
          var k :| 0 <= k < n && instruments[k] == front[i].instrument;
          assert instruments[k].id != instruments[n].id;
          assert bars[j] in kept;
        } else {
          assert kept[i - |front|].date < kept[j - |front|].date;
        }
      }
    }
  }

  // ---- One page -------------------------------------------------------------------------------

  // A page before its next cursor is turned into text.
  datatype Slice = Slice(items: seq<Bar>, next: Option<Issue>, watermark: string)

  predicate UniqueIds(names: Names, bars: seq<Bar>) {
    forall i, j | 0 <= i < j < |bars| :: names.Id(bars[i]) != names.Id(bars[j])
  }

  // The checks against the cursor, the slice and what the next cursor is to hold.
  function SliceAt(names: Names, fingerprint: string, at: BaoStockCursor, all: seq<Bar>, limit: Limit)
    : Result<Slice, Failure>
  {
    var watermark := names.Watermark(all);
    if at.watermark.Some? && at.watermark.value != watermark then Err(SnapshotChanged)
    else if at.offset > |all| then Err(InvalidCursor)
    else if at.offset > 0 && (at.lastBarId.None? || names.Id(all[at.offset - 1]) != at.lastBarId.value) then
      Err(SnapshotChanged)
    else
      var end := if at.offset + limit < |all| then at.offset + limit else |all|;
      var items := all[at.offset..end];
      Ok(Slice(items,
               if end < |all| then Some(Issue(fingerprint, end, names.Id(items[|items| - 1]), watermark)) else None,
               watermark))
  }

  function Paged(wire: Wire, slice: Result<Slice, Failure>): Result<Page<Bar>, Failure> {
    match slice
    case Err(e) => Err(e)
    case Ok(Slice(items, None, watermark)) => Ok(Page(items, None, Some(watermark), true))
    case Ok(Slice(items, Some(issue), watermark)) =>
      match EncodeBaoStock(wire, issue)
      case Err(e) => Err(e)
      case Ok(next) => Ok(Page(items, Some(next), Some(watermark), false))
  }

  // What one source shows: its whole sorted result, or the error of reading it.
  function Snapshot(names: Names, config: seq<Instrument>, query: Query, source: Source): Result<seq<Bar>, Failure> {
    match Requested(config, query.ids)
    case None => Err(Unsupported)
    case Some(instruments) =>
      match Collected(instruments, query, source)
      case Err(e) => Err(e)
      case Ok(bars) => if UniqueIds(names, names.Sorted(bars)) then Ok(names.Sorted(bars)) else Err(InvalidPagination)
  }

  function FetchedAt(names: Names, config: seq<Instrument>, query: Query, fingerprint: string, at: BaoStockCursor,
                     source: Source): Result<Slice, Failure> {
    match Snapshot(names, config, query, source)
    case Err(e) => Err(e)
    case Ok(all) => SliceAt(names, fingerprint, at, all, query.limit)
  }

  function Fetched(wire: Wire, names: Names, config: seq<Instrument>, query: Query, fingerprint: string,
                   cursor: Option<string>, source: Source): Result<Page<Bar>, Failure> {
    match DecodeBaoStock(wire, cursor, fingerprint)
    case Err(e) => Err(e)
    case Ok(at) => Paged(wire, FetchedAt(names, config, query, fingerprint, at, source))
  }

  // ---- The provider, step by step -------------------------------------------------------------

  method RequestedInstruments(config: seq<Instrument>, ids: seq<string>) returns (r: Option<seq<Instrument>>)
    ensures r == Requested(config, ids)
  {
    var result: seq<Instrument> := [];
    var seen: set<string> := {};
    for n := 0 to |ids|
      invariant Requested(config, ids[..n]) == Some(result)
      invariant forall id :: id in seen <==> id in ids[..n]
    {
      assert ids[..n + 1][..n] == ids[..n];
      if ids[n] !in seen {
        seen := seen + {ids[n]};
        var found := Lookup(config, ids[n]);
        if found.None? {
          UnknownStaysUnknown(config, ids, n + 1);
          return None;
        }
        result := result + [found.value];
      }
    }
    assert ids[..|ids|] == ids;
    return Some(result);
  }

  lemma {:induction false} UnknownStaysUnknown(config: seq<Instrument>, ids: seq<string>, n: nat)
    requires n <= |ids| && Requested(config, ids[..n]).None?
    ensures Requested(config, ids).None?
  {
    if n == |ids| {
      assert ids[..n] == ids;
    } else {
      assert ids[..|ids| - 1][..n] == ids[..n];
      UnknownStaysUnknown(config, ids[..|ids| - 1], n);
    }
  }

  lemma {:induction false} FailureStays(instruments: seq<Instrument>, n: nat, query: Query, source: Source)
    requires n <= |instruments| && Collected(instruments[..n], query, source).Err?
    ensures Collected(instruments, query, source) == Collected(instruments[..n], query, source)
  {
    if n == |instruments| {
      assert instruments[..n] == instruments;
    } else {
      assert instruments[..|instruments| - 1][..n] == instruments[..n];
      FailureStays(instruments[..|instruments| - 1], n, query, source);
    }
  }

  // _ensure_unique_bar_ids
  method HasUniqueIds(names: Names, bars: seq<Bar>) returns (unique: bool)
    ensures unique == UniqueIds(names, bars)
  {
    var seen: set<string> := {};
    for n := 0 to |bars|
      invariant forall id :: id in seen <==> exists i :: 0 <= i < n && names.Id(bars[i]) == id
      invariant UniqueIds(names, bars[..n])
    {
      if names.Id(bars[n]) in seen {
        return false;
      }
      seen := seen + {names.Id(bars[n])};
    }
    return true;
  }

  method FetchBars(wire: Wire, names: Names, config: seq<Instrument>, query: Query, fingerprint: string,
                   cursor: Option<string>, source: Source)
    returns (page: Result<Page<Bar>, Failure>)
    ensures page == Fetched(wire, names, config, query, fingerprint, cursor, source)
  {
    var at := DecodeBaoStock(wire, cursor, fingerprint);
    if at.Err? {
      return Err(at.error);
    }
    var requested := RequestedInstruments(config, query.ids);
    if requested.None? {
      return Err(Unsupported);
    }
    var instruments := requested.value;
    var all: seq<Bar> := [];
    for n := 0 to |instruments|
      invariant Collected(instruments[..n], query, source) == Ok(all)
    {
      assert instruments[..n + 1][..n] == instruments[..n];
      var rows := source.rows(instruments[n]);
      if |rows| > MAX_ROWS_PER_INSTRUMENT {
        FailureStays(instruments, n + 1, query, source);
        return Err(SchemaDrift);
      }
      var parsed := ParseRows(rows, instruments[n], query, source.fetchedAt);
      if parsed.Err? {
        FailureStays(instruments, n + 1, query, source);
        return Err(parsed.error);
      }
      all := all + parsed.value.0;
    }
    assert instruments[..|instruments|] == instruments;
    all := names.Sorted(all);
    var unique := HasUniqueIds(names, all);
    if !unique {
      return Err(InvalidPagination);
    }
    page := Paged(wire, SliceAt(names, fingerprint, at.value, all, query.limit));
  }

  // The order is a total order on distinct bars.
  lemma {:induction false} BeforeIsAnOrder(names: Names)
    ensures IsOrder(names.Order())
  {
    forall a: Bar, b: Bar | names.Before(a, b) ensures !names.Before(b, a) {
      TextIsTotal(a.instrument.id, b.instrument.id);
      TextIsTotal(names.Id(a), names.Id(b));
    }
    forall a: Bar, b: Bar, c: Bar | names.Before(a, c) ensures names.Before(a, b) || names.Before(b, c) {
      BeforeSplits(names, a, b, c);
    }
  }

  lemma {:induction false} BeforeSplits(names: Names, a: Bar, b: Bar, c: Bar)
    requires names.Before(a, c)
    ensures names.Before(a, b) || names.Before(b, c)
  {
    TextSplits(a.instrument.id, b.instrument.id, c.instrument.id);
    TextSplits(names.Id(a), names.Id(b), names.Id(c));
    TextIsTotal(a.instrument.id, b.instrument.id);
    TextIsTotal(b.instrument.id, c.instrument.id);
  }

  lemma {:induction false} TextSplits(a: string, b: string, c: string)
    ensures TextBefore(a, c) ==> TextBefore(a, b) || TextBefore(b, c)
  {
    TextIsTotal(a, b);
    TextIsTotal(b, c);
    if TextBefore(a, c) && TextBefore(c, b) {
      TextIsTransitive(a, c, b);
    }
  }

  lemma {:induction false} SortedBars(names: Names, bars: seq<Bar>)
    requires names.Distinct() && Pairwise(bars, (a, b) => !SameBar(a, b))
    ensures multiset(names.Sorted(bars)) == multiset(bars) && |names.Sorted(bars)| == |bars|
    ensures forall b :: b in names.Sorted(bars) <==> b in bars
    ensures Pairwise(names.Sorted(bars), names.Order()) && UniqueIds(names, names.Sorted(bars))
  {
    var all := names.Sorted(bars);
    var distinct := (a: Bar, b: Bar) => !SameBar(a, b);
    BeforeIsAnOrder(names);
    SortPermutes(bars, names.Order());
    SortOrders(bars, names.Order());
    assert Pairwise(bars, distinct);
    SortKeepsSymmetric(bars, names.Order(), distinct);
    forall i, j | 0 <= i < j < |all| ensures names.Order()(all[i], all[j]) && names.Id(all[i]) != names.Id(all[j]) {
      assert distinct(all[i], all[j]) && !names.Before(all[j], all[i]);
      assert names.TellsBarsApart(all[i].instrument.id, all[i].date, all[j].instrument.id, all[j].date);
      TextIsTotal(all[i].instrument.id, all[j].instrument.id);
    }
  }

  // What a readable source shows is a permutation of its bars in strict key order. No bar occurs
  // twice, so the duplicate check never fires, and there are at most 7500 of them.
  lemma {:induction false} SnapshotIsSorted(names: Names, config: seq<Instrument>, query: Query, source: Source)
    requires names.Distinct() && ValidConfig(config) && Requested(config, query.ids).Some?
    ensures var bars := Collected(Requested(config, query.ids).value, query, source);
            var all := Snapshot(names, config, query, source);
            && (bars.Err? ==> all == Err(bars.error))
            && (bars.Ok? ==>
                  && all.Ok?
                  && multiset(all.value) == multiset(bars.value)
                  && Pairwise(all.value, names.Order())
                  && |all.value| <= 3 * MAX_ROWS_PER_INSTRUMENT
                  && FromConfig(config, all.value))
  {
    var instruments := Requested(config, query.ids).value;
    RequestedAreDistinct(config, query.ids);
    AtMostThree(instruments);
    if Collected(instruments, query, source).Ok? {
      CollectedAreDistinct(instruments, query, source);
      SortedBars(names, Collected(instruments, query, source).value);
    }
  }

  // ---- What a page shows ----------------------------------------------------------------------

  // The row behind a bar of a requested instrument; its session opens at 09:30 in Shanghai, which is
  // 01:30 UTC, inside the half-open window.
  ghost predicate HasRow(rows: seq<Row>, date: int, checksum: string) {
    exists k :: 0 <= k < |rows| && rows[k] == Row(Some(date), Some(checksum))
  }

  ghost predicate IsAsked(query: Query, source: Source, bar: Bar) {
    && bar.instrument.id in query.ids && bar.fetchedAt == source.fetchedAt
    && HasRow(source.rows(bar.instrument), bar.date, bar.checksum)
    && query.start <= bar.date * 86_400 + 5_400 < query.end
  }

  lemma {:induction false} KeptAreTheRows(
      rows: seq<Row>, instrument: Instrument, query: Query, fetchedAt: int, bar: Bar)
    ensures bar in Kept(rows, instrument, query, fetchedAt)
       <==> && bar.instrument == instrument && bar.fetchedAt == fetchedAt && HasRow(rows, bar.date, bar.checksum)
            && query.start <= bar.date * 86_400 + 5_400 < query.end
  {
    if rows != [] {
      var front, last := rows[..|rows| - 1], rows[|rows| - 1];
      KeptAreTheRows(front, instrument, query, fetchedAt, bar);
      assert HasRow(rows, bar.date, bar.checksum)
        <==> HasRow(front, bar.date, bar.checksum) || last == Row(Some(bar.date), Some(bar.checksum)) by {
        if k :| 0 <= k < |front| && front[k] == Row(Some(bar.date), Some(bar.checksum)) {
          assert rows[k] == front[k];
        }
        if k :| 0 <= k < |rows| && rows[k] == Row(Some(bar.date), Some(bar.checksum)) {
          assert k < |front| ==> front[k] == rows[k];
        }
      }
    }
  }

  // The dates that parse go up.
  ghost predicate RowsAscend(rows: seq<Row>) {
    forall i, j | 0 <= i < j < |rows| && rows[i].date.Some? && rows[j].date.Some? ::
      rows[i].date.value < rows[j].date.value
  }

  // An instrument can be read: at most 2500 rows in order.
  ghost predicate IsReadable(rows: seq<Row>) {
    |rows| <= 2_500 && RowsAscend(rows)
  }

  ghost predicate IsDated(rows: seq<Row>, date: int) {
    exists k :: 0 <= k < |rows| && rows[k].date == Some(date)
  }

  lemma {:induction false} DatesAreOfTheRows(rows: seq<Row>, date: int)
    ensures date in Dates(rows) <==> IsDated(rows, date)
  {
    if rows != [] {
      var n := |rows| - 1;
      DatesAreOfTheRows(rows[..n], date);
      if IsDated(rows[..n], date) {
        var k :| 0 <= k < n && rows[..n][k].date == Some(date);
        assert rows[k].date == Some(date);
      }
      if IsDated(rows, date) && rows[n].date != Some(date) {
        var k :| 0 <= k < n && rows[k].date == Some(date);
        assert rows[..n][k].date == Some(date);
      }
    }
  }

  lemma {:induction false} DatesAscendWithTheRows(rows: seq<Row>)
    ensures Ascending(Dates(rows)) <==> RowsAscend(rows)
  {
    if rows != [] {
      var front, last := rows[..|rows| - 1], rows[|rows| - 1];
      DatesAscendWithTheRows(front);
      LastRowAscends(front, last);
      assert rows == front + [last] && Dates(front) + [] == Dates(front);
      if last.date.Some? {
        assert Dates(rows) == Dates(front) + [last.date.value];
        AscendingByTheLast(Dates(front), last.date.value);
        forall date ensures date in Dates(front) <==> IsDated(front, date) { DatesAreOfTheRows(front, date); }
      }
    }
  }

  lemma {:induction false} LastRowAscends(front: seq<Row>, last: Row)
    ensures RowsAscend(front + [last])
       <==> && RowsAscend(front)
            && (last.date.Some? ==> forall date | IsDated(front, date) :: date < last.date.value)
  {
    var rows := front + [last];
    assert forall i | 0 <= i < |front| :: rows[i] == front[i];
    if RowsAscend(rows) {
      assert forall i, j | 0 <= i < j < |front| && front[i].date.Some? && front[j].date.Some? ::
        rows[i].date.value < rows[j].date.value;
      forall date | last.date.Some? && IsDated(front, date) ensures date < last.date.value {
        var k :| 0 <= k < |front| && front[k].date == Some(date);
        assert rows[k].date.value < rows[|front|].date.value;
      }
    }
    if RowsAscend(front) && (last.date.Some? ==> forall date | IsDated(front, date) :: date < last.date.value) {
      forall i, j | 0 <= i < j < |rows| && rows[i].date.Some? && rows[j].date.Some?
        ensures rows[i].date.value < rows[j].date.value
      {
        if j < |front| {
          assert front[i].date.value < front[j].date.value;
        } else {
          assert IsDated(front, front[i].date.value);
        }
      }
    }
  }

  lemma {:induction false} AscendingByTheLast(dates: seq<int>, date: int)
    ensures Ascending(dates + [date]) <==> Ascending(dates) && forall d <- dates :: d < date
  {
    AscendingExtends(dates, date);
    if Ascending(dates) && dates != [] {
      assert dates[|dates| - 1] in dates;
      forall d | d in dates ensures d <= dates[|dates| - 1] {
        var i :| 0 <= i < |dates| && dates[i] == d;
      }
    }
  }

  lemma {:induction false} CollectedAreAsked(instruments: seq<Instrument>, query: Query, source: Source, bar: Bar)
    requires forall x <- instruments :: x.id in query.ids
    ensures Collected(instruments, query, source).Ok? <==> forall x <- instruments :: IsReadable(source.rows(x))
    ensures Collected(instruments, query, source).Ok? ==>
              (bar in Collected(instruments, query, source).value
               <==> bar.instrument in instruments && IsAsked(query, source, bar))
  {
    if instruments != [] {
      var n := |instruments| - 1;
      CollectedAreAsked(instruments[..n], query, source, bar);
      DatesAscendWithTheRows(source.rows(instruments[n]));
      KeptAreTheRows(source.rows(instruments[n]), instruments[n], query, source.fetchedAt, bar);
      assert instruments == instruments[..n] + [instruments[n]];
    }
  }

  // The first instrument that cannot be read decides the error.
  lemma {:induction false} FirstUnreadableDecides(instruments: seq<Instrument>, k: nat, query: Query, source: Source)
    requires k < |instruments| && !IsReadable(source.rows(instruments[k]))
    requires forall i | 0 <= i < k :: IsReadable(source.rows(instruments[i]))
    requires forall x <- instruments :: x.id in query.ids
    ensures Collected(instruments, query, source)
         == Err(if |source.rows(instruments[k])| > 2_500 then SchemaDrift else InvalidPagination)
  {
    var upTo := instruments[..k + 1];
    assert upTo[..k] == instruments[..k];
    forall x | x in instruments[..k] ensures IsReadable(source.rows(x)) {
      var i :| 0 <= i < k && instruments[i] == x;
    }
    CollectedAreAsked(instruments[..k], query, source, Bar(instruments[k], 0, "", 0));
    DatesAscendWithTheRows(source.rows(instruments[k]));
    FailureStays(instruments, k + 1, query, source);
  }

  // The instruments are those of the IDs, one for each distinct ID in the order of first mention.
  ghost predicate AreAsked(config: seq<Instrument>, ids: seq<string>, found: seq<Instrument>) {
    && (forall x :: x in found <==> x in config && x.id in ids)
    && (forall i, j | 0 <= i < j < |found| :: MentionedBefore(ids, found[i].id, found[j].id))
  }

  ghost predicate MentionedBefore(ids: seq<string>, id: string, other: string) {
    exists k :: 0 <= k < |ids| && ids[k] == id && other !in ids[..k + 1]
  }

  lemma {:induction false} MentionStays(ids: seq<string>, id: string, other: string, last: string)
    requires MentionedBefore(ids, id, other)
    ensures MentionedBefore(ids + [last], id, other)
  {
    var k :| 0 <= k < |ids| && ids[k] == id && other !in ids[..k + 1];
    assert (ids + [last])[..k + 1] == ids[..k + 1] && (ids + [last])[k] == id;
  }

  ghost predicate IsConfigured(config: seq<Instrument>, id: string) {
    exists x <- config :: x.id == id
  }

  lemma {:induction false} ConfiguredAreFound(config: seq<Instrument>, ids: seq<string>)
    ensures Requested(config, ids).Some? <==> forall id <- ids :: IsConfigured(config, id)
  {
    if ids != [] {
      var n := |ids| - 1;
      ConfiguredAreFound(config, ids[..n]);
      assert ids == ids[..n] + [ids[n]];
      assert Lookup(config, ids[n]).Some? <==> IsConfigured(config, ids[n]);
    }
  }

  lemma {:induction false} RequestedAreAsked(config: seq<Instrument>, ids: seq<string>)
    requires ValidConfig(config) && Requested(config, ids).Some?
    ensures AreAsked(config, ids, Requested(config, ids).value)
  {
    if ids != [] {
      var n := |ids| - 1;
      assert ids == ids[..n] + [ids[n]];
      RequestedAreAsked(config, ids[..n]);
      var front, found := Requested(config, ids[..n]).value, Requested(config, ids).value;
      forall i, j | 0 <= i < j < |found| ensures MentionedBefore(ids, found[i].id, found[j].id) {
        if j < |front| {
          MentionStays(ids[..n], found[i].id, found[j].id, ids[n]);
        } else {
          LastMentionIsNew(config, ids, front, i);
        }
      }
      AddedIsTheOnlyOne(config, ids, front, found);
    }
  }

  lemma {:induction false} LastMentionIsNew(config: seq<Instrument>, ids: seq<string>, front: seq<Instrument>, i: nat)
    requires ids != [] && i < |front| && ids[|ids| - 1] !in ids[..|ids| - 1]
    requires AreAsked(config, ids[..|ids| - 1], front)
    ensures MentionedBefore(ids, front[i].id, ids[|ids| - 1])
  {
    var n := |ids| - 1;
    assert front[i] in front;
    var k :| 0 <= k < n && ids[..n][k] == front[i].id;
    assert ids[k] == front[i].id && ids[..k + 1] == ids[..n][..k + 1];
  }

  lemma {:induction false} AddedIsTheOnlyOne(
      config: seq<Instrument>, ids: seq<string>, front: seq<Instrument>, found: seq<Instrument>)
    requires ValidConfig(config) && ids != [] && AreAsked(config, ids[..|ids| - 1], front)
    requires var last := ids[|ids| - 1];
             if last in ids[..|ids| - 1] then found == front
             else Lookup(config, last).Some? && found == front + [Lookup(config, last).value]
    ensures forall x :: x in found <==> x in config && x.id in ids
  {
    var n := |ids| - 1;
    assert ids == ids[..n] + [ids[n]];
    forall x ensures x in found <==> x in config && x.id in ids {
      if ids[n] !in ids[..n] && x in config && x.id == ids[n] {
        IdIsUnique(config, x, Lookup(config, ids[n]).value);
      }
    }
  }

  lemma {:induction false} IdIsUnique(config: seq<Instrument>, a: Instrument, b: Instrument)
    requires ValidConfig(config) && a in config && b in config && a.id == b.id
    ensures a == b
  {
    var k :| 0 <= k < |config| && config[k] == a;
    var l :| 0 <= l < |config| && config[l] == b;
    assert k == l;
  }

  // By date, and within a date by instrument.
  ghost predicate ByDate(all: seq<Bar>) {
    forall i, j | 0 <= i < j < |all| ::
      || all[i].date < all[j].date
      || (all[i].date == all[j].date && TextBefore(all[i].instrument.id, all[j].instrument.id))
  }

  // A source can be read exactly if every ID is configured and every instrument behind them is
  // readable. It then shows the asked bars and no others, by date and within a date by instrument.
  lemma {:induction false} SnapshotShowsWhatIsAsked(
      names: Names, config: seq<Instrument>, query: Query, source: Source, bar: Bar)
    requires names.Distinct() && ValidConfig(config)
    ensures var shown := Snapshot(names, config, query, source);
            && (shown.Ok?
                <==> && (forall id <- query.ids :: IsConfigured(config, id))
                     && (forall x <- config | x.id in query.ids :: IsReadable(source.rows(x))))
            && (shown == Err(Unsupported) <==> exists id <- query.ids :: !IsConfigured(config, id))
            && (shown.Ok? ==>
                  && (bar in shown.value <==> bar.instrument in config && IsAsked(query, source, bar))
                  && ByDate(shown.value))
  {
    ConfiguredAreFound(config, query.ids);
    if Requested(config, query.ids).Some? {
      RequestedAreAsked(config, query.ids);
      var instruments := Requested(config, query.ids).value;
      CollectedAreAsked(instruments, query, source, bar);
      SnapshotIsSorted(names, config, query, source);
      if Collected(instruments, query, source).Ok? {
        RequestedAreDistinct(config, query.ids);
        CollectedAreDistinct(instruments, query, source);
        SortedByDate(names, Collected(instruments, query, source).value);
        SortPermutes(Collected(instruments, query, source).value, names.Order());
      }
    }
  }

  lemma {:induction false} SortedByDate(names: Names, bars: seq<Bar>)
    requires names.Distinct() && Pairwise(bars, (a, b) => !SameBar(a, b))
    ensures ByDate(names.Sorted(bars))
  {
    var distinct := (a: Bar, b: Bar) => !SameBar(a, b);
    assert Pairwise(bars, distinct);
    BeforeIsAnOrder(names);
    SortOrders(bars, names.Order());
    SortKeepsSymmetric(bars, names.Order(), distinct);
    var all := names.Sorted(bars);
    forall i, j | 0 <= i < j < |all|
      ensures all[i].date < all[j].date
           || (all[i].date == all[j].date && TextBefore(all[i].instrument.id, all[j].instrument.id))
    {
      assert distinct(all[i], all[j]) && !names.Before(all[j], all[i]);
      TextIsTotal(all[i].instrument.id, all[j].instrument.id);
    }
  }

  // A position is served exactly if it names the shown list and the bar before it; a cursor that
  // names the list but lies behind its end is invalid, and any other is stale.
  lemma {:induction false} PositionIsChecked(
      names: Names, fingerprint: string, at: BaoStockCursor, all: seq<Bar>, limit: Limit)
    ensures var slice := SliceAt(names, fingerprint, at, all, limit);
            var named := at.watermark.None? || at.watermark.value == names.digest(names.Records(all));
            && (slice.Ok? <==> named && at.offset <= |all|
                               && (at.offset > 0 ==> at.lastBarId == Some(names.Id(all[at.offset - 1]))))
            && (slice == Err(InvalidCursor) <==> named && at.offset > |all|)
            && (slice.Err? ==> slice.error in {InvalidCursor, SnapshotChanged})
  {}

  // A page is labelled with the digest of the whole list, and is complete exactly if nothing follows.
  lemma {:induction false} PageIsLabelled(
      wire: Wire, names: Names, config: seq<Instrument>, query: Query, fingerprint: string, cursor: Option<string>,
      source: Source)
    requires Fetched(wire, names, config, query, fingerprint, cursor, source).Ok?
    ensures Snapshot(names, config, query, source).Ok?
    ensures var page := Fetched(wire, names, config, query, fingerprint, cursor, source).value;
            var all := Snapshot(names, config, query, source).value;
            && page.watermark == Some(names.digest(names.Records(all)))
            && page.complete == page.next.None?
  {}

  // ---- Following the cursors ------------------------------------------------------------------

  ghost predicate FromConfig(config: seq<Instrument>, bars: seq<Bar>) {
    |bars| <= 3 * MAX_ROWS_PER_INSTRUMENT && forall b <- bars :: b.instrument in config
  }

  // The cursor fields of a reader that has read the first `p` bars of `all`.
  function Position(names: Names, all: seq<Bar>, p: nat): BaoStockCursor
    requires p <= |all|
  {
    if p == 0 then BaoStockCursor(0, None, None)
    else BaoStockCursor(p, Some(names.Id(all[p - 1])), Some(names.Watermark(all)))
  }

  ghost predicate PointsAt(wire: Wire, names: Names, fingerprint: string, all: seq<Bar>, cursor: Option<string>, p: nat)
  {
    && p <= |all| && (p == 0 || p < |all|)
    && DecodeBaoStock(wire, cursor, fingerprint) == Ok(Position(names, all, p))
  }

  ghost function CursorInto(wire: Wire, names: Names, fingerprint: string, all: seq<Bar>): (Option<string>, nat) -> bool
  {
    (c: Option<string>, q: nat) => PointsAt(wire, names, fingerprint, all, c, q)
  }

  // Equal records mean equal bars up to the time they were fetched.
  lemma {:induction false} SameRecordsSameIds(names: Names, config: seq<Instrument>, a: seq<Bar>, b: seq<Bar>)
    requires names.Distinct() && ValidConfig(config) && FromConfig(config, a) && FromConfig(config, b)
    requires names.Records(a) == names.Records(b)
    ensures |a| == |b| && forall i | 0 <= i < |a| :: names.Id(a[i]) == names.Id(b[i])
  {
    assert |names.Records(a)| == |names.Records(b)|;
    forall i | 0 <= i < |a| ensures names.Id(a[i]) == names.Id(b[i]) {
      assert names.Records(a)[i] == names.Records(b)[i];
      assert names.TellsRecordsApart(a[i].instrument.symbol, a[i].date, b[i].instrument.symbol, b[i].date);
      assert a[i] in a && b[i] in b;
      var k :| 0 <= k < |config| && config[k] == a[i].instrument;
      var l :| 0 <= l < |config| && config[l] == b[i].instrument;
    }
  }

  // A list with other records or checksums is refused once the reader has a position ...
  lemma {:induction false} OtherRecordsAreRefused(
      names: Names, fingerprint: string, first: seq<Bar>, p: nat, all: seq<Bar>, limit: Limit)
    requires names.Distinct() && 0 < p <= |first| && names.Records(all) != names.Records(first)
    ensures SliceAt(names, fingerprint, Position(names, first, p), all, limit) == Err(SnapshotChanged)
  {
    assert names.TellsListsApart(names.Records(all), names.Records(first));
  }

  function NextSlice(names: Names, fingerprint: string, first: seq<Bar>, p: nat, all: seq<Bar>, limit: Limit): Slice
    requires p <= |all| == |first|
  {
    if p + limit < |all| then
      Slice(all[p..p + limit],
            Some(IssueAt(names, fingerprint, first, p + limit)), names.Watermark(first))
    else Slice(all[p..], None, names.Watermark(first))
  }

  lemma {:induction false} SliceOfEqualLists(
      names: Names, fingerprint: string, first: seq<Bar>, p: nat, all: seq<Bar>, limit: Limit)
    requires p <= |all| == |first| && names.Watermark(all) == names.Watermark(first)
    requires p > 0 ==> names.Id(all[p - 1]) == names.Id(first[p - 1])
    requires p + limit < |all| ==> names.Id(all[p + limit - 1]) == names.Id(first[p + limit - 1])
    ensures SliceAt(names, fingerprint, Position(names, first, p), all, limit)
         == Ok(NextSlice(names, fingerprint, first, p, all, limit))
  {
    CutSlice(names, fingerprint, Position(names, first, p), all, limit);
  }

  // Past the checks, the slice is cut at the offset.
  lemma {:induction false} CutSlice(
      names: Names, fingerprint: string, at: BaoStockCursor, all: seq<Bar>, limit: Limit)
    requires at.watermark.Some? ==> at.watermark.value == names.Watermark(all)
    requires at.offset <= |all|
    requires at.offset > 0 ==> at.lastBarId == Some(names.Id(all[at.offset - 1]))
    ensures SliceAt(names, fingerprint, at, all, limit)
         == Ok(if at.offset + limit < |all|
               then Slice(all[at.offset..at.offset + limit],
                          Some(IssueAt(names, fingerprint, all, at.offset + limit)), names.Watermark(all))
               else Slice(all[at.offset..], None, names.Watermark(all)))
  {
    if at.offset + limit < |all| {
      LastOfSlice(all, at.offset, at.offset + limit);
    } else {
      assert all[at.offset..|all|] == all[at.offset..];
    }
  }

  lemma {:induction false} LastOfSlice(all: seq<Bar>, p: nat, q: nat)
    requires p < q <= |all|
    ensures |all[p..q]| == q - p && all[p..q][q - p - 1] == all[q - 1]
  {}

  // ... and a list with the same ones is answered with its next slice.
  lemma {:induction false} SameRecordsAreServed(
      names: Names, config: seq<Instrument>, fingerprint: string, first: seq<Bar>, p: nat, all: seq<Bar>,
      limit: Limit)
    requires names.Distinct() && ValidConfig(config) && FromConfig(config, first) && FromConfig(config, all)
    requires p <= |first| && names.Records(all) == names.Records(first)
    ensures |all| == |first|
    ensures SliceAt(names, fingerprint, Position(names, first, p), all, limit)
         == Ok(NextSlice(names, fingerprint, first, p, all, limit))
  {
    SameRecordsSameIds(names, config, all, first);
    SliceOfEqualLists(names, fingerprint, first, p, all, limit);
  }

  ghost predicate Shows(names: Names, config: seq<Instrument>, query: Query, first: seq<Bar>, source: Source) {
    && Snapshot(names, config, query, source).Ok?
    && names.Records(Snapshot(names, config, query, source).value) == names.Records(first)
  }

  function IssueAt(names: Names, fingerprint: string, all: seq<Bar>, p: nat): Issue
    requires 0 < p <= |all|
  {
    Issue(fingerprint, p, names.Id(all[p - 1]), names.Watermark(all))
  }

  // The next cursor of a page is accepted again and points behind the page.
  lemma {:induction false} IssuedCursorPoints(wire: Wire, names: Names, fingerprint: string, first: seq<Bar>, p: nat)
    requires wire.Faithful() && 0 < p < |first| <= 3 * MAX_ROWS_PER_INSTRUMENT
    ensures var next := EncodeBaoStock(wire, IssueAt(names, fingerprint, first, p));
            next.Ok? && CursorInto(wire, names, fingerprint, first)(Some(next.value), p)
  {
    var issue := IssueAt(names, fingerprint, first, p);
    BaoStockRoundTrip(wire, issue, fingerprint);
    assert Position(names, first, p) == BaoStockCursor(p, Some(issue.lastBarId), Some(issue.watermark));
  }

  lemma {:induction false} RecordsOfSlice(names: Names, bars: seq<Bar>, p: nat, q: nat)
    requires p <= q <= |bars|
    ensures names.Records(bars[p..q]) == names.Records(bars)[p..q]
  {}

  lemma {:induction false} MiddleSliceIsPaged(
      wire: Wire, names: Names, fingerprint: string, first: seq<Bar>, p: nat, all: seq<Bar>, limit: Limit)
    requires p + limit < |all| == |first| <= 3 * MAX_ROWS_PER_INSTRUMENT
    requires names.Records(all) == names.Records(first)
    ensures var page := Paged(wire, Ok(NextSlice(names, fingerprint, first, p, all, limit)));
            && page.Ok?
            && names.Records(page.value.items) == names.Records(first)[p..p + limit]
            && page.value.next == Some(EncodeBaoStock(wire, IssueAt(names, fingerprint, first, p + limit)).value)
  {
    RecordsOfSlice(names, all, p, p + limit);
  }

  lemma {:induction false} LastSliceIsPaged(
      wire: Wire, names: Names, fingerprint: string, first: seq<Bar>, p: nat, all: seq<Bar>, limit: Limit)
    requires p <= |all| == |first| <= p + limit && names.Records(all) == names.Records(first)
    ensures var page := Paged(wire, Ok(NextSlice(names, fingerprint, first, p, all, limit)));
            page.Ok? && page.value.next.None? && names.Records(page.value.items) == names.Records(first)[p..]
  {
    RecordsOfSlice(names, all, p, |all|);
    assert all[p..|all|] == all[p..];
    assert names.Records(all)[p..|all|] == names.Records(all)[p..];
  }

  lemma {:induction false} NextSliceIsPaged(
      wire: Wire, names: Names, fingerprint: string, first: seq<Bar>, p: nat, all: seq<Bar>, limit: Limit)
    requires wire.Faithful() && p <= |all| == |first| <= 3 * MAX_ROWS_PER_INSTRUMENT
    requires names.Records(all) == names.Records(first)
    ensures var page := Paged(wire, Ok(NextSlice(names, fingerprint, first, p, all, limit)));
            && page.Ok?
            && IsSlice(page.value, names.Viewer(), names.Records(first), p, limit,
                       CursorInto(wire, names, fingerprint, first))
  {
    if p + limit < |all| {
      MiddleSliceIsPaged(wire, names, fingerprint, first, p, all, limit);
      IssuedCursorPoints(wire, names, fingerprint, first, p + limit);
    } else {
      LastSliceIsPaged(wire, names, fingerprint, first, p, all, limit);
    }
    var page := Paged(wire, Ok(NextSlice(names, fingerprint, first, p, all, limit))).value;
    SliceByParts(page, names.Viewer(), names.Records(first), p, limit, CursorInto(wire, names, fingerprint, first));
  }

  // A cursor from `first`, at the first page or later, is answered with the slice behind it, or
  // with SNAPSHOT_CHANGED if the readable source no longer shows the same records.
  lemma {:induction false} ContinuationNeedsTheSameSnapshot(
      wire: Wire, names: Names, config: seq<Instrument>, query: Query, fingerprint: string, first: seq<Bar>,
      cursor: Option<string>, p: nat, source: Source)
    requires wire.Faithful() && names.Distinct() && ValidConfig(config) && FromConfig(config, first)
    requires PointsAt(wire, names, fingerprint, first, cursor, p)
    ensures var page := Fetched(wire, names, config, query, fingerprint, cursor, source);
            var all := Snapshot(names, config, query, source);
            && (all.Err? ==> page == Err(all.error))
            && (all.Ok? && p > 0 && !Shows(names, config, query, first, source) ==> page == Err(SnapshotChanged))
            && (Shows(names, config, query, first, source) ==>
                  && page.Ok?
                  && IsSlice(page.value, names.Viewer(), names.Records(first), p, query.limit,
                             CursorInto(wire, names, fingerprint, first)))
  {
    var shown := Snapshot(names, config, query, source);
    if shown.Ok? {
      SnapshotIsSorted(names, config, query, source);
      if names.Records(shown.value) == names.Records(first) {
        SameRecordsAreServed(names, config, fingerprint, first, p, shown.value, query.limit);
        NextSliceIsPaged(wire, names, fingerprint, first, p, shown.value, query.limit);
      } else if p > 0 {
        OtherRecordsAreRefused(names, fingerprint, first, p, shown.value, query.limit);
      }
    }
  }

  ghost function Fetcher(wire: Wire, names: Names, config: seq<Instrument>, query: Query, fingerprint: string)
    : (Option<string>, Source) -> Result<Page<Bar>, Failure>
  {
    (cursor, source) => Fetched(wire, names, config, query, fingerprint, cursor, source)
  }

  // On an unchanged source, following the cursors ends after max(1, ceil(n / limit)) pages that
  // hold the records of the sorted result, each exactly once and in order.
  lemma {:induction false} UnchangedSourceIsReadOnce(wire: Wire, names: Names, config: seq<Instrument>, query: Query,
                                  fingerprint: string, first: seq<Bar>, sources: seq<Source>)
    requires wire.Faithful() && names.Distinct() && ValidConfig(config)
    requires sources != [] && Snapshot(names, config, query, sources[0]) == Ok(first)
    requires forall i | 0 <= i < |sources| :: Shows(names, config, query, first, sources[i])
    requires |sources| >= PageCount(|first|, query.limit)
    ensures var pages := Walk(Fetcher(wire, names, config, query, fingerprint), None, sources);
            && pages.Ok?
            && |pages.value| == PageCount(|first|, query.limit)
            && Finished(pages.value)
            && names.Records(Items(pages.value)) == names.Records(first)
  {
    SnapshotIsSorted(names, config, query, sources[0]);
    var fetch := Fetcher(wire, names, config, query, fingerprint);
    var pointsAt := CursorInto(wire, names, fingerprint, first);
    forall i | 0 <= i < |sources|
      ensures Serves(fetch, names.Viewer(), names.Records(first), query.limit, pointsAt, sources[i])
    {
      forall c, q: nat | pointsAt(c, q)
        ensures fetch(c, sources[i]).Ok?
        ensures IsSlice(fetch(c, sources[i]).value, names.Viewer(), names.Records(first), q, query.limit, pointsAt)
      {
        ContinuationNeedsTheSameSnapshot(wire, names, config, query, fingerprint, first, c, q, sources[i]);
      }
    }
    WalkReadsOnce(fetch, names.Viewer(), names.Records(first), query.limit, pointsAt, None, 0, sources);
    assert names.Records(first)[0..] == names.Records(first);
  }

  // Whatever the source does between the pages, the pages of a walk that raises no error all
  // come from the snapshot of the first one, and a finished walk has read the whole of it.
  lemma {:induction false} PagesNeverMixSnapshots(
      wire: Wire, names: Names, config: seq<Instrument>, query: Query, fingerprint: string, sources: seq<Source>)
    requires wire.Faithful() && names.Distinct() && ValidConfig(config) && sources != []
    requires Walk(Fetcher(wire, names, config, query, fingerprint), None, sources).Ok?
    ensures Snapshot(names, config, query, sources[0]).Ok?
    ensures var first := Snapshot(names, config, query, sources[0]).value;
            var pages := Walk(Fetcher(wire, names, config, query, fingerprint), None, sources).value;
            && names.Records(Items(pages)) <= names.Records(first)
            && (Finished(pages) ==> names.Records(Items(pages)) == names.Records(first))
  {
    var fetch := Fetcher(wire, names, config, query, fingerprint);
    assert fetch(None, sources[0]).Ok?;
    SnapshotIsSorted(names, config, query, sources[0]);
    var first := Snapshot(names, config, query, sources[0]).value;
    var pointsAt := CursorInto(wire, names, fingerprint, first);
    ContinuationNeedsTheSameSnapshot(wire, names, config, query, fingerprint, first, None, 0, sources[0]);
    forall c, q: nat, source | pointsAt(c, q) && q > 0 && fetch(c, source).Ok?
      ensures IsSlice(fetch(c, source).value, names.Viewer(), names.Records(first), q, query.limit, pointsAt)
    {
      ContinuationNeedsTheSameSnapshot(wire, names, config, query, fingerprint, first, c, q, source);
    }
    WalkStaysInside(fetch, names.Viewer(), names.Records(first), query.limit, pointsAt, None, 0, sources);
    assert names.Records(first)[0..] == names.Records(first);
  }

  // The encoder's own bound is out of reach: a result has at most 7500 bars.
  lemma {:induction false} EncoderBoundNeverFires(
      wire: Wire, names: Names, config: seq<Instrument>, query: Query, fingerprint: string, cursor: Option<string>,
      source: Source)
    requires names.Distinct() && ValidConfig(config)
    ensures Fetched(wire, names, config, query, fingerprint, cursor, source) != Err(OutOfRange)
  {
    var at := DecodeBaoStock(wire, cursor, fingerprint);
    if at.Ok? && Requested(config, query.ids).Some? {
      SnapshotIsSorted(names, config, query, source);
      OffsetsAreSmall(names, config, query, fingerprint, at.value, source);
    }
  }

  lemma {:induction false} OffsetsAreSmall(
      names: Names, config: seq<Instrument>, query: Query, fingerprint: string, at: BaoStockCursor, source: Source)
    requires Snapshot(names, config, query, source).Ok? ==>
               |Snapshot(names, config, query, source).value| <= 3 * MAX_ROWS_PER_INSTRUMENT
    ensures var slice := FetchedAt(names, config, query, fingerprint, at, source);
            && slice != Err(OutOfRange)
            && (slice.Ok? && slice.value.next.Some? ==> 0 <= slice.value.next.value.offset <= MAX_CURSOR_OFFSET)
  {}
}
