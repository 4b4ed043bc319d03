/** Durable page commits: one transaction reserves the page, writes its records and moves the
    watermark. A page that is already committed is skipped; an exception rolls all of it back. */
module PageCommit {
  import opened Prelude
  import opened BarVersions

  datatype Slot = Slot(providerRole: string, dataset: string, region: string)

  datatype Record = Record(barId: string, version: Version)

  datatype Page = Page(
    slot: Slot, fingerprint: string, sourceWatermark: Option<string>, nextCursor: Option<string>,
    records: seq<Record>)
  {
    function Key(): PageKey {
      PageKey(slot, fingerprint)
    }
  }

  datatype PageKey = PageKey(slot: Slot, fingerprint: string)

  datatype Watermark = Watermark(watermark: Option<string>, cursor: Option<string>)

  type Facts = map<string, History>

  function HistoryOf(facts: Facts, barId: string): History {
    if barId in facts then facts[barId] else []
  }

  function WriteRecord(facts: Facts, r: Record): Facts {
    facts[r.barId := UpsertBar(HistoryOf(facts, r.barId), r.version)]
  }

  function WriteRecords(facts: Facts, records: seq<Record>): Facts {
    if records == [] then facts
    else WriteRecord(WriteRecords(facts, records[..|records| - 1]), records[|records| - 1])
  }

  datatype CommitOutcome = Committed | AlreadyCommitted | RolledBack

  // What the three tables hold after a list of pages was written one after another.
  function WriteAll(facts: Facts, pages: seq<Page>): Facts {
    if pages == [] then facts
    else WriteRecords(WriteAll(facts, pages[..|pages| - 1]), pages[|pages| - 1].records)
  }

  function LastWatermark(pages: seq<Page>, slot: Slot): Option<Watermark> {
    if pages == [] then None
    else
      var last := pages[|pages| - 1];
      if last.slot == slot then Some(Watermark(last.sourceWatermark, last.nextCursor))
      else LastWatermark(pages[..|pages| - 1], slot)
  }

  ghost predicate KeysDiffer(pages: seq<Page>) {
    forall i, j | 0 <= i < j < |pages| :: pages[i].Key() != pages[j].Key()
  }

  predicate Holds(pages: seq<Page>, key: PageKey) {
    exists page <- pages :: page.Key() == key
  }

  // The tables are what writing exactly the pages of `committed`, once each, leaves behind.
  ghost predicate Consistent(commits: map<PageKey, Page>, watermarks: map<Slot, Watermark>, facts: Facts,
                             initialFacts: Facts, committed: seq<Page>) {
    && KeysDiffer(committed)
    && (forall key :: key in commits <==> Holds(committed, key))
    && (forall page <- committed :: page.Key() in commits && commits[page.Key()] == page)
    && facts == WriteAll(initialFacts, committed)
    && (forall slot :: LastWatermark(committed, slot) ==
                       if slot in watermarks then Some(watermarks[slot]) else None)
  }

  // ---- What the facts hold after a list of pages ---------------------------------------------

  // The versions that a list of records brings for one bar, in order.
  function VersionsIn(records: seq<Record>, barId: string): seq<Version> {
    if records == [] then []
    else
      var last := records[|records| - 1];
      VersionsIn(records[..|records| - 1], barId) + (if last.barId == barId then [last.version] else [])
  }

  // ... and that the pages bring, page by page.
  function VersionsOf(pages: seq<Page>, barId: string): seq<Version> {
    if pages == [] then []
    else VersionsOf(pages[..|pages| - 1], barId) + VersionsIn(pages[|pages| - 1].records, barId)
  }

  predicate Named(pages: seq<Page>, barId: string) {
    exists page <- pages :: exists r <- page.records :: r.barId == barId
  }

  lemma {:induction false} UpsertMore(h: History, log: seq<Version>, more: seq<Version>)
    ensures UpsertBars(h, log + more) == UpsertBars(UpsertBars(h, log), more)
  {
    if more == [] {
      assert log + more == log;
    } else {
      assert (log + more)[..|log + more| - 1] == log + more[..|more| - 1];
      UpsertMore(h, log, more[..|more| - 1]);
    }
  }

  lemma {:induction false} RecordIsUpserted(facts: Facts, r: Record, barId: string)
    ensures HistoryOf(WriteRecord(facts, r), barId)
         == UpsertBars(HistoryOf(facts, barId), if r.barId == barId then [r.version] else [])
    ensures barId in WriteRecord(facts, r) <==> barId in facts || r.barId == barId
  {
    assert [r.version][..0] == [];
  }

  // Writing records upserts the versions of each bar into its history, in order, and leaves the
  // bars that no record names alone.
  lemma {:induction false} RecordsAreUpserted(facts: Facts, records: seq<Record>, barId: string)
    ensures HistoryOf(WriteRecords(facts, records), barId)
         == UpsertBars(HistoryOf(facts, barId), VersionsIn(records, barId))
    ensures barId in WriteRecords(facts, records) <==> barId in facts || VersionsIn(records, barId) != []
  {
    if records != [] {
      var front, last := records[..|records| - 1], records[|records| - 1];
      RecordsAreUpserted(facts, front, barId);
      RecordIsUpserted(WriteRecords(facts, front), last, barId);
      UpsertMore(HistoryOf(facts, barId), VersionsIn(front, barId), if last.barId == barId then [last.version] else []);
    }
  }

  // After any committed pages the history of every bar is its initial one with the versions of
  // the pages' own records upserted in order.
  lemma {:induction false} PagesAreUpserted(facts: Facts, pages: seq<Page>, barId: string)
    ensures HistoryOf(WriteAll(facts, pages), barId) == UpsertBars(HistoryOf(facts, barId), VersionsOf(pages, barId))
    ensures barId in WriteAll(facts, pages) <==> barId in facts || VersionsOf(pages, barId) != []
  {
    if pages != [] {
      var front, last := pages[..|pages| - 1], pages[|pages| - 1];
      PagesAreUpserted(facts, front, barId);
      RecordsAreUpserted(WriteAll(facts, front), last.records, barId);
      UpsertMore(HistoryOf(facts, barId), VersionsOf(front, barId), VersionsIn(last.records, barId));
    }
  }

  // A bar has versions exactly if some record names it.
  lemma {:induction false} NamedHasVersions(pages: seq<Page>, barId: string)
    ensures VersionsOf(pages, barId) != [] <==> Named(pages, barId)
  {
    if pages != [] {
      var front, last := pages[..|pages| - 1], pages[|pages| - 1];
      NamedHasVersions(front, barId);
      RecordsHaveVersions(last.records, barId);
      assert pages == front + [last];
    }
  }

  lemma {:induction false} RecordsHaveVersions(records: seq<Record>, barId: string)
    ensures VersionsIn(records, barId) != [] <==> exists r <- records :: r.barId == barId
  {
    if records != [] {
      var front, last := records[..|records| - 1], records[|records| - 1];
      RecordsHaveVersions(front, barId);
      assert records == front + [last];
    }
  }

  // What the fact table holds of one bar, without saying how it was written.
  ghost predicate BarIsUpserted(facts: Facts, initialFacts: Facts, committed: seq<Page>, barId: string) {
    && (barId in facts <==> barId in initialFacts || Named(committed, barId))
    && HistoryOf(facts, barId) == UpsertBars(HistoryOf(initialFacts, barId), VersionsOf(committed, barId))
  }

  lemma {:induction false} ConsistentFacts(
      commits: map<PageKey, Page>, watermarks: map<Slot, Watermark>, facts: Facts, initialFacts: Facts,
      committed: seq<Page>, barId: string)
    requires Consistent(commits, watermarks, facts, initialFacts, committed)
    ensures BarIsUpserted(facts, initialFacts, committed, barId)
    ensures !Named(committed, barId) ==> HistoryOf(facts, barId) == HistoryOf(initialFacts, barId)
  {
    PagesAreUpserted(initialFacts, committed, barId);
    NamedHasVersions(committed, barId);
  }

  lemma {:induction false} AllFactsAreConsistent(
      commits: map<PageKey, Page>, watermarks: map<Slot, Watermark>, facts: Facts, initialFacts: Facts,
      committed: seq<Page>)
    requires Consistent(commits, watermarks, facts, initialFacts, committed)
    ensures forall barId :: BarIsUpserted(facts, initialFacts, committed, barId)
  {
    forall barId ensures BarIsUpserted(facts, initialFacts, committed, barId) {
      ConsistentFacts(commits, watermarks, facts, initialFacts, committed, barId);
    }
  }

  lemma {:induction false} AllRecordsAreUpserted(facts: Facts, records: seq<Record>)
    ensures forall barId :: HistoryOf(WriteRecords(facts, records), barId) ==
                            UpsertBars(HistoryOf(facts, barId), VersionsIn(records, barId))
  {
    forall barId ensures HistoryOf(WriteRecords(facts, records), barId) ==
                         UpsertBars(HistoryOf(facts, barId), VersionsIn(records, barId)) {
      RecordsAreUpserted(facts, records, barId);
    }
  }

  lemma {:induction false} CommitKeepsConsistent(
      commits: map<PageKey, Page>, watermarks: map<Slot, Watermark>, facts: Facts, initialFacts: Facts,
      committed: seq<Page>, page: Page)
    requires Consistent(commits, watermarks, facts, initialFacts, committed)
    requires page.Key() !in commits
    ensures Consistent(commits[page.Key() := page],
                       watermarks[page.slot := Watermark(page.sourceWatermark, page.nextCursor)],
                       WriteRecords(facts, page.records), initialFacts, committed + [page])
  {
    var longer := committed + [page];
    assert longer[..|committed|] == committed;
    forall i | 0 <= i < |committed| ensures committed[i].Key() != page.Key() {
      assert Holds(committed, committed[i].Key());
    }
    forall key ensures key in commits[page.Key() := page] <==> Holds(longer, key) {
      assert page in longer;
    }
    forall p <- longer ensures p.Key() in commits[page.Key() := page] && commits[page.Key() := page][p.Key()] == p {
      if p != page {
        assert p in committed && Holds(committed, p.Key());
        assert p.Key() != page.Key();
      }
    }
  }

  class IngestionCheckpointRepository {
    var commits: map<PageKey, Page>
    var watermarks: map<Slot, Watermark>
    var facts: Facts
    ghost const initialFacts: Facts
    ghost var committed: seq<Page>

    // `committed` lists every page whose transaction committed, in order.
    ghost predicate Valid()
      reads this
    {
      Consistent(commits, watermarks, facts, initialFacts, committed)
    }

    constructor (facts: Facts)
      ensures Valid() && committed == [] && this.facts == facts
    {
      this.facts, initialFacts := facts, facts;
      commits, watermarks, committed := map[], map[], [];
    }

    method ReservePage(page: Page) returns (reserved: bool)
      modifies this`commits
      ensures reserved == (page.Key() !in old(commits))
      ensures commits == if reserved then old(commits)[page.Key() := page] else old(commits)
    {
      reserved := page.Key() !in commits;
      if reserved {
        commits := commits[page.Key() := page];
      }
    }

    method SaveWatermark(slot: Slot, watermark: Option<string>, cursor: Option<string>)
      modifies this`watermarks
      ensures watermarks == old(watermarks)[slot := Watermark(watermark, cursor)]
    {
      watermarks := watermarks[slot := Watermark(watermark, cursor)];
    }

    method LoadWatermark(slot: Slot) returns (watermark: Option<string>, cursor: Option<string>)
      requires Valid()
      ensures (watermark, cursor) == match LastWatermark(committed, slot)
                                     case None => (None, None)
                                     case Some(row) => (row.watermark, row.cursor)
    {
      if slot in watermarks {
        return watermarks[slot].watermark, watermarks[slot].cursor;
      }
      return None, None;
    }

    // The writer of the page, which may raise before or after any of its records.
    method WriteFacts(records: seq<Record>, raisesAt: Option<nat>) returns (raised: bool)
      modifies this`facts
      ensures raised <==> raisesAt.Some? && raisesAt.value <= |records|
      ensures !raised ==> facts == WriteRecords(old(facts), records)
    {
      var i := 0;
      while i < |records| && raisesAt != Some(i)
        invariant 0 <= i <= |records|
        invariant raisesAt.Some? ==> i <= raisesAt.value
        invariant facts == WriteRecords(old(facts), records[..i])
      {
        assert records[..i + 1][..i] == records[..i];
        facts := WriteRecord(facts, records[i]);
        i := i + 1;
      }
      assert raisesAt != Some(i) ==> records[..i] == records;
      raised := raisesAt == Some(i);
    }

    /** The handler's transaction around commit_page. The record writer raises before record
        `raisesAt`, when there is one; the transaction is then rolled back. */
    method CommitPage(page: Page, raisesAt: Option<nat>) returns (outcome: CommitOutcome)
      requires Valid()
      modifies this
      ensures Valid()
      ensures outcome == if page.Key() in old(commits) then AlreadyCommitted
                         else if raisesAt.Some? && raisesAt.value <= |page.records| then RolledBack
                         else Committed
      ensures committed == Through(old(committed), [Attempt(page, outcome == RolledBack)])
      ensures forall barId :: BarIsUpserted(facts, initialFacts, committed, barId)
      ensures outcome != Committed ==>
                commits == old(commits) && facts == old(facts) && watermarks == old(watermarks)
      ensures outcome == Committed ==>
                && (forall barId :: HistoryOf(facts, barId) ==
                                    UpsertBars(HistoryOf(old(facts), barId), VersionsIn(page.records, barId)))
                && watermarks == old(watermarks)[page.slot := Watermark(page.sourceWatermark, page.nextCursor)]
    {
      var savedCommits, savedFacts := commits, facts;
      AllFactsAreConsistent(commits, watermarks, facts, initialFacts, committed);
      var reserved := ReservePage(page);
      if !reserved {
        return AlreadyCommitted;
      }
      var raised := WriteFacts(page.records, raisesAt);
      if raised {
        commits, facts := savedCommits, savedFacts;
        return RolledBack;
      }
      SaveWatermark(page.slot, page.sourceWatermark, page.nextCursor);
      CommitKeepsConsistent(old(commits), old(watermarks), old(facts), initialFacts, committed, page);
      committed := committed + [page];
      AllRecordsAreUpserted(old(facts), page.records);
      AllFactsAreConsistent(commits, watermarks, facts, initialFacts, committed);
      return Committed;
    }
  }

  // ---- Over every history of commits, rollbacks and replays ---------------------------------

  datatype Attempt = Attempt(page: Page, raises: bool)

  // The pages that get through, as the method above decides it.
  function Through(done: seq<Page>, attempts: seq<Attempt>): seq<Page>
    decreases |attempts|
  {
    if attempts == [] then done
    else
      Through(After(done, attempts[0]), attempts[1..])
  }

  function After(done: seq<Page>, a: Attempt): seq<Page> {
    if Holds(done, a.page.Key()) || a.raises then done else done + [a.page]
  }

  // Replaying pages that are all committed changes nothing.
  lemma {:induction false} ReplayIsIdempotent(done: seq<Page>, attempts: seq<Attempt>)
    requires forall a <- attempts :: Holds(done, a.page.Key())
    ensures Through(done, attempts) == done
    decreases |attempts|
  {
    if attempts != [] {
      assert attempts[0] in attempts;
      ReplayIsIdempotent(done, attempts[1..]);
    }
  }

  // Crashes do not matter: in whatever order pages come, and however often they fail and are
  // replayed, each page that ever got through was written exactly once.
  lemma {:induction false} EachPageOnce(done: seq<Page>, attempts: seq<Attempt>, key: PageKey)
    requires KeysDiffer(done)
    ensures KeysDiffer(Through(done, attempts)) && done <= Through(done, attempts)
    ensures Holds(Through(done, attempts), key) <==>
            Holds(done, key) || (exists a <- attempts :: !a.raises && a.page.Key() == key)
    decreases |attempts|
  {
    if attempts != [] {
      var a := attempts[0];
      var next := After(done, a);
      forall i | 0 <= i < |done| ensures Holds(done, done[i].Key()) {
      }
      EachPageOnce(next, attempts[1..], key);
      assert attempts == [a] + attempts[1..];
      assert Holds(next, key) <==> Holds(done, key) || (!a.raises && a.page.Key() == key) by {
        if next != done {
          assert a.page in next && forall p <- done :: p in next;
          assert forall p <- next :: p in done || p == a.page;
        }
      }
    }
  }

  // So over committed pages whose versions of a bar become available one after another, every
  // point-in-time read of a new bar is the last version a record brought by then.
  lemma {:induction false} CommittedBarsReadLikeAFullLog(
      repository: IngestionCheckpointRepository, barId: string, t: int)
    requires repository.Valid() && HistoryOf(repository.initialFacts, barId) == []
    requires StrictlyIncreasing(VersionsOf(repository.committed, barId))
    ensures ChecksumOf(ReadAsOf(HistoryOf(repository.facts, barId), t))
         == LastNotAfter(VersionsOf(repository.committed, barId), t)
  {
    ConsistentFacts(repository.commits, repository.watermarks, repository.facts, repository.initialFacts,
                    repository.committed, barId);
    BarsReadLikeAFullLog(VersionsOf(repository.committed, barId), t);
  }
}
