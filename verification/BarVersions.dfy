/** Bitemporal versions of one fact: a base row that is never rewritten plus revisions, read
    as of a point in time. Market bars compare an upsert with the current version, macro
    releases with every checksum stored for the release. */
module BarVersions {
  import opened Prelude

  // Checksums are compared with a total order; a number stands for each.
  type Checksum = nat

  datatype Version = Version(availableAt: int, checksum: Checksum, payload: string)

  // A stored version; rank 0 is the base row and rank 1 a revision.
  datatype Stored = Stored(version: Version, rank: nat)

  // The base row, if there is one, and then the revisions in insertion order.
  type History = seq<Stored>

  // ---- Reads --------------------------------------------------------------------------------

  // ORDER BY available_at DESC, revision_rank DESC, checksum DESC: `a` sorts before `b`.
  predicate Newer(a: Stored, b: Stored) {
    || a.version.availableAt > b.version.availableAt
    || (a.version.availableAt == b.version.availableAt
        && (|| a.rank > b.rank
            || (a.rank == b.rank && a.version.checksum > b.version.checksum)))
  }

  function AvailableBy(h: History, t: int): History {
    if h == [] then []
    else
      var last := h[|h| - 1];
      var front := AvailableBy(h[..|h| - 1], t);
      if last.version.availableAt <= t then front + [last] else front
  }

  // row_number() = 1 over that order.
  function Newest(h: History): Option<Stored> {
    if h == [] then None
    else
      var last := h[|h| - 1];
      match Newest(h[..|h| - 1])
      case None => Some(last)
      case Some(best) => Some(if Newer(last, best) then last else best)
  }

  function ReadAsOf(h: History, t: int): Option<Stored> {
    Newest(AvailableBy(h, t))
  }

  function ChecksumOf(read: Option<Stored>): Option<Checksum> {
    match read case None => None case Some(stored) => Some(stored.version.checksum)
  }

  // ---- Writes -------------------------------------------------------------------------------

  // The unique key of a bar revision is its time and checksum; a second one is ignored.
  predicate RevisionExists(h: History, v: Version) {
    exists x <- h :: x.rank == 1 && x.version.availableAt == v.availableAt && x.version.checksum == v.checksum
  }

  function UpsertBar(h: History, v: Version): History {
    if h == [] then [Stored(v, 0)]
    else if ChecksumOf(Newest(h)) == Some(v.checksum) || RevisionExists(h, v) then h
    else h + [Stored(v, 1)]
  }

  predicate Stores(h: History, c: Checksum) {
    exists x <- h :: x.version.checksum == c
  }

  function UpsertRelease(h: History, v: Version): History {
    if h == [] then [Stored(v, 0)]
    else if Stores(h, v.checksum) then h
    else h + [Stored(v, 1)]
  }

  function UpsertBars(h: History, log: seq<Version>): History {
    if log == [] then h else UpsertBar(UpsertBars(h, log[..|log| - 1]), log[|log| - 1])
  }

  function UpsertReleases(h: History, log: seq<Version>): History {
    if log == [] then h else UpsertRelease(UpsertReleases(h, log[..|log| - 1]), log[|log| - 1])
  }

  // The naive store keeps every upsert and reads the last one not after `t`.
  function LastNotAfter(log: seq<Version>, t: int): Option<Checksum> {
    if log == [] then None
    else if log[|log| - 1].availableAt <= t then Some(log[|log| - 1].checksum)
    else LastNotAfter(log[..|log| - 1], t)
  }

  ghost predicate StrictlyIncreasing(log: seq<Version>) {
    forall i, j | 0 <= i < j < |log| :: log[i].availableAt < log[j].availableAt
  }

  // ---- Reading is an argmax -------------------------------------------------------------------

  // Nothing stored sorts before the newest version, so the order of the rows does not matter.
  lemma {:induction false} NewestIsTheMaximum(h: History)
    ensures Newest(h).None? <==> h == []
    ensures Newest(h).Some? ==> Newest(h).value in h && forall x <- h :: !Newer(x, Newest(h).value)
  {
    if h != [] {
      NewestIsTheMaximum(h[..|h| - 1]);
      assert h == h[..|h| - 1] + [h[|h| - 1]];
    }
  }

  lemma {:induction false} AvailableByFilters(h: History, t: int)
    ensures forall x :: x in AvailableBy(h, t) <==> x in h && x.version.availableAt <= t
    ensures (forall x <- h :: x.version.availableAt <= t) ==> AvailableBy(h, t) == h
  {
    if h != [] {
      AvailableByFilters(h[..|h| - 1], t);
      assert h == h[..|h| - 1] + [h[|h| - 1]];
    }
  }

  // The read of a history at `t`: an available version that no available version beats.
  lemma {:induction false} ReadIsTheMaximum(h: History, t: int)
    ensures ReadAsOf(h, t).None? <==> forall x <- h :: x.version.availableAt > t
    ensures ReadAsOf(h, t).Some? ==>
              && ReadAsOf(h, t).value in h
              && ReadAsOf(h, t).value.version.availableAt <= t
              && forall x <- h | x.version.availableAt <= t :: !Newer(x, ReadAsOf(h, t).value)
  {
    AvailableByFilters(h, t);
    NewestIsTheMaximum(AvailableBy(h, t));
    if ReadAsOf(h, t).None? {
      forall x <- h ensures x.version.availableAt > t {
        assert x !in AvailableBy(h, t);
      }
    }
  }

  // One more revision changes a read only from its own time on, and only if it sorts first.
  lemma {:induction false} RevisionRead(h: History, x: Stored, t: int)
    ensures ReadAsOf(h + [x], t) ==
            if x.version.availableAt > t || (ReadAsOf(h, t).Some? && !Newer(x, ReadAsOf(h, t).value))
            then ReadAsOf(h, t) else Some(x)
  {
    assert (h + [x])[..|h|] == h;
    var available := AvailableBy(h, t);
    assert (available + [x])[..|available|] == available;
  }

  // ---- Point-in-time stability ----------------------------------------------------------------

  // Whatever arrives after `t`, every read as of `t` stays, and no stored row is rewritten.
  lemma {:induction false} BarReadsAreStable(h: History, log: seq<Version>, t: int)
    ensures h <= UpsertBars(h, log)
    ensures (forall v <- log :: v.availableAt > t) ==> ReadAsOf(UpsertBars(h, log), t) == ReadAsOf(h, t)
  {
    if log != [] {
      var front, v := log[..|log| - 1], log[|log| - 1];
      BarReadsAreStable(h, front, t);
      RevisionRead(UpsertBars(h, front), Stored(v, 1), t);
      RevisionRead([], Stored(v, 0), t);
    }
  }

  lemma {:induction false} ReleaseReadsAreStable(h: History, log: seq<Version>, t: int)
    ensures h <= UpsertReleases(h, log)
    ensures (forall v <- log :: v.availableAt > t) ==> ReadAsOf(UpsertReleases(h, log), t) == ReadAsOf(h, t)
  {
    if log != [] {
      var front, v := log[..|log| - 1], log[|log| - 1];
      ReleaseReadsAreStable(h, front, t);
      RevisionRead(UpsertReleases(h, front), Stored(v, 1), t);
      RevisionRead([], Stored(v, 0), t);
    }
  }

  // ---- Deduplicated bars against a full log ---------------------------------------------------

  // An upsert that is skipped because the newest version has its checksum, although at its own
  // time an older version with another checksum is read, or none.
  predicate LateAndLost(h: History, v: Version) {
    && ChecksumOf(Newest(h)) == Some(v.checksum)
    && (match ReadAsOf(h, v.availableAt)
        case None => true
        case Some(r) => r.version.checksum != v.checksum && Newer(Stored(v, 1), r))
  }

  ghost predicate SameReads(a: History, b: History) {
    forall t :: ChecksumOf(ReadAsOf(a, t)) == ChecksumOf(ReadAsOf(b, t))
  }

  // Not storing a repeated checksum is invisible to every read exactly when the upsert is not
  // a late arrival that the skip loses.
  lemma {:induction false} DeduplicationIsInvisible(h: History, v: Version)
    requires h != []
    ensures SameReads(UpsertBar(h, v), h + [Stored(v, 1)]) <==> !LateAndLost(h, v)
  {
    if LateAndLost(h, v) {
      RevisionRead(h, Stored(v, 1), v.availableAt);
      assert ChecksumOf(ReadAsOf(h, v.availableAt)) != ChecksumOf(ReadAsOf(h + [Stored(v, 1)], v.availableAt));
    } else if UpsertBar(h, v) == h {
      forall t ensures ChecksumOf(ReadAsOf(h, t)) == ChecksumOf(ReadAsOf(h + [Stored(v, 1)], t)) {
        SkippedRead(h, v, t);
      }
    }
  }

  // Such a history: `a`, then `b` from a later time on, and `b` once more for a time in between.
  // The repeat is dropped, so reads between still return `a`.
  lemma {:induction false} LateBarIsLost(a: Checksum, b: Checksum, t0: int, t1: int, t2: int)
    requires a != b && t0 < t1 < t2
    ensures var h := UpsertBars([], [Version(t0, a, ""), Version(t2, b, "")]);
            var late := Version(t1, b, "");
            && LateAndLost(h, late) && UpsertBar(h, late) == h
            && ChecksumOf(ReadAsOf(UpsertBar(h, late), t1)) == Some(a)
            && ChecksumOf(ReadAsOf(h + [Stored(late, 1)], t1)) == Some(b)
  {
    var first, second, late := Version(t0, a, ""), Version(t2, b, ""), Version(t1, b, "");
    TwoBars(first, second);
    var h := [] + [Stored(first, 0)] + [Stored(second, 1)];
    RevisionRead([], Stored(first, 0), t1);
    RevisionRead([] + [Stored(first, 0)], Stored(second, 1), t1);
    RevisionRead(h, Stored(late, 1), t1);
  }

  lemma {:induction false} TwoBars(first: Version, second: Version)
    requires first.checksum != second.checksum && first.availableAt < second.availableAt
    ensures UpsertBars([], [first, second]) == [] + [Stored(first, 0)] + [Stored(second, 1)]
    ensures Newest([] + [Stored(first, 0)] + [Stored(second, 1)]) == Some(Stored(second, 1))
  {
    var log, h := [first, second], [] + [Stored(first, 0)] + [Stored(second, 1)];
    assert log[..1] == [first] && [first][..0] == [];
    assert h[..1] == [Stored(first, 0)];
    assert UpsertBars([], [first]) == [Stored(first, 0)];
    assert Newest([Stored(first, 0)]) == Some(Stored(first, 0));
  }

  // A version that a read returns although `v` sorts before it is also read at `v`'s own time.
  lemma {:induction false} SkippedRead(h: History, v: Version, t: int)
    requires h != [] && UpsertBar(h, v) == h && !LateAndLost(h, v)
    ensures ChecksumOf(ReadAsOf(h, t)) == ChecksumOf(ReadAsOf(h + [Stored(v, 1)], t))
  {
    RevisionRead(h, Stored(v, 1), t);
    ReadIsTheMaximum(h, t);
    ReadIsTheMaximum(h, v.availableAt);
  }

  ghost predicate BoundedBy(h: History, t: int) {
    forall x <- h :: x.version.availableAt <= t
  }

  lemma {:induction false} LogBoundsHistory(log: seq<Version>, t: int)
    requires forall v <- log :: v.availableAt <= t
    ensures BoundedBy(UpsertBars([], log), t) && BoundedBy(UpsertReleases([], log), t)
    ensures log != [] ==> UpsertBars([], log) != [] && UpsertReleases([], log) != []
  {
    if log != [] {
      LogBoundsHistory(log[..|log| - 1], t);
    }
  }

  // Fed in the order they become available, deduplicated bars read at every time like a log
  // that keeps every upsert.
  lemma {:induction false} BarsReadLikeAFullLog(log: seq<Version>, t: int)
    requires StrictlyIncreasing(log)
    ensures ChecksumOf(ReadAsOf(UpsertBars([], log), t)) == LastNotAfter(log, t)
  {
    if log != [] {
      var front, v := log[..|log| - 1], log[|log| - 1];
      var h := UpsertBars([], front);
      BarsReadLikeAFullLog(front, t);
      LogBoundsHistory(front, v.availableAt - 1);
      RevisionRead(h, Stored(v, 1), t);
      RevisionRead([], Stored(v, 0), t);
      AvailableByFilters(h, t);
      NewestIsTheMaximum(h);
    }
  }

  // ---- Releases against a full log --------------------------------------------------------------

  // The checksum of entry `k` was there before, and the entry just before it has another one.
  ghost predicate ReturnsAt(log: seq<Version>, k: nat)
    requires 0 < k < |log|
  {
    log[k - 1].checksum != log[k].checksum && exists u <- log[..k] :: u.checksum == log[k].checksum
  }

  ghost predicate NeverReturns(log: seq<Version>) {
    forall k | 0 < k < |log| :: !ReturnsAt(log, k)
  }

  ghost predicate ReleasesReadLikeAFullLog(log: seq<Version>) {
    forall t :: ChecksumOf(ReadAsOf(UpsertReleases([], log), t)) == LastNotAfter(log, t)
  }

  lemma {:induction false} StoresOneMore(h: History, x: Stored, c: Checksum)
    ensures Stores(h + [x], c) <==> Stores(h, c) || x.version.checksum == c
  {
    assert x in h + [x];
    assert forall y | y in h :: y in h + [x];
  }

  lemma {:induction false} ReleaseStoresEachChecksum(log: seq<Version>, c: Checksum)
    ensures Stores(UpsertReleases([], log), c) <==> exists v <- log :: v.checksum == c
  {
    if log != [] {
      var front, v := log[..|log| - 1], log[|log| - 1];
      var h := UpsertReleases([], front);
      ReleaseStoresEachChecksum(front, c);
      assert log == front + [v];
      StoresOneMore(h, Stored(v, 0), c);
      StoresOneMore(h, Stored(v, 1), c);
      assert h == [] ==> h + [Stored(v, 0)] == [Stored(v, 0)];
      assert v in log && forall w | w in front :: w in log;
    }
  }

  // A history read after everything in it became available, and what the log says there.
  lemma {:induction false} ReleaseStep(log: seq<Version>, t: int)
    requires log != [] && StrictlyIncreasing(log)
    ensures var front, v := log[..|log| - 1], log[|log| - 1];
            var h := UpsertReleases([], front);
            ChecksumOf(ReadAsOf(UpsertReleases([], log), t)) ==
            if t < v.availableAt then ChecksumOf(ReadAsOf(h, t))
            else if exists u <- front :: u.checksum == v.checksum then ChecksumOf(Newest(h))
            else Some(v.checksum)
  {
    var front, v := log[..|log| - 1], log[|log| - 1];
    var h := UpsertReleases([], front);
    ReleaseStoresEachChecksum(front, v.checksum);
    LogBoundsHistory(front, v.availableAt - 1);
    RevisionRead(h, Stored(v, 1), t);
    RevisionRead([], Stored(v, 0), t);
    AvailableByFilters(h, t);
    NewestIsTheMaximum(h);
  }

  lemma {:induction false} ReadAfterEverything(h: History, t: int)
    requires BoundedBy(h, t)
    ensures ReadAsOf(h, t) == Newest(h)
  {
    AvailableByFilters(h, t);
  }

  lemma {:induction false} NewestOfFront(front: seq<Version>)
    requires front != [] && StrictlyIncreasing(front)
    ensures forall t | t >= front[|front| - 1].availableAt ::
              && ReadAsOf(UpsertReleases([], front), t) == Newest(UpsertReleases([], front))
              && LastNotAfter(front, t) == Some(front[|front| - 1].checksum)
  {
    var last := front[|front| - 1];
    LogBoundsHistory(front, last.availableAt);
    forall t | t >= last.availableAt
      ensures ReadAsOf(UpsertReleases([], front), t) == Newest(UpsertReleases([], front))
    {
      ReadAfterEverything(UpsertReleases([], front), t);
    }
  }

  lemma {:induction false} ReturnFreeFront(log: seq<Version>)
    requires log != [] && StrictlyIncreasing(log) && NeverReturns(log)
    ensures var front, v := log[..|log| - 1], log[|log| - 1];
            && StrictlyIncreasing(front) && NeverReturns(front)
            && ((exists u <- front :: u.checksum == v.checksum) ==> front[|front| - 1].checksum == v.checksum)
  {
    var front := log[..|log| - 1];
    forall k | 0 < k < |front| ensures !ReturnsAt(front, k) {
      assert front[..k] == log[..k] && !ReturnsAt(log, k);
    }
    if |log| > 1 {
      assert !ReturnsAt(log, |log| - 1);
    }
  }

  lemma {:induction false} ReturnFreeLogsRead(log: seq<Version>, t: int)
    requires StrictlyIncreasing(log) && NeverReturns(log)
    ensures ChecksumOf(ReadAsOf(UpsertReleases([], log), t)) == LastNotAfter(log, t)
  {
    if log != [] {
      var front, v := log[..|log| - 1], log[|log| - 1];
      ReturnFreeFront(log);
      ReturnFreeLogsRead(front, t);
      ReleaseStep(log, t);
      if exists u <- front :: u.checksum == v.checksum {
        var last := front[|front| - 1];
        NewestOfFront(front);
        ReturnFreeLogsRead(front, last.availableAt);
      }
    }
  }

  lemma {:induction false} FrontReadsToo(log: seq<Version>)
    requires log != [] && StrictlyIncreasing(log) && ReleasesReadLikeAFullLog(log)
    ensures ReleasesReadLikeAFullLog(log[..|log| - 1])
  {
    var front, v := log[..|log| - 1], log[|log| - 1];
    forall t ensures ChecksumOf(ReadAsOf(UpsertReleases([], front), t)) == LastNotAfter(front, t) {
      if front != [] {
        NewestOfFront(front);
        var at := if t < v.availableAt then t else front[|front| - 1].availableAt;
        ReleaseStep(log, at);
        assert ChecksumOf(ReadAsOf(UpsertReleases([], log), at)) == LastNotAfter(log, at);
      }
    }
  }

  lemma {:induction false} ReadingLogsAreReturnFree(log: seq<Version>)
    requires StrictlyIncreasing(log) && ReleasesReadLikeAFullLog(log)
    ensures NeverReturns(log)
  {
    if |log| >= 2 {
      var front, v := log[..|log| - 1], log[|log| - 1];
      var last := |front| - 1;
      FrontReadsToo(log);
      ReadingLogsAreReturnFree(front);
      NewestOfFront(front);
      ReleaseStep(log, v.availableAt);
      assert ChecksumOf(ReadAsOf(UpsertReleases([], log), v.availableAt)) == LastNotAfter(log, v.availableAt);
      assert ChecksumOf(ReadAsOf(UpsertReleases([], front), v.availableAt)) == LastNotAfter(front, v.availableAt);
      forall k | 0 < k < |log| ensures !ReturnsAt(log, k) {
        assert log[..k] == front[..k];
        if k < |front| {
          assert !ReturnsAt(front, k);
        }
      }
    }
  }

  // Releases read at every time like a log that keeps every upsert exactly when no checksum
  // returns: after A, B, A the store still reads B.
  lemma {:induction false} ReleasesReadLikeAFullLogExactly(log: seq<Version>)
    requires StrictlyIncreasing(log)
    ensures ReleasesReadLikeAFullLog(log) <==> NeverReturns(log)
  {
    if NeverReturns(log) {
      forall t ensures ChecksumOf(ReadAsOf(UpsertReleases([], log), t)) == LastNotAfter(log, t) {
        ReturnFreeLogsRead(log, t);
      }
    }
    if ReleasesReadLikeAFullLog(log) {
      ReadingLogsAreReturnFree(log);
    }
  }

  // Such a log: after `a`, `b`, `a` the store still reads `b`.
  lemma {:induction false} ReturningReleaseIsMissed(a: Checksum, b: Checksum, t0: int, t1: int, t2: int)
    requires a != b && t0 < t1 < t2
    ensures var log := [Version(t0, a, ""), Version(t1, b, ""), Version(t2, a, "")];
            && StrictlyIncreasing(log) && ReturnsAt(log, 2)
            && ChecksumOf(ReadAsOf(UpsertReleases([], log), t2)) == Some(b)
            && LastNotAfter(log, t2) == Some(a)
  {
    var log := [Version(t0, a, ""), Version(t1, b, ""), Version(t2, a, "")];
    assert log[..2] == [log[0], log[1]] && [log[0], log[1]][..1] == [log[0]] && [log[0]][..0] == [];
    assert log[0] in log[..2];
    var h := [Stored(log[0], 0), Stored(log[1], 1)];
    assert UpsertReleases([], [log[0]]) == [Stored(log[0], 0)];
    assert Stored(log[0], 0) in h;
    assert UpsertReleases([], log[..2]) == h;
    assert UpsertReleases([], log) == h;
    RevisionRead([Stored(log[0], 0)], Stored(log[1], 1), t2);
    RevisionRead([], Stored(log[0], 0), t2);
    assert [Stored(log[0], 0)] + [Stored(log[1], 1)] == h && [] + [Stored(log[0], 0)] == [Stored(log[0], 0)];
  }
}
