/** What becomes of collected evidence, said of the evidence itself: which facts, sources and
    quality entries a snapshot holds, and what the quality gate then decides. */
module EvidenceOutcome {
  import opened DayPolicy
  import opened GateAgreement
  import opened Json
  import opened Prelude
  import opened QualityGate
  import opened SnapshotMaterializer
  import opened Sorting

  // ---- Evidence as it was collected -----------------------------------------------------------

  // The fact carries a text that reads as an instant not after the cutoff.
  predicate IsTimely(fact: Dict, cutoff: int, instant: string -> Option<int>) {
    match Get(fact, "available_at")
    case Some(Str(text)) => instant(text).Some? && instant(text).value <= cutoff
    case _ => false
  }

  // The fact carries a readable instant, after the cutoff.
  predicate IsLate(fact: Dict, cutoff: int, instant: string -> Option<int>) {
    match Get(fact, "available_at")
    case Some(Str(text)) => instant(text).Some? && instant(text).value > cutoff
    case _ => false
  }

  // Evidence that the snapshot takes facts and sources from.
  predicate Contributes(e: Evidence, cutoff: int, instant: string -> Option<int>) {
    (e.status == Available || e.status == Revised) && forall fact <- e.facts :: IsTimely(fact, cutoff, instant)
  }

  // The k-th fact is the first one that is not timely.
  predicate OffendsFirst(e: Evidence, k: nat, cutoff: int, instant: string -> Option<int>) {
    && (e.status == Available || e.status == Revised)
    && k < |e.facts| && !IsTimely(e.facts[k], cutoff, instant)
    && forall i | 0 <= i < k :: IsTimely(e.facts[i], cutoff, instant)
  }

  // The status and reason the snapshot lists for an evidence.
  ghost predicate IsListedAs(e: Evidence, cutoff: int, instant: string -> Option<int>, status: Status, reason: string) {
    if k: nat :| OffendsFirst(e, k, cutoff, instant) then
      if IsLate(e.facts[k], cutoff, instant)
      then status == Late && reason == "materialized fact became available after the report cutoff"
      else status == Invalid && reason == "materialized fact is missing a valid available_at audit timestamp"
    else status == e.status && reason == e.reason
  }

  // ---- The cutoff -----------------------------------------------------------------------------

  lemma {:induction false} TimelyIsInTime(fact: Dict, cutoff: int, instant: string -> Option<int>)
    ensures IsTimely(fact, cutoff, instant) <==> InTime(fact, cutoff, instant)
    ensures IsLate(fact, cutoff, instant) <==>
              AvailableAt(fact, instant).Some? && AvailableAt(fact, instant).value > cutoff
  {}

  lemma {:induction false} FirstOffence(facts: seq<Dict>, cutoff: int, instant: string -> Option<int>) returns (k: nat)
    ensures CutoffStatus(facts, cutoff, instant).None? <==> forall fact <- facts :: IsTimely(fact, cutoff, instant)
    ensures CutoffStatus(facts, cutoff, instant).Some? ==>
              && k < |facts| && !IsTimely(facts[k], cutoff, instant)
              && (forall i | 0 <= i < k :: IsTimely(facts[i], cutoff, instant))
              && CutoffStatus(facts, cutoff, instant).value
                 == if IsLate(facts[k], cutoff, instant) then Late else Invalid
  {
    k := 0;
    if facts != [] {
      TimelyIsInTime(facts[0], cutoff, instant);
      assert facts == [facts[0]] + facts[1..];
      assert facts[0] in facts;
      if IsTimely(facts[0], cutoff, instant) {
        var rest := FirstOffence(facts[1..], cutoff, instant);
        k := rest + 1;
        assert forall i | 0 < i < |facts| :: facts[i] == facts[1..][i - 1];
      }
    }
  }

  // Contributing evidence is kept as it is; offending evidence loses its facts and sources and is
  // listed by its first offence; the rest is not touched.
  lemma {:induction false} CutoffKeepsOrDrops(e: Evidence, cutoff: int, instant: string -> Option<int>)
    ensures var kept := Safe(e, cutoff, instant);
            && kept.inputId == e.inputId && kept.required == e.required
            && (kept.Usable() <==> Contributes(e, cutoff, instant))
            && (Contributes(e, cutoff, instant) ==> kept == e)
            && (e.status != Available && e.status != Revised ==> kept == e)
            && IsListedAs(e, cutoff, instant, kept.status, kept.reason)
  {
    var k := FirstOffence(e.facts, cutoff, instant);
    if (e.status == Available || e.status == Revised) && CutoffStatus(e.facts, cutoff, instant).Some? {
      assert OffendsFirst(e, k, cutoff, instant);
      assert forall other: nat | OffendsFirst(e, other, cutoff, instant) :: !(other < k) && !(k < other);
      assert e.facts[k] in e.facts;
    } else {
      assert forall i: nat | i < |e.facts| :: e.facts[i] in e.facts;
    }
  }

  // ---- The snapshot ---------------------------------------------------------------------------

  // What the snapshot takes over, evidence by evidence.
  ghost predicate HasFact(evidence: seq<Evidence>, cutoff: int, instant: string -> Option<int>, fact: Dict) {
    exists e <- evidence :: Contributes(e, cutoff, instant) && fact in e.facts
  }

  ghost predicate HasSource(evidence: seq<Evidence>, cutoff: int, instant: string -> Option<int>, source: Dict) {
    exists e <- evidence :: Contributes(e, cutoff, instant) && source in e.sources
  }

  lemma {:induction false} UsableOf(evidence: seq<Evidence>, cutoff: int, instant: string -> Option<int>, fact: Dict)
    ensures fact in UsableFacts(AllSafe(evidence, cutoff, instant)) <==> HasFact(evidence, cutoff, instant, fact)
    ensures fact in UsableSources(AllSafe(evidence, cutoff, instant)) <==> HasSource(evidence, cutoff, instant, fact)
  {
    if evidence != [] {
      var front, last := evidence[..|evidence| - 1], evidence[|evidence| - 1];
      UsableOf(front, cutoff, instant, fact);
      CutoffKeepsOrDrops(last, cutoff, instant);
      assert evidence == front + [last];
      assert AllSafe(evidence, cutoff, instant)[..|front|] == AllSafe(front, cutoff, instant);
    }
  }

  lemma {:induction false} CollectedSource(sources: seq<Dict>, source: Dict)
    requires SourceById(sources).Some?
    ensures Obj(source) in Values(SourceById(sources).value) <==> source in sources
  {
    if sources != [] {
      var front, last := sources[..|sources| - 1], sources[|sources| - 1];
      CollectedSource(front, source);
      assert sources == front + [last];
      var byId := SourceById(front).value;
      var id := AsText(Get(last, "source_ref_id")).value;
      if Get(byId, id).None? {
        assert Values(byId + [Field(id, Obj(last))]) == Values(byId) + [Obj(last)];
      } else if source == last {
        var i :| 0 <= i < |byId| && byId[i].key == id && Get(byId, id) == Some(byId[i].value) by {
          var i := IndexOf(byId, id);
        }
        assert Values(byId)[i] == Obj(last);
      }
    }
  }

  lemma {:induction false} IndexOf(fields: seq<Field>, key: string) returns (i: nat)
    requires Get(fields, key).Some?
    ensures i < |fields| && fields[i].key == key && Get(fields, key) == Some(fields[i].value)
  {
    if fields[0].key == key {
      i := 0;
    } else {
      var rest := IndexOf(fields[1..], key);
      i := rest + 1;
    }
  }

  lemma {:induction false} SortedValues(fields: seq<Field>, value: Json)
    ensures value in Values(Sort(fields, FieldOrder())) <==> value in Values(fields)
  {
    SortPermutes(fields, FieldOrder());
    var sorted := Sort(fields, FieldOrder());
    if value in Values(sorted) {
      var i :| 0 <= i < |sorted| && Values(sorted)[i] == value;
      assert sorted[i] in fields;
      var j :| 0 <= j < |fields| && fields[j] == sorted[i];
      assert Values(fields)[j] == value;
    }
    if value in Values(fields) {
      var i :| 0 <= i < |fields| && Values(fields)[i] == value;
      assert fields[i] in sorted;
      var j :| 0 <= j < |sorted| && sorted[j] == fields[i];
      assert Values(sorted)[j] == value;
    }
  }

  // A snapshot holds exactly the facts and the sources of the contributing evidence.
  lemma {:induction false} SnapshotHoldsTheContributions(
      lib: Lib, date: int, asOf: int, cutoff: int, version: string, evidence: seq<Evidence>, policy: Policy,
      fields: Dict)
    requires FromEvidence(lib, date, asOf, cutoff, version, evidence, policy).Some?
    ensures var snapshot := FromEvidence(lib, date, asOf, cutoff, version, evidence, policy).value;
            && snapshot.payload.facts.Arr? && snapshot.payload.sources.Arr?
            && (Obj(fields) in snapshot.payload.facts.items <==> HasFact(evidence, cutoff, lib.instant, fields))
            && (Obj(fields) in snapshot.payload.sources.items <==> HasSource(evidence, cutoff, lib.instant, fields))
  {
    var safe := AllSafe(evidence, cutoff, lib.instant);
    UsableOf(evidence, cutoff, lib.instant, fields);
    SortPermutes(UsableFacts(safe), ByFactId());
    InObjects(SortedFacts(safe), fields);
    CollectedSource(UsableSources(safe), fields);
    SortedValues(SourceById(UsableSources(safe)).value, Obj(fields));
  }

  lemma {:induction false} InObjects(dicts: seq<Dict>, fields: Dict)
    ensures Obj(fields) in Objects(dicts) <==> fields in dicts
  {
    if Obj(fields) in Objects(dicts) {
      var i :| 0 <= i < |dicts| && Objects(dicts)[i] == Obj(fields);
      assert dicts[i] in dicts;
    }
    if fields in dicts {
      var i :| 0 <= i < |dicts| && dicts[i] == fields;
      assert Objects(dicts)[i] in Objects(dicts);
    }
  }

  // The snapshot carries what it was made for, lists its facts' IDs in strictly increasing order,
  // and its own ID and fingerprint cover everything else.
  lemma {:induction false} SnapshotIsNamed(
      lib: Lib, date: int, asOf: int, cutoff: int, version: string, evidence: seq<Evidence>, policy: Policy)
    requires FromEvidence(lib, date, asOf, cutoff, version, evidence, policy).Some?
    ensures var snapshot := FromEvidence(lib, date, asOf, cutoff, version, evidence, policy).value;
            && snapshot.reportDate == date && snapshot.asOf == asOf && snapshot.cutoffAt == cutoff
            && snapshot.version == version && snapshot.payload.policy == ToPayload(policy, lib.iso)
            && snapshot.fingerprint == lib.digest(snapshot.(id := "", fingerprint := ""))
            && snapshot.id == version + ":" + lib.iso(date) + ":" + snapshot.fingerprint
            && snapshot.payload.facts.Arr? && |snapshot.factIds| == |snapshot.payload.facts.items|
            && (forall i | 0 <= i < |snapshot.factIds| ::
                  && snapshot.payload.facts.items[i].Obj?
                  && Get(snapshot.payload.facts.items[i].fields, "fact_id") == Some(Str(snapshot.factIds[i])))
            && (forall i, j | 0 <= i < j < |snapshot.factIds| ::
                  TextBefore(snapshot.factIds[i], snapshot.factIds[j]))
  {
    var facts := SortedFacts(AllSafe(evidence, cutoff, lib.instant));
    FactOrderIsAnOrder();
    SortOrders(UsableFacts(AllSafe(evidence, cutoff, lib.instant)), ByFactId());
    forall i | 0 <= i < |facts| ensures Get(facts[i], "fact_id") == Some(Str(FactKey(facts[i]))) {
      assert facts[i] in facts;
    }
    forall i, j | 0 <= i < j < |facts| ensures TextBefore(FactKey(facts[i]), FactKey(facts[j])) {
      assert Keys(facts)[i] != Keys(facts)[j];
      TextIsTotal(FactKey(facts[i]), FactKey(facts[j]));
      assert !ByFactId()(facts[j], facts[i]);
    }
  }

  lemma {:induction false} FactOrderIsAnOrder()
    ensures IsOrder(ByFactId())
  {
    forall a: Dict, b: Dict | ByFactId()(a, b) ensures !ByFactId()(b, a) {
      TextIsTotal(FactKey(a), FactKey(b));
    }
    forall a: Dict, b: Dict, c: Dict | ByFactId()(a, c) ensures ByFactId()(a, b) || ByFactId()(b, c) {
      TextIsTotal(FactKey(a), FactKey(b));
      TextIsTotal(FactKey(b), FactKey(c));
      if TextBefore(FactKey(c), FactKey(b)) {
        TextIsTransitive(FactKey(a), FactKey(c), FactKey(b));
      }
    }
  }

  // ---- When there is a snapshot at all -------------------------------------------------------

  // The evidence of a snapshot has distinct inputs, and its contributions have text IDs: facts
  // distinct ones, sources the same one only for the same metadata.
  lemma {:induction false} RefusedExactlyWhen(
      lib: Lib, date: int, asOf: int, cutoff: int, version: string, evidence: seq<Evidence>, policy: Policy)
    ensures FromEvidence(lib, date, asOf, cutoff, version, evidence, policy).Some? <==>
              && (forall i, j | 0 <= i < j < |evidence| :: evidence[i].inputId != evidence[j].inputId)
              && (forall fact | HasFact(evidence, cutoff, lib.instant, fact) :: AsText(Get(fact, "fact_id")).Some?)
              && FactIdsDiffer(ContributedFacts(evidence, cutoff, lib.instant))
              && (forall a | HasSource(evidence, cutoff, lib.instant, a) :: AsText(Get(a, "source_ref_id")).Some?)
              && (forall a, b |
                    HasSource(evidence, cutoff, lib.instant, a) && HasSource(evidence, cutoff, lib.instant, b) ::
                    Get(a, "source_ref_id") == Get(b, "source_ref_id") ==> a == b)
  {
    var safe := AllSafe(evidence, cutoff, lib.instant);
    var facts := UsableFacts(safe);
    UniqueIds(evidence);
    ContributedAreUsable(evidence, cutoff, lib.instant);
    SortPermutes(facts, ByFactId());
    forall d: Dict
      ensures d in SortedFacts(safe) <==> HasFact(evidence, cutoff, lib.instant, d)
      ensures d in UsableSources(safe) <==> HasSource(evidence, cutoff, lib.instant, d)
    {
      UsableOf(evidence, cutoff, lib.instant, d);
    }
    SourcesCollectExactlyWhen(UsableSources(safe));
    SortedKeysDiffer(facts);
  }

  // The facts of the contributing evidence, one after another.
  function ContributedFacts(evidence: seq<Evidence>, cutoff: int, instant: string -> Option<int>): seq<Dict> {
    if evidence == [] then []
    else
      var last := evidence[|evidence| - 1];
      ContributedFacts(evidence[..|evidence| - 1], cutoff, instant)
      + (if Contributes(last, cutoff, instant) then last.facts else [])
  }

  lemma {:induction false} ContributedAreUsable(evidence: seq<Evidence>, cutoff: int, instant: string -> Option<int>)
    ensures UsableFacts(AllSafe(evidence, cutoff, instant)) == ContributedFacts(evidence, cutoff, instant)
  {
    if evidence != [] {
      var front, last := evidence[..|evidence| - 1], evidence[|evidence| - 1];
      ContributedAreUsable(front, cutoff, instant);
      CutoffKeepsOrDrops(last, cutoff, instant);
      assert AllSafe(evidence, cutoff, instant)[..|front|] == AllSafe(front, cutoff, instant);
    }
  }

  // No two of the facts, in whatever evidence, have the same ID.
  ghost predicate FactIdsDiffer(facts: seq<Dict>) {
    forall i, j | 0 <= i < j < |facts| :: FactKey(facts[i]) != FactKey(facts[j])
  }

  lemma {:induction false} UniqueIds(evidence: seq<Evidence>)
    ensures Unique(Ids(evidence)) <==>
              forall i, j | 0 <= i < j < |evidence| :: evidence[i].inputId != evidence[j].inputId
  {
    if Unique(Ids(evidence)) {
      forall i, j | 0 <= i < j < |evidence| ensures evidence[i].inputId != evidence[j].inputId {
        assert Ids(evidence)[i] != Ids(evidence)[j];
      }
    }
  }

  lemma {:induction false} KeysPermute(a: seq<Dict>, b: seq<Dict>)
    requires multiset(a) == multiset(b) && FactIdsDiffer(a)
    ensures FactIdsDiffer(b)
  {
    forall i, j | 0 <= i < j < |b| ensures FactKey(b[i]) != FactKey(b[j]) {
      assert b[i] in multiset(b) && b[j] in multiset(b);
      var k :| 0 <= k < |a| && a[k] == b[i];
      var l :| 0 <= l < |a| && a[l] == b[j];
      if k == l {
        TwiceIn(b, i, j);
        OnceIn(a, k);
      }
    }
  }

  lemma {:induction false} TwiceIn(b: seq<Dict>, i: nat, j: nat)
    requires i < j < |b| && b[i] == b[j]
    ensures multiset(b)[b[i]] >= 2
  {
    assert b == b[..j] + [b[j]] + b[j + 1..];
    assert b[..j][i] == b[i] && b[i] in multiset(b[..j]);
  }

  lemma {:induction false} OnceIn(a: seq<Dict>, k: nat)
    requires k < |a| && FactIdsDiffer(a)
    ensures multiset(a)[a[k]] == 1
  {
    assert a == a[..k] + [a[k]] + a[k + 1..];
    assert a[k] !in a[..k] && a[k] !in a[k + 1..];
    assert a[k] !in multiset(a[..k]) && a[k] !in multiset(a[k + 1..]);
  }

  lemma {:induction false} SortedKeysDiffer(facts: seq<Dict>)
    ensures Unique(Keys(Sort(facts, ByFactId()))) <==> FactIdsDiffer(facts)
  {
    var sorted := Sort(facts, ByFactId());
    SortPermutes(facts, ByFactId());
    assert Unique(Keys(sorted)) <==> FactIdsDiffer(sorted) by {
      if Unique(Keys(sorted)) {
        forall i, j | 0 <= i < j < |sorted| ensures FactKey(sorted[i]) != FactKey(sorted[j]) {
          assert Keys(sorted)[i] != Keys(sorted)[j];
        }
      }
    }
    if FactIdsDiffer(sorted) {
      KeysPermute(sorted, facts);
    }
    if FactIdsDiffer(facts) {
      KeysPermute(facts, sorted);
    }
  }

  ghost predicate SourcesAgree(sources: seq<Dict>) {
    && (forall a <- sources :: AsText(Get(a, "source_ref_id")).Some?)
    && (forall a <- sources, b <- sources :: Get(a, "source_ref_id") == Get(b, "source_ref_id") ==> a == b)
  }

  lemma {:induction false} SourcesCollectExactlyWhen(sources: seq<Dict>)
    ensures SourceById(sources).Some? <==> SourcesAgree(sources)
    ensures SourceById(sources).Some? ==>
              && (forall f <- SourceById(sources).value ::
                    && f.value.Obj? && f.value.fields in sources
                    && Get(f.value.fields, "source_ref_id") == Some(Str(f.key)))
              && (forall a <- sources ::
                    Get(SourceById(sources).value, AsText(Get(a, "source_ref_id")).GetOr("")) == Some(Obj(a)))
  {
    if sources != [] {
      var front, last := sources[..|sources| - 1], sources[|sources| - 1];
      SourcesCollectExactlyWhen(front);
      assert sources == front + [last];
      if SourceById(front).Some? && AsText(Get(last, "source_ref_id")).Some? {
        OneMoreSource(front, last, SourceById(front).value);
      }
    }
  }

  lemma {:induction false} OneMoreSource(front: seq<Dict>, last: Dict, byId: seq<Field>)
    requires SourceById(front) == Some(byId) && SourcesAgree(front) && AsText(Get(last, "source_ref_id")).Some?
    requires forall f <- byId ::
               f.value.Obj? && f.value.fields in front && Get(f.value.fields, "source_ref_id") == Some(Str(f.key))
    requires forall a <- front :: Get(byId, AsText(Get(a, "source_ref_id")).GetOr("")) == Some(Obj(a))
    ensures var id := AsText(Get(last, "source_ref_id")).value;
            && (SourcesAgree(front + [last]) <==> Get(byId, id).None? || Get(byId, id) == Some(Obj(last)))
            && (Get(byId, id).None? ==>
                  forall a <- front + [last] ::
                    Get(byId + [Field(id, Obj(last))], AsText(Get(a, "source_ref_id")).GetOr("")) == Some(Obj(a)))
  {
    var id := AsText(Get(last, "source_ref_id")).value;
    var sources := front + [last];
    if Get(byId, id).Some? {
      var i := IndexOf(byId, id);
      assert byId[i] in byId && byId[i].value.fields in sources && last in sources;
    } else {
      forall a | a in front ensures Get(a, "source_ref_id") != Get(last, "source_ref_id") {
        assert Get(byId, AsText(Get(a, "source_ref_id")).GetOr("")).Some?;
      }
      forall a | a in sources
        ensures Get(byId + [Field(id, Obj(last))], AsText(Get(a, "source_ref_id")).GetOr("")) == Some(Obj(a))
      {
        GetAppended(byId, Field(id, Obj(last)), AsText(Get(a, "source_ref_id")).GetOr(""));
      }
    }
  }

  // ---- The quality entries --------------------------------------------------------------------

  lemma {:induction false} EntryOfId(entries: seq<Field>, f: Field)
    requires f in entries && Pairwise(entries, KeysDiffer())
    ensures Get(entries, f.key) == Some(f.value)
  {
    if entries[0] != f {
      var i :| 0 <= i < |entries[1..]| && entries[1..][i] == f;
      assert KeysDiffer()(entries[0], entries[i + 1]);
      forall i, j | 0 <= i < j < |entries[1..]| ensures KeysDiffer()(entries[1..][i], entries[1..][j]) {
        assert KeysDiffer()(entries[i + 1], entries[j + 1]);
      }
      EntryOfId(entries[1..], f);
    }
  }

  ghost function KeysDiffer(): (Field, Field) -> bool {
    (a: Field, b: Field) => a.key != b.key
  }

  lemma {:induction false} FieldOrderIsAnOrder()
    ensures IsOrder(FieldOrder())
  {
    forall a: Field, b: Field | FieldOrder()(a, b) ensures !FieldOrder()(b, a) {
      TextIsTotal(a.key, b.key);
    }
    forall a: Field, b: Field, c: Field | FieldOrder()(a, c) ensures FieldOrder()(a, b) || FieldOrder()(b, c) {
      TextIsTotal(a.key, b.key);
      TextIsTotal(b.key, c.key);
      if TextBefore(c.key, b.key) {
        TextIsTransitive(a.key, c.key, b.key);
      }
    }
  }

  // How an entry of the snapshot reads.
  ghost predicate EntryReads(entry: Option<Json>, status: Status, required: bool, reason: string) {
    && entry.Some? && entry.value.Obj?
    && Get(entry.value.fields, "status") == Some(Str(StatusName(status)))
    && Get(entry.value.fields, "required") == Some(Bool(required))
    && Get(entry.value.fields, "reason") == Some(Str(reason))
  }

  lemma {:induction false} QualityEntryReads(e: Evidence)
    ensures EntryReads(Some(QualityEntry(e).value), e.status, e.required, e.reason)
  {
    var fields := QualityEntry(e).value.fields;
    GetFinds(fields);
    assert Found(fields, 0) && Found(fields, 1) && Found(fields, 2);
  }

  // Every evidence is listed once under its ID, with its own flag and, unless a fact offends, its
  // own status and reason. Nothing else is listed.
  lemma {:induction false} SnapshotListsTheEvidence(
      lib: Lib, date: int, asOf: int, cutoff: int, version: string, evidence: seq<Evidence>, policy: Policy,
      e: Evidence)
    returns (status: Status, reason: string)
    requires FromEvidence(lib, date, asOf, cutoff, version, evidence, policy).Some? && e in evidence
    ensures var listed := FromEvidence(lib, date, asOf, cutoff, version, evidence, policy).value.payload.inputQuality;
            && listed.Obj? && |listed.fields| == |evidence|
            && EntryReads(Get(listed.fields, e.inputId), status, e.required, reason)
    ensures IsListedAs(e, cutoff, lib.instant, status, reason)
  {
    var safe := AllSafe(evidence, cutoff, lib.instant);
    var entries := QualityEntries(safe);
    var i :| 0 <= i < |evidence| && evidence[i] == e;
    CutoffKeepsOrDrops(e, cutoff, lib.instant);
    status, reason := safe[i].status, safe[i].reason;
    FieldOrderIsAnOrder();
    EntriesDiffer(evidence, cutoff, lib.instant);
    SortKeepsSymmetric(entries, FieldOrder(), KeysDiffer());
    SortPermutes(entries, FieldOrder());
    assert entries[i] in Sort(entries, FieldOrder());
    EntryOfId(Sort(entries, FieldOrder()), entries[i]);
    QualityEntryReads(safe[i]);
  }

  lemma {:induction false} EntriesDiffer(evidence: seq<Evidence>, cutoff: int, instant: string -> Option<int>)
    requires Unique(Ids(evidence))
    ensures Pairwise(QualityEntries(AllSafe(evidence, cutoff, instant)), KeysDiffer())
  {
    var entries := QualityEntries(AllSafe(evidence, cutoff, instant));
    forall i, j | 0 <= i < j < |entries| ensures KeysDiffer()(entries[i], entries[j]) {
      assert Ids(evidence)[i] != Ids(evidence)[j];
    }
  }

  function SourceId(source: Json): string {
    if source.Obj? then AsText(Get(source.fields, "source_ref_id")).GetOr("") else ""
  }

  // Entries and sources are listed in strictly increasing order of their IDs.
  lemma {:induction false} EntriesAreInOrder(
      lib: Lib, date: int, asOf: int, cutoff: int, version: string, evidence: seq<Evidence>, policy: Policy)
    requires FromEvidence(lib, date, asOf, cutoff, version, evidence, policy).Some?
    ensures var listed := FromEvidence(lib, date, asOf, cutoff, version, evidence, policy).value.payload.inputQuality;
            listed.Obj? && StrictlyByKey(listed.fields)
  {
    EntriesDiffer(evidence, cutoff, lib.instant);
    SortedByKey(QualityEntries(AllSafe(evidence, cutoff, lib.instant)));
  }

  lemma {:induction false} SourcesAreInOrder(
      lib: Lib, date: int, asOf: int, cutoff: int, version: string, evidence: seq<Evidence>, policy: Policy)
    requires FromEvidence(lib, date, asOf, cutoff, version, evidence, policy).Some?
    ensures var listed := FromEvidence(lib, date, asOf, cutoff, version, evidence, policy).value.payload.sources;
            listed.Arr? && StrictlyById(listed.items)
  {
    SortedSources(UsableSources(AllSafe(evidence, cutoff, lib.instant)));
  }

  ghost predicate StrictlyByKey(fields: seq<Field>) {
    forall i, j | 0 <= i < j < |fields| :: TextBefore(fields[i].key, fields[j].key)
  }

  ghost predicate StrictlyById(sources: seq<Json>) {
    forall i, j | 0 <= i < j < |sources| :: TextBefore(SourceId(sources[i]), SourceId(sources[j]))
  }

  lemma {:induction false} SortedSources(sources: seq<Dict>)
    requires SourceById(sources).Some?
    ensures StrictlyById(Values(Sort(SourceById(sources).value, FieldOrder())))
  {
    var byId := SourceById(sources).value;
    SourcesCollectExactlyWhen(sources);
    CollectedDiffer(sources);
    SortedByKey(byId);
    SortPermutes(byId, FieldOrder());
    var sorted := Sort(byId, FieldOrder());
    forall i | 0 <= i < |sorted| ensures SourceId(Values(sorted)[i]) == sorted[i].key {
      assert sorted[i] in byId;
    }
  }

  lemma {:induction false} SortedByKey(fields: seq<Field>)
    requires Pairwise(fields, KeysDiffer())
    ensures StrictlyByKey(Sort(fields, FieldOrder()))
  {
    var sorted := Sort(fields, FieldOrder());
    FieldOrderIsAnOrder();
    SortOrders(fields, FieldOrder());
    SortKeepsSymmetric(fields, FieldOrder(), KeysDiffer());
    forall i, j | 0 <= i < j < |sorted| ensures TextBefore(sorted[i].key, sorted[j].key) {
      assert KeysDiffer()(sorted[i], sorted[j]) && !FieldOrder()(sorted[j], sorted[i]);
      TextIsTotal(sorted[i].key, sorted[j].key);
    }
  }

  lemma {:induction false} CollectedDiffer(sources: seq<Dict>)
    requires SourceById(sources).Some?
    ensures Pairwise(SourceById(sources).value, KeysDiffer())
  {
    if sources != [] {
      var front, last := sources[..|sources| - 1], sources[|sources| - 1];
      CollectedDiffer(front);
      var byId := SourceById(front).value;
      var id := AsText(Get(last, "source_ref_id")).value;
      if Get(byId, id).None? {
        forall i | 0 <= i < |byId| ensures byId[i].key != id {
          FieldIsFound(byId, byId[i]);
        }
      }
    }
  }

  // ---- The day policy -------------------------------------------------------------------------

  // Evidence as the policy of a date leaves it.
  ghost predicate IsAdjusted(calendar: Calendar, date: int, item: Evidence, e: Evidence) {
    && e.inputId == item.inputId
    && (IsNeeded(calendar, date, item.inputId) ==> e == item.(required := true))
    && (IsClosed(calendar, date, item.inputId) ==>
          if item.status == Available || item.status == Revised then e == item.(required := false)
          else IsPlaceholder(e))
    && (!IsNeeded(calendar, date, item.inputId) && !IsClosed(calendar, date, item.inputId) ==> e == item)
  }

  // The input of a market without a session.
  ghost predicate IsClosed(calendar: Calendar, date: int, id: string) {
    exists r :: id == MarketInput(r) && !HasSession(calendar, r, date)
  }

  // A fixed input of every date, or that of a market with a session.
  ghost predicate IsNeeded(calendar: Calendar, date: int, id: string) {
    id in ALWAYS_REQUIRED || exists r :: id == MarketInput(r) && HasSession(calendar, r, date)
  }

  ghost predicate IsPlaceholder(e: Evidence) {
    e.status == Unavailable && !e.required && e.facts == [] && e.sources == []
  }

  lemma {:induction false} ClosedForMeans(calendar: Calendar, version: string, date: int, id: string)
    requires Evaluate(calendar, version, date).Some?
    ensures var p := Evaluate(calendar, version, date).value;
            && (ClosedFor(p.regions, id).Some? <==> IsClosed(calendar, date, id))
            && (id in p.required <==> IsNeeded(calendar, date, id))
            && (id in Inputs(p.regions, false) <==> IsClosed(calendar, date, id))
            && !(IsNeeded(calendar, date, id) && IsClosed(calendar, date, id))
  {
    var p := Evaluate(calendar, version, date).value;
    WhatAPolicyRequires(calendar, version, date, id);
    ListsOf(calendar, version, date, id);
    InputsDiffer();
    assert IsNeeded(calendar, date, id) <==> id in ALWAYS_REQUIRED || IsMarket(id, true, calendar, date);
    assert IsClosed(calendar, date, id) <==> IsMarket(id, false, calendar, date);
    EvaluatedPolicy(calendar, version, date);
    ClosedIsOptional(p.regions, p, id);
    if r :| id == MarketInput(r) && !HasSession(calendar, r, date) {
      ClosedMarketIsFound(calendar, version, date, r);
    }
  }

  lemma {:induction false} AdjustedMeans(calendar: Calendar, version: string, date: int, item: Evidence)
    requires Evaluate(calendar, version, date).Some?
    ensures IsAdjusted(calendar, date, item, Adjusted(item, Evaluate(calendar, version, date).value))
  {
    ClosedForMeans(calendar, version, date, item.inputId);
  }

  lemma {:induction false} AllAdjustedByIndex(evidence: seq<Evidence>, policy: Policy)
    ensures forall i | 0 <= i < |evidence| :: AllAdjusted(evidence, policy)[i] == Adjusted(evidence[i], policy)
  {
    if evidence != [] {
      AllAdjustedByIndex(evidence[..|evidence| - 1], policy);
    }
  }

  lemma {:induction false} PlaceholdersMean(ids: seq<string>, evidence: seq<Evidence>, policy: Policy)
    requires forall id <- ids :: ClosedFor(policy.regions, id).Some?
    ensures forall e <- Placeholders(ids, evidence, policy) ::
              IsPlaceholder(e) && e.inputId in ids && !Observed(evidence, e.inputId)
  {
    if ids != [] {
      PlaceholdersMean(ids[..|ids| - 1], evidence, policy);
    }
  }

  lemma {:induction false} PlaceholderIsAdded(ids: seq<string>, evidence: seq<Evidence>, policy: Policy, id: string)
    requires id in ids && !Observed(evidence, id) && ClosedFor(policy.regions, id).Some?
    ensures Observed(Placeholders(ids, evidence, policy), id)
  {
    var n := |ids| - 1;
    var front := Placeholders(ids[..n], evidence, policy);
    if id in ids[..n] {
      PlaceholderIsAdded(ids[..n], evidence, policy, id);
      var e :| e in front && e.inputId == id;
      assert e in Placeholders(ids, evidence, policy);
    } else {
      assert ids == ids[..n] + [ids[n]];
      assert Placeholder(id, ClosedFor(policy.regions, id).value) in Placeholders(ids, evidence, policy);
    }
  }

  lemma {:induction false} ClosedIdsMean(calendar: Calendar, version: string, date: int, id: string)
    requires Evaluate(calendar, version, date).Some?
    ensures id in ClosedIds(Evaluate(calendar, version, date).value.regions) <==> IsClosed(calendar, date, id)
    ensures ClosedFor(Evaluate(calendar, version, date).value.regions, id).Some? <==> IsClosed(calendar, date, id)
  {
    SortPermutes(Inputs(Evaluate(calendar, version, date).value.regions, false), TextBefore);
    ClosedForMeans(calendar, version, date, id);
  }

  // Applying a date's policy adjusts each evidence in place ...
  lemma {:induction false} EvidenceIsAdjusted(
      calendar: Calendar, version: string, date: int, evidence: seq<Evidence>)
    requires Evaluate(calendar, version, date).Some?
    ensures var applied := Applied(evidence, Evaluate(calendar, version, date).value);
            && |applied| >= |evidence|
            && forall i | 0 <= i < |evidence| :: IsAdjusted(calendar, date, evidence[i], applied[i])
  {
    var policy := Evaluate(calendar, version, date).value;
    AllAdjustedByIndex(evidence, policy);
    forall i | 0 <= i < |evidence| ensures IsAdjusted(calendar, date, evidence[i], AllAdjusted(evidence, policy)[i]) {
      AdjustedMeans(calendar, version, date, evidence[i]);
    }
  }

  // ... and adds placeholders, for closed markets without evidence only ...
  lemma {:induction false} OnlyClosedMarketsAreAdded(
      calendar: Calendar, version: string, date: int, evidence: seq<Evidence>)
    requires Evaluate(calendar, version, date).Some?
    ensures var applied := Applied(evidence, Evaluate(calendar, version, date).value);
            && |applied| >= |evidence|
            && forall i | |evidence| <= i < |applied| ::
                 && IsPlaceholder(applied[i]) && IsClosed(calendar, date, applied[i].inputId)
                 && !Observed(evidence, applied[i].inputId)
  {
    var policy := Evaluate(calendar, version, date).value;
    var ids := ClosedIds(policy.regions);
    forall id | id in ids ensures IsClosed(calendar, date, id) && ClosedFor(policy.regions, id).Some? {
      ClosedIdsMean(calendar, version, date, id);
    }
    PlaceholdersMean(ids, evidence, policy);
    AddedOnes(AllAdjusted(evidence, policy), Placeholders(ids, evidence, policy));
  }

  lemma {:induction false} AddedOnes(front: seq<Evidence>, added: seq<Evidence>)
    ensures forall i | |front| <= i < |front + added| :: (front + added)[i] in added
  {}

  // ... and for all of them, so that every closed market is observed.
  lemma {:induction false} ClosedMarketsAreObserved(
      calendar: Calendar, version: string, date: int, evidence: seq<Evidence>, id: string)
    requires Evaluate(calendar, version, date).Some?
    ensures IsClosed(calendar, date, id) ==> Observed(Applied(evidence, Evaluate(calendar, version, date).value), id)
  {
    var policy := Evaluate(calendar, version, date).value;
    var ids := ClosedIds(policy.regions);
    if IsClosed(calendar, date, id) {
      ClosedIdsMean(calendar, version, date, id);
      if !Observed(evidence, id) {
        PlaceholderIsAdded(ids, evidence, policy, id);
      }
      ObservedAfter(evidence, policy, Placeholders(ids, evidence, policy), id);
    }
  }

  lemma {:induction false} ObservedAfter(evidence: seq<Evidence>, policy: Policy, added: seq<Evidence>, id: string)
    requires Observed(evidence, id) || Observed(added, id)
    ensures Observed(AllAdjusted(evidence, policy) + added, id)
  {
    AllAdjustedByIndex(evidence, policy);
    var adjusted := AllAdjusted(evidence, policy);
    if Observed(added, id) {
      var e :| e in added && e.inputId == id;
      assert e in adjusted + added;
    } else {
      var i :| 0 <= i < |evidence| && evidence[i].inputId == id;
      assert adjusted[i] in adjusted + added;
    }
  }

  lemma {:induction false} ClosedForFinds(regions: seq<RegionPolicy>, i: nat)
    requires i < |regions| && !regions[i].Required()
    requires forall j | i < j < |regions| :: regions[j].region != regions[i].region
    ensures ClosedFor(regions, regions[i].Input()) == Some(regions[i])
  {
    InputsDiffer();
    if i < |regions| - 1 {
      ClosedForFinds(regions[..|regions| - 1], i);
    }
  }

  // A closed market's placeholder says which market is closed and why.
  lemma {:induction false} PlaceholderNamesTheClosure(calendar: Calendar, version: string, date: int, r: Region)
    requires Evaluate(calendar, version, date).Some? && !HasSession(calendar, r, date)
    ensures var closed := ClosedFor(Evaluate(calendar, version, date).value.regions, MarketInput(r));
            && closed.Some?
            && closed.value.region == r
            && closed.value.status == if IsWeekend(date) then WeekendClosed else ExchangeHoliday
  {
    var regions := Evaluate(calendar, version, date).value.regions;
    RegionsOf(calendar, version, date);
    ClosedForFinds(regions, if r == Cn then 0 else if r == Hk then 1 else 2);
  }

  lemma {:induction false} ClosureText(id: string, r: RegionPolicy)
    ensures Placeholder(id, r).reason
         == (match r.region case Cn => "CN" case Hk => "HK" case Us => "US") + " market is closed ("
            + (match r.status
               case WeekendClosed => "weekend_closed"
               case ExchangeHoliday => "exchange_holiday"
               case ScheduledSession => "scheduled_session")
            + "); current-session market input is optional for this report date"
  {}

  // ---- The decision ---------------------------------------------------------------------------

  // One materialized report day.
  datatype Day = Day(calendar: Calendar, calendarVersion: string, date: int, asOf: int, cutoff: int, version: string,
                     evidence: seq<Evidence>)
  {
    ghost predicate Valid(lib: Lib) {
      && Evaluate(calendar, calendarVersion, date).Some? && calendarVersion != ""
      && Materialized(lib, date, asOf, cutoff, version, evidence, Policy()).Some?
    }

    ghost function Policy(): Policy
      requires Evaluate(calendar, calendarVersion, date).Some?
    {
      Evaluate(calendar, calendarVersion, date).value
    }

    ghost function Snapshot(lib: Lib): Snapshot
      requires Valid(lib)
    {
      Materialized(lib, date, asOf, cutoff, version, evidence, Policy()).value
    }

    // The evidence after the day policy.
    ghost function Applied(): seq<Evidence>
      requires Evaluate(calendar, calendarVersion, date).Some?
    {
      SnapshotMaterializer.Applied(evidence, Policy())
    }
  }

  // Evidence that ends up with a status other than available, revised, retryable or denied: it
  // came with one, or one of its facts is not timely.
  predicate Fell(e: Evidence, cutoff: int, instant: string -> Option<int>) {
    if e.status == Available || e.status == Revised then !Contributes(e, cutoff, instant)
    else e.status != Retryable && e.status != Denied
  }

  ghost predicate AnyFact(d: Day, instant: string -> Option<int>)
    requires Evaluate(d.calendar, d.calendarVersion, d.date).Some?
  {
    exists e <- d.Applied() :: Contributes(e, d.cutoff, instant) && e.facts != []
  }

  ghost predicate LacksNeeded(d: Day) {
    exists id :: IsNeeded(d.calendar, d.date, id) && !Observed(d.evidence, id)
  }

  ghost predicate SomeClosed(d: Day) {
    exists r :: !HasSession(d.calendar, r, d.date)
  }

  // Evidence that raises no issue by its status.
  predicate IsQuiet(e: Evidence, cutoff: int, instant: string -> Option<int>) {
    e.status == Denied || (e.status == Available && Contributes(e, cutoff, instant))
  }

  ghost predicate IsBlocked(d: Day, instant: string -> Option<int>)
    requires Evaluate(d.calendar, d.calendarVersion, d.date).Some?
  {
    || !AnyFact(d, instant) || LacksNeeded(d)
    || (exists e <- d.Applied() :: e.required && Fell(e, d.cutoff, instant))
  }

  ghost predicate AllQuiet(d: Day, instant: string -> Option<int>)
    requires Evaluate(d.calendar, d.calendarVersion, d.date).Some?
  {
    forall e <- d.Applied() :: IsQuiet(e, d.cutoff, instant)
  }

  ghost predicate WantsRetry(d: Day)
    requires Evaluate(d.calendar, d.calendarVersion, d.date).Some?
  {
    exists e <- d.Applied() :: e.required && e.status == Retryable
  }

  // The decision, from the evidence after the day policy.
  ghost function DecisionOf(d: Day, instant: string -> Option<int>): Decision
    requires Evaluate(d.calendar, d.calendarVersion, d.date).Some?
  {
    if IsBlocked(d, instant) then Blocked
    else if WantsRetry(d) then RetryLater
    else if SomeClosed(d) || !AllQuiet(d, instant) then Degraded
    else Passed
  }

  // A reason for an issue: a fixed input without evidence or a market that is closed and still
  // available, an evidence that does not end up available, or no fact at all.
  ghost predicate IsIssue(d: Day, instant: string -> Option<int>, issue: Issue)
    requires Evaluate(d.calendar, d.calendarVersion, d.date).Some?
  {
    var safe := AllSafe(d.Applied(), d.cutoff, instant);
    || OfInput(RequiredInputs(SetOf(d.Policy().required), SetOf(d.Policy().optional), true),
               Sort(QualityEntries(safe), FieldOrder()), issue)
    || (exists e <- safe :: Explains(e, issue))
    || (!AnyFact(d, instant) && issue == Issue("report.facts", FactsUnavailable, true))
  }

  ghost predicate WellKnown(d: Day) {
    Evaluate(d.calendar, d.calendarVersion, d.date).Some? && Unique(Ids(d.Applied()))
  }

  // ---- Each kind of reason, by evidence -------------------------------------------------------

  lemma {:induction false} AnyFactSurvives(d: Day, instant: string -> Option<int>)
    requires WellKnown(d)
    ensures SortedFacts(AllSafe(d.Applied(), d.cutoff, instant)) != [] <==> AnyFact(d, instant)
  {
    var safe := AllSafe(d.Applied(), d.cutoff, instant);
    SortPermutes(UsableFacts(safe), ByFactId());
    if UsableFacts(safe) != [] {
      var fact := UsableFacts(safe)[0];
      assert fact in UsableFacts(safe);
      UsableOf(d.Applied(), d.cutoff, instant, fact);
    }
    if e :| e in d.Applied() && Contributes(e, d.cutoff, instant) && e.facts != [] {
      assert e.facts[0] in e.facts;
      UsableOf(d.Applied(), d.cutoff, instant, e.facts[0]);
    }
  }

  // A needed input is listed exactly if there was evidence for it.
  lemma {:induction false} NeededIsListed(d: Day, instant: string -> Option<int>, id: string)
    requires WellKnown(d) && IsNeeded(d.calendar, d.date, id)
    ensures Listed(Sort(QualityEntries(AllSafe(d.Applied(), d.cutoff, instant)), FieldOrder()), id)
       <==> Observed(d.evidence, id)
  {
    var safe, applied := AllSafe(d.Applied(), d.cutoff, instant), d.Applied();
    EntriesListEvidence(safe, id);
    EvidenceIsAdjusted(d.calendar, d.calendarVersion, d.date, d.evidence);
    OnlyClosedMarketsAreAdded(d.calendar, d.calendarVersion, d.date, d.evidence);
    ClosedForMeans(d.calendar, d.calendarVersion, d.date, id);
    if Observed(safe, id) {
      var i :| 0 <= i < |safe| && safe[i].inputId == id;
      assert applied[i].inputId == id && i < |d.evidence|;
      assert d.evidence[i] in d.evidence;
    }
    if Observed(d.evidence, id) {
      var i :| 0 <= i < |d.evidence| && d.evidence[i].inputId == id;
      assert safe[i] in safe && applied[i].inputId == id;
    }
  }

  // Each evidence and what the cutoff makes of it.
  lemma {:induction false} SafeByEvidence(evidence: seq<Evidence>, cutoff: int, instant: string -> Option<int>)
    ensures forall e <- evidence :: Safe(e, cutoff, instant) in AllSafe(evidence, cutoff, instant)
    ensures forall s <- AllSafe(evidence, cutoff, instant) :: exists e <- evidence :: s == Safe(e, cutoff, instant)
  {
    var safe := AllSafe(evidence, cutoff, instant);
    forall e | e in evidence ensures Safe(e, cutoff, instant) in safe {
      var i :| 0 <= i < |evidence| && evidence[i] == e;
      assert safe[i] in safe;
    }
    forall s | s in safe ensures exists e <- evidence :: s == Safe(e, cutoff, instant) {
      var i :| 0 <= i < |safe| && safe[i] == s;
      assert evidence[i] in evidence;
    }
  }

  lemma {:induction false} FellMeansFails(e: Evidence, cutoff: int, instant: string -> Option<int>)
    ensures var s := Safe(e, cutoff, instant);
            && s.inputId == e.inputId && s.required == e.required
            && (Fails(s.status) <==> Fell(e, cutoff, instant))
            && (s.status == Retryable <==> e.status == Retryable)
            && (s.status == Available || s.status == Denied <==> IsQuiet(e, cutoff, instant))
            && (s.status == Denied <==> e.status == Denied)
  {
    CutoffKeepsOrDrops(e, cutoff, instant);
  }

  // An issue by status comes from evidence that is not quiet, and every such evidence raises one.
  lemma {:induction false} StatusIssue(d: Day, instant: string -> Option<int>, e: Evidence) returns (issue: Issue)
    requires WellKnown(d) && e in d.Applied() && !IsQuiet(e, d.cutoff, instant)
    ensures IsIssue(d, instant, issue)
    ensures issue.Blocks() <==> e.required && Fell(e, d.cutoff, instant)
    ensures issue.AsksRetry() <==> e.required && e.status == Retryable
  {
    SafeByEvidence(d.Applied(), d.cutoff, instant);
    FellMeansFails(e, d.cutoff, instant);
    var s := Safe(e, d.cutoff, instant);
    issue := Issue(s.inputId, HasStatus(s.status), s.required);
    assert s in AllSafe(d.Applied(), d.cutoff, instant) && Explains(s, issue);
  }

  lemma {:induction false} IssueOfStatus(d: Day, instant: string -> Option<int>, issue: Issue) returns (e: Evidence)
    requires WellKnown(d)
    requires exists s <- AllSafe(d.Applied(), d.cutoff, instant) :: Explains(s, issue)
    ensures e in d.Applied() && !IsQuiet(e, d.cutoff, instant)
    ensures issue.Blocks() <==> e.required && Fell(e, d.cutoff, instant)
    ensures issue.AsksRetry() <==> e.required && e.status == Retryable
  {
    SafeByEvidence(d.Applied(), d.cutoff, instant);
    var s :| s in AllSafe(d.Applied(), d.cutoff, instant) && Explains(s, issue);
    e :| e in d.Applied() && s == Safe(e, d.cutoff, instant);
    FellMeansFails(e, d.cutoff, instant);
  }

  lemma {:induction false} MissingIssue(d: Day, instant: string -> Option<int>, id: string)
    requires WellKnown(d) && IsNeeded(d.calendar, d.date, id) && !Observed(d.evidence, id)
    ensures IsIssue(d, instant, Issue(id, RequiredUnavailable, true))
  {
    NeededIsListed(d, instant, id);
    ClosedForMeans(d.calendar, d.calendarVersion, d.date, id);
    EveryInput(id);
  }

  // An issue about a fixed input as such: it is needed and has no evidence, or its market is
  // closed, and then the issue is optional.
  lemma {:induction false} IssueOfInput(d: Day, instant: string -> Option<int>, issue: Issue)
    requires WellKnown(d)
    requires OfInput(RequiredInputs(SetOf(d.Policy().required), SetOf(d.Policy().optional), true),
                     Sort(QualityEntries(AllSafe(d.Applied(), d.cutoff, instant)), FieldOrder()), issue)
    ensures !issue.AsksRetry()
    ensures if issue.required then issue.Blocks() && LacksNeeded(d) else SomeClosed(d)
  {
    var id := issue.inputId;
    ClosedForMeans(d.calendar, d.calendarVersion, d.date, id);
    WhatAPolicyRequires(d.calendar, d.calendarVersion, d.date, id);
    if issue.required {
      NeededIsListed(d, instant, id);
    }
  }

  lemma {:induction false} ClosedIsNotDenied(d: Day, e: Evidence)
    requires WellKnown(d) && e in d.Applied() && IsClosed(d.calendar, d.date, e.inputId)
    ensures e.status != Denied
  {
    EvidenceIsAdjusted(d.calendar, d.calendarVersion, d.date, d.evidence);
    OnlyClosedMarketsAreAdded(d.calendar, d.calendarVersion, d.date, d.evidence);
    var i :| 0 <= i < |d.Applied()| && d.Applied()[i] == e;
    if i < |d.evidence| {
      assert IsAdjusted(d.calendar, d.date, d.evidence[i], e);
    }
  }

  lemma {:induction false} ListedAsAvailable(evidence: seq<Evidence>, cutoff: int, instant: string -> Option<int>,
                                             s: Evidence)
    requires Unique(Ids(evidence)) && s in AllSafe(evidence, cutoff, instant) && s.status == Available
    ensures ListedAvailable(Sort(QualityEntries(AllSafe(evidence, cutoff, instant)), FieldOrder()), s.inputId)
  {
    var safe := AllSafe(evidence, cutoff, instant);
    var entries := QualityEntries(safe);
    var i :| 0 <= i < |safe| && safe[i] == s;
    FieldOrderIsAnOrder();
    EntriesDiffer(evidence, cutoff, instant);
    SortKeepsSymmetric(entries, FieldOrder(), KeysDiffer());
    SortPermutes(entries, FieldOrder());
    assert entries[i] in Sort(entries, FieldOrder());
    EntryOfId(Sort(entries, FieldOrder()), entries[i]);
    QualityEntryReads(s);
  }

  lemma {:induction false} OpenThoughClosed(d: Day, instant: string -> Option<int>, r: Region, s: Evidence)
    requires WellKnown(d) && !HasSession(d.calendar, r, d.date)
    requires s in AllSafe(d.Applied(), d.cutoff, instant) && s.inputId == MarketInput(r) && s.status == Available
    ensures IsIssue(d, instant, Issue(s.inputId, ScheduledClosure, false))
  {
    ListedAsAvailable(d.Applied(), d.cutoff, instant, s);
    WhatAPolicyRequires(d.calendar, d.calendarVersion, d.date, s.inputId);
    EveryInput(s.inputId);
  }

  // A closed market always raises an issue, if only that its closure was scheduled.
  lemma {:induction false} ClosedMarketRaisesAnIssue(d: Day, instant: string -> Option<int>, r: Region)
    returns (issue: Issue)
    requires WellKnown(d) && !HasSession(d.calendar, r, d.date)
    ensures IsIssue(d, instant, issue)
  {
    ClosedMarketsAreObserved(d.calendar, d.calendarVersion, d.date, d.evidence, MarketInput(r));
    var e :| e in d.Applied() && e.inputId == MarketInput(r);
    ClosedIsNotDenied(d, e);
    if IsQuiet(e, d.cutoff, instant) {
      SafeByEvidence(d.Applied(), d.cutoff, instant);
      FellMeansFails(e, d.cutoff, instant);
      OpenThoughClosed(d, instant, r, Safe(e, d.cutoff, instant));
      issue := Issue(e.inputId, ScheduledClosure, false);
    } else {
      issue := StatusIssue(d, instant, e);
    }
  }

  // ---- All of them ----------------------------------------------------------------------------

  // What one issue tells.
  lemma {:induction false} IssueTells(d: Day, instant: string -> Option<int>, issue: Issue)
    requires WellKnown(d) && IsIssue(d, instant, issue)
    ensures issue.Blocks() ==> IsBlocked(d, instant)
    ensures issue.AsksRetry() ==> WantsRetry(d)
    ensures IsBlocked(d, instant) || SomeClosed(d) || !AllQuiet(d, instant)
  {
    if exists s <- AllSafe(d.Applied(), d.cutoff, instant) :: Explains(s, issue) {
      var e := IssueOfStatus(d, instant, issue);
    } else if AnyFact(d, instant) {
      IssueOfInput(d, instant, issue);
    }
  }

  ghost predicate AreTheIssues(d: Day, instant: string -> Option<int>, issues: seq<Issue>)
    requires Evaluate(d.calendar, d.calendarVersion, d.date).Some?
  {
    forall issue :: issue in issues <==> IsIssue(d, instant, issue)
  }

  lemma {:induction false} BlockedHasAnIssue(d: Day, instant: string -> Option<int>) returns (issue: Issue)
    requires WellKnown(d) && IsBlocked(d, instant)
    ensures IsIssue(d, instant, issue) && issue.Blocks()
  {
    if !AnyFact(d, instant) {
      issue := Issue("report.facts", FactsUnavailable, true);
    } else if id :| IsNeeded(d.calendar, d.date, id) && !Observed(d.evidence, id) {
      MissingIssue(d, instant, id);
      issue := Issue(id, RequiredUnavailable, true);
    } else {
      var e :| e in d.Applied() && e.required && Fell(e, d.cutoff, instant);
      issue := StatusIssue(d, instant, e);
    }
  }

  lemma {:induction false} SomeIssueBlocks(d: Day, instant: string -> Option<int>, issues: seq<Issue>)
    requires WellKnown(d) && AreTheIssues(d, instant, issues)
    ensures (exists issue <- issues :: issue.Blocks()) <==> IsBlocked(d, instant)
  {
    if issue :| issue in issues && issue.Blocks() {
      IssueTells(d, instant, issue);
    }
    if IsBlocked(d, instant) {
      var issue := BlockedHasAnIssue(d, instant);
      assert issue in issues;
    }
  }

  lemma {:induction false} SomeIssueAsks(d: Day, instant: string -> Option<int>, issues: seq<Issue>)
    requires WellKnown(d) && AreTheIssues(d, instant, issues)
    ensures (exists issue <- issues :: issue.AsksRetry()) <==> WantsRetry(d)
  {
    if issue :| issue in issues && issue.AsksRetry() {
      IssueTells(d, instant, issue);
    }
    if e :| e in d.Applied() && e.required && e.status == Retryable {
      var issue := StatusIssue(d, instant, e);
      assert issue in issues;
    }
  }

  lemma {:induction false} SomeIssueAtAll(d: Day, instant: string -> Option<int>, issues: seq<Issue>)
    requires WellKnown(d) && AreTheIssues(d, instant, issues)
    ensures issues != [] <==> IsBlocked(d, instant) || SomeClosed(d) || !AllQuiet(d, instant)
  {
    if issues != [] {
      assert issues[0] in issues;
      IssueTells(d, instant, issues[0]);
    }
    if IsBlocked(d, instant) {
      var issue := BlockedHasAnIssue(d, instant);
      assert issue in issues;
    } else if r :| !HasSession(d.calendar, r, d.date) {
      var issue := ClosedMarketRaisesAnIssue(d, instant, r);
      assert issue in issues;
    } else if e :| e in d.Applied() && !IsQuiet(e, d.cutoff, instant) {
      var issue := StatusIssue(d, instant, e);
      assert issue in issues;
    }
  }

  lemma {:induction false} DecideFromIssues(d: Day, instant: string -> Option<int>, issues: seq<Issue>)
    requires WellKnown(d) && AreTheIssues(d, instant, issues)
    ensures Decide(issues) == DecisionOf(d, instant)
  {
    SomeIssueBlocks(d, instant, issues);
    SomeIssueAsks(d, instant, issues);
    SomeIssueAtAll(d, instant, issues);
  }

  // ---- The gate's own issues are these --------------------------------------------------------

  lemma {:induction false} SnapshotFields(lib: Lib, d: Day)
    requires d.Valid(lib)
    ensures WellKnown(d)
    ensures var safe, snapshot := AllSafe(d.Applied(), d.cutoff, lib.instant), d.Snapshot(lib);
            && snapshot.reportDate == d.date && snapshot.payload.policy == ToPayload(d.Policy(), lib.iso)
            && snapshot.payload.inputQuality == Obj(Sort(QualityEntries(safe), FieldOrder()))
            && (HasFacts(snapshot) <==> SortedFacts(safe) != [])
  {
    FactCheckSeesAnyFact(lib, d.date, d.asOf, d.cutoff, d.version, d.Applied(), d.Policy());
  }

  lemma {:induction false} InputsAre(lib: Lib, d: Day)
    requires d.Valid(lib)
    ensures InputsFor(d.Snapshot(lib), lib.iso)
         == RequiredInputs(SetOf(d.Policy().required), SetOf(d.Policy().optional), true)
  {
    SnapshotFields(lib, d);
    GateAcceptsThePolicy(d.calendar, d.calendarVersion, d.Snapshot(lib), lib.iso);
  }

  lemma {:induction false} FlagsAre(lib: Lib, d: Day)
    requires d.Valid(lib)
    ensures forall e <- AllSafe(d.Applied(), d.cutoff, lib.instant) ::
              e.inputId in SetOf(d.Policy().required) ==> e.required
  {
    EvaluatedPolicy(d.calendar, d.calendarVersion, d.date);
    RequiredStaysRequired(d.evidence, d.Policy(), d.cutoff, lib);
    var safe := Safely(lib, d.cutoff, d.evidence, d.Policy());
    forall e | e in safe && e.inputId in SetOf(d.Policy().required) ensures e.required {
      assert KeepsItsFlag(d.Policy(), e);
    }
  }

  // The issues of a materialized snapshot are exactly those with a reason in the evidence.
  lemma {:induction false} IssuesAre(lib: Lib, d: Day, issue: Issue)
    requires d.Valid(lib)
    ensures issue in Issues(d.Snapshot(lib), lib.iso) <==> IsIssue(d, lib.instant, issue)
  {
    SnapshotFields(lib, d);
    InputsAre(lib, d);
    FlagsAre(lib, d);
    AnyFactSurvives(d, lib.instant);
    IssuesOfSnapshot(lib, d.Snapshot(lib), AllSafe(d.Applied(), d.cutoff, lib.instant),
                     RequiredInputs(SetOf(d.Policy().required), SetOf(d.Policy().optional), true), issue);
  }

  // The decision over a materialized snapshot is that of the evidence: blocked, asking for a
  // retry, degraded or passed, each exactly when it says.
  lemma {:induction false} DecidedByEvidence(lib: Lib, d: Day)
    requires d.Valid(lib)
    ensures Decide(Issues(d.Snapshot(lib), lib.iso)) == DecisionOf(d, lib.instant)
  {
    SnapshotFields(lib, d);
    forall issue ensures issue in Issues(d.Snapshot(lib), lib.iso) <==> IsIssue(d, lib.instant, issue) {
      IssuesAre(lib, d, issue);
    }
    DecideFromIssues(d, lib.instant, Issues(d.Snapshot(lib), lib.iso));
  }

  // ---- Every issue, by evidence ---------------------------------------------------------------

  // The evidence ends up with a status that is reported, under its own flag.
  ghost predicate IsReported(e: Evidence, cutoff: int, instant: string -> Option<int>, issue: Issue) {
    exists status, reason ::
      && IsListedAs(e, cutoff, instant, status, reason) && status != Available && status != Denied
      && issue == Issue(e.inputId, HasStatus(status), e.required)
  }

  ghost predicate IsOpenAnyway(e: Evidence, cutoff: int, instant: string -> Option<int>, id: string) {
    e.inputId == id && e.status == Available && Contributes(e, cutoff, instant)
  }

  // Why the gate raises an issue: a needed input was not collected, a closed market's is available all
  // the same, an evidence ended up otherwise than available, or there is no fact.
  ghost predicate HasReason(d: Day, instant: string -> Option<int>, issue: Issue)
    requires Evaluate(d.calendar, d.calendarVersion, d.date).Some?
  {
    var id := issue.inputId;
    || (issue == Issue(id, RequiredUnavailable, true)
        && IsNeeded(d.calendar, d.date, id) && !Observed(d.evidence, id))
    || (issue == Issue(id, ScheduledClosure, false)
        && IsClosed(d.calendar, d.date, id) && exists e <- d.Applied() :: IsOpenAnyway(e, d.cutoff, instant, id))
    || (exists e <- d.Applied() :: IsReported(e, d.cutoff, instant, issue))
    || (!AnyFact(d, instant) && issue == Issue("report.facts", FactsUnavailable, true))
  }

  lemma {:induction false} ReportedExplains(d: Day, instant: string -> Option<int>, issue: Issue)
    requires WellKnown(d)
    ensures (exists s <- AllSafe(d.Applied(), d.cutoff, instant) :: Explains(s, issue))
       <==> (exists e <- d.Applied() :: IsReported(e, d.cutoff, instant, issue))
  {
    SafeByEvidence(d.Applied(), d.cutoff, instant);
    forall e | e in d.Applied()
      ensures IsReported(e, d.cutoff, instant, issue) <==> Explains(Safe(e, d.cutoff, instant), issue)
    {
      CutoffKeepsOrDrops(e, d.cutoff, instant);
      var kept := Safe(e, d.cutoff, instant);
      assert IsListedAs(e, d.cutoff, instant, kept.status, kept.reason);
    }
  }

  lemma {:induction false} ClosedIsListed(d: Day, instant: string -> Option<int>, id: string)
    requires WellKnown(d) && IsClosed(d.calendar, d.date, id)
    ensures Listed(Sort(QualityEntries(AllSafe(d.Applied(), d.cutoff, instant)), FieldOrder()), id)
  {
    var safe, applied := AllSafe(d.Applied(), d.cutoff, instant), d.Applied();
    ClosedMarketsAreObserved(d.calendar, d.calendarVersion, d.date, d.evidence, id);
    EntriesListEvidence(safe, id);
    var i :| 0 <= i < |applied| && applied[i].inputId == id;
    assert safe[i] in safe;
  }

  // An input is listed as available exactly if its evidence was and contributes.
  lemma {:induction false} AvailableIsListed(evidence: seq<Evidence>, cutoff: int, instant: string -> Option<int>,
                                             id: string)
    requires Unique(Ids(evidence))
    ensures ListedAvailable(Sort(QualityEntries(AllSafe(evidence, cutoff, instant)), FieldOrder()), id)
       <==> exists e <- evidence :: IsOpenAnyway(e, cutoff, instant, id)
  {
    var safe := AllSafe(evidence, cutoff, instant);
    var entries := Sort(QualityEntries(safe), FieldOrder());
    if e :| e in evidence && IsOpenAnyway(e, cutoff, instant, id) {
      SafeByEvidence(evidence, cutoff, instant);
      CutoffKeepsOrDrops(e, cutoff, instant);
      ListedAsAvailable(evidence, cutoff, instant, Safe(e, cutoff, instant));
    }
    if ListedAvailable(entries, id) {
      SortPermutes(QualityEntries(safe), FieldOrder());
      var k := IndexOf(entries, id);
      assert entries[k] in QualityEntries(safe);
      var i :| 0 <= i < |safe| && QualityEntries(safe)[i] == entries[k];
      QualityEntryReads(safe[i]);
      assert ReadStatus("available") == Some(safe[i].status);
      CutoffKeepsOrDrops(evidence[i], cutoff, instant);
      assert evidence[i] in evidence && IsOpenAnyway(evidence[i], cutoff, instant, id);
    }
  }

  lemma {:induction false} InputReasons(d: Day, instant: string -> Option<int>, issue: Issue)
    requires WellKnown(d)
    ensures OfInput(RequiredInputs(SetOf(d.Policy().required), SetOf(d.Policy().optional), true),
                    Sort(QualityEntries(AllSafe(d.Applied(), d.cutoff, instant)), FieldOrder()), issue)
       <==> var id := issue.inputId;
            || (issue == Issue(id, RequiredUnavailable, true)
                && IsNeeded(d.calendar, d.date, id) && !Observed(d.evidence, id))
            || (issue == Issue(id, ScheduledClosure, false) && IsClosed(d.calendar, d.date, id)
                && exists e <- d.Applied() :: IsOpenAnyway(e, d.cutoff, instant, id))
  {
    var id := issue.inputId;
    ClosedForMeans(d.calendar, d.calendarVersion, d.date, id);
    WhatAPolicyRequires(d.calendar, d.calendarVersion, d.date, id);
    EveryInput(id);
    if IsNeeded(d.calendar, d.date, id) {
      NeededIsListed(d, instant, id);
    }
    if IsClosed(d.calendar, d.date, id) {
      ClosedIsListed(d, instant, id);
    }
    AvailableIsListed(d.Applied(), d.cutoff, instant, id);
  }

  // The issues of a materialized snapshot are exactly those the collected evidence gives a reason for.
  lemma {:induction false} IssuesHaveReasons(lib: Lib, d: Day, issue: Issue)
    requires d.Valid(lib)
    ensures issue in Issues(d.Snapshot(lib), lib.iso) <==> HasReason(d, lib.instant, issue)
  {
    SnapshotFields(lib, d);
    IssuesAre(lib, d, issue);
    InputReasons(d, lib.instant, issue);
    ReportedExplains(d, lib.instant, issue);
  }
}
