/** From collected evidence to a published fallback report: what the materializer guarantees of a
    snapshot is what the builder and the validator need of it. */
module MaterializedFallback {
  import opened Json
  import opened Prelude
  import opened ReportFallback
  import opened ReportPublication
  import opened ReportValidator
  import opened SnapshotMaterializer
  import DayPolicy
  import EvidenceOutcome
  import GateAgreement
  import QualityGate
  import ReportContract
  import Sorting

  // What one report day is materialized from.
  datatype Collection = Collection(
    date: int, asOf: int, cutoff: int, version: string, evidence: seq<Evidence>, policy: DayPolicy.Policy)

  function Materialized(m: SnapshotMaterializer.Lib, c: Collection): Option<QualityGate.Snapshot> {
    FromEvidence(m, c.date, c.asOf, c.cutoff, c.version, Applied(c.evidence, c.policy), c.policy)
  }

  function SafeEvidence(m: SnapshotMaterializer.Lib, c: Collection): seq<Evidence> {
    AllSafe(Applied(c.evidence, c.policy), c.cutoff, m.instant)
  }

  lemma {:induction false} DictsOfObjects(dicts: seq<ReportContract.Dict>)
    ensures OnlyDicts(Objects(dicts)) == dicts
  {
    if dicts != [] {
      var n := |dicts| - 1;
      DictsOfObjects(dicts[..n]);
      assert Objects(dicts)[..n] == Objects(dicts[..n]);
    }
  }

  // Facts carry distinct text IDs, listed in the snapshot ...
  lemma {:induction false} FactsAreReady(m: SnapshotMaterializer.Lib, c: Collection)
    requires Materialized(m, c).Some?
    ensures FactsReady(Materialized(m, c).value)
  {
    var snapshot := Materialized(m, c).value;
    var facts := SortedFacts(SafeEvidence(m, c));
    DictsOfObjects(facts);
    forall i | 0 <= i < |facts| ensures AsText(Get(facts[i], "fact_id")) == Some(snapshot.factIds[i]) {
      assert facts[i] in facts;
    }
  }

  // ... and none of them became available too late.
  lemma {:induction false} FactsAreInTime(
      lib: ReportValidator.Lib, m: SnapshotMaterializer.Lib, c: Collection, raw: ReportContract.Dict)
    requires lib.instant == m.instant && Materialized(m, c).Some?
    requires raw in Dicts(Materialized(m, c).value.payload.facts)
    ensures InTime(lib, Materialized(m, c).value, raw)
  {
    DictsOfObjects(SortedFacts(SafeEvidence(m, c)));
    assert raw in SortedFacts(SafeEvidence(m, c));
    MaterializedFactHasATime(m, c, raw);
  }

  lemma {:induction false} MaterializedFactHasATime(
      m: SnapshotMaterializer.Lib, c: Collection, raw: ReportContract.Dict)
    requires Materialized(m, c).Some? && raw in SortedFacts(SafeEvidence(m, c))
    ensures GateAgreement.InTime(raw, c.cutoff, m.instant)
  {
    GateAgreement.FactsAreBeforeTheCutoff(
      m, c.date, c.asOf, c.cutoff, c.version, Applied(c.evidence, c.policy), c.policy);
    var facts := SortedFacts(SafeEvidence(m, c));
    var i :| 0 <= i < |facts| && facts[i] == raw;
    assert Objects(facts)[i] in Objects(facts);
  }

  // Every collected source sits under its own ID, once.
  lemma {:induction false} SourcesById(sources: seq<ReportContract.Dict>)
    requires SourceById(sources).Some?
    ensures var byId := SourceById(sources).value;
            && (forall f <- byId :: f.value.Obj? && Get(f.value.fields, "source_ref_id") == Some(Str(f.key)))
            && Sorting.Pairwise(byId, EvidenceOutcome.KeysDiffer())
  {
    if sources != [] {
      var n := |sources| - 1;
      SourcesById(sources[..n]);
      var front := SourceById(sources[..n]).value;
      var id := AsText(Get(sources[n], "source_ref_id")).value;
      if Get(front, id).None? {
        forall f | f in front ensures f.key != id {
          FieldIsFound(front, f);
        }
      }
    }
  }

  lemma {:induction false} DictsOfValues(fields: seq<Field>)
    requires forall f <- fields :: f.value.Obj?
    ensures var dicts := OnlyDicts(Values(fields));
            |dicts| == |fields| && forall i | 0 <= i < |fields| :: Obj(dicts[i]) == fields[i].value
  {
    if fields != [] {
      var n := |fields| - 1;
      DictsOfValues(fields[..n]);
      assert Values(fields)[..n] == Values(fields[..n]);
      assert fields[n] in fields;
    }
  }

  lemma {:induction false} SourcesAreDistinct(m: SnapshotMaterializer.Lib, c: Collection)
    requires Materialized(m, c).Some?
    ensures DistinctIds(Dicts(Materialized(m, c).value.payload.sources), "source_ref_id")
  {
    var collected := UsableSources(SafeEvidence(m, c));
    var byId := SourceById(collected).value;
    SourcesById(collected);
    EvidenceOutcome.FieldOrderIsAnOrder();
    Sorting.SortKeepsSymmetric(byId, QualityGate.FieldOrder(), EvidenceOutcome.KeysDiffer());
    Sorting.SortPermutes(byId, QualityGate.FieldOrder());
    var sorted := Sorting.Sort(byId, QualityGate.FieldOrder());
    DictsOfValues(sorted);
    var dicts := OnlyDicts(Values(sorted));
    forall i, j | 0 <= i < j < |dicts| ensures Get(dicts[i], "source_ref_id") != Get(dicts[j], "source_ref_id") {
      assert sorted[i] in byId && sorted[j] in byId;
      assert EvidenceOutcome.KeysDiffer()(sorted[i], sorted[j]);
    }
  }

  // ---- Published exactly when -----------------------------------------------------------------

  ghost predicate MetadataIsCanonical(lib: ReportValidator.Lib, snapshot: QualityGate.Snapshot) {
    forall raw <- Dicts(snapshot.payload.sources) :: Canonical(lib, raw)
  }

  predicate SectionPresents(
    lib: ReportValidator.Lib, render: Render, snapshot: QualityGate.Snapshot, id: ReportContract.SectionId)
  {
    var facts := SectionFacts(Dicts(snapshot.payload.facts), id);
    && (forall raw <- facts :: Presentable(lib, snapshot, raw))
    && FitsTheLimit(render, id, facts)
  }

  // Every sectioned fact can be presented, and its section fits its limit.
  predicate SectionsPresent(lib: ReportValidator.Lib, render: Render, snapshot: QualityGate.Snapshot) {
    forall id <- FACT_SECTIONS :: SectionPresents(lib, render, snapshot, id)
  }

  lemma {:induction false} MaterializedSectionsAreReady(
      lib: ReportValidator.Lib, m: SnapshotMaterializer.Lib, c: Collection, render: Render)
    requires lib.instant == m.instant && Materialized(m, c).Some?
    ensures var snapshot := Materialized(m, c).value;
            SectionsReady(lib, render, snapshot) <==> SectionsPresent(lib, render, snapshot)
  {
    var snapshot := Materialized(m, c).value;
    forall raw | raw in Dicts(snapshot.payload.facts)
      ensures Showable(lib, snapshot, raw) <==> Presentable(lib, snapshot, raw)
    {
      FactsAreInTime(lib, m, c, raw);
    }
    forall id | id in FACT_SECTIONS
      ensures SectionReady(lib, render, snapshot, id, SectionFacts(Dicts(snapshot.payload.facts), id))
         <==> SectionPresents(lib, render, snapshot, id)
    {}
  }

  // The fallback over materialized evidence with canonical metadata is published exactly when
  // the gate passes or degrades it, every sectioned fact can be presented and the sections fit;
  // distinct IDs, known facts and availability in time come from the materializer. A published
  // one is complete or degraded as the gate said and still meets the report contract.
  lemma {:induction false} MaterializedFallbackIsPublished(
      lib: ReportValidator.Lib, m: SnapshotMaterializer.Lib, c: Collection, render: Render, reportId: string)
    requires lib.instant == m.instant
    requires Materialized(m, c).Some? && MetadataIsCanonical(lib, Materialized(m, c).value)
    ensures var snapshot := Materialized(m, c).value;
            var final := Settled(lib, Build(lib, render, snapshot, reportId), snapshot);
            && (final.lifecycle == Validated <==> GatePasses(lib, snapshot) && SectionsPresent(lib, render, snapshot))
            && (final.lifecycle == Validated ==>
                  && final.published && final.status == StatusByGate(lib, snapshot)
                  && final.payload.Some? && ReportContract.Holds(final.payload.value, lib.read))
            && (final.lifecycle != Validated ==>
                  final.lifecycle == Failed && final.status == ReportContract.Incomplete)
  {
    FactsAreReady(m, c);
    SourcesAreDistinct(m, c);
    MaterializedSectionsAreReady(lib, m, c, render);
    FallbackIsPublishedExactlyWhen(lib, render, Materialized(m, c).value, reportId);
  }

  /** The whole way: apply the day policy to the evidence, materialize the snapshot, build the
      fallback, validate and finalize it. None is evidence the materializer refuses. */
  method PublishFromEvidence(
      lib: ReportValidator.Lib, m: SnapshotMaterializer.Lib, c: Collection, render: Render, reportId: string)
    returns (final: Option<Stored>)
    requires lib.instant == m.instant
    requires Materialized(m, c).Some? ==> MetadataIsCanonical(lib, Materialized(m, c).value)
    ensures final.None? <==> Materialized(m, c).None?
    ensures final.Some? ==>
              var snapshot := Materialized(m, c).value;
              && (final.value.lifecycle == Validated <==>
                    GatePasses(lib, snapshot) && SectionsPresent(lib, render, snapshot))
              && (final.value.lifecycle == Validated ==>
                    && final.value.published && final.value.status == StatusByGate(lib, snapshot)
                    && final.value.payload.Some? && ReportContract.Holds(final.value.payload.value, lib.read))
  {
    var snapshot := MakeSnapshot(m, c.date, c.asOf, c.cutoff, c.version, c.evidence, c.policy);
    if snapshot.None? {
      return None;
    }
    MaterializedFallbackIsPublished(lib, m, c, render, reportId);
    FactsAreReady(m, c);
    SourcesAreDistinct(m, c);
    var settled := PublishFallback(lib, render, snapshot.value, reportId);
    return Some(settled);
  }
}
