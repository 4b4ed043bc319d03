/** The state a validated report ends in, and what a published report is worth. */
module ReportPublication {
  import opened Json
  import opened Prelude
  import opened ReportContract
  import opened ReportValidator
  import DayPolicy
  import QualityGate

  // _quality_notice
  function Notice(status: ReportStatus, anyIssue: bool): (text: string)
    ensures 0 < |text| <= 30
  {
    if !anyIssue then "必需数据均已通过质量校验。"
    else if status == Incomplete then "日报未发布：必需数据未满足质量校验。"
    else "部分可选数据不可用，日报已降级。"
  }

  function FinalStatus(stored: Stored, issues: seq<Issue>): ReportStatus {
    if !Publishable(issues) || stored.status == Incomplete then Incomplete
    else if Warns(issues) then Reduced
    else stored.status
  }

  // The notice is rewritten with a count of its own text; its items stay as they were.
  function Finalized(report: Report, status: ReportStatus, text: string): Report {
    var final := report.(status := status, published := status != Incomplete, qualityStatus := status);
    if DataQualityNotice !in report.sections then final
    else final.(sections := report.sections[DataQualityNotice := Rewritten(report.sections[DataQualityNotice], text)])
  }

  function Rewritten(notice: Section, text: string): Section {
    notice.(text := Some(text), characterCount := |text|)
  }

  // _finalize_report
  function Finalize(stored: Stored, issues: seq<Issue>): Stored {
    var status := FinalStatus(stored, issues);
    var published := status != Incomplete;
    Stored(stored.date, stored.snapshotId, status, published, if published then Validated else Failed,
           match stored.payload case None => None case Some(report) =>
             Some(Finalized(report, status, Notice(status, issues != []))))
  }

  // The stored row and its payload tell the same story.
  ghost predicate Agrees(stored: Stored) {
    && (stored.lifecycle == Validated <==> stored.published)
    && (stored.published <==> stored.status != Incomplete)
    && (stored.payload.Some? ==>
          && stored.payload.value.status == stored.status == stored.payload.value.qualityStatus
          && stored.payload.value.published == stored.published)
  }

  // Where a report ends that is sound or not, with or without warnings.
  function SettledAs(stored: Stored, sound: bool, warns: bool): (final: Stored)
    ensures Agrees(final)
  {
    var status := if !sound || stored.status == Incomplete then Incomplete
                  else if warns then Reduced else stored.status;
    var published := status != Incomplete;
    Stored(stored.date, stored.snapshotId, status, published, if published then Validated else Failed,
           match stored.payload
           case None => None
           case Some(report) => Some(Finalized(report, status, Notice(status, !sound || warns))))
  }

  // Whatever order the issues come in, the outcome depends only on whether the report is sound
  // and whether the gate degrades it.
  ghost function Settled(lib: Lib, stored: Stored, snapshot: QualityGate.Snapshot): Stored {
    SettledAs(stored, Sound(lib, stored, snapshot), MeetsContract(lib, stored) && Reduces(lib, snapshot))
  }

  lemma {:induction false} FinalizeSettles(stored: Stored, issues: seq<Issue>, sound: bool, warns: bool)
    requires Publishable(issues) == sound && Warns(issues) == warns
    ensures Finalize(stored, issues) == SettledAs(stored, sound, warns)
  {
    if issues != [] {
      assert issues[0] in issues;
      assert issues[0].Error() || Warns(issues);
    }
  }

  // A validated report keeps its status unless the gate degrades it.
  lemma {:induction false} ValidatedStatus(lib: Lib, stored: Stored, snapshot: QualityGate.Snapshot)
    requires Settled(lib, stored, snapshot).lifecycle == Validated
    ensures Sound(lib, stored, snapshot) && stored.status != Incomplete
    ensures Settled(lib, stored, snapshot).status == if Reduces(lib, snapshot) then Reduced else stored.status
  {
    assert MeetsContract(lib, stored);
  }

  // validate_or_fallback without its store: validate a report and finalize it.
  method ValidateAndFinalize(lib: Lib, stored: Stored, snapshot: QualityGate.Snapshot) returns (final: Stored)
    ensures final == Settled(lib, stored, snapshot)
    ensures Agrees(final) && final.lifecycle != Generated
    ensures final.lifecycle == Validated <==> Sound(lib, stored, snapshot) && stored.status != Incomplete
    ensures final.status == (if final.lifecycle == Failed then Incomplete
                             else if Reduces(lib, snapshot) then Reduced else stored.status)
  {
    var issues := Validate(lib, stored, snapshot);
    FinalizeSettles(stored, issues, Sound(lib, stored, snapshot),
                    MeetsContract(lib, stored) && Reduces(lib, snapshot));
    final := Finalize(stored, issues);
    if final.lifecycle == Validated {
      ValidatedStatus(lib, stored, snapshot);
    }
  }

  lemma {:induction false} SoundSettles(lib: Lib, stored: Stored, snapshot: QualityGate.Snapshot)
    requires Sound(lib, stored, snapshot) && stored.status != Incomplete
    ensures Settled(lib, stored, snapshot) == SettledAs(stored, true, Reduces(lib, snapshot))
  {
    assert MeetsContract(lib, stored);
  }

  // Finalizing changes three flags of a report and, in its notice, text and count. The notice says
  // that everything passed, that the report is withheld, or that it is reduced.
  lemma {:induction false} FinalizedSays(stored: Stored, sound: bool, warns: bool)
    ensures var final := SettledAs(stored, sound, warns);
            && final.date == stored.date && final.snapshotId == stored.snapshotId
            && (final.payload.Some? <==> stored.payload.Some?)
    ensures stored.payload.Some? ==>
              var (before, status) := (stored.payload.value, SettledAs(stored, sound, warns).status);
              var after := SettledAs(stored, sound, warns).payload.value;
              && after == before.(status := status, published := status != Incomplete, qualityStatus := status,
                                  sections := after.sections)
              && after.sections.Keys == before.sections.Keys
              && (forall id <- after.sections | id != DataQualityNotice :: after.sections[id] == before.sections[id])
              && (DataQualityNotice in after.sections ==>
                    var notice := after.sections[DataQualityNotice];
                    && notice.text.Some? && IsNotice(notice.text.value, status, sound, warns)
                    && notice == before.sections[DataQualityNotice].(
                         text := notice.text, characterCount := |notice.text.value|))
  {}

  ghost predicate IsNotice(text: string, status: ReportStatus, sound: bool, warns: bool) {
    && (sound && !warns ==> text == "必需数据均已通过质量校验。")
    && ((!sound || warns) && status == Incomplete ==> text == "日报未发布：必需数据未满足质量校验。")
    && ((!sound || warns) && status != Incomplete ==> text == "部分可选数据不可用，日报已降级。")
  }

  // ---- What publication guarantees ----------------------------------------------------------------

  lemma {:induction false} LoadedFactIsRaw(lib: Lib, raws: seq<Dict>, id: string) returns (raw: Dict)
    requires id in LoadFacts(lib, raws)
    ensures raw in raws && AsText(Get(raw, "fact_id")) == Some(id) && LoadFacts(lib, raws)[id] == ReadFact(lib, raw)
  {
    var n := |raws| - 1;
    if AsText(Get(raws[n], "fact_id")) == Some(id) {
      raw := raws[n];
    } else {
      raw := LoadedFactIsRaw(lib, raws[..n], id);
    }
  }

  // A fact ID that some path inside some item of a section leads to.
  ghost predicate NamesFact(section: Section, id: string, i: nat, path: seq<nat>) {
    i < |section.items| && NamedAt(Obj(section.items[i]), "fact_ids", id, path)
  }

  ghost predicate Mentions(section: Section, id: string) {
    || id in section.factIds
    || (exists claim <- section.claims :: claim.factId == id)
    || (exists i: nat, path: seq<nat> :: NamesFact(section, id, i, path))
  }

  ghost predicate CitesSource(section: Section, id: string) {
    || id in section.sourceRefIds
    || (exists i: nat, path: seq<nat> ::
          i < |section.items| && NamedAt(Obj(section.items[i]), "source_ref_ids", id, path))
  }

  lemma {:induction false} ItemNames(items: seq<Dict>, key: string, id: string)
    ensures id in ItemIds(items, key) <==>
              exists i: nat, path: seq<nat> :: i < |items| && NamedAt(Obj(items[i]), key, id, path)
  {
    if id in ItemIds(items, key) {
      var i :| 0 <= i < |items| && id in Nested(Obj(items[i]), key);
      var path := NestedHasPath(Obj(items[i]), key, id);
    }
    if i: nat, path: seq<nat> :| i < |items| && NamedAt(Obj(items[i]), key, id, path) {
      PathIsNested(Obj(items[i]), key, id, path);
    }
  }

  lemma {:induction false} MentionedIsCited(section: Section, id: string)
    ensures Mentions(section, id) <==> id in CitedFacts(section)
    ensures CitesSource(section, id) <==> id in CitedSources(section)
  {
    ItemNames(section.items, "fact_ids", id);
    ItemNames(section.items, "source_ref_ids", id);
    if i: nat, path: seq<nat> :| i < |section.items| && NamedAt(Obj(section.items[i]), "fact_ids", id, path) {
      assert NamesFact(section, id, i, path);
    }
  }

  // `raw` is the snapshot's fact of that ID, was available in time, has a source the section
  // cites, and is what the section's claims about it say.
  ghost predicate Backs(lib: Lib, snapshot: QualityGate.Snapshot, section: Section, id: string, raw: Dict) {
    && raw in Dicts(snapshot.payload.facts) && AsText(Get(raw, "fact_id")) == Some(id)
    && InTime(lib, snapshot, raw)
    && (exists source <- OwnIds(Obj(raw), "source_ref_ids") :: CitesSource(section, source))
    && (forall claim <- section.claims | claim.factId == id :: Repeats(lib, claim, raw))
  }

  ghost predicate InTime(lib: Lib, snapshot: QualityGate.Snapshot, raw: Dict) {
    var availableAt := Parsed(Get(raw, "available_at"), lib.instant);
    Present(Get(raw, "available_at")) ==> availableAt.Some? && availableAt.value <= snapshot.cutoffAt
  }

  ghost predicate IsOfTheDay(lib: Lib, snapshot: QualityGate.Snapshot, raw: Dict) {
    Present(Get(raw, "report_date")) ==> Parsed(Get(raw, "report_date"), lib.day) == Some(snapshot.reportDate)
  }

  ghost predicate Repeats(lib: Lib, claim: Claim, raw: Dict) {
    && SaysTheSame(lib, claim.value, Get(raw, "value").GetOr(Null))
    && (claim.kind == Number ==> claim.unit == AsText(Get(raw, "unit")))
    && (claim.kind == Direction ==> claim.direction == AsText(Get(raw, "direction")))
    && claim.periodStart == Parsed(Get(raw, "period_start"), lib.day)
    && claim.periodEnd == Parsed(Get(raw, "period_end"), lib.day)
  }

  lemma {:induction false} SoundFactIsBacked(
      lib: Lib, snapshot: QualityGate.Snapshot, section: Section, id: string)
    returns (raw: Dict)
    requires SectionSound(lib, ApprovedBy(lib, snapshot), snapshot, section) && id in CitedFacts(section)
    ensures Backs(lib, snapshot, section, id, raw) && IsOfTheDay(lib, snapshot, raw)
  {
    var approved := ApprovedBy(lib, snapshot);
    assert FactSound(approved, snapshot, section, id);
    raw := LoadedFactIsRaw(lib, Dicts(snapshot.payload.facts), id);
    var source :| source in approved.facts[id].sourceIds * CitedSources(section);
    MentionedIsCited(section, source);
    forall claim | claim in section.claims && claim.factId == id ensures Repeats(lib, claim, raw) {
      assert ClaimSound(lib, approved, claim);
    }
  }

  // Every fact a validated report mentions, at any nesting depth or through a claim, is a fact
  // of the snapshot with no time after the cutoff and no other date, one of its sources is cited in
  // the very section, and every claim about it repeats it.
  lemma {:induction false} ValidatedReportIsBacked(
      lib: Lib, stored: Stored, snapshot: QualityGate.Snapshot, id: SectionId, fact: string)
    returns (raw: Dict)
    requires Sound(lib, stored, snapshot) && id in REQUIRED_SECTIONS
    requires Mentions(stored.payload.value.sections[id], fact)
    ensures fact in snapshot.factIds
    ensures Backs(lib, snapshot, stored.payload.value.sections[id], fact, raw) && IsOfTheDay(lib, snapshot, raw)
  {
    var report := stored.payload.value;
    var section := report.sections[id];
    MentionedIsCited(section, fact);
    raw := SoundFactIsBacked(lib, snapshot, section, fact);
    var sources := ReadSources(report.sections[SourceReferences].items, lib.read).value;
    assert Meets(SetOf(report.snapshot.factIds), SourceIds(sources))(section);
    assert fact in FactRefs(section);
  }

  // Every claim of a validated report says what its fact says: a number is the fact's number, or
  // what the fact's text reads as; anything else is the very value, and never a boolean. A number
  // has the fact's unit, a direction its direction, and every claim its period.
  lemma {:induction false} ValidatedClaimsSayWhatFactsSay(
      lib: Lib, stored: Stored, snapshot: QualityGate.Snapshot, id: SectionId, claim: Claim)
    returns (raw: Dict)
    requires Sound(lib, stored, snapshot) && id in REQUIRED_SECTIONS
    requires claim in stored.payload.value.sections[id].claims
    ensures raw in Dicts(snapshot.payload.facts) && AsText(Get(raw, "fact_id")) == Some(claim.factId)
    ensures var value := Get(raw, "value").GetOr(Null);
            && (claim.value.Int? && value.Int? ==> claim.value.number == value.number)
            && (claim.value.Int? && value.Float? ==> claim.value.number as real == value.measure)
            && (claim.value.Float? && value.Int? ==> claim.value.measure == value.number as real)
            && (claim.value.Float? && value.Float? ==> claim.value.measure == value.measure)
            && (claim.value.Int? && value.Str? ==> lib.decimal(value.text) == Some(claim.value.number as real))
            && (claim.value.Float? && value.Str? ==> lib.decimal(value.text) == Some(claim.value.measure))
            && (claim.value.Int? || claim.value.Float? ==> value.Int? || value.Float? || value.Str?)
            && (!claim.value.Int? && !claim.value.Float? ==> claim.value == value && !value.Bool?)
    ensures claim.kind == Number ==> claim.unit == AsText(Get(raw, "unit"))
    ensures claim.kind == Direction ==> claim.direction == AsText(Get(raw, "direction"))
    ensures claim.periodStart == Parsed(Get(raw, "period_start"), lib.day)
    ensures claim.periodEnd == Parsed(Get(raw, "period_end"), lib.day)
  {
    raw := ClaimIsRepeated(lib, stored, snapshot, id, claim);
    RepeatedValue(lib, claim.value, Get(raw, "value").GetOr(Null));
  }

  lemma {:induction false} ClaimIsRepeated(
      lib: Lib, stored: Stored, snapshot: QualityGate.Snapshot, id: SectionId, claim: Claim)
    returns (raw: Dict)
    requires Sound(lib, stored, snapshot) && id in REQUIRED_SECTIONS
    requires claim in stored.payload.value.sections[id].claims
    ensures raw in Dicts(snapshot.payload.facts) && AsText(Get(raw, "fact_id")) == Some(claim.factId)
    ensures Repeats(lib, claim, raw)
  {
    var section := stored.payload.value.sections[id];
    assert claim.factId in CitedFacts(section);
    raw := SoundFactIsBacked(lib, snapshot, section, claim.factId);
  }

  lemma {:induction false} RepeatedValue(lib: Lib, said: Json, value: Json)
    requires SaysTheSame(lib, said, value)
    ensures said.Int? && value.Int? ==> said.number == value.number
    ensures said.Int? && value.Float? ==> said.number as real == value.measure
    ensures said.Float? && value.Int? ==> said.measure == value.number as real
    ensures said.Float? && value.Float? ==> said.measure == value.measure
    ensures said.Int? && value.Str? ==> lib.decimal(value.text) == Some(said.number as real)
    ensures said.Float? && value.Str? ==> lib.decimal(value.text) == Some(said.measure)
    ensures said.Int? || said.Float? ==> value.Int? || value.Float? || value.Str?
    ensures !said.Int? && !said.Float? ==> said == value && !value.Bool?
  {}

  // An ID that some path inside some claim's value leads to. The contract looks there, the
  // validator's own checks do not.
  ghost predicate NamedByClaim(section: Section, key: string, id: string, i: nat, path: seq<nat>) {
    i < |section.claims| && NamedAt(section.claims[i].value, key, id, path)
  }

  ghost predicate Reaches(section: Section, id: string) {
    Mentions(section, id) || exists i: nat, path: seq<nat> :: NamedByClaim(section, "fact_ids", id, i, path)
  }

  ghost predicate ReachesSource(section: Section, id: string) {
    CitesSource(section, id) || exists i: nat, path: seq<nat> :: NamedByClaim(section, "source_ref_ids", id, i, path)
  }

  lemma {:induction false} ClaimNames(section: Section, key: string, id: string)
    ensures id in ClaimValueIds(section.claims, key) <==>
              exists i: nat, path: seq<nat> :: NamedByClaim(section, key, id, i, path)
  {
    if id in ClaimValueIds(section.claims, key) {
      var i :| 0 <= i < |section.claims| && id in Nested(section.claims[i].value, key);
      var path := NestedHasPath(section.claims[i].value, key, id);
      assert NamedByClaim(section, key, id, i, path);
    }
    if i: nat, path: seq<nat> :| NamedByClaim(section, key, id, i, path) {
      PathIsNested(section.claims[i].value, key, id, path);
    }
  }

  // What the contract collects is what paths lead to.
  lemma {:induction false} ReachedIsReferred(section: Section, id: string)
    ensures Reaches(section, id) <==> id in FactRefs(section)
    ensures ReachesSource(section, id) <==> id in SourceRefs(section)
  {
    MentionedIsCited(section, id);
    ClaimNames(section, "fact_ids", id);
    ClaimNames(section, "source_ref_ids", id);
  }

  // Every fact a validated report reaches, claim values included, is one of the facts the
  // snapshot materialized.
  lemma {:induction false} ReachedFactIsMaterialized(
      lib: Lib, stored: Stored, snapshot: QualityGate.Snapshot, id: SectionId, fact: string)
    returns (raw: Dict)
    requires Sound(lib, stored, snapshot) && id in REQUIRED_SECTIONS
    requires Reaches(stored.payload.value.sections[id], fact)
    ensures fact in snapshot.factIds
    ensures raw in Dicts(snapshot.payload.facts) && AsText(Get(raw, "fact_id")) == Some(fact)
  {
    var report := stored.payload.value;
    var section := report.sections[id];
    ReachedIsReferred(section, fact);
    var sources := ReadSources(report.sections[SourceReferences].items, lib.read).value;
    assert Meets(SetOf(report.snapshot.factIds), SourceIds(sources))(section);
    FactsWereChecked(lib, snapshot);
    raw := ListedFactIsRaw(snapshot, fact);
  }

  // A gate without an error has seen that the listed fact IDs are those of the facts.
  lemma {:induction false} FactsWereChecked(lib: Lib, snapshot: QualityGate.Snapshot)
    requires NoErrors(QualityGate.Issues(snapshot, lib.iso))
    ensures QualityGate.HasFacts(snapshot)
  {
    var issue := QualityGate.Issue("report.facts", QualityGate.FactsUnavailable, true);
    if !QualityGate.HasFacts(snapshot) {
      assert issue in QualityGate.FactIssues(snapshot);
      assert issue in QualityGate.Issues(snapshot, lib.iso) && IsError(issue);
    }
  }

  lemma {:induction false} ListedFactIsRaw(snapshot: QualityGate.Snapshot, fact: string) returns (raw: Dict)
    requires QualityGate.HasFacts(snapshot) && fact in snapshot.factIds
    ensures raw in Dicts(snapshot.payload.facts) && AsText(Get(raw, "fact_id")) == Some(fact)
  {
    var items := snapshot.payload.facts.items;
    var i :| 0 <= i < |snapshot.factIds| && snapshot.factIds[i] == fact;
    assert DayPolicy.Strings(snapshot.factIds)[i] in DayPolicy.Strings(snapshot.factIds);
    assert Str(fact) in QualityGate.Elements(QualityGate.FactIds(items).value);
    raw := FactIdHasRaw(items, fact);
  }

  lemma {:induction false} FactIdHasRaw(items: seq<Json>, fact: string) returns (raw: Dict)
    requires QualityGate.FactIds(items).Some? && Str(fact) in QualityGate.FactIds(items).value
    ensures raw in OnlyDicts(items) && AsText(Get(raw, "fact_id")) == Some(fact)
  {
    var n := |items| - 1;
    if Get(items[n].fields, "fact_id") == Some(Str(fact)) {
      raw := items[n].fields;
    } else {
      raw := FactIdHasRaw(items[..n], fact);
    }
  }

  // Every source a validated report cites, at any depth and in claim values too, is a snapshot
  // source.
  lemma {:induction false} CitedSourcesAreApproved(
      lib: Lib, stored: Stored, snapshot: QualityGate.Snapshot, id: SectionId, source: string)
    requires Sound(lib, stored, snapshot) && id in REQUIRED_SECTIONS
    requires ReachesSource(stored.payload.value.sections[id], source)
    ensures exists raw <- Dicts(snapshot.payload.sources) :: AsText(Get(raw, "source_ref_id")) == Some(source)
  {
    var report := stored.payload.value;
    var section := report.sections[id];
    ReachedIsReferred(section, source);
    var sources := ReadSources(report.sections[SourceReferences].items, lib.read).value;
    assert Meets(SetOf(report.snapshot.factIds), SourceIds(sources))(section);
    var one :| one in sources && one.id == source;
    assert SourceSound(ApprovedBy(lib, snapshot), one);
    var raw := LoadedSourceIsRaw(Dicts(snapshot.payload.sources), source);
  }

  // Every source a validated report lists is the snapshot's, field by field: the seven fixed ones,
  // and whether it may be shown to a language model if the snapshot says so.
  lemma {:induction false} ListedSourcesAreTheSnapshots(
      lib: Lib, stored: Stored, snapshot: QualityGate.Snapshot, source: Source)
    returns (raw: Dict)
    requires Sound(lib, stored, snapshot)
    requires source in ReadSources(stored.payload.value.sections[SourceReferences].items, lib.read).value
    ensures raw in Dicts(snapshot.payload.sources) && AsText(Get(raw, "source_ref_id")) == Some(source.id)
    ensures var fixed := {"source_ref_id", "provider_id", "provider_record_id", "source_name", "source_url",
                          "retrieved_at", "checksum_sha256"};
            && (forall key <- fixed :: key in source.record && source.record[key] == Get(raw, key).GetOr(Null))
            && ("external_llm_allowed" in source.record <==> Present(Get(raw, "external_llm_allowed")))
            && ("external_llm_allowed" in source.record ==>
                  Get(raw, "external_llm_allowed") == Some(source.record["external_llm_allowed"]))
            && source.record.Keys <= fixed + {"external_llm_allowed"}
  {
    assert SourceSound(ApprovedBy(lib, snapshot), source);
    raw := LoadedSourceIsRaw(Dicts(snapshot.payload.sources), source.id);
    RecordHolds(raw);
  }

  lemma {:induction false} RecordHolds(raw: Dict)
    ensures var fixed := {"source_ref_id", "provider_id", "provider_record_id", "source_name", "source_url",
                          "retrieved_at", "checksum_sha256"};
            && "external_llm_allowed" !in fixed
            && (forall key <- fixed :: key in Record(raw) && Record(raw)[key] == Get(raw, key).GetOr(Null))
            && ("external_llm_allowed" in Record(raw) <==> Present(Get(raw, "external_llm_allowed")))
            && ("external_llm_allowed" in Record(raw) ==>
                  Get(raw, "external_llm_allowed") == Some(Record(raw)["external_llm_allowed"]))
            && Record(raw).Keys <= fixed + {"external_llm_allowed"}
  {
    var fixed := {"source_ref_id", "provider_id", "provider_record_id", "source_name", "source_url",
                  "retrieved_at", "checksum_sha256"};
    forall key ensures key in fixed <==> key in SOURCE_KEYS {
      assert SOURCE_KEYS == ["source_ref_id", "provider_id", "provider_record_id", "source_name", "source_url",
                             "retrieved_at", "checksum_sha256"];
    }
    var flag := "external_llm_allowed";
    assert flag[0] == 'e' && forall key <- fixed :: key[0] != 'e';
  }

  lemma {:induction false} LoadedSourceIsRaw(raws: seq<Dict>, id: string) returns (raw: Dict)
    requires id in LoadSources(raws)
    ensures raw in raws && AsText(Get(raw, "source_ref_id")) == Some(id) && LoadSources(raws)[id] == Record(raw)
  {
    var n := |raws| - 1;
    if AsText(Get(raws[n], "source_ref_id")) == Some(id) {
      raw := raws[n];
    } else {
      raw := LoadedSourceIsRaw(raws[..n], id);
    }
  }

  // Rewriting the notice counts only its text: the finalized payload still meets the contract
  // exactly when the notice has no visible item and leaves room for the text.
  lemma {:induction false} FinalizedMeetsContractExactlyWhen(
      lib: Lib, report: Report, status: ReportStatus, text: string)
    requires Holds(report, lib.read)
    ensures Holds(Finalized(report, status, text), lib.read) <==>
              var notice := report.sections[DataQualityNotice];
              VisibleItems(notice.items) == "" && |text| <= notice.maxCharacters
  {
    var notice := report.sections[DataQualityNotice];
    var sources := ReadSources(report.sections[SourceReferences].items, lib.read).value;
    var meets := Meets(SetOf(report.snapshot.factIds), SourceIds(sources));
    assert meets(notice);
    NoticeMeetsExactlyWhen(notice, text, SetOf(report.snapshot.factIds), SourceIds(sources));
    NoticeReplaced(report.sections, Rewritten(notice, text), meets);
    FinalizedHolds(lib, report, status, text, sources);
  }

  lemma {:induction false} FinalizedHolds(
      lib: Lib, report: Report, status: ReportStatus, text: string, sources: seq<Source>)
    requires HasTheSections(report.sections)
    requires ReadSources(report.sections[SourceReferences].items, lib.read) == Some(sources) && UniqueSources(sources)
    ensures var after := report.sections[DataQualityNotice := Rewritten(report.sections[DataQualityNotice], text)];
            Holds(Finalized(report, status, text), lib.read) <==>
              HasTheSections(after) && AllMeet(after, Meets(SetOf(report.snapshot.factIds), SourceIds(sources)))
  {
    assert DataQualityNotice in report.sections;
    assert Finalized(report, status, text).sections[SourceReferences] == report.sections[SourceReferences];
  }

  lemma {:induction false} NoticeReplaced(sections: map<SectionId, Section>, notice: Section, meets: Section -> bool)
    requires HasTheSections(sections) && AllMeet(sections, meets) && notice.id == DataQualityNotice
    ensures HasTheSections(sections[DataQualityNotice := notice])
    ensures AllMeet(sections[DataQualityNotice := notice], meets) <==> meets(notice)
  {
    var after := sections[DataQualityNotice := notice];
    assert DataQualityNotice in sections;
    assert after.Keys == sections.Keys;
    assert after[DataQualityNotice] == notice;
  }

  lemma {:induction false} NoticeMeetsExactlyWhen(
      section: Section, text: string, facts: set<string>, sources: set<string>)
    requires SectionMeets(section, facts, sources)
    ensures SectionMeets(Rewritten(section, text), facts, sources)
       <==> VisibleItems(section.items) == "" && |text| <= section.maxCharacters
  {
    var rewritten := Rewritten(section, text);
    assert Visible(rewritten) == text + VisibleItems(section.items);
    assert FactRefs(rewritten) == FactRefs(section) && SourceRefs(rewritten) == SourceRefs(section);
  }
}
