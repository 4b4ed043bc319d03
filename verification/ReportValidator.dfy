/** Validation of a generated report against the snapshot it was generated from. */
module ReportValidator {
  import opened Json
  import opened Prelude
  import opened ReportContract
  import QualityGate

  // Library behaviour: zoned timestamps, ISO dates, decimal texts, source records.
  datatype Lib = Lib(
    iso: int -> string, instant: string -> Option<int>, day: string -> Option<int>,
    decimal: string -> Option<real>, read: Dict -> Option<Source>)

  datatype Lifecycle = Generated | Validated | Failed

  // The stored row and the payload it carries; None is a payload of another shape.
  datatype Stored = Stored(
    date: int, snapshotId: string, status: ReportStatus, published: bool, lifecycle: Lifecycle,
    payload: Option<Report>)

  // ---- What the snapshot approves ---------------------------------------------------------------

  datatype Fact = Fact(
    value: Json, unit: Option<string>, direction: Option<string>, availableAt: Option<int>, reportDate: Option<int>,
    periodStart: Option<int>, periodEnd: Option<int>, sourceIds: set<string>,
    invalidAvailableAt: bool, invalidReportDate: bool)

  function Parsed<T>(value: Option<Json>, parse: string -> Option<T>): Option<T> {
    match AsText(value) case None => None case Some(text) => parse(text)
  }

  predicate Present(value: Option<Json>) {
    value.Some? && value.value != Null
  }

  // A field is there if it has a value other than null, and is parsed if that is a text.
  lemma {:induction false} OnlyTextsAreParsed<T>(value: Option<Json>, parse: string -> Option<T>)
    ensures Present(value) <==> value.Some? && !value.value.Null?
    ensures value.Some? && value.value.Str? ==> Parsed(value, parse) == parse(value.value.text)
    ensures value.None? || !value.value.Str? ==> Parsed(value, parse).None?
  {}

  function ReadFact(lib: Lib, raw: Dict): Fact {
    var availableAt := Parsed(Get(raw, "available_at"), lib.instant);
    var reportDate := Parsed(Get(raw, "report_date"), lib.day);
    Fact(Get(raw, "value").GetOr(Null), AsText(Get(raw, "unit")), AsText(Get(raw, "direction")),
         availableAt, reportDate, Parsed(Get(raw, "period_start"), lib.day), Parsed(Get(raw, "period_end"), lib.day),
         OwnIds(Obj(raw), "source_ref_ids"),
         Present(Get(raw, "available_at")) && availableAt.None?,
         Present(Get(raw, "report_date")) && reportDate.None?)
  }

  function Dicts(value: Json): seq<Dict> {
    match value case Arr(items) => OnlyDicts(items) case _ => []
  }

  function OnlyDicts(items: seq<Json>): seq<Dict> {
    if items == [] then []
    else OnlyDicts(items[..|items| - 1]) + (match items[|items| - 1] case Obj(fields) => [fields] case _ => [])
  }

  // A later fact of the same ID replaces an earlier one.
  function LoadFacts(lib: Lib, raws: seq<Dict>): map<string, Fact> {
    if raws == [] then map[]
    else
      var last := raws[|raws| - 1];
      var front := LoadFacts(lib, raws[..|raws| - 1]);
      match AsText(Get(last, "fact_id")) case None => front case Some(id) => front[id := ReadFact(lib, last)]
  }

  const SOURCE_KEYS := ["source_ref_id", "provider_id", "provider_record_id", "source_name", "source_url",
                        "retrieved_at", "checksum_sha256"]

  // _source_record: every key, and external_llm_allowed only if it has a value.
  function Record(raw: Dict): map<string, Json> {
    var fixed := map key | key in SOURCE_KEYS :: Get(raw, key).GetOr(Null);
    if Present(Get(raw, "external_llm_allowed"))
    then fixed["external_llm_allowed" := Get(raw, "external_llm_allowed").value] else fixed
  }

  function LoadSources(raws: seq<Dict>): map<string, map<string, Json>> {
    if raws == [] then map[]
    else
      var last := raws[|raws| - 1];
      var front := LoadSources(raws[..|raws| - 1]);
      match AsText(Get(last, "source_ref_id")) case None => front case Some(id) => front[id := Record(last)]
  }

  // Numbers, and texts against numbers, compare as decimals; Python counts a boolean as a number
  // but no boolean reads as a decimal.
  function AsDecimal(lib: Lib, value: Json): Option<real> {
    match value
    case Int(n) => Some(n as real)
    case Float(x) => Some(x)
    case Str(s) => lib.decimal(s)
    case _ => None
  }

  predicate ValuesEqual(lib: Lib, left: Json, right: Json) {
    if (left.Int? || left.Float? || left.Bool?) && (right.Int? || right.Float? || right.Bool? || right.Str?) then
      AsDecimal(lib, left).Some? && AsDecimal(lib, left) == AsDecimal(lib, right)
    else left == right
  }

  // What a claim's value and the fact's value have to be to each other, said of the values: two
  // numbers are the same real number, a number and a text are if the text reads as that number,
  // no boolean agrees with a number, a text or a boolean, and everything else agrees if it is equal.
  predicate IsNumber(value: Json) { value.Int? || value.Float? }

  function RealOf(value: Json): real
    requires IsNumber(value)
  {
    if value.Int? then value.number as real else value.measure
  }

  predicate SaysTheSame(lib: Lib, said: Json, fact: Json) {
    && (IsNumber(said) && IsNumber(fact) ==> RealOf(said) == RealOf(fact))
    && (IsNumber(said) && fact.Str? ==> lib.decimal(fact.text) == Some(RealOf(said)))
    && (said.Bool? ==> !IsNumber(fact) && !fact.Bool? && !fact.Str?)
    && (fact.Bool? ==> !IsNumber(said) && !said.Bool?)
    && (!(IsNumber(said) && (IsNumber(fact) || fact.Str?)) && !(said.Bool? && fact.Str?) ==> said == fact)
  }

  lemma {:induction false} ValuesEqualMeans(lib: Lib, said: Json, fact: Json)
    ensures ValuesEqual(lib, said, fact) <==> SaysTheSame(lib, said, fact)
  {}

  // ---- What a report has to satisfy -------------------------------------------------------------

  // The gate's issue as the validator reports it: REVISED_ and optional issues only warn.
  predicate IsError(issue: QualityGate.Issue) {
    issue.required && issue.code != QualityGate.HasStatus(QualityGate.Revised)
  }

  datatype Approved = Approved(facts: map<string, Fact>, sources: map<string, map<string, Json>>)

  function ApprovedBy(lib: Lib, snapshot: QualityGate.Snapshot): Approved {
    Approved(LoadFacts(lib, Dicts(snapshot.payload.facts)), LoadSources(Dicts(snapshot.payload.sources)))
  }

  // IDs the section itself and its items cite; claim values are not searched here.
  function CitedFacts(section: Section): set<string> {
    SetOf(section.factIds) + ItemIds(section.items, "fact_ids") + ClaimFacts(section.claims)
  }

  function CitedSources(section: Section): set<string> {
    SetOf(section.sourceRefIds) + ItemIds(section.items, "source_ref_ids")
  }

  predicate FactSound(approved: Approved, snapshot: QualityGate.Snapshot, section: Section, id: string) {
    && id in approved.facts
    && var fact := approved.facts[id];
       && fact.sourceIds <= approved.sources.Keys
       && !fact.invalidAvailableAt && !fact.invalidReportDate
       && (fact.availableAt.Some? ==> fact.availableAt.value <= snapshot.cutoffAt)
       && (fact.reportDate.Some? ==> fact.reportDate.value == snapshot.reportDate)
       && fact.sourceIds * CitedSources(section) != {}
  }

  predicate ClaimSound(lib: Lib, approved: Approved, claim: Claim) {
    && claim.factId in approved.facts
    && var fact := approved.facts[claim.factId];
       && ValuesEqual(lib, claim.value, fact.value)
       && (claim.kind == Number ==> claim.unit == fact.unit)
       && (claim.kind == Direction ==> claim.direction == fact.direction)
       && claim.periodStart == fact.periodStart && claim.periodEnd == fact.periodEnd
  }

  predicate SectionSound(lib: Lib, approved: Approved, snapshot: QualityGate.Snapshot, section: Section) {
    && CitedSources(section) <= approved.sources.Keys
    && (forall id <- CitedFacts(section) :: FactSound(approved, snapshot, section, id))
    && (forall claim <- section.claims :: ClaimSound(lib, approved, claim))
  }

  predicate SourceSound(approved: Approved, source: Source) {
    source.id in approved.sources && approved.sources[source.id] == source.record
  }

  predicate SameIdentity(report: Report, snapshot: QualityGate.Snapshot) {
    && report.snapshot == SnapshotRef(snapshot.id, snapshot.version, snapshot.asOf, snapshot.cutoffAt,
                                      snapshot.fingerprint, snapshot.factIds)
  }

  predicate SectionsSound(lib: Lib, approved: Approved, snapshot: QualityGate.Snapshot,
                          sections: map<SectionId, Section>, ids: set<SectionId>)
  {
    forall id <- ids :: id in sections && SectionSound(lib, approved, snapshot, sections[id])
  }

  predicate SourcesSound(approved: Approved, sources: seq<Source>) {
    forall source <- sources :: SourceSound(approved, source)
  }

  predicate NoErrors(quality: seq<QualityGate.Issue>) {
    forall issue <- quality :: !IsError(issue)
  }

  ghost predicate Sound(lib: Lib, stored: Stored, snapshot: QualityGate.Snapshot) {
    && stored.payload.Some? && Holds(stored.payload.value, lib.read)
    && stored.date == snapshot.reportDate && stored.snapshotId == snapshot.id
    && SameIdentity(stored.payload.value, snapshot)
    && stored.payload.value.status != Incomplete
    && NoErrors(QualityGate.Issues(snapshot, lib.iso))
    && var approved := ApprovedBy(lib, snapshot);
       var report := stored.payload.value;
       && SourcesSound(approved, ReadSources(report.sections[SourceReferences].items, lib.read).value)
       && SectionsSound(lib, approved, snapshot, report.sections, REQUIRED_SECTIONS)
  }

  // ---- The validator, step by step --------------------------------------------------------------

  datatype Code =
    | ContractInvalid | DateMismatch | SnapshotIdMismatch | IdentityMismatch | ReportIncomplete
    | InputQuality(issue: QualityGate.Issue)
    | SourceNotInSnapshot | SourceRecordMismatch
    | FactNotMaterialized | AvailableAtInvalid | ReportDateInvalid | AfterCutoff | FactDateMismatch | FactUncited
    | ClaimFactNotFound | ValueMismatch | UnitMismatch | DirectionMismatch | PeriodMismatch

  datatype Issue = Issue(code: Code, subject: string) {
    predicate Error() { code.InputQuality? ==> IsError(code.issue) }
  }

  predicate Publishable(issues: seq<Issue>) {
    forall issue <- issues :: !issue.Error()
  }

  predicate Warns(issues: seq<Issue>) {
    exists issue <- issues :: !issue.Error()
  }

  // `longer` adds an error exactly when `ok` fails, and no warning.
  predicate Adds(issues: seq<Issue>, longer: seq<Issue>, ok: bool) {
    && (Publishable(longer) <==> Publishable(issues) && ok)
    && (Warns(longer) <==> Warns(issues))
  }

  lemma {:induction false} OneMore(issues: seq<Issue>, issue: Issue)
    ensures Publishable(issues + [issue]) <==> Publishable(issues) && !issue.Error()
    ensures Warns(issues + [issue]) <==> Warns(issues) || !issue.Error()
  {
    assert issue in issues + [issue];
    assert forall x | x in issues :: x in issues + [issue];
  }

  // _append_source_issues: an ID is reported once for the whole report.
  method AppendSourceIssues(issues: seq<Issue>, ids: set<string>, known: set<string>, checked: set<string>)
    returns (longer: seq<Issue>, seen: set<string>)
    requires Publishable(issues) ==> checked <= known
    ensures seen == checked + ids
    ensures Adds(issues, longer, ids <= known)
    ensures Publishable(longer) ==> seen <= known
  {
    longer, seen := issues, checked;
    var todo := ids - checked;
    while todo != {}
      invariant todo <= ids && seen == checked + (ids - todo)
      invariant Adds(issues, longer, ids - todo <= known)
      decreases todo
    {
      var id :| id in todo;
      seen := seen + {id};
      if id !in known {
        OneMore(longer, Issue(SourceNotInSnapshot, id));
        longer := longer + [Issue(SourceNotInSnapshot, id)];
      }
      todo := todo - {id};
    }
  }

  method CheckFact(issues: seq<Issue>, approved: Approved, snapshot: QualityGate.Snapshot, section: Section,
                   id: string, checked: set<string>)
    returns (longer: seq<Issue>, seen: set<string>)
    requires Publishable(issues) ==> checked <= approved.sources.Keys
    ensures Adds(issues, longer, FactSound(approved, snapshot, section, id))
    ensures Publishable(longer) ==> seen <= approved.sources.Keys
  {
    longer, seen := issues, checked;
    if id !in approved.facts {
      OneMore(longer, Issue(FactNotMaterialized, id));
      longer := longer + [Issue(FactNotMaterialized, id)];
      return;
    }
    var fact := approved.facts[id];
    longer, seen := AppendSourceIssues(longer, fact.sourceIds, approved.sources.Keys, seen);
    if fact.invalidAvailableAt {
      longer := Append(longer, AvailableAtInvalid, id);
    }
    if fact.invalidReportDate {
      longer := Append(longer, ReportDateInvalid, id);
    }
    if fact.availableAt.Some? && fact.availableAt.value > snapshot.cutoffAt {
      longer := Append(longer, AfterCutoff, id);
    }
    if fact.reportDate.Some? && fact.reportDate.value != snapshot.reportDate {
      longer := Append(longer, FactDateMismatch, id);
    }
    if fact.sourceIds == {} || CitedSources(section) * fact.sourceIds == {} {
      longer := Append(longer, FactUncited, id);
    }
  }

  method Append(issues: seq<Issue>, code: Code, subject: string) returns (longer: seq<Issue>)
    requires !code.InputQuality?
    ensures longer == issues + [Issue(code, subject)] && Adds(issues, longer, false)
  {
    OneMore(issues, Issue(code, subject));
    longer := issues + [Issue(code, subject)];
  }

  // What a claim has to repeat of its fact.
  predicate Agrees(lib: Lib, claim: Claim, fact: Fact) {
    && SaysTheSame(lib, claim.value, fact.value)
    && (claim.kind == Number ==> claim.unit == fact.unit)
    && (claim.kind == Direction ==> claim.direction == fact.direction)
    && claim.periodStart == fact.periodStart && claim.periodEnd == fact.periodEnd
  }

  method CheckClaim(issues: seq<Issue>, lib: Lib, approved: Approved, claim: Claim) returns (longer: seq<Issue>)
    ensures Adds(issues, longer, ClaimSound(lib, approved, claim))
    ensures Publishable(longer) <==>
              Publishable(issues) && claim.factId in approved.facts && Agrees(lib, claim, approved.facts[claim.factId])
    ensures Publishable(issues) && Publishable(longer) ==> longer == issues
  {
    longer := issues;
    if claim.factId !in approved.facts {
      longer := Append(longer, ClaimFactNotFound, claim.factId);
      return;
    }
    var fact := approved.facts[claim.factId];
    if !ValuesEqual(lib, claim.value, fact.value) {
      longer := Append(longer, ValueMismatch, claim.factId);
    }
    if claim.kind == Number && claim.unit != fact.unit {
      longer := Append(longer, UnitMismatch, claim.factId);
    }
    if claim.kind == Direction && claim.direction != fact.direction {
      longer := Append(longer, DirectionMismatch, claim.factId);
    }
    if (claim.periodStart, claim.periodEnd) != (fact.periodStart, fact.periodEnd) {
      longer := Append(longer, PeriodMismatch, claim.factId);
    }
  }

  method CheckFacts(issues: seq<Issue>, approved: Approved, snapshot: QualityGate.Snapshot, section: Section,
                    checked: set<string>)
    returns (longer: seq<Issue>, seen: set<string>)
    requires Publishable(issues) ==> checked <= approved.sources.Keys
    ensures Adds(issues, longer, forall id <- CitedFacts(section) :: FactSound(approved, snapshot, section, id))
    ensures Publishable(longer) ==> seen <= approved.sources.Keys
  {
    longer, seen := issues, checked;
    var todo := CitedFacts(section);
    while todo != {}
      invariant todo <= CitedFacts(section)
      invariant Adds(issues, longer,
                       forall id <- CitedFacts(section) - todo :: FactSound(approved, snapshot, section, id))
      invariant Publishable(longer) ==> seen <= approved.sources.Keys
      decreases todo
    {
      var id :| id in todo;
      longer, seen := CheckFact(longer, approved, snapshot, section, id, seen);
      assert CitedFacts(section) - (todo - {id}) == (CitedFacts(section) - todo) + {id};
      todo := todo - {id};
    }
    assert CitedFacts(section) - todo == CitedFacts(section);
  }

  method CheckClaims(issues: seq<Issue>, lib: Lib, approved: Approved, claims: seq<Claim>) returns (longer: seq<Issue>)
    ensures Adds(issues, longer, forall claim <- claims :: ClaimSound(lib, approved, claim))
  {
    longer := issues;
    for n := 0 to |claims|
      invariant Adds(issues, longer, forall i | 0 <= i < n :: ClaimSound(lib, approved, claims[i]))
    {
      longer := CheckClaim(longer, lib, approved, claims[n]);
    }
    assert forall claim :: claim in claims <==> exists i :: 0 <= i < |claims| && claims[i] == claim;
  }

  method CheckSection(issues: seq<Issue>, lib: Lib, approved: Approved, snapshot: QualityGate.Snapshot,
                      section: Section, checked: set<string>)
    returns (longer: seq<Issue>, seen: set<string>)
    requires Publishable(issues) ==> checked <= approved.sources.Keys
    ensures Adds(issues, longer, SectionSound(lib, approved, snapshot, section))
    ensures Publishable(longer) ==> seen <= approved.sources.Keys
  {
    longer, seen := AppendSourceIssues(issues, CitedSources(section), approved.sources.Keys, checked);
    longer, seen := CheckFacts(longer, approved, snapshot, section, seen);
    longer := CheckClaims(longer, lib, approved, section.claims);
  }

  method CheckSourceRecords(issues: seq<Issue>, approved: Approved, sources: seq<Source>) returns (longer: seq<Issue>)
    ensures Adds(issues, longer, SourcesSound(approved, sources))
  {
    longer := issues;
    for n := 0 to |sources|
      invariant Adds(issues, longer, forall i | 0 <= i < n :: SourceSound(approved, sources[i]))
    {
      var source := sources[n];
      if source.id !in approved.sources {
        longer := Append(longer, SourceNotInSnapshot, source.id);
      } else if approved.sources[source.id] != source.record {
        longer := Append(longer, SourceRecordMismatch, source.id);
      }
    }
    assert forall source :: source in sources <==> exists i :: 0 <= i < |sources| && sources[i] == source;
  }

  method AppendQuality(issues: seq<Issue>, quality: seq<QualityGate.Issue>) returns (longer: seq<Issue>)
    ensures longer == issues + QualityIssues(quality)
    ensures Publishable(longer) <==> Publishable(issues) && NoErrors(quality)
    ensures Warns(longer) <==> Warns(issues) || exists issue <- quality :: !IsError(issue)
  {
    longer := issues;
    for n := 0 to |quality|
      invariant longer == issues + QualityIssues(quality)[..n]
      invariant Publishable(longer) <==> Publishable(issues) && forall i | 0 <= i < n :: !IsError(quality[i])
      invariant Warns(longer) <==> Warns(issues) || exists i :: 0 <= i < n && !IsError(quality[i])
    {
      OneMore(longer, Issue(InputQuality(quality[n]), quality[n].inputId));
      longer := longer + [Issue(InputQuality(quality[n]), quality[n].inputId)];
    }
    assert forall issue :: issue in quality <==> exists i :: 0 <= i < |quality| && quality[i] == issue;
  }

  function QualityIssues(quality: seq<QualityGate.Issue>): (issues: seq<Issue>)
    ensures |issues| == |quality|
    ensures forall i | 0 <= i < |quality| :: issues[i] == Issue(InputQuality(quality[i]), quality[i].inputId)
  {
    seq(|quality|, i requires 0 <= i < |quality| => Issue(InputQuality(quality[i]), quality[i].inputId))
  }

  // The comparison of the stored identity and the payload's snapshot reference.
  method CheckIdentity(stored: Stored, report: Report, snapshot: QualityGate.Snapshot) returns (issues: seq<Issue>)
    ensures !Warns(issues)
    ensures Publishable(issues) <==>
              && stored.date == snapshot.reportDate && stored.snapshotId == snapshot.id
              && SameIdentity(report, snapshot) && report.status != Incomplete
  {
    issues := [];
    if stored.date != snapshot.reportDate {
      issues := Append(issues, DateMismatch, snapshot.id);
    }
    if stored.snapshotId != snapshot.id {
      issues := Append(issues, SnapshotIdMismatch, snapshot.id);
    }
    var reference := report.snapshot;
    if reference.id != snapshot.id || reference.version != snapshot.version || reference.asOf != snapshot.asOf
       || reference.cutoffAt != snapshot.cutoffAt || reference.fingerprint != snapshot.fingerprint
       || reference.factIds != snapshot.factIds {
      issues := Append(issues, IdentityMismatch, snapshot.id);
    }
    if report.status == Incomplete {
      issues := Append(issues, ReportIncomplete, "");
    }
  }

  // The gate found something that only degrades the report.
  ghost predicate Reduces(lib: Lib, snapshot: QualityGate.Snapshot) {
    exists issue <- QualityGate.Issues(snapshot, lib.iso) :: !IsError(issue)
  }

  ghost predicate MeetsContract(lib: Lib, stored: Stored) {
    stored.payload.Some? && Holds(stored.payload.value, lib.read)
  }

  // The validator calls a report publishable exactly when it is sound, and warns exactly when
  // the gate found something that only degrades a report it could read.
  method Validate(lib: Lib, stored: Stored, snapshot: QualityGate.Snapshot) returns (issues: seq<Issue>)
    ensures Publishable(issues) <==> Sound(lib, stored, snapshot)
    ensures Warns(issues) <==> MeetsContract(lib, stored) && Reduces(lib, snapshot)
  {
    var contract := false;
    if stored.payload.Some? {
      contract := CheckReport(stored.payload.value, lib.read);
    }
    if !contract {
      issues := Append([], ContractInvalid, "");
      return;
    }
    var report := stored.payload.value;
    issues := CheckIdentity(stored, report, snapshot);
    var approved := ApprovedBy(lib, snapshot);
    var decision, quality := QualityGate.EvaluateGate(snapshot, lib.iso);
    issues := AppendQuality(issues, quality);
    var sources := ReadSources(report.sections[SourceReferences].items, lib.read);
    issues := CheckSourceRecords(issues, approved, sources.value);
    issues := CheckSections(issues, lib, approved, snapshot, report);
  }

  method CheckSections(issues: seq<Issue>, lib: Lib, approved: Approved, snapshot: QualityGate.Snapshot, report: Report)
    returns (longer: seq<Issue>)
    ensures Adds(issues, longer, SectionsSound(lib, approved, snapshot, report.sections, report.sections.Keys))
  {
    longer := issues;
    var checked: set<string> := {};
    var todo := report.sections.Keys;
    while todo != {}
      invariant todo <= report.sections.Keys
      invariant Publishable(longer) ==> checked <= approved.sources.Keys
      invariant Adds(issues, longer,
                     SectionsSound(lib, approved, snapshot, report.sections, report.sections.Keys - todo))
      decreases todo
    {
      var id :| id in todo;
      longer, checked := CheckSection(longer, lib, approved, snapshot, report.sections[id], checked);
      OneMoreSection(lib, approved, snapshot, report.sections, todo, id);
      todo := todo - {id};
    }
    assert report.sections.Keys - todo == report.sections.Keys;
  }

  lemma {:induction false} OneMoreSection(lib: Lib, approved: Approved, snapshot: QualityGate.Snapshot,
                       sections: map<SectionId, Section>, todo: set<SectionId>, id: SectionId)
    requires id in todo && todo <= sections.Keys
    ensures SectionsSound(lib, approved, snapshot, sections, sections.Keys - (todo - {id}))
       <==> SectionsSound(lib, approved, snapshot, sections, sections.Keys - todo)
            && SectionSound(lib, approved, snapshot, sections[id])
  {
    assert sections.Keys - (todo - {id}) == (sections.Keys - todo) + {id};
  }
}
