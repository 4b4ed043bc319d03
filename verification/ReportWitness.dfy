/** Concrete inputs on which reports keep less than one might expect. */
module ReportWitness {
  import opened Json
  import opened Prelude
  import opened ReportContract
  import opened ReportFallback
  import opened ReportPublication
  import opened ReportReach
  import opened ReportValidator
  import DayPolicy
  import QualityGate
  import Sorting

  // ---- A snapshot in which F1 cites S1 and names F2 inside its value, and F2 is late -----------

  const CUTOFF := 100

  const F1: Dict := [Field("fact_id", Str("F1")), Field("section_id", Str("executive_summary")),
                     Field("value", Obj([Field("fact_ids", Arr([Str("F2")]))])),
                     Field("source_ref_ids", Arr([Str("S1")]))]

  const F2: Dict := [Field("fact_id", Str("F2")), Field("available_at", Str("late"))]

  const S1: Dict := [Field("source_ref_id", Str("S1"))]

  function Instant(text: string): Option<int> {
    Some(if text == "late" then CUTOFF + 1 else 0)
  }

  function Read(item: Dict): Option<Source> {
    match AsText(Get(item, "source_ref_id")) case None => None case Some(id) => Some(Source(id, Record(item)))
  }

  function Library(): Lib {
    Lib(date => "", Instant, text => Some(0), text => None, Read)
  }

  function Blank(): Render {
    value => ""
  }

  function GoodEntry(id: string): Field {
    Field(id, Obj([Field("status", Str("available")), Field("required", Bool(true))]))
  }

  function GoodEntries(ids: seq<string>): (entries: seq<Field>)
    ensures |entries| == |ids| && forall i | 0 <= i < |ids| :: entries[i] == GoodEntry(ids[i])
  {
    seq(|ids|, i requires 0 <= i < |ids| => GoodEntry(ids[i]))
  }

  function Witness(): QualityGate.Snapshot {
    QualityGate.Snapshot("snapshot", "v1", 0, 0, CUTOFF, "fingerprint", ["F1", "F2"],
                         QualityGate.Payload(Obj(GoodEntries(DayPolicy.ALL_INPUTS)), Null, Arr([Obj(F1), Obj(F2)]),
                                             Arr([Obj(S1)])))
  }

  // What the two facts hold.
  predicate ReadsAsF1(raw: Dict) {
    && Get(raw, "fact_id") == Some(Str("F1")) && Get(raw, "section_id") == Some(Str("executive_summary"))
    && Get(raw, "value") == Some(Obj([Field("fact_ids", Arr([Str("F2")]))]))
    && Get(raw, "source_ref_ids") == Some(Arr([Str("S1")]))
    && Get(raw, "label").None? && Get(raw, "display_text").None?
    && Get(raw, "report_date").None? && Get(raw, "available_at").None?
    && Get(raw, "unit").None? && Get(raw, "direction").None?
    && Get(raw, "period_start").None? && Get(raw, "period_end").None?
  }

  predicate ReadsAsF2(raw: Dict) {
    && Get(raw, "fact_id") == Some(Str("F2")) && Get(raw, "section_id").None?
    && Get(raw, "available_at") == Some(Str("late"))
  }

  lemma {:induction false} FactsRead()
    ensures ReadsAsF1(F1) && ReadsAsF2(F2)
  {}

  // ---- Its gate has nothing to say ------------------------------------------------------------

  lemma {:induction false} NobodyChosen(
      ids: seq<string>, chosen: string -> bool, code: QualityGate.Code, required: bool)
    requires forall id <- ids :: !chosen(id)
    ensures QualityGate.ForInputs(ids, chosen, code, required) == []
  {
    if ids != [] {
      assert ids[|ids| - 1] in ids;
      NobodyChosen(ids[..|ids| - 1], chosen, code, required);
    }
  }

  lemma {:induction false} GoodEntriesPass(entries: seq<Field>, required: set<string>)
    requires forall e <- entries :: e == GoodEntry(e.key)
    ensures QualityGate.AllEntryIssues(entries, required) == []
  {
    if entries != [] {
      var last := entries[|entries| - 1];
      assert last in entries;
      GoodEntriesPass(entries[..|entries| - 1], required);
      GoodEntryPasses(last.key, required);
    }
  }

  lemma {:induction false} GoodEntryPasses(id: string, required: set<string>)
    ensures QualityGate.EntryIssues(GoodEntry(id), required) == []
  {
    var fields := GoodEntry(id).value.fields;
    assert Get(fields, "required") == Get(fields[1..], "required") == Some(Bool(true));
    assert QualityGate.ReadStatus("available") == Some(QualityGate.Available);
  }

  lemma {:induction false} OneMoreFactId(front: seq<Json>, raw: Dict)
    requires QualityGate.FactIds(front).Some?
    ensures QualityGate.FactIds(front + [Obj(raw)])
         == Some(QualityGate.FactIds(front).value + [Get(raw, "fact_id").GetOr(Null)])
  {
    assert (front + [Obj(raw)])[..|front|] == front;
  }

  lemma {:induction false} WitnessHasFacts()
    ensures QualityGate.HasFacts(Witness())
  {
    FactsRead();
    OneMoreFactId([], F1);
    OneMoreFactId([] + [Obj(F1)], F2);
    var items := [] + [Obj(F1)] + [Obj(F2)];
    assert Witness().payload.facts.items == items;
    assert QualityGate.FactIds(items).value == [Str("F1"), Str("F2")];
    assert DayPolicy.Strings(["F1", "F2"]) == [Str("F1"), Str("F2")];
    assert "F1"[1] != "F2"[1];
  }

  lemma {:induction false} GoodEntriesList(ids: seq<string>)
    ensures forall id <- ids :: QualityGate.Listed(GoodEntries(ids), id)
    ensures forall e <- GoodEntries(ids) :: e == GoodEntry(e.key)
  {
    var entries := GoodEntries(ids);
    forall id | id in ids ensures QualityGate.Listed(entries, id) {
      var i :| 0 <= i < |ids| && ids[i] == id;
      assert entries[i] in entries;
    }
  }

  lemma {:induction false} NoInputIssues(inputs: QualityGate.RequiredInputs, entries: seq<Field>)
    requires inputs.optional == {} && forall id | id in DayPolicy.ALL_INPUTS :: QualityGate.Listed(entries, id)
    ensures QualityGate.InputIssues(inputs, entries) == []
  {
    NobodyChosen(DayPolicy.ALL_INPUTS, QualityGate.NotListed(inputs.required, entries),
                 QualityGate.RequiredUnavailable, true);
    NobodyChosen(DayPolicy.ALL_INPUTS, QualityGate.NotListed(inputs.optional, entries),
                 QualityGate.OptionalUnavailable, false);
    NobodyChosen(DayPolicy.ALL_INPUTS, QualityGate.AvailableAnyway(inputs.optional, entries),
                 QualityGate.ScheduledClosure, false);
  }

  lemma {:induction false} NoIssues(snapshot: QualityGate.Snapshot, entries: seq<Field>, iso: int -> string)
    requires snapshot.payload.policy == Null && QualityGate.HasFacts(snapshot)
    requires snapshot.payload.inputQuality == Obj(entries) && forall e <- entries :: e == GoodEntry(e.key)
    requires forall id | id in DayPolicy.ALL_INPUTS :: QualityGate.Listed(entries, id)
    ensures QualityGate.Issues(snapshot, iso) == []
  {
    NoInputIssues(QualityGate.WITHOUT_POLICY, entries);
    Sorting.SortPermutes(entries, QualityGate.FieldOrder());
    GoodEntriesPass(Sorting.Sort(entries, QualityGate.FieldOrder()), QualityGate.WITHOUT_POLICY.required);
  }

  lemma {:induction false} PassesWithoutIssues(lib: Lib, snapshot: QualityGate.Snapshot)
    requires QualityGate.Issues(snapshot, lib.iso) == []
    ensures GatePasses(lib, snapshot)
  {}

  lemma {:induction false} WitnessPasses()
    ensures QualityGate.Issues(Witness(), Library().iso) == []
    ensures GatePasses(Library(), Witness())
  {
    var (snapshot, lib) := (Witness(), Library());
    WitnessHasFacts();
    GoodEntriesList(DayPolicy.ALL_INPUTS);
    NoIssues(snapshot, GoodEntries(DayPolicy.ALL_INPUTS), lib.iso);
    PassesWithoutIssues(lib, snapshot);
  }

  // ---- A fallback over it is ready ------------------------------------------------------------

  lemma {:induction false} WitnessDicts()
    ensures Dicts(Witness().payload.facts) == [F1, F2] && Dicts(Witness().payload.sources) == [S1]
    ensures LoadSources([S1]).Keys == {"S1"}
  {
    var items := [Obj(F1), Obj(F2)];
    assert items[..1] == [Obj(F1)] && [Obj(F1)][..0] == [];
    assert OnlyDicts([Obj(F1)]) == [F1];
    assert [Obj(S1)][..0] == [] && OnlyDicts([Obj(S1)]) == [S1];
    assert [S1][..0] == [] && LoadSources([S1]) == map["S1" := Record(S1)];
  }

  lemma {:induction false} SourceIsCanonical()
    ensures Canonical(Library(), S1)
  {
    OnlyTheSourceId(ITEM_KEYS);
    assert SourceItem(S1) == S1;
  }

  // Of the metadata fields the source has its ID only.
  lemma {:induction false} OnlyTheSourceId(keys: seq<string>)
    requires forall i | 0 <= i < |keys| :: keys[i] == "source_ref_id" ==> i == 0
    ensures PresentFields(S1, keys) == if keys != [] && keys[0] == "source_ref_id" then S1 else []
  {
    if keys != [] {
      var n := |keys| - 1;
      OnlyTheSourceId(keys[..n]);
      assert Get(S1, keys[n]) == if keys[n] == "source_ref_id" then Some(Str("S1")) else None;
    }
  }

  lemma {:induction false} OneMoreInSection(front: seq<Dict>, raw: Dict, id: SectionId)
    ensures SectionFacts(front + [raw], id) == SectionFacts(front, id) + (if InSection(raw, id) then [raw] else [])
  {
    assert (front + [raw])[..|front|] == front;
  }

  lemma {:induction false} WitnessSections(f1: Dict, f2: Dict, id: SectionId)
    requires ReadsAsF1(f1) && ReadsAsF2(f2) && id in FACT_SECTIONS
    ensures SectionFacts([f1, f2], id) == if id == ExecutiveSummary then [f1] else []
  {
    OneMoreInSection([], f1, id);
    OneMoreInSection([] + [f1], f2, id);
    assert [f1, f2] == [] + [f1] + [f2];
    assert InSection(f1, id) <==> id == ExecutiveSummary by {
      assert SectionName(id)[0] == 'e' <==> id == ExecutiveSummary;
    }
  }

  lemma {:induction false} ValueNames(value: Json)
    requires value == Obj([Field("fact_ids", Arr([Str("F2")]))])
    ensures Nested(value, "fact_ids") == {"F2"} && Nested(value, "source_ref_ids") == {}
    ensures RefsAreTexts(value, "fact_ids") && RefsAreTexts(value, "source_ref_ids")
  {
    var list := [Str("F2")];
    var fields := [Field("fact_ids", Arr(list))];
    assert fields[..0] == [] && list[..0] == [];
    ListNests(list, "fact_ids");
    ListNests(list, "source_ref_ids");
    assert "fact_ids"[0] != "source_ref_ids"[0];
    assert Get(fields, "source_ref_ids").None?;
    assert Texts(list) == {"F2"};
    assert NestedFields(fields, "fact_ids") == {} && NestedFields(fields, "source_ref_ids") == {};
  }

  lemma {:induction false} F1NamesKnown(f1: Dict, facts: set<string>, sources: set<string>)
    requires ReadsAsF1(f1) && "F2" in facts
    ensures NamesKnown(Get(f1, "value").value, facts, sources)
  {
    ValueNames(Get(f1, "value").value);
  }

  lemma {:induction false} F1Cites(f1: Dict)
    requires ReadsAsF1(f1)
    ensures OwnIds(Obj(f1), "source_ref_ids") == {"S1"}
  {
    assert [Str("S1")][..0] == [] && Texts([Str("S1")]) == {"S1"};
  }

  lemma {:induction false} F1HasAClaim(lib: Lib, f1: Dict)
    requires ReadsAsF1(f1)
    ensures ReadClaim(lib, f1).Some? && !Get(f1, "value").value.Bool?
  {}

  lemma {:induction false} F1IsShowable(lib: Lib, snapshot: QualityGate.Snapshot, f1: Dict)
    requires ReadsAsF1(f1) && "F2" in SetOf(snapshot.factIds)
    requires LoadSources(Dicts(snapshot.payload.sources)).Keys == {"S1"}
    ensures Showable(lib, snapshot, f1)
  {
    F1NamesKnown(f1, SetOf(snapshot.factIds), LoadSources(Dicts(snapshot.payload.sources)).Keys);
    F1Cites(f1);
    F1HasAClaim(lib, f1);
  }

  lemma {:induction false} F1Fits(render: Render, f1: Dict)
    requires ReadsAsF1(f1)
    ensures FitsTheLimit(render, ExecutiveSummary, [f1])
  {
    var item := FactItem(render, f1);
    GetFinds(item);
    assert Found(item, 0) && Found(item, 1);
    assert TextOf(item, "name") == "";
    assert VisibleOf(item) == "F1" + "F1" + "";
    assert FactItems(render, [f1]) == [item] && [item][..0] == [];
    assert VisibleItems([item]) == "" + VisibleOf(item);
  }

  lemma {:induction false} NoItemsFit(render: Render, id: SectionId)
    requires id in FACT_SECTIONS
    ensures FitsTheLimit(render, id, [])
  {
    assert FactItems(render, []) == [];
  }

  lemma {:induction false} SectionsAreReady(
      lib: Lib, render: Render, snapshot: QualityGate.Snapshot, f1: Dict, f2: Dict)
    requires ReadsAsF1(f1) && ReadsAsF2(f2) && "F2" in SetOf(snapshot.factIds)
    requires Dicts(snapshot.payload.facts) == [f1, f2]
    requires LoadSources(Dicts(snapshot.payload.sources)).Keys == {"S1"}
    ensures SectionsReady(lib, render, snapshot)
  {
    forall id | id in FACT_SECTIONS
      ensures SectionReady(lib, render, snapshot, id, SectionFacts(Dicts(snapshot.payload.facts), id))
    {
      WitnessSections(f1, f2, id);
      F1IsShowable(lib, snapshot, f1);
      F1Fits(render, f1);
      NoItemsFit(render, id);
    }
  }

  lemma {:induction false} FactsAreListed(snapshot: QualityGate.Snapshot, f1: Dict, f2: Dict)
    requires ReadsAsF1(f1) && ReadsAsF2(f2) && Dicts(snapshot.payload.facts) == [f1, f2]
    requires "F1" in snapshot.factIds && "F2" in snapshot.factIds
    ensures FactsReady(snapshot)
  {
    assert "F1"[1] != "F2"[1];
  }

  lemma {:induction false} SourcesAreReady(lib: Lib, snapshot: QualityGate.Snapshot, s1: Dict)
    requires Dicts(snapshot.payload.sources) == [s1] && Canonical(lib, s1)
    ensures SourcesReady(lib, snapshot)
  {}

  lemma {:induction false} LikeWitnessIsReady(
      lib: Lib, render: Render, snapshot: QualityGate.Snapshot, f1: Dict, f2: Dict, s1: Dict)
    requires ReadsAsF1(f1) && ReadsAsF2(f2) && Canonical(lib, s1)
    requires Dicts(snapshot.payload.facts) == [f1, f2] && Dicts(snapshot.payload.sources) == [s1]
    requires LoadSources([s1]).Keys == {"S1"} && snapshot.factIds == ["F1", "F2"]
    ensures Ready(lib, render, snapshot)
  {
    assert snapshot.factIds[0] == "F1" && snapshot.factIds[1] == "F2";
    FactsAreListed(snapshot, f1, f2);
    SourcesAreReady(lib, snapshot, s1);
    SectionsAreReady(lib, render, snapshot, f1, f2);
  }

  lemma {:induction false} WitnessIsReady()
    ensures Ready(Library(), Blank(), Witness())
  {
    WitnessDicts();
    FactsRead();
    SourceIsCanonical();
    LikeWitnessIsReady(Library(), Blank(), Witness(), F1, F2, S1);
  }

  // ---- What goes wrong ------------------------------------------------------------------------

  // The claim about F1 repeats its value, and with it names F2.
  lemma {:induction false} ClaimReachesF2(lib: Lib, section: Section, f1: Dict)
    requires ReadsAsF1(f1) && ReadClaims(lib, [f1]) == Some(section.claims)
    ensures Reaches(section, "F2")
  {
    FactHasItsClaim(lib, [f1], f1);
    ValueNames(Get(f1, "value").value);
    var claim := ReadClaim(lib, f1).value;
    var i :| 0 <= i < |section.claims| && section.claims[i] == claim;
    assert "F2" in Nested(section.claims[i].value, "fact_ids");
    ReachedIsReferred(section, "F2");
  }

  lemma {:induction false} SummaryReachesF2(
      lib: Lib, render: Render, snapshot: QualityGate.Snapshot, f1: Dict, f2: Dict)
    requires Ready(lib, render, snapshot) && ReadsAsF1(f1) && ReadsAsF2(f2)
    requires Dicts(snapshot.payload.facts) == [f1, f2]
    ensures var built := Build(lib, render, snapshot, "report").payload;
            built.Some? && ExecutiveSummary in built.value.sections
            && Reaches(built.value.sections[ExecutiveSummary], "F2")
  {
    FallbackMeetsTheContract(lib, render, snapshot, "report");
    PayloadIsBuilt(lib, render, snapshot, "report");
    var basis := BasisOf(lib, snapshot);
    FactSectionIsBuilt(lib, render, basis, ExecutiveSummary);
    WitnessSections(f1, f2, ExecutiveSummary);
    ClaimReachesF2(lib, BuildSections(lib, render, basis)[ExecutiveSummary], f1);
  }

  // A validated report can reach a fact that became available after the cutoff and cites no
  // source: the summary names F2 in the value of its claim about F1.
  lemma {:induction false} LateFactIsReachedUnseen()
    ensures var built := Build(Library(), Blank(), Witness(), "report");
            && Settled(Library(), built, Witness()).lifecycle == Validated
            && Reaches(built.payload.value.sections[ExecutiveSummary], "F2")
            && F2 in Dicts(Witness().payload.facts)
            && Parsed(Get(F2, "available_at"), Instant) == Some(Witness().cutoffAt + 1)
            && forall raw :: !Backs(Library(), Witness(), built.payload.value.sections[ExecutiveSummary], "F2", raw)
  {
    WitnessIsReady();
    WitnessPasses();
    FallbackIsPublished(Library(), Blank(), Witness(), "report");
    WitnessDicts();
    FactsRead();
    SummaryReachesF2(Library(), Blank(), Witness(), F1, F2);
    F2IsLate();
  }

  lemma {:induction false} F2IsLate()
    ensures Parsed(Get(F2, "available_at"), Instant) == Some(CUTOFF + 1)
    ensures forall raw | raw in [F1, F2] && AsText(Get(raw, "fact_id")) == Some("F2") ::
              !InTime(Library(), Witness(), raw)
  {
    FactsRead();
    assert "F1"[1] != "F2"[1];
  }

  lemma {:induction false} OnlyField(item: Dict, key: string)
    requires |item| == 1 && item[0].key != key
    ensures Get(item, key).None?
  {
    assert item[1..] == [];
  }

  lemma {:induction false} NoticeItem(text: string)
    ensures var items: seq<Dict> := [[Field("text", Str(text))]];
            && VisibleItems(items) == text
            && ItemIds(items, "fact_ids") == {} && ItemIds(items, "source_ref_ids") == {}
            && RefsOfSection(items, [], "fact_ids") && RefsOfSection(items, [], "source_ref_ids")
  {
    var item: Dict := [Field("text", Str(text))];
    assert item[..0] == [] && [item][..0] == [];
    assert "label"[0] != "text"[0] && "name"[0] != "text"[0] && "fact_ids"[0] != "text"[0];
    assert "source_ref_ids"[0] != "text"[0];
    assert "label" != "text" && "name" != "text" && "fact_ids" != "text" && "source_ref_ids" != "text";
    OnlyField(item, "label");
    OnlyField(item, "name");
    OnlyField(item, "fact_ids");
    OnlyField(item, "source_ref_ids");
    assert NestedFields(item, "fact_ids") == {} && NestedFields(item, "source_ref_ids") == {};
    assert ItemIds([], "fact_ids") == {} && ItemIds([], "source_ref_ids") == {};
    assert VisibleOf(item) == "" + text + "";
    assert VisibleItems([item]) == "" + text;
  }

  // A notice that meets the contract wherever it stands, and names nothing.
  ghost predicate IsPlain(notice: Section) {
    && notice.id == DataQualityNotice && notice.claims == []
    && CitedFacts(notice) == {} && CitedSources(notice) == {}
    && forall facts, sources :: SectionMeets(notice, facts, sources)
  }

  function WithNotice(report: Report, notice: Section): Report {
    report.(sections := report.sections[DataQualityNotice := notice])
  }

  // The notice with one short item more, counted.
  function WithItem(notice: Section, text: string): Section {
    notice.(items := [[Field("text", Str(text))]], characterCount := notice.characterCount + |text|)
  }

  lemma {:induction false} ItemNoticeIsPlain(notice: string, text: string)
    requires |notice| <= 30 && |text| <= 30
    ensures IsPlain(WithItem(TextSection(DataQualityNotice, notice), text))
    ensures VisibleItems(WithItem(TextSection(DataQualityNotice, notice), text).items) == text
  {
    NoticeItem(text);
    var shown := WithItem(TextSection(DataQualityNotice, notice), text);
    assert Visible(shown) == notice + text;
    assert ClaimValueIds([], "fact_ids") == {} && ClaimValueIds([], "source_ref_ids") == {};
  }

  lemma {:induction false} PlainNoticeHolds(report: Report, notice: Section, read: Dict -> Option<Source>)
    requires Holds(report, read) && IsPlain(notice)
    ensures Holds(WithNotice(report, notice), read)
    ensures WithNotice(report, notice).sections[SourceReferences] == report.sections[SourceReferences]
  {
    var sources := SourceIds(ReadSources(report.sections[SourceReferences].items, read).value);
    var facts := SetOf(report.snapshot.factIds);
    NoticeReplaced(report.sections, notice, Meets(facts, sources));
    assert SectionMeets(notice, facts, sources);
  }

  lemma {:induction false} PlainNoticeIsSound(
      lib: Lib, approved: Approved, snapshot: QualityGate.Snapshot, sections: map<SectionId, Section>, notice: Section)
    requires SectionsSound(lib, approved, snapshot, sections, REQUIRED_SECTIONS) && IsPlain(notice)
    ensures SectionsSound(lib, approved, snapshot, sections[DataQualityNotice := notice], REQUIRED_SECTIONS)
  {}

  lemma {:induction false} CandidateIsSound(
      lib: Lib, stored: Stored, snapshot: QualityGate.Snapshot, notice: Section)
    requires Sound(lib, stored, snapshot) && IsPlain(notice)
    ensures Sound(lib, stored.(payload := Some(WithNotice(stored.payload.value, notice))), snapshot)
  {
    var report := stored.payload.value;
    PlainNoticeHolds(report, notice, lib.read);
    PlainNoticeIsSound(lib, ApprovedBy(lib, snapshot), snapshot, report.sections, notice);
  }

  // The fallback as a candidate whose notice shows one item more.
  function Candidate(lib: Lib, render: Render, snapshot: QualityGate.Snapshot): Stored {
    var built := Build(lib, render, snapshot, "report");
    var notice := WithItem(TextSection(DataQualityNotice, BasisOf(lib, snapshot).notice), "Note.");
    match built.payload
    case None => built
    case Some(report) => built.(payload := Some(WithNotice(report, notice)))
  }

  // Over every ready snapshot this candidate validates and is published, and its finalized
  // payload breaks the contract: the rewritten count leaves out the item the notice shows.
  lemma {:induction false} FinalizedCandidateBreaksTheContract(
      lib: Lib, render: Render, snapshot: QualityGate.Snapshot)
    requires Ready(lib, render, snapshot) && GatePasses(lib, snapshot)
    ensures var candidate := Candidate(lib, render, snapshot);
            var final := Settled(lib, candidate, snapshot);
            && MeetsContract(lib, candidate)
            && final.lifecycle == Validated && final.published && final.payload.Some?
            && !Holds(final.payload.value, lib.read)
  {
    FallbackIsSound(lib, render, snapshot, "report");
    var basis := BasisOf(lib, snapshot);
    ItemNoticeIsPlain(basis.notice, "Note.");
    var notice := WithItem(TextSection(DataQualityNotice, basis.notice), "Note.");
    CandidateIsSound(lib, Build(lib, render, snapshot, "report"), snapshot, notice);
    var candidate := Candidate(lib, render, snapshot);
    SoundSettles(lib, candidate, snapshot);
    ItemNoticeBreaks(lib, candidate.payload.value, Settled(lib, candidate, snapshot).status,
                     Notice(Settled(lib, candidate, snapshot).status, Reduces(lib, snapshot)));
  }

  lemma {:induction false} ItemNoticeBreaks(lib: Lib, report: Report, status: ReportStatus, text: string)
    requires Holds(report, lib.read) && VisibleItems(report.sections[DataQualityNotice].items) != ""
    ensures !Holds(Finalized(report, status, text), lib.read)
  {
    FinalizedMeetsContractExactlyWhen(lib, report, status, text);
  }

  // The snapshot above is one of them.
  lemma {:induction false} WitnessCandidateBreaksTheContract()
    ensures var candidate := Candidate(Library(), Blank(), Witness());
            var final := Settled(Library(), candidate, Witness());
            && MeetsContract(Library(), candidate)
            && final.published && final.payload.Some? && !Holds(final.payload.value, Library().read)
  {
    WitnessIsReady();
    WitnessPasses();
    FinalizedCandidateBreaksTheContract(Library(), Blank(), Witness());
  }
}
