/** The report that is built from approved display values without a language model. */
module ReportFallback {
  import opened Json
  import opened Prelude
  import opened ReportContract
  import opened ReportPublication
  import opened ReportValidator
  import QualityGate
  import Sorting

  // ---- Items and claims -------------------------------------------------------------------------

  function SectionName(id: SectionId): string {
    match id
    case ExecutiveSummary => "executive_summary"
    case CnHighlights => "cn_highlights"
    case HkHighlights => "hk_highlights"
    case UsHighlights => "us_highlights"
    case KeyMovements => "key_movements"
    case UpcomingCalendar => "upcoming_calendar"
    case DataQualityNotice => "data_quality_notice"
    case SourceReferences => "source_references"
    case Other(name) => name
  }

  const FACT_SECTIONS := {ExecutiveSummary, CnHighlights, HkHighlights, UsHighlights, KeyMovements, UpcomingCalendar}

  predicate InSection(raw: Dict, id: SectionId) {
    Get(raw, "section_id") == Some(Str(SectionName(id)))
  }

  function SectionFacts(raws: seq<Dict>, id: SectionId): (facts: seq<Dict>)
    ensures forall raw <- facts :: raw in raws && InSection(raw, id)
  {
    if raws == [] then []
    else
      SectionFacts(raws[..|raws| - 1], id)
      + (if InSection(raws[|raws| - 1], id) then [raws[|raws| - 1]] else [])
  }

  function OnlyTexts(items: seq<Json>): (texts: seq<Json>)
    ensures forall text <- texts :: text.Str?
    ensures Texts(texts) == Texts(items)
  {
    if items == [] then []
    else
      var front := OnlyTexts(items[..|items| - 1]);
      var last := items[|items| - 1];
      if last.Str? then
        assert (front + [last])[..|front|] == front;
        front + [last]
      else front
  }

  function SourceList(raw: Dict): seq<Json> {
    match Get(raw, "source_ref_ids") case Some(Arr(items)) => OnlyTexts(items) case _ => []
  }

  // str() of a value that is not a text is Python's affair.
  type Render = Json -> string

  function Rendered(render: Render, value: Json): string {
    if value.Str? then value.text else render(value)
  }

  // _fact_item
  function FactItem(render: Render, raw: Dict): Dict {
    var id := Get(raw, "fact_id").GetOr(Null);
    [Field("label", Str(Rendered(render, Get(raw, "label").GetOr(id)))),
     Field("text", Str(Rendered(render, Get(raw, "display_text").GetOr(id)))),
     Field("fact_ids", Arr([id])), Field("source_ref_ids", Arr(SourceList(raw)))]
  }

  function FactItems(render: Render, raws: seq<Dict>): (items: seq<Dict>)
    ensures |items| == |raws| && forall i | 0 <= i < |raws| :: items[i] == FactItem(render, raws[i])
  {
    seq(|raws|, i requires 0 <= i < |raws| => FactItem(render, raws[i]))
  }

  // An optional text or date of a claim; another type does not fit the contract.
  predicate TextOrNull(value: Option<Json>) {
    !Present(value) || value.value.Str?
  }

  predicate DateOrNull(lib: Lib, value: Option<Json>) {
    !Present(value) || (value.value.Str? && lib.day(value.value.text).Some?)
  }

  function KindOf(value: Option<Json>): ClaimKind {
    if value == Some(Str("number")) then Number
    else if value == Some(Str("date")) then Date
    else if value == Some(Str("direction")) then Direction
    else Words
  }

  // _fact_claim as the contract reads it back.
  function ReadClaim(lib: Lib, raw: Dict): Option<Claim> {
    if || AsText(Get(raw, "fact_id")).None?
       || !TextOrNull(Get(raw, "unit")) || !TextOrNull(Get(raw, "direction"))
       || !DateOrNull(lib, Get(raw, "period_start")) || !DateOrNull(lib, Get(raw, "period_end"))
    then None
    else Some(Claim(KindOf(Get(raw, "claim_type")), AsText(Get(raw, "fact_id")).value, Get(raw, "value").GetOr(Null),
                    AsText(Get(raw, "unit")), AsText(Get(raw, "direction")),
                    Parsed(Get(raw, "period_start"), lib.day), Parsed(Get(raw, "period_end"), lib.day)))
  }

  // One claim for each fact with a value.
  function ReadClaims(lib: Lib, raws: seq<Dict>): Option<seq<Claim>> {
    if raws == [] then Some([])
    else
      var last := raws[|raws| - 1];
      match ReadClaims(lib, raws[..|raws| - 1])
      case None => None
      case Some(front) =>
        if !Present(Get(last, "value")) then Some(front)
        else if ReadClaim(lib, last).None? then None
        else Some(front + [ReadClaim(lib, last).value])
  }

  const ITEM_KEYS := SOURCE_KEYS + ["external_llm_allowed"]

  function PresentFields(raw: Dict, keys: seq<string>): (fields: Dict)
    ensures forall f <- fields :: f.key in keys && Get(raw, f.key) == Some(f.value)
  {
    if keys == [] then []
    else
      var key := keys[|keys| - 1];
      PresentFields(raw, keys[..|keys| - 1])
      + (if Get(raw, key).Some? then [Field(key, Get(raw, key).value)] else [])
  }

  // _source_item
  function SourceItem(raw: Dict): Dict {
    PresentFields(raw, ITEM_KEYS)
  }

  function SourceItems(raws: seq<Dict>): (items: seq<Dict>)
    ensures |items| == |raws| && forall i | 0 <= i < |raws| :: items[i] == SourceItem(raws[i])
  {
    seq(|raws|, i requires 0 <= i < |raws| => SourceItem(raws[i]))
  }

  // ---- Sections ---------------------------------------------------------------------------------

  predicate IsLeast(ids: set<string>, id: string) {
    forall other <- ids :: other == id || Sorting.TextBefore(id, other)
  }

  lemma {:induction false} LeastExists(ids: set<string>)
    requires ids != {}
    ensures exists id <- ids :: IsLeast(ids, id)
    decreases ids
  {
    var one :| one in ids;
    var others := ids - {one};
    if others != {} {
      LeastExists(others);
      var least :| least in others && IsLeast(others, least);
      Sorting.TextIsTotal(one, least);
      if Sorting.TextBefore(one, least) {
        forall other | other in ids ensures other == one || Sorting.TextBefore(one, other) {
          if other != one && other != least {
            Sorting.TextIsTransitive(one, least, other);
          }
        }
        assert IsLeast(ids, one);
      } else {
        assert IsLeast(ids, least);
      }
    } else {
      assert ids == {one} + others;
      assert IsLeast(ids, one);
    }
  }

  lemma {:induction false} LeastIsUnique(ids: set<string>)
    ensures forall a, b | a in ids && b in ids && IsLeast(ids, a) && IsLeast(ids, b) :: a == b
  {
    forall a, b | a in ids && b in ids && IsLeast(ids, a) && IsLeast(ids, b) ensures a == b {
      Sorting.TextIsTotal(a, b);
    }
  }

  function Least(ids: set<string>): (id: string)
    requires ids != {}
    ensures id in ids && IsLeast(ids, id)
  {
    LeastExists(ids);
    LeastIsUnique(ids);
    var id :| id in ids && IsLeast(ids, id);
    id
  }

  // The IDs as a sorted list.
  function Listing(ids: set<string>): (listed: seq<string>)
    ensures SetOf(listed) == ids
    ensures forall i, j | 0 <= i < j < |listed| :: Sorting.TextBefore(listed[i], listed[j])
  {
    if ids == {} then []
    else
      var id := Least(ids);
      var rest := Listing(ids - {id});
      assert SetOf([id] + rest) == {id} + SetOf(rest);
      assert forall other <- rest :: other in SetOf(rest);
      [id] + rest
  }

  function ItemSection(id: SectionId, items: seq<Dict>, claims: seq<Claim>): Section {
    Section(id, |VisibleItems(items)|, SectionLimit(id).GetOr(1), None,
            Listing(ItemIds(items, "fact_ids")), Listing(ItemIds(items, "source_ref_ids")), items, claims)
  }

  function TextSection(id: SectionId, text: string): Section {
    Section(id, |text|, SectionLimit(id).GetOr(1), Some(text), [], [], [], [])
  }

  predicate Blocking(lib: Lib, snapshot: QualityGate.Snapshot) {
    !NoErrors(QualityGate.Issues(snapshot, lib.iso))
  }

  function FallbackStatus(lib: Lib, snapshot: QualityGate.Snapshot): ReportStatus {
    if Blocking(lib, snapshot) then Incomplete
    else if QualityGate.Issues(snapshot, lib.iso) != [] then Reduced
    else Complete
  }

  function EmptySection(id: SectionId, blocking: bool): Section {
    if id == UpcomingCalendar || id == KeyMovements then ItemSection(id, [], [])
    else TextSection(id, if blocking then "数据不可用。" else "暂无已验证事实。")
  }

  // What the sections are built from.
  datatype Basis = Basis(facts: seq<Dict>, sources: seq<Dict>, blocking: bool, notice: string)

  function BasisOf(lib: Lib, snapshot: QualityGate.Snapshot): Basis {
    Basis(Dicts(snapshot.payload.facts), Dicts(snapshot.payload.sources), Blocking(lib, snapshot),
          Notice(FallbackStatus(lib, snapshot), QualityGate.Issues(snapshot, lib.iso) != []))
  }

  // One of the eight sections; None when a claim would not fit the contract.
  function BuildSection(lib: Lib, render: Render, basis: Basis, id: SectionId): Option<Section> {
    if id == SourceReferences then Some(ItemSection(id, SourceItems(basis.sources), []))
    else if id == DataQualityNotice then Some(TextSection(id, basis.notice))
    else BuildFactSection(lib, render, id, SectionFacts(basis.facts, id), basis.blocking)
  }

  function BuildFactSection(lib: Lib, render: Render, id: SectionId, facts: seq<Dict>, blocking: bool)
    : Option<Section>
  {
    if facts == [] then Some(EmptySection(id, blocking))
    else
      match ReadClaims(lib, facts)
      case None => None
      case Some(claims) => Some(ItemSection(id, FactItems(render, facts), claims))
  }

  predicate Buildable(lib: Lib, render: Render, basis: Basis) {
    forall id <- REQUIRED_SECTIONS :: BuildSection(lib, render, basis, id).Some?
  }

  // ReportFallbackBuilder.build
  function Build(lib: Lib, render: Render, snapshot: QualityGate.Snapshot, reportId: string): Stored {
    var status := FallbackStatus(lib, snapshot);
    var published := status != Incomplete;
    Stored(snapshot.reportDate, snapshot.id, status, published, Generated,
           if !Buildable(lib, render, BasisOf(lib, snapshot)) then None
           else
             Some(Report(reportId, snapshot.reportDate,
                         SnapshotRef(snapshot.id, snapshot.version, snapshot.asOf, snapshot.cutoffAt,
                                     snapshot.fingerprint, snapshot.factIds),
                         status, published, status, BuildSections(lib, render, BasisOf(lib, snapshot)))))
  }

  function BuildSections(lib: Lib, render: Render, basis: Basis): (sections: map<SectionId, Section>)
    requires Buildable(lib, render, basis)
    ensures sections.Keys == REQUIRED_SECTIONS
    ensures forall id <- REQUIRED_SECTIONS :: Some(sections[id]) == BuildSection(lib, render, basis, id)
  {
    map id | id in REQUIRED_SECTIONS :: BuildSection(lib, render, basis, id).value
  }

  // ---- When the fallback is good ----------------------------------------------------------------

  predicate Scalar(value: Json) {
    value.Null? || value.Bool? || value.Int? || value.Float? || value.Str?
  }

  // Whatever a value names at any depth is known, in lists of texts.
  predicate NamesKnown(value: Json, facts: set<string>, sources: set<string>) {
    && RefsAreTexts(value, "fact_ids") && RefsAreTexts(value, "source_ref_ids")
    && Nested(value, "fact_ids") <= facts && Nested(value, "source_ref_ids") <= sources
  }

  // A fact a fallback can present: it cites sources the snapshot has and nothing else, is of the
  // right day, and its value, if it has one, makes a claim that reads back, repeats the fact and
  // names known facts and sources only. A boolean is repeated by no claim.
  predicate Presentable(lib: Lib, snapshot: QualityGate.Snapshot, raw: Dict) {
    var known := LoadSources(Dicts(snapshot.payload.sources)).Keys;
    && OwnIds(Obj(raw), "source_ref_ids") != {}
    && OwnIds(Obj(raw), "source_ref_ids") <= known
    && (Present(Get(raw, "report_date")) ==>
          Parsed(Get(raw, "report_date"), lib.day) == Some(snapshot.reportDate))
    && (Present(Get(raw, "value")) ==>
          && ReadClaim(lib, raw).Some? && !Get(raw, "value").value.Bool?
          && NamesKnown(Get(raw, "value").value, SetOf(snapshot.factIds), known))
  }

  // ... and it was available in time.
  ghost predicate Showable(lib: Lib, snapshot: QualityGate.Snapshot, raw: Dict) {
    Presentable(lib, snapshot, raw) && InTime(lib, snapshot, raw)
  }

  // The contract reads the metadata back unchanged.
  ghost predicate Canonical(lib: Lib, raw: Dict) {
    && AsText(Get(raw, "source_ref_id")).Some?
    && (forall key <- ITEM_KEYS | Get(raw, key).Some? :: Scalar(Get(raw, key).value))
    && lib.read(SourceItem(raw)) == Some(Source(AsText(Get(raw, "source_ref_id")).value, Record(raw)))
  }

  ghost predicate DistinctIds(raws: seq<Dict>, key: string) {
    forall i, j | 0 <= i < j < |raws| :: Get(raws[i], key) != Get(raws[j], key)
  }

  predicate FitsTheLimit(render: Render, id: SectionId, raws: seq<Dict>) {
    SectionLimit(id).Some? && |VisibleItems(FactItems(render, raws))| <= SectionLimit(id).value
  }

  ghost predicate AllShow(lib: Lib, snapshot: QualityGate.Snapshot, raws: seq<Dict>) {
    forall raw <- raws :: Showable(lib, snapshot, raw)
  }

  ghost predicate SectionReady(lib: Lib, render: Render, snapshot: QualityGate.Snapshot, id: SectionId, raws: seq<Dict>)
  {
    AllShow(lib, snapshot, raws) && FitsTheLimit(render, id, raws)
  }

  ghost predicate FactsReady(snapshot: QualityGate.Snapshot) {
    var facts := Dicts(snapshot.payload.facts);
    && DistinctIds(facts, "fact_id")
    && forall raw <- facts :: AsText(Get(raw, "fact_id")).Some? && AsText(Get(raw, "fact_id")).value in snapshot.factIds
  }

  ghost predicate SourcesReady(lib: Lib, snapshot: QualityGate.Snapshot) {
    var sources := Dicts(snapshot.payload.sources);
    DistinctIds(sources, "source_ref_id") && forall raw <- sources :: Canonical(lib, raw)
  }

  // Sectioned facts can be shown and fit, IDs are distinct and known, metadata is canonical.
  ghost predicate Ready(lib: Lib, render: Render, snapshot: QualityGate.Snapshot) {
    && FactsReady(snapshot) && SourcesReady(lib, snapshot)
    && SectionsReady(lib, render, snapshot)
  }

  ghost predicate SectionsReady(lib: Lib, render: Render, snapshot: QualityGate.Snapshot) {
    forall id <- FACT_SECTIONS ::
      SectionReady(lib, render, snapshot, id, SectionFacts(Dicts(snapshot.payload.facts), id))
  }

  // ---- Items --------------------------------------------------------------------------------------

  lemma {:induction false} ScalarsNestNothing(items: seq<Json>, key: string)
    requires forall item <- items :: Scalar(item)
    ensures NestedItems(items, key) == {}
  {
    if items != [] {
      ScalarsNestNothing(items[..|items| - 1], key);
      assert items[|items| - 1] in items;
    }
  }

  lemma {:induction false} ScalarFieldsNestNothing(fields: Dict, key: string)
    requires forall f <- fields :: Scalar(f.value)
    ensures NestedFields(fields, key) == {}
  {
    if fields != [] {
      ScalarFieldsNestNothing(fields[..|fields| - 1], key);
      assert fields[|fields| - 1] in fields;
    }
  }

  ghost predicate FactItemReads(item: Dict, id: string, sources: set<string>) {
    && Nested(Obj(item), "fact_ids") == {id}
    && Nested(Obj(item), "source_ref_ids") == sources
    && RefsAreTexts(Obj(item), "fact_ids") && RefsAreTexts(Obj(item), "source_ref_ids")
  }

  lemma {:induction false} ListNests(items: seq<Json>, key: string)
    requires forall item <- items :: item.Str?
    ensures Nested(Arr(items), key) == {} && RefsAreTexts(Arr(items), key)
  {
    ScalarsNestNothing(items, key);
  }

  // An item of two texts and two lists of texts names what its list under the key holds.
  lemma {:induction false} FourFieldsRead(item: Dict, key: string, ids: seq<Json>, sources: seq<Json>)
    requires |item| == 4 && item[0].value.Str? && item[1].value.Str?
    requires item[2].value == Arr(ids) && item[3].value == Arr(sources)
    requires forall x <- ids :: x.Str?
    requires forall x <- sources :: x.Str?
    requires Get(item, key) == Some(Arr(ids)) || Get(item, key) == Some(Arr(sources))
    ensures Nested(Obj(item), key) == Texts(Get(item, key).value.items)
    ensures RefsAreTexts(Obj(item), key)
  {
    ListNests(ids, key);
    ListNests(sources, key);
    FourFields(item, key);
  }

  // A fact item names its fact and the fact's sources, and nothing else.
  lemma {:induction false} FactItemIsRead(render: Render, raw: Dict, id: string)
    requires Get(raw, "fact_id") == Some(Str(id))
    ensures FactItemReads(FactItem(render, raw), id, OwnIds(Obj(raw), "source_ref_ids"))
  {
    var item := FactItem(render, raw);
    GetFinds(item);
    assert Found(item, 2) && Found(item, 3);
    FourFieldsRead(item, "fact_ids", [Str(id)], SourceList(raw));
    FourFieldsRead(item, "source_ref_ids", [Str(id)], SourceList(raw));
    assert [Str(id)][..0] == [] && Texts([Str(id)]) == {id};
    SourceListTexts(raw);
  }

  lemma {:induction false} SourceListTexts(raw: Dict)
    ensures Texts(SourceList(raw)) == OwnIds(Obj(raw), "source_ref_ids")
  {}

  lemma {:induction false} FourFields(item: Dict, key: string)
    requires |item| == 4
    ensures NestedFields(item, key)
         == Nested(item[0].value, key) + Nested(item[1].value, key) + Nested(item[2].value, key)
            + Nested(item[3].value, key)
  {
    var three := item[..3];
    assert three[..2] == item[..2] && item[..2][..1] == item[..1] && item[..1][..0] == [];
    assert NestedFields(item[..1], key) == Nested(item[0].value, key);
    assert NestedFields(item[..2], key) == Nested(item[0].value, key) + Nested(item[1].value, key);
    assert NestedFields(three, key) == NestedFields(item[..2], key) + Nested(item[2].value, key);
  }

  lemma {:induction false} SourceItemLacks(raw: Dict, key: string)
    requires key !in ITEM_KEYS
    ensures Get(SourceItem(raw), key).None?
  {
    if Get(SourceItem(raw), key).Some? {
      var f := GetIsAField(SourceItem(raw), key);
    }
  }

  lemma {:induction false} SourceItemNames(lib: Lib, raw: Dict, key: string)
    requires Canonical(lib, raw) && key !in ITEM_KEYS
    ensures Nested(Obj(SourceItem(raw)), key) == {} && RefsAreTexts(Obj(SourceItem(raw)), key)
  {
    var item := SourceItem(raw);
    forall f | f in item ensures Scalar(f.value) {
      assert f.key in ITEM_KEYS;
    }
    SourceItemLacks(raw, key);
    ScalarFieldsNestNothing(item, key);
    forall i | 0 <= i < |item| ensures RefsAreTexts(item[i].value, key) {
      assert item[i] in item;
    }
  }

  lemma {:induction false} NotItemKeys()
    ensures forall key <- ["fact_ids", "source_ref_ids", "label", "text", "name"] :: key !in ITEM_KEYS
  {
    assert ITEM_KEYS == ["source_ref_id", "provider_id", "provider_record_id", "source_name", "source_url",
                         "retrieved_at", "checksum_sha256", "external_llm_allowed"];
  }

  // A canonical source item shows nothing and names nothing.
  lemma {:induction false} SourceItemIsSilent(lib: Lib, raw: Dict)
    requires Canonical(lib, raw)
    ensures var item := SourceItem(raw);
            && VisibleOf(item) == ""
            && Nested(Obj(item), "fact_ids") == {} && Nested(Obj(item), "source_ref_ids") == {}
            && RefsAreTexts(Obj(item), "fact_ids") && RefsAreTexts(Obj(item), "source_ref_ids")
  {
    NotItemKeys();
    SourceItemNames(lib, raw, "fact_ids");
    SourceItemNames(lib, raw, "source_ref_ids");
    SourceItemLacks(raw, "label");
    SourceItemLacks(raw, "text");
    SourceItemLacks(raw, "name");
  }

  lemma {:induction false} GetIsAField(fields: Dict, key: string) returns (f: Field)
    requires Get(fields, key).Some?
    ensures f in fields && f.key == key && Get(fields, key) == Some(f.value)
  {
    if fields[0].key == key {
      f := fields[0];
    } else {
      f := GetIsAField(fields[1..], key);
    }
  }

  // ---- Facts and sources as they are loaded -------------------------------------------------------

  lemma {:induction false} DistinctFactsLoad(lib: Lib, raws: seq<Dict>, raw: Dict)
    requires DistinctIds(raws, "fact_id") && raw in raws && AsText(Get(raw, "fact_id")).Some?
    ensures var id := AsText(Get(raw, "fact_id")).value;
            id in LoadFacts(lib, raws) && LoadFacts(lib, raws)[id] == ReadFact(lib, raw)
  {
    var n := |raws| - 1;
    if raws[n] != raw {
      var i :| 0 <= i < |raws| && raws[i] == raw;
      assert raws[..n][i] == raw;
      DistinctFactsLoad(lib, raws[..n], raw);
      assert Get(raws[i], "fact_id") != Get(raws[n], "fact_id");
    }
  }

  lemma {:induction false} DistinctSourcesLoad(raws: seq<Dict>, raw: Dict)
    requires DistinctIds(raws, "source_ref_id") && raw in raws && AsText(Get(raw, "source_ref_id")).Some?
    ensures var id := AsText(Get(raw, "source_ref_id")).value;
            id in LoadSources(raws) && LoadSources(raws)[id] == Record(raw)
  {
    var n := |raws| - 1;
    if raws[n] != raw {
      var i :| 0 <= i < |raws| && raws[i] == raw;
      assert raws[..n][i] == raw;
      DistinctSourcesLoad(raws[..n], raw);
      assert Get(raws[i], "source_ref_id") != Get(raws[n], "source_ref_id");
    }
  }

  function SourcesOf(raws: seq<Dict>): (sources: seq<Source>)
    ensures |sources| == |raws|
    ensures forall i | 0 <= i < |raws| ::
              sources[i] == Source(AsText(Get(raws[i], "source_ref_id")).GetOr(""), Record(raws[i]))
  {
    seq(|raws|, i requires 0 <= i < |raws| => Source(AsText(Get(raws[i], "source_ref_id")).GetOr(""), Record(raws[i])))
  }

  // What the contract reads back from the source items.
  lemma {:induction false} SourcesReadBack(lib: Lib, raws: seq<Dict>)
    requires forall raw <- raws :: Canonical(lib, raw)
    ensures ReadSources(SourceItems(raws), lib.read) == Some(SourcesOf(raws))
  {
    if raws != [] {
      var front, last := raws[..|raws| - 1], raws[|raws| - 1];
      assert raws == front + [last];
      SourcesReadBack(lib, front);
      OneMoreSource(lib, front, last);
    }
  }

  lemma {:induction false} OneMoreSource(lib: Lib, raws: seq<Dict>, raw: Dict)
    requires Canonical(lib, raw) && ReadSources(SourceItems(raws), lib.read) == Some(SourcesOf(raws))
    ensures ReadSources(SourceItems(raws + [raw]), lib.read) == Some(SourcesOf(raws + [raw]))
  {
    assert SourceItems(raws + [raw]) == SourceItems(raws) + [SourceItem(raw)];
    assert (SourceItems(raws) + [SourceItem(raw)])[..|raws|] == SourceItems(raws);
    assert SourcesOf(raws + [raw])
        == SourcesOf(raws) + [Source(AsText(Get(raw, "source_ref_id")).GetOr(""), Record(raw))];
  }

  // The cited sources of the report are those of the snapshot, each with its own record.
  lemma {:induction false} SourcesAgree(lib: Lib, raws: seq<Dict>)
    requires DistinctIds(raws, "source_ref_id") && forall raw <- raws :: Canonical(lib, raw)
    ensures var read := ReadSources(SourceItems(raws), lib.read);
            && read.Some? && UniqueSources(read.value)
            && SourceIds(read.value) == LoadSources(raws).Keys
            && forall source <- read.value ::
                 source.id in LoadSources(raws) && LoadSources(raws)[source.id] == source.record
  {
    SourcesReadBack(lib, raws);
    var read := ReadSources(SourceItems(raws), lib.read).value;
    forall i, j | 0 <= i < j < |read| ensures read[i].id != read[j].id {
      assert Get(raws[i], "source_ref_id") != Get(raws[j], "source_ref_id");
      assert raws[i] in raws && raws[j] in raws;
    }
    forall source | source in read
      ensures source.id in LoadSources(raws) && LoadSources(raws)[source.id] == source.record
    {
      var i :| 0 <= i < |read| && read[i] == source;
      DistinctSourcesLoad(raws, raws[i]);
    }
    forall id | id in LoadSources(raws) ensures id in SourceIds(read) {
      var raw := LoadedSourceIsRaw(raws, id);
      var i :| 0 <= i < |raws| && raws[i] == raw;
      assert read[i].id == id && read[i] in read;
    }
  }

  // ---- The sections -------------------------------------------------------------------------------

  lemma {:induction false} ClaimsAreRead(lib: Lib, snapshot: QualityGate.Snapshot, raws: seq<Dict>)
    requires forall raw <- raws :: Showable(lib, snapshot, raw)
    ensures ReadClaims(lib, raws).Some?
    ensures forall claim <- ReadClaims(lib, raws).value ::
              exists raw <- raws :: Present(Get(raw, "value")) && ReadClaim(lib, raw) == Some(claim)
  {
    if raws != [] {
      var n := |raws| - 1;
      assert raws[n] in raws;
      ClaimsAreRead(lib, snapshot, raws[..n]);
    }
  }

  lemma {:induction false} FactItemsAreRead(render: Render, raws: seq<Dict>)
    requires forall raw <- raws :: AsText(Get(raw, "fact_id")).Some?
    ensures forall i | 0 <= i < |raws| ::
              FactItemReads(FactItems(render, raws)[i], AsText(Get(raws[i], "fact_id")).GetOr(""),
                            OwnIds(Obj(raws[i]), "source_ref_ids"))
  {
    forall i | 0 <= i < |raws|
      ensures FactItemReads(FactItems(render, raws)[i], AsText(Get(raws[i], "fact_id")).GetOr(""),
                            OwnIds(Obj(raws[i]), "source_ref_ids"))
    {
      assert raws[i] in raws;
      FactItemIsRead(render, raws[i], AsText(Get(raws[i], "fact_id")).value);
    }
  }

  // The items of a section name exactly its facts and their sources.
  lemma {:induction false} FactItemsName(render: Render, raws: seq<Dict>, id: string)
    requires forall raw <- raws :: AsText(Get(raw, "fact_id")).Some?
    ensures id in ItemIds(FactItems(render, raws), "fact_ids")
       <==> exists raw <- raws :: AsText(Get(raw, "fact_id")) == Some(id)
  {
    var items := FactItems(render, raws);
    FactItemsAreRead(render, raws);
    forall i | 0 <= i < |raws|
      ensures id in Nested(Obj(items[i]), "fact_ids") <==> AsText(Get(raws[i], "fact_id")) == Some(id)
    {
      assert raws[i] in raws;
      assert FactItemReads(items[i], AsText(Get(raws[i], "fact_id")).GetOr(""), OwnIds(Obj(raws[i]), "source_ref_ids"));
    }
    if raw :| raw in raws && AsText(Get(raw, "fact_id")) == Some(id) {
      var i :| 0 <= i < |raws| && raws[i] == raw;
      assert id in Nested(Obj(items[i]), "fact_ids");
    }
    if id in ItemIds(items, "fact_ids") {
      var i :| 0 <= i < |items| && id in Nested(Obj(items[i]), "fact_ids");
      assert raws[i] in raws;
    }
  }

  lemma {:induction false} FactItemsCite(render: Render, raws: seq<Dict>, id: string)
    requires forall raw <- raws :: AsText(Get(raw, "fact_id")).Some?
    ensures id in ItemIds(FactItems(render, raws), "source_ref_ids")
       <==> exists raw <- raws :: id in OwnIds(Obj(raw), "source_ref_ids")
  {
    var items := FactItems(render, raws);
    FactItemsAreRead(render, raws);
    forall i | 0 <= i < |raws|
      ensures id in Nested(Obj(items[i]), "source_ref_ids") <==> id in OwnIds(Obj(raws[i]), "source_ref_ids")
    {
      assert FactItemReads(items[i], AsText(Get(raws[i], "fact_id")).GetOr(""), OwnIds(Obj(raws[i]), "source_ref_ids"));
    }
    if raw :| raw in raws && id in OwnIds(Obj(raw), "source_ref_ids") {
      var i :| 0 <= i < |raws| && raws[i] == raw;
      assert id in Nested(Obj(items[i]), "source_ref_ids");
    }
    if id in ItemIds(items, "source_ref_ids") {
      var i :| 0 <= i < |items| && id in Nested(Obj(items[i]), "source_ref_ids");
      assert raws[i] in raws;
    }
  }

  ghost predicate Refers(section: Section, facts: set<string>, sources: set<string>) {
    && FactRefs(section) <= facts && SourceRefs(section) <= sources && SectionRefsAreTexts(section)
  }

  // Facts a section can be built from.
  ghost predicate AllShowable(lib: Lib, snapshot: QualityGate.Snapshot, raws: seq<Dict>) {
    forall raw <- raws ::
      && Showable(lib, snapshot, raw)
      && AsText(Get(raw, "fact_id")).Some? && AsText(Get(raw, "fact_id")).value in snapshot.factIds
  }

  ghost predicate ClaimsNameKnown(claims: seq<Claim>, facts: set<string>, sources: set<string>) {
    forall claim <- claims :: claim.factId in facts && NamesKnown(claim.value, facts, sources)
  }

  lemma {:induction false} ClaimsAreKnown(
      lib: Lib, snapshot: QualityGate.Snapshot, raws: seq<Dict>, claims: seq<Claim>)
    requires AllShowable(lib, snapshot, raws) && ReadClaims(lib, raws) == Some(claims)
    ensures ClaimsNameKnown(claims, SetOf(snapshot.factIds), LoadSources(Dicts(snapshot.payload.sources)).Keys)
  {
    var facts, sources := SetOf(snapshot.factIds), LoadSources(Dicts(snapshot.payload.sources)).Keys;
    ClaimsAreRead(lib, snapshot, raws);
    forall claim | claim in claims ensures claim.factId in facts && NamesKnown(claim.value, facts, sources) {
      var raw :| raw in raws && Present(Get(raw, "value")) && ReadClaim(lib, raw) == Some(claim);
      assert Presentable(lib, snapshot, raw);
    }
  }

  lemma {:induction false} ClaimValuesAreKnown(claims: seq<Claim>, facts: set<string>, sources: set<string>)
    requires ClaimsNameKnown(claims, facts, sources)
    ensures ClaimValueIds(claims, "fact_ids") <= facts && ClaimValueIds(claims, "source_ref_ids") <= sources
  {
    forall id | id in ClaimValueIds(claims, "fact_ids") ensures id in facts {
      var i :| 0 <= i < |claims| && id in Nested(claims[i].value, "fact_ids");
      assert claims[i] in claims;
    }
    forall id | id in ClaimValueIds(claims, "source_ref_ids") ensures id in sources {
      var i :| 0 <= i < |claims| && id in Nested(claims[i].value, "source_ref_ids");
      assert claims[i] in claims;
    }
  }

  // A section over showable facts refers to snapshot facts and sources only.
  lemma {:induction false} FactSectionRefers(
      lib: Lib, render: Render, snapshot: QualityGate.Snapshot, id: SectionId, raws: seq<Dict>, claims: seq<Claim>)
    requires AllShowable(lib, snapshot, raws) && ReadClaims(lib, raws) == Some(claims)
    ensures var section := ItemSection(id, FactItems(render, raws), claims);
            Refers(section, SetOf(snapshot.factIds), LoadSources(Dicts(snapshot.payload.sources)).Keys)
  {
    var section := ItemSection(id, FactItems(render, raws), claims);
    var facts, sources := SetOf(snapshot.factIds), LoadSources(Dicts(snapshot.payload.sources)).Keys;
    ClaimsAreKnown(lib, snapshot, raws, claims);
    FactSectionRefsAreTexts(render, id, raws, claims, facts, sources);
    ItemsNameKnown(lib, render, snapshot, raws);
    ItemsCiteKnown(lib, render, snapshot, raws);
    RefersByParts(section, facts, sources);
  }

  lemma {:induction false} RefersByParts(section: Section, facts: set<string>, sources: set<string>)
    requires ItemIds(section.items, "fact_ids") <= facts && ItemIds(section.items, "source_ref_ids") <= sources
    requires SetOf(section.factIds) == ItemIds(section.items, "fact_ids")
    requires SetOf(section.sourceRefIds) == ItemIds(section.items, "source_ref_ids")
    requires ClaimsNameKnown(section.claims, facts, sources)
    requires SectionRefsAreTexts(section)
    ensures Refers(section, facts, sources)
  {
    ClaimValuesAreKnown(section.claims, facts, sources);
  }

  lemma {:induction false} ItemsNameKnown(lib: Lib, render: Render, snapshot: QualityGate.Snapshot, raws: seq<Dict>)
    requires AllShowable(lib, snapshot, raws)
    ensures ItemIds(FactItems(render, raws), "fact_ids") <= SetOf(snapshot.factIds)
  {
    forall fact | fact in ItemIds(FactItems(render, raws), "fact_ids") ensures fact in SetOf(snapshot.factIds) {
      FactItemsName(render, raws, fact);
    }
  }

  lemma {:induction false} ItemsCiteKnown(lib: Lib, render: Render, snapshot: QualityGate.Snapshot, raws: seq<Dict>)
    requires AllShowable(lib, snapshot, raws)
    ensures ItemIds(FactItems(render, raws), "source_ref_ids") <= LoadSources(Dicts(snapshot.payload.sources)).Keys
  {
    forall source | source in ItemIds(FactItems(render, raws), "source_ref_ids")
      ensures source in LoadSources(Dicts(snapshot.payload.sources)).Keys
    {
      FactItemsCite(render, raws, source);
      var raw :| raw in raws && source in OwnIds(Obj(raw), "source_ref_ids");
      assert Showable(lib, snapshot, raw);
    }
  }

  lemma {:induction false} FactSectionRefsAreTexts(
      render: Render, id: SectionId, raws: seq<Dict>, claims: seq<Claim>, facts: set<string>, sources: set<string>)
    requires forall raw <- raws :: AsText(Get(raw, "fact_id")).Some?
    requires ClaimsNameKnown(claims, facts, sources)
    ensures SectionRefsAreTexts(ItemSection(id, FactItems(render, raws), claims))
  {
    var items := FactItems(render, raws);
    FactItemsAreRead(render, raws);
    forall item | item in items
      ensures RefsAreTexts(Obj(item), "fact_ids") && RefsAreTexts(Obj(item), "source_ref_ids")
    {
      var i :| 0 <= i < |raws| && items[i] == item;
      assert FactItemReads(item, AsText(Get(raws[i], "fact_id")).GetOr(""), OwnIds(Obj(raws[i]), "source_ref_ids"));
    }
    assert RefsOfSection(items, claims, "fact_ids");
    assert RefsOfSection(items, claims, "source_ref_ids");
  }

  lemma {:induction false} SilentItemsShowNothing(items: seq<Dict>)
    requires forall item <- items :: VisibleOf(item) == ""
    ensures VisibleItems(items) == ""
  {
    if items != [] {
      assert items[|items| - 1] in items;
      SilentItemsShowNothing(items[..|items| - 1]);
    }
  }

  lemma {:induction false} SourceItemsAreSilent(lib: Lib, raws: seq<Dict>)
    requires forall raw <- raws :: Canonical(lib, raw)
    ensures var items := SourceItems(raws);
            && VisibleItems(items) == ""
            && ItemIds(items, "fact_ids") == {} && ItemIds(items, "source_ref_ids") == {}
            && RefsOfSection(items, [], "fact_ids") && RefsOfSection(items, [], "source_ref_ids")
  {
    var items := SourceItems(raws);
    forall i | 0 <= i < |items|
      ensures VisibleOf(items[i]) == ""
      ensures Nested(Obj(items[i]), "fact_ids") == {} && Nested(Obj(items[i]), "source_ref_ids") == {}
      ensures RefsAreTexts(Obj(items[i]), "fact_ids") && RefsAreTexts(Obj(items[i]), "source_ref_ids")
    {
      assert raws[i] in raws;
      SourceItemIsSilent(lib, raws[i]);
    }
    SilentItemsShowNothing(items);
  }

  // The source section shows no text and refers to nothing.
  lemma {:induction false} SourceSectionRefers(lib: Lib, raws: seq<Dict>, facts: set<string>, sources: set<string>)
    requires forall raw <- raws :: Canonical(lib, raw)
    ensures SectionMeets(ItemSection(SourceReferences, SourceItems(raws), []), facts, sources)
    ensures CitedFacts(ItemSection(SourceReferences, SourceItems(raws), [])) == {}
    ensures CitedSources(ItemSection(SourceReferences, SourceItems(raws), [])) == {}
  {
    SourceItemsAreSilent(lib, raws);
    ItemSectionMeets(SourceReferences, SourceItems(raws), facts, sources);
  }

  // A section without claims whose items name nothing.
  lemma {:induction false} ItemSectionMeets(id: SectionId, items: seq<Dict>, facts: set<string>, sources: set<string>)
    requires id in REQUIRED_SECTIONS && VisibleItems(items) == ""
    requires ItemIds(items, "fact_ids") == {} && ItemIds(items, "source_ref_ids") == {}
    requires RefsOfSection(items, [], "fact_ids") && RefsOfSection(items, [], "source_ref_ids")
    ensures SectionMeets(ItemSection(id, items, []), facts, sources)
    ensures CitedFacts(ItemSection(id, items, [])) == {} && CitedSources(ItemSection(id, items, [])) == {}
  {
    assert ClaimValueIds([], "fact_ids") == {} && ClaimValueIds([], "source_ref_ids") == {};
  }

  lemma {:induction false} TextSectionMeets(id: SectionId, text: string, facts: set<string>, sources: set<string>)
    requires id in REQUIRED_SECTIONS && |text| <= 30
    ensures SectionMeets(TextSection(id, text), facts, sources)
    ensures CitedFacts(TextSection(id, text)) == {} && CitedSources(TextSection(id, text)) == {}
  {
    var section := TextSection(id, text);
    assert VisibleItems([]) == "" && Visible(section) == text;
  }

  lemma {:induction false} EmptyItemSectionMeets(id: SectionId, facts: set<string>, sources: set<string>)
    requires id in REQUIRED_SECTIONS
    ensures SectionMeets(ItemSection(id, [], []), facts, sources)
    ensures CitedFacts(ItemSection(id, [], [])) == {} && CitedSources(ItemSection(id, [], [])) == {}
  {
    ItemSectionMeets(id, [], facts, sources);
  }

  // ---- The fallback is sound ----------------------------------------------------------------------

  // The parts of soundness that depend on the fact alone.
  lemma {:induction false} ShowableFactReads(lib: Lib, snapshot: QualityGate.Snapshot, raw: Dict)
    requires Showable(lib, snapshot, raw)
    ensures var fact := ReadFact(lib, raw);
            && fact.sourceIds == OwnIds(Obj(raw), "source_ref_ids")
            && !fact.invalidAvailableAt && !fact.invalidReportDate
            && (fact.availableAt.Some? ==> fact.availableAt.value <= snapshot.cutoffAt)
            && (fact.reportDate.Some? ==> fact.reportDate.value == snapshot.reportDate)
  {}

  lemma {:induction false} FactSoundFromParts(
      approved: Approved, snapshot: QualityGate.Snapshot, section: Section, id: string, fact: Fact, source: string)
    requires id in approved.facts && approved.facts[id] == fact && fact.sourceIds <= approved.sources.Keys
    requires !fact.invalidAvailableAt && !fact.invalidReportDate
    requires fact.availableAt.Some? ==> fact.availableAt.value <= snapshot.cutoffAt
    requires fact.reportDate.Some? ==> fact.reportDate.value == snapshot.reportDate
    requires source in fact.sourceIds && source in CitedSources(section)
    ensures FactSound(approved, snapshot, section, id)
  {
    assert source in fact.sourceIds * CitedSources(section);
  }

  lemma {:induction false} ShownFactIsSound(
      lib: Lib, render: Render, snapshot: QualityGate.Snapshot, section: Section, raws: seq<Dict>, raw: Dict)
    requires AllShowable(lib, snapshot, raws) && raw in raws && raw in Dicts(snapshot.payload.facts)
    requires DistinctIds(Dicts(snapshot.payload.facts), "fact_id")
    requires CitedSources(section) == ItemIds(FactItems(render, raws), "source_ref_ids")
    ensures FactSound(ApprovedBy(lib, snapshot), snapshot, section, AsText(Get(raw, "fact_id")).value)
  {
    DistinctFactsLoad(lib, Dicts(snapshot.payload.facts), raw);
    assert Showable(lib, snapshot, raw);
    ShowableFactReads(lib, snapshot, raw);
    var source :| source in OwnIds(Obj(raw), "source_ref_ids");
    FactItemsCite(render, raws, source);
    FactSoundFromParts(ApprovedBy(lib, snapshot), snapshot, section, AsText(Get(raw, "fact_id")).value,
                       ReadFact(lib, raw), source);
  }

  lemma {:induction false} ShownClaimIsSound(lib: Lib, snapshot: QualityGate.Snapshot, raw: Dict, claim: Claim)
    requires Showable(lib, snapshot, raw) && raw in Dicts(snapshot.payload.facts)
    requires DistinctIds(Dicts(snapshot.payload.facts), "fact_id")
    requires Present(Get(raw, "value")) && ReadClaim(lib, raw) == Some(claim)
    ensures ClaimSound(lib, ApprovedBy(lib, snapshot), claim)
  {
    DistinctFactsLoad(lib, Dicts(snapshot.payload.facts), raw);
  }

  lemma {:induction false} ShownClaimsAreSound(
      lib: Lib, snapshot: QualityGate.Snapshot, raws: seq<Dict>, claims: seq<Claim>)
    requires AllShowable(lib, snapshot, raws) && forall raw <- raws :: raw in Dicts(snapshot.payload.facts)
    requires DistinctIds(Dicts(snapshot.payload.facts), "fact_id") && ReadClaims(lib, raws) == Some(claims)
    ensures forall claim <- claims ::
              && ClaimSound(lib, ApprovedBy(lib, snapshot), claim)
              && exists raw <- raws :: AsText(Get(raw, "fact_id")) == Some(claim.factId)
  {
    ClaimsAreRead(lib, snapshot, raws);
    forall claim | claim in claims
      ensures ClaimSound(lib, ApprovedBy(lib, snapshot), claim)
      ensures exists raw <- raws :: AsText(Get(raw, "fact_id")) == Some(claim.factId)
    {
      var raw :| raw in raws && Present(Get(raw, "value")) && ReadClaim(lib, raw) == Some(claim);
      ShownClaimIsSound(lib, snapshot, raw, claim);
    }
  }

  lemma {:induction false} CitedFactIsShown(
      lib: Lib, render: Render, snapshot: QualityGate.Snapshot, section: Section, raws: seq<Dict>, fact: string)
    requires AllShowable(lib, snapshot, raws) && forall raw <- raws :: raw in Dicts(snapshot.payload.facts)
    requires DistinctIds(Dicts(snapshot.payload.facts), "fact_id")
    requires CitedSources(section) == ItemIds(FactItems(render, raws), "source_ref_ids")
    requires fact in ItemIds(FactItems(render, raws), "fact_ids")
             || exists raw <- raws :: AsText(Get(raw, "fact_id")) == Some(fact)
    ensures FactSound(ApprovedBy(lib, snapshot), snapshot, section, fact)
  {
    FactItemsName(render, raws, fact);
    var raw :| raw in raws && AsText(Get(raw, "fact_id")) == Some(fact);
    ShownFactIsSound(lib, render, snapshot, section, raws, raw);
  }

  lemma {:induction false} FactSectionSound(
      lib: Lib, render: Render, snapshot: QualityGate.Snapshot, id: SectionId, raws: seq<Dict>, claims: seq<Claim>)
    requires AllShowable(lib, snapshot, raws) && forall raw <- raws :: raw in Dicts(snapshot.payload.facts)
    requires DistinctIds(Dicts(snapshot.payload.facts), "fact_id")
    requires ReadClaims(lib, raws) == Some(claims)
    ensures SectionSound(lib, ApprovedBy(lib, snapshot), snapshot, ItemSection(id, FactItems(render, raws), claims))
  {
    var section := ItemSection(id, FactItems(render, raws), claims);
    ItemsCiteKnown(lib, render, snapshot, raws);
    ShownClaimsAreSound(lib, snapshot, raws, claims);
    assert CitedSources(section) == ItemIds(FactItems(render, raws), "source_ref_ids");
    forall fact | fact in CitedFacts(section) ensures FactSound(ApprovedBy(lib, snapshot), snapshot, section, fact) {
      CitedFactIsShown(lib, render, snapshot, section, raws, fact);
    }
  }

  ghost predicate Fine(lib: Lib, snapshot: QualityGate.Snapshot, id: SectionId, section: Section) {
    && section.id == id
    && SectionMeets(section, SetOf(snapshot.factIds), LoadSources(Dicts(snapshot.payload.sources)).Keys)
    && SectionSound(lib, ApprovedBy(lib, snapshot), snapshot, section)
  }

  lemma {:induction false} ItemSectionHolds(id: SectionId, items: seq<Dict>, claims: seq<Claim>)
    requires SectionLimit(id).Some? && |VisibleItems(items)| <= SectionLimit(id).value
    ensures SectionHolds(ItemSection(id, items, claims))
  {
    var section := ItemSection(id, items, claims);
    assert Visible(section) == VisibleItems(items);
  }

  lemma {:induction false} FineFromParts(lib: Lib, snapshot: QualityGate.Snapshot, id: SectionId, section: Section)
    requires section.id == id && SectionHolds(section)
    requires Refers(section, SetOf(snapshot.factIds), LoadSources(Dicts(snapshot.payload.sources)).Keys)
    requires SectionSound(lib, ApprovedBy(lib, snapshot), snapshot, section)
    ensures Fine(lib, snapshot, id, section)
  {}

  lemma {:induction false} FactSectionIsFine(
      lib: Lib, render: Render, snapshot: QualityGate.Snapshot, id: SectionId, raws: seq<Dict>)
    requires AllShowable(lib, snapshot, raws) && forall raw <- raws :: raw in Dicts(snapshot.payload.facts)
    requires DistinctIds(Dicts(snapshot.payload.facts), "fact_id")
    requires FitsTheLimit(render, id, raws)
    ensures ReadClaims(lib, raws).Some?
    ensures Fine(lib, snapshot, id, ItemSection(id, FactItems(render, raws), ReadClaims(lib, raws).value))
  {
    ClaimsAreRead(lib, snapshot, raws);
    var claims := ReadClaims(lib, raws).value;
    FactSectionRefers(lib, render, snapshot, id, raws, claims);
    FactSectionSound(lib, render, snapshot, id, raws, claims);
    ItemSectionHolds(id, FactItems(render, raws), claims);
    FineFromParts(lib, snapshot, id, ItemSection(id, FactItems(render, raws), claims));
  }

  lemma {:induction false} SilentSectionIsFine(
      lib: Lib, snapshot: QualityGate.Snapshot, section: Section, id: SectionId)
    requires CitedFacts(section) == {} && CitedSources(section) == {} && section.claims == [] && section.id == id
    requires SectionMeets(section, SetOf(snapshot.factIds), LoadSources(Dicts(snapshot.payload.sources)).Keys)
    ensures Fine(lib, snapshot, id, section)
  {}

  lemma {:induction false} TextSectionIsFine(lib: Lib, snapshot: QualityGate.Snapshot, id: SectionId, text: string)
    requires id in REQUIRED_SECTIONS && |text| <= 30
    ensures Fine(lib, snapshot, id, TextSection(id, text))
  {
    TextSectionMeets(id, text, SetOf(snapshot.factIds), LoadSources(Dicts(snapshot.payload.sources)).Keys);
    SilentSectionIsFine(lib, snapshot, TextSection(id, text), id);
  }

  lemma {:induction false} EmptySectionIsFine(lib: Lib, snapshot: QualityGate.Snapshot, id: SectionId, blocking: bool)
    requires id in REQUIRED_SECTIONS
    ensures Fine(lib, snapshot, id, EmptySection(id, blocking))
  {
    if id == UpcomingCalendar || id == KeyMovements {
      EmptyItemSectionMeets(id, SetOf(snapshot.factIds), LoadSources(Dicts(snapshot.payload.sources)).Keys);
      SilentSectionIsFine(lib, snapshot, ItemSection(id, [], []), id);
    } else {
      TextSectionIsFine(lib, snapshot, id, if blocking then "数据不可用。" else "暂无已验证事实。");
    }
  }

  lemma {:induction false} SourceSectionIsFine(lib: Lib, snapshot: QualityGate.Snapshot)
    requires forall raw <- Dicts(snapshot.payload.sources) :: Canonical(lib, raw)
    ensures Fine(lib, snapshot, SourceReferences,
                 ItemSection(SourceReferences, SourceItems(Dicts(snapshot.payload.sources)), []))
  {
    var raws := Dicts(snapshot.payload.sources);
    SourceSectionRefers(lib, raws, SetOf(snapshot.factIds), LoadSources(raws).Keys);
    SilentSectionIsFine(lib, snapshot, ItemSection(SourceReferences, SourceItems(raws), []), SourceReferences);
  }

  lemma {:induction false} BuiltFactSectionIsFine(
      lib: Lib, render: Render, snapshot: QualityGate.Snapshot, id: SectionId, raws: seq<Dict>, blocking: bool)
    requires id in REQUIRED_SECTIONS && FactsReady(snapshot) && SectionReady(lib, render, snapshot, id, raws)
    requires forall raw <- raws :: raw in Dicts(snapshot.payload.facts)
    ensures var section := BuildFactSection(lib, render, id, raws, blocking);
            section.Some? && Fine(lib, snapshot, id, section.value)
  {
    if raws == [] {
      EmptySectionIsFine(lib, snapshot, id, blocking);
    } else {
      assert AllShowable(lib, snapshot, raws);
      FactSectionIsFine(lib, render, snapshot, id, raws);
    }
  }

  lemma {:induction false} EverySectionIsFine(lib: Lib, render: Render, snapshot: QualityGate.Snapshot, id: SectionId)
    requires Ready(lib, render, snapshot) && id in REQUIRED_SECTIONS
    ensures var section := BuildSection(lib, render, BasisOf(lib, snapshot), id);
            section.Some? && Fine(lib, snapshot, id, section.value)
  {
    if id == SourceReferences {
      SourceSectionIsFine(lib, snapshot);
    } else if id == DataQualityNotice {
      TextSectionIsFine(lib, snapshot, id,
                        Notice(FallbackStatus(lib, snapshot), QualityGate.Issues(snapshot, lib.iso) != []));
    } else {
      BuiltFactSectionIsFine(lib, render, snapshot, id, SectionFacts(Dicts(snapshot.payload.facts), id),
                             Blocking(lib, snapshot));
    }
  }

  // Whatever the gate decided, a ready snapshot gives a payload that meets the report contract.
  lemma {:induction false} FallbackMeetsTheContract(
      lib: Lib, render: Render, snapshot: QualityGate.Snapshot, reportId: string)
    requires Ready(lib, render, snapshot)
    ensures var built := Build(lib, render, snapshot, reportId).payload;
            built.Some? && Holds(built.value, lib.read)
  {
    forall id | id in REQUIRED_SECTIONS
      ensures BuildSection(lib, render, BasisOf(lib, snapshot), id).Some?
      ensures Fine(lib, snapshot, id, BuildSection(lib, render, BasisOf(lib, snapshot), id).value)
    {
      EverySectionIsFine(lib, render, snapshot, id);
    }
    SourcesAgree(lib, Dicts(snapshot.payload.sources));
    var sections := BuildSections(lib, render, BasisOf(lib, snapshot));
    SectionsOfFallback(lib, render, snapshot, sections);
  }

  lemma {:induction false} SectionsOfFallback(
      lib: Lib, render: Render, snapshot: QualityGate.Snapshot, sections: map<SectionId, Section>)
    requires sections.Keys == REQUIRED_SECTIONS
    requires forall id <- sections.Keys ::
               && Some(sections[id]) == BuildSection(lib, render, BasisOf(lib, snapshot), id)
               && Fine(lib, snapshot, id, sections[id])
    ensures HasTheSections(sections)
    ensures sections[SourceReferences].items == SourceItems(Dicts(snapshot.payload.sources))
    ensures AllMeet(sections, Meets(SetOf(snapshot.factIds), LoadSources(Dicts(snapshot.payload.sources)).Keys))
    ensures SectionsSound(lib, ApprovedBy(lib, snapshot), snapshot, sections, REQUIRED_SECTIONS)
  {
    assert SourceReferences in sections.Keys;
  }

  // With a gate result of passed or degraded the fallback is sound, and so it is published.
  lemma {:induction false} FallbackIsSound(lib: Lib, render: Render, snapshot: QualityGate.Snapshot, reportId: string)
    requires Ready(lib, render, snapshot) && GatePasses(lib, snapshot)
    ensures var built := Build(lib, render, snapshot, reportId);
            && Sound(lib, built, snapshot)
            && built.status == (if QualityGate.Issues(snapshot, lib.iso) == [] then Complete else Reduced)
  {
    FallbackMeetsTheContract(lib, render, snapshot, reportId);
    SourcesAgree(lib, Dicts(snapshot.payload.sources));
    forall id | id in REQUIRED_SECTIONS
      ensures BuildSection(lib, render, BasisOf(lib, snapshot), id).Some?
      ensures Fine(lib, snapshot, id, BuildSection(lib, render, BasisOf(lib, snapshot), id).value)
    {
      EverySectionIsFine(lib, render, snapshot, id);
    }
    SectionsOfFallback(lib, render, snapshot, BuildSections(lib, render, BasisOf(lib, snapshot)));
    NoErrorUnlessStopped(QualityGate.Issues(snapshot, lib.iso));
  }

  // An issue is an error exactly when it stops the gate.
  lemma {:induction false} NoErrorUnlessStopped(issues: seq<QualityGate.Issue>)
    ensures NoErrors(issues) <==>
              QualityGate.Decide(issues) == QualityGate.Passed || QualityGate.Decide(issues) == QualityGate.Degraded
  {
    forall issue | issue in issues ensures IsError(issue) <==> issue.Blocks() || issue.AsksRetry() {}
  }

  // ---- What the fallback shows --------------------------------------------------------------------

  // The text an item shows for a fact: the fact's own, or its ID.
  function ShownFor(render: Render, raw: Dict, key: string): string {
    match Get(raw, key)
    case Some(Str(text)) => text
    case Some(value) => render(value)
    case None => AsText(Get(raw, "fact_id")).GetOr("")
  }

  ghost predicate ShowsFact(render: Render, item: Dict, raw: Dict) {
    && TextOf(item, "label") == ShownFor(render, raw, "label")
    && TextOf(item, "text") == ShownFor(render, raw, "display_text")
    && TextOf(item, "name") == ""
    && Nested(Obj(item), "fact_ids") == {AsText(Get(raw, "fact_id")).GetOr("")}
    && Nested(Obj(item), "source_ref_ids") == OwnIds(Obj(raw), "source_ref_ids")
  }

  lemma {:induction false} FactItemShows(render: Render, raw: Dict)
    requires AsText(Get(raw, "fact_id")).Some?
    ensures ShowsFact(render, FactItem(render, raw), raw)
  {
    var item := FactItem(render, raw);
    FactItemIsRead(render, raw, AsText(Get(raw, "fact_id")).value);
    GetFinds(item);
    assert Found(item, 0) && Found(item, 1);
    assert Get(item, "name").None?;
  }

  // The facts of a section are those that name it, in the order of the snapshot.
  lemma {:induction false} SectionFactsFilter(front: seq<Dict>, raw: Dict, id: SectionId)
    requires id in FACT_SECTIONS
    ensures SectionFacts([], id) == []
    ensures SectionName(id)
         == (match id
             case ExecutiveSummary => "executive_summary"
             case CnHighlights => "cn_highlights"
             case HkHighlights => "hk_highlights"
             case UsHighlights => "us_highlights"
             case KeyMovements => "key_movements"
             case _ => "upcoming_calendar")
    ensures SectionFacts(front + [raw], id)
         == SectionFacts(front, id) + (if Get(raw, "section_id") == Some(Str(SectionName(id))) then [raw] else [])
  {
    assert (front + [raw])[..|front|] == front;
  }

  // What a claim says of its fact.
  ghost predicate ClaimsFact(lib: Lib, claim: Claim, raw: Dict) {
    && Some(claim.factId) == AsText(Get(raw, "fact_id")) && Some(claim.value) == Get(raw, "value")
    && (claim.kind == Number <==> Get(raw, "claim_type") == Some(Str("number")))
    && (claim.kind == Date <==> Get(raw, "claim_type") == Some(Str("date")))
    && (claim.kind == Direction <==> Get(raw, "claim_type") == Some(Str("direction")))
    && claim.unit == AsText(Get(raw, "unit")) && claim.direction == AsText(Get(raw, "direction"))
    && claim.periodStart == Parsed(Get(raw, "period_start"), lib.day)
    && claim.periodEnd == Parsed(Get(raw, "period_end"), lib.day)
  }

  // The facts with a value, in order.
  function Valued(raws: seq<Dict>): (valued: seq<Dict>)
    ensures forall raw :: raw in valued <==> raw in raws && Get(raw, "value").GetOr(Null) != Null
  {
    if raws == [] then []
    else
      var last := raws[|raws| - 1];
      assert raws == raws[..|raws| - 1] + [last];
      Valued(raws[..|raws| - 1]) + (if Get(last, "value").GetOr(Null) != Null then [last] else [])
  }

  // A fact can be claimed exactly if its unit and direction are texts or missing and its dates are
  // readable days or missing.
  lemma {:induction false} ClaimableExactlyWhen(lib: Lib, raw: Dict)
    requires AsText(Get(raw, "fact_id")).Some?
    ensures ReadClaim(lib, raw).Some? <==>
              && (forall key <- ["unit", "direction"] ::
                    Get(raw, key).None? || Get(raw, key) == Some(Null) || Get(raw, key).value.Str?)
              && (forall key <- ["period_start", "period_end"] ::
                    || Get(raw, key).None? || Get(raw, key) == Some(Null)
                    || (Get(raw, key).value.Str? && lib.day(Get(raw, key).value.text).Some?))
  {
    var texts, days := ["unit", "direction"], ["period_start", "period_end"];
    assert texts[0] in texts && texts[1] in texts && days[0] in days && days[1] in days;
  }

  // A source item copies the eight fields of its source that are there, and nothing else.
  lemma {:induction false} SourceItemCopies(raw: Dict, key: string)
    ensures Get(SourceItem(raw), key)
         == if key in {"source_ref_id", "provider_id", "provider_record_id", "source_name", "source_url",
                       "retrieved_at", "checksum_sha256", "external_llm_allowed"}
            then Get(raw, key) else None
  {
    assert ITEM_KEYS == ["source_ref_id", "provider_id", "provider_record_id", "source_name", "source_url",
                         "retrieved_at", "checksum_sha256", "external_llm_allowed"];
    CopiedField(raw, ITEM_KEYS, key);
  }

  lemma {:induction false} CopiedField(raw: Dict, keys: seq<string>, key: string)
    ensures Get(PresentFields(raw, keys), key) == if key in keys then Get(raw, key) else None
  {
    if keys != [] {
      var front, last := keys[..|keys| - 1], keys[|keys| - 1];
      CopiedField(raw, front, key);
      assert keys == front + [last];
      if Get(raw, last).Some? {
        GetAppended(PresentFields(raw, front), Field(last, Get(raw, last).value), key);
      } else {
        assert PresentFields(raw, front) + [] == PresentFields(raw, front);
      }
    }
  }

  // There is one claim for each fact with a value, in order, and it copies the fact.
  lemma {:induction false} ClaimsFollowTheFacts(lib: Lib, raws: seq<Dict>)
    requires ReadClaims(lib, raws).Some?
    ensures var claims := ReadClaims(lib, raws).value;
            && |claims| == |Valued(raws)|
            && forall i | 0 <= i < |claims| :: ClaimsFact(lib, claims[i], Valued(raws)[i])
  {
    if raws != [] {
      ClaimsFollowTheFacts(lib, raws[..|raws| - 1]);
      if Present(Get(raws[|raws| - 1], "value")) {
        ClaimCopies(lib, raws[|raws| - 1]);
      }
    }
  }

  lemma {:induction false} ClaimCopies(lib: Lib, raw: Dict)
    requires ReadClaim(lib, raw).Some? && Present(Get(raw, "value"))
    ensures ClaimsFact(lib, ReadClaim(lib, raw).value, raw)
  {
    assert "number"[0] != "date"[0] && "number"[1] != "direction"[1] && "date"[1] != "direction"[1];
    assert "number"[0] != "direction"[0];
  }

  // The fallback is marked by the gate's issues: withheld if one is a required one that is no mere
  // revision, reduced by any other, complete without.
  lemma {:induction false} FallbackIsMarked(
      lib: Lib, render: Render, snapshot: QualityGate.Snapshot, reportId: string)
    ensures var built, issues := Build(lib, render, snapshot, reportId), QualityGate.Issues(snapshot, lib.iso);
            && built.date == snapshot.reportDate && built.snapshotId == snapshot.id && built.lifecycle == Generated
            && (built.status == Incomplete <==>
                  exists issue <- issues :: issue.required && issue.code != QualityGate.HasStatus(QualityGate.Revised))
            && (built.status == Complete <==> issues == [])
            && (built.published <==> built.status != Incomplete)
    ensures var built := Build(lib, render, snapshot, reportId);
            built.payload.Some? ==>
              var report := built.payload.value;
              && report.id == reportId && report.date == snapshot.reportDate && SameIdentity(report, snapshot)
              && report.status == report.qualityStatus == built.status && report.published == built.published
  {
    var issues := QualityGate.Issues(snapshot, lib.iso);
    assert issues != [] ==> issues[0] in issues;
    forall issue | issue in issues
      ensures IsError(issue) <==> issue.required && issue.code != QualityGate.HasStatus(QualityGate.Revised)
    {}
  }

  // A fact section without facts says so, unless it is a list that may be empty; the notice says what
  // the gate's issues made of the report.
  lemma {:induction false} EmptySectionsSaySo(
      lib: Lib, render: Render, snapshot: QualityGate.Snapshot, reportId: string, id: SectionId)
    requires id in FACT_SECTIONS && SectionFacts(Dicts(snapshot.payload.facts), id) == []
    requires Build(lib, render, snapshot, reportId).payload.Some?
    ensures var built := Build(lib, render, snapshot, reportId);
            var sections := built.payload.value.sections;
            && id in sections && sections[id].items == [] && sections[id].claims == []
            && sections[id].text
               == (if id == UpcomingCalendar || id == KeyMovements then None
                   else if built.status == Incomplete then Some("数据不可用。") else Some("暂无已验证事实。"))
  {
    PayloadIsBuilt(lib, render, snapshot, reportId);
    FactSectionIsBuilt(lib, render, BasisOf(lib, snapshot), id);
  }

  lemma {:induction false} NoticeSaysSo(lib: Lib, render: Render, snapshot: QualityGate.Snapshot, reportId: string)
    requires Build(lib, render, snapshot, reportId).payload.Some?
    ensures var built := Build(lib, render, snapshot, reportId);
            var sections := built.payload.value.sections;
            && DataQualityNotice in sections && sections[DataQualityNotice].items == []
            && sections[DataQualityNotice].text.Some?
            && IsNotice(sections[DataQualityNotice].text.value, built.status, built.status != Incomplete,
                        built.status == Reduced)
  {
    PayloadIsBuilt(lib, render, snapshot, reportId);
    FallbackIsMarked(lib, render, snapshot, reportId);
    assert Some(BuildSections(lib, render, BasisOf(lib, snapshot))[DataQualityNotice])
        == BuildSection(lib, render, BasisOf(lib, snapshot), DataQualityNotice);
  }

  // Every fact section of a built fallback shows each of its facts by one item, in order, and
  // claims each of them that has a value. A section without facts shows no item.
  lemma {:induction false} FallbackShowsItsFacts(
      lib: Lib, render: Render, snapshot: QualityGate.Snapshot, reportId: string, id: SectionId)
    requires FactsReady(snapshot) && id in FACT_SECTIONS
    requires Build(lib, render, snapshot, reportId).payload.Some?
    ensures var sections := Build(lib, render, snapshot, reportId).payload.value.sections;
            var raws := SectionFacts(Dicts(snapshot.payload.facts), id);
            && id in sections && |sections[id].items| == |raws|
            && (forall i | 0 <= i < |raws| :: ShowsFact(render, sections[id].items[i], raws[i]))
            && |sections[id].claims| == |Valued(raws)|
            && (forall i | 0 <= i < |Valued(raws)| :: ClaimsFact(lib, sections[id].claims[i], Valued(raws)[i]))
  {
    PayloadIsBuilt(lib, render, snapshot, reportId);
    FactSectionIsBuilt(lib, render, BasisOf(lib, snapshot), id);
    BuiltSectionShows(lib, render, id, SectionFacts(Dicts(snapshot.payload.facts), id), Blocking(lib, snapshot));
  }

  lemma {:induction false} BuiltSectionShows(
      lib: Lib, render: Render, id: SectionId, raws: seq<Dict>, blocking: bool)
    requires forall raw <- raws :: AsText(Get(raw, "fact_id")).Some?
    requires BuildFactSection(lib, render, id, raws, blocking).Some?
    ensures var section := BuildFactSection(lib, render, id, raws, blocking).value;
            && |section.items| == |raws|
            && (forall i | 0 <= i < |raws| :: ShowsFact(render, section.items[i], raws[i]))
            && |section.claims| == |Valued(raws)|
            && (forall i | 0 <= i < |Valued(raws)| :: ClaimsFact(lib, section.claims[i], Valued(raws)[i]))
  {
    forall i | 0 <= i < |raws| ensures ShowsFact(render, FactItem(render, raws[i]), raws[i]) {
      assert raws[i] in raws;
      FactItemShows(render, raws[i]);
    }
    if raws != [] {
      ClaimsFollowTheFacts(lib, raws);
    }
  }

  predicate GatePasses(lib: Lib, snapshot: QualityGate.Snapshot) {
    var decision := QualityGate.Decide(QualityGate.Issues(snapshot, lib.iso));
    decision == QualityGate.Passed || decision == QualityGate.Degraded
  }

  // Where a fallback ends whose gate passed: complete, or degraded with the gate.
  function StatusByGate(lib: Lib, snapshot: QualityGate.Snapshot): ReportStatus {
    if QualityGate.Decide(QualityGate.Issues(snapshot, lib.iso)) == QualityGate.Passed then Complete else Reduced
  }

  // Validating and finalizing the fallback publishes it, as complete if the gate passed and as
  // degraded otherwise, and the payload with the rewritten notice still meets the contract.
  lemma {:induction false} FallbackIsPublished(
      lib: Lib, render: Render, snapshot: QualityGate.Snapshot, reportId: string)
    requires Ready(lib, render, snapshot) && GatePasses(lib, snapshot)
    ensures var final := Settled(lib, Build(lib, render, snapshot, reportId), snapshot);
            && final.lifecycle == Validated && final.published
            && final.status == StatusByGate(lib, snapshot)
            && final.payload.Some? && Holds(final.payload.value, lib.read)
  {
    FallbackIsSound(lib, render, snapshot, reportId);
    GateStatus(lib, snapshot);
    SoundSettles(lib, Build(lib, render, snapshot, reportId), snapshot);
    FallbackStaysInContract(lib, render, snapshot, reportId, StatusByGate(lib, snapshot),
                            Notice(StatusByGate(lib, snapshot), Reduces(lib, snapshot)));
  }

  // The notice of a fallback has no items and room for any notice text.
  lemma {:induction false} FallbackStaysInContract(
      lib: Lib, render: Render, snapshot: QualityGate.Snapshot, reportId: string, status: ReportStatus, text: string)
    requires Ready(lib, render, snapshot) && |text| <= 30
    ensures var built := Build(lib, render, snapshot, reportId).payload;
            built.Some? && Holds(Finalized(built.value, status, text), lib.read)
  {
    FallbackMeetsTheContract(lib, render, snapshot, reportId);
    var report := Build(lib, render, snapshot, reportId).payload.value;
    var basis := BasisOf(lib, snapshot);
    FallbackNotice(lib, render, basis);
    TextSectionIsRoomy(basis.notice);
    assert report.sections[DataQualityNotice] == TextSection(DataQualityNotice, basis.notice);
    FinalizedMeetsContractExactlyWhen(lib, report, status, text);
  }

  lemma {:induction false} GateStatus(lib: Lib, snapshot: QualityGate.Snapshot)
    requires GatePasses(lib, snapshot)
    ensures NoErrors(QualityGate.Issues(snapshot, lib.iso))
    ensures Reduces(lib, snapshot) <==> QualityGate.Issues(snapshot, lib.iso) != []
    ensures StatusByGate(lib, snapshot) == if Reduces(lib, snapshot) then Reduced else Complete
  {
    var quality := QualityGate.Issues(snapshot, lib.iso);
    NoErrorUnlessStopped(quality);
    assert quality != [] ==> quality[0] in quality && !IsError(quality[0]);
  }

  lemma {:induction false} FallbackNotice(lib: Lib, render: Render, basis: Basis)
    requires Buildable(lib, render, basis)
    ensures var sections := BuildSections(lib, render, basis);
            DataQualityNotice in sections && sections[DataQualityNotice] == TextSection(DataQualityNotice, basis.notice)
  {
    assert DataQualityNotice in REQUIRED_SECTIONS;
  }

  lemma {:induction false} TextSectionIsRoomy(text: string)
    ensures var section := TextSection(DataQualityNotice, text);
            VisibleItems(section.items) == "" && section.maxCharacters == 600
  {}

  // ---- The builder, section by section --------------------------------------------------------------

  const SECTION_ORDER := [ExecutiveSummary, CnHighlights, HkHighlights, UsHighlights, KeyMovements, UpcomingCalendar,
                          DataQualityNotice, SourceReferences]

  function IdsOf(ids: seq<SectionId>): set<SectionId> {
    set id <- ids
  }

  ghost predicate BuiltSoFar(lib: Lib, render: Render, basis: Basis, sections: map<SectionId, Section>) {
    forall id <- sections.Keys :: Some(sections[id]) == BuildSection(lib, render, basis, id)
  }

  // The builder's loop over the sections.
  method BuildInOrder(lib: Lib, render: Render, basis: Basis, order: seq<SectionId>)
    returns (built: Option<map<SectionId, Section>>)
    ensures built.Some? ==> built.value.Keys == IdsOf(order) && BuiltSoFar(lib, render, basis, built.value)
    ensures built.None? ==> exists id <- order :: BuildSection(lib, render, basis, id).None?
  {
    var sections: map<SectionId, Section> := map[];
    for n := 0 to |order|
      invariant sections.Keys == IdsOf(order[..n])
      invariant BuiltSoFar(lib, render, basis, sections)
    {
      var id := order[n];
      assert order[..n + 1] == order[..n] + [id];
      var section := BuildSection(lib, render, basis, id);
      if section.None? {
        return None;
      }
      sections := sections[id := section.value];
    }
    assert order[..|order|] == order;
    return Some(sections);
  }

  lemma {:induction false} OrderIsComplete()
    ensures IdsOf(SECTION_ORDER) == REQUIRED_SECTIONS
  {}

  lemma {:induction false} BuiltInOrder(
      lib: Lib, render: Render, basis: Basis, order: seq<SectionId>, built: Option<map<SectionId, Section>>)
    requires IdsOf(order) == REQUIRED_SECTIONS
    requires built.Some? ==> built.value.Keys == IdsOf(order) && BuiltSoFar(lib, render, basis, built.value)
    requires built.None? ==> exists id <- order :: BuildSection(lib, render, basis, id).None?
    ensures built == if Buildable(lib, render, basis) then Some(BuildSections(lib, render, basis)) else None
  {
    if built.None? {
      var id :| id in order && BuildSection(lib, render, basis, id).None?;
      assert id in IdsOf(order);
    } else {
      assert forall id | id in REQUIRED_SECTIONS :: id in built.value.Keys;
      assert built.value == BuildSections(lib, render, basis);
    }
  }

  // ReportFallbackBuilder.build
  method BuildFallback(lib: Lib, render: Render, snapshot: QualityGate.Snapshot, reportId: string)
    returns (stored: Stored)
    ensures stored == Build(lib, render, snapshot, reportId)
  {
    var basis := BasisOf(lib, snapshot);
    var status := FallbackStatus(lib, snapshot);
    var built := BuildInOrder(lib, render, basis, SECTION_ORDER);
    OrderIsComplete();
    BuiltInOrder(lib, render, basis, SECTION_ORDER, built);
    var reference := SnapshotRef(snapshot.id, snapshot.version, snapshot.asOf, snapshot.cutoffAt,
                                 snapshot.fingerprint, snapshot.factIds);
    var payload := match built
                   case None => None
                   case Some(sections) => Some(Report(reportId, snapshot.reportDate, reference, status,
                                                      status != Incomplete, status, sections));
    stored := Stored(snapshot.reportDate, snapshot.id, status, status != Incomplete, Generated, payload);
  }

  /** validate_or_fallback without a candidate: build the fallback, validate it and finalize it. */
  method PublishFallback(lib: Lib, render: Render, snapshot: QualityGate.Snapshot, reportId: string)
    returns (final: Stored)
    requires FactsReady(snapshot) && SourcesReady(lib, snapshot)
    ensures final == Settled(lib, Build(lib, render, snapshot, reportId), snapshot)
    ensures final.lifecycle == Validated <==> GatePasses(lib, snapshot) && SectionsReady(lib, render, snapshot)
    ensures final.published ==>
              && final.status == StatusByGate(lib, snapshot)
              && final.payload.Some? && Holds(final.payload.value, lib.read)
    ensures !final.published ==> final.lifecycle == Failed && final.status == Incomplete
  {
    var built := BuildFallback(lib, render, snapshot, reportId);
    final := ValidateAndFinalize(lib, built, snapshot);
    FallbackIsPublishedExactlyWhen(lib, render, snapshot, reportId);
  }

  // ---- The condition is exact -----------------------------------------------------------------------

  lemma {:induction false} FactHasItsClaim(lib: Lib, raws: seq<Dict>, raw: Dict)
    requires raw in raws && Present(Get(raw, "value")) && ReadClaims(lib, raws).Some?
    ensures ReadClaim(lib, raw).Some? && ReadClaim(lib, raw).value in ReadClaims(lib, raws).value
  {
    var n := |raws| - 1;
    if raws[n] != raw {
      assert raws == raws[..n] + [raws[n]];
      FactHasItsClaim(lib, raws[..n], raw);
    }
  }

  lemma {:induction false} SoundFactCites(lib: Lib, snapshot: QualityGate.Snapshot, section: Section, raw: Dict)
    requires FactsReady(snapshot) && raw in Dicts(snapshot.payload.facts)
    requires FactSound(ApprovedBy(lib, snapshot), snapshot, section, AsText(Get(raw, "fact_id")).value)
    ensures OwnIds(Obj(raw), "source_ref_ids") != {}
    ensures OwnIds(Obj(raw), "source_ref_ids") <= LoadSources(Dicts(snapshot.payload.sources)).Keys
    ensures InTime(lib, snapshot, raw)
    ensures Present(Get(raw, "report_date")) ==>
              Parsed(Get(raw, "report_date"), lib.day) == Some(snapshot.reportDate)
  {
    DistinctFactsLoad(lib, Dicts(snapshot.payload.facts), raw);
  }

  lemma {:induction false} SoundClaimIsNoBoolean(lib: Lib, snapshot: QualityGate.Snapshot, raw: Dict)
    requires FactsReady(snapshot) && raw in Dicts(snapshot.payload.facts)
    requires ReadClaim(lib, raw).Some? && ClaimSound(lib, ApprovedBy(lib, snapshot), ReadClaim(lib, raw).value)
    ensures Present(Get(raw, "value")) ==> !Get(raw, "value").value.Bool?
  {
    DistinctFactsLoad(lib, Dicts(snapshot.payload.facts), raw);
  }

  lemma {:induction false} ClaimInRefs(section: Section, claim: Claim, facts: set<string>, sources: set<string>)
    requires Refers(section, facts, sources) && claim in section.claims
    ensures NamesKnown(claim.value, facts, sources)
  {
    var i :| 0 <= i < |section.claims| && section.claims[i] == claim;
    forall id | id in Nested(claim.value, "fact_ids") ensures id in facts {
      assert id in ClaimValueIds(section.claims, "fact_ids");
    }
    forall id | id in Nested(claim.value, "source_ref_ids") ensures id in sources {
      assert id in ClaimValueIds(section.claims, "source_ref_ids");
    }
  }

  lemma {:induction false} FineParts(lib: Lib, snapshot: QualityGate.Snapshot, id: SectionId, section: Section)
    requires Fine(lib, snapshot, id, section)
    ensures SectionHolds(section) && SectionSound(lib, ApprovedBy(lib, snapshot), snapshot, section)
    ensures Refers(section, SetOf(snapshot.factIds), LoadSources(Dicts(snapshot.payload.sources)).Keys)
  {}

  lemma {:induction false} SoundValueShows(
      lib: Lib, snapshot: QualityGate.Snapshot, section: Section, raws: seq<Dict>, raw: Dict, facts: set<string>,
      sources: set<string>)
    requires FactsReady(snapshot) && raw in raws && raw in Dicts(snapshot.payload.facts)
    requires ReadClaims(lib, raws) == Some(section.claims) && Present(Get(raw, "value"))
    requires forall claim <- section.claims :: ClaimSound(lib, ApprovedBy(lib, snapshot), claim)
    requires Refers(section, facts, sources)
    ensures ReadClaim(lib, raw).Some? && !Get(raw, "value").value.Bool?
    ensures NamesKnown(Get(raw, "value").value, facts, sources)
  {
    FactHasItsClaim(lib, raws, raw);
    SoundClaimIsNoBoolean(lib, snapshot, raw);
    ClaimInRefs(section, ReadClaim(lib, raw).value, facts, sources);
  }

  // What contract and validator say of one built section, said of a fact in it.
  lemma {:induction false} SoundSectionShows(
      lib: Lib, render: Render, snapshot: QualityGate.Snapshot, section: Section, raws: seq<Dict>, raw: Dict)
    requires FactsReady(snapshot) && raw in raws && forall fact <- raws :: fact in Dicts(snapshot.payload.facts)
    requires section.items == FactItems(render, raws) && ReadClaims(lib, raws) == Some(section.claims)
    requires SectionSound(lib, ApprovedBy(lib, snapshot), snapshot, section)
    requires Refers(section, SetOf(snapshot.factIds), LoadSources(Dicts(snapshot.payload.sources)).Keys)
    ensures Showable(lib, snapshot, raw)
  {
    SectionFactCites(lib, render, snapshot, section, raws, raw);
    if Present(Get(raw, "value")) {
      SoundValueShows(lib, snapshot, section, raws, raw, SetOf(snapshot.factIds),
                      LoadSources(Dicts(snapshot.payload.sources)).Keys);
    }
  }

  lemma {:induction false} SectionFactCites(
      lib: Lib, render: Render, snapshot: QualityGate.Snapshot, section: Section, raws: seq<Dict>, raw: Dict)
    requires FactsReady(snapshot) && raw in raws && forall fact <- raws :: fact in Dicts(snapshot.payload.facts)
    requires section.items == FactItems(render, raws)
    requires SectionSound(lib, ApprovedBy(lib, snapshot), snapshot, section)
    ensures OwnIds(Obj(raw), "source_ref_ids") != {}
    ensures OwnIds(Obj(raw), "source_ref_ids") <= LoadSources(Dicts(snapshot.payload.sources)).Keys
    ensures InTime(lib, snapshot, raw)
    ensures Present(Get(raw, "report_date")) ==>
              Parsed(Get(raw, "report_date"), lib.day) == Some(snapshot.reportDate)
  {
    var fact := AsText(Get(raw, "fact_id")).value;
    FactItemsName(render, raws, fact);
    assert fact in CitedFacts(section);
    SoundFactCites(lib, snapshot, section, raw);
  }

  lemma {:induction false} SoundSectionShowsAll(
      lib: Lib, render: Render, snapshot: QualityGate.Snapshot, section: Section, raws: seq<Dict>)
    requires FactsReady(snapshot) && forall fact <- raws :: fact in Dicts(snapshot.payload.facts)
    requires section.items == FactItems(render, raws) && ReadClaims(lib, raws) == Some(section.claims)
    requires SectionSound(lib, ApprovedBy(lib, snapshot), snapshot, section)
    requires Refers(section, SetOf(snapshot.factIds), LoadSources(Dicts(snapshot.payload.sources)).Keys)
    ensures AllShow(lib, snapshot, raws)
  {
    forall raw | raw in raws ensures Showable(lib, snapshot, raw) {
      SoundSectionShows(lib, render, snapshot, section, raws, raw);
    }
  }

  lemma {:induction false} BuiltSectionIs(
      lib: Lib, render: Render, id: SectionId, raws: seq<Dict>, blocking: bool, section: Section)
    requires raws != [] && BuildFactSection(lib, render, id, raws, blocking) == Some(section)
    ensures ReadClaims(lib, raws) == Some(section.claims)
    ensures section == ItemSection(id, FactItems(render, raws), section.claims)
    ensures section.items == FactItems(render, raws)
  {}

  lemma {:induction false} SoundSectionIsReady(
      lib: Lib, render: Render, snapshot: QualityGate.Snapshot, id: SectionId, raws: seq<Dict>, blocking: bool,
      section: Section)
    requires FactsReady(snapshot) && id in FACT_SECTIONS && forall fact <- raws :: fact in Dicts(snapshot.payload.facts)
    requires BuildFactSection(lib, render, id, raws, blocking) == Some(section) && SectionHolds(section)
    requires SectionSound(lib, ApprovedBy(lib, snapshot), snapshot, section)
    requires Refers(section, SetOf(snapshot.factIds), LoadSources(Dicts(snapshot.payload.sources)).Keys)
    ensures SectionReady(lib, render, snapshot, id, raws)
  {
    BuiltSectionFits(lib, render, id, raws, blocking, section);
    if raws != [] {
      BuiltSectionIs(lib, render, id, raws, blocking, section);
      SoundSectionShowsAll(lib, render, snapshot, section, raws);
    }
  }

  lemma {:induction false} BuiltSectionFits(
      lib: Lib, render: Render, id: SectionId, raws: seq<Dict>, blocking: bool, section: Section)
    requires id in FACT_SECTIONS && BuildFactSection(lib, render, id, raws, blocking) == Some(section)
    requires SectionHolds(section)
    ensures FitsTheLimit(render, id, raws)
  {
    if raws == [] {
      assert FactItems(render, raws) == [];
    } else {
      BuiltSectionIs(lib, render, id, raws, blocking, section);
      HeldSectionFits(id, FactItems(render, raws), section.claims);
    }
  }

  lemma {:induction false} HeldSectionFits(id: SectionId, items: seq<Dict>, claims: seq<Claim>)
    requires SectionLimit(id).Some? && SectionHolds(ItemSection(id, items, claims))
    ensures |VisibleItems(items)| <= SectionLimit(id).value
  {
    assert Visible(ItemSection(id, items, claims)) == VisibleItems(items);
  }

  // A sound fallback is fine in each of its sections.
  lemma {:induction false} SoundSectionIsFine(
      lib: Lib, stored: Stored, snapshot: QualityGate.Snapshot, id: SectionId)
    requires Sound(lib, stored, snapshot) && id in REQUIRED_SECTIONS
    requires stored.payload.value.sections[SourceReferences].items == SourceItems(Dicts(snapshot.payload.sources))
    requires SourcesReady(lib, snapshot)
    ensures id in stored.payload.value.sections && Fine(lib, snapshot, id, stored.payload.value.sections[id])
  {
    var report := stored.payload.value;
    SourcesAgree(lib, Dicts(snapshot.payload.sources));
    var sources := ReadSources(report.sections[SourceReferences].items, lib.read).value;
    assert Meets(SetOf(report.snapshot.factIds), SourceIds(sources))(report.sections[id]);
  }

  lemma {:induction false} PayloadIsBuilt(lib: Lib, render: Render, snapshot: QualityGate.Snapshot, reportId: string)
    requires Build(lib, render, snapshot, reportId).payload.Some?
    ensures Buildable(lib, render, BasisOf(lib, snapshot))
    ensures Build(lib, render, snapshot, reportId).payload.value.sections
         == BuildSections(lib, render, BasisOf(lib, snapshot))
  {}

  lemma {:induction false} SourcesAreBuilt(lib: Lib, render: Render, basis: Basis)
    requires Buildable(lib, render, basis)
    ensures var sections := BuildSections(lib, render, basis);
            SourceReferences in sections && sections[SourceReferences].items == SourceItems(basis.sources)
  {
    assert SourceReferences in REQUIRED_SECTIONS;
  }

  lemma {:induction false} FactSectionIsBuilt(lib: Lib, render: Render, basis: Basis, id: SectionId)
    requires id in FACT_SECTIONS && Buildable(lib, render, basis)
    ensures id in BuildSections(lib, render, basis) && id in REQUIRED_SECTIONS
    ensures Some(BuildSections(lib, render, basis)[id])
         == BuildFactSection(lib, render, id, SectionFacts(basis.facts, id), basis.blocking)
  {
    assert id in REQUIRED_SECTIONS && id != SourceReferences && id != DataQualityNotice;
    assert Some(BuildSections(lib, render, basis)[id]) == BuildSection(lib, render, basis, id);
  }

  lemma {:induction false} SoundBuild(lib: Lib, render: Render, snapshot: QualityGate.Snapshot, reportId: string)
    requires Sound(lib, Build(lib, render, snapshot, reportId), snapshot)
    ensures Buildable(lib, render, BasisOf(lib, snapshot)) && GatePasses(lib, snapshot)
    ensures Build(lib, render, snapshot, reportId).payload.value.sections
         == BuildSections(lib, render, BasisOf(lib, snapshot))
  {
    NoErrorUnlessStopped(QualityGate.Issues(snapshot, lib.iso));
  }

  // With well-formed facts and metadata the fallback is sound exactly when the gate did not stop
  // it and every section is ready: it fits its limit and each of its facts can be shown.
  lemma {:induction false} FallbackIsSoundExactlyWhen(
      lib: Lib, render: Render, snapshot: QualityGate.Snapshot, reportId: string)
    requires FactsReady(snapshot) && SourcesReady(lib, snapshot)
    ensures Sound(lib, Build(lib, render, snapshot, reportId), snapshot)
       <==> GatePasses(lib, snapshot) && SectionsReady(lib, render, snapshot)
  {
    if GatePasses(lib, snapshot) && SectionsReady(lib, render, snapshot) {
      FallbackIsSound(lib, render, snapshot, reportId);
    }
    var built := Build(lib, render, snapshot, reportId);
    if Sound(lib, built, snapshot) {
      var basis := BasisOf(lib, snapshot);
      SoundBuild(lib, render, snapshot, reportId);
      SourcesAreBuilt(lib, render, basis);
      forall id | id in FACT_SECTIONS
        ensures SectionReady(lib, render, snapshot, id, SectionFacts(Dicts(snapshot.payload.facts), id))
      {
        FactSectionIsBuilt(lib, render, basis, id);
        SoundSectionIsFine(lib, built, snapshot, id);
        FineParts(lib, snapshot, id, built.payload.value.sections[id]);
        SoundSectionIsReady(lib, render, snapshot, id, SectionFacts(basis.facts, id), basis.blocking,
                            built.payload.value.sections[id]);
      }
    }
  }

  lemma {:induction false} FallbackIsPublishedExactlyWhen(
      lib: Lib, render: Render, snapshot: QualityGate.Snapshot, reportId: string)
    requires FactsReady(snapshot) && SourcesReady(lib, snapshot)
    ensures var final := Settled(lib, Build(lib, render, snapshot, reportId), snapshot);
            && (final.lifecycle == Validated <==> GatePasses(lib, snapshot) && SectionsReady(lib, render, snapshot))
            && (final.lifecycle == Validated ==>
                  && final.published && final.status == StatusByGate(lib, snapshot)
                  && final.payload.Some? && Holds(final.payload.value, lib.read))
            && (final.lifecycle != Validated ==> final.lifecycle == Failed && final.status == Incomplete)
  {
    FallbackIsSoundExactlyWhen(lib, render, snapshot, reportId);
    if GatePasses(lib, snapshot) && SectionsReady(lib, render, snapshot) {
      FallbackIsPublished(lib, render, snapshot, reportId);
    }
  }

  // A sectioned fact whose value is a boolean fails its fallback, whatever else the snapshot holds.
  lemma {:induction false} BooleanStopsTheFallback(
      lib: Lib, render: Render, snapshot: QualityGate.Snapshot, reportId: string, id: SectionId, raw: Dict, flag: bool)
    requires FactsReady(snapshot) && SourcesReady(lib, snapshot)
    requires id in FACT_SECTIONS && raw in SectionFacts(Dicts(snapshot.payload.facts), id)
    requires Get(raw, "value") == Some(Bool(flag))
    ensures !Sound(lib, Build(lib, render, snapshot, reportId), snapshot)
    ensures Settled(lib, Build(lib, render, snapshot, reportId), snapshot).lifecycle == Failed
  {
    FallbackIsSoundExactlyWhen(lib, render, snapshot, reportId);
    assert !Showable(lib, snapshot, raw);
    assert !SectionReady(lib, render, snapshot, id, SectionFacts(Dicts(snapshot.payload.facts), id));
  }
}
