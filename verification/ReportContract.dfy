/** The daily report and the contract its payload has to meet. */
module ReportContract {
  import opened Json
  import opened Prelude

  type Dict = seq<Field>

  datatype SectionId =
    | ExecutiveSummary | CnHighlights | HkHighlights | UsHighlights
    | KeyMovements | UpcomingCalendar | DataQualityNotice | SourceReferences
    | Other(name: string)

  const REQUIRED_SECTIONS := {
    ExecutiveSummary, CnHighlights, HkHighlights, UsHighlights,
    KeyMovements, UpcomingCalendar, DataQualityNotice, SourceReferences}

  // The contract limit of a section; only the eight known sections have one.
  function SectionLimit(id: SectionId): Option<nat> {
    match id
    case ExecutiveSummary => Some(800)
    case CnHighlights => Some(1000)
    case HkHighlights => Some(1000)
    case UsHighlights => Some(1000)
    case KeyMovements => Some(1200)
    case UpcomingCalendar => Some(1600)
    case DataQualityNotice => Some(600)
    case SourceReferences => Some(4000)
    case Other(_) => None
  }

  datatype ClaimKind = Number | Date | Direction | Words

  datatype Claim = Claim(
    kind: ClaimKind, factId: string, value: Json, unit: Option<string>, direction: Option<string>,
    periodStart: Option<int>, periodEnd: Option<int>)

  datatype Section = Section(
    id: SectionId, characterCount: nat, maxCharacters: nat, text: Option<string>,
    factIds: seq<string>, sourceRefIds: seq<string>, items: seq<Dict>, claims: seq<Claim>)

  // complete, degraded, incomplete
  datatype ReportStatus = Complete | Reduced | Incomplete

  datatype SnapshotRef = SnapshotRef(
    id: string, version: string, asOf: int, cutoffAt: int, fingerprint: string, factIds: seq<string>)

  datatype Report = Report(
    id: string, date: int, snapshot: SnapshotRef, status: ReportStatus, published: bool,
    qualityStatus: ReportStatus, sections: map<SectionId, Section>)

  // What a source reference reads as: its ID and all of its fields, normalized.
  datatype Source = Source(id: string, record: map<string, Json>)

  // ---- Visible text ---------------------------------------------------------------------------

  function TextOf(item: Dict, key: string): string {
    AsText(Get(item, key)).GetOr("")
  }

  function VisibleOf(item: Dict): string {
    TextOf(item, "label") + TextOf(item, "text") + TextOf(item, "name")
  }

  function VisibleItems(items: seq<Dict>): string {
    if items == [] then "" else VisibleItems(items[..|items| - 1]) + VisibleOf(items[|items| - 1])
  }

  function Visible(section: Section): string {
    section.text.GetOr("") + VisibleItems(section.items)
  }

  predicate SectionHolds(section: Section) {
    && |Visible(section)| == section.characterCount <= section.maxCharacters
    && section.maxCharacters >= 1
    && (SectionLimit(section.id).Some? ==> section.maxCharacters <= SectionLimit(section.id).value)
  }

  // validate_visible_text
  method CheckSection(section: Section) returns (ok: bool)
    requires section.maxCharacters >= 1
    ensures ok == SectionHolds(section)
  {
    var visible := section.text.GetOr("");
    for n := 0 to |section.items|
      invariant visible == section.text.GetOr("") + VisibleItems(section.items[..n])
    {
      assert section.items[..n + 1][..n] == section.items[..n];
      var item := section.items[n];
      ghost var before := visible;
      visible := visible + TextOf(item, "label");
      visible := visible + TextOf(item, "text");
      visible := visible + TextOf(item, "name");
      assert visible == before + VisibleOf(item);
      assert VisibleItems(section.items[..n + 1]) == VisibleItems(section.items[..n]) + VisibleOf(item);
    }
    assert section.items[..|section.items|] == section.items;
    var limit := SectionLimit(section.id);
    ok := && |visible| == section.characterCount
          && (limit.None? || section.maxCharacters <= limit.value)
          && section.characterCount <= section.maxCharacters;
  }

  // ---- References at any depth ----------------------------------------------------------------

  function Texts(items: seq<Json>): set<string> {
    if items == [] then {}
    else Texts(items[..|items| - 1]) + (match items[|items| - 1] case Str(s) => {s} case _ => {})
  }

  // The strings of the list under `key`, if there is a list.
  function OwnIds(value: Json, key: string): set<string> {
    match value
    case Obj(fields) => (match Get(fields, key) case Some(Arr(items)) => Texts(items) case _ => {})
    case _ => {}
  }

  lemma {:induction false} TextsAreTheStrings(items: seq<Json>, id: string)
    ensures id in Texts(items) <==> Str(id) in items
  {
    if items != [] {
      TextsAreTheStrings(items[..|items| - 1], id);
      assert items == items[..|items| - 1] + [items[|items| - 1]];
    }
  }

  // A value names an ID itself exactly if it is an object with a list under the key and the ID is a
  // string of that list.
  lemma {:induction false} OwnIdsAreListed(value: Json, key: string, id: string)
    ensures id in OwnIds(value, key) <==>
              && value.Obj? && Get(value.fields, key).Some? && Get(value.fields, key).value.Arr?
              && Str(id) in Get(value.fields, key).value.items
  {
    if value.Obj? && Get(value.fields, key).Some? && Get(value.fields, key).value.Arr? {
      TextsAreTheStrings(Get(value.fields, key).value.items, id);
    }
  }

  function Nested(value: Json, key: string): set<string>
    decreases value
  {
    OwnIds(value, key)
    + (match value
       case Obj(fields) => NestedFields(fields, key)
       case Arr(items) => NestedItems(items, key)
       case _ => {})
  }

  function NestedFields(fields: seq<Field>, key: string): set<string>
    decreases fields
  {
    if fields == [] then {}
    else NestedFields(fields[..|fields| - 1], key) + Nested(fields[|fields| - 1].value, key)
  }

  function NestedItems(items: seq<Json>, key: string): set<string>
    decreases items
  {
    if items == [] then {}
    else NestedItems(items[..|items| - 1], key) + Nested(items[|items| - 1], key)
  }

  // _nested_reference_ids: the visitor that fills one set.
  method CollectIds(value: Json, key: string, collected: set<string>) returns (ids: set<string>)
    ensures ids == collected + Nested(value, key)
    decreases value
  {
    ids := collected + OwnIds(value, key);
    match value {
      case Obj(fields) =>
        for n := 0 to |fields|
          invariant ids == collected + OwnIds(value, key) + NestedFields(fields[..n], key)
        {
          assert fields[..n + 1][..n] == fields[..n];
          ids := CollectIds(fields[n].value, key, ids);
        }
        assert fields[..|fields|] == fields;
      case Arr(items) =>
        for n := 0 to |items|
          invariant ids == collected + OwnIds(value, key) + NestedItems(items[..n], key)
        {
          assert items[..n + 1][..n] == items[..n];
          ids := CollectIds(items[n], key, ids);
        }
        assert items[..|items|] == items;
      case _ =>
    }
  }

  // An independent reading of "at any depth": follow child positions from the top.
  function Child(value: Json, i: nat): Option<Json> {
    match value
    case Obj(fields) => if i < |fields| then Some(fields[i].value) else None
    case Arr(items) => if i < |items| then Some(items[i]) else None
    case _ => None
  }

  function At(value: Json, path: seq<nat>): Option<Json>
    decreases |path|
  {
    if path == [] then Some(value)
    else
      match Child(value, path[0])
      case None => None
      case Some(child) => At(child, path[1..])
  }

  ghost predicate NamedAt(value: Json, key: string, id: string, path: seq<nat>) {
    At(value, path).Some? && id in OwnIds(At(value, path).value, key)
  }

  lemma {:induction false} FieldsByIndex(fields: seq<Field>, key: string, id: string)
    ensures id in NestedFields(fields, key) <==> exists i :: 0 <= i < |fields| && id in Nested(fields[i].value, key)
  {
    if fields != [] {
      FieldsByIndex(fields[..|fields| - 1], key, id);
      assert forall i | 0 <= i < |fields| - 1 :: fields[..|fields| - 1][i] == fields[i];
    }
  }

  lemma {:induction false} ItemsByIndex(items: seq<Json>, key: string, id: string)
    ensures id in NestedItems(items, key) <==> exists i :: 0 <= i < |items| && id in Nested(items[i], key)
  {
    if items != [] {
      ItemsByIndex(items[..|items| - 1], key, id);
      assert forall i | 0 <= i < |items| - 1 :: items[..|items| - 1][i] == items[i];
    }
  }

  lemma {:induction false} ChildrenHoldTheRest(value: Json, key: string, id: string)
    ensures id in Nested(value, key) <==>
              || id in OwnIds(value, key)
              || exists i: nat :: Child(value, i).Some? && id in Nested(Child(value, i).value, key)
  {
    match value {
      case Obj(fields) =>
        FieldsByIndex(fields, key, id);
        assert forall i: nat | i < |fields| :: Child(value, i) == Some(fields[i].value);
      case Arr(items) =>
        ItemsByIndex(items, key, id);
        assert forall i: nat | i < |items| :: Child(value, i) == Some(items[i]);
      case _ =>
    }
  }

  lemma {:induction false} PathIsNested(value: Json, key: string, id: string, path: seq<nat>)
    requires NamedAt(value, key, id, path)
    ensures id in Nested(value, key)
    decreases |path|
  {
    ChildrenHoldTheRest(value, key, id);
    if path != [] {
      PathIsNested(Child(value, path[0]).value, key, id, path[1..]);
    }
  }

  lemma {:induction false} NestedHasPath(value: Json, key: string, id: string) returns (path: seq<nat>)
    requires id in Nested(value, key)
    ensures NamedAt(value, key, id, path)
    decreases value
  {
    ChildrenHoldTheRest(value, key, id);
    if id in OwnIds(value, key) {
      path := [];
    } else {
      var i: nat :| Child(value, i).Some? && id in Nested(Child(value, i).value, key);
      var rest := NestedHasPath(Child(value, i).value, key, id);
      path := [i] + rest;
    }
  }

  // The visitor finds exactly the IDs some path leads to.
  lemma {:induction false} NestedMeansAtAnyDepth(value: Json, key: string, id: string)
    ensures id in Nested(value, key) <==> exists path :: NamedAt(value, key, id, path)
  {
    if id in Nested(value, key) {
      var path := NestedHasPath(value, key, id);
    }
    if path :| NamedAt(value, key, id, path) {
      PathIsNested(value, key, id, path);
    }
  }

  // The contract's own visitor also refuses a reference list that is not a list of strings.
  predicate OwnRefsAreTexts(value: Json, key: string) {
    match value
    case Obj(fields) =>
      (match Get(fields, key)
       case None => true
       case Some(Null) => true
       case Some(Arr(items)) => forall item <- items :: item.Str?
       case Some(_) => false)
    case _ => true
  }

  predicate RefsAreTexts(value: Json, key: string)
    decreases value
  {
    && OwnRefsAreTexts(value, key)
    && match value
       case Obj(fields) => forall i | 0 <= i < |fields| :: RefsAreTexts(fields[i].value, key)
       case Arr(items) => forall i | 0 <= i < |items| :: RefsAreTexts(items[i], key)
       case _ => true
  }

  // ---- The whole report -----------------------------------------------------------------------

  function ItemIds(items: seq<Dict>, key: string): (ids: set<string>)
    ensures forall id :: id in ids <==> exists i :: 0 <= i < |items| && id in Nested(Obj(items[i]), key)
  {
    if items == [] then {}
    else
      var ids := ItemIds(items[..|items| - 1], key) + Nested(Obj(items[|items| - 1]), key);
      assert forall i | 0 <= i < |items| - 1 :: items[..|items| - 1][i] == items[i];
      ids
  }

  function ClaimValueIds(claims: seq<Claim>, key: string): (ids: set<string>)
    ensures forall id :: id in ids <==> exists i :: 0 <= i < |claims| && id in Nested(claims[i].value, key)
  {
    if claims == [] then {}
    else
      var ids := ClaimValueIds(claims[..|claims| - 1], key) + Nested(claims[|claims| - 1].value, key);
      assert forall i | 0 <= i < |claims| - 1 :: claims[..|claims| - 1][i] == claims[i];
      ids
  }

  function ClaimFacts(claims: seq<Claim>): set<string> {
    set claim <- claims :: claim.factId
  }

  function SetOf(ids: seq<string>): set<string> {
    set id <- ids
  }

  // Everything below a section, claim values included.
  function FactRefs(section: Section): set<string> {
    SetOf(section.factIds) + ItemIds(section.items, "fact_ids") + ClaimValueIds(section.claims, "fact_ids")
    + ClaimFacts(section.claims)
  }

  function SourceRefs(section: Section): set<string> {
    SetOf(section.sourceRefIds) + ItemIds(section.items, "source_ref_ids")
    + ClaimValueIds(section.claims, "source_ref_ids")
  }

  predicate RefsOfSection(items: seq<Dict>, claims: seq<Claim>, key: string) {
    && (forall item <- items :: RefsAreTexts(Obj(item), key))
    && (forall claim <- claims :: RefsAreTexts(claim.value, key))
  }

  predicate SectionRefsAreTexts(section: Section) {
    && RefsOfSection(section.items, section.claims, "fact_ids")
    && RefsOfSection(section.items, section.claims, "source_ref_ids")
  }

  function ReadSources(items: seq<Dict>, read: Dict -> Option<Source>): Option<seq<Source>> {
    if items == [] then Some([])
    else
      match (ReadSources(items[..|items| - 1], read), read(items[|items| - 1]))
      case (Some(front), Some(source)) => Some(front + [source])
      case _ => None
  }

  predicate UniqueSources(sources: seq<Source>) {
    forall i, j | 0 <= i < j < |sources| :: sources[i].id != sources[j].id
  }

  function SourceIds(sources: seq<Source>): set<string> {
    set source <- sources :: source.id
  }

  predicate HasTheSections(sections: map<SectionId, Section>) {
    sections.Keys == REQUIRED_SECTIONS && forall id <- sections.Keys :: sections[id].id == id
  }

  predicate SectionMeets(section: Section, facts: set<string>, sources: set<string>) {
    && SectionHolds(section) && SectionRefsAreTexts(section)
    && FactRefs(section) <= facts && SourceRefs(section) <= sources
  }

  function Meets(facts: set<string>, sources: set<string>): Section -> bool {
    section => SectionMeets(section, facts, sources)
  }

  predicate AllMeet(sections: map<SectionId, Section>, meets: Section -> bool) {
    forall id <- sections.Keys :: meets(sections[id])
  }

  // DailyReport and its validators.
  predicate Holds(report: Report, read: Dict -> Option<Source>) {
    && HasTheSections(report.sections)
    && (report.status == Incomplete ==> !report.published)
    && var sources := ReadSources(report.sections[SourceReferences].items, read);
       && sources.Some? && UniqueSources(sources.value)
       && AllMeet(report.sections, Meets(SetOf(report.snapshot.factIds), SourceIds(sources.value)))
  }

  lemma {:induction false} SectionFitsTheContract(section: Section)
    requires SectionHolds(section) && section.id in REQUIRED_SECTIONS
    ensures section.characterCount <= section.maxCharacters <= LimitOf(section.id)
  {}

  lemma {:induction false} AllFitTheContract(
      sections: map<SectionId, Section>, meets: Section -> bool, id: SectionId)
    requires HasTheSections(sections) && AllMeet(sections, meets)
    requires forall section | meets(section) :: SectionHolds(section)
    ensures id in sections <==>
              || id == ExecutiveSummary || id == CnHighlights || id == HkHighlights || id == UsHighlights
              || id == KeyMovements || id == UpcomingCalendar || id == DataQualityNotice || id == SourceReferences
    ensures id in sections ==>
              sections[id].id == id && sections[id].characterCount <= sections[id].maxCharacters <= LimitOf(id)
  {
    if id in sections {
      assert id in sections.Keys && meets(sections[id]);
      SectionFitsTheContract(sections[id]);
    }
  }

  // A report that holds has the eight sections under their own names, each no longer than the
  // contract allows.
  lemma {:induction false} SectionsFitTheContract(report: Report, read: Dict -> Option<Source>, id: SectionId)
    requires Holds(report, read)
    ensures id in report.sections <==>
              || id == ExecutiveSummary || id == CnHighlights || id == HkHighlights || id == UsHighlights
              || id == KeyMovements || id == UpcomingCalendar || id == DataQualityNotice || id == SourceReferences
    ensures id in report.sections ==>
              && report.sections[id].id == id
              && report.sections[id].characterCount <= report.sections[id].maxCharacters <= LimitOf(id)
  {
    var sources := ReadSources(report.sections[SourceReferences].items, read).value;
    AllFitTheContract(report.sections, Meets(SetOf(report.snapshot.factIds), SourceIds(sources)), id);
  }

  ghost function LimitOf(id: SectionId): nat {
    match id
    case ExecutiveSummary => 800
    case KeyMovements => 1200
    case UpcomingCalendar => 1600
    case DataQualityNotice => 600
    case SourceReferences => 4000
    case _ => 1000
  }

  // The visitor over one section: items, claim values and, for facts, the claims themselves.
  method CollectRefs(section: Section, key: string, own: seq<string>, collected: set<string>)
    returns (ids: set<string>)
    ensures ids == collected + SetOf(own) + ItemIds(section.items, key) + ClaimValueIds(section.claims, key)
  {
    ids := collected + SetOf(own);
    for n := 0 to |section.items|
      invariant ids == collected + SetOf(own) + ItemIds(section.items[..n], key)
    {
      assert section.items[..n + 1][..n] == section.items[..n];
      ids := CollectIds(Obj(section.items[n]), key, ids);
    }
    assert section.items[..|section.items|] == section.items;
    for n := 0 to |section.claims|
      invariant ids == collected + SetOf(own) + ItemIds(section.items, key) + ClaimValueIds(section.claims[..n], key)
    {
      assert section.claims[..n + 1][..n] == section.claims[..n];
      ids := CollectIds(section.claims[n].value, key, ids);
    }
    assert section.claims[..|section.claims|] == section.claims;
  }

  predicate SectionsHold(sections: map<SectionId, Section>, ids: set<SectionId>) {
    forall id <- ids :: id in sections && SectionHolds(sections[id]) && SectionRefsAreTexts(sections[id])
  }

  predicate RefsKnown(sections: map<SectionId, Section>, ids: set<SectionId>, facts: set<string>,
                      sources: set<string>) {
    forall id <- ids :: id in sections && FactRefs(sections[id]) <= facts && SourceRefs(sections[id]) <= sources
  }

  lemma {:induction false} AllMeetByParts(sections: map<SectionId, Section>, facts: set<string>, sources: set<string>)
    ensures AllMeet(sections, Meets(facts, sources)) <==>
              SectionsHold(sections, sections.Keys) && RefsKnown(sections, sections.Keys, facts, sources)
  {
    if AllMeet(sections, Meets(facts, sources)) {
      forall id | id in sections.Keys ensures SectionMeets(sections[id], facts, sources) {
        assert Meets(facts, sources)(sections[id]);
      }
    }
  }

  method CheckOneSection(section: Section) returns (hold: bool)
    ensures hold == (SectionHolds(section) && SectionRefsAreTexts(section))
  {
    if section.maxCharacters < 1 || !SectionRefsAreTexts(section) {
      return false;
    }
    hold := CheckSection(section);
  }

  method CollectSection(section: Section, facts: set<string>, sources: set<string>)
    returns (moreFacts: set<string>, moreSources: set<string>)
    ensures moreFacts == facts + FactRefs(section) && moreSources == sources + SourceRefs(section)
  {
    moreFacts := CollectRefs(section, "fact_ids", section.factIds, facts);
    moreFacts := moreFacts + ClaimFacts(section.claims);
    moreSources := CollectRefs(section, "source_ref_ids", section.sourceRefIds, sources);
  }

  // What a set of sections refers to.
  ghost predicate Collected(sections: map<SectionId, Section>, ids: set<SectionId>, facts: set<string>,
                            sources: set<string>) {
    forall f, s :: facts <= f && sources <= s <==> RefsKnown(sections, ids, f, s)
  }

  lemma {:induction false} OneMoreSection(sections: map<SectionId, Section>, ids: set<SectionId>, id: SectionId,
                                          facts: set<string>, sources: set<string>)
    requires id in sections && Collected(sections, ids, facts, sources)
    ensures Collected(sections, ids + {id}, facts + FactRefs(sections[id]), sources + SourceRefs(sections[id]))
  {
    var (facts', sources') := (facts + FactRefs(sections[id]), sources + SourceRefs(sections[id]));
    forall f, s ensures facts' <= f && sources' <= s <==> RefsKnown(sections, ids + {id}, f, s) {
      assert RefsKnown(sections, ids + {id}, f, s) <==>
             RefsKnown(sections, ids, f, s) && FactRefs(sections[id]) <= f && SourceRefs(sections[id]) <= s;
    }
  }

  lemma {:induction false} OneMoreHolds(sections: map<SectionId, Section>, ids: set<SectionId>, id: SectionId)
    requires id in sections
    ensures SectionsHold(sections, ids + {id}) <==>
              SectionsHold(sections, ids) && SectionHolds(sections[id]) && SectionRefsAreTexts(sections[id])
  {}

  // The loop over the sections that checks each of them and collects what they refer to.
  method CollectSections(sections: map<SectionId, Section>)
    returns (hold: bool, facts: set<string>, sources: set<string>)
    ensures hold == SectionsHold(sections, sections.Keys)
    ensures Collected(sections, sections.Keys, facts, sources)
  {
    hold, facts, sources := true, {}, {};
    var todo := sections.Keys;
    while todo != {}
      invariant todo <= sections.Keys
      invariant hold == SectionsHold(sections, sections.Keys - todo)
      invariant Collected(sections, sections.Keys - todo, facts, sources)
      decreases todo
    {
      var id :| id in todo;
      OneMoreSection(sections, sections.Keys - todo, id, facts, sources);
      OneMoreHolds(sections, sections.Keys - todo, id);
      var one := CheckOneSection(sections[id]);
      facts, sources := CollectSection(sections[id], facts, sources);
      assert sections.Keys - (todo - {id}) == (sections.Keys - todo) + {id};
      hold, todo := hold && one, todo - {id};
    }
    assert sections.Keys - todo == sections.Keys;
  }

  // Reading the source references; a repeated ID is refused by comparing lengths.
  method CheckSources(items: seq<Dict>, read: Dict -> Option<Source>) returns (ids: Option<set<string>>)
    ensures var sources := ReadSources(items, read);
            ids == if sources.Some? && UniqueSources(sources.value) then Some(SourceIds(sources.value)) else None
  {
    var sources := ReadSources(items, read);
    if sources.None? {
      return None;
    }
    UniqueByLength(sources.value);
    if |SourceIds(sources.value)| != |sources.value| {
      return None;
    }
    return Some(SourceIds(sources.value));
  }

  lemma {:induction false} UniqueByLength(sources: seq<Source>)
    ensures |SourceIds(sources)| <= |sources|
    ensures |SourceIds(sources)| == |sources| <==> UniqueSources(sources)
  {
    if sources == [] {
      assert SourceIds(sources) == {};
    } else {
      var front, last := sources[..|sources| - 1], sources[|sources| - 1];
      UniqueByLength(front);
      assert sources == front + [last];
      OneMoreId(front, last);
    }
  }

  lemma {:induction false} OneMoreId(front: seq<Source>, last: Source)
    ensures |SourceIds(front + [last])| == |SourceIds(front)| + (if last.id in SourceIds(front) then 0 else 1)
    ensures UniqueSources(front + [last]) <==> UniqueSources(front) && last.id !in SourceIds(front)
  {
    assert SourceIds(front + [last]) == SourceIds(front) + {last.id};
    if last.id in SourceIds(front) {
      assert SourceIds(front) + {last.id} == SourceIds(front);
    }
    OneMoreUnique(front, last);
  }

  lemma {:induction false} OneMoreUnique(front: seq<Source>, last: Source)
    ensures UniqueSources(front + [last]) <==> UniqueSources(front) && last.id !in SourceIds(front)
  {
    var sources := front + [last];
    if last.id in SourceIds(front) {
      var source :| source in front && source.id == last.id;
      var i :| 0 <= i < |front| && front[i] == source;
      assert sources[i].id == sources[|front|].id;
    } else {
      forall i | 0 <= i < |front| ensures sources[i].id != last.id {
        assert sources[i] in front;
      }
    }
    if UniqueSources(sources) {
      forall i, j | 0 <= i < j < |front| ensures front[i].id != front[j].id {
        assert sources[i].id != sources[j].id;
      }
    }
  }

  /** Parsing the payload as a report: the section validators and then the references. */
  method CheckReport(report: Report, read: Dict -> Option<Source>) returns (ok: bool)
    ensures ok == Holds(report, read)
  {
    var hold, facts, sources := CollectSections(report.sections);
    if !hold || report.sections.Keys != REQUIRED_SECTIONS {
      if Holds(report, read) {
        SectionsMustHold(report, read);
      }
      return false;
    }
    assert SourceReferences in report.sections.Keys;
    if (exists id <- report.sections.Keys :: report.sections[id].id != id)
       || (report.status == Incomplete && report.published)
       || !(facts <= SetOf(report.snapshot.factIds)) {
      if Holds(report, read) {
        FactsMustBeKnown(report, read);
      }
      return false;
    }
    var known := CheckSources(report.sections[SourceReferences].items, read);
    if known.None? {
      return false;
    }
    AllMeetByParts(report.sections, SetOf(report.snapshot.factIds), known.value);
    return sources <= known.value;
  }

  lemma {:induction false} SectionsMustHold(report: Report, read: Dict -> Option<Source>)
    requires Holds(report, read)
    ensures report.sections.Keys == REQUIRED_SECTIONS && SectionsHold(report.sections, report.sections.Keys)
  {
    var sources := ReadSources(report.sections[SourceReferences].items, read).value;
    AllMeetByParts(report.sections, SetOf(report.snapshot.factIds), SourceIds(sources));
  }

  lemma {:induction false} FactsMustBeKnown(report: Report, read: Dict -> Option<Source>)
    requires Holds(report, read)
    ensures exists sources: set<string> ::
              RefsKnown(report.sections, report.sections.Keys, SetOf(report.snapshot.factIds), sources)
  {
    var sources := SourceIds(ReadSources(report.sections[SourceReferences].items, read).value);
    AllMeetByParts(report.sections, SetOf(report.snapshot.factIds), sources);
    assert RefsKnown(report.sections, report.sections.Keys, SetOf(report.snapshot.factIds), sources);
  }
}
