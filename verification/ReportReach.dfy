/** How far the validator's checks reach. It looks up the facts that sections, items and claims
    name, but not those named inside a claim's value, which the contract does collect. */
module ReportReach {
  import opened Json
  import opened Prelude
  import opened ReportContract
  import opened ReportFallback
  import opened ReportPublication
  import opened ReportValidator
  import QualityGate

  // ---- The same snapshot with another fact under one ID ---------------------------------------

  function SwappedItem(item: Json, id: string, raw: Dict): Json {
    if item.Obj? && AsText(Get(item.fields, "fact_id")) == Some(id) then Obj(raw) else item
  }

  function SwappedItems(items: seq<Json>, id: string, raw: Dict): (swapped: seq<Json>)
    ensures |swapped| == |items|
    ensures forall i | 0 <= i < |items| :: swapped[i] == SwappedItem(items[i], id, raw)
  {
    seq(|items|, i requires 0 <= i < |items| => SwappedItem(items[i], id, raw))
  }

  function Swapped(snapshot: QualityGate.Snapshot, id: string, raw: Dict): QualityGate.Snapshot {
    match snapshot.payload.facts
    case Arr(items) => snapshot.(payload := snapshot.payload.(facts := Arr(SwappedItems(items, id, raw))))
    case _ => snapshot
  }

  lemma {:induction false} SwapByParts(items: seq<Json>, id: string, raw: Dict)
    requires items != []
    ensures var n := |items| - 1;
            && SwappedItems(items, id, raw)[..n] == SwappedItems(items[..n], id, raw)
            && SwappedItems(items, id, raw)[n] == SwappedItem(items[n], id, raw)
  {}

  lemma {:induction false} SwapKeepsIds(items: seq<Json>, id: string, raw: Dict)
    requires Get(raw, "fact_id") == Some(Str(id))
    ensures QualityGate.FactIds(SwappedItems(items, id, raw)) == QualityGate.FactIds(items)
  {
    if items != [] {
      SwapByParts(items, id, raw);
      SwapKeepsIds(items[..|items| - 1], id, raw);
    }
  }

  lemma {:induction false} SwapKeepsIssues(snapshot: QualityGate.Snapshot, id: string, raw: Dict, iso: int -> string)
    requires Get(raw, "fact_id") == Some(Str(id))
    ensures QualityGate.Issues(Swapped(snapshot, id, raw), iso) == QualityGate.Issues(snapshot, iso)
  {
    var swapped := Swapped(snapshot, id, raw);
    if snapshot.payload.facts.Arr? {
      SwapKeepsIds(snapshot.payload.facts.items, id, raw);
    }
    assert QualityGate.HasFacts(swapped) <==> QualityGate.HasFacts(snapshot);
    assert QualityGate.InputsFor(swapped, iso) == QualityGate.InputsFor(snapshot, iso);
    assert QualityGate.Entries(swapped) == QualityGate.Entries(snapshot);
  }

  lemma {:induction false} OneMoreLoaded(lib: Lib, raws: seq<Dict>, raw: Dict)
    ensures LoadFacts(lib, raws + [raw])
         == match AsText(Get(raw, "fact_id"))
            case None => LoadFacts(lib, raws)
            case Some(id) => LoadFacts(lib, raws)[id := ReadFact(lib, raw)]
  {
    assert (raws + [raw])[..|raws|] == raws;
  }

  function LoadOne(lib: Lib, facts: map<string, Fact>, item: Json): map<string, Fact> {
    match item
    case Obj(fields) =>
      (match AsText(Get(fields, "fact_id")) case None => facts case Some(id) => facts[id := ReadFact(lib, fields)])
    case _ => facts
  }

  lemma {:induction false} LoadByParts(lib: Lib, items: seq<Json>)
    requires items != []
    ensures LoadFacts(lib, OnlyDicts(items))
         == LoadOne(lib, LoadFacts(lib, OnlyDicts(items[..|items| - 1])), items[|items| - 1])
  {
    var front, last := OnlyDicts(items[..|items| - 1]), items[|items| - 1];
    if last.Obj? {
      OneMoreLoaded(lib, front, last.fields);
    } else {
      assert OnlyDicts(items) == front;
    }
  }

  function LoadedInstead(facts: map<string, Fact>, id: string, fact: Fact): map<string, Fact> {
    if id in facts then facts[id := fact] else facts
  }

  lemma {:induction false} LoadOneInstead(lib: Lib, facts: map<string, Fact>, item: Json, id: string, raw: Dict)
    requires AsText(Get(raw, "fact_id")) == Some(id)
    ensures LoadOne(lib, LoadedInstead(facts, id, ReadFact(lib, raw)), SwappedItem(item, id, raw))
         == LoadedInstead(LoadOne(lib, facts, item), id, ReadFact(lib, raw))
  {}

  // Only what is loaded under the ID changes.
  lemma {:induction false} SwapLoads(lib: Lib, items: seq<Json>, id: string, raw: Dict)
    requires AsText(Get(raw, "fact_id")) == Some(id)
    ensures LoadFacts(lib, OnlyDicts(SwappedItems(items, id, raw)))
         == LoadedInstead(LoadFacts(lib, OnlyDicts(items)), id, ReadFact(lib, raw))
  {
    if items != [] {
      var n := |items| - 1;
      SwapByParts(items, id, raw);
      SwapLoads(lib, items[..n], id, raw);
      LoadByParts(lib, items);
      LoadByParts(lib, SwappedItems(items, id, raw));
      LoadOneInstead(lib, LoadFacts(lib, OnlyDicts(items[..n])), items[n], id, raw);
    }
  }

  lemma {:induction false} SwapHolds(items: seq<Json>, id: string, raw: Dict, before: Dict)
    requires before in OnlyDicts(items) && AsText(Get(before, "fact_id")) == Some(id)
    ensures raw in OnlyDicts(SwappedItems(items, id, raw))
  {
    var n := |items| - 1;
    SwapByParts(items, id, raw);
    if items[n] != Obj(before) {
      SwapHolds(items[..n], id, raw, before);
    }
  }

  lemma {:induction false} RawIsLoaded(lib: Lib, raws: seq<Dict>, raw: Dict, id: string)
    requires raw in raws && AsText(Get(raw, "fact_id")) == Some(id)
    ensures id in LoadFacts(lib, raws)
  {
    var n := |raws| - 1;
    if raws[n] != raw {
      assert raws == raws[..n] + [raws[n]];
      RawIsLoaded(lib, raws[..n], raw, id);
    }
  }

  // What the validator approves after the swap.
  lemma {:induction false} SwapApproves(lib: Lib, snapshot: QualityGate.Snapshot, id: string, raw: Dict)
    requires AsText(Get(raw, "fact_id")) == Some(id) && id in ApprovedBy(lib, snapshot).facts
    ensures var approved := ApprovedBy(lib, snapshot);
            ApprovedBy(lib, Swapped(snapshot, id, raw))
            == approved.(facts := approved.facts[id := ReadFact(lib, raw)])
    ensures raw in Dicts(Swapped(snapshot, id, raw).payload.facts)
  {
    var raws := Dicts(snapshot.payload.facts);
    var before := LoadedFactIsRaw(lib, raws, id);
    var items := snapshot.payload.facts.items;
    SwapLoads(lib, items, id, raw);
    SwapHolds(items, id, raw, before);
  }

  // ---- Which facts the checks vouch for -------------------------------------------------------

  // Whatever the snapshot says about the fact, a report that validates is backed by it here.
  ghost predicate IsVouchedFor(
    lib: Lib, stored: Stored, snapshot: QualityGate.Snapshot, section: Section, fact: string)
  {
    forall raw: Dict | AsText(Get(raw, "fact_id")) == Some(fact) && Sound(lib, stored, Swapped(snapshot, fact, raw)) ::
      Backs(lib, Swapped(snapshot, fact, raw), section, fact, raw)
  }

  // A section of the report names the fact outside claim values and cites nothing that `section`
  // does not cite. The section itself is one if it names the fact.
  predicate IsNamedBelow(report: Report, section: Section, fact: string) {
    exists s <- REQUIRED_SECTIONS ::
      && s in report.sections && fact in CitedFacts(report.sections[s])
      && CitedSources(report.sections[s]) <= CitedSources(section)
  }

  lemma {:induction false} SoundReportSections(lib: Lib, stored: Stored, snapshot: QualityGate.Snapshot, s: SectionId)
    requires Sound(lib, stored, snapshot) && s in REQUIRED_SECTIONS
    ensures s in stored.payload.value.sections
    ensures SectionSound(lib, ApprovedBy(lib, snapshot), snapshot, stored.payload.value.sections[s])
  {}

  lemma {:induction false} FactSoundInTime(
      lib: Lib, approved: Approved, snapshot: QualityGate.Snapshot, section: Section, fact: string, raw: Dict)
    requires FactSound(approved, snapshot, section, fact) && approved.facts[fact] == ReadFact(lib, raw)
    ensures InTime(lib, snapshot, raw)
    ensures OwnIds(Obj(raw), "source_ref_ids") * CitedSources(section) != {}
  {}

  lemma {:induction false} BackedThroughOther(
      lib: Lib, approved: Approved, snapshot: QualityGate.Snapshot, section: Section, other: Section, fact: string,
      raw: Dict)
    requires SectionSound(lib, approved, snapshot, section) && FactSound(approved, snapshot, other, fact)
    requires CitedSources(other) <= CitedSources(section)
    requires approved.facts[fact] == ReadFact(lib, raw) && AsText(Get(raw, "fact_id")) == Some(fact)
    requires raw in Dicts(snapshot.payload.facts)
    ensures Backs(lib, snapshot, section, fact, raw)
  {
    FactSoundInTime(lib, approved, snapshot, other, fact, raw);
    var source :| source in OwnIds(Obj(raw), "source_ref_ids") * CitedSources(other);
    MentionedIsCited(section, source);
    forall claim | claim in section.claims && claim.factId == fact ensures Repeats(lib, claim, raw) {
      assert ClaimSound(lib, approved, claim);
    }
  }

  lemma {:induction false} VouchedForBy(
      lib: Lib, stored: Stored, snapshot: QualityGate.Snapshot, id: SectionId, s: SectionId, fact: string, raw: Dict)
    requires Sound(lib, stored, snapshot) && id in REQUIRED_SECTIONS && s in REQUIRED_SECTIONS
    requires fact in CitedFacts(stored.payload.value.sections[s])
    requires CitedSources(stored.payload.value.sections[s]) <= CitedSources(stored.payload.value.sections[id])
    requires AsText(Get(raw, "fact_id")) == Some(fact) && raw in Dicts(snapshot.payload.facts)
    requires fact in ApprovedBy(lib, snapshot).facts
    requires ApprovedBy(lib, snapshot).facts[fact] == ReadFact(lib, raw)
    ensures Backs(lib, snapshot, stored.payload.value.sections[id], fact, raw)
  {
    var sections := stored.payload.value.sections;
    SoundReportSections(lib, stored, snapshot, s);
    SoundReportSections(lib, stored, snapshot, id);
    BackedThroughOther(lib, ApprovedBy(lib, snapshot), snapshot, sections[id], sections[s], fact, raw);
  }

  lemma {:induction false} NamedFactIsVouchedFor(
      lib: Lib, stored: Stored, snapshot: QualityGate.Snapshot, id: SectionId, fact: string, raw: Dict)
    requires Sound(lib, stored, snapshot) && id in REQUIRED_SECTIONS
    requires IsNamedBelow(stored.payload.value, stored.payload.value.sections[id], fact)
    requires AsText(Get(raw, "fact_id")) == Some(fact) && fact in ApprovedBy(lib, snapshot).facts
    requires Sound(lib, stored, Swapped(snapshot, fact, raw))
    ensures Backs(lib, Swapped(snapshot, fact, raw), stored.payload.value.sections[id], fact, raw)
  {
    var sections := stored.payload.value.sections;
    SwapApproves(lib, snapshot, fact, raw);
    var s :| s in REQUIRED_SECTIONS && s in sections && fact in CitedFacts(sections[s])
             && CitedSources(sections[s]) <= CitedSources(sections[id]);
    VouchedForBy(lib, stored, Swapped(snapshot, fact, raw), id, s, fact, raw);
  }

  // ---- A fact nobody names there can be changed unseen ----------------------------------------

  function TextList(texts: seq<string>): (list: seq<Json>)
    ensures |list| == |texts| && forall i | 0 <= i < |texts| :: list[i] == Str(texts[i])
  {
    seq(|texts|, i requires 0 <= i < |texts| => Str(texts[i]))
  }

  lemma {:induction false} TextListReads(texts: seq<string>)
    ensures Texts(TextList(texts)) == SetOf(texts)
  {
    if texts != [] {
      var n := |texts| - 1;
      TextListReads(texts[..n]);
      assert TextList(texts)[..n] == TextList(texts[..n]);
      assert texts == texts[..n] + [texts[n]];
    }
  }

  // The fact with other sources.
  function WithSources(raw: Dict, sources: set<string>): Dict {
    [Field("source_ref_ids", Arr(TextList(Listing(sources))))] + raw
  }

  lemma {:induction false} WithSourcesReads(lib: Lib, raw: Dict, sources: set<string>)
    ensures var other := WithSources(raw, sources);
            && Get(other, "fact_id") == Get(raw, "fact_id")
            && OwnIds(Obj(other), "source_ref_ids") == sources
            && ReadFact(lib, other) == ReadFact(lib, raw).(sourceIds := sources)
  {
    var other := WithSources(raw, sources);
    assert other[1..] == raw;
    TextListReads(Listing(sources));
  }

  // The sources that sections naming the fact cite and `section` does not.
  function ForeignSources(report: Report, section: Section, fact: string): set<string> {
    set s, source | s in REQUIRED_SECTIONS && s in report.sections && fact in CitedFacts(report.sections[s])
                    && source in CitedSources(report.sections[s]) && source !in CitedSources(section) :: source
  }

  lemma {:induction false} UnnamedFactChangesUnseen(
      lib: Lib, stored: Stored, snapshot: QualityGate.Snapshot, section: Section, fact: string)
    returns (raw: Dict)
    requires Sound(lib, stored, snapshot) && fact in ApprovedBy(lib, snapshot).facts
    requires !IsNamedBelow(stored.payload.value, section, fact)
    ensures AsText(Get(raw, "fact_id")) == Some(fact)
    ensures Sound(lib, stored, Swapped(snapshot, fact, raw))
    ensures !Backs(lib, Swapped(snapshot, fact, raw), section, fact, raw)
  {
    var report := stored.payload.value;
    var before := LoadedFactIsRaw(lib, Dicts(snapshot.payload.facts), fact);
    var sources := ForeignSources(report, section, fact);
    raw := WithSources(before, sources);
    WithSourcesReads(lib, before, sources);
    forall s | s in REQUIRED_SECTIONS
      ensures s in report.sections
      ensures fact in CitedFacts(report.sections[s]) ==>
                sources * CitedSources(report.sections[s]) != {} && sources <= ApprovedBy(lib, snapshot).sources.Keys
    {
      SoundReportSections(lib, stored, snapshot, s);
      if fact in CitedFacts(report.sections[s]) {
        var source :| source in CitedSources(report.sections[s]) && source !in CitedSources(section);
        assert source in sources * CitedSources(report.sections[s]);
        forall other | other in sources ensures other in ApprovedBy(lib, snapshot).sources.Keys {
          var t :| t in REQUIRED_SECTIONS && t in report.sections && other in CitedSources(report.sections[t]);
          SoundReportSections(lib, stored, snapshot, t);
        }
      }
    }
    SwapKeepsSound(lib, stored, snapshot, fact, raw);
    forall source | source in OwnIds(Obj(raw), "source_ref_ids") ensures !CitesSource(section, source) {
      MentionedIsCited(section, source);
    }
  }

  lemma {:induction false} SwapKeepsSection(
      lib: Lib, approved: Approved, snapshot: QualityGate.Snapshot, swapped: QualityGate.Snapshot, section: Section,
      fact: string, other: Fact)
    requires SectionSound(lib, approved, snapshot, section) && fact in approved.facts
    requires swapped.cutoffAt == snapshot.cutoffAt && swapped.reportDate == snapshot.reportDate
    requires other == approved.facts[fact].(sourceIds := other.sourceIds)
    requires fact in CitedFacts(section) ==>
               other.sourceIds * CitedSources(section) != {} && other.sourceIds <= approved.sources.Keys
    ensures SectionSound(lib, approved.(facts := approved.facts[fact := other]), swapped, section)
  {
    var approved' := approved.(facts := approved.facts[fact := other]);
    forall id | id in CitedFacts(section) ensures FactSound(approved', swapped, section, id) {
      assert FactSound(approved, snapshot, section, id);
    }
    forall claim | claim in section.claims ensures ClaimSound(lib, approved', claim) {
      assert ClaimSound(lib, approved, claim);
    }
  }

  lemma {:induction false} SwapKeepsSound(
      lib: Lib, stored: Stored, snapshot: QualityGate.Snapshot, fact: string, raw: Dict)
    requires Sound(lib, stored, snapshot) && fact in ApprovedBy(lib, snapshot).facts
    requires AsText(Get(raw, "fact_id")) == Some(fact)
    requires var approved := ApprovedBy(lib, snapshot);
             ReadFact(lib, raw) == approved.facts[fact].(sourceIds := ReadFact(lib, raw).sourceIds)
    requires forall s | s in REQUIRED_SECTIONS ::
               && s in stored.payload.value.sections
               && (fact in CitedFacts(stored.payload.value.sections[s]) ==>
                     && ReadFact(lib, raw).sourceIds * CitedSources(stored.payload.value.sections[s]) != {}
                     && ReadFact(lib, raw).sourceIds <= ApprovedBy(lib, snapshot).sources.Keys)
    ensures Sound(lib, stored, Swapped(snapshot, fact, raw))
  {
    var swapped := Swapped(snapshot, fact, raw);
    SwapApproves(lib, snapshot, fact, raw);
    SwapKeepsIssues(snapshot, fact, raw, lib.iso);
    forall s | s in REQUIRED_SECTIONS
      ensures SectionSound(lib, ApprovedBy(lib, swapped), swapped, stored.payload.value.sections[s])
    {
      SoundReportSections(lib, stored, snapshot, s);
      SwapKeepsSection(lib, ApprovedBy(lib, snapshot), snapshot, swapped, stored.payload.value.sections[s], fact,
                       ReadFact(lib, raw));
    }
  }

  // A validated report's section is sure to be backed by a fact it reaches exactly when the
  // fact is named, outside claim values, in a section that cites no source beyond its own, such
  // as the section itself.
  lemma {:induction false} BackingIsSureExactlyWhen(
      lib: Lib, stored: Stored, snapshot: QualityGate.Snapshot, id: SectionId, fact: string)
    requires Sound(lib, stored, snapshot) && id in REQUIRED_SECTIONS
    requires Reaches(stored.payload.value.sections[id], fact)
    ensures IsVouchedFor(lib, stored, snapshot, stored.payload.value.sections[id], fact)
       <==> IsNamedBelow(stored.payload.value, stored.payload.value.sections[id], fact)
  {
    var section := stored.payload.value.sections[id];
    var known := ReachedFactIsMaterialized(lib, stored, snapshot, id, fact);
    RawIsLoaded(lib, Dicts(snapshot.payload.facts), known, fact);
    if IsNamedBelow(stored.payload.value, section, fact) {
      forall raw: Dict | AsText(Get(raw, "fact_id")) == Some(fact) && Sound(lib, stored, Swapped(snapshot, fact, raw))
        ensures Backs(lib, Swapped(snapshot, fact, raw), section, fact, raw)
      {
        NamedFactIsVouchedFor(lib, stored, snapshot, id, fact, raw);
      }
    } else {
      var raw := UnnamedFactChangesUnseen(lib, stored, snapshot, section, fact);
    }
  }
}
