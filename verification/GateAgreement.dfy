/** The day policy, the materialized snapshot and the gate agree with each other. */
module GateAgreement {
  import opened DayPolicy
  import opened Json
  import opened Prelude
  import opened QualityGate
  import opened SnapshotMaterializer
  import opened Sorting

  // ---- The gate reads the policy back -----------------------------------------------------------

  ghost function PolicyFields(p: Policy, iso: int -> string): seq<Field> {
    ToPayload(p, iso).fields
  }

  lemma {:induction false} PayloadReads(p: Policy, iso: int -> string)
    ensures var fields := PolicyFields(p, iso);
            && Get(fields, "policy_id") == Some(Str(POLICY_ID))
            && Get(fields, "calendar_version") == Some(Str(p.calendarVersion))
            && Get(fields, "report_date") == Some(Str(iso(p.reportDate)))
            && Get(fields, "day_type") == Some(Str(DayTypeName(p.dayType)))
            && Get(fields, "required_input_ids") == Some(Arr(Strings(p.required)))
            && Get(fields, "optional_input_ids") == Some(Arr(Strings(p.optional)))
            && Get(fields, "regions") == Some(Arr(RegionsJson(p.regions, iso)))
  {
    var fields := PolicyFields(p, iso);
    GetFinds(fields);
    assert Found(fields, 0) && Found(fields, 1) && Found(fields, 2) && Found(fields, 3);
    assert Found(fields, 4) && Found(fields, 5) && Found(fields, 6);
  }

  lemma {:induction false} RegionReads(r: RegionPolicy, iso: int -> string)
    ensures ReadRegion(RegionJson(r, iso)) == Some((r.region, r.status))
  {
    var fields := RegionJson(r, iso).fields;
    GetFinds(fields);
    assert Found(fields, 0) && Found(fields, 1) && Found(fields, 2) && Found(fields, 3) && Found(fields, 4);
  }

  lemma {:induction false} TextsRead(texts: seq<string>)
    ensures ReadTexts(Strings(texts)) == Some(texts)
  {
    if texts != [] {
      var n := |texts| - 1;
      TextsRead(texts[..n]);
      assert Strings(texts)[..n] == Strings(texts[..n]);
      assert Strings(texts)[n] == Str(texts[n]) && texts[..n] + [texts[n]] == texts;
    }
  }

  lemma {:induction false} RegionsRead(regions: seq<RegionPolicy>, iso: int -> string)
    requires |regions| == 3 && forall i | 0 <= i < 3 :: regions[i].region == REGIONS[i]
    ensures ReadRegions(RegionsJson(regions, iso))
         == Some(map[Cn := regions[0].status, Hk := regions[1].status, Us := regions[2].status])
  {
    var items := RegionsJson(regions, iso);
    RegionReads(regions[0], iso);
    RegionReads(regions[1], iso);
    RegionReads(regions[2], iso);
    assert regions[0].region == Cn && regions[1].region == Hk && regions[2].region == Us;
    assert items[..2][..1] == items[..1] && items[..1][..0] == [];
    assert ReadRegions(items[..1]) == Some(map[Cn := regions[0].status]);
    assert ReadRegions(items[..2]) == Some(map[Cn := regions[0].status, Hk := regions[1].status]);
    assert items[..2] == items[..|items| - 1];
  }

  ghost function Days(regions: seq<RegionPolicy>): map<Region, MarketDay>
    requires |regions| == 3
  {
    map[Cn := regions[0].status, Hk := regions[1].status, Us := regions[2].status]
  }

  lemma {:induction false} ClosedInputsOf(regions: seq<RegionPolicy>, id: string)
    requires |regions| == 3
    ensures id in ClosedInputs(Days(regions)) <==>
              || (id == MarketInput(Cn) && regions[0].status != ScheduledSession)
              || (id == MarketInput(Hk) && regions[1].status != ScheduledSession)
              || (id == MarketInput(Us) && regions[2].status != ScheduledSession)
  {
    var days := Days(regions);
    assert Cn in days && Hk in days && Us in days;
    if id in ClosedInputs(days) {
      var r :| r in days && days[r] != ScheduledSession && MarketInput(r) == id;
    }
  }

  lemma {:induction false} ClosedAreOptional(calendar: Calendar, version: string, date: int)
    requires Evaluate(calendar, version, date).Some?
    ensures |Evaluate(calendar, version, date).value.regions| == 3
    ensures ClosedInputs(Days(Evaluate(calendar, version, date).value.regions))
         == SetOf(Evaluate(calendar, version, date).value.optional)
  {
    var p := Evaluate(calendar, version, date).value;
    RegionsOf(calendar, version, date);
    var regions := p.regions;
    assert regions[0].Required() == HasSession(calendar, Cn, date);
    assert regions[1].Required() == HasSession(calendar, Hk, date);
    assert regions[2].Required() == HasSession(calendar, Us, date);
    forall id ensures id in ClosedInputs(Days(regions)) <==> id in SetOf(p.optional) {
      WhatAPolicyRequires(calendar, version, date, id);
      ClosedInputsOf(regions, id);
    }
  }

  lemma {:induction false} DayTypeFollows(calendar: Calendar, version: string, date: int)
    requires Evaluate(calendar, version, date).Some?
    ensures var p := Evaluate(calendar, version, date).value;
            |p.regions| == 3 && DayTypeFits(p.dayType, date, Days(p.regions).Values)
  {
    var p := Evaluate(calendar, version, date).value;
    var days := Days(p.regions);
    var (cn, hk, us) := (p.regions[0], p.regions[1], p.regions[2]);
    assert days.Values == {cn.status, hk.status, us.status} by {
      assert days[Cn] == cn.status && days[Hk] == hk.status && days[Us] == us.status;
    }
    NothingClosed(p.regions);
    if p.dayType == Regular {
      assert days.Values == {ScheduledSession};
    }
  }

  lemma {:induction false} NothingClosed(regions: seq<RegionPolicy>)
    requires |regions| == 3
    ensures Inputs(regions, false) == [] <==>
              regions[0].Required() && regions[1].Required() && regions[2].Required()
  {
    ThreeRegions(regions, false, regions[0].Input());
    ThreeRegions(regions, false, regions[1].Input());
    ThreeRegions(regions, false, regions[2].Input());
    if Inputs(regions, false) != [] {
      ThreeRegions(regions, false, Inputs(regions, false)[0]);
    }
  }

  lemma {:induction false} ListsRead(p: Policy, iso: int -> string)
    ensures ReadStrings(Get(PolicyFields(p, iso), "required_input_ids")) == Some(p.required)
    ensures ReadStrings(Get(PolicyFields(p, iso), "optional_input_ids")) == Some(p.optional)
  {
    PayloadReads(p, iso);
    TextsRead(p.required);
    TextsRead(p.optional);
  }

  // A payload that reads as `p` and satisfies the split conditions is accepted.
  lemma {:induction false} ReadPolicyIsAccepted(p: Policy, snapshot: Snapshot, iso: int -> string)
    requires snapshot.payload.policy == ToPayload(p, iso) && p.reportDate == snapshot.reportDate
    requires p.calendarVersion != ""
    requires SplitsInputs(PolicyFields(p, iso), snapshot.reportDate, SetOf(p.required), SetOf(p.optional))
    ensures InputsFor(snapshot, iso) == RequiredInputs(SetOf(p.required), SetOf(p.optional), true)
  {
    ListsRead(p, iso);
    assert PolicyNamesItsDay(PolicyFields(p, iso), iso(snapshot.reportDate)) by {
      PayloadReads(p, iso);
    }
    assert snapshot.payload.policy == Obj(PolicyFields(p, iso));
  }

  // For every date and every calendar, the gate accepts the policy that was built for the date
  // and derives the same split.
  lemma {:induction false} GateAcceptsThePolicy(
      calendar: Calendar, version: string, snapshot: Snapshot, iso: int -> string)
    requires Evaluate(calendar, version, snapshot.reportDate).Some? && version != ""
    requires snapshot.payload.policy == ToPayload(Evaluate(calendar, version, snapshot.reportDate).value, iso)
    ensures var p := Evaluate(calendar, version, snapshot.reportDate).value;
            InputsFor(snapshot, iso) == RequiredInputs(SetOf(p.required), SetOf(p.optional), true)
  {
    var p := Evaluate(calendar, version, snapshot.reportDate).value;
    PolicySplitsTheInputs(calendar, version, snapshot.reportDate);
    PolicyRegionsMatch(calendar, version, snapshot.reportDate, iso);
    ReadPolicyIsAccepted(p, snapshot, iso);
  }

  lemma {:induction false} PolicyRegionsMatch(calendar: Calendar, version: string, date: int, iso: int -> string)
    requires Evaluate(calendar, version, date).Some?
    ensures var p := Evaluate(calendar, version, date).value;
            RegionsMatch(PolicyFields(p, iso), date, SetOf(p.optional))
  {
    var p := Evaluate(calendar, version, date).value;
    PayloadReads(p, iso);
    RegionsOf(calendar, version, date);
    RegionsRead(p.regions, iso);
    ClosedAreOptional(calendar, version, date);
    DayTypeFollows(calendar, version, date);
  }

  // A policy of another date is not accepted, whatever it says.
  lemma {:induction false} OtherDatesAreRefused(p: Policy, snapshot: Snapshot, iso: int -> string)
    requires snapshot.payload.policy == ToPayload(p, iso) && iso(p.reportDate) != iso(snapshot.reportDate)
    ensures InputsFor(snapshot, iso) == INVALID_POLICY
    ensures Decide(Issues(snapshot, iso)) == Blocked
  {
    PayloadReads(p, iso);
    assert Issues(snapshot, iso)[0] == Issue("report.day_policy", PolicyInvalid, true);
    assert Issues(snapshot, iso)[0].Blocks();
  }

  // ---- Facts of a snapshot ----------------------------------------------------------------------

  predicate InTime(fact: Dict, cutoff: int, instant: string -> Option<int>) {
    AvailableAt(fact, instant).Some? && AvailableAt(fact, instant).value <= cutoff
  }

  lemma {:induction false} NothingOffends(facts: seq<Dict>, cutoff: int, instant: string -> Option<int>)
    ensures CutoffStatus(facts, cutoff, instant).None? <==> forall fact <- facts :: InTime(fact, cutoff, instant)
  {
    if facts != [] {
      NothingOffends(facts[1..], cutoff, instant);
      assert facts == [facts[0]] + facts[1..];
      assert facts[0] in facts;
    }
  }

  // Every usable fact survived the cutoff check of its own evidence.
  lemma {:induction false} UsableFactsAreInTime(evidence: seq<Evidence>, cutoff: int, instant: string -> Option<int>)
    ensures forall fact <- UsableFacts(AllSafe(evidence, cutoff, instant)) :: InTime(fact, cutoff, instant)
  {
    var safe := AllSafe(evidence, cutoff, instant);
    if evidence != [] {
      var n := |evidence| - 1;
      UsableFactsAreInTime(evidence[..n], cutoff, instant);
      assert safe[..n] == AllSafe(evidence[..n], cutoff, instant);
      NothingOffends(evidence[n].facts, cutoff, instant);
    }
  }

  // No fact of a snapshot became available after the cutoff, and each carries a readable time.
  lemma {:induction false} FactsAreBeforeTheCutoff(lib: Lib, date: int, asOf: int, cutoff: int, version: string,
                                evidence: seq<Evidence>, policy: Policy)
    requires FromEvidence(lib, date, asOf, cutoff, version, evidence, policy).Some?
    ensures var facts := FromEvidence(lib, date, asOf, cutoff, version, evidence, policy).value.payload.facts;
            facts.Arr? && forall item <- facts.items :: item.Obj? && InTime(item.fields, cutoff, lib.instant)
  {
    var safe := AllSafe(evidence, cutoff, lib.instant);
    UsableFactsAreInTime(evidence, cutoff, lib.instant);
    SortPermutes(UsableFacts(safe), ByFactId());
  }

  lemma {:induction false} FactIdsOf(facts: seq<Dict>)
    requires forall fact <- facts :: AsText(Get(fact, "fact_id")).Some?
    ensures FactIds(Objects(facts)) == Some(Strings(Keys(facts)))
  {
    if facts != [] {
      var n := |facts| - 1;
      FactIdsOf(facts[..n]);
      assert Objects(facts)[..n] == Objects(facts[..n]);
      assert facts[n] in facts;
      assert Strings(Keys(facts)) == Strings(Keys(facts[..n])) + [Str(FactKey(facts[n]))];
    }
  }

  // The gate's fact check passes exactly when at least one fact survived.
  lemma {:induction false} FactCheckSeesAnyFact(
      lib: Lib, date: int, asOf: int, cutoff: int, version: string, evidence: seq<Evidence>, policy: Policy)
    requires FromEvidence(lib, date, asOf, cutoff, version, evidence, policy).Some?
    ensures HasFacts(FromEvidence(lib, date, asOf, cutoff, version, evidence, policy).value)
       <==> SortedFacts(AllSafe(evidence, cutoff, lib.instant)) != []
  {
    var facts := SortedFacts(AllSafe(evidence, cutoff, lib.instant));
    FactIdsOf(facts);
  }

  // ---- The decision over a materialized snapshot --------------------------------------------------

  lemma {:induction false} IssueOfSomeEntry(entries: seq<Field>, required: set<string>, issue: Issue)
    ensures issue in AllEntryIssues(entries, required) <==> exists e <- entries :: issue in EntryIssues(e, required)
  {
    if entries != [] {
      var n := |entries| - 1;
      IssueOfSomeEntry(entries[..n], required, issue);
      assert entries == entries[..n] + [entries[n]];
    }
  }

  lemma {:induction false} IssueOfSomeInput(ids: seq<string>, chosen: string -> bool, code: Code, required: bool,
                                            issue: Issue)
    ensures issue in ForInputs(ids, chosen, code, required)
       <==> issue.inputId in ids && chosen(issue.inputId) && issue.code == code && issue.required == required
  {
    if ids != [] {
      var n := |ids| - 1;
      IssueOfSomeInput(ids[..n], chosen, code, required, issue);
      assert ids == ids[..n] + [ids[n]];
    }
  }

  // What one evidence contributes, given that no required input was downgraded.
  lemma {:induction false} EntryOfEvidence(e: Evidence, required: set<string>)
    requires e.inputId in required ==> e.required
    ensures EntryIssues(QualityEntry(e), required)
         == if e.status == Available || e.status == Denied then []
            else [Issue(e.inputId, HasStatus(e.status), e.required)]
  {
    var fields := QualityEntry(e).value.fields;
    GetFinds(fields);
    assert Found(fields, 0) && Found(fields, 1) && Found(fields, 2);
  }

  // What the materializer hands to the gate.
  ghost function Safely(lib: Lib, cutoff: int, evidence: seq<Evidence>, policy: Policy): seq<Evidence> {
    AllSafe(Applied(evidence, policy), cutoff, lib.instant)
  }

  ghost function Materialized(lib: Lib, date: int, asOf: int, cutoff: int, version: string, evidence: seq<Evidence>,
                              policy: Policy): Option<Snapshot> {
    FromEvidence(lib, date, asOf, cutoff, version, Applied(evidence, policy), policy)
  }

  ghost predicate Explains(e: Evidence, issue: Issue) {
    && e.status != Available && e.status != Denied
    && issue == Issue(e.inputId, HasStatus(e.status), e.required)
  }

  // Where an adjusted evidence comes from.
  lemma {:induction false} AdjustedFrom(evidence: seq<Evidence>, policy: Policy, e: Evidence)
    requires e in AllAdjusted(evidence, policy)
    ensures exists item <- evidence :: e == Adjusted(item, policy)
  {
    var n := |evidence| - 1;
    if e != Adjusted(evidence[n], policy) {
      AdjustedFrom(evidence[..n], policy, e);
    }
  }

  ghost predicate KeepsItsFlag(policy: Policy, e: Evidence) {
    && (e.inputId in policy.required ==> e.required)
    && (ClosedFor(policy.regions, e.inputId).Some? ==> !e.required)
  }

  lemma {:induction false} AppliedKeepsFlags(evidence: seq<Evidence>, policy: Policy, e: Evidence)
    requires SetOf(policy.required) !! SetOf(policy.optional)
    requires forall r <- policy.regions :: !r.Required() ==> r.Input() in policy.optional
    requires e in Applied(evidence, policy)
    ensures KeepsItsFlag(policy, e)
  {
    ClosedIsOptional(policy.regions, policy, e.inputId);
    if e in AllAdjusted(evidence, policy) {
      AdjustedFrom(evidence, policy, e);
    } else {
      PlaceholdersAreClosed(ClosedIds(policy.regions), evidence, policy);
    }
  }

  // A required input keeps its flag from the policy to the gate.
  lemma {:induction false} RequiredStaysRequired(evidence: seq<Evidence>, policy: Policy, cutoff: int, lib: Lib)
    requires SetOf(policy.required) !! SetOf(policy.optional)
    requires forall r <- policy.regions :: !r.Required() ==> r.Input() in policy.optional
    ensures forall e <- Safely(lib, cutoff, evidence, policy) :: KeepsItsFlag(policy, e)
  {
    var applied := Applied(evidence, policy);
    forall e | e in Safely(lib, cutoff, evidence, policy) ensures KeepsItsFlag(policy, e) {
      var i :| 0 <= i < |applied| && e == Safe(applied[i], cutoff, lib.instant);
      AppliedKeepsFlags(evidence, policy, applied[i]);
    }
  }

  lemma {:induction false} ClosedIsOptional(regions: seq<RegionPolicy>, policy: Policy, id: string)
    requires forall r <- regions :: !r.Required() ==> r.Input() in policy.optional
    requires SetOf(policy.required) !! SetOf(policy.optional)
    ensures ClosedFor(regions, id).Some? ==> id in policy.optional && id !in policy.required
  {
    if regions != [] {
      ClosedIsOptional(regions[..|regions| - 1], policy, id);
      if id in policy.optional {
        assert id in SetOf(policy.optional);
      }
    }
  }

  lemma {:induction false} PlaceholdersAreClosed(ids: seq<string>, evidence: seq<Evidence>, policy: Policy)
    ensures forall e <- Placeholders(ids, evidence, policy) ::
              !e.required && ClosedFor(policy.regions, e.inputId).Some? && e.inputId in ids
  {
    if ids != [] {
      PlaceholdersAreClosed(ids[..|ids| - 1], evidence, policy);
    }
  }

  lemma {:induction false} EntryHasEvidence(
      safe: seq<Evidence>, required: set<string>, issue: Issue, entry: Field)
    returns (e: Evidence)
    requires forall e <- safe :: e.inputId in required ==> e.required
    requires entry in QualityEntries(safe) && issue in EntryIssues(entry, required)
    ensures e in safe && Explains(e, issue)
  {
    var i :| 0 <= i < |safe| && QualityEntries(safe)[i] == entry;
    e := safe[i];
    EntryOfEvidence(e, required);
  }

  lemma {:induction false} EvidenceHasEntry(safe: seq<Evidence>, required: set<string>, issue: Issue, e: Evidence)
    requires e in safe && (e.inputId in required ==> e.required) && Explains(e, issue)
    ensures QualityEntry(e) in QualityEntries(safe) && issue in EntryIssues(QualityEntry(e), required)
  {
    var i :| 0 <= i < |safe| && safe[i] == e;
    assert QualityEntries(safe)[i] == QualityEntry(e);
    EntryOfEvidence(e, required);
  }

  // The gate's entry issues are those of the evidence, however the entries are sorted.
  lemma {:induction false} EntryIssuesOfEvidence(safe: seq<Evidence>, required: set<string>, issue: Issue)
    requires forall e <- safe :: e.inputId in required ==> e.required
    ensures issue in AllEntryIssues(Sort(Sort(QualityEntries(safe), FieldOrder()), FieldOrder()), required)
       <==> exists e <- safe :: Explains(e, issue)
  {
    var entries := QualityEntries(safe);
    SortPermutes(entries, FieldOrder());
    SortPermutes(Sort(entries, FieldOrder()), FieldOrder());
    var twice := Sort(Sort(entries, FieldOrder()), FieldOrder());
    assert forall entry :: entry in twice <==> entry in entries;
    IssueOfSomeEntry(twice, required, issue);
    if issue in AllEntryIssues(twice, required) {
      var entry :| entry in twice && issue in EntryIssues(entry, required);
      var e := EntryHasEvidence(safe, required, issue, entry);
    }
    if e :| e in safe && Explains(e, issue) {
      EvidenceHasEntry(safe, required, issue, e);
    }
  }

  lemma {:induction false} EntriesListEvidence(safe: seq<Evidence>, id: string)
    ensures Listed(Sort(QualityEntries(safe), FieldOrder()), id) <==> Observed(safe, id)
  {
    var entries := QualityEntries(safe);
    SortPermutes(entries, FieldOrder());
    if Observed(safe, id) {
      var i :| 0 <= i < |safe| && safe[i].inputId == id;
      assert entries[i] in Sort(entries, FieldOrder());
    }
    if Listed(Sort(entries, FieldOrder()), id) {
      var entry :| entry in Sort(entries, FieldOrder()) && entry.key == id;
      var i :| 0 <= i < |entries| && entries[i] == entry;
      assert safe[i].inputId == id;
    }
  }

  // The issues the gate raises about the fixed inputs as such.
  ghost predicate OfInput(inputs: RequiredInputs, entries: seq<Field>, issue: Issue) {
    && issue.inputId in ALL_INPUTS
    && (|| (issue.code == RequiredUnavailable && issue.required && NotListed(inputs.required, entries)(issue.inputId))
        || (issue.code == OptionalUnavailable && !issue.required && NotListed(inputs.optional, entries)(issue.inputId))
        || (issue.code == ScheduledClosure && !issue.required
            && AvailableAnyway(inputs.optional, entries)(issue.inputId)))
  }

  lemma {:induction false} InputIssuesOf(inputs: RequiredInputs, entries: seq<Field>, issue: Issue)
    ensures issue in InputIssues(inputs, entries) <==> OfInput(inputs, entries, issue)
  {
    IssueOfSomeInput(ALL_INPUTS, NotListed(inputs.required, entries), RequiredUnavailable, true, issue);
    IssueOfSomeInput(ALL_INPUTS, NotListed(inputs.optional, entries), OptionalUnavailable, false, issue);
    IssueOfSomeInput(ALL_INPUTS, AvailableAnyway(inputs.optional, entries), ScheduledClosure, false, issue);
  }

  // Every issue of the gate over a snapshot, in terms of its evidence.
  lemma {:induction false} IssuesOfSnapshot(
      lib: Lib, snapshot: Snapshot, safe: seq<Evidence>, inputs: RequiredInputs, issue: Issue)
    requires InputsFor(snapshot, lib.iso) == inputs && inputs.valid
    requires snapshot.payload.inputQuality == Obj(Sort(QualityEntries(safe), FieldOrder()))
    requires forall e <- safe :: e.inputId in inputs.required ==> e.required
    ensures issue in Issues(snapshot, lib.iso) <==>
              || OfInput(inputs, Sort(QualityEntries(safe), FieldOrder()), issue)
              || (exists e <- safe :: Explains(e, issue))
              || (!HasFacts(snapshot) && issue == Issue("report.facts", FactsUnavailable, true))
  {
    var entries := Sort(QualityEntries(safe), FieldOrder());
    assert Entries(snapshot) == entries && PolicyIssues(inputs) == [];
    InputIssuesOf(inputs, entries, issue);
    EntryIssuesOfEvidence(safe, inputs.required, issue);
    InFour([], InputIssues(inputs, entries), AllEntryIssues(Sort(entries, FieldOrder()), inputs.required),
           FactIssues(snapshot), issue);
  }

  lemma {:induction false} InFour(a: seq<Issue>, b: seq<Issue>, c: seq<Issue>, d: seq<Issue>, issue: Issue)
    ensures issue in a + b + c + d <==> issue in a || issue in b || issue in c || issue in d
  {}

  predicate Fails(status: Status) {
    status != Available && status != Revised && status != Retryable && status != Denied
  }

  lemma {:induction false} ClosedIsFound(regions: seq<RegionPolicy>, closed: RegionPolicy)
    requires closed in regions && !closed.Required()
    ensures ClosedFor(regions, closed.Input()).Some?
  {
    var n := |regions| - 1;
    if regions[n] != closed {
      assert regions == regions[..n] + [regions[n]];
      ClosedIsFound(regions[..n], closed);
    }
  }

  // A calendar's policy meets what the materializer relies on.
  lemma {:induction false} EvaluatedPolicy(calendar: Calendar, version: string, date: int)
    requires Evaluate(calendar, version, date).Some?
    ensures var p := Evaluate(calendar, version, date).value;
            && SetOf(p.required) !! SetOf(p.optional)
            && (forall r <- p.regions :: !r.Required() ==> r.Input() in p.optional)
            && (forall id :: id in p.required ==> id in ALL_INPUTS)
  {
    var p := Evaluate(calendar, version, date).value;
    PolicySplitsTheInputs(calendar, version, date);
    forall r | r in p.regions ensures !r.Required() ==> r.Input() in p.optional {
      RegionsOf(calendar, version, date);
      WhatAPolicyRequires(calendar, version, date, r.Input());
    }
    forall id | id in p.required ensures id in ALL_INPUTS {
      assert id in SetOf(p.required) + SetOf(p.optional);
    }
  }

  lemma {:induction false} ClosedMarketIsFound(calendar: Calendar, version: string, date: int, r: Region)
    requires Evaluate(calendar, version, date).Some? && !HasSession(calendar, r, date)
    ensures ClosedFor(Evaluate(calendar, version, date).value.regions, MarketInput(r)).Some?
    ensures MarketInput(r) !in Evaluate(calendar, version, date).value.required
  {
    var p := Evaluate(calendar, version, date).value;
    RegionsOf(calendar, version, date);
    var i := if r == Cn then 0 else if r == Hk then 1 else 2;
    assert REGIONS[i] == r && p.regions[i] in p.regions;
    ClosedIsFound(p.regions, p.regions[i]);
    EvaluatedPolicy(calendar, version, date);
    ClosedIsOptional(p.regions, p, MarketInput(r));
  }

  // A required issue of a materialized snapshot, in terms of the evidence.
  ghost predicate HasRequiredReason(policy: Policy, safe: seq<Evidence>, anyFact: bool, issue: Issue) {
    && issue.required
    && (|| (issue.code == RequiredUnavailable && issue.inputId in policy.required && !Observed(safe, issue.inputId))
        || (exists e <- safe :: Explains(e, issue))
        || (!anyFact && issue == Issue("report.facts", FactsUnavailable, true)))
  }

  // The required issues of the gate are exactly those with a reason in the evidence.
  lemma {:induction false} GateSees(
      lib: Lib, calendar: Calendar, calendarVersion: string, date: int, asOf: int, cutoff: int, version: string,
      evidence: seq<Evidence>, issue: Issue)
    requires Evaluate(calendar, calendarVersion, date).Some? && calendarVersion != ""
    requires var policy := Evaluate(calendar, calendarVersion, date).value;
             Materialized(lib, date, asOf, cutoff, version, evidence, policy).Some?
    ensures var policy := Evaluate(calendar, calendarVersion, date).value;
            var snapshot := Materialized(lib, date, asOf, cutoff, version, evidence, policy).value;
            var safe := Safely(lib, cutoff, evidence, policy);
            issue in Issues(snapshot, lib.iso) && issue.required
            <==> HasRequiredReason(policy, safe, SortedFacts(safe) != [], issue)
  {
    var policy := Evaluate(calendar, calendarVersion, date).value;
    var snapshot := Materialized(lib, date, asOf, cutoff, version, evidence, policy).value;
    FactCheckSeesAnyFact(lib, date, asOf, cutoff, version, Applied(evidence, policy), policy);
    EvaluatedPolicy(calendar, calendarVersion, date);
    GateAcceptsThePolicy(calendar, calendarVersion, snapshot, lib.iso);
    RequiredStaysRequired(evidence, policy, cutoff, lib);
    EntriesListEvidence(Safely(lib, cutoff, evidence, policy), issue.inputId);
    IssuesOfSnapshot(lib, snapshot, Safely(lib, cutoff, evidence, policy),
                     RequiredInputs(SetOf(policy.required), SetOf(policy.optional), true), issue);
  }

  lemma {:induction false} ClosedHasNoReason(
      calendar: Calendar, calendarVersion: string, date: int, lib: Lib, cutoff: int, evidence: seq<Evidence>,
      anyFact: bool, r: Region, issue: Issue)
    requires Evaluate(calendar, calendarVersion, date).Some? && !HasSession(calendar, r, date)
    requires issue.inputId == MarketInput(r)
    ensures var policy := Evaluate(calendar, calendarVersion, date).value;
            !HasRequiredReason(policy, Safely(lib, cutoff, evidence, policy), anyFact, issue)
  {
    var policy := Evaluate(calendar, calendarVersion, date).value;
    EvaluatedPolicy(calendar, calendarVersion, date);
    RequiredStaysRequired(evidence, policy, cutoff, lib);
    ClosedMarketIsFound(calendar, calendarVersion, date, r);
    assert MarketInput(r)[0] == 'm';
  }

  ghost predicate OfClosedMarket(calendar: Calendar, date: int, issue: Issue) {
    exists r :: issue.inputId == MarketInput(r) && !HasSession(calendar, r, date)
  }

  // For every calendar, date and evidence: the input of a market without a session never yields
  // a required issue, so a blocked or retryable decision always has a reason elsewhere.
  lemma {:induction false} ClosedMarketsNeverBlock(
      lib: Lib, calendar: Calendar, calendarVersion: string, date: int, asOf: int, cutoff: int, version: string,
      evidence: seq<Evidence>)
    requires Evaluate(calendar, calendarVersion, date).Some? && calendarVersion != ""
    requires var policy := Evaluate(calendar, calendarVersion, date).value;
             Materialized(lib, date, asOf, cutoff, version, evidence, policy).Some?
    ensures var policy := Evaluate(calendar, calendarVersion, date).value;
            var issues := Issues(Materialized(lib, date, asOf, cutoff, version, evidence, policy).value, lib.iso);
            && (forall issue <- issues :: OfClosedMarket(calendar, date, issue) ==> !issue.required)
            && (Decide(issues) == Blocked || Decide(issues) == RetryLater ==>
                  exists issue <- issues :: issue.required && !OfClosedMarket(calendar, date, issue))
  {
    var policy := Evaluate(calendar, calendarVersion, date).value;
    var issues := Issues(Materialized(lib, date, asOf, cutoff, version, evidence, policy).value, lib.iso);
    forall issue | issue in issues && OfClosedMarket(calendar, date, issue) ensures !issue.required {
      ClosedIssueIsOptional(lib, calendar, calendarVersion, date, asOf, cutoff, version, evidence, issue);
    }
    ReasonIsElsewhere(calendar, date, issues);
  }

  lemma {:induction false} ClosedIssueIsOptional(
      lib: Lib, calendar: Calendar, calendarVersion: string, date: int, asOf: int, cutoff: int, version: string,
      evidence: seq<Evidence>, issue: Issue)
    requires Evaluate(calendar, calendarVersion, date).Some? && calendarVersion != ""
    requires var policy := Evaluate(calendar, calendarVersion, date).value;
             var snapshot := Materialized(lib, date, asOf, cutoff, version, evidence, policy);
             snapshot.Some? && issue in Issues(snapshot.value, lib.iso)
    requires OfClosedMarket(calendar, date, issue)
    ensures !issue.required
  {
    var policy := Evaluate(calendar, calendarVersion, date).value;
    var r :| issue.inputId == MarketInput(r) && !HasSession(calendar, r, date);
    GateSees(lib, calendar, calendarVersion, date, asOf, cutoff, version, evidence, issue);
    ClosedHasNoReason(calendar, calendarVersion, date, lib, cutoff, evidence,
                      SortedFacts(Safely(lib, cutoff, evidence, policy)) != [], r, issue);
  }

  lemma {:induction false} ReasonIsElsewhere(calendar: Calendar, date: int, issues: seq<Issue>)
    requires forall issue <- issues :: OfClosedMarket(calendar, date, issue) ==> !issue.required
    ensures Decide(issues) == Blocked || Decide(issues) == RetryLater ==>
              exists issue <- issues :: issue.required && !OfClosedMarket(calendar, date, issue)
  {
    if issue :| issue in issues && (issue.Blocks() || issue.AsksRetry()) {
      assert issue.required && !OfClosedMarket(calendar, date, issue);
    }
  }

  // A materialized snapshot is blocked exactly when no fact survived, a required input has no
  // evidence, or required evidence failed.
  lemma {:induction false} BlockedExactlyWhen(
      lib: Lib, calendar: Calendar, calendarVersion: string, date: int, asOf: int, cutoff: int, version: string,
      evidence: seq<Evidence>)
    requires Evaluate(calendar, calendarVersion, date).Some? && calendarVersion != ""
    requires var policy := Evaluate(calendar, calendarVersion, date).value;
             Materialized(lib, date, asOf, cutoff, version, evidence, policy).Some?
    ensures var policy := Evaluate(calendar, calendarVersion, date).value;
            var snapshot := Materialized(lib, date, asOf, cutoff, version, evidence, policy).value;
            var safe := Safely(lib, cutoff, evidence, policy);
            Decide(Issues(snapshot, lib.iso)) == Blocked <==>
              || SortedFacts(safe) == []
              || (exists id <- policy.required :: !Observed(safe, id))
              || (exists e <- safe :: e.required && Fails(e.status))
  {
    var policy := Evaluate(calendar, calendarVersion, date).value;
    var snapshot := Materialized(lib, date, asOf, cutoff, version, evidence, policy).value;
    var issues := Issues(snapshot, lib.iso);
    var safe := Safely(lib, cutoff, evidence, policy);
    var anyFact := SortedFacts(safe) != [];
    forall issue: Issue ensures issue in issues && issue.required <==> HasRequiredReason(policy, safe, anyFact, issue) {
      GateSees(lib, calendar, calendarVersion, date, asOf, cutoff, version, evidence, issue);
    }
    BlockingReasons(policy, safe, anyFact, issues);
  }

  lemma {:induction false} BlockingReasons(policy: Policy, safe: seq<Evidence>, anyFact: bool, issues: seq<Issue>)
    requires forall issue :: issue in issues && issue.required <==> HasRequiredReason(policy, safe, anyFact, issue)
    ensures Decide(issues) == Blocked <==>
              || !anyFact
              || (exists id <- policy.required :: !Observed(safe, id))
              || (exists e <- safe :: e.required && Fails(e.status))
  {
    var noFacts := Issue("report.facts", FactsUnavailable, true);
    assert !anyFact ==> HasRequiredReason(policy, safe, anyFact, noFacts) && noFacts.Blocks();
    forall id | id in policy.required && !Observed(safe, id)
      ensures exists issue <- issues :: issue.Blocks()
    {
      var issue := Issue(id, RequiredUnavailable, true);
      assert HasRequiredReason(policy, safe, anyFact, issue) && issue.Blocks();
    }
    forall e | e in safe && e.required && Fails(e.status)
      ensures exists issue <- issues :: issue.Blocks()
    {
      var issue := Issue(e.inputId, HasStatus(e.status), true);
      assert Explains(e, issue);
      assert HasRequiredReason(policy, safe, anyFact, issue) && issue.Blocks();
    }
    if Decide(issues) == Blocked {
      var issue :| issue in issues && issue.Blocks();
      assert HasRequiredReason(policy, safe, anyFact, issue);
    }
  }
}
