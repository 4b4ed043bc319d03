/** The data-quality decision over one immutable report input snapshot. */
module QualityGate {
  import opened DayPolicy
  import opened Json
  import opened Prelude
  import opened Sorting

  // ---- The snapshot ---------------------------------------------------------------------------

  // The payload keys that are read back; a missing key reads like null.
  datatype Payload = Payload(inputQuality: Json, policy: Json, facts: Json, sources: Json)

  datatype Snapshot = Snapshot(
    id: string, version: string, reportDate: int, asOf: int, cutoffAt: int, fingerprint: string,
    factIds: seq<string>, payload: Payload)

  datatype Status =
    Available | Revised | Retryable | Missing | Stale | Late | Unavailable | Quarantined | Invalid | Denied

  function StatusName(status: Status): (name: string)
    ensures ReadStatus(name) == Some(status)
  {
    match status
    case Available => "available"
    case Revised => "revised"
    case Retryable => "retryable"
    case Missing => "missing"
    case Stale => "stale"
    case Late => "late"
    case Unavailable => "unavailable"
    case Quarantined => "quarantined"
    case Invalid => "invalid"
    case Denied => "denied"
  }

  function ReadStatus(name: string): Option<Status> {
    if name == "available" then Some(Available)
    else if name == "revised" then Some(Revised)
    else if name == "retryable" then Some(Retryable)
    else if name == "missing" then Some(Missing)
    else if name == "stale" then Some(Stale)
    else if name == "late" then Some(Late)
    else if name == "unavailable" then Some(Unavailable)
    else if name == "quarantined" then Some(Quarantined)
    else if name == "invalid" then Some(Invalid)
    else if name == "denied" then Some(Denied)
    else None
  }

  // ---- Issues and the decision ----------------------------------------------------------------

  datatype Code =
    | PolicyInvalid
    | RequiredUnavailable | OptionalUnavailable | ScheduledClosure
    | DeclarationInvalid | EntryInvalid | StatusUnknown
    | HasStatus(status: Status)
    | FactsUnavailable

  // The suffix of a code, REQUIRED_INPUT or OPTIONAL_INPUT, follows `required`.
  datatype Issue = Issue(inputId: string, code: Code, required: bool) {
    predicate Blocks() { required && code != HasStatus(Retryable) && code != HasStatus(Revised) }
    predicate AsksRetry() { required && code == HasStatus(Retryable) }
  }

  datatype Decision = Passed | Degraded | Blocked | RetryLater

  function Decide(issues: seq<Issue>): Decision {
    if exists issue <- issues :: issue.Blocks() then Blocked
    else if exists issue <- issues :: issue.AsksRetry() then RetryLater
    else if issues != [] then Degraded
    else Passed
  }

  // ---- The policy as the gate reads it --------------------------------------------------------

  datatype RequiredInputs = RequiredInputs(required: set<string>, optional: set<string>, valid: bool)

  const WITHOUT_POLICY := RequiredInputs(SetOf(ALL_INPUTS), {}, true)
  const INVALID_POLICY := RequiredInputs(SetOf(ALL_INPUTS), {}, false)

  // One entry of the region list: known region and status, its own input, and the flag that
  // belongs to the status.
  function ReadRegion(item: Json): Option<(Region, MarketDay)> {
    if !item.Obj? then None
    else
      var fields := item.fields;
      match (AsText(Get(fields, "region")), AsText(Get(fields, "status")))
      case (Some(name), Some(dayName)) =>
        (match (ReadRegionName(name), ReadMarketDay(dayName))
         case (Some(region), Some(day)) =>
           if Get(fields, "market_input_id") == Some(Str(MarketInput(region)))
              && Get(fields, "market_input_required") == Some(Bool(day == ScheduledSession))
           then Some((region, day)) else None
         case _ => None)
      case _ => None
  }

  // The status of every region, if each entry reads and none repeats a region.
  function ReadRegions(items: seq<Json>): Option<map<Region, MarketDay>> {
    if items == [] then Some(map[])
    else
      match (ReadRegions(items[..|items| - 1]), ReadRegion(items[|items| - 1]))
      case (Some(seen), Some((region, day))) => if region in seen then None else Some(seen[region := day])
      case _ => None
  }

  // The markets whose input the entries make optional.
  function ClosedInputs(days: map<Region, MarketDay>): set<string> {
    set region | region in days && days[region] != ScheduledSession :: MarketInput(region)
  }

  predicate DayTypeFits(day: DayType, date: int, statuses: set<MarketDay>) {
    match day
    case Regular => !IsWeekend(date) && statuses == {ScheduledSession}
    case Weekend => IsWeekend(date) && statuses == {WeekendClosed}
    case RegionalHoliday =>
      !IsWeekend(date) && ExchangeHoliday in statuses && statuses <= {ScheduledSession, ExchangeHoliday}
  }

  predicate RegionsMatch(policy: seq<Field>, date: int, optional: set<string>) {
    var dayName := AsText(Get(policy, "day_type"));
    var regions := Get(policy, "regions");
    && dayName.Some? && ReadDayType(dayName.value).Some?
    && regions.Some? && regions.value.Arr?
    && var days := ReadRegions(regions.value.items);
       && days.Some?
       && days.value.Keys == {Cn, Hk, Us}
       && ClosedInputs(days.value) == optional
       && DayTypeFits(ReadDayType(dayName.value).value, date, days.value.Values)
  }

  // A list of strings.
  function ReadStrings(value: Option<Json>): Option<seq<string>> {
    if value.None? || !value.value.Arr? then None else ReadTexts(value.value.items)
  }

  function ReadTexts(items: seq<Json>): Option<seq<string>> {
    if items == [] then Some([])
    else
      match (ReadTexts(items[..|items| - 1]), items[|items| - 1])
      case (Some(front), Str(text)) => Some(front + [text])
      case _ => None
  }

  predicate PolicyNamesItsDay(policy: seq<Field>, date: string) {
    var version := AsText(Get(policy, "calendar_version"));
    && Get(policy, "report_date") == Some(Str(date))
    && Get(policy, "policy_id") == Some(Str(POLICY_ID))
    && version.Some? && version.value != ""
  }

  // Required and optional inputs split the fixed ones, and the regions explain the split.
  predicate SplitsInputs(policy: seq<Field>, date: int, required: set<string>, optional: set<string>) {
    && required * optional == {}
    && required + optional == SetOf(ALL_INPUTS)
    && SetOf(ALWAYS_REQUIRED) <= required
    && RegionsMatch(policy, date, optional)
  }

  function InputsOfLists(policy: seq<Field>, date: int, requiredIds: Option<seq<string>>,
                         optionalIds: Option<seq<string>>): RequiredInputs {
    match (requiredIds, optionalIds)
    case (Some(required), Some(optional)) =>
      if SplitsInputs(policy, date, SetOf(required), SetOf(optional))
      then RequiredInputs(SetOf(required), SetOf(optional), true) else INVALID_POLICY
    case _ => INVALID_POLICY
  }

  function InputsFor(snapshot: Snapshot, iso: int -> string): RequiredInputs {
    match snapshot.payload.policy
    case Null => WITHOUT_POLICY
    case Obj(policy) =>
      if !PolicyNamesItsDay(policy, iso(snapshot.reportDate)) then INVALID_POLICY
      else InputsOfLists(policy, snapshot.reportDate, ReadStrings(Get(policy, "required_input_ids")),
                         ReadStrings(Get(policy, "optional_input_ids")))
    case _ => INVALID_POLICY
  }

  // ---- The issues of a snapshot ---------------------------------------------------------------

  function Entries(snapshot: Snapshot): seq<Field> {
    match snapshot.payload.inputQuality case Obj(fields) => fields case _ => []
  }

  predicate Listed(entries: seq<Field>, id: string) {
    exists e <- entries :: e.key == id
  }

  predicate ListedAvailable(entries: seq<Field>, id: string) {
    match Get(entries, id) case Some(Obj(raw)) => Get(raw, "status") == Some(Str("available")) case _ => false
  }

  // One issue per fixed input that satisfies a condition, in sorted order.
  function ForInputs(ids: seq<string>, chosen: string -> bool, code: Code, required: bool): seq<Issue> {
    if ids == [] then []
    else
      ForInputs(ids[..|ids| - 1], chosen, code, required)
      + (if chosen(ids[|ids| - 1]) then [Issue(ids[|ids| - 1], code, required)] else [])
  }

  predicate IsRequired(entry: Field, required: set<string>) {
    entry.key in required || !entry.value.Obj? || Get(entry.value.fields, "required") == Some(Bool(true))
  }

  function StatusIssues(id: string, status: Option<Json>, required: bool): seq<Issue> {
    match AsText(status)
    case None => [Issue(id, StatusUnknown, required)]
    case Some(name) =>
      match ReadStatus(name)
      case None => [Issue(id, StatusUnknown, required)]
      case Some(Denied) => []
      case Some(Available) => []
      case Some(s) => [Issue(id, HasStatus(s), required)]
  }

  function EntryIssues(entry: Field, required: set<string>): seq<Issue> {
    if !entry.value.Obj? then [Issue(entry.key, EntryInvalid, IsRequired(entry, required))]
    else
      var declared := Get(entry.value.fields, "required");
      (if entry.key in required && declared.Some? && declared.value != Bool(true)
       then [Issue(entry.key, DeclarationInvalid, true)] else [])
      + StatusIssues(entry.key, Get(entry.value.fields, "status"), IsRequired(entry, required))
  }

  function AllEntryIssues(entries: seq<Field>, required: set<string>): seq<Issue> {
    if entries == [] then []
    else AllEntryIssues(entries[..|entries| - 1], required) + EntryIssues(entries[|entries| - 1], required)
  }

  function FieldOrder(): (Field, Field) -> bool {
    (a: Field, b: Field) => TextBefore(a.key, b.key)
  }

  // The fact IDs of a list, if every element is an object that has one.
  function FactIds(facts: seq<Json>): Option<seq<Json>> {
    if facts == [] then Some([])
    else
      var last := facts[|facts| - 1];
      match FactIds(facts[..|facts| - 1])
      case None => None
      case Some(front) =>
        if !last.Obj? then None else Some(front + [Get(last.fields, "fact_id").GetOr(Null)])
  }

  function Elements(values: seq<Json>): set<Json> {
    set value <- values
  }

  predicate HasFacts(snapshot: Snapshot) {
    && snapshot.factIds != []
    && snapshot.payload.facts.Arr?
    && var facts := snapshot.payload.facts.items;
       && facts != []
       && (forall i, j | 0 <= i < j < |snapshot.factIds| :: snapshot.factIds[i] != snapshot.factIds[j])
       && FactIds(facts).Some?
       && |facts| == |snapshot.factIds|
       && Elements(FactIds(facts).value) == Elements(Strings(snapshot.factIds))
  }

  function NotListed(ids: set<string>, entries: seq<Field>): string -> bool {
    id => id in ids && !Listed(entries, id)
  }

  function AvailableAnyway(ids: set<string>, entries: seq<Field>): string -> bool {
    id => id in ids && ListedAvailable(entries, id)
  }

  function InputIssues(inputs: RequiredInputs, entries: seq<Field>): seq<Issue> {
    ForInputs(ALL_INPUTS, NotListed(inputs.required, entries), RequiredUnavailable, true)
    + ForInputs(ALL_INPUTS, NotListed(inputs.optional, entries), OptionalUnavailable, false)
    + ForInputs(ALL_INPUTS, AvailableAnyway(inputs.optional, entries), ScheduledClosure, false)
  }

  function PolicyIssues(inputs: RequiredInputs): seq<Issue> {
    if inputs.valid then [] else [Issue("report.day_policy", PolicyInvalid, true)]
  }

  function FactIssues(snapshot: Snapshot): seq<Issue> {
    if HasFacts(snapshot) then [] else [Issue("report.facts", FactsUnavailable, true)]
  }

  function Issues(snapshot: Snapshot, iso: int -> string): seq<Issue> {
    var inputs := InputsFor(snapshot, iso);
    var entries := Entries(snapshot);
    PolicyIssues(inputs) + InputIssues(inputs, entries)
    + AllEntryIssues(Sort(entries, FieldOrder()), inputs.required) + FactIssues(snapshot)
  }

  // ---- The gate, step by step -----------------------------------------------------------------

  // The loop over the region entries of a raw policy.
  method CheckRegions(policy: seq<Field>, date: int, optional: set<string>) returns (matches: bool)
    ensures matches == RegionsMatch(policy, date, optional)
  {
    var dayName := AsText(Get(policy, "day_type"));
    var regions := Get(policy, "regions");
    if dayName.None? || ReadDayType(dayName.value).None? || regions.None? || !regions.value.Arr? {
      return false;
    }
    var items := regions.value.items;
    var observed: map<Region, MarketDay> := map[];
    var derivedOptional: set<string> := {};
    for n := 0 to |items|
      invariant ReadRegions(items[..n]) == Some(observed)
      invariant derivedOptional == ClosedInputs(observed)
    {
      assert items[..n + 1][..n] == items[..n];
      var read := ReadRegion(items[n]);
      if read.None? || read.value.0 in observed {
        UnreadableStays(items, n + 1);
        return false;
      }
      var (region, day) := read.value;
      if day != ScheduledSession {
        derivedOptional := derivedOptional + {MarketInput(region)};
      }
      ClosedInputsGrow(observed, region, day);
      observed := observed[region := day];
    }
    assert items[..|items|] == items;
    matches := observed.Keys == {Cn, Hk, Us} && derivedOptional == optional
               && DayTypeFits(ReadDayType(dayName.value).value, date, observed.Values);
  }

  lemma {:induction false} ClosedInputsGrow(days: map<Region, MarketDay>, region: Region, day: MarketDay)
    requires region !in days
    ensures ClosedInputs(days[region := day])
         == ClosedInputs(days) + (if day == ScheduledSession then {} else {MarketInput(region)})
  {
    var after := days[region := day];
    forall id ensures id in ClosedInputs(after)
                 <==> id in ClosedInputs(days) + (if day == ScheduledSession then {} else {MarketInput(region)})
    {
      if id in ClosedInputs(days) {
        var r :| r in days && days[r] != ScheduledSession && MarketInput(r) == id;
        assert r in after && after[r] != ScheduledSession;
      }
      assert region in after;
    }
  }

  lemma {:induction false} UnreadableStays(items: seq<Json>, n: nat)
    requires n <= |items| && ReadRegions(items[..n]).None?
    ensures ReadRegions(items).None?
  {
    if n == |items| {
      assert items[..n] == items;
    } else {
      assert items[..|items| - 1][..n] == items[..n];
      UnreadableStays(items[..|items| - 1], n);
    }
  }

  method CollectFor(chosen: string -> bool, code: Code, required: bool) returns (issues: seq<Issue>)
    ensures issues == ForInputs(ALL_INPUTS, chosen, code, required)
  {
    issues := [];
    for n := 0 to |ALL_INPUTS|
      invariant issues == ForInputs(ALL_INPUTS[..n], chosen, code, required)
    {
      assert ALL_INPUTS[..n + 1][..n] == ALL_INPUTS[..n];
      if chosen(ALL_INPUTS[n]) {
        issues := issues + [Issue(ALL_INPUTS[n], code, required)];
      }
    }
    assert ALL_INPUTS[..|ALL_INPUTS|] == ALL_INPUTS;
  }

  // _inputs_for_snapshot
  method ReadInputs(snapshot: Snapshot, iso: int -> string) returns (inputs: RequiredInputs)
    ensures inputs == InputsFor(snapshot, iso)
  {
    var raw := snapshot.payload.policy;
    if raw == Null {
      return WITHOUT_POLICY;
    }
    if !raw.Obj? || Get(raw.fields, "report_date") != Some(Str(iso(snapshot.reportDate))) {
      return INVALID_POLICY;
    }
    var version := AsText(Get(raw.fields, "calendar_version"));
    if Get(raw.fields, "policy_id") != Some(Str(POLICY_ID)) || version.None? || version.value == "" {
      return INVALID_POLICY;
    }
    var requiredIds := ReadStrings(Get(raw.fields, "required_input_ids"));
    var optionalIds := ReadStrings(Get(raw.fields, "optional_input_ids"));
    if requiredIds.None? || optionalIds.None? {
      return INVALID_POLICY;
    }
    var required, optional := SetOf(requiredIds.value), SetOf(optionalIds.value);
    var regionsMatch := CheckRegions(raw.fields, snapshot.reportDate, optional);
    if required * optional != {} || required + optional != SetOf(ALL_INPUTS)
       || !(SetOf(ALWAYS_REQUIRED) <= required) || !regionsMatch {
      return INVALID_POLICY;
    }
    return RequiredInputs(required, optional, true);
  }

  method EvaluateGate(snapshot: Snapshot, iso: int -> string) returns (decision: Decision, issues: seq<Issue>)
    ensures issues == Issues(snapshot, iso) && decision == Decide(issues)
  {
    var inputs := ReadInputs(snapshot, iso);
    var entries := Entries(snapshot);
    issues := PolicyIssues(inputs);
    var missing := CollectFor(NotListed(inputs.required, entries), RequiredUnavailable, true);
    var absent := CollectFor(NotListed(inputs.optional, entries), OptionalUnavailable, false);
    var closed := CollectFor(AvailableAnyway(inputs.optional, entries), ScheduledClosure, false);
    issues := issues + (missing + absent + closed);
    var ofEntries := CollectEntries(Sort(entries, FieldOrder()), inputs.required);
    issues := issues + ofEntries + FactIssues(snapshot);
    decision := Decide(issues);
  }

  method CollectEntries(entries: seq<Field>, required: set<string>) returns (issues: seq<Issue>)
    ensures issues == AllEntryIssues(entries, required)
  {
    issues := [];
    for n := 0 to |entries|
      invariant issues == AllEntryIssues(entries[..n], required)
    {
      assert entries[..n + 1][..n] == entries[..n];
      issues := issues + EntryIssues(entries[n], required);
    }
    assert entries[..|entries|] == entries;
  }
}
