/** From collected evidence to an immutable report input snapshot. */
module SnapshotMaterializer {
  import opened DayPolicy
  import opened Json
  import opened Prelude
  import opened QualityGate
  import opened Sorting

  type Dict = seq<Field>

  // One input's facts, provenance and conclusion.
  datatype Evidence = Evidence(
    inputId: string, status: Status, required: bool, reason: string, facts: seq<Dict>, sources: seq<Dict>)
  {
    predicate Usable() { status == Available || status == Revised }
  }

  // Library behaviour: date and time formatting, reading a zoned timestamp as an instant, and
  // the checksum of a snapshot body.
  datatype Lib = Lib(iso: int -> string, instant: string -> Option<int>, digest: Snapshot -> string)

  // ---- The day policy -------------------------------------------------------------------------

  // The last region that claims an input decides, as in a dict built from the regions.
  function ClosedFor(regions: seq<RegionPolicy>, id: string): Option<RegionPolicy> {
    if regions == [] then None
    else
      var last := regions[|regions| - 1];
      if !last.Required() && last.Input() == id then Some(last) else ClosedFor(regions[..|regions| - 1], id)
  }

  function ClosedReason(r: RegionPolicy): string {
    RegionName(r.region) + " market is closed (" + MarketDayName(r.status)
    + "); current-session market input is optional for this report date"
  }

  function Placeholder(id: string, r: RegionPolicy): Evidence {
    Evidence(id, Unavailable, false, ClosedReason(r), [], [])
  }

  function Adjusted(item: Evidence, policy: Policy): (r: Evidence)
    ensures r.inputId == item.inputId
  {
    if item.inputId in policy.required then item.(required := true)
    else
      match ClosedFor(policy.regions, item.inputId)
      case None => item
      case Some(closed) => if item.Usable() then item.(required := false) else Placeholder(item.inputId, closed)
  }

  function AllAdjusted(evidence: seq<Evidence>, policy: Policy): (r: seq<Evidence>)
    ensures |r| == |evidence|
  {
    if evidence == [] then []
    else AllAdjusted(evidence[..|evidence| - 1], policy) + [Adjusted(evidence[|evidence| - 1], policy)]
  }

  predicate Observed(evidence: seq<Evidence>, id: string) {
    exists e <- evidence :: e.inputId == id
  }

  // The closed markets without evidence, by input ID.
  function ClosedIds(regions: seq<RegionPolicy>): seq<string> {
    Sort(Inputs(regions, false), TextBefore)
  }

  function Placeholders(ids: seq<string>, evidence: seq<Evidence>, policy: Policy): seq<Evidence> {
    if ids == [] then []
    else
      var n := |ids| - 1;
      Placeholders(ids[..n], evidence, policy)
      + (if !Observed(evidence, ids[n]) && ids[n] !in ids[..n] && ClosedFor(policy.regions, ids[n]).Some?
         then [Placeholder(ids[n], ClosedFor(policy.regions, ids[n]).value)] else [])
  }

  function Applied(evidence: seq<Evidence>, policy: Policy): seq<Evidence> {
    AllAdjusted(evidence, policy) + Placeholders(ClosedIds(policy.regions), evidence, policy)
  }

  // _apply_report_day_policy
  method ApplyPolicy(evidence: seq<Evidence>, policy: Policy) returns (adjusted: seq<Evidence>)
    ensures adjusted == Applied(evidence, policy)
  {
    adjusted := [];
    var observed: set<string> := {};
    for n := 0 to |evidence|
      invariant adjusted == AllAdjusted(evidence[..n], policy)
      invariant forall id :: id in observed <==> Observed(evidence[..n], id)
    {
      var item := evidence[n];
      ObservedGrows(evidence, n);
      observed := observed + {item.inputId};
      assert evidence[..n + 1][..n] == evidence[..n];
      var one := AdjustOne(item, policy);
      adjusted := adjusted + [one];
    }
    assert evidence[..|evidence|] == evidence;
    var placeholders := AddPlaceholders(ClosedIds(policy.regions), evidence, observed, policy);
    adjusted := adjusted + placeholders;
  }

  // The loop body: required wins, a closed market's input becomes optional or a placeholder.
  method AdjustOne(item: Evidence, policy: Policy) returns (adjusted: Evidence)
    ensures adjusted == Adjusted(item, policy)
  {
    if item.inputId in policy.required {
      return item.(required := true);
    }
    var closed := ClosedFor(policy.regions, item.inputId);
    if closed.None? {
      return item;
    }
    if item.Usable() {
      return item.(required := false);
    }
    return Placeholder(item.inputId, closed.value);
  }

  lemma {:induction false} ObservedGrows(evidence: seq<Evidence>, n: nat)
    requires n < |evidence|
    ensures forall id :: Observed(evidence[..n + 1], id) <==> Observed(evidence[..n], id) || id == evidence[n].inputId
  {
    assert evidence[..n + 1] == evidence[..n] + [evidence[n]];
  }

  method AddPlaceholders(ids: seq<string>, evidence: seq<Evidence>, observed: set<string>, policy: Policy)
    returns (added: seq<Evidence>)
    requires forall id :: id in observed <==> Observed(evidence, id)
    ensures added == Placeholders(ids, evidence, policy)
  {
    added := [];
    for n := 0 to |ids|
      invariant added == Placeholders(ids[..n], evidence, policy)
    {
      assert ids[..n + 1][..n] == ids[..n];
      var closed := ClosedFor(policy.regions, ids[n]);
      if ids[n] !in observed && ids[n] !in ids[..n] && closed.Some? {
        added := added + [Placeholder(ids[n], closed.value)];
      }
    }
    assert ids[..|ids|] == ids;
  }

  // ---- The cutoff -----------------------------------------------------------------------------

  function AvailableAt(fact: Dict, instant: string -> Option<int>): Option<int> {
    match AsText(Get(fact, "available_at")) case None => None case Some(text) => instant(text)
  }

  // The status the first offending fact leads to.
  function CutoffStatus(facts: seq<Dict>, cutoff: int, instant: string -> Option<int>): Option<Status> {
    if facts == [] then None
    else if AvailableAt(facts[0], instant).None? then Some(Invalid)
    else if AvailableAt(facts[0], instant).value > cutoff then Some(Late)
    else CutoffStatus(facts[1..], cutoff, instant)
  }

  const NO_TIMESTAMP := "materialized fact is missing a valid available_at audit timestamp"
  const AFTER_CUTOFF := "materialized fact became available after the report cutoff"

  function Safe(e: Evidence, cutoff: int, instant: string -> Option<int>): (r: Evidence)
    ensures r.inputId == e.inputId && r.required == e.required
  {
    if !e.Usable() then e
    else
      match CutoffStatus(e.facts, cutoff, instant)
      case None => e
      case Some(status) =>
        e.(status := status, reason := if status == Late then AFTER_CUTOFF else NO_TIMESTAMP,
           facts := [], sources := [])
  }

  function AllSafe(evidence: seq<Evidence>, cutoff: int, instant: string -> Option<int>): (r: seq<Evidence>)
    ensures |r| == |evidence| && forall i | 0 <= i < |evidence| :: r[i] == Safe(evidence[i], cutoff, instant)
  {
    seq(|evidence|, i requires 0 <= i < |evidence| => Safe(evidence[i], cutoff, instant))
  }

  // ---- The snapshot ---------------------------------------------------------------------------

  function UsableFacts(evidence: seq<Evidence>): seq<Dict> {
    if evidence == [] then []
    else
      var last := evidence[|evidence| - 1];
      UsableFacts(evidence[..|evidence| - 1]) + (if last.Usable() then last.facts else [])
  }

  function UsableSources(evidence: seq<Evidence>): seq<Dict> {
    if evidence == [] then []
    else
      var last := evidence[|evidence| - 1];
      UsableSources(evidence[..|evidence| - 1]) + (if last.Usable() then last.sources else [])
  }

  // A fact ID that is not text is refused right after sorting, wherever it is sorted to.
  function FactKey(fact: Dict): string {
    AsText(Get(fact, "fact_id")).GetOr("")
  }

  function ByFactId(): (Dict, Dict) -> bool {
    (a: Dict, b: Dict) => TextBefore(FactKey(a), FactKey(b))
  }

  function Keys(facts: seq<Dict>): (keys: seq<string>)
    ensures |keys| == |facts| && forall i | 0 <= i < |facts| :: keys[i] == FactKey(facts[i])
  {
    seq(|facts|, i requires 0 <= i < |facts| => FactKey(facts[i]))
  }

  predicate Unique(texts: seq<string>) {
    forall i, j | 0 <= i < j < |texts| :: texts[i] != texts[j]
  }

  function Ids(evidence: seq<Evidence>): (ids: seq<string>)
    ensures |ids| == |evidence| && forall i | 0 <= i < |evidence| :: ids[i] == evidence[i].inputId
  {
    seq(|evidence|, i requires 0 <= i < |evidence| => evidence[i].inputId)
  }

  // source_by_id.setdefault: an ID may come twice only with the same value.
  function SourceById(sources: seq<Dict>): Option<seq<Field>> {
    if sources == [] then Some([])
    else
      var last := sources[|sources| - 1];
      match (SourceById(sources[..|sources| - 1]), AsText(Get(last, "source_ref_id")))
      case (Some(front), Some(id)) =>
        (match Get(front, id)
         case None => Some(front + [Field(id, Obj(last))])
         case Some(existing) => if existing == Obj(last) then Some(front) else None)
      case _ => None
  }

  method CollectSources(sources: seq<Dict>) returns (byId: Option<seq<Field>>)
    ensures byId == SourceById(sources)
  {
    var collected: seq<Field> := [];
    for n := 0 to |sources|
      invariant SourceById(sources[..n]) == Some(collected)
    {
      assert sources[..n + 1][..n] == sources[..n];
      var id := AsText(Get(sources[n], "source_ref_id"));
      if id.None? {
        ConflictStays(sources, n + 1);
        return None;
      }
      var existing := Get(collected, id.value);
      if existing.None? {
        collected := collected + [Field(id.value, Obj(sources[n]))];
      } else if existing.value != Obj(sources[n]) {
        ConflictStays(sources, n + 1);
        return None;
      }
    }
    assert sources[..|sources|] == sources;
    return Some(collected);
  }

  lemma {:induction false} ConflictStays(sources: seq<Dict>, n: nat)
    requires n <= |sources| && SourceById(sources[..n]).None?
    ensures SourceById(sources).None?
  {
    if n == |sources| {
      assert sources[..n] == sources;
    } else {
      assert sources[..|sources| - 1][..n] == sources[..n];
      ConflictStays(sources[..|sources| - 1], n);
    }
  }

  function Values(fields: seq<Field>): (values: seq<Json>)
    ensures |values| == |fields| && forall i | 0 <= i < |fields| :: values[i] == fields[i].value
  {
    seq(|fields|, i requires 0 <= i < |fields| => fields[i].value)
  }

  function Objects(dicts: seq<Dict>): (objects: seq<Json>)
    ensures |objects| == |dicts| && forall i | 0 <= i < |dicts| :: objects[i] == Obj(dicts[i])
  {
    seq(|dicts|, i requires 0 <= i < |dicts| => Obj(dicts[i]))
  }

  function QualityEntry(e: Evidence): Field {
    Field(e.inputId, Obj([Field("status", Str(StatusName(e.status))), Field("required", Bool(e.required)),
                          Field("reason", Str(e.reason))]))
  }

  function QualityEntries(evidence: seq<Evidence>): (entries: seq<Field>)
    ensures |entries| == |evidence| && forall i | 0 <= i < |evidence| :: entries[i] == QualityEntry(evidence[i])
  {
    seq(|evidence|, i requires 0 <= i < |evidence| => QualityEntry(evidence[i]))
  }

  function SortedFacts(safe: seq<Evidence>): seq<Dict> {
    Sort(UsableFacts(safe), ByFactId())
  }

  function SnapshotBody(lib: Lib, date: int, asOf: int, cutoff: int, version: string, safe: seq<Evidence>,
                        sources: seq<Field>, policy: Policy): Snapshot {
    var facts := SortedFacts(safe);
    Snapshot("", version, date, asOf, cutoff, "", Keys(facts),
             Payload(Obj(Sort(QualityEntries(safe), FieldOrder())), ToPayload(policy, lib.iso),
                     Arr(Objects(facts)), Arr(Values(Sort(sources, FieldOrder())))))
  }

  // The fingerprint covers the body, and the snapshot ID the fingerprint.
  function Identified(lib: Lib, body: Snapshot): Snapshot {
    var fingerprint := lib.digest(body);
    body.(fingerprint := fingerprint, id := body.version + ":" + lib.iso(body.reportDate) + ":" + fingerprint)
  }

  // _snapshot_from_evidence; None is a ValueError.
  function FromEvidence(lib: Lib, date: int, asOf: int, cutoff: int, version: string, evidence: seq<Evidence>,
                        policy: Policy): Option<Snapshot> {
    var safe := AllSafe(evidence, cutoff, lib.instant);
    var facts := SortedFacts(safe);
    var sources := SourceById(UsableSources(safe));
    if !Unique(Ids(evidence)) then None
    else if !(forall fact <- facts :: AsText(Get(fact, "fact_id")).Some?) || !Unique(Keys(facts)) then None
    else if sources.None? then None
    else Some(Identified(lib, SnapshotBody(lib, date, asOf, cutoff, version, safe, sources.value, policy)))
  }

  method MakeSnapshot(lib: Lib, date: int, asOf: int, cutoff: int, version: string, evidence: seq<Evidence>,
                      policy: Policy)
    returns (snapshot: Option<Snapshot>)
    ensures snapshot == FromEvidence(lib, date, asOf, cutoff, version, Applied(evidence, policy), policy)
  {
    var applied := ApplyPolicy(evidence, policy);
    if !Unique(Ids(applied)) {
      return None;
    }
    var safe := AllSafe(applied, cutoff, lib.instant);
    var facts := SortedFacts(safe);
    if !(forall fact <- facts :: AsText(Get(fact, "fact_id")).Some?) || !Unique(Keys(facts)) {
      return None;
    }
    var sources := CollectSources(UsableSources(safe));
    if sources.None? {
      return None;
    }
    return Some(Identified(lib, SnapshotBody(lib, date, asOf, cutoff, version, safe, sources.value, policy)));
  }
}
