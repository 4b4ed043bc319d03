/** Which raw day policies the quality gate accepts, said of their fields. */
module PolicyReading {
  import opened DayPolicy
  import opened Json
  import opened Prelude
  import opened QualityGate

  // The entry of a region: its name, its status, its own market input and the matching flag.
  ghost predicate IsEntryOf(item: Json, r: Region, day: MarketDay) {
    && item.Obj?
    && Get(item.fields, "region") == Some(Str(match r case Cn => "CN" case Hk => "HK" case Us => "US"))
    && Get(item.fields, "status") == Some(Str(match day
                                              case ScheduledSession => "scheduled_session"
                                              case WeekendClosed => "weekend_closed"
                                              case ExchangeHoliday => "exchange_holiday"))
    && Get(item.fields, "market_input_id") == Some(Str(MarketInput(r)))
    && Get(item.fields, "market_input_required") == Some(Bool(day == ScheduledSession))
  }

  lemma {:induction false} RegionReadsExactly(item: Json, r: Region, day: MarketDay)
    ensures ReadRegion(item) == Some((r, day)) <==> IsEntryOf(item, r, day)
  {
    if item.Obj? {
      var name, dayName := AsText(Get(item.fields, "region")), AsText(Get(item.fields, "status"));
      if name.Some? && dayName.Some? {
        NamesRead(name.value, r);
        DaysRead(dayName.value, day);
      }
    }
  }

  lemma {:induction false} NamesRead(name: string, r: Region)
    ensures ReadRegionName(name) == Some(r) <==> name == match r case Cn => "CN" case Hk => "HK" case Us => "US"
  {
    assert "CN"[0] != "HK"[0] && "HK"[0] != "US"[0] && "CN"[0] != "US"[0];
  }

  lemma {:induction false} DaysRead(name: string, day: MarketDay)
    ensures ReadMarketDay(name) == Some(day) <==>
              name == match day
                      case ScheduledSession => "scheduled_session"
                      case WeekendClosed => "weekend_closed"
                      case ExchangeHoliday => "exchange_holiday"
  {
    assert "scheduled_session"[0] != "weekend_closed"[0] && "weekend_closed"[0] != "exchange_holiday"[0];
    assert "scheduled_session"[0] != "exchange_holiday"[0];
  }

  // Each entry has its own region, and together they list the days.
  ghost predicate OrdersDays(order: seq<Region>, days: map<Region, MarketDay>) {
    && (forall i, j | 0 <= i < j < |order| :: order[i] != order[j])
    && (forall r :: r in days <==> r in order)
  }

  // What reading one entry gave.
  type Reading = Option<(Region, MarketDay)>

  function Readings(items: seq<Json>): (readings: seq<Reading>)
    ensures |readings| == |items| && forall i | 0 <= i < |items| :: readings[i] == ReadRegion(items[i])
  {
    seq(|items|, i requires 0 <= i < |items| => ReadRegion(items[i]))
  }

  function DaysOf(readings: seq<Reading>): Option<map<Region, MarketDay>> {
    if readings == [] then Some(map[])
    else
      match (DaysOf(readings[..|readings| - 1]), readings[|readings| - 1])
      case (Some(seen), Some((region, day))) => if region in seen then None else Some(seen[region := day])
      case _ => None
  }

  lemma {:induction false} DaysOfReadings(items: seq<Json>)
    ensures ReadRegions(items) == DaysOf(Readings(items))
  {
    if items != [] {
      DaysOfReadings(items[..|items| - 1]);
      assert Readings(items)[..|items| - 1] == Readings(items[..|items| - 1]);
    }
  }

  ghost predicate ListsDays(readings: seq<Reading>, order: seq<Region>, days: map<Region, MarketDay>) {
    && OrdersDays(order, days) && |order| == |readings|
    && (forall i | 0 <= i < |readings| :: order[i] in days && readings[i] == Some((order[i], days[order[i]])))
  }

  lemma {:induction false} DaysAreListed(readings: seq<Reading>) returns (order: seq<Region>)
    requires DaysOf(readings).Some?
    ensures ListsDays(readings, order, DaysOf(readings).value)
  {
    order := [];
    if readings != [] {
      var before := DaysAreListed(readings[..|readings| - 1]);
      order := before + [readings[|readings| - 1].value.0];
    }
  }

  lemma {:induction false} ListedDaysAreRead(readings: seq<Reading>, order: seq<Region>, days: map<Region, MarketDay>)
    requires ListsDays(readings, order, days)
    ensures DaysOf(readings) == Some(days)
  {
    if readings == [] {
      assert forall r :: r !in days;
      assert days == map[];
    } else {
      var n := |readings| - 1;
      var fewer := days - {order[n]};
      forall r ensures r in fewer <==> r in order[..n] {
        if r in order && r != order[n] {
          var i :| 0 <= i < |order| && order[i] == r;
          assert order[..n][i] == r;
        }
      }
      ListedDaysAreRead(readings[..n], order[..n], fewer);
      assert fewer[order[n] := days[order[n]]] == days;
    }
  }

  // The texts of a list that holds nothing else.
  ghost predicate ListsTexts(value: Option<Json>, texts: set<string>) {
    && value.Some? && value.value.Arr?
    && (forall item <- value.value.items :: item.Str? && item.text in texts)
    && (forall text <- texts :: Str(text) in value.value.items)
  }

  lemma {:induction false} TextsAreRead(items: seq<Json>, texts: set<string>)
    ensures (ReadTexts(items).Some? && SetOf(ReadTexts(items).value) == texts) <==> ListsTexts(Some(Arr(items)), texts)
    ensures ReadTexts(items).Some? ==>
              forall item :: item in items <==> item.Str? && item.text in ReadTexts(items).value
    ensures ReadTexts(items).None? ==> exists item <- items :: !item.Str?
  {
    if items != [] {
      var front, last := items[..|items| - 1], items[|items| - 1];
      TextsAreRead(front, texts);
      assert items == front + [last];
    }
    if ReadTexts(items).Some? {
      var read := ReadTexts(items).value;
      assert forall item :: item in items <==> item.Str? && item.text in read;
      assert forall text :: text in SetOf(read) <==> text in read;
      if ListsTexts(Some(Arr(items)), texts) {
        assert forall text :: text in SetOf(read) <==> text in texts by {
          forall text ensures text in SetOf(read) <==> text in texts {
            if text in read {
              assert Str(text) in items;
            }
            if text in texts {
              assert Str(text) in items;
            }
          }
        }
      }
    }
  }

  // The day type that belongs to a date and the statuses of its markets.
  ghost predicate IsDayTypeOf(name: Option<Json>, date: int, days: map<Region, MarketDay>) {
    if date % 7 == 6 || date % 7 == 0 then
      name == Some(Str("weekend")) && forall r <- days.Keys :: days[r] == WeekendClosed
    else
      && (forall r <- days.Keys :: days[r] != WeekendClosed)
      && name == Some(Str(if exists r <- days.Keys :: days[r] == ExchangeHoliday then "regional_holiday"
                          else "regular"))
  }

  lemma {:induction false} DayTypeRead(name: string, day: DayType)
    ensures ReadDayType(name) == Some(day) <==>
              name == match day
                      case Regular => "regular"
                      case Weekend => "weekend"
                      case RegionalHoliday => "regional_holiday"
  {
    assert "regular"[0] != "weekend"[0] && |"regular"| != |"regional_holiday"| && "weekend"[0] != "regional_holiday"[0];
  }

  lemma {:induction false} DayTypeIsRead(name: Option<Json>, date: int, days: map<Region, MarketDay>)
    requires days.Keys == {Cn, Hk, Us}
    ensures IsDayTypeOf(name, date, days) <==>
              && AsText(name).Some? && ReadDayType(AsText(name).value).Some?
              && DayTypeFits(ReadDayType(AsText(name).value).value, date, days.Values)
  {
    WeekendByWeekday(date);
    assert Cn in days && Hk in days && Us in days;
    assert days.Values == {days[Cn], days[Hk], days[Us]};
    if AsText(name).Some? {
      DayTypeRead(AsText(name).value, Regular);
      DayTypeRead(AsText(name).value, Weekend);
      DayTypeRead(AsText(name).value, RegionalHoliday);
    }
  }

  lemma {:induction false} WeekendByWeekday(date: int)
    ensures IsWeekend(date) <==> date % 7 == 6 || date % 7 == 0
  {}

  // What an acceptable policy says: of this date and kind, with a calendar version, the day of
  // each market once, the day type they make, the closed markets' inputs as optional and all
  // other inputs as required.
  ghost predicate IsPolicyOf(policy: seq<Field>, date: int, iso: int -> string, order: seq<Region>,
                             days: map<Region, MarketDay>) {
    && Get(policy, "report_date") == Some(Str(iso(date)))
    && Get(policy, "policy_id") == Some(Str("cn_hk_us_report_day_v1"))
    && (exists version :: version != "" && Get(policy, "calendar_version") == Some(Str(version)))
    && Get(policy, "regions").Some? && Get(policy, "regions").value.Arr?
    && OrdersDays(order, days) && days.Keys == {Cn, Hk, Us}
    && |order| == |Get(policy, "regions").value.items|
    && (forall i | 0 <= i < |order| ::
          order[i] in days && IsEntryOf(Get(policy, "regions").value.items[i], order[i], days[order[i]]))
    && IsDayTypeOf(Get(policy, "day_type"), date, days)
    && ListsTexts(Get(policy, "optional_input_ids"), ClosedOf(days))
    && ListsTexts(Get(policy, "required_input_ids"), SetOf(ALL_INPUTS) - ClosedOf(days))
  }

  ghost function ClosedOf(days: map<Region, MarketDay>): set<string> {
    (if Cn in days && days[Cn] != ScheduledSession then {MarketInput(Cn)} else {})
    + (if Hk in days && days[Hk] != ScheduledSession then {MarketInput(Hk)} else {})
    + (if Us in days && days[Us] != ScheduledSession then {MarketInput(Us)} else {})
  }

  lemma {:induction false} ClosedAre(days: map<Region, MarketDay>)
    requires days.Keys == {Cn, Hk, Us}
    ensures ClosedInputs(days) == ClosedOf(days) && ClosedOf(days) <= SetOf(ALL_INPUTS)
    ensures SetOf(ALWAYS_REQUIRED) <= SetOf(ALL_INPUTS) - ClosedOf(days)
  {
    assert Cn in days && Hk in days && Us in days;
    InputsDiffer();
    EveryInput(MarketInput(Cn));
    EveryInput(MarketInput(Hk));
    EveryInput(MarketInput(Us));
    forall id | id in ALWAYS_REQUIRED ensures id in ALL_INPUTS {
      EveryInput(id);
    }
  }

  // The gate accepts a policy exactly when it is an acceptable policy of the snapshot's date, and
  // then splits the inputs as its regions say; without a policy every input is required.
  lemma {:induction false} AcceptedExactlyWhen(snapshot: Snapshot, policy: seq<Field>, iso: int -> string)
    requires snapshot.payload.policy == Obj(policy)
    ensures InputsFor(snapshot, iso).valid <==>
              exists order, days :: IsPolicyOf(policy, snapshot.reportDate, iso, order, days)
  {
    var date := snapshot.reportDate;
    if InputsFor(snapshot, iso).valid {
      var items := Get(policy, "regions").value.items;
      var days := ReadRegions(items).value;
      DaysOfReadings(items);
      var order := DaysAreListed(Readings(items));
      AcceptedIsPolicy(snapshot, policy, iso, order, days);
    }
    if order, days :| IsPolicyOf(policy, date, iso, order, days) {
      PolicyIsAccepted(snapshot, policy, iso, order, days);
    }
  }

  lemma {:induction false} EntriesRead(items: seq<Json>, order: seq<Region>, days: map<Region, MarketDay>)
    requires OrdersDays(order, days) && |order| == |items|
    ensures ListsDays(Readings(items), order, days) <==>
              forall i | 0 <= i < |items| :: order[i] in days && IsEntryOf(items[i], order[i], days[order[i]])
  {
    forall i | 0 <= i < |items| && order[i] in days
      ensures Readings(items)[i] == Some((order[i], days[order[i]])) <==>
                IsEntryOf(items[i], order[i], days[order[i]])
    {
      RegionReadsExactly(items[i], order[i], days[order[i]]);
    }
  }

  lemma {:induction false} ListsRead(policy: seq<Field>, key: string, texts: set<string>)
    ensures ListsTexts(Get(policy, key), texts) <==>
              ReadStrings(Get(policy, key)).Some? && SetOf(ReadStrings(Get(policy, key)).value) == texts
  {
    if Get(policy, key).Some? && Get(policy, key).value.Arr? {
      TextsAreRead(Get(policy, key).value.items, texts);
    }
  }

  lemma {:induction false} SplitIsTheClosedOnes(
      required: set<string>, optional: set<string>, days: map<Region, MarketDay>)
    requires days.Keys == {Cn, Hk, Us} && ClosedInputs(days) == optional
    ensures (&& required * optional == {} && required + optional == SetOf(ALL_INPUTS)
             && SetOf(ALWAYS_REQUIRED) <= required)
       <==> required == SetOf(ALL_INPUTS) - ClosedOf(days)
  {
    ClosedAre(days);
  }

  lemma {:induction false} AcceptedIsPolicy(
      snapshot: Snapshot, policy: seq<Field>, iso: int -> string, order: seq<Region>, days: map<Region, MarketDay>)
    requires snapshot.payload.policy == Obj(policy) && InputsFor(snapshot, iso).valid
    requires Get(policy, "regions").Some? && Get(policy, "regions").value.Arr?
    requires ListsDays(Readings(Get(policy, "regions").value.items), order, days)
    requires ReadRegions(Get(policy, "regions").value.items) == Some(days)
    ensures IsPolicyOf(policy, snapshot.reportDate, iso, order, days)
  {
    var required := SetOf(ReadStrings(Get(policy, "required_input_ids")).value);
    var optional := SetOf(ReadStrings(Get(policy, "optional_input_ids")).value);
    EntriesRead(Get(policy, "regions").value.items, order, days);
    ClosedAre(days);
    SplitIsTheClosedOnes(required, optional, days);
    ListsRead(policy, "required_input_ids", required);
    ListsRead(policy, "optional_input_ids", optional);
    DayTypeIsRead(Get(policy, "day_type"), snapshot.reportDate, days);
  }

  lemma {:induction false} PolicyIsAccepted(
      snapshot: Snapshot, policy: seq<Field>, iso: int -> string, order: seq<Region>, days: map<Region, MarketDay>)
    requires snapshot.payload.policy == Obj(policy)
    requires IsPolicyOf(policy, snapshot.reportDate, iso, order, days)
    ensures InputsFor(snapshot, iso) == RequiredInputs(SetOf(ALL_INPUTS) - ClosedOf(days), ClosedOf(days), true)
  {
    NamesItsDay(policy, snapshot.reportDate, iso, order, days);
    PolicySplits(policy, snapshot.reportDate, iso, order, days);
    var required, optional := ListsAreTheSplit(policy, snapshot.reportDate, iso, order, days);
    SplitIsAccepted(snapshot, policy, iso, required, optional);
  }

  lemma {:induction false} ListsAreTheSplit(
      policy: seq<Field>, date: int, iso: int -> string, order: seq<Region>, days: map<Region, MarketDay>)
    returns (required: seq<string>, optional: seq<string>)
    requires IsPolicyOf(policy, date, iso, order, days)
    ensures ReadStrings(Get(policy, "required_input_ids")) == Some(required)
    ensures ReadStrings(Get(policy, "optional_input_ids")) == Some(optional)
    ensures SetOf(required) == SetOf(ALL_INPUTS) - ClosedOf(days) && SetOf(optional) == ClosedOf(days)
  {
    ListsRead(policy, "required_input_ids", SetOf(ALL_INPUTS) - ClosedOf(days));
    ListsRead(policy, "optional_input_ids", ClosedOf(days));
    required := ReadStrings(Get(policy, "required_input_ids")).value;
    optional := ReadStrings(Get(policy, "optional_input_ids")).value;
  }

  lemma {:induction false} SplitIsAccepted(
      snapshot: Snapshot, policy: seq<Field>, iso: int -> string, required: seq<string>, optional: seq<string>)
    requires snapshot.payload.policy == Obj(policy) && PolicyNamesItsDay(policy, iso(snapshot.reportDate))
    requires ReadStrings(Get(policy, "required_input_ids")) == Some(required)
    requires ReadStrings(Get(policy, "optional_input_ids")) == Some(optional)
    requires SplitsInputs(policy, snapshot.reportDate, SetOf(required), SetOf(optional))
    ensures InputsFor(snapshot, iso) == RequiredInputs(SetOf(required), SetOf(optional), true)
  {}

  lemma {:induction false} NamesItsDay(
      policy: seq<Field>, date: int, iso: int -> string, order: seq<Region>, days: map<Region, MarketDay>)
    requires IsPolicyOf(policy, date, iso, order, days)
    ensures PolicyNamesItsDay(policy, iso(date))
  {}

  lemma {:induction false} PolicySplits(
      policy: seq<Field>, date: int, iso: int -> string, order: seq<Region>, days: map<Region, MarketDay>)
    requires IsPolicyOf(policy, date, iso, order, days)
    ensures SplitsInputs(policy, date, SetOf(ALL_INPUTS) - ClosedOf(days), ClosedOf(days))
  {
    PolicyRegionsMatch(policy, date, iso, order, days);
    ClosedAre(days);
  }

  lemma {:induction false} PolicyRegionsMatch(
      policy: seq<Field>, date: int, iso: int -> string, order: seq<Region>, days: map<Region, MarketDay>)
    requires IsPolicyOf(policy, date, iso, order, days)
    ensures RegionsMatch(policy, date, ClosedOf(days))
  {
    var items := Get(policy, "regions").value.items;
    EntriesRead(items, order, days);
    ListedDaysAreRead(Readings(items), order, days);
    DaysOfReadings(items);
    ClosedAre(days);
    DayTypeIsRead(Get(policy, "day_type"), date, days);
  }
}
