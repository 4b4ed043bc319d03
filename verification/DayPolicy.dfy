/** Which market inputs a report date requires, decided from exchange calendars. */
module DayPolicy {
  import opened Json
  import opened Prelude
  import opened Sorting

  datatype Region = Cn | Hk | Us

  const REGIONS := [Cn, Hk, Us]

  function RegionName(region: Region): (name: string)
    ensures ReadRegionName(name) == Some(region)
  {
    match region case Cn => "CN" case Hk => "HK" case Us => "US"
  }

  function ReadRegionName(name: string): Option<Region> {
    if name == "CN" then Some(Cn) else if name == "HK" then Some(Hk) else if name == "US" then Some(Us) else None
  }

  const RELEASES := "calendar.macro_releases_7d"
  const CN_NEWS := "news.cn.official_headlines_24h"
  const HK_NEWS := "news.hk.official_headlines_24h"

  function MarketInput(region: Region): string {
    match region
    case Cn => "market.cn.core_indices.previous_close"
    case Hk => "market.hk.core_indices.previous_close"
    case Us => "market.us.core_indices.previous_close"
  }

  const ALWAYS_REQUIRED := [RELEASES, CN_NEWS, HK_NEWS]

  // Every report input, in sorted order.
  const ALL_INPUTS := [RELEASES, MarketInput(Cn), MarketInput(Hk), MarketInput(Us), CN_NEWS, HK_NEWS]

  lemma {:induction false} InputsDiffer()
    ensures forall a, b :: MarketInput(a) == MarketInput(b) ==> a == b
    ensures forall a :: MarketInput(a) !in ALWAYS_REQUIRED
    ensures forall i, j | 0 <= i < j < 6 :: ALL_INPUTS[i] != ALL_INPUTS[j]
  {
    assert MarketInput(Cn)[7] == 'c' && MarketInput(Hk)[7] == 'h' && MarketInput(Us)[7] == 'u';
    assert CN_NEWS[5] == 'c' && HK_NEWS[5] == 'h';
    assert CN_NEWS[0] == 'n' && HK_NEWS[0] == 'n' && RELEASES[0] == 'c';
    assert forall a :: MarketInput(a)[0] == 'm';
  }

  datatype MarketDay = ScheduledSession | WeekendClosed | ExchangeHoliday

  function MarketDayName(day: MarketDay): (name: string)
    ensures ReadMarketDay(name) == Some(day)
  {
    match day
    case ScheduledSession => "scheduled_session"
    case WeekendClosed => "weekend_closed"
    case ExchangeHoliday => "exchange_holiday"
  }

  function ReadMarketDay(name: string): Option<MarketDay> {
    if name == "scheduled_session" then Some(ScheduledSession)
    else if name == "weekend_closed" then Some(WeekendClosed)
    else if name == "exchange_holiday" then Some(ExchangeHoliday)
    else None
  }

  datatype DayType = Regular | Weekend | RegionalHoliday

  function DayTypeName(day: DayType): (name: string)
    ensures ReadDayType(name) == Some(day)
  {
    match day case Regular => "regular" case Weekend => "weekend" case RegionalHoliday => "regional_holiday"
  }

  function ReadDayType(name: string): Option<DayType> {
    if name == "regular" then Some(Regular)
    else if name == "weekend" then Some(Weekend)
    else if name == "regional_holiday" then Some(RegionalHoliday)
    else None
  }

  const POLICY_ID := "cn_hk_us_report_day_v1"

  // A date is its proleptic Gregorian ordinal; Monday is 0.
  function Weekday(date: int): int { (date + 6) % 7 }

  predicate IsWeekend(date: int) { Weekday(date) >= 5 }

  // What a calendar says about a date: a session or not, and the session before it. None when
  // it cannot resolve the date.
  datatype Session = Session(open: bool, previous: int)

  type Calendar = (Region, int) -> Option<Session>

  datatype RegionPolicy = RegionPolicy(region: Region, status: MarketDay, previousSession: int) {
    function Input(): string { MarketInput(region) }
    predicate Required() { status == ScheduledSession }
  }

  datatype Policy = Policy(
    calendarVersion: string, reportDate: int, dayType: DayType, required: seq<string>, optional: seq<string>,
    regions: seq<RegionPolicy>)

  function RegionPolicyOn(calendar: Calendar, region: Region, date: int): Option<RegionPolicy> {
    match calendar(region, date)
    case None => None
    case Some(session) =>
      var status := if IsWeekend(date) then WeekendClosed
                    else if !session.open then ExchangeHoliday else ScheduledSession;
      Some(RegionPolicy(region, status, session.previous))
  }

  function Inputs(regions: seq<RegionPolicy>, required: bool): seq<string> {
    if regions == [] then []
    else (if regions[0].Required() == required then [regions[0].Input()] else []) + Inputs(regions[1..], required)
  }

  function Evaluate(calendar: Calendar, version: string, date: int): Option<Policy> {
    match (RegionPolicyOn(calendar, Cn, date), RegionPolicyOn(calendar, Hk, date), RegionPolicyOn(calendar, Us, date))
    case (Some(cn), Some(hk), Some(us)) =>
      var regions := [cn, hk, us];
      var optional := Inputs(regions, false);
      Some(Policy(version, date,
                  if IsWeekend(date) then Weekend else if optional != [] then RegionalHoliday else Regular,
                  Sort(ALWAYS_REQUIRED + Inputs(regions, true), TextBefore),
                  Sort(optional, TextBefore), regions))
    case _ => None
  }

  // ---- The payload ----------------------------------------------------------------------------

  function Strings(texts: seq<string>): (r: seq<Json>)
    ensures |r| == |texts| && forall i | 0 <= i < |texts| :: r[i] == Str(texts[i])
  {
    seq(|texts|, i requires 0 <= i < |texts| => Str(texts[i]))
  }

  function RegionJson(r: RegionPolicy, iso: int -> string): Json {
    Obj([Field("region", Str(RegionName(r.region))), Field("status", Str(MarketDayName(r.status))),
         Field("market_input_id", Str(r.Input())), Field("market_input_required", Bool(r.Required())),
         Field("previous_session", Str(iso(r.previousSession)))])
  }

  function RegionsJson(regions: seq<RegionPolicy>, iso: int -> string): (r: seq<Json>)
    ensures |r| == |regions| && forall i | 0 <= i < |regions| :: r[i] == RegionJson(regions[i], iso)
  {
    seq(|regions|, i requires 0 <= i < |regions| => RegionJson(regions[i], iso))
  }

  function ToPayload(p: Policy, iso: int -> string): Json {
    Obj([Field("policy_id", Str(POLICY_ID)), Field("calendar_version", Str(p.calendarVersion)),
         Field("report_date", Str(iso(p.reportDate))), Field("day_type", Str(DayTypeName(p.dayType))),
         Field("required_input_ids", Arr(Strings(p.required))), Field("optional_input_ids", Arr(Strings(p.optional))),
         Field("regions", Arr(RegionsJson(p.regions, iso)))])
  }

  // ---- What the policy requires ---------------------------------------------------------------

  function SetOf(texts: seq<string>): set<string> {
    set t <- texts
  }

  predicate HasSession(calendar: Calendar, region: Region, date: int) {
    !IsWeekend(date) && calendar(region, date).Some? && calendar(region, date).value.open
  }

  lemma {:induction false} ThreeRegions(regions: seq<RegionPolicy>, required: bool, t: string)
    requires |regions| == 3
    ensures t in Inputs(regions, required) <==>
              || (regions[0].Required() == required && t == regions[0].Input())
              || (regions[1].Required() == required && t == regions[1].Input())
              || (regions[2].Required() == required && t == regions[2].Input())
  {
    assert regions[1..][1..] == [regions[2]] && regions[1..][1..][1..] == [];
    assert Inputs(regions[1..][1..], required)
        == if regions[2].Required() == required then [regions[2].Input()] else [];
  }

  lemma {:induction false} ListsOf(calendar: Calendar, version: string, date: int, t: string)
    requires Evaluate(calendar, version, date).Some?
    ensures var p := Evaluate(calendar, version, date).value;
            && |p.regions| == 3
            && (t in p.required <==> t in ALWAYS_REQUIRED || t in Inputs(p.regions, true))
            && (t in p.optional <==> t in Inputs(p.regions, false))
  {
    var p := Evaluate(calendar, version, date).value;
    SortPermutes(ALWAYS_REQUIRED + Inputs(p.regions, true), TextBefore);
    SortPermutes(Inputs(p.regions, false), TextBefore);
  }

  lemma {:induction false} RegionsOf(calendar: Calendar, version: string, date: int)
    requires Evaluate(calendar, version, date).Some?
    ensures var p := Evaluate(calendar, version, date).value;
            && |p.regions| == 3
            && forall i | 0 <= i < 3 ::
                 p.regions[i].region == REGIONS[i] && p.regions[i].Required() == HasSession(calendar, REGIONS[i], date)
  {}

  // There is a policy exactly if the calendar resolves the date for all three regions. It carries what
  // the calendar says, and a weekend closes every market whatever that is.
  lemma {:induction false} PolicyIsOfTheDate(calendar: Calendar, version: string, date: int)
    ensures Evaluate(calendar, version, date).Some?
       <==> calendar(Cn, date).Some? && calendar(Hk, date).Some? && calendar(Us, date).Some?
    ensures Evaluate(calendar, version, date).Some? ==>
              var p := Evaluate(calendar, version, date).value;
              && p.calendarVersion == version && p.reportDate == date && |p.regions| == 3
              && (forall i | 0 <= i < 3 ::
                    && p.regions[i].region == [Cn, Hk, Us][i]
                    && p.regions[i].previousSession == calendar([Cn, Hk, Us][i], date).value.previous
                    && p.regions[i].status
                       == (if date % 7 == 6 || date % 7 == 0 then WeekendClosed
                           else if calendar([Cn, Hk, Us][i], date).value.open then ScheduledSession
                           else ExchangeHoliday))
  {}

  // The day is a weekend, a holiday of some market, or regular.
  lemma {:induction false} DayTypeIsOfTheDate(calendar: Calendar, version: string, date: int)
    requires calendar(Cn, date).Some? && calendar(Hk, date).Some? && calendar(Us, date).Some?
    requires Evaluate(calendar, version, date).Some?
    ensures var p := Evaluate(calendar, version, date).value;
            && (p.dayType == Weekend <==> date % 7 == 6 || date % 7 == 0)
            && (p.dayType == Regular
                <==> && p.dayType != Weekend && calendar(Cn, date).value.open && calendar(Hk, date).value.open
                     && calendar(Us, date).value.open)
            && (forall i, j | 0 <= i < j < |p.required| :: !TextBefore(p.required[j], p.required[i]))
            && (forall i, j | 0 <= i < j < |p.optional| :: !TextBefore(p.optional[j], p.optional[i]))
  {
    PolicyIsOfTheDate(calendar, version, date);
    var p := Evaluate(calendar, version, date).value;
    var regions := p.regions;
    forall t ensures t in Inputs(regions, false) ==> exists i :: 0 <= i < 3 && !regions[i].Required()
    {
      ThreeRegions(regions, false, t);
    }
    forall i | 0 <= i < 3 && !regions[i].Required() ensures regions[i].Input() in Inputs(regions, false) {
      ThreeRegions(regions, false, regions[i].Input());
    }
    assert Inputs(regions, false) != [] ==> Inputs(regions, false)[0] in Inputs(regions, false);
    RegionsOf(calendar, version, date);
    assert regions[0].Required() == HasSession(calendar, Cn, date);
    assert regions[1].Required() == HasSession(calendar, Hk, date);
    assert regions[2].Required() == HasSession(calendar, Us, date);
    assert p.dayType == Regular <==> !IsWeekend(date) && Inputs(regions, false) == [];
    TextIsAnOrder();
    SortOrders(ALWAYS_REQUIRED + Inputs(regions, true), TextBefore);
    SortOrders(Inputs(regions, false), TextBefore);
  }

  lemma {:induction false} TextIsAnOrder()
    ensures IsOrder(TextBefore)
  {
    forall a: string, b: string | TextBefore(a, b) ensures !TextBefore(b, a) {
      TextIsTotal(a, b);
    }
    forall a: string, b: string, c: string | TextBefore(a, c) ensures TextBefore(a, b) || TextBefore(b, c) {
      TextIsTotal(a, b);
      if TextBefore(b, a) {
        TextIsTransitive(b, a, c);
      }
    }
  }

  ghost predicate IsMarket(t: string, open: bool, calendar: Calendar, date: int) {
    || (t == MarketInput(Cn) && HasSession(calendar, Cn, date) == open)
    || (t == MarketInput(Hk) && HasSession(calendar, Hk, date) == open)
    || (t == MarketInput(Us) && HasSession(calendar, Us, date) == open)
  }

  // Exactly the markets without a session are optional; the always-required inputs and the
  // other markets are required.
  lemma {:induction false} WhatAPolicyRequires(calendar: Calendar, version: string, date: int, t: string)
    requires Evaluate(calendar, version, date).Some?
    ensures var p := Evaluate(calendar, version, date).value;
            && (t in p.required <==> t in ALWAYS_REQUIRED || IsMarket(t, true, calendar, date))
            && (t in p.optional <==> IsMarket(t, false, calendar, date))
  {
    var regions := Evaluate(calendar, version, date).value.regions;
    ListsOf(calendar, version, date, t);
    RegionsOf(calendar, version, date);
    ThreeRegions(regions, true, t);
    ThreeRegions(regions, false, t);
    assert regions[0].region == Cn && regions[1].region == Hk && regions[2].region == Us;
  }

  lemma {:induction false} EveryInput(t: string)
    ensures t in ALL_INPUTS <==> t in ALWAYS_REQUIRED || exists r :: t == MarketInput(r)
  {
    assert ALL_INPUTS == [RELEASES, MarketInput(Cn), MarketInput(Hk), MarketInput(Us), CN_NEWS, HK_NEWS];
  }

  // The two lists split the fixed inputs.
  lemma {:induction false} PolicySplitsTheInputs(calendar: Calendar, version: string, date: int)
    requires Evaluate(calendar, version, date).Some?
    ensures var p := Evaluate(calendar, version, date).value;
            && SetOf(p.required) + SetOf(p.optional) == SetOf(ALL_INPUTS)
            && SetOf(p.required) !! SetOf(p.optional)
            && SetOf(ALWAYS_REQUIRED) <= SetOf(p.required)
  {
    var p := Evaluate(calendar, version, date).value;
    InputsDiffer();
    forall t ensures t in SetOf(p.required) + SetOf(p.optional) <==> t in SetOf(ALL_INPUTS)
             ensures !(t in SetOf(p.required) && t in SetOf(p.optional))
             ensures t in SetOf(ALWAYS_REQUIRED) ==> t in SetOf(p.required)
    {
      WhatAPolicyRequires(calendar, version, date, t);
      EveryInput(t);
      assert t in p.required && t in p.optional ==>
        exists r :: t == MarketInput(r) && HasSession(calendar, r, date) && !HasSession(calendar, r, date);
    }
  }
}
