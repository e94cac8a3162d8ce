/**
 * The newer pricing variant, `contact_energy/pricing.py`: five plans, the day
 * count taken from the earliest and latest reading, plans whose rates are NaN
 * left out of the result, and a price table whose NaN entries are dropped on
 * save.
 */
module Pricing {
  import opened Wrappers
  import opened Calendar
  import opened Tariff
  import opened LocalDb

  /** The plans this variant prices, in the order it fills its dictionaries. */
  const Plans: seq<Plan> := [Weekend, Night, Broadband, Charge, Basic]

  /** A rate dictionary as the caller passes it: `None` is NaN. */
  type UnitPrice = map<string, Option<real>>

  /** Every rate the five formulas read. */
  const UsedRates: set<RateName> :=
    RateKeys(Weekend) + RateKeys(Night) + RateKeys(Broadband) + RateKeys(Charge) + RateKeys(Basic)

  /** The dictionary has a key for every rate the five formulas read; a missing one is a KeyError. */
  predicate HasAllKeys(unitPrice: UnitPrice) {
    forall n :: n in UsedRates ==> Key(n) in unitPrice
  }

  /** A rate table read through the tariff's names, `None` standing for NaN. */
  type NaNRates = map<RateName, Option<real>>

  /** The dictionary's entries under the fifteen rate names; other keys are never read. */
  function ReadRates(unitPrice: UnitPrice): (u: NaNRates)
    ensures forall n :: n in u <==> Key(n) in unitPrice
    ensures forall n :: n in u ==> u[n] == unitPrice[Key(n)]
  {
    AllRatesAreNames();
    map n | n in AllRates && Key(n) in unitPrice :: unitPrice[Key(n)]
  }

  lemma AllRatesAreNames()
    ensures forall n: RateName :: n in AllRates
  {
    forall n: RateName
      ensures n in AllRates
    {
      match n
      case WeekendPrice =>
      case WeekendFixed =>
      case NightPrice =>
      case NightFixed =>
      case BroadbandPrice =>
      case BroadbandFixed =>
      case BroadbandLevy =>
      case ChargeDayPrice =>
      case ChargeNightPrice =>
      case ChargeFixed =>
      case BasicLevy =>
      case BasicFixed =>
      case BasicPrice =>
      case BachPrice =>
      case BachLevy =>
    }
  }

  // ---------------------------------------------------------------------------
  // NaN arithmetic
  // ---------------------------------------------------------------------------

  function NaNAdd(a: Option<real>, b: Option<real>): Option<real> {
    if a.Some? && b.Some? then Some(a.value + b.value) else None
  }

  function NaNSub(a: Option<real>, b: Option<real>): Option<real> {
    if a.Some? && b.Some? then Some(a.value - b.value) else None
  }

  function NaNMul(a: Option<real>, b: Option<real>): Option<real> {
    if a.Some? && b.Some? then Some(a.value * b.value) else None
  }

  /** Every rate plan `p` reads is present and a number. */
  predicate AllSet(p: Plan, u: NaNRates) {
    forall n :: n in RateKeys(p) ==> n in u && u[n].Some?
  }

  /** The rates that are numbers. */
  function SetRates(u: NaNRates): (rate: Rates)
    ensures forall n :: n in rate <==> n in u && u[n].Some?
    ensures forall n :: n in rate ==> u[n] == Some(rate[n])
  {
    map n | n in u && u[n].Some? :: u[n].value
  }

  /** The plans that end up in the result. */
  function PricedPlans(unitPrice: UnitPrice): set<Plan> {
    PlansWithRates(ReadRates(unitPrice))
  }

  /** The plans among the five whose rates are all set. */
  function PlansWithRates(u: NaNRates): set<Plan> {
    set p | p in Plans && AllSet(p, u)
  }

  /** A plan's pre-GST cost as contact_energy/pricing.py computes it on floats, NaN standing for an unset rate. */
  function PlanPreTax(p: Plan, usage: seq<Reading>, totalDays: int, u: NaNRates): Option<real>
    requires RateKeys(p) <= u.Keys
  {
    var days := Some(totalDays as real);
    match p
    case Weekend =>
      NaNAdd(NaNMul(Some(Sum(usage, NotWeekendFree)), u[WeekendPrice]), NaNMul(days, u[WeekendFixed]))
    case Night =>
      NaNAdd(NaNMul(Some(Sum(usage, NotNightFree)), u[NightPrice]), NaNMul(days, u[NightFixed]))
    case Broadband =>
      NaNAdd(NaNMul(Some(Sum(usage, AllHours)), NaNAdd(u[BroadbandPrice], u[BroadbandLevy])),
             NaNMul(days, u[BroadbandFixed]))
    case Charge =>
      NaNAdd(NaNAdd(NaNMul(Some(Sum(usage, AllHours)), u[ChargeNightPrice]),
                    NaNMul(Some(Sum(usage, ChargeDayHours)), NaNSub(u[ChargeDayPrice], u[ChargeNightPrice]))),
             NaNMul(days, u[ChargeFixed]))
    case Basic =>
      NaNAdd(NaNMul(Some(Sum(usage, AllHours)), NaNAdd(u[BasicPrice], u[BasicLevy])),
             NaNMul(days, u[BasicFixed]))
    case Bach =>
      NaNMul(Some(Sum(usage, AllHours)), NaNAdd(u[BachPrice], u[BachLevy]))
  }

  /**
   * A plan's cost is NaN exactly when one of its rates is, and otherwise it is
   * the tariff formula on the numeric rates.
   */
  lemma PlanPreTaxNaN(p: Plan, usage: seq<Reading>, totalDays: int, u: NaNRates)
    requires RateKeys(p) <= u.Keys
    ensures PlanPreTax(p, usage, totalDays, u).Some? <==> AllSet(p, u)
    ensures AllSet(p, u) ==>
              HasRates(p, SetRates(u)) && PlanPreTax(p, usage, totalDays, u).value == PreTax(p, usage, totalDays, SetRates(u))
  {
    PlanPreTaxDefined(p, usage, totalDays, u);
    if AllSet(p, u) {
      PlanPreTaxValue(p, usage, totalDays, u);
    }
  }

  lemma PlanPreTaxDefined(p: Plan, usage: seq<Reading>, totalDays: int, u: NaNRates)
    requires RateKeys(p) <= u.Keys
    ensures PlanPreTax(p, usage, totalDays, u).Some? <==> AllSet(p, u)
  {
  }

  lemma PlanPreTaxValue(p: Plan, usage: seq<Reading>, totalDays: int, u: NaNRates)
    requires AllSet(p, u)
    ensures HasRates(p, SetRates(u))
    ensures PlanPreTax(p, usage, totalDays, u).value == PreTax(p, usage, totalDays, SetRates(u))
  {
    var rate := SetRates(u);
    assert forall n :: n in RateKeys(p) ==> n in rate && u[n] == Some(rate[n]);
    match p
    case Weekend =>
    case Night =>
    case Broadband =>
    case Charge =>
    case Basic =>
    case Bach =>
  }

  // ---------------------------------------------------------------------------
  // The day count
  // ---------------------------------------------------------------------------

  /** The day number of a reading's date. */
  function DayOf(r: Reading): int {
    DayNumber(r.DateOf())
  }

  /** The earliest reading date as a day number (`dates.min()`). */
  function FirstDay(usage: seq<Reading>): int
    requires |usage| > 0
  {
    if |usage| == 1 then DayOf(usage[0])
    else
      var earlier := FirstDay(usage[..|usage| - 1]);
      var x := DayOf(usage[|usage| - 1]);
      if x < earlier then x else earlier
  }

  /** The latest reading date as a day number (`dates.max()`). */
  function LastDay(usage: seq<Reading>): int
    requires |usage| > 0
  {
    if |usage| == 1 then DayOf(usage[0])
    else
      var earlier := LastDay(usage[..|usage| - 1]);
      var x := DayOf(usage[|usage| - 1]);
      if x > earlier then x else earlier
  }

  /** FirstDay is the date of some reading, and no reading is earlier. */
  lemma {:induction false} FirstDayIsEarliest(usage: seq<Reading>)
    requires |usage| > 0
    ensures forall i :: 0 <= i < |usage| ==> FirstDay(usage) <= DayOf(usage[i])
    ensures exists i :: 0 <= i < |usage| && FirstDay(usage) == DayOf(usage[i])
  {
    if |usage| == 1 {
      assert FirstDay(usage) == DayOf(usage[0]);
    } else {
      var init := usage[..|usage| - 1];
      FirstDayIsEarliest(init);
      assert forall i :: 0 <= i < |init| ==> init[i] == usage[i];
      if DayOf(usage[|usage| - 1]) >= FirstDay(init) {
        var k :| 0 <= k < |init| && FirstDay(init) == DayOf(init[k]);
        assert FirstDay(usage) == DayOf(usage[k]);
      }
    }
  }

  /** LastDay is the date of some reading, and no reading is later. */
  lemma {:induction false} LastDayIsLatest(usage: seq<Reading>)
    requires |usage| > 0
    ensures forall i :: 0 <= i < |usage| ==> DayOf(usage[i]) <= LastDay(usage)
    ensures exists i :: 0 <= i < |usage| && LastDay(usage) == DayOf(usage[i])
  {
    if |usage| == 1 {
      assert LastDay(usage) == DayOf(usage[0]);
    } else {
      var init := usage[..|usage| - 1];
      LastDayIsLatest(init);
      assert forall i :: 0 <= i < |init| ==> init[i] == usage[i];
      if DayOf(usage[|usage| - 1]) <= LastDay(init) {
        var k :| 0 <= k < |init| && LastDay(init) == DayOf(init[k]);
        assert LastDay(usage) == DayOf(usage[k]);
      }
    }
  }

  /**
   * The calendar days from the first to the last reading, both included
   * (`round((end_date - start_date) / 1 day) + 1`).
   */
  function TotalDays(usage: seq<Reading>): (n: int)
    requires |usage| > 0
    ensures n >= 1
  {
    FirstDayIsEarliest(usage);
    LastDayIsLatest(usage);
    LastDay(usage) - FirstDay(usage) + 1
  }

  /**
   * The day count depends only on the first and last reading dates: another
   * reading on a day inside that span leaves it unchanged, however many
   * readings there are.
   */
  lemma TotalDaysIgnoresInnerReadings(usage: seq<Reading>, r: Reading)
    requires |usage| > 0
    requires FirstDay(usage) <= DayOf(r) <= LastDay(usage)
    ensures TotalDays(usage + [r]) == TotalDays(usage)
  {
    assert (usage + [r])[..|usage|] == usage;
  }

  /** Readings that all fall on one date span exactly one day. */
  lemma {:induction false} OneDateOneDay(usage: seq<Reading>, d: Date)
    requires |usage| > 0
    requires forall i :: 0 <= i < |usage| ==> usage[i].DateOf() == d
    ensures TotalDays(usage) == 1
  {
    FirstDayIsEarliest(usage);
    LastDayIsLatest(usage);
  }

  // ---------------------------------------------------------------------------
  // get_total_price
  // ---------------------------------------------------------------------------

  /**
   * Per-plan GST-inclusive totals in dollars. A plan with a NaN rate is left
   * out; every other plan is its pre-GST cost over the span of the readings,
   * with GST added and rounded to the cent.
   */
  method GetTotalPrice(usage: seq<Reading>, unitPrice: UnitPrice) returns (totalPrice: map<Plan, real>)
    requires |usage| > 0
    requires forall i :: 0 <= i < |usage| ==> usage[i].DateOf().Valid()
    requires HasAllKeys(unitPrice)
    ensures totalPrice.Keys == PricedPlans(unitPrice)
    ensures forall p :: p in totalPrice ==>
              HasRates(p, SetRates(ReadRates(unitPrice)))
              && totalPrice[p] == WithGst(PreTax(p, usage, TotalDays(usage), SetRates(ReadRates(unitPrice))))
  {
    var u := ReadRates(unitPrice);
    var totalDays := TotalDays(usage);
    var exclGst: map<Plan, Option<real>> := map p | p in Plans :: PlanPreTax(p, usage, totalDays, u);
    totalPrice := AddGst(exclGst);
    TotalsArePreTax(usage, unitPrice, totalPrice);
  }

  /**
   * The closing loop of get_total_price: each plan's pre-GST cost in cents,
   * in plan order, with NaN costs skipped and the others taken to dollars
   * with GST, rounded to the cent.
   */
  method AddGst(exclGst: map<Plan, Option<real>>) returns (totalPrice: map<Plan, real>)
    requires forall p :: p in Plans ==> p in exclGst
    ensures forall p :: p in totalPrice <==> p in Plans && exclGst[p].Some?
    ensures forall p :: p in totalPrice ==> totalPrice[p] == WithGst(exclGst[p].value)
  {
    totalPrice := map[];
    var i := 0;
    while i < |Plans|
      invariant 0 <= i <= |Plans|
      invariant forall p :: p in totalPrice <==> p in Plans[..i] && exclGst[p].Some?
      invariant forall p :: p in totalPrice ==> totalPrice[p] == WithGst(exclGst[p].value)
    {
      var k := Plans[i];
      var v := exclGst[k];
      if v.Some? {
        totalPrice := totalPrice[k := WithGst(v.value)];
      }
      PrefixSnoc(Plans, i);
      i := i + 1;
    }
    assert Plans[..i] == Plans;
  }

  lemma PrefixSnoc<T>(s: seq<T>, i: int)
    requires 0 <= i < |s|
    ensures s[..i + 1] == s[..i] + [s[i]]
  {
  }

  /** The totals the loop leaves, in terms of the NaN-aware formula, are the tariff's pre-tax costs with GST. */
  lemma TotalsArePreTax(usage: seq<Reading>, unitPrice: UnitPrice, totalPrice: map<Plan, real>)
    requires |usage| > 0
    requires HasAllKeys(unitPrice)
    requires forall p :: p in totalPrice <==>
               p in Plans && PlanPreTax(p, usage, TotalDays(usage), ReadRates(unitPrice)).Some?
    requires forall p :: p in totalPrice ==>
               totalPrice[p] == WithGst(PlanPreTax(p, usage, TotalDays(usage), ReadRates(unitPrice)).value)
    ensures totalPrice.Keys == PricedPlans(unitPrice)
    ensures forall p :: p in totalPrice ==>
              HasRates(p, SetRates(ReadRates(unitPrice)))
              && totalPrice[p] == WithGst(PreTax(p, usage, TotalDays(usage), SetRates(ReadRates(unitPrice))))
  {
    var u := ReadRates(unitPrice);
    forall p | p in Plans
      ensures PlanPreTax(p, usage, TotalDays(usage), u).Some? <==> AllSet(p, u)
      ensures AllSet(p, u) ==>
                HasRates(p, SetRates(u))
                && PlanPreTax(p, usage, TotalDays(usage), u).value == PreTax(p, usage, TotalDays(usage), SetRates(u))
    {
      PlanPreTaxNaN(p, usage, TotalDays(usage), u);
    }
  }

  /** A NaN night price with every other rate set drops exactly the night plan. */
  lemma NightPriceUnsetDropsNight(unitPrice: UnitPrice)
    requires HasAllKeys(unitPrice)
    requires unitPrice[Key(NightPrice)] == None
    requires forall n :: n in UsedRates && n != NightPrice ==> unitPrice[Key(n)].Some?
    ensures PricedPlans(unitPrice) == {Weekend, Broadband, Charge, Basic}
  {
    var u := ReadRates(unitPrice);
    forall n | n in UsedRates
      ensures n in u && (u[n].Some? <==> n != NightPrice)
    {
    }
    NightUnsetPlans(u);
  }

  lemma NightUnsetPlans(u: NaNRates)
    requires forall n :: n in UsedRates ==> n in u && (u[n].Some? <==> n != NightPrice)
    ensures PlansWithRates(u) == {Weekend, Broadband, Charge, Basic}
  {
    PlanRatesAreUsed(Weekend);
    PlanRatesAreUsed(Broadband);
    PlanRatesAreUsed(Charge);
    PlanRatesAreUsed(Basic);
    assert NightPrice in UsedRates && NightPrice in RateKeys(Night);
    PlansFromFlags(u, false);
  }

  /** With every rate set, all five plans are priced; the bach plan never is. */
  lemma AllRatesSetPricesAllPlans(unitPrice: UnitPrice)
    requires forall n :: n in UsedRates ==> Key(n) in unitPrice && unitPrice[Key(n)].Some?
    ensures PricedPlans(unitPrice) == {Weekend, Night, Broadband, Charge, Basic}
  {
    var u := ReadRates(unitPrice);
    forall n | n in UsedRates
      ensures n in u && u[n].Some?
    {
    }
    AllSetPlans(u);
  }

  lemma AllSetPlans(u: NaNRates)
    requires forall n :: n in UsedRates ==> n in u && u[n].Some?
    ensures PlansWithRates(u) == {Weekend, Night, Broadband, Charge, Basic}
  {
    PlanRatesAreUsed(Weekend);
    PlanRatesAreUsed(Night);
    PlanRatesAreUsed(Broadband);
    PlanRatesAreUsed(Charge);
    PlanRatesAreUsed(Basic);
    PlansFromFlags(u, true);
  }

  /** The four plans that do not read the night rate are priced; the night plan is exactly when `night`. */
  lemma PlansFromFlags(u: NaNRates, night: bool)
    requires AllSet(Weekend, u) && AllSet(Broadband, u) && AllSet(Charge, u) && AllSet(Basic, u)
    requires AllSet(Night, u) == night
    ensures PlansWithRates(u) == if night then {Weekend, Night, Broadband, Charge, Basic}
                                else {Weekend, Broadband, Charge, Basic}
  {
    forall p
      ensures p in PlansWithRates(u) <==> p in Plans && (p != Night || night)
    {
    }
  }

  lemma PlanRatesAreUsed(p: Plan)
    requires p in Plans
    ensures RateKeys(p) <= UsedRates
    ensures p != Night ==> NightPrice !in RateKeys(p)
  {
  }

  // ---------------------------------------------------------------------------
  // The price table
  // ---------------------------------------------------------------------------

  /** The entries whose price is not NaN, in order (`dropna`). */
  function DropNaN(entries: seq<(string, Option<real>)>): seq<(string, Option<real>)>
  {
    if entries == [] then []
    else
      var last := entries[|entries| - 1];
      DropNaN(entries[..|entries| - 1]) + (if last.1.Some? then [last] else [])
  }

  lemma DropNaNSnoc(entries: seq<(string, Option<real>)>, e: (string, Option<real>))
    ensures DropNaN(entries + [e]) == DropNaN(entries) + (if e.1.Some? then [e] else [])
  {
    assert (entries + [e])[..|entries|] == entries;
  }

  /** `dropna` keeps exactly the entries whose price is a number. */
  lemma {:induction false} DropNaNMembers(entries: seq<(string, Option<real>)>)
    ensures forall e :: e in DropNaN(entries) <==> e in entries && e.1.Some?
  {
    if entries != [] {
      var init, last := entries[..|entries| - 1], entries[|entries| - 1];
      assert entries == init + [last];
      DropNaNMembers(init);
      DropNaNSnoc(init, last);
    }
  }

  /** `to_dict` of (name, price) rows: a later row with the same name overwrites an earlier one. */
  function PriceDict(rows: seq<(string, Option<real>)>): UnitPrice
  {
    if rows == [] then map[]
    else
      var last := rows[|rows| - 1];
      PriceDict(rows[..|rows| - 1])[last.0 := last.1]
  }

  lemma PriceDictSnoc(rows: seq<(string, Option<real>)>, e: (string, Option<real>))
    ensures PriceDict(rows + [e]) == PriceDict(rows)[e.0 := e.1]
  {
    assert (rows + [e])[..|rows|] == rows;
  }

  /** The dictionary's keys are exactly the names of the rows. */
  lemma {:induction false} PriceDictKeys(rows: seq<(string, Option<real>)>)
    ensures forall n :: n in PriceDict(rows) <==> exists j :: 0 <= j < |rows| && rows[j].0 == n
  {
    if rows != [] {
      var init, last := rows[..|rows| - 1], rows[|rows| - 1];
      assert rows == init + [last];
      PriceDictKeys(init);
      PriceDictSnoc(init, last);
      forall n | n in PriceDict(rows)
        ensures exists j :: 0 <= j < |rows| && rows[j].0 == n
      {
        if n != last.0 {
          var j :| 0 <= j < |init| && init[j].0 == n;
          assert rows[j] == init[j];
        } else {
          assert rows[|rows| - 1].0 == n;
        }
      }
      forall n | exists j :: 0 <= j < |rows| && rows[j].0 == n
        ensures n in PriceDict(rows)
      {
        var j :| 0 <= j < |rows| && rows[j].0 == n;
        if j < |init| {
          assert init[j] == rows[j];
        }
      }
    }
  }

  /** A row that no later row renames is what the dictionary holds for its name. */
  lemma {:induction false} PriceDictLastWins(rows: seq<(string, Option<real>)>, j: int)
    requires 0 <= j < |rows|
    requires forall k :: j < k < |rows| ==> rows[k].0 != rows[j].0
    ensures rows[j].0 in PriceDict(rows) && PriceDict(rows)[rows[j].0] == rows[j].1
  {
    var init, last := rows[..|rows| - 1], rows[|rows| - 1];
    assert rows == init + [last];
    PriceDictSnoc(init, last);
    if j < |rows| - 1 {
      assert init[j] == rows[j];
      forall k | j < k < |init| ensures init[k].0 != init[j].0 {
        assert init[k] == rows[k];
      }
      PriceDictLastWins(init, j);
    }
  }

  /** The stored rates of a meter; an unreadable table gives `{}`. */
  function GetUnitPrice(prices: seq<PriceRow>, rowId: int): UnitPrice {
    PriceDict(StoredPrices(prices, rowId))
  }

  /** The price table after saving `kwargs` for meter `rowId`. */
  function AfterSaveDroppingNaN(prices: seq<PriceRow>, rowId: int, kwargs: seq<(string, Option<real>)>): seq<PriceRow> {
    OtherMeters(prices, rowId) + PriceRows(rowId, DropNaN(kwargs))
  }

  /** Replaces a meter's price rows by the arguments that are not NaN. */
  method SaveUnitPrice(db: Database, rowId: int, kwargs: seq<(string, Option<real>)>)
    requires db.Valid()
    modifies db
    ensures db.Valid()
    ensures db.prices == AfterSaveDroppingNaN(old(db.prices), rowId, kwargs)
    ensures db.meters == old(db.meters) && db.usage == old(db.usage)
  {
    db.prices := OtherMeters(db.prices, rowId) + PriceRows(rowId, DropNaN(kwargs));
  }

  /** Keyword arguments never repeat a name. */
  predicate DistinctKwargs(kwargs: seq<(string, Option<real>)>) {
    forall a, b :: 0 <= a < b < |kwargs| ==> kwargs[a].0 != kwargs[b].0
  }

  /** Saving for one meter leaves every other meter's rates as they were. */
  lemma SaveKeepsOtherMeters(prices: seq<PriceRow>, rowId: int, kwargs: seq<(string, Option<real>)>, id: int)
    requires id != rowId
    ensures GetUnitPrice(AfterSaveDroppingNaN(prices, rowId, kwargs), id) == GetUnitPrice(prices, id)
  {
    ReplacePrices(prices, rowId, DropNaN(kwargs), id);
  }

  /** The dictionary of the non-NaN arguments holds each such argument with its value, and no NaN one. */
  lemma {:induction false} DictOfDropNaN(kwargs: seq<(string, Option<real>)>, i: int)
    requires DistinctKwargs(kwargs)
    requires 0 <= i < |kwargs|
    ensures kwargs[i].0 in PriceDict(DropNaN(kwargs)) <==> kwargs[i].1.Some?
    ensures kwargs[i].1.Some? ==> PriceDict(DropNaN(kwargs))[kwargs[i].0] == kwargs[i].1
  {
    var init, last := kwargs[..|kwargs| - 1], kwargs[|kwargs| - 1];
    var kept := DropNaN(init);
    assert kwargs == init + [last];
    assert forall j :: 0 <= j < |init| ==> init[j] == kwargs[j];
    DropNaNSnoc(init, last);
    if last.1.Some? {
      PriceDictSnoc(kept, last);
    } else {
      assert kept + [] == kept;
    }
    if i < |kwargs| - 1 {
      DictOfDropNaN(init, i);
    } else if last.1.None? {
      PriceDictKeys(kept);
      DropNaNMembers(init);
    }
  }

  /**
   * After saving, each argument's name reads back its value when that value
   * is a number, and is absent when it was NaN.
   */
  lemma SaveThenGetUnitPrice(prices: seq<PriceRow>, rowId: int, kwargs: seq<(string, Option<real>)>, i: int)
    requires DistinctKwargs(kwargs)
    requires 0 <= i < |kwargs|
    ensures kwargs[i].0 in GetUnitPrice(AfterSaveDroppingNaN(prices, rowId, kwargs), rowId) <==> kwargs[i].1.Some?
    ensures kwargs[i].1.Some? ==> GetUnitPrice(AfterSaveDroppingNaN(prices, rowId, kwargs), rowId)[kwargs[i].0] == kwargs[i].1
  {
    ReplacePrices(prices, rowId, DropNaN(kwargs), rowId);
    DictOfDropNaN(kwargs, i);
  }

  /** After saving, every name the meter reads back is one of the arguments, with a number as its value. */
  lemma SavedNamesAreArguments(prices: seq<PriceRow>, rowId: int, kwargs: seq<(string, Option<real>)>)
    ensures forall n :: n in GetUnitPrice(AfterSaveDroppingNaN(prices, rowId, kwargs), rowId) ==>
              exists e :: e in kwargs && e.0 == n && e.1.Some?
  {
    ReplacePrices(prices, rowId, DropNaN(kwargs), rowId);
    PriceDictKeys(DropNaN(kwargs));
    DropNaNMembers(kwargs);
    forall n | n in GetUnitPrice(AfterSaveDroppingNaN(prices, rowId, kwargs), rowId)
      ensures exists e :: e in kwargs && e.0 == n && e.1.Some?
    {
      var j :| 0 <= j < |DropNaN(kwargs)| && DropNaN(kwargs)[j].0 == n;
      assert DropNaN(kwargs)[j] in DropNaN(kwargs);
    }
  }

  /**
   * A NaN night price saved here is not stored, so the meter's dictionary
   * lacks `night_price` and get_total_price cannot read it.
   */
  lemma SavedNaNNightPriceIsMissing(prices: seq<PriceRow>, rowId: int, kwargs: seq<(string, Option<real>)>, i: int)
    requires DistinctKwargs(kwargs)
    requires 0 <= i < |kwargs| && kwargs[i] == (Key(NightPrice), None)
    ensures !HasAllKeys(GetUnitPrice(AfterSaveDroppingNaN(prices, rowId, kwargs), rowId))
  {
    SaveThenGetUnitPrice(prices, rowId, kwargs, i);
    assert NightPrice in UsedRates;
  }
}
