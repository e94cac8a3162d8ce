/**
 * The tariff formulas shared by both pricing variants: hourly readings, the
 * free and charged hour windows of each plan, Σ value over a window, the
 * pre-tax cost of a plan in cents, and the GST-inclusive dollar total.
 */
module Tariff {
  import opened Calendar

  /** One hourly reading: `value` kWh used in hour `hour` of the given day. */
  datatype Reading = Reading(year: int, month: int, day: int, hour: int, value: real) {
    function DateOf(): Date {
      Date(year, month, day)
    }
  }

  /** The plans of Contact Energy that are compared. `Bach` exists only in the older variant. */
  datatype Plan = Weekend | Night | Broadband | Charge | Basic | Bach

  /** The rates the plans are priced by: cents per kWh, per day for the `Fixed` ones. */
  datatype RateName =
    | WeekendPrice | WeekendFixed | NightPrice | NightFixed
    | BroadbandPrice | BroadbandFixed | BroadbandLevy
    | ChargeDayPrice | ChargeNightPrice | ChargeFixed
    | BasicLevy | BasicFixed | BasicPrice | BachPrice | BachLevy

  /** The dictionary key and price-table name of a rate. */
  function Key(n: RateName): string {
    match n
    case WeekendPrice => "weekend_price"
    case WeekendFixed => "weekend_fixed"
    case NightPrice => "night_price"
    case NightFixed => "night_fixed"
    case BroadbandPrice => "broadband_price"
    case BroadbandFixed => "broadband_fixed"
    case BroadbandLevy => "broadband_levy"
    case ChargeDayPrice => "charge_day_price"
    case ChargeNightPrice => "charge_night_price"
    case ChargeFixed => "charge_fixed"
    case BasicLevy => "basic_levy"
    case BasicFixed => "basic_fixed"
    case BasicPrice => "basic_price"
    case BachPrice => "bach_price"
    case BachLevy => "bach_levy"
  }

  const AllRates: set<RateName> :=
    {WeekendPrice, WeekendFixed, NightPrice, NightFixed, BroadbandPrice, BroadbandFixed, BroadbandLevy,
     ChargeDayPrice, ChargeNightPrice, ChargeFixed, BasicLevy, BasicFixed, BasicPrice, BachPrice, BachLevy}

  /** No two rates share a name. */
  lemma KeyInjective(a: RateName, b: RateName)
    ensures Key(a) == Key(b) ==> a == b
  {
  }

  /** Rates by name. */
  type Rates = map<RateName, real>

  /** GST rate, applied as `1 + GstRate`. */
  const GstRate: real := 0.15

  // ---------------------------------------------------------------------------
  // Hour windows (the boolean columns contact_energy/pricing.py adds to the usage frame)
  // ---------------------------------------------------------------------------

  /** Saturday and Sunday from 9:00 to 17:00 are free on the weekend plan. */
  predicate WeekendIsFree(r: Reading) {
    Weekday(r.DateOf()) > 4 && 9 <= r.hour < 17
  }

  /** From 21:00 to midnight is free on the night plan. */
  predicate NightIsFree(r: Reading) {
    r.hour >= 21
  }

  /** The day rate of the charge plan applies from 7:00 to 21:00. */
  predicate ChargeIsDay(r: Reading) {
    7 <= r.hour < 21
  }

  /** Which readings a sum runs over. */
  datatype Filter = AllHours | NotWeekendFree | NotNightFree | ChargeDayHours | ChargeNightHours

  predicate Keeps(f: Filter, r: Reading) {
    match f
    case AllHours => true
    case NotWeekendFree => !WeekendIsFree(r)
    case NotNightFree => !NightIsFree(r)
    case ChargeDayHours => ChargeIsDay(r)
    case ChargeNightHours => !ChargeIsDay(r)
  }

  /** Σ value over the readings that `f` keeps. */
  function Sum(usage: seq<Reading>, f: Filter): real
  {
    if usage == [] then 0.0
    else
      var last := usage[|usage| - 1];
      Sum(usage[..|usage| - 1], f) + (if Keeps(f, last) then last.value else 0.0)
  }

  // ---------------------------------------------------------------------------
  // Plan formulas
  // ---------------------------------------------------------------------------

  /** The rate names a plan's formula reads. */
  function RateKeys(p: Plan): set<RateName>
  {
    match p
    case Weekend => {WeekendPrice, WeekendFixed}
    case Night => {NightPrice, NightFixed}
    case Broadband => {BroadbandPrice, BroadbandFixed, BroadbandLevy}
    case Charge => {ChargeDayPrice, ChargeNightPrice, ChargeFixed}
    case Basic => {BasicPrice, BasicFixed, BasicLevy}
    case Bach => {BachPrice, BachLevy}
  }

  predicate HasRates(p: Plan, rate: Rates) {
    RateKeys(p) <= rate.Keys
  }

  /** The energy part of a plan's pre-tax cost, written as contact_energy/pricing.py computes it. */
  function EnergyCost(p: Plan, usage: seq<Reading>, rate: Rates): real
    requires HasRates(p, rate)
  {
    match p
    case Weekend => Sum(usage, NotWeekendFree) * rate[WeekendPrice]
    case Night => Sum(usage, NotNightFree) * rate[NightPrice]
    case Broadband => Sum(usage, AllHours) * (rate[BroadbandPrice] + rate[BroadbandLevy])
    case Charge =>
      Sum(usage, AllHours) * rate[ChargeNightPrice]
      + Sum(usage, ChargeDayHours) * (rate[ChargeDayPrice] - rate[ChargeNightPrice])
    case Basic => Sum(usage, AllHours) * (rate[BasicPrice] + rate[BasicLevy])
    case Bach => Sum(usage, AllHours) * (rate[BachPrice] + rate[BachLevy])
  }

  /** The daily fee of a plan over `totalDays` days; the bach plan has none. */
  function FixedCost(p: Plan, totalDays: int, rate: Rates): real
    requires HasRates(p, rate)
  {
    match p
    case Weekend => totalDays as real * rate[WeekendFixed]
    case Night => totalDays as real * rate[NightFixed]
    case Broadband => totalDays as real * rate[BroadbandFixed]
    case Charge => totalDays as real * rate[ChargeFixed]
    case Basic => totalDays as real * rate[BasicFixed]
    case Bach => 0.0
  }

  /** Pre-GST cost of a plan in cents. */
  function PreTax(p: Plan, usage: seq<Reading>, totalDays: int, rate: Rates): real
    requires HasRates(p, rate)
  {
    EnergyCost(p, usage, rate) + FixedCost(p, totalDays, rate)
  }

  // ---------------------------------------------------------------------------
  // The reference definition: the per-hour tariff table
  // ---------------------------------------------------------------------------

  /** The price of one kWh used in the hour of `r` under plan `p`. */
  function HourlyRate(p: Plan, r: Reading, rate: Rates): real
    requires HasRates(p, rate)
  {
    match p
    case Weekend => if WeekendIsFree(r) then 0.0 else rate[WeekendPrice]
    case Night => if NightIsFree(r) then 0.0 else rate[NightPrice]
    case Broadband => rate[BroadbandPrice] + rate[BroadbandLevy]
    case Charge => if ChargeIsDay(r) then rate[ChargeDayPrice] else rate[ChargeNightPrice]
    case Basic => rate[BasicPrice] + rate[BasicLevy]
    case Bach => rate[BachPrice] + rate[BachLevy]
  }

  /** Each reading billed on its own at its hour's price. */
  function PerReadingCost(p: Plan, usage: seq<Reading>, rate: Rates): real
    requires HasRates(p, rate)
  {
    if usage == [] then 0.0
    else
      var last := usage[|usage| - 1];
      PerReadingCost(p, usage[..|usage| - 1], rate) + HourlyRate(p, last, rate) * last.value
  }

  lemma Distribute(s: real, x: real, c: real)
    ensures (s + x) * c == s * c + x * c
  {
  }

  lemma SumSnoc(usage: seq<Reading>, r: Reading, f: Filter)
    ensures Sum(usage + [r], f) == Sum(usage, f) + (if Keeps(f, r) then r.value else 0.0)
  {
    assert (usage + [r])[..|usage|] == usage;
  }

  /** A window sum scaled by a rate grows by the reading's value at that rate when the window keeps it. */
  lemma ScaledSumSnoc(usage: seq<Reading>, r: Reading, f: Filter, c: real)
    ensures Sum(usage + [r], f) * c == Sum(usage, f) * c + (if Keeps(f, r) then c else 0.0) * r.value
  {
    SumSnoc(usage, r, f);
    Distribute(Sum(usage, f), if Keeps(f, r) then r.value else 0.0, c);
  }

  /** Adding one reading raises the energy cost by its value at its hour's price. */
  lemma EnergyCostSnoc(p: Plan, usage: seq<Reading>, r: Reading, rate: Rates)
    requires HasRates(p, rate)
    ensures EnergyCost(p, usage + [r], rate) == EnergyCost(p, usage, rate) + HourlyRate(p, r, rate) * r.value
  {
    match p
    case Weekend => WeekendSnoc(usage, r, rate);
    case Night => ScaledSumSnoc(usage, r, NotNightFree, rate[NightPrice]);
    case Broadband => ScaledSumSnoc(usage, r, AllHours, rate[BroadbandPrice] + rate[BroadbandLevy]);
    case Charge => ChargeSnoc(usage, r, rate);
    case Basic => ScaledSumSnoc(usage, r, AllHours, rate[BasicPrice] + rate[BasicLevy]);
    case Bach => ScaledSumSnoc(usage, r, AllHours, rate[BachPrice] + rate[BachLevy]);
  }

  lemma WeekendSnoc(usage: seq<Reading>, r: Reading, rate: Rates)
    requires HasRates(Weekend, rate)
    ensures EnergyCost(Weekend, usage + [r], rate) == EnergyCost(Weekend, usage, rate) + HourlyRate(Weekend, r, rate) * r.value
  {
    var c := rate[WeekendPrice];
    ScaledSumSnoc(usage, r, NotWeekendFree, c);
    assert HourlyRate(Weekend, r, rate) == if Keeps(NotWeekendFree, r) then c else 0.0;
  }

  lemma ChargeSnoc(usage: seq<Reading>, r: Reading, rate: Rates)
    requires HasRates(Charge, rate)
    ensures EnergyCost(Charge, usage + [r], rate) == EnergyCost(Charge, usage, rate) + HourlyRate(Charge, r, rate) * r.value
  {
    SumSnoc(usage, r, AllHours);
    SumSnoc(usage, r, ChargeDayHours);
    var v := r.value;
    var all, day := Sum(usage, AllHours), Sum(usage, ChargeDayHours);
    var d, n := rate[ChargeDayPrice], rate[ChargeNightPrice];
    Distribute(all, v, n);
    if ChargeIsDay(r) {
      Distribute(day, v, d - n);
    }
  }

  /**
   * The bulk column formulas of the two pricing modules agree with the tariff table: a plan's
   * energy cost is every reading billed at its own hour's price.
   */
  lemma {:induction false} EnergyCostIsPerReading(p: Plan, usage: seq<Reading>, rate: Rates)
    requires HasRates(p, rate)
    ensures EnergyCost(p, usage, rate) == PerReadingCost(p, usage, rate)
  {
    if usage != [] {
      var init, last := usage[..|usage| - 1], usage[|usage| - 1];
      assert usage == init + [last];
      EnergyCostIsPerReading(p, init, rate);
      EnergyCostSnoc(p, init, last, rate);
      PerReadingCostSnoc(p, init, last, rate);
    }
  }

  lemma PerReadingCostSnoc(p: Plan, usage: seq<Reading>, r: Reading, rate: Rates)
    requires HasRates(p, rate)
    ensures PerReadingCost(p, usage + [r], rate) == PerReadingCost(p, usage, rate) + HourlyRate(p, r, rate) * r.value
  {
    assert (usage + [r])[..|usage|] == usage;
  }

  /** A reading in a plan's free window adds nothing; any other adds value × its rate. */
  lemma PreTaxSnoc(p: Plan, usage: seq<Reading>, r: Reading, totalDays: int, rate: Rates)
    requires HasRates(p, rate)
    ensures p == Weekend && WeekendIsFree(r) ==> PreTax(p, usage + [r], totalDays, rate) == PreTax(p, usage, totalDays, rate)
    ensures p == Night && NightIsFree(r) ==> PreTax(p, usage + [r], totalDays, rate) == PreTax(p, usage, totalDays, rate)
    ensures PreTax(p, usage + [r], totalDays, rate) == PreTax(p, usage, totalDays, rate) + HourlyRate(p, r, rate) * r.value
  {
    EnergyCostSnoc(p, usage, r, rate);
  }

  lemma {:induction false} SumAppend(u: seq<Reading>, v: seq<Reading>, f: Filter)
    ensures Sum(u + v, f) == Sum(u, f) + Sum(v, f)
    decreases |v|
  {
    if v != [] {
      var init, last := v[..|v| - 1], v[|v| - 1];
      assert u + v == (u + init) + [last];
      assert v == init + [last];
      SumAppend(u, init, f);
      SumSnoc(u + init, last, f);
      SumSnoc(init, last, f);
    } else {
      assert u + v == u;
    }
  }

  /** Every reading is either a charge-plan day hour or a night hour. */
  lemma {:induction false} SumDayNightSplit(usage: seq<Reading>)
    ensures Sum(usage, AllHours) == Sum(usage, ChargeDayHours) + Sum(usage, ChargeNightHours)
  {
    if usage != [] {
      SumDayNightSplit(usage[..|usage| - 1]);
    }
  }

  /**
   * The charge plan's "all hours at the night price plus day hours at the
   * difference" is day hours at the day price plus the other hours at the
   * night price.
   */
  lemma ChargeDayNight(usage: seq<Reading>, rate: Rates)
    requires HasRates(Charge, rate)
    ensures EnergyCost(Charge, usage, rate)
         == Sum(usage, ChargeDayHours) * rate[ChargeDayPrice]
          + Sum(usage, ChargeNightHours) * rate[ChargeNightPrice]
  {
    SumDayNightSplit(usage);
  }

  /** With zero energy used, a plan costs exactly its daily fees. */
  lemma {:induction false} ZeroUsageCostsFixedFees(p: Plan, usage: seq<Reading>, totalDays: int, rate: Rates)
    requires HasRates(p, rate)
    requires forall i :: 0 <= i < |usage| ==> usage[i].value == 0.0
    ensures PreTax(p, usage, totalDays, rate) == FixedCost(p, totalDays, rate)
  {
    EnergyCostIsPerReading(p, usage, rate);
    PerReadingZero(p, usage, rate);
  }

  lemma {:induction false} PerReadingZero(p: Plan, usage: seq<Reading>, rate: Rates)
    requires HasRates(p, rate)
    requires forall i :: 0 <= i < |usage| ==> usage[i].value == 0.0
    ensures PerReadingCost(p, usage, rate) == 0.0
  {
    if usage != [] {
      PerReadingZero(p, usage[..|usage| - 1], rate);
    }
  }

  // ---------------------------------------------------------------------------
  // Rounding and GST
  // ---------------------------------------------------------------------------

  function Dist(k: int, y: real): real {
    if k as real >= y then k as real - y else y - k as real
  }

  /** The integer nearest to `y`, ties to the even neighbour. */
  function RoundHalfEven(y: real): (n: int)
    ensures Dist(n, y) <= 0.5
    ensures Dist(n, y) == 0.5 ==> n % 2 == 0
  {
    var f := y.Floor;
    var frac := y - f as real;
    if frac < 0.5 then f
    else if frac > 0.5 then f + 1
    else if f % 2 == 0 then f
    else f + 1
  }

  /** No integer is nearer to `y` than RoundHalfEven(y). */
  lemma RoundHalfEvenNearest(y: real, k: int)
    ensures Dist(RoundHalfEven(y), y) <= Dist(k, y)
  {
    var f := y.Floor;
    assert f as real <= y < f as real + 1.0;
    if k <= f {
      assert Dist(k, y) >= Dist(f, y);
    } else {
      assert Dist(k, y) >= Dist(f + 1, y);
    }
  }

  /** `round(x, 2)` on the exact value: the nearest whole number of cents, ties to even. */
  function Round2(x: real): (r: real)
    ensures -0.005 <= r - x <= 0.005
    ensures (r * 100.0).Floor as real == r * 100.0
  {
    RoundHalfEven(x * 100.0) as real / 100.0
  }

  /** Pre-GST cents to GST-inclusive dollars, rounded to the cent. */
  function WithGst(preTaxCents: real): (r: real)
    ensures -0.005 <= r - preTaxCents * (1.0 + GstRate) / 100.0 <= 0.005
  {
    Round2(preTaxCents * (1.0 + GstRate) / 100.0)
  }
}
