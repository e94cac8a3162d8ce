/**
 * The older pricing variant, `contact_energy_price.py`: six plans including
 * bach, the day count taken from the requested date range, a built-in
 * default rate table that supplies every rate the meter has not stored as a
 * number, and a price table saved exactly as given, NaN entries included.
 */
module ContactEnergyPrice {
  import opened Wrappers
  import opened Calendar
  import opened Tariff
  import opened LocalDb

  /** The six plans of the result dictionary. */
  const AllPlans: set<Plan> := {Weekend, Night, Broadband, Charge, Basic, Bach}

  // ---------------------------------------------------------------------------
  // The default rate table
  // ---------------------------------------------------------------------------

  /** The rate names in the order of the default table. */
  const DefaultNames: seq<RateName> :=
    [WeekendPrice, WeekendFixed, NightPrice, NightFixed, BroadbandPrice, BroadbandFixed, BroadbandLevy,
     ChargeDayPrice, ChargeNightPrice, ChargeFixed, BasicLevy, BasicFixed, BasicPrice, BachPrice, BachLevy]

  /** The low-user rates of 2024-06-17 before GST: cents per kWh, or per day for the fixed fees. */
  function DefaultPrice(n: RateName): real {
    match n
    case WeekendPrice => 23.4
    case WeekendFixed => 90.0
    case NightPrice => 30.2
    case NightFixed => 90.0
    case BroadbandPrice => 24.4
    case BroadbandFixed => 90.0
    case BroadbandLevy => 0.16
    case ChargeDayPrice => 28.3
    case ChargeNightPrice => 14.1
    case ChargeFixed => 90.0
    case BasicLevy => 0.16
    case BasicFixed => 90.0
    case BasicPrice => 24.4
    case BachPrice => 44.1
    case BachLevy => 0.16
  }

  /** Where a rate sits in the default table. */
  function DefaultIndex(n: RateName): (i: nat)
    ensures i < |DefaultNames| && DefaultNames[i] == n
  {
    match n
    case WeekendPrice => 0
    case WeekendFixed => 1
    case NightPrice => 2
    case NightFixed => 3
    case BroadbandPrice => 4
    case BroadbandFixed => 5
    case BroadbandLevy => 6
    case ChargeDayPrice => 7
    case ChargeNightPrice => 8
    case ChargeFixed => 9
    case BasicLevy => 10
    case BasicFixed => 11
    case BasicPrice => 12
    case BachPrice => 13
    case BachLevy => 14
  }

  /** The default table lists each rate once. */
  lemma DefaultNamesDistinct()
    ensures forall i, j :: 0 <= i < j < |DefaultNames| ==> DefaultNames[i] != DefaultNames[j]
  {
  }

  /** A two-column (name, price) frame. */
  type Table = seq<(string, real)>

  /** The (name, price) rows of the given rates at their default prices. */
  function DefaultsOf(names: seq<RateName>): Table {
    seq(|names|, i requires 0 <= i < |names| => (Key(names[i]), DefaultPrice(names[i])))
  }

  /** `default_unit_price` as a frame. */
  function DefaultTable(): Table {
    DefaultsOf(DefaultNames)
  }

  // ---------------------------------------------------------------------------
  // get_unit_price: merge, combine_first, drop_duplicates
  // ---------------------------------------------------------------------------

  /** A row of the left join: the name, the default price and the stored price (`None` for NaN or no match). */
  datatype JoinedRow = JoinedRow(name: string, priceDefault: real, price: Option<real>)

  /** The stored entries with a given name, in table order. */
  function Matching(stored: seq<(string, Option<real>)>, name: string): seq<(string, Option<real>)> {
    if stored == [] then []
    else
      var last := stored[|stored| - 1];
      Matching(stored[..|stored| - 1], name) + (if last.0 == name then [last] else [])
  }

  lemma MatchingSnoc(stored: seq<(string, Option<real>)>, e: (string, Option<real>), name: string)
    ensures Matching(stored + [e], name) == Matching(stored, name) + (if e.0 == name then [e] else [])
  {
    assert (stored + [e])[..|stored|] == stored;
  }

  /** The matching entries are exactly the stored entries of that name. */
  lemma {:induction false} MatchingMembers(stored: seq<(string, Option<real>)>, name: string)
    ensures forall e :: e in Matching(stored, name) <==> e in stored && e.0 == name
  {
    if stored != [] {
      var init, last := stored[..|stored| - 1], stored[|stored| - 1];
      assert stored == init + [last];
      MatchingMembers(init, name);
      MatchingSnoc(init, last, name);
    }
  }

  /** The first matching entry is the first stored entry with that name. */
  lemma {:induction false} MatchingFirst(stored: seq<(string, Option<real>)>, name: string)
    requires Matching(stored, name) != []
    ensures exists i :: 0 <= i < |stored| && stored[i] == Matching(stored, name)[0]
                        && forall j :: 0 <= j < i ==> stored[j].0 != name
  {
    var init, last := stored[..|stored| - 1], stored[|stored| - 1];
    assert stored == init + [last];
    MatchingSnoc(init, last, name);
    assert forall j :: 0 <= j < |init| ==> init[j] == stored[j];
    if Matching(init, name) != [] {
      MatchingFirst(init, name);
      var i :| 0 <= i < |init| && init[i] == Matching(init, name)[0]
               && forall j :: 0 <= j < i ==> init[j].0 != name;
      assert stored[i] == Matching(stored, name)[0];
    } else {
      MatchingMembers(init, name);
      forall j | 0 <= j < |init|
        ensures stored[j].0 != name
      {
        assert init[j] in init;
      }
      assert stored[|init|] == Matching(stored, name)[0];
    }
  }

  /** The joined rows of one default row: one per stored entry of its name, or one with NaN. */
  function JoinRows(d: (string, real), m: seq<(string, Option<real>)>): seq<JoinedRow> {
    if m == [] then [JoinedRow(d.0, d.1, None)]
    else seq(|m|, i requires 0 <= i < |m| => JoinedRow(d.0, d.1, m[i].1))
  }

  /** `pd.merge(default, stored, on='name', how='left')`, in the order of the default rows. */
  function LeftJoin(defaults: Table, stored: seq<(string, Option<real>)>): seq<JoinedRow> {
    if defaults == [] then []
    else
      var last := defaults[|defaults| - 1];
      LeftJoin(defaults[..|defaults| - 1], stored) + JoinRows(last, Matching(stored, last.0))
  }

  /** `price.combine_first(price_default)`: the stored price where it is a number, the default elsewhere. */
  function CombineFirst(rows: seq<JoinedRow>): Table {
    seq(|rows|, i requires 0 <= i < |rows| => (rows[i].name, rows[i].price.GetOr(rows[i].priceDefault)))
  }

  /** The names of a frame's rows. */
  function NamesOf(t: Table): set<string> {
    set i | 0 <= i < |t| :: t[i].0
  }

  /** `drop_duplicates(subset='name')`: each name's first row, in order. */
  function DropDuplicates(t: Table): Table {
    if t == [] then []
    else
      var init, last := t[..|t| - 1], t[|t| - 1];
      DropDuplicates(init) + (if last.0 in NamesOf(init) then [] else [last])
  }

  /** The meter's rates: the defaults when it stores none, otherwise the defaults merged with what it stores. */
  function GetUnitPrice(prices: seq<PriceRow>, rowId: int): Table {
    var stored := StoredPrices(prices, rowId);
    if stored == [] then DefaultTable()
    else DropDuplicates(Combined(DefaultTable(), stored))
  }

  /**
   * The reference definition of a resolved rate: the first stored entry of
   * its name if that entry is a number, and the default otherwise (a NaN first
   * entry is not passed over for a later one).
   */
  function Resolved(stored: seq<(string, Option<real>)>, n: RateName): real {
    var m := Matching(stored, Key(n));
    if m != [] && m[0].1.Some? then m[0].1.value else DefaultPrice(n)
  }

  /** Every rate of `names`, in order, at its resolved price. */
  function ResolvedTable(names: seq<RateName>, stored: seq<(string, Option<real>)>): Table {
    seq(|names|, i requires 0 <= i < |names| => (Key(names[i]), Resolved(stored, names[i])))
  }

  /** A default row with its name's first stored number in place of the default, if there is one. */
  function ResolvedRow(d: (string, real), stored: seq<(string, Option<real>)>): (string, real) {
    var m := Matching(stored, d.0);
    (d.0, if m != [] && m[0].1.Some? then m[0].1.value else d.1)
  }

  function ResolvedRows(defaults: Table, stored: seq<(string, Option<real>)>): Table {
    seq(|defaults|, i requires 0 <= i < |defaults| => ResolvedRow(defaults[i], stored))
  }

  /** No two rows of the frame share a name. */
  predicate DistinctTableNames(t: Table) {
    forall i, j :: 0 <= i < j < |t| ==> t[i].0 != t[j].0
  }

  lemma CombineFirstAppend(a: seq<JoinedRow>, b: seq<JoinedRow>)
    ensures CombineFirst(a + b) == CombineFirst(a) + CombineFirst(b)
  {
  }

  lemma DropDuplicatesSnoc(t: Table, e: (string, real))
    ensures DropDuplicates(t + [e]) == DropDuplicates(t) + (if e.0 in NamesOf(t) then [] else [e])
  {
    assert (t + [e])[..|t|] == t;
  }

  /**
   * Appending a group of rows that share a name new to the frame keeps only
   * the group's first row.
   */
  lemma {:induction false} DropDuplicatesGroup(t: Table, g: Table, name: string)
    requires |g| > 0
    requires forall k :: 0 <= k < |g| ==> g[k].0 == name
    requires name !in NamesOf(t)
    ensures DropDuplicates(t + g) == DropDuplicates(t) + [g[0]]
    decreases |g|
  {
    var init, last := g[..|g| - 1], g[|g| - 1];
    assert t + g == (t + init) + [last];
    DropDuplicatesSnoc(t + init, last);
    if init == [] {
      assert t + init == t;
    } else {
      DropDuplicatesGroup(t, init, name);
      assert (t + init)[|t|] == init[0];
      assert last.0 in NamesOf(t + init);
    }
  }

  /** The joined and combined rows of a default frame, before duplicates are dropped. */
  function Combined(defaults: Table, stored: seq<(string, Option<real>)>): Table {
    CombineFirst(LeftJoin(defaults, stored))
  }

  /** The combined rows of one default row: at least one, all of its name, the first its resolved row. */
  function Group(d: (string, real), stored: seq<(string, Option<real>)>): (g: Table)
    ensures |g| > 0 && g[0] == ResolvedRow(d, stored)
    ensures forall k :: 0 <= k < |g| ==> g[k].0 == d.0
  {
    CombineFirst(JoinRows(d, Matching(stored, d.0)))
  }

  lemma CombinedSnoc(defaults: Table, stored: seq<(string, Option<real>)>)
    requires defaults != []
    ensures Combined(defaults, stored) == Combined(defaults[..|defaults| - 1], stored) + Group(defaults[|defaults| - 1], stored)
  {
    var last := defaults[|defaults| - 1];
    CombineFirstAppend(LeftJoin(defaults[..|defaults| - 1], stored), JoinRows(last, Matching(stored, last.0)));
  }

  /** Each combined row carries the name of a default row. */
  lemma {:induction false} CombinedNames(defaults: Table, stored: seq<(string, Option<real>)>)
    ensures forall k :: 0 <= k < |Combined(defaults, stored)| ==> Combined(defaults, stored)[k].0 in NamesOf(defaults)
  {
    if defaults != [] {
      var init := defaults[..|defaults| - 1];
      CombinedNames(init, stored);
      CombinedSnoc(defaults, stored);
      assert forall i :: 0 <= i < |init| ==> init[i] == defaults[i];
      assert defaults[|defaults| - 1].0 in NamesOf(defaults);
    }
  }

  /** With distinct default names, the last default's name is on no earlier combined row. */
  lemma FreshName(defaults: Table, stored: seq<(string, Option<real>)>)
    requires defaults != [] && DistinctTableNames(defaults)
    ensures defaults[|defaults| - 1].0 !in NamesOf(Combined(defaults[..|defaults| - 1], stored))
  {
    var init, last := defaults[..|defaults| - 1], defaults[|defaults| - 1];
    var c := Combined(init, stored);
    CombinedNames(init, stored);
    forall k | 0 <= k < |c|
      ensures c[k].0 != last.0
    {
      var i :| 0 <= i < |init| && init[i].0 == c[k].0;
      assert defaults[i] == init[i];
    }
  }

  /** The merge pipeline yields one row per default row, in order, each its resolved row. */
  lemma {:induction false} MergeResolves(defaults: Table, stored: seq<(string, Option<real>)>)
    requires DistinctTableNames(defaults)
    ensures DropDuplicates(Combined(defaults, stored)) == ResolvedRows(defaults, stored)
  {
    if defaults != [] {
      var init, last := defaults[..|defaults| - 1], defaults[|defaults| - 1];
      MergeResolves(init, stored);
      CombinedSnoc(defaults, stored);
      FreshName(defaults, stored);
      DropDuplicatesGroup(Combined(init, stored), Group(last, stored), last.0);
      ResolvedRowsSnoc(defaults, stored);
    }
  }

  lemma ResolvedRowsSnoc(defaults: Table, stored: seq<(string, Option<real>)>)
    requires defaults != []
    ensures ResolvedRows(defaults, stored)
         == ResolvedRows(defaults[..|defaults| - 1], stored) + [ResolvedRow(defaults[|defaults| - 1], stored)]
  {
  }

  /** The default table names each rate once, and resolving it row by row resolves each rate. */
  lemma DefaultTableResolves(stored: seq<(string, Option<real>)>)
    ensures DistinctTableNames(DefaultTable())
    ensures ResolvedRows(DefaultTable(), stored) == ResolvedTable(DefaultNames, stored)
  {
    DefaultNamesDistinct();
    forall i, j | 0 <= i < j < |DefaultNames|
      ensures DefaultTable()[i].0 != DefaultTable()[j].0
    {
      KeyInjective(DefaultNames[i], DefaultNames[j]);
    }
  }

  /** get_unit_price returns every rate, in the default table's order, at its resolved price. */
  lemma GetUnitPriceResolves(prices: seq<PriceRow>, rowId: int)
    ensures GetUnitPrice(prices, rowId) == ResolvedTable(DefaultNames, StoredPrices(prices, rowId))
  {
    var stored := StoredPrices(prices, rowId);
    DefaultTableResolves(stored);
    if stored != [] {
      MergeResolves(DefaultTable(), stored);
    }
  }

  /** A stored number for a rate, first of its name, overrides the default; a NaN one does not. */
  lemma ResolvedIsFirstStored(stored: seq<(string, Option<real>)>, n: RateName, i: int)
    requires 0 <= i < |stored| && stored[i].0 == Key(n)
    requires forall j :: 0 <= j < i ==> stored[j].0 != Key(n)
    ensures Resolved(stored, n) == stored[i].1.GetOr(DefaultPrice(n))
  {
    MatchingMembers(stored, Key(n));
    assert stored[i] in stored;
    MatchingFirst(stored, Key(n));
    var k :| 0 <= k < |stored| && stored[k] == Matching(stored, Key(n))[0]
             && forall j :: 0 <= j < k ==> stored[j].0 != Key(n);
    assert Matching(stored, Key(n))[0] in Matching(stored, Key(n));
    assert k == i;
  }

  /** A rate no stored entry names keeps its default. */
  lemma ResolvedUnstored(stored: seq<(string, Option<real>)>, n: RateName)
    requires forall j :: 0 <= j < |stored| ==> stored[j].0 != Key(n)
    ensures Resolved(stored, n) == DefaultPrice(n)
  {
    MatchingMembers(stored, Key(n));
    if Matching(stored, Key(n)) != [] {
      assert Matching(stored, Key(n))[0] in Matching(stored, Key(n));
    }
  }

  // ---------------------------------------------------------------------------
  // The rate dictionary
  // ---------------------------------------------------------------------------

  /** `dict(zip(unit_price['name'], unit_price['price']))`: a later row overwrites an earlier one. */
  function TableDict(t: Table): map<string, real> {
    if t == [] then map[]
    else
      var last := t[|t| - 1];
      TableDict(t[..|t| - 1])[last.0 := last.1]
  }

  /** With distinct names, the dictionary holds each row's price under its name. */
  lemma {:induction false} TableDictDistinct(t: Table)
    requires DistinctTableNames(t)
    ensures forall i :: 0 <= i < |t| ==> t[i].0 in TableDict(t) && TableDict(t)[t[i].0] == t[i].1
  {
    if t != [] {
      var init := t[..|t| - 1];
      assert forall i :: 0 <= i < |init| ==> init[i] == t[i];
      TableDictDistinct(init);
    }
  }

  /** Reading the dictionary of a meter's rates by rate name gives the resolved rates. */
  lemma UnitPriceDictResolves(prices: seq<PriceRow>, rowId: int)
    ensures forall n :: Key(n) in TableDict(GetUnitPrice(prices, rowId))
    ensures forall n :: TableDict(GetUnitPrice(prices, rowId))[Key(n)] == Resolved(StoredPrices(prices, rowId), n)
  {
    var stored := StoredPrices(prices, rowId);
    var t := GetUnitPrice(prices, rowId);
    GetUnitPriceResolves(prices, rowId);
    DefaultTableResolves(stored);
    assert forall i :: 0 <= i < |t| ==> t[i].0 == DefaultTable()[i].0;
    TableDictDistinct(t);
    forall n
      ensures Key(n) in TableDict(t) && TableDict(t)[Key(n)] == Resolved(stored, n)
    {
      var i := DefaultIndex(n);
      assert t[i] == (Key(n), Resolved(stored, n));
    }
  }

  /** The numeric rates the formulas read; every rate is present. */
  function ResolvedRates(stored: seq<(string, Option<real>)>): (rate: Rates)
    ensures forall p :: HasRates(p, rate)
  {
    map n | n in AllRates :: Resolved(stored, n)
  }

  // ---------------------------------------------------------------------------
  // get_total_price
  // ---------------------------------------------------------------------------

  /**
   * The usage rows the query selects: this meter's, dated within the range
   * inclusively. A date sqlite cannot read matches nothing.
   */
  predicate InRange(row: UsageRow, rowId: int, start: Date, end: Date) {
    row.meterId == rowId && start.Valid() && end.Valid() && row.DateOf().Valid()
    && DayNumber(start) <= DayNumber(row.DateOf()) <= DayNumber(end)
  }

  /** The readings of the selected rows, in table order. */
  function UsageInRange(usage: seq<UsageRow>, rowId: int, start: Date, end: Date): seq<Reading> {
    if usage == [] then []
    else
      var last := usage[|usage| - 1];
      UsageInRange(usage[..|usage| - 1], rowId, start, end)
        + (if InRange(last, rowId, start, end) then [last.ToReading()] else [])
  }

  lemma UsageInRangeSnoc(usage: seq<UsageRow>, row: UsageRow, rowId: int, start: Date, end: Date)
    ensures UsageInRange(usage + [row], rowId, start, end)
         == UsageInRange(usage, rowId, start, end) + (if InRange(row, rowId, start, end) then [row.ToReading()] else [])
  {
    assert (usage + [row])[..|usage|] == usage;
  }

  /** The selected readings are exactly those of the rows in range. */
  lemma {:induction false} UsageInRangeMembers(usage: seq<UsageRow>, rowId: int, start: Date, end: Date)
    ensures forall r :: r in UsageInRange(usage, rowId, start, end) <==>
              exists i :: 0 <= i < |usage| && InRange(usage[i], rowId, start, end) && usage[i].ToReading() == r
  {
    if usage != [] {
      var init, last := usage[..|usage| - 1], usage[|usage| - 1];
      assert usage == init + [last];
      assert forall i :: 0 <= i < |init| ==> init[i] == usage[i];
      UsageInRangeMembers(init, rowId, start, end);
      UsageInRangeSnoc(init, last, rowId, start, end);
      forall r | r in UsageInRange(usage, rowId, start, end)
        ensures exists i :: 0 <= i < |usage| && InRange(usage[i], rowId, start, end) && usage[i].ToReading() == r
      {
        if r !in UsageInRange(init, rowId, start, end) {
          assert InRange(usage[|init|], rowId, start, end) && usage[|init|].ToReading() == r;
        }
      }
    }
  }

  /** `unit_price['weekend_price']` and so on: the dictionary read by rate name. */
  function RatesOf(unitPrice: map<string, real>): (rate: Rates)
    requires forall n :: Key(n) in unitPrice
    ensures forall p :: HasRates(p, rate)
  {
    map n | n in AllRates :: unitPrice[Key(n)]
  }

  /**
   * The rates get_total_price reads from get_unit_price's dictionary: for
   * each name, its first stored number, else its default.
   */
  function UnitPriceRates(prices: seq<PriceRow>, rowId: int): (rate: Rates)
    ensures rate == ResolvedRates(StoredPrices(prices, rowId))
  {
    UnitPriceDictResolves(prices, rowId);
    var read := RatesOf(TableDict(GetUnitPrice(prices, rowId)));
    var resolved := ResolvedRates(StoredPrices(prices, rowId));
    assert forall n :: n in read <==> n in resolved;
    assert forall n :: n in read ==> read[n] == resolved[n];
    read
  }

  /** Every plan's pre-GST cost with GST added, in dollars rounded to the cent. */
  function Totals(readings: seq<Reading>, totalDays: int, rate: Rates): (total: map<Plan, real>)
    requires forall p :: HasRates(p, rate)
    ensures total.Keys == AllPlans
  {
    map p | p in AllPlans :: WithGst(PreTax(p, readings, totalDays, rate))
  }

  /**
   * Per-plan GST-inclusive totals in dollars: 0 for every plan when no
   * reading is in range, otherwise each plan's pre-GST cost over the days of
   * the range with GST added and rounded to the cent.
   */
  function GetTotalPrice(start: Date, end: Date, rowId: int, usage: seq<UsageRow>, prices: seq<PriceRow>): (total: map<Plan, real>)
    ensures total.Keys == AllPlans
    ensures UsageInRange(usage, rowId, start, end) == [] ==> forall p :: p in total ==> total[p] == 0.0
  {
    var readings := UsageInRange(usage, rowId, start, end);
    if readings == [] then map p | p in AllPlans :: 0.0
    else Totals(readings, DaysInRange(start, end), UnitPriceRates(prices, rowId))
  }

  /** With readings in range, each plan's total is its tariff cost at the resolved rates, with GST. */
  lemma TotalIsResolvedPreTax(start: Date, end: Date, rowId: int, usage: seq<UsageRow>, prices: seq<PriceRow>, p: Plan)
    requires UsageInRange(usage, rowId, start, end) != []
    ensures p in GetTotalPrice(start, end, rowId, usage, prices)
    ensures GetTotalPrice(start, end, rowId, usage, prices)[p]
         == WithGst(PreTax(p, UsageInRange(usage, rowId, start, end), DaysInRange(start, end),
                           ResolvedRates(StoredPrices(prices, rowId))))
  {
    GetTotalPriceIsTotals(start, end, rowId, usage, prices);
    TotalsAt(UsageInRange(usage, rowId, start, end), DaysInRange(start, end),
             ResolvedRates(StoredPrices(prices, rowId)), p);
  }

  lemma GetTotalPriceIsTotals(start: Date, end: Date, rowId: int, usage: seq<UsageRow>, prices: seq<PriceRow>)
    requires UsageInRange(usage, rowId, start, end) != []
    ensures GetTotalPrice(start, end, rowId, usage, prices)
         == Totals(UsageInRange(usage, rowId, start, end), DaysInRange(start, end),
                   ResolvedRates(StoredPrices(prices, rowId)))
  {
  }

  lemma TotalsAt(readings: seq<Reading>, totalDays: int, rate: Rates, p: Plan)
    requires forall q :: HasRates(q, rate)
    ensures p in Totals(readings, totalDays, rate)
    ensures Totals(readings, totalDays, rate)[p] == WithGst(PreTax(p, readings, totalDays, rate))
  {
  }

  /** Whenever a reading is priced, the range holds its date and so spans at least one day. */
  lemma PricedRangeIsNonEmpty(start: Date, end: Date, rowId: int, usage: seq<UsageRow>)
    requires UsageInRange(usage, rowId, start, end) != []
    ensures DaysInRange(start, end) >= 1
    ensures forall r :: r in UsageInRange(usage, rowId, start, end) ==>
              r.DateOf().Valid() && DayNumber(start) <= DayNumber(r.DateOf()) <= DayNumber(end)
  {
    UsageInRangeMembers(usage, rowId, start, end);
    var r := UsageInRange(usage, rowId, start, end)[0];
    assert r in UsageInRange(usage, rowId, start, end);
  }

  // ---------------------------------------------------------------------------
  // save_unit_price
  // ---------------------------------------------------------------------------

  /** The price table after saving `kwargs`, NaN entries included, for meter `rowId`. */
  function AfterSaveWithNaN(prices: seq<PriceRow>, rowId: int, kwargs: seq<(string, Option<real>)>): seq<PriceRow> {
    OtherMeters(prices, rowId) + PriceRows(rowId, kwargs)
  }

  /** Replaces a meter's price rows by the arguments as given. */
  method SaveUnitPrice(db: Database, rowId: int, kwargs: seq<(string, Option<real>)>)
    requires db.Valid()
    modifies db
    ensures db.Valid()
    ensures db.prices == AfterSaveWithNaN(old(db.prices), rowId, kwargs)
    ensures db.meters == old(db.meters) && db.usage == old(db.usage)
  {
    db.prices := OtherMeters(db.prices, rowId) + PriceRows(rowId, kwargs);
  }

  /**
   * After saving, every rate reads back as the first argument of its name
   * when that is a number, and as its default when it is NaN or absent.
   */
  lemma SaveThenGetUnitPrice(prices: seq<PriceRow>, rowId: int, kwargs: seq<(string, Option<real>)>)
    ensures GetUnitPrice(AfterSaveWithNaN(prices, rowId, kwargs), rowId) == ResolvedTable(DefaultNames, kwargs)
  {
    ReplacePrices(prices, rowId, kwargs, rowId);
    GetUnitPriceResolves(AfterSaveWithNaN(prices, rowId, kwargs), rowId);
  }

  /** Saving for one meter leaves every other meter's rates as they were. */
  lemma SaveKeepsOtherMeters(prices: seq<PriceRow>, rowId: int, kwargs: seq<(string, Option<real>)>, id: int)
    requires id != rowId
    ensures GetUnitPrice(AfterSaveWithNaN(prices, rowId, kwargs), id) == GetUnitPrice(prices, id)
  {
    ReplacePrices(prices, rowId, kwargs, id);
  }

  // ---------------------------------------------------------------------------
  // A worked example
  // ---------------------------------------------------------------------------

  /** Saturday 2024-06-15. */
  const ExampleDay: Date := Date(2024, 6, 15)

  /** Meter 1 uses 2 kWh at 10:00 and 1 kWh at 20:00; meter 2's reading is not selected. */
  const ExampleUsage: seq<UsageRow> :=
    [UsageRow(1, 2024, 6, 15, 10, 2.0), UsageRow(1, 2024, 6, 15, 20, 1.0), UsageRow(2, 2024, 6, 15, 12, 5.0)]

  const ExampleReadings: seq<Reading> := [Reading(2024, 6, 15, 10, 2.0), Reading(2024, 6, 15, 20, 1.0)]

  /** The query on the example day selects meter 1's two readings. */
  lemma ExampleSelection()
    ensures UsageInRange(ExampleUsage, 1, ExampleDay, ExampleDay) == ExampleReadings
  {
    var a, b, c := ExampleUsage[0], ExampleUsage[1], ExampleUsage[2];
    assert ExampleDay.Valid();
    assert a.DateOf() == ExampleDay && b.DateOf() == ExampleDay;
    UsageInRangeSnoc([], a, 1, ExampleDay, ExampleDay);
    UsageInRangeSnoc([a], b, 1, ExampleDay, ExampleDay);
    UsageInRangeSnoc([a, b], c, 1, ExampleDay, ExampleDay);
    assert [] + [a] == [a] && [a] + [b] == [a, b] && [a, b] + [c] == ExampleUsage;
  }

  lemma SumOfTwo(a: Reading, b: Reading, f: Filter)
    ensures Sum([a, b], f) == (if Keeps(f, a) then a.value else 0.0) + (if Keeps(f, b) then b.value else 0.0)
  {
    SumSnoc([], a, f);
    SumSnoc([a], b, f);
    assert [] + [a] == [a] && [a] + [b] == [a, b];
  }

  /** The 10:00 reading falls in the weekend plan's free window; nothing is in the night plan's. */
  lemma ExampleSums()
    ensures Sum(ExampleReadings, NotWeekendFree) == 1.0
    ensures Sum(ExampleReadings, NotNightFree) == 3.0
    ensures Sum(ExampleReadings, AllHours) == 3.0
    ensures Sum(ExampleReadings, ChargeDayHours) == 3.0
  {
    KnownWeekdays();
    var a, b := ExampleReadings[0], ExampleReadings[1];
    assert a.DateOf() == ExampleDay && b.DateOf() == ExampleDay;
    assert ExampleReadings == [a, b];
    SumOfTwo(a, b, NotWeekendFree);
    SumOfTwo(a, b, NotNightFree);
    SumOfTwo(a, b, AllHours);
    SumOfTwo(a, b, ChargeDayHours);
  }

  /** A table without rows for the meter resolves every rate to its default. */
  lemma NothingStoredGivesDefaults(n: RateName)
    requires n in AllRates
    ensures ResolvedRates(StoredPrices([], 1))[n] == DefaultPrice(n)
  {
  }

  /** The default rates, whatever map holds them. */
  predicate AtDefaults(rate: Rates) {
    forall n :: n in AllRates ==> n in rate && rate[n] == DefaultPrice(n)
  }

  lemma NothingStoredIsAtDefaults()
    ensures AtDefaults(ResolvedRates([]))
  {
    forall n | n in AllRates
      ensures ResolvedRates([])[n] == DefaultPrice(n)
    {
      NothingStoredGivesDefaults(n);
    }
  }

  /** The pre-GST costs in cents of the plans with hour windows, for one day's readings with the example's sums. */
  lemma ExampleWindowCosts(readings: seq<Reading>, rate: Rates)
    requires Sum(readings, NotWeekendFree) == 1.0 && Sum(readings, NotNightFree) == 3.0
    requires Sum(readings, AllHours) == 3.0 && Sum(readings, ChargeDayHours) == 3.0
    requires AtDefaults(rate)
    ensures PreTax(Weekend, readings, 1, rate) == 113.4
    ensures PreTax(Night, readings, 1, rate) == 180.6
    ensures PreTax(Charge, readings, 1, rate) == 174.9
  {
    assert rate[WeekendPrice] == 23.4 && rate[WeekendFixed] == 90.0;
    assert rate[NightPrice] == 30.2 && rate[NightFixed] == 90.0;
    assert rate[ChargeDayPrice] == 28.3 && rate[ChargeNightPrice] == 14.1 && rate[ChargeFixed] == 90.0;
  }

  /** The pre-GST costs in cents of the flat-rate plans, for one day's readings totalling 3 kWh. */
  lemma ExampleFlatCosts(readings: seq<Reading>, rate: Rates)
    requires Sum(readings, AllHours) == 3.0
    requires AtDefaults(rate)
    ensures PreTax(Broadband, readings, 1, rate) == 163.68
    ensures PreTax(Basic, readings, 1, rate) == 163.68
    ensures PreTax(Bach, readings, 1, rate) == 132.78
  {
    assert rate[BroadbandPrice] == 24.4 && rate[BroadbandLevy] == 0.16 && rate[BroadbandFixed] == 90.0;
    assert rate[BasicPrice] == 24.4 && rate[BasicLevy] == 0.16 && rate[BasicFixed] == 90.0;
    assert rate[BachPrice] == 44.1 && rate[BachLevy] == 0.16;
  }

  /** GST and rounding to the cent of the example's costs. */
  lemma ExampleRounding()
    ensures WithGst(113.4) == 1.30 && WithGst(180.6) == 2.08 && WithGst(163.68) == 1.88
    ensures WithGst(174.9) == 2.01 && WithGst(132.78) == 1.53
  {
    assert RoundHalfEven(130.41) == 130;
    assert RoundHalfEven(207.69) == 208;
    assert RoundHalfEven(188.232) == 188;
    assert RoundHalfEven(201.135) == 201;
    assert RoundHalfEven(152.697) == 153;
  }

  /**
   * The example bill: on the Saturday, with no stored prices, the bach plan
   * is cheapest and the weekend plan, which bills only the 20:00 kWh, next.
   */
  lemma ExampleBill()
    ensures GetTotalPrice(ExampleDay, ExampleDay, 1, ExampleUsage, [])
         == map[Weekend := 1.30, Night := 2.08, Broadband := 1.88, Charge := 2.01, Basic := 1.88, Bach := 1.53]
  {
    ExampleSelection();
    GetTotalPriceIsTotals(ExampleDay, ExampleDay, 1, ExampleUsage, []);
    ExampleTotals(Totals(ExampleReadings, 1, ResolvedRates([])));
  }

  lemma ExampleTotals(total: map<Plan, real>)
    requires total == Totals(ExampleReadings, 1, ResolvedRates([]))
    ensures total == map[Weekend := 1.30, Night := 2.08, Broadband := 1.88, Charge := 2.01, Basic := 1.88, Bach := 1.53]
  {
    var rate := ResolvedRates([]);
    ExampleSums();
    NothingStoredIsAtDefaults();
    ExampleWindowCosts(ExampleReadings, rate);
    ExampleFlatCosts(ExampleReadings, rate);
    ExampleRounding();
    forall p | p in AllPlans
      ensures total[p] == WithGst(PreTax(p, ExampleReadings, 1, rate))
    {
      TotalsAt(ExampleReadings, 1, rate, p);
    }
  }
}
