# Contact Energy usage and plan comparison, modelled in Dafny

Contact-usage downloads a Contact Energy customer's hourly electricity readings, keeps them in a local
sqlite file, and works out what the same usage would have cost on each of the retailer's plans. This project
models the core of that program:

- **The tariff engine.** It computes the pre-GST cost of each plan in cents from hourly readings
  `(year, month, day, hour, value)` and a dictionary of rates:
  - weekend: Saturday and Sunday 09:00–17:00 are free;
  - night: 21:00–24:00 is free;
  - broadband and basic: a flat price plus a levy;
  - charge: a day price from 07:00 to 21:00 and a night price otherwise;
  - bach: price plus levy, with no daily fee.

  Every plan except bach adds a daily fixed fee. Each cost gets 15 % GST and is rounded to the cent in dollars.
- **Two variants of that engine.**
  - `contact_energy/pricing.py` (module `Pricing`) counts the days from the first to the last reading. It
    drops every plan with a NaN (unset) rate. Its price table stores only the non-NaN entries it is given.
  - `contact_energy_price.py` (module `ContactEnergyPrice`) counts the days of the requested range. It always
    prices six plans and returns zeros when no reading is in range. It merges the stored rates over a built-in
    default table: a stored number wins, a stored NaN falls back to the default, and for repeated names the
    first row counts.
- **The local store** `contact_energy_local_db.py` (module `LocalDb`). It is modelled as a `Database` class
  with three tables held as sequences: meters, usage and prices. Its operations are:
  - get-or-create of a meter's ROWID;
  - listing the meter table;
  - the dates of a range that have no readings;
  - appending a fetch's readings.

Two shared modules support these. `Calendar` is a proleptic Gregorian calendar: day numbers, weekdays with
Monday = 0 as pandas' `dt.weekday` numbers them, and the next day. `Tariff` holds the plans, the rate names,
the hour windows, the cost formulas, an independent per-reading reference formula, and half-even rounding.
`Wrappers` holds `Option`.

Modelling choices:
- Money and kWh are exact `real`s.
- A NaN rate is `None`.
- A sqlite table that does not exist yet is an empty sequence. The queries of `contact_energy/pricing.py` and
  `contact_energy_price.py`, and the missing-dates query of `contact_energy_local_db.py`, catch the error of an
  absent table and return what the empty table would give. `get_account_contract_list` is the exception; see
  "## Left out".
- A meter's ROWID is its index in the meter table plus one, since rows are never deleted.
- A price table is a sequence of `(name, price)` pairs in row order.

With no reading in range, `contact_energy_price.py` returns 0 for every plan before any daily fee is added
(`contact_energy_price.py:77-84`, `:99-105`); the model follows this (`ContactEnergyPrice.GetTotalPrice`).

## Model

| member | source | states |
|---|---|---|
| Calendar.NextDay | contact_energy_local_db.py:47 | The day after a valid date is a valid date whose day number is one more: the one-day step of `date_range`. |
| Calendar.DayNumber | contact_energy/pricing.py:53 | Defines the day number of a (year, month, day) date: the days before its year, month and day. Date differences (`(end_date - start_date)` in days) are differences of day numbers; its order and injectivity on valid dates are stated by `Calendar.BeforeIsDayNumberOrder` and `Calendar.DayNumberInjective`. |
| Calendar.Weekday | contact_energy/pricing.py:56 | The weekday of a date, from 0 (Monday) to 6 (Sunday), as `dt.weekday` numbers it; `Calendar.KnownWeekdays` pins the numbering to known dates. |
| Calendar.DaysInRange | contact_energy_price.py:110 | Defines `(end_date - start_date).days + 1` as a difference of day numbers plus one. `ContactEnergyPrice.TotalIsResolvedPreTax` states that it is the day count each plan's fees use, and `ContactEnergyPrice.PricedRangeIsNonEmpty` that it is at least one whenever a reading is priced. |
| Calendar.DaysBeforeYearClosedForm | contact_energy_price.py:110 | The days before a year follow the Gregorian leap rule: 365 per year, plus a day every 4 years, minus every 100, plus every 400. |
| Calendar.KnownWeekdays | contact_energy/pricing.py:56 | 2024-06-15 is weekday 5 (Saturday) and 2024-06-17 is weekday 0 (Monday), the numbering the weekend window tests with `> 4`. |
| Calendar.BeforeIsDayNumberOrder | contact_energy_local_db.py:60-62 | Calendar order of valid dates is exactly the order of their day numbers. |
| Calendar.DayNumberInjective | contact_energy_local_db.py:60-61 | Two valid dates with the same day number are the same date, so a set difference of dates is a difference of days. |
| Tariff.KeyInjective | contact_energy_price.py:9-25 | Distinct rate names have distinct dictionary keys. |
| Tariff.WeekendIsFree | contact_energy/pricing.py:56-57 | Defines the weekend window: the reading's weekday is above 4 (Saturday or Sunday) and its hour lies in [9, 17). |
| Tariff.NightIsFree | contact_energy/pricing.py:61 | Defines the night window: the hour is 21 or later. |
| Tariff.ChargeIsDay | contact_energy/pricing.py:69 | Defines the charge plan's day hours: the hour lies in [7, 21). |
| Tariff.Sum | contact_energy/pricing.py:59 | Defines the windowed usage sum `usage.loc[mask, 'value'].sum()`: the values of the readings the window keeps, 0 for no reading. `Tariff.SumAppend` and `Tariff.SumDayNightSplit` state how it splits. |
| Tariff.EnergyCost | contact_energy/pricing.py:58-77 | Defines each plan's usage term as both pricing modules write it (`contact_energy_price.py:114-136` has the same formulas plus bach); `Tariff.EnergyCostIsPerReading` relates it to the per-hour tariff. |
| Tariff.FixedCost | contact_energy/pricing.py:58-78 | Defines each plan's daily-fee term, the day count times the plan's `_fixed` rate, and none for bach (`contact_energy_price.py:135-136`). |
| Tariff.PreTax | contact_energy/pricing.py:58-78 | Defines a plan's pre-GST cost in cents as its usage term plus its daily-fee term; `Tariff.PreTaxSnoc` and `Tariff.ZeroUsageCostsFixedFees` state what it charges. |
| Tariff.EnergyCostIsPerReading | contact_energy/pricing.py:56-78 | Each plan's energy term equals billing every reading at its own hour's price. Weekend hours 9–17 on Saturday and Sunday cost nothing on the weekend plan, hours from 21 cost nothing on the night plan, the charge plan bills 7–21 at the day price and other hours at the night price, and the flat plans bill price plus levy. |
| Tariff.PreTaxSnoc | contact_energy/pricing.py:56-64 | One more reading raises a plan's cost by its value at that hour's price. A reading inside the weekend plan's free window, or the night plan's, leaves that plan's cost unchanged. |
| Tariff.ChargeDayNight | contact_energy/pricing.py:69-74 | The charge formula, all usage at the night price plus day usage at the day-night difference, equals day usage at the day price plus the other hours at the night price. |
| Tariff.SumDayNightSplit | contact_energy/pricing.py:69-72 | Total usage is day-hour usage plus night-hour usage. |
| Tariff.SumAppend | contact_energy/pricing.py:58-60 | A windowed usage sum over two runs of readings is the sum of the two sums. |
| Tariff.ZeroUsageCostsFixedFees | contact_energy_price.py:114-136 | With every reading zero, each plan costs exactly its daily fees (none for bach). |
| Tariff.RoundHalfEven | contact_energy/pricing.py:84 | The rounded integer is within 0.5 of the input, and on a tie it is even. |
| Tariff.RoundHalfEvenNearest | contact_energy/pricing.py:84 | No integer is nearer to the input than the half-even rounding. |
| Tariff.Round2 | contact_energy/pricing.py:84 | Rounding to two decimals gives a whole number of cents within half a cent of the input. |
| Tariff.WithGst | contact_energy/pricing.py:84 | The dollar total is within half a cent of the pre-GST cents times 1.15 divided by 100. |
| LocalDb.FindMeter | contact_energy_local_db.py:13-17 | The lookup gives the first row holding the (account, contract) pair, and nothing exactly when no row holds it. |
| LocalDb.GetOrCreate | contact_energy_local_db.py:9-33 | The returned ROWID names a row with the pair. A present pair leaves the table unchanged and returns its first row; an absent one is appended as the last row. |
| LocalDb.GetOrCreateTwice | contact_energy_local_db.py:20-33 | A second call with the same pair returns the same ROWID and adds no row. |
| LocalDb.GetOrCreateKeepsUnique | contact_energy_local_db.py:20-25 | Get-or-create never puts a pair in the meter table twice. |
| LocalDb.HasUsage | contact_energy_local_db.py:50-56 | Defines the dates the `select distinct year, month, day from usage … and meter_id = ?` query finds: some usage row of the meter carries that date. |
| LocalDb.MissingDates | contact_energy_local_db.py:46-62 | Defines `date_range(start, end).difference(exist_dates)` day by day: the dates from start to end, ascending, without usage of the meter. Its meaning is stated by `LocalDb.MissingDatesSound`, `LocalDb.MissingDatesComplete` and `LocalDb.MissingDatesAscending`. |
| LocalDb.MissingDatesSound | contact_energy_local_db.py:47-61 | Every date reported missing is valid, lies in [start, end], and has no usage row for the meter. |
| LocalDb.MissingDatesComplete | contact_energy_local_db.py:47-61 | Every valid date in [start, end] without a usage row for the meter is reported. |
| LocalDb.MissingDatesAscending | contact_energy_local_db.py:60-62 | The missing dates come out strictly ascending. |
| LocalDb.MissingDatesWithoutUsage | contact_energy_local_db.py:57-58 | With no usage for the meter, for instance with no usage table at all, the result is every day of the range: end − start + 1 dates, or none for an empty range. |
| LocalDb.MissingDatesAfterSave | contact_energy_local_db.py:70-75 | After rows are appended, the missing dates are the old ones minus the dates the new rows cover for that meter. |
| LocalDb.UsageRows | contact_energy_local_db.py:70-73 | The saved rows are the readings in order, one row each, every row tagged with the meter's ROWID. |
| LocalDb.StoredPrices | contact_energy/pricing.py:12-16 | Defines `select name, price from price where meter_id = ?`: the meter's (name, price) rows in table order; an absent table gives none. |
| LocalDb.OtherMeters | contact_energy_price.py:67-69 | Defines what `delete from price where meter_id = ?` leaves: the rows of every other meter, in order. |
| LocalDb.PriceRows | contact_energy_price.py:70-72 | The rows `to_sql` appends for the (name, price) entries: one row per entry, in order, each tagged with the meter's ROWID and holding the entry's name and price. |
| LocalDb.ReplacePrices | contact_energy_price.py:67-72 | After deleting a meter's price rows and appending new ones, that meter's stored rows are exactly the new entries and every other meter's are unchanged. |
| LocalDb.Database.constructor | contact_energy_local_db.py:38-41 | A new database file has empty meter, usage and price tables. |
| LocalDb.Database.GetAccountContractRowId | contact_energy_local_db.py:9-33 | The new meter table and the ROWID are those of get-or-create; the usage and price tables are unchanged; no pair is duplicated. |
| LocalDb.Database.GetAccountContractList | contact_energy_local_db.py:36-43 | Returns the meter table, empty when none has been created. |
| LocalDb.Database.GetUsageMissingDates | contact_energy_local_db.py:46-62 | The day-by-day loop returns exactly the missing dates of the usage table for [start, end]. |
| LocalDb.Database.SaveUsage | contact_energy_local_db.py:65-76 | `None` saves nothing. An empty fetch raises the missing-columns error and saves nothing. Otherwise every reading is appended after the existing rows, duplicates kept. |
| Pricing.PlanPreTaxNaN | contact_energy/pricing.py:58-78 | A plan's cost is NaN exactly when one of the rates it reads is NaN; otherwise it is the tariff formula on those rates. |
| Pricing.PlanPreTax | contact_energy/pricing.py:58-78 | Defines each of the five formulas on rates that may be NaN, NaN propagating through `+`, `-` and `*`. `Pricing.PlanPreTaxNaN` states when it is NaN and what it is otherwise. |
| Pricing.HasAllKeys | contact_energy/pricing.py:59-77 | Defines the condition under which the thirteen `unit_price[...]` lookups raise no `KeyError`: every rate the five formulas read has a key. `Pricing.GetTotalPrice` requires it (see its "## Left out" line), and `Pricing.SavedNaNNightPriceIsMissing` shows a save that breaks it. |
| Pricing.ReadRates | contact_energy/pricing.py:59-77 | The `unit_price[...]` lookups: a rate name is read exactly when the dictionary has its key, and it holds that key's value, NaN as `None`. The "## Left out" line for `Pricing.GetTotalPrice` says why every key must be present. |
| Pricing.FirstDayIsEarliest | contact_energy/pricing.py:51 | The start date is some reading's date, and no reading is earlier. |
| Pricing.LastDayIsLatest | contact_energy/pricing.py:52 | The end date is some reading's date, and no reading is later. |
| Pricing.TotalDays | contact_energy/pricing.py:50-53 | For non-empty usage, the day count is at least one. |
| Pricing.TotalDaysIgnoresInnerReadings | contact_energy/pricing.py:50-53 | Another reading dated within the current span leaves the day count unchanged, whatever the number of readings. |
| Pricing.OneDateOneDay | contact_energy/pricing.py:53 | Readings that all share one date span exactly one day. |
| Pricing.FirstDay | contact_energy/pricing.py:51 | Defines `dates.min()` as a day number; `Pricing.FirstDayIsEarliest` states that it is the earliest reading's. |
| Pricing.LastDay | contact_energy/pricing.py:52 | Defines `dates.max()` as a day number; `Pricing.LastDayIsLatest` states that it is the latest reading's. |
| Pricing.GetTotalPrice | contact_energy/pricing.py:40-85 | The result holds exactly those of the five plans whose rates are all set. Each holds its tariff cost over the readings' day span, with GST and rounded to the cent. |
| Pricing.AddGst | contact_energy/pricing.py:80-84 | The closing loop keeps exactly the plans whose pre-GST cost is not NaN, each taken to dollars with GST and rounded. |
| Pricing.NightPriceUnsetDropsNight | contact_energy/pricing.py:81-84 | With only the night price NaN, the result holds weekend, broadband, charge and basic and not night. |
| Pricing.AllRatesSetPricesAllPlans | contact_energy/pricing.py:58-84 | With every rate set, all five plans are priced; there is never a bach entry. |
| Pricing.DropNaN | contact_energy/pricing.py:34 | Defines `price.dropna()`: the entries whose price is a number, in order; `Pricing.DropNaNMembers` states it. |
| Pricing.PriceDict | contact_energy/pricing.py:17 | Defines `set_index('name').to_dict()['price']`, a later row overwriting an earlier one; `Pricing.PriceDictKeys` and `Pricing.PriceDictLastWins` state its keys and values. |
| Pricing.GetUnitPrice | contact_energy/pricing.py:9-21 | Defines get_unit_price as the dictionary of the meter's stored rows, `{}` when the table is absent. |
| Pricing.AfterSaveDroppingNaN | contact_energy/pricing.py:27-37 | Defines the price table after save_unit_price: the other meters' rows, then the non-NaN arguments as rows of this meter. |
| Pricing.DropNaNMembers | contact_energy/pricing.py:34 | `dropna` keeps exactly the entries whose price is a number. |
| Pricing.PriceDictKeys | contact_energy/pricing.py:17 | The dictionary's keys are exactly the names in the rows. |
| Pricing.PriceDictLastWins | contact_energy/pricing.py:17 | A name maps to the price of its last row. |
| Pricing.SaveUnitPrice | contact_energy/pricing.py:24-37 | The meter's price rows are replaced by the non-NaN arguments; other rows and tables are unchanged. |
| Pricing.SaveThenGetUnitPrice | contact_energy/pricing.py:9-36 | After a save with distinct names, reading the meter's prices gives each argument whose price is a number, and no argument whose price is NaN. |
| Pricing.SavedNamesAreArguments | contact_energy/pricing.py:33-36 | Every rate read back after a save is an argument of that save with a numeric price. |
| Pricing.SaveKeepsOtherMeters | contact_energy/pricing.py:30-36 | Saving one meter's prices leaves every other meter's prices as they were. |
| Pricing.SavedNaNNightPriceIsMissing | contact_energy/pricing.py:34 | After saving distinct arguments that give `night_price` as NaN, the meter's dictionary lacks a key get_total_price reads, so get_total_price raises `KeyError` instead of leaving out the night plan. |
| ContactEnergyPrice.DefaultIndex | contact_energy_price.py:9-25 | Every rate name has a row in the default table. |
| ContactEnergyPrice.DefaultNamesDistinct | contact_energy_price.py:9-25 | No rate name appears twice in the default table. |
| ContactEnergyPrice.DefaultPrice | contact_energy_price.py:9-25 | Defines the built-in default price of each of the fifteen rates. |
| ContactEnergyPrice.DefaultTable | contact_energy_price.py:26-27 | Defines the default frame: one (key, default price) row per rate, in the dictionary's order. `ContactEnergyPrice.DefaultTableResolves` states its distinct names. |
| ContactEnergyPrice.LeftJoin | contact_energy_price.py:54-55 | Defines the left merge: for each default row in order, one row per stored row of its name, or one with NaN when none. |
| ContactEnergyPrice.CombineFirst | contact_energy_price.py:56 | Defines `combine_first`: each joined row's stored price where it is a number, else its default. |
| ContactEnergyPrice.DropDuplicates | contact_energy_price.py:57 | Defines `drop_duplicates(subset='name')` with `keep='first'`: each name's first row, in order. |
| ContactEnergyPrice.GetUnitPrice | contact_energy_price.py:30-58 | Defines get_unit_price: the default table when the meter stores nothing, else the merge pipeline. `ContactEnergyPrice.GetUnitPriceResolves` states its result. |
| ContactEnergyPrice.MatchingFirst | contact_energy_price.py:54-55 | The left join lists a name's stored rows in table order, so its first match is the first stored row with that name. |
| ContactEnergyPrice.MergeResolves | contact_energy_price.py:54-57 | For distinct default names, the left join, `combine_first` and `drop_duplicates(keep='first')` leave one row per default name, in default order, holding the resolved price. |
| ContactEnergyPrice.DefaultTableResolves | contact_energy_price.py:9-27 | The default table has distinct names, and merging stored rows over it resolves every rate name in default order. |
| ContactEnergyPrice.GetUnitPriceResolves | contact_energy_price.py:30-58 | With or without stored rows, the resolved table has the fifteen default names in default order. Each name holds its first stored number; if none, or that row is NaN, it holds the default. Stored names outside the defaults are dropped. |
| ContactEnergyPrice.ResolvedIsFirstStored | contact_energy_price.py:56-57 | A rate's resolved value is its first stored row's price when that is a number, else the default, whatever later rows hold. |
| ContactEnergyPrice.ResolvedUnstored | contact_energy_price.py:54-56 | A rate the meter has not stored resolves to its default. |
| ContactEnergyPrice.NothingStoredIsAtDefaults | contact_energy_price.py:42-45 | A meter without stored rows gets the default table's rates. |
| ContactEnergyPrice.UnitPriceDictResolves | contact_energy_price.py:106-108 | The dictionary built from the resolved table has every rate key, with the resolved value. |
| ContactEnergyPrice.ResolvedRates | contact_energy_price.py:107 | The resolved rates include every rate of every plan, so no key is missing. |
| ContactEnergyPrice.TableDict | contact_energy_price.py:108 | Defines `dict(zip(name, price))`, a later row overwriting an earlier one; `ContactEnergyPrice.UnitPriceDictResolves` states its contents. |
| ContactEnergyPrice.RatesOf | contact_energy_price.py:114-136 | Reading the dictionary by the fifteen rate keys gives rates that include every rate of every plan. |
| ContactEnergyPrice.UnitPriceRates | contact_energy_price.py:106-108 | The rates read from the dictionary are the resolved rates. |
| ContactEnergyPrice.InRange | contact_energy_price.py:88-93 | Defines the query's row filter: the meter's rows whose valid date lies between the two valid bounds, both included. |
| ContactEnergyPrice.UsageInRange | contact_energy_price.py:88-93 | Defines the selected readings in table order; `ContactEnergyPrice.UsageInRangeMembers` states which they are. |
| ContactEnergyPrice.UsageInRangeMembers | contact_energy_price.py:88-93 | A reading is selected exactly when it comes from a row of the meter whose date lies between the start and end dates. |
| ContactEnergyPrice.Totals | contact_energy_price.py:138-139 | Totals are computed for exactly the six plans. |
| ContactEnergyPrice.GetTotalPrice | contact_energy_price.py:76-105 | The result always has the six plans, and with no reading in range each is 0. |
| ContactEnergyPrice.TotalIsResolvedPreTax | contact_energy_price.py:106-139 | With readings in range, each of the six plans costs its tariff formula over the range's days (end − start + 1) at the resolved rates, with GST and rounded. |
| ContactEnergyPrice.PricedRangeIsNonEmpty | contact_energy_price.py:88-110 | When a reading is priced, the range spans at least one day and holds every selected reading's date. |
| ContactEnergyPrice.SaveUnitPrice | contact_energy_price.py:61-73 | The meter's price rows are replaced by the arguments as given, NaN included; other rows and tables are unchanged. |
| ContactEnergyPrice.AfterSaveWithNaN | contact_energy_price.py:67-72 | Defines the price table after save_unit_price: the other meters' rows, then every argument as a row of this meter, NaN included. |
| ContactEnergyPrice.SaveThenGetUnitPrice | contact_energy_price.py:30-73 | After a save, reading the meter's prices gives the defaults merged with the saved arguments. |
| ContactEnergyPrice.SaveKeepsOtherMeters | contact_energy_price.py:67-72 | Saving one meter's prices leaves every other meter's resolved prices as they were. |
| ContactEnergyPrice.ExampleSelection | contact_energy_price.py:88-93 | On 2024-06-15, meter 1's two readings are selected and meter 2's is not. |
| ContactEnergyPrice.ExampleSums | contact_energy_price.py:112-128 | On that Saturday, the 10:00 reading is free on the weekend plan; neither reading is in the night plan's free hours; both are day-hours on the charge plan. |
| ContactEnergyPrice.ExampleWindowCosts | contact_energy_price.py:114-130 | At the default rates for one day, the weekend, night and charge pre-GST costs are 113.4, 180.6 and 174.9 cents. |
| ContactEnergyPrice.ExampleFlatCosts | contact_energy_price.py:121-136 | At the default rates for one day of 3 kWh, the broadband, basic and bach pre-GST costs are 163.68, 163.68 and 132.78 cents. |
| ContactEnergyPrice.ExampleRounding | contact_energy_price.py:138-139 | Those costs come to $1.30, $2.08, $1.88, $2.01 and $1.53 with GST. |
| ContactEnergyPrice.ExampleBill | contact_energy_price.py:76-139 | The example day's bill holds weekend 1.30, night 2.08, broadband 1.88, charge 2.01, basic 1.88 and bach 1.53. |

## Left out

- sqlite itself: SQL text, connections, transactions and the existence test of the price table are modelled as
  in-memory sequences, and an absent table as an empty one.
- pandas mechanics: dtype conversion, data-frame copies and column order. The columns that `get_total_price`
  adds to the caller's usage frame (`date`, `weekend_is_free`, …) are not modelled, because they are visible to
  the caller only as a side effect on its frame.
- Logging calls, which have no effect on results.
- IEEE floating point: money and kWh are exact reals, and NaN is `None`. Python's `round` on the float product
  is modelled as exact half-even rounding of the real product.
- NaN or non-numeric usage values: readings carry real values.
- Date strings and their parsing: dates are (year, month, day) triples in the proleptic Gregorian calendar, from
  year 1 on. sqlite's `date(printf(...))` normalises out-of-range days, so such a usage row can be selected, and
  then `pd.to_datetime` raises on the rebuilt date or on an invalid bound (`contact_energy_price.py:110-111`,
  `contact_energy_local_db.py:60`). The model instead treats a usage row with an invalid date, or an invalid range
  bound, as selecting nothing, so that exception becomes a quiet empty result.
- Pricing.GetTotalPrice: three preconditions stand for the errors `get_total_price` of `contact_energy/pricing.py`
  raises: empty usage (a NaT day count), a reading with an invalid date (`pd.to_datetime` raises, lines 50 and 55)
  and a missing rate key (`KeyError`). A NaN given to `save_unit_price` is dropped before it is stored (line 34),
  so `get_unit_price` then lacks that key and `get_total_price` raises `KeyError` rather than leaving the plan out
  (`Pricing.SavedNaNNightPriceIsMissing`); the plan-omission path is reached only from a dictionary that carries
  NaN itself.
- LocalDb.Database.GetAccountContractList: returns the meter table, as the function evidently intends. As written,
  `contact_energy_local_db.py:39` passes a DBAPI `sqlite3` connection to `pd.read_sql_table`, which accepts only
  an SQLAlchemy connectable and raises `NotImplementedError` (or `ValueError` for an absent table). Neither is the
  `pd.errors.DatabaseError` caught at line 40, so the call as written raises whatever the table holds. The model
  does not capture that failure.
- LocalDb.Database.GetUsageMissingDates: requires valid start and end dates, since `date_range` rejects
  unparseable ones.
- The order of Python dictionaries: results are maps, so plan order in the returned dictionary is not modelled.
- `contact_energy/aws_lambda.py`: HTTP login, subprocess calls and random sleeps are not part of this model. A
  fetch result enters only as the `Option<seq<Reading>>` that `LocalDb.Database.SaveUsage` receives.
- `main.py`, with its web wizard, port scan, current-date check and fetch loop, is not part of this model.
- `post_pyinstaller.py` and `contact_energy_analysis.py` are not part of this model.
