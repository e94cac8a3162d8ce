/**
 * The local sqlite store `contact_energy.db`, kept in memory: a meter table
 * of (account number, contract id) rows, an append-only usage table of hourly
 * readings per meter, and the price table of per-meter rate overrides.
 *
 * A table that sqlite has not created yet is modelled as an empty sequence:
 * the queries of contact_energy_local_db.py, contact_energy/pricing.py and
 * contact_energy_price.py read it like any other empty table.
 */
module LocalDb {
  import opened Wrappers
  import opened Calendar
  import opened Tariff

  /** A meter row; its sqlite ROWID is its position plus one (rows are never deleted). */
  datatype MeterRow = MeterRow(accountNumber: string, contractId: string)

  /** A row of the usage table. */
  datatype UsageRow = UsageRow(meterId: int, year: int, month: int, day: int, hour: int, value: real) {
    function DateOf(): Date {
      Date(year, month, day)
    }

    function ToReading(): Reading {
      Reading(year, month, day, hour, value)
    }
  }

  /** A row of the price table; `None` is a SQL NULL. */
  datatype PriceRow = PriceRow(meterId: int, name: string, price: Option<real>)

  /** What `save_usage` did: saved the rows, gave up on `None`, or hit a frame without columns. */
  datatype SaveStatus = Saved | Abandoned | MissingColumns

  // ---------------------------------------------------------------------------
  // Meters
  // ---------------------------------------------------------------------------

  /** The index of the first meter row holding the pair (the lowest ROWID), if any. */
  function FindMeter(meters: seq<MeterRow>, account: string, contract: string): (r: Option<nat>)
    ensures r.Some? ==> r.value < |meters| && meters[r.value] == MeterRow(account, contract)
    ensures r.Some? ==> forall j :: 0 <= j < r.value ==> meters[j] != MeterRow(account, contract)
    ensures r.None? <==> forall j :: 0 <= j < |meters| ==> meters[j] != MeterRow(account, contract)
  {
    if meters == [] then None
    else
      var earlier := FindMeter(meters[..|meters| - 1], account, contract);
      if earlier.Some? then earlier
      else if meters[|meters| - 1] == MeterRow(account, contract) then Some(|meters| - 1)
      else None
  }

  /** No (account, contract) pair appears twice. */
  predicate UniquePairs(meters: seq<MeterRow>) {
    forall i, j :: 0 <= i < j < |meters| ==> meters[i] != meters[j]
  }

  /**
   * Get-or-create: the meter table afterwards and the ROWID of the pair.
   * A missing pair is appended before the table is queried again.
   */
  function GetOrCreate(meters: seq<MeterRow>, account: string, contract: string): (res: (seq<MeterRow>, int))
    ensures 1 <= res.1 <= |res.0| && res.0[res.1 - 1] == MeterRow(account, contract)
    ensures FindMeter(meters, account, contract).Some? ==>
              res.0 == meters && res.1 == FindMeter(meters, account, contract).value + 1
    ensures FindMeter(meters, account, contract).None? ==>
              res.0 == meters + [MeterRow(account, contract)] && res.1 == |meters| + 1
  {
    var table := if FindMeter(meters, account, contract).None? then meters + [MeterRow(account, contract)] else meters;
    assert table[..|table| - 1] == meters || table == meters;
    var found := FindMeter(table, account, contract);
    (table, found.value + 1)
  }

  /** A second get-or-create of the same pair returns the same ROWID and adds nothing. */
  lemma GetOrCreateTwice(meters: seq<MeterRow>, account: string, contract: string)
    ensures var (table, rowId) := GetOrCreate(meters, account, contract);
            GetOrCreate(table, account, contract) == (table, rowId)
  {
    var (table, rowId) := GetOrCreate(meters, account, contract);
    if FindMeter(meters, account, contract).None? {
      assert table[..|table| - 1] == meters;
    }
  }

  /** Get-or-create never introduces a duplicate pair. */
  lemma GetOrCreateKeepsUnique(meters: seq<MeterRow>, account: string, contract: string)
    requires UniquePairs(meters)
    ensures UniquePairs(GetOrCreate(meters, account, contract).0)
  {
  }

  // ---------------------------------------------------------------------------
  // Usage
  // ---------------------------------------------------------------------------

  /** Some usage row of meter `rowId` is dated `d`. */
  predicate HasUsage(usage: seq<UsageRow>, rowId: int, d: Date) {
    exists i :: 0 <= i < |usage| && usage[i].meterId == rowId && usage[i].DateOf() == d
  }

  /** The days from `from` to `end`, ascending, that have no usage row of meter `rowId`. */
  function MissingDates(usage: seq<UsageRow>, rowId: int, from: Date, end: Date): seq<Date>
    requires from.Valid()
    decreases DayNumber(end) - DayNumber(from)
  {
    if DayNumber(from) > DayNumber(end) then []
    else
      (if HasUsage(usage, rowId, from) then [] else [from])
      + MissingDates(usage, rowId, NextDay(from), end)
  }

  /** One step of the scan: the day `from` is reported or not, then the scan goes on from the next day. */
  lemma MissingDatesStep(usage: seq<UsageRow>, rowId: int, before: seq<Date>, from: Date, end: Date)
    requires from.Valid() && DayNumber(from) <= DayNumber(end)
    ensures before + MissingDates(usage, rowId, from, end)
         == (before + if HasUsage(usage, rowId, from) then [] else [from]) + MissingDates(usage, rowId, NextDay(from), end)
  {
  }

  /** Every returned date lies in the range, is a real date and has no usage row. */
  lemma {:induction false} MissingDatesSound(usage: seq<UsageRow>, rowId: int, from: Date, end: Date)
    requires from.Valid()
    ensures forall d :: d in MissingDates(usage, rowId, from, end) ==>
              d.Valid() && DayNumber(from) <= DayNumber(d) <= DayNumber(end) && !HasUsage(usage, rowId, d)
    decreases DayNumber(end) - DayNumber(from)
  {
    if DayNumber(from) <= DayNumber(end) {
      MissingDatesSound(usage, rowId, NextDay(from), end);
    }
  }

  /** Every date of the range without a usage row is returned. */
  lemma {:induction false} MissingDatesComplete(usage: seq<UsageRow>, rowId: int, from: Date, end: Date, d: Date)
    requires from.Valid() && d.Valid()
    requires DayNumber(from) <= DayNumber(d) <= DayNumber(end)
    requires !HasUsage(usage, rowId, d)
    ensures d in MissingDates(usage, rowId, from, end)
    decreases DayNumber(end) - DayNumber(from)
  {
    if DayNumber(d) == DayNumber(from) {
      DayNumberInjective(d, from);
    } else {
      MissingDatesComplete(usage, rowId, NextDay(from), end, d);
    }
  }

  /** Each date is later than the one before it. */
  predicate Chronological(ds: seq<Date>) {
    forall i :: 0 < i < |ds| ==> Before(ds[i - 1], ds[i])
  }

  /** No returned date is earlier than `from`. */
  lemma {:induction false} MissingDatesFrom(usage: seq<UsageRow>, rowId: int, from: Date, end: Date)
    requires from.Valid()
    ensures forall d :: d in MissingDates(usage, rowId, from, end) ==> d == from || Before(from, d)
    decreases DayNumber(end) - DayNumber(from)
  {
    if DayNumber(from) <= DayNumber(end) {
      NextDayAfter(from);
      MissingDatesFrom(usage, rowId, NextDay(from), end);
    }
  }

  /** The dates come out in strictly ascending order. */
  lemma {:induction false} MissingDatesAscending(usage: seq<UsageRow>, rowId: int, from: Date, end: Date)
    requires from.Valid()
    ensures Chronological(MissingDates(usage, rowId, from, end))
    decreases DayNumber(end) - DayNumber(from)
  {
    if DayNumber(from) <= DayNumber(end) {
      var next := NextDay(from);
      var head: seq<Date> := if HasUsage(usage, rowId, from) then [] else [from];
      var rest := MissingDates(usage, rowId, next, end);
      MissingDatesAscending(usage, rowId, next, end);
      var m := head + rest;
      assert m == MissingDates(usage, rowId, from, end);
      if head != [] && rest != [] {
        MissingDatesFrom(usage, rowId, next, end);
        NextDayAfter(from);
        assert rest[0] in rest;
        assert m[1] == rest[0];
      }
      forall i | |head| < i < |m| ensures Before(m[i - 1], m[i]) {
        var k := i - |head|;
        assert 0 < k < |rest|;
        assert m[i - 1] == rest[k - 1];
        assert m[i] == rest[k];
      }
    }
  }

  /** A meter without usage rows (or no usage table at all) misses every day of the range. */
  lemma {:induction false} MissingDatesWithoutUsage(usage: seq<UsageRow>, rowId: int, from: Date, end: Date)
    requires from.Valid()
    requires forall i :: 0 <= i < |usage| ==> usage[i].meterId != rowId
    ensures |MissingDates(usage, rowId, from, end)| == if DayNumber(from) <= DayNumber(end) then DayNumber(end) - DayNumber(from) + 1 else 0
    decreases DayNumber(end) - DayNumber(from)
  {
    if DayNumber(from) <= DayNumber(end) {
      MissingDatesWithoutUsage(usage, rowId, NextDay(from), end);
    }
  }

  /** The dates of `ds` that `added` has no usage row of meter `rowId` for. */
  function StillMissing(ds: seq<Date>, added: seq<UsageRow>, rowId: int): seq<Date>
  {
    if ds == [] then []
    else (if HasUsage(added, rowId, ds[0]) then [] else [ds[0]]) + StillMissing(ds[1..], added, rowId)
  }

  lemma HasUsageAppend(usage: seq<UsageRow>, added: seq<UsageRow>, rowId: int, d: Date)
    ensures HasUsage(usage + added, rowId, d) <==> HasUsage(usage, rowId, d) || HasUsage(added, rowId, d)
  {
    var all := usage + added;
    if HasUsage(usage, rowId, d) {
      var i :| 0 <= i < |usage| && usage[i].meterId == rowId && usage[i].DateOf() == d;
      assert all[i] == usage[i];
    }
    if HasUsage(added, rowId, d) {
      var i :| 0 <= i < |added| && added[i].meterId == rowId && added[i].DateOf() == d;
      assert all[|usage| + i] == added[i];
    }
    if HasUsage(all, rowId, d) {
      var i :| 0 <= i < |all| && all[i].meterId == rowId && all[i].DateOf() == d;
      if i >= |usage| {
        assert added[i - |usage|] == all[i];
      }
    }
  }

  /**
   * Re-running the detector after saving readings: the dates now reported are
   * the earlier ones minus exactly those the saved rows cover.
   */
  lemma {:induction false} MissingDatesAfterSave(usage: seq<UsageRow>, added: seq<UsageRow>, rowId: int, from: Date, end: Date)
    requires from.Valid()
    ensures MissingDates(usage + added, rowId, from, end)
         == StillMissing(MissingDates(usage, rowId, from, end), added, rowId)
    decreases DayNumber(end) - DayNumber(from)
  {
    if DayNumber(from) <= DayNumber(end) {
      HasUsageAppend(usage, added, rowId, from);
      MissingDatesAfterSave(usage, added, rowId, NextDay(from), end);
      var rest := MissingDates(usage, rowId, NextDay(from), end);
      if !HasUsage(usage, rowId, from) {
        assert ([from] + rest)[0] == from && ([from] + rest)[1..] == rest;
      } else {
        assert [] + rest == rest;
      }
    }
  }

  /** The rows `save_usage` appends: each reading projected onto the columns, tagged with the meter. */
  function UsageRows(rowId: int, readings: seq<Reading>): (rows: seq<UsageRow>)
    ensures |rows| == |readings|
    ensures forall i :: 0 <= i < |rows| ==> rows[i].meterId == rowId && rows[i].ToReading() == readings[i]
  {
    if readings == [] then []
    else
      var r := readings[0];
      [UsageRow(rowId, r.year, r.month, r.day, r.hour, r.value)] + UsageRows(rowId, readings[1..])
  }

  // ---------------------------------------------------------------------------
  // Prices (the table both pricing modules read and replace)
  // ---------------------------------------------------------------------------

  /** `select name, price from price where meter_id = ?`, in table order. */
  function StoredPrices(prices: seq<PriceRow>, rowId: int): seq<(string, Option<real>)>
  {
    if prices == [] then []
    else
      var last := prices[|prices| - 1];
      StoredPrices(prices[..|prices| - 1], rowId) + (if last.meterId == rowId then [(last.name, last.price)] else [])
  }

  /** What `delete from price where meter_id = ?` leaves. */
  function OtherMeters(prices: seq<PriceRow>, rowId: int): seq<PriceRow>
  {
    if prices == [] then []
    else
      var last := prices[|prices| - 1];
      OtherMeters(prices[..|prices| - 1], rowId) + (if last.meterId != rowId then [last] else [])
  }

  /** The rows appended for the (name, price) entries of one meter. */
  function PriceRows(rowId: int, entries: seq<(string, Option<real>)>): (rows: seq<PriceRow>)
    ensures |rows| == |entries|
    ensures forall i :: 0 <= i < |rows| ==> rows[i] == PriceRow(rowId, entries[i].0, entries[i].1)
  {
    if entries == [] then []
    else
      var last := entries[|entries| - 1];
      PriceRows(rowId, entries[..|entries| - 1]) + [PriceRow(rowId, last.0, last.1)]
  }

  lemma StoredPricesSnoc(prices: seq<PriceRow>, row: PriceRow, id: int)
    ensures StoredPrices(prices + [row], id)
         == StoredPrices(prices, id) + (if row.meterId == id then [(row.name, row.price)] else [])
  {
    assert (prices + [row])[..|prices|] == prices;
  }

  lemma OtherMetersSnoc(prices: seq<PriceRow>, row: PriceRow, rowId: int)
    ensures OtherMeters(prices + [row], rowId) == OtherMeters(prices, rowId) + (if row.meterId != rowId then [row] else [])
  {
    assert (prices + [row])[..|prices|] == prices;
  }

  lemma PriceRowsSnoc(rowId: int, entries: seq<(string, Option<real>)>, e: (string, Option<real>))
    ensures PriceRows(rowId, entries + [e]) == PriceRows(rowId, entries) + [PriceRow(rowId, e.0, e.1)]
  {
    assert (entries + [e])[..|entries|] == entries;
  }

  lemma {:induction false} StoredPricesAppend(a: seq<PriceRow>, b: seq<PriceRow>, id: int)
    ensures StoredPrices(a + b, id) == StoredPrices(a, id) + StoredPrices(b, id)
    decreases |b|
  {
    if b == [] {
      assert a + b == a;
    } else {
      var init, last := b[..|b| - 1], b[|b| - 1];
      assert b == init + [last];
      assert a + b == (a + init) + [last];
      StoredPricesAppend(a, init, id);
      StoredPricesSnoc(a + init, last, id);
      StoredPricesSnoc(init, last, id);
    }
  }

  lemma {:induction false} StoredPricesOfOtherMeters(prices: seq<PriceRow>, rowId: int, id: int)
    ensures StoredPrices(OtherMeters(prices, rowId), id) == if id == rowId then [] else StoredPrices(prices, id)
  {
    if prices != [] {
      var init, last := prices[..|prices| - 1], prices[|prices| - 1];
      assert prices == init + [last];
      StoredPricesOfOtherMeters(init, rowId, id);
      OtherMetersSnoc(init, last, rowId);
      StoredPricesSnoc(init, last, id);
      if last.meterId != rowId {
        StoredPricesSnoc(OtherMeters(init, rowId), last, id);
      } else {
        assert OtherMeters(init, rowId) + [] == OtherMeters(init, rowId);
      }
    }
  }

  lemma {:induction false} StoredPricesOfPriceRows(rowId: int, entries: seq<(string, Option<real>)>, id: int)
    ensures StoredPrices(PriceRows(rowId, entries), id) == if id == rowId then entries else []
  {
    if entries != [] {
      var init, last := entries[..|entries| - 1], entries[|entries| - 1];
      assert entries == init + [last];
      StoredPricesOfPriceRows(rowId, init, id);
      PriceRowsSnoc(rowId, init, last);
      StoredPricesSnoc(PriceRows(rowId, init), PriceRow(rowId, last.0, last.1), id);
    }
  }

  /**
   * Replacing a meter's price rows: afterwards that meter's stored entries are
   * exactly the new ones, and every other meter's are what they were.
   */
  lemma ReplacePrices(prices: seq<PriceRow>, rowId: int, entries: seq<(string, Option<real>)>, id: int)
    ensures StoredPrices(OtherMeters(prices, rowId) + PriceRows(rowId, entries), id)
         == if id == rowId then entries else StoredPrices(prices, id)
  {
    StoredPricesAppend(OtherMeters(prices, rowId), PriceRows(rowId, entries), id);
    StoredPricesOfOtherMeters(prices, rowId, id);
    StoredPricesOfPriceRows(rowId, entries, id);
  }

  /** The sqlite file: the meter, usage and price tables. */
  class Database {
    var meters: seq<MeterRow>
    var usage: seq<UsageRow>
    var prices: seq<PriceRow>

    ghost predicate Valid()
      reads this
    {
      UniquePairs(meters)
    }

    /** A database file that has no tables yet. */
    constructor ()
      ensures Valid()
      ensures meters == [] && usage == [] && prices == []
    {
      meters, usage, prices := [], [], [];
    }

    /** The ROWID of the meter (account, contract), appending the pair when it is new. */
    method GetAccountContractRowId(accountNumber: string, contractId: string) returns (rowId: int)
      requires Valid()
      modifies this
      ensures Valid()
      ensures (meters, rowId) == GetOrCreate(old(meters), accountNumber, contractId)
      ensures usage == old(usage) && prices == old(prices)
    {
      if FindMeter(meters, accountNumber, contractId).None? {
        meters := meters + [MeterRow(accountNumber, contractId)];
      }
      var found := FindMeter(meters, accountNumber, contractId);
      rowId := found.value + 1;
      GetOrCreateKeepsUnique(old(meters), accountNumber, contractId);
    }

    /** The meter table (empty when it does not exist yet). */
    method GetAccountContractList() returns (table: seq<MeterRow>)
      ensures table == meters
    {
      table := meters;
    }

    /** The dates of [startDate, endDate] with no usage row of meter `rowId`, ascending. */
    method GetUsageMissingDates(startDate: Date, endDate: Date, rowId: int) returns (missing: seq<Date>)
      requires startDate.Valid() && endDate.Valid()
      ensures missing == MissingDates(usage, rowId, startDate, endDate)
    {
      var rows := usage;
      missing := [];
      var d := startDate;
      while DayNumber(d) <= DayNumber(endDate)
        invariant d.Valid()
        invariant missing + MissingDates(rows, rowId, d, endDate) == MissingDates(rows, rowId, startDate, endDate)
        decreases DayNumber(endDate) - DayNumber(d)
      {
        MissingDatesStep(rows, rowId, missing, d, endDate);
        if !HasUsage(rows, rowId, d) {
          missing := missing + [d];
        }
        d := NextDay(d);
      }
    }

    /** Appends the readings of one fetch to the usage table; `None` (a failed fetch) saves nothing. */
    method SaveUsage(readings: Option<seq<Reading>>, rowId: int) returns (status: SaveStatus)
      requires Valid()
      modifies this
      ensures Valid()
      ensures meters == old(meters) && prices == old(prices)
      ensures readings.None? ==> status == Abandoned && usage == old(usage)
      ensures readings == Some([]) ==> status == MissingColumns && usage == old(usage)
      ensures readings.Some? && readings.value != [] ==>
                status == Saved && usage == old(usage) + UsageRows(rowId, readings.value)
    {
      if readings.None? {
        return Abandoned;
      }
      if readings.value == [] {
        return MissingColumns;
      }
      usage := usage + UsageRows(rowId, readings.value);
      status := Saved;
    }
  }
}
