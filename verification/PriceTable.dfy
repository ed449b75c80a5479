/** Canonical daily prices and the two policies that write them: the plain
    upsert of `save_symbol_prices` and the conflict-keeping historical save. */
module PriceTable {
  import opened Common
  import opened Sorting
  import opened RepairTables

  type PriceKey = (nat, Date)
  type Prices = map<PriceKey, DailyPrice>

  datatype DailyPrice = DailyPrice(value: Ohlcv, provider: nat)
  datatype Payload = Payload(tradeDate: Date, value: Ohlcv)
  datatype Observation = Observation(symbolId: nat, tradeDate: Date, value: Ohlcv, provider: nat, observedAt: Instant)

  function PayloadKey(p: Payload): Key { (p.tradeDate, 0, 0) }

  /** No row of `before` is gone or altered in `after`. */
  ghost predicate Extends(before: Prices, after: Prices) {
    forall k :: k in before ==> k in after && after[k] == before[k]
  }

  lemma ExtendsTransitive(a: Prices, b: Prices, c: Prices)
    requires Extends(a, b) && Extends(b, c)
    ensures Extends(a, c)
  {
  }

  function Observed(symbol: nat, rows: seq<Payload>, provider: nat, at: Instant): (o: seq<Observation>)
    ensures |o| == |rows|
    ensures forall i :: 0 <= i < |rows| ==>
              o[i] == Observation(symbol, rows[i].tradeDate, rows[i].value, provider, at)
  {
    seq(|rows|, i requires 0 <= i < |rows| => Observation(symbol, rows[i].tradeDate, rows[i].value, provider, at))
  }

  /** Two new rows for one day would break the (symbol, date) uniqueness of the table. */
  predicate BreaksUniqueness(table: Prices, symbol: nat, rows: seq<Payload>) {
    rows != [] &&
    (((symbol, rows[0].tradeDate) !in table
      && exists other :: other in rows[1..] && other.tradeDate == rows[0].tradeDate)
     || BreaksUniqueness(table, symbol, rows[1..]))
  }

  lemma {:induction false} DistinctNeverBreaks(table: Prices, symbol: nat, rows: seq<Payload>)
    requires DistinctKeys(rows, PayloadKey)
    ensures !BreaksUniqueness(table, symbol, rows)
  {
    if rows != [] {
      assert forall other :: other in rows[1..] ==> PayloadKey(other) != PayloadKey(rows[0]);
      DistinctNeverBreaks(table, symbol, rows[1..]);
    }
  }

  // ---- plain upsert ----------------------------------------------------

  function Upserted(table: Prices, symbol: nat, provider: nat, rows: seq<Payload>): Prices
    decreases |rows|
  {
    if rows == [] then table
    else
      var last := rows[|rows| - 1];
      Upserted(table, symbol, provider, rows[..|rows| - 1])
      [(symbol, last.tradeDate) := DailyPrice(last.value, provider)]
  }

  /** The upsert writes exactly the incoming days and leaves every other row alone. */
  lemma {:induction false} UpsertedRows(table: Prices, symbol: nat, provider: nat, rows: seq<Payload>, k: PriceKey)
    requires DistinctKeys(rows, PayloadKey)
    ensures var after := Upserted(table, symbol, provider, rows);
      && (forall p :: p in rows && k == (symbol, p.tradeDate) ==>
          k in after && after[k] == DailyPrice(p.value, provider))
      && ((forall p :: p in rows ==> k != (symbol, p.tradeDate)) ==>
            (k in after <==> k in table) && (k in table ==> after[k] == table[k]))
    decreases |rows|
  {
    if rows != [] {
      var front, last := rows[..|rows| - 1], rows[|rows| - 1];
      assert rows == front + [last];
      DistinctAppend(front, last, PayloadKey);
      UpsertedRows(table, symbol, provider, front, k);
      assert last in rows;
      forall p | p in rows && k == (symbol, p.tradeDate)
        ensures k in Upserted(table, symbol, provider, rows)
        ensures Upserted(table, symbol, provider, rows)[k] == DailyPrice(p.value, provider)
      {
        if p in front {
          assert PayloadKey(p) != PayloadKey(last);
        }
      }
    }
  }

  // ---- historical save -------------------------------------------------

  datatype SaveReport = SaveReport(inserted: nat, updated: nat, same: nat, conflict: nat, confirmed: seq<Date>)

  const NOTHING := SaveReport(0, 0, 0, 0, [])

  datatype Saved = Saved(table: Prices, report: SaveReport)

  /** One incoming row.  `before` are the rows found when the save began. */
  function SaveRow(before: Prices, acc: Saved, symbol: nat, provider: nat, mayUpdate: bool, p: Payload): Saved
    requires before.Keys <= acc.table.Keys
  {
    var k := (symbol, p.tradeDate);
    if k !in before then
      Saved(acc.table[k := DailyPrice(p.value, provider)],
            acc.report.(inserted := acc.report.inserted + 1, confirmed := acc.report.confirmed + [p.tradeDate]))
    else if acc.table[k].value == p.value then
      Saved(acc.table,
            acc.report.(same := acc.report.same + 1, confirmed := acc.report.confirmed + [p.tradeDate]))
    else if mayUpdate && acc.table[k].provider == provider then
      Saved(acc.table[k := acc.table[k].(value := p.value)],
            acc.report.(updated := acc.report.updated + 1, confirmed := acc.report.confirmed + [p.tradeDate]))
    else
      Saved(acc.table, acc.report.(conflict := acc.report.conflict + 1))
  }

  function SaveAll(before: Prices, symbol: nat, provider: nat, mayUpdate: bool, rows: seq<Payload>): (s: Saved)
    ensures before.Keys <= s.table.Keys
    decreases |rows|
  {
    if rows == [] then Saved(before, NOTHING)
    else SaveRow(before, SaveAll(before, symbol, provider, mayUpdate, rows[..|rows| - 1]),
                 symbol, provider, mayUpdate, rows[|rows| - 1])
  }

  lemma SaveAllNext(before: Prices, symbol: nat, provider: nat, mayUpdate: bool, rows: seq<Payload>, i: nat)
    requires i < |rows|
    ensures SaveAll(before, symbol, provider, mayUpdate, rows[..i + 1])
         == SaveRow(before, SaveAll(before, symbol, provider, mayUpdate, rows[..i]), symbol, provider, mayUpdate,
                    rows[i])
  {
    assert rows[..i + 1][..i] == rows[..i];
  }

  lemma ObservedNext(symbol: nat, rows: seq<Payload>, provider: nat, at: Instant, i: nat)
    requires i < |rows|
    ensures Observed(symbol, rows[..i + 1], provider, at)
         == Observed(symbol, rows[..i], provider, at)
             + [Observation(symbol, rows[i].tradeDate, rows[i].value, provider, at)]
  {
  }

  /** Every day named by the report has a canonical row of that symbol. */
  lemma {:induction false} ConfirmedHaveRows(before: Prices, symbol: nat, provider: nat, mayUpdate: bool,
                                             rows: seq<Payload>)
    ensures var s := SaveAll(before, symbol, provider, mayUpdate, rows);
      && (forall d :: d in s.report.confirmed ==> (symbol, d) in s.table)
      && (forall d :: d in s.report.confirmed ==> exists p :: p in rows && p.tradeDate == d)
    decreases |rows|
  {
    if rows != [] {
      var front := rows[..|rows| - 1];
      ConfirmedHaveRows(before, symbol, provider, mayUpdate, front);
      assert rows == front + [rows[|rows| - 1]];
      assert forall p :: p in front ==> p in rows;
      assert rows[|rows| - 1] in rows;
    }
  }

  /** Without an update policy no canonical row that existed is altered. */
  lemma {:induction false} HistoricalNeverAlters(before: Prices, symbol: nat, provider: nat, rows: seq<Payload>)
    ensures Extends(before, SaveAll(before, symbol, provider, false, rows).table)
    decreases |rows|
  {
    if rows != [] {
      HistoricalNeverAlters(before, symbol, provider, rows[..|rows| - 1]);
    }
  }

  /** A row that existed changes only under the policy, and then only if the
      same provider had written it. */
  lemma {:induction false} UpdatesStayWithProvider(before: Prices, symbol: nat, provider: nat, mayUpdate: bool,
                                                   rows: seq<Payload>, k: PriceKey)
    requires k in before
    ensures var after := SaveAll(before, symbol, provider, mayUpdate, rows).table;
      after[k].provider == before[k].provider
      && (after[k] != before[k] ==> mayUpdate && before[k].provider == provider && k.0 == symbol)
    decreases |rows|
  {
    if rows != [] {
      UpdatesStayWithProvider(before, symbol, provider, mayUpdate, rows[..|rows| - 1], k);
    }
  }

  lemma SaveOfNothing(before: Prices, symbol: nat, provider: nat, mayUpdate: bool)
    ensures SaveAll(before, symbol, provider, mayUpdate, []) == Saved(before, NOTHING)
  {
  }

  lemma SaveAllLast(before: Prices, symbol: nat, provider: nat, mayUpdate: bool, rows: seq<Payload>)
    requires rows != []
    ensures SaveAll(before, symbol, provider, mayUpdate, rows)
         == SaveRow(before, SaveAll(before, symbol, provider, mayUpdate, rows[..|rows| - 1]), symbol, provider,
                    mayUpdate, rows[|rows| - 1])
  {
  }

  /** The value the save leaves for one incoming row. */
  lemma {:induction false} SavedValue(before: Prices, symbol: nat, provider: nat, mayUpdate: bool, rows: seq<Payload>,
                                      p: Payload)
    requires DistinctKeys(rows, PayloadKey) && p in rows
    ensures var s := SaveAll(before, symbol, provider, mayUpdate, rows); var k := (symbol, p.tradeDate);
      && k in s.table
      && (k !in before ==> s.table[k] == DailyPrice(p.value, provider))
      && (p.tradeDate in s.report.confirmed <==> s.table[k].value == p.value)
    decreases |rows|
  {
    var front, last := rows[..|rows| - 1], rows[|rows| - 1];
    assert rows == front + [last];
    DistinctAppend(front, last, PayloadKey);
    ConfirmedHaveRows(before, symbol, provider, mayUpdate, front);
    SaveAllLast(before, symbol, provider, mayUpdate, rows);
    hide SaveAll;
    if p in front {
      assert PayloadKey(p) != PayloadKey(last);
      SavedValue(before, symbol, provider, mayUpdate, front, p);
    } else {
      assert forall q :: q in front ==> PayloadKey(q) != PayloadKey(p);
    }
  }

  /** The save leaves rows for exactly the days there were and the days that came in. */
  lemma {:induction false} SavedKeys(before: Prices, symbol: nat, provider: nat, mayUpdate: bool, rows: seq<Payload>,
                                     k: PriceKey)
    ensures k in SaveAll(before, symbol, provider, mayUpdate, rows).table <==>
              k in before || exists p :: p in rows && k == (symbol, p.tradeDate)
    decreases |rows|
  {
    if rows != [] {
      var front, last := rows[..|rows| - 1], rows[|rows| - 1];
      SavedKeys(before, symbol, provider, mayUpdate, front, k);
      assert rows == front + [last];
      assert last in rows && forall p :: p in rows <==> p in front || p == last;
    }
  }

  /** Rows in, rows accounted for: each incoming row has exactly one disposition. */
  lemma {:induction false} SaveCounts(before: Prices, symbol: nat, provider: nat, mayUpdate: bool, rows: seq<Payload>)
    ensures var r := SaveAll(before, symbol, provider, mayUpdate, rows).report;
      && r.inserted + r.updated + r.same + r.conflict == |rows|
      && |r.confirmed| + r.conflict == |rows|
      && (!mayUpdate ==> r.updated == 0)
    decreases |rows|
  {
    if rows != [] {
      SaveCounts(before, symbol, provider, mayUpdate, rows[..|rows| - 1]);
    }
  }

  /** The table grows by exactly the inserted rows. */
  lemma {:induction false} SaveGrows(before: Prices, symbol: nat, provider: nat, mayUpdate: bool, rows: seq<Payload>)
    requires DistinctKeys(rows, PayloadKey)
    ensures var s := SaveAll(before, symbol, provider, mayUpdate, rows);
      |s.table| == |before| + s.report.inserted
    decreases |rows|
  {
    if rows != [] {
      var front, last := rows[..|rows| - 1], rows[|rows| - 1];
      assert rows == front + [last];
      DistinctAppend(front, last, PayloadKey);
      SaveGrows(before, symbol, provider, mayUpdate, front);
      var k := (symbol, last.tradeDate);
      assert forall p :: p in front ==> PayloadKey(p) != PayloadKey(last);
      SavedKeys(before, symbol, provider, mayUpdate, front, k);
      RowGrows(before, SaveAll(before, symbol, provider, mayUpdate, front), symbol, provider, mayUpdate, last);
    }
  }

  lemma RowGrows(before: Prices, acc: Saved, symbol: nat, provider: nat, mayUpdate: bool, p: Payload)
    requires before.Keys <= acc.table.Keys
    requires (symbol, p.tradeDate) in acc.table ==> (symbol, p.tradeDate) in before
    ensures var s := SaveRow(before, acc, symbol, provider, mayUpdate, p);
      |s.table| - s.report.inserted == |acc.table| - acc.report.inserted
  {
    var k := (symbol, p.tradeDate);
    var s := SaveRow(before, acc, symbol, provider, mayUpdate, p);
    if k in before {
      assert s.table.Keys == acc.table.Keys;
    } else {
      assert s.table.Keys == acc.table.Keys + {k};
    }
    assert |s.table| == |s.table.Keys| && |acc.table| == |acc.table.Keys|;
  }

  /** The table has another price for the row's day. */
  function Differing(table: Prices, symbol: nat): Payload -> bool {
    (p: Payload) => (symbol, p.tradeDate) !in table || table[(symbol, p.tradeDate)].value != p.value
  }

  lemma RowKeepsOthers(before: Prices, acc: Saved, symbol: nat, provider: nat, mayUpdate: bool, p: Payload, d: Date)
    requires before.Keys <= acc.table.Keys && d != p.tradeDate
    ensures var table := SaveRow(before, acc, symbol, provider, mayUpdate, p).table;
      (symbol, d) in table <==> (symbol, d) in acc.table
    ensures var table := SaveRow(before, acc, symbol, provider, mayUpdate, p).table;
      (symbol, d) in acc.table ==> table[(symbol, d)] == acc.table[(symbol, d)]
  {
  }

  /** The conflicts are the rows whose day is left with another price. */
  lemma {:induction false} ConflictsCounted(before: Prices, symbol: nat, provider: nat, mayUpdate: bool,
                                            rows: seq<Payload>)
    requires DistinctKeys(rows, PayloadKey)
    ensures var s := SaveAll(before, symbol, provider, mayUpdate, rows);
      s.report.conflict == |Filter(rows, Differing(s.table, symbol))|
    decreases |rows|
  {
    if rows != [] {
      var front, last := rows[..|rows| - 1], rows[|rows| - 1];
      assert rows == front + [last];
      DistinctAppend(front, last, PayloadKey);
      ConflictsCounted(before, symbol, provider, mayUpdate, front);
      var acc := SaveAll(before, symbol, provider, mayUpdate, front);
      var table := SaveRow(before, acc, symbol, provider, mayUpdate, last).table;
      forall p | p in front ensures Differing(acc.table, symbol)(p) == Differing(table, symbol)(p) {
        assert PayloadKey(p) != PayloadKey(last);
        RowKeepsOthers(before, acc, symbol, provider, mayUpdate, last, p.tradeDate);
      }
      FilterSame(front, Differing(acc.table, symbol), Differing(table, symbol));
      FilterAppend(front, [last], Differing(table, symbol));
      LastConflicts(before, acc, symbol, provider, mayUpdate, last);
      hide SaveRow, Filter, Differing;
      SaveAllLast(before, symbol, provider, mayUpdate, rows);
    }
  }

  lemma LastConflicts(before: Prices, acc: Saved, symbol: nat, provider: nat, mayUpdate: bool, p: Payload)
    requires before.Keys <= acc.table.Keys
    ensures var s := SaveRow(before, acc, symbol, provider, mayUpdate, p);
      s.report.conflict == acc.report.conflict + |Filter([p], Differing(s.table, symbol))|
  {
  }

  /** What a save makes of a row that was there: it stays, unless the policy lets the same
      provider correct its price. */
  lemma {:induction false} SavedOver(before: Prices, symbol: nat, provider: nat, mayUpdate: bool, rows: seq<Payload>,
                                     p: Payload)
    requires DistinctKeys(rows, PayloadKey) && p in rows && (symbol, p.tradeDate) in before
    ensures var s := SaveAll(before, symbol, provider, mayUpdate, rows); var k := (symbol, p.tradeDate);
      k in s.table && s.table[k].provider == before[k].provider
      && s.table[k].value == if mayUpdate && before[k].provider == provider then p.value else before[k].value
    decreases |rows|
  {
    var front, last := rows[..|rows| - 1], rows[|rows| - 1];
    assert rows == front + [last];
    DistinctAppend(front, last, PayloadKey);
    var acc := SaveAll(before, symbol, provider, mayUpdate, front);
    if p in front {
      assert PayloadKey(p) != PayloadKey(last);
      SavedOver(before, symbol, provider, mayUpdate, front, p);
      RowKeepsOthers(before, acc, symbol, provider, mayUpdate, last, p.tradeDate);
    } else {
      assert forall q :: q in front ==> PayloadKey(q) != PayloadKey(p);
      OthersUntouched(before, symbol, provider, mayUpdate, front, p.tradeDate);
    }
  }

  lemma {:induction false} OthersUntouched(before: Prices, symbol: nat, provider: nat, mayUpdate: bool,
                                           rows: seq<Payload>, d: Date)
    requires (symbol, d) in before && forall p :: p in rows ==> p.tradeDate != d
    ensures var table := SaveAll(before, symbol, provider, mayUpdate, rows).table;
      (symbol, d) in table && table[(symbol, d)] == before[(symbol, d)]
    decreases |rows|
  {
    if rows != [] {
      var front := rows[..|rows| - 1];
      assert rows == front + [rows[|rows| - 1]];
      OthersUntouched(before, symbol, provider, mayUpdate, front, d);
      RowKeepsOthers(before, SaveAll(before, symbol, provider, mayUpdate, front), symbol, provider, mayUpdate,
                     rows[|rows| - 1], d);
    }
  }

  /** Two rows for one day that has no price yet break the uniqueness of the table. */
  lemma {:induction false} BreaksIff(table: Prices, symbol: nat, rows: seq<Payload>)
    ensures BreaksUniqueness(table, symbol, rows) <==>
        exists i, j :: 0 <= i < j < |rows| && rows[i].tradeDate == rows[j].tradeDate
                       && (symbol, rows[i].tradeDate) !in table
  {
    if rows != [] {
      BreaksIff(table, symbol, rows[1..]);
      if i, j :| 0 <= i < j < |rows| && rows[i].tradeDate == rows[j].tradeDate
                 && (symbol, rows[i].tradeDate) !in table
      {
        assert j > 0 && rows[j] == rows[1..][j - 1] && rows[j] in rows[1..];
        if i > 0 {
          assert rows[i] == rows[1..][i - 1];
        }
      }
      if BreaksUniqueness(table, symbol, rows[1..]) {
        var i, j :| 0 <= i < j < |rows[1..]| && rows[1..][i].tradeDate == rows[1..][j].tradeDate
                    && (symbol, rows[1..][i].tradeDate) !in table;
        assert rows[i + 1] == rows[1..][i] && rows[j + 1] == rows[1..][j];
      }
      if other :| other in rows[1..] && other.tradeDate == rows[0].tradeDate {
        var j :| 0 <= j < |rows[1..]| && rows[1..][j] == other;
        assert rows[j + 1] == other;
      }
    }
  }

  // ---- the repository --------------------------------------------------

  datatype SaveOutcome = Done(report: SaveReport) | UniqueViolation

  datatype UpsertOutcome = Written | UnknownSymbol | Violated

  class PriceRepository {
    var prices: Prices
    var observations: seq<Observation>

    constructor (prices: Prices)
      ensures this.prices == prices && observations == []
    {
      this.prices := prices;
      observations := [];
    }

    /** `save_symbol_prices`; `symbols` gives the symbol of each code.  A uniqueness
        violation is raised by the flush and undone with its savepoint. */
    method SaveSymbolPrices(symbols: map<nat, nat>, code: nat, rows: seq<Payload>, provider: nat, at: Instant)
      returns (outcome: UpsertOutcome)
      modifies this
      ensures outcome.UnknownSymbol? <==> code !in symbols
      ensures code in symbols ==>
                (outcome.Violated? <==> BreaksUniqueness(old(prices), symbols[code], SortBy(rows, PayloadKey)))
      ensures outcome.Written? ==>
                && prices == Upserted(old(prices), symbols[code], provider, SortBy(rows, PayloadKey))
                && observations == old(observations) + Observed(symbols[code], SortBy(rows, PayloadKey), provider, at)
      ensures !outcome.Written? ==> prices == old(prices) && observations == old(observations)
    {
      if code !in symbols {
        return UnknownSymbol;
      }
      var symbol := symbols[code];
      var incoming := SortBy(rows, PayloadKey);
      if BreaksUniqueness(prices, symbol, incoming) {
        return Violated;
      }
      var i := 0;
      while i < |incoming|
        invariant 0 <= i <= |incoming|
        invariant prices == Upserted(old(prices), symbol, provider, incoming[..i])
        invariant observations == old(observations)
      {
        assert incoming[..i + 1][..i] == incoming[..i];
        prices := prices[(symbol, incoming[i].tradeDate) := DailyPrice(incoming[i].value, provider)];
        i := i + 1;
      }
      assert incoming[..i] == incoming;
      observations := observations + Observed(symbol, incoming, provider, at);
      return Written;
    }

    /** The disposition of one incoming row of a historical save. */
    method SaveHistoricalRow(existing: Prices, before: SaveReport, symbol: nat, p: Payload, provider: nat,
                             mayUpdate: bool)
      returns (report: SaveReport)
      requires existing.Keys <= prices.Keys
      modifies this`prices
      ensures Saved(prices, report) == SaveRow(existing, Saved(old(prices), before), symbol, provider, mayUpdate, p)
    {
      var k := (symbol, p.tradeDate);
      report := before;
      if k !in existing {
        prices := prices[k := DailyPrice(p.value, provider)];
        report := report.(inserted := report.inserted + 1, confirmed := report.confirmed + [p.tradeDate]);
      } else if prices[k].value == p.value {
        report := report.(same := report.same + 1, confirmed := report.confirmed + [p.tradeDate]);
      } else if mayUpdate && prices[k].provider == provider {
        prices := prices[k := prices[k].(value := p.value)];
        report := report.(updated := report.updated + 1, confirmed := report.confirmed + [p.tradeDate]);
      } else {
        report := report.(conflict := report.conflict + 1);
      }
    }

    /** `save_historical_prices`: every row is observed, only missing days are
        inserted, differing days stay as they are unless the policy allows it. */
    method SaveHistoricalPrices(symbol: nat, rows: seq<Payload>, provider: nat, mayUpdate: bool, at: Instant)
      returns (outcome: SaveOutcome)
      modifies this
      ensures outcome.UniqueViolation? <==> BreaksUniqueness(old(prices), symbol, SortBy(rows, PayloadKey))
      ensures outcome.Done? ==>
                Saved(prices, outcome.report)
                == SaveAll(old(prices), symbol, provider, mayUpdate, SortBy(rows, PayloadKey))
      ensures outcome.Done? ==>
                observations == old(observations) + Observed(symbol, SortBy(rows, PayloadKey), provider, at)
      ensures outcome.UniqueViolation? ==> prices == old(prices) && observations == old(observations)
    {
      hide BreaksUniqueness, SaveAll, SaveRow, Observed;
      var incoming := SortBy(rows, PayloadKey);
      if BreaksUniqueness(prices, symbol, incoming) {
        return UniqueViolation;
      }
      SaveOfNothing(prices, symbol, provider, mayUpdate);
      assert incoming[..0] == [] && Observed(symbol, [], provider, at) == [];
      var existing := prices;
      var report := NOTHING;
      var i := 0;
      while i < |incoming|
        invariant 0 <= i <= |incoming|
        invariant Saved(prices, report) == SaveAll(existing, symbol, provider, mayUpdate, incoming[..i])
        invariant observations == old(observations) + Observed(symbol, incoming[..i], provider, at)
      {
        SaveAllNext(existing, symbol, provider, mayUpdate, incoming, i);
        ObservedNext(symbol, incoming, provider, at, i);
        report := SaveHistoricalRow(existing, report, symbol, incoming[i], provider, mayUpdate);
        observations := observations + [Observation(symbol, incoming[i].tradeDate, incoming[i].value, provider, at)];
        i := i + 1;
      }
      assert incoming[..i] == incoming;
      return Done(report);
    }
  }
}
