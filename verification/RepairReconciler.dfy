/** Completed repair results entering canonical prices: validation, the
    conflict-safe merge, and why an accepted submission is never rejected. */
module RepairReconciler {
  import opened Common
  import opened Sorting
  import opened RepairTables
  import opened RepairProtocol
  import opened RepairQueue
  import opened PriceTable

  const KIWOOM: nat := 1

  /** Symbol codes with the ids of their rows; codes are unique both ways. */
  type Symbols = m: map<nat, nat> | forall a, b :: a in m && b in m && m[a] == m[b] ==> a == b witness map[]

  datatype Db = Db(tables: Tables, prices: Prices)

  datatype ApplyResult =
    | Outcome(status: ApplicationStatus, appliedRows: nat, conflictDates: seq<Date>)
    | RequestMissing
    | NotCompleted
    | SymbolMissing

  /** `list_results`: by trade date, then by row id. */
  function ListResults(t: Tables, id: nat): seq<ResultRow> {
    SortBy(RowsOf(t.results, id), DateKey)
  }

  /** What the reconciler asks of one stored row. */
  predicate ApplicableRow(row: ResultRow, r: Request) {
    && row.symbol == r.key.symbol && row.adjusted == r.key.adjusted && AllowedSource(row.source)
    && (r.historyFrom.Some? ==> r.historyFrom.value <= row.tradeDate)
    && row.tradeDate <= r.key.tradeDate
    && row.price.changeRate.Some?
    && ValidOhlcv(row.price)
  }

  /** What it asks of the completed attempt and the rows together. */
  predicate AttemptCovers(a: Attempt, rows: seq<ResultRow>)
    requires rows != []
  {
    && a.status == Succeeded && a.rowCount == |rows| && a.dataComplete
    && a.latestDate == Some(LatestDate(rows))
    && (a.resultHash.Some? ==> a.resultHash.value == StableHash(rows))
  }

  ghost predicate Applicable(t: Tables, id: nat, maxRows: nat)
    requires id < |t.requests|
  {
    var rows := ListResults(t, id);
    var latest := LatestAttempt(t.attempts, id);
    && rows != [] && |rows| <= maxRows
    && latest.Some? && AttemptCovers(t.attempts[latest.value], rows)
    && (forall row :: row in rows ==> ApplicableRow(row, t.requests[id]))
    && DistinctDates(rows)
  }

  predicate Differs(prices: Prices, symbol: nat, row: ResultRow) {
    (symbol, row.tradeDate) in prices && prices[(symbol, row.tradeDate)].value != row.price
  }

  function ToPayload(row: ResultRow): Payload { Payload(row.tradeDate, row.price) }

  function ToPayloads(rows: seq<ResultRow>): (p: seq<Payload>)
    ensures |p| == |rows|
    ensures forall i :: 0 <= i < |rows| ==> p[i] == ToPayload(rows[i])
  {
    seq(|rows|, i requires 0 <= i < |rows| => ToPayload(rows[i]))
  }

  function Dates(rows: seq<ResultRow>): (d: seq<Date>)
    ensures |d| == |rows|
    ensures forall i :: 0 <= i < |rows| ==> d[i] == rows[i].tradeDate
  {
    seq(|rows|, i requires 0 <= i < |rows| => rows[i].tradeDate)
  }

  function Conflicts(prices: Prices, symbol: nat, rows: seq<ResultRow>): seq<ResultRow> {
    Filter(rows, (row: ResultRow) => Differs(prices, symbol, row))
  }

  function Missing(prices: Prices, symbol: nat, rows: seq<ResultRow>): seq<ResultRow> {
    Filter(rows, (row: ResultRow) => (symbol, row.tradeDate) !in prices)
  }

  function MarkApplied(db: Db, id: nat, status: ApplicationStatus, prices: Prices): Db {
    Db(SetApplicationStep(db.tables, id, status), prices)
  }

  /** `apply_request` as a function of the database. */
  ghost function Apply(db: Db, symbols: Symbols, id: nat, maxRows: nat): (Db, ApplyResult) {
    if id >= |db.tables.requests| then (db, RequestMissing)
    else
      var r := db.tables.requests[id];
      var rows := ListResults(db.tables, id);
      if r.application == Applied then (db, Outcome(Applied, |rows|, []))
      else if r.application != NotApplied then (db, Outcome(r.application, 0, []))
      else if r.status != Completed then (db, NotCompleted)
      else if !Applicable(db.tables, id, maxRows) then
        (MarkApplied(db, id, Rejected, db.prices), Outcome(Rejected, 0, []))
      else if r.key.symbol !in symbols then (db, SymbolMissing)
      else
        var symbol := symbols[r.key.symbol];
        var conflicts := Conflicts(db.prices, symbol, rows);
        if conflicts != [] then
          (MarkApplied(db, id, Conflict, db.prices), Outcome(Conflict, 0, Dates(conflicts)))
        else
          var missing := Missing(db.prices, symbol, rows);
          (MarkApplied(db, id, Applied, Upserted(db.prices, symbol, KIWOOM, SortBy(ToPayloads(missing), PayloadKey))),
           Outcome(Applied, |missing|, []))
  }

  // ---- canonical prices are safe ---------------------------------------

  lemma {:induction false} PayloadsDistinct(rows: seq<ResultRow>)
    requires DistinctDates(rows)
    ensures DistinctKeys(ToPayloads(rows), PayloadKey)
  {
    if rows != [] {
      assert ToPayloads(rows)[1..] == ToPayloads(rows[1..]);
      PayloadsDistinct(rows[1..]);
      forall p | p in ToPayloads(rows[1..]) ensures PayloadKey(p) != PayloadKey(ToPayload(rows[0])) {
        var i :| 0 <= i < |rows[1..]| && ToPayloads(rows[1..])[i] == p;
        assert DateKey(rows[1..][i]) != DateKey(rows[0]);
      }
    }
  }

  /** The payloads that reach the upsert: distinct days, all missing so far. */
  lemma MissingPayloads(prices: Prices, symbol: nat, rows: seq<ResultRow>)
    requires DistinctDates(rows)
    ensures var p := SortBy(ToPayloads(Missing(prices, symbol, rows)), PayloadKey);
      && DistinctKeys(p, PayloadKey)
      && (forall x :: x in p <==>
            exists row :: row in rows && (symbol, row.tradeDate) !in prices && x == ToPayload(row))
  {
    var missing := Missing(prices, symbol, rows);
    FilterDistinct(rows, DateKey, (row: ResultRow) => (symbol, row.tradeDate) !in prices);
    PayloadsDistinct(missing);
    SortDistinct(ToPayloads(missing), PayloadKey, PayloadKey);
    SortMembers(ToPayloads(missing), PayloadKey);
    forall x ensures x in ToPayloads(missing) <==> exists row :: row in missing && x == ToPayload(row) {
      if row :| row in missing && x == ToPayload(row) {
        var i :| 0 <= i < |missing| && missing[i] == row;
        assert ToPayloads(missing)[i] == x;
      }
    }
  }

  /** The price map after merging `rows` over `prices` without overwriting. */
  ghost predicate Merged(before: Prices, after: Prices, symbol: nat, rows: seq<ResultRow>) {
    && Extends(before, after)
    && (forall k :: k in after && k !in before ==> exists row :: row in rows && k == (symbol, row.tradeDate))
    && (forall row :: row in rows && (symbol, row.tradeDate) !in before ==>
          (symbol, row.tradeDate) in after && after[(symbol, row.tradeDate)] == DailyPrice(row.price, KIWOOM))
  }

  lemma MergeOfMissing(prices: Prices, symbol: nat, rows: seq<ResultRow>)
    requires DistinctDates(rows)
    ensures Merged(prices, Upserted(prices, symbol, KIWOOM,
                                    SortBy(ToPayloads(Missing(prices, symbol, rows)), PayloadKey)), symbol, rows)
  {
    var p := SortBy(ToPayloads(Missing(prices, symbol, rows)), PayloadKey);
    var after := Upserted(prices, symbol, KIWOOM, p);
    MissingPayloads(prices, symbol, rows);
    forall k | k in prices ensures k in after && after[k] == prices[k] {
      UpsertedRows(prices, symbol, KIWOOM, p, k);
    }
    forall k | k in after && k !in prices ensures exists row :: row in rows && k == (symbol, row.tradeDate) {
      UpsertedRows(prices, symbol, KIWOOM, p, k);
      var x :| x in p && k == (symbol, x.tradeDate);
    }
    forall row | row in rows && (symbol, row.tradeDate) !in prices
      ensures (symbol, row.tradeDate) in after && after[(symbol, row.tradeDate)] == DailyPrice(row.price, KIWOOM)
    {
      UpsertedRows(prices, symbol, KIWOOM, p, (symbol, row.tradeDate));
      assert ToPayload(row) in p;
    }
  }

  /** The request is completed, not yet applied, valid and of a known symbol. */
  ghost predicate Deciding(db: Db, symbols: Symbols, id: nat, maxRows: nat) {
    && id < |db.tables.requests| && db.tables.requests[id].application == NotApplied
    && db.tables.requests[id].status == Completed && Applicable(db.tables, id, maxRows)
    && db.tables.requests[id].key.symbol in symbols
  }

  ghost predicate SomeDiffers(prices: Prices, symbol: nat, rows: seq<ResultRow>) {
    exists row :: row in rows && Differs(prices, symbol, row)
  }

  lemma ConflictsEmptyIff(prices: Prices, symbol: nat, rows: seq<ResultRow>)
    ensures Conflicts(prices, symbol, rows) == [] <==> !SomeDiffers(prices, symbol, rows)
  {
    if Conflicts(prices, symbol, rows) != [] {
      assert Conflicts(prices, symbol, rows)[0] in Conflicts(prices, symbol, rows);
    }
  }

  /** Where a request is decided, it is applied exactly when no existing price
      differs from its rows, and then exactly the missing days are added. */
  lemma DecidedOutcome(db: Db, symbols: Symbols, id: nat, maxRows: nat)
    requires Deciding(db, symbols, id, maxRows)
    ensures var (after, result) := Apply(db, symbols, id, maxRows);
      var symbol := symbols[db.tables.requests[id].key.symbol]; var rows := ListResults(db.tables, id);
      && result.Outcome?
      && result.status == (if SomeDiffers(db.prices, symbol, rows) then Conflict else Applied)
      && (result.status == Applied ==> Merged(db.prices, after.prices, symbol, rows))
      && (result.status == Conflict ==> after.prices == db.prices)
  {
    hide Conflicts, Missing, ListResults, Applicable, Merged, SomeDiffers, Upserted, SortBy, DistinctDates;
    var symbol := symbols[db.tables.requests[id].key.symbol];
    var rows := ListResults(db.tables, id);
    ConflictsEmptyIff(db.prices, symbol, rows);
    ApplicableDates(db.tables, id, maxRows);
    MergeOfMissing(db.prices, symbol, rows);
  }

  lemma ApplicableDates(t: Tables, id: nat, maxRows: nat)
    requires id < |t.requests| && Applicable(t, id, maxRows)
    ensures DistinctDates(ListResults(t, id))
  {
  }

  /** No canonical price that exists is ever changed or removed, and unless the
      request is applied now, no price is touched at all. */
  lemma ApplyIsSafe(db: Db, symbols: Symbols, id: nat, maxRows: nat)
    ensures Extends(db.prices, Apply(db, symbols, id, maxRows).0.prices)
    ensures Apply(db, symbols, id, maxRows).0.prices != db.prices ==>
              Deciding(db, symbols, id, maxRows)
              && !SomeDiffers(db.prices, symbols[db.tables.requests[id].key.symbol], ListResults(db.tables, id))
  {
    if Deciding(db, symbols, id, maxRows) {
      DecidedOutcome(db, symbols, id, maxRows);
    } else {
      UndecidedKeepsPrices(db, symbols, id, maxRows);
    }
  }

  lemma UndecidedKeepsPrices(db: Db, symbols: Symbols, id: nat, maxRows: nat)
    requires !Deciding(db, symbols, id, maxRows)
    ensures Apply(db, symbols, id, maxRows).0.prices == db.prices
    ensures Apply(db, symbols, id, maxRows).1.Outcome? ==>
              Apply(db, symbols, id, maxRows).1.status in {Applied, Conflict, Rejected}
  {
    hide Conflicts, Missing, ListResults, Applicable, Upserted, SortBy;
  }

  /** The days of the conflicting rows are exactly those whose existing price differs. */
  lemma ConflictNamesDays(prices: Prices, symbol: nat, rows: seq<ResultRow>, d: Date)
    ensures d in Dates(Conflicts(prices, symbol, rows)) <==>
              exists row :: row in rows && row.tradeDate == d && (symbol, d) in prices
                            && prices[(symbol, d)].value != row.price
  {
    var conflicts := Conflicts(prices, symbol, rows);
    if row :| row in rows && row.tradeDate == d && Differs(prices, symbol, row) {
      var i :| 0 <= i < |conflicts| && conflicts[i] == row;
      assert Dates(conflicts)[i] == d;
    }
    if d in Dates(conflicts) {
      var i :| 0 <= i < |conflicts| && Dates(conflicts)[i] == d;
      assert conflicts[i] in conflicts;
    }
  }

  lemma ConflictsInOrder(prices: Prices, symbol: nat, rows: seq<ResultRow>, i: nat, j: nat)
    requires SortedBy(rows, DateKey) && DistinctDates(rows) && i < j < |Conflicts(prices, symbol, rows)|
    ensures Dates(Conflicts(prices, symbol, rows))[i] < Dates(Conflicts(prices, symbol, rows))[j]
  {
    var differs := (row: ResultRow) => Differs(prices, symbol, row);
    FilterSorted(rows, DateKey, differs);
    FilterDistinct(rows, DateKey, differs);
    SortedAt(Conflicts(prices, symbol, rows), DateKey, i, j);
    DistinctAt(Conflicts(prices, symbol, rows), DateKey, i, j);
  }

  lemma {:induction false} UpsertGrows(prices: Prices, symbol: nat, rows: seq<Payload>)
    requires DistinctKeys(rows, PayloadKey) && forall p :: p in rows ==> (symbol, p.tradeDate) !in prices
    ensures |Upserted(prices, symbol, KIWOOM, rows)| == |prices| + |rows|
    decreases |rows|
  {
    if rows != [] {
      var front, last := rows[..|rows| - 1], rows[|rows| - 1];
      assert rows == front + [last];
      DistinctAppend(front, last, PayloadKey);
      UpsertGrows(prices, symbol, front);
      var k := (symbol, last.tradeDate);
      assert forall p :: p in front ==> PayloadKey(p) != PayloadKey(last);
      UpsertedRows(prices, symbol, KIWOOM, front, k);
      OneMore(Upserted(prices, symbol, KIWOOM, front), k, DailyPrice(last.value, KIWOOM));
    }
  }

  lemma OneMore(prices: Prices, k: PriceKey, price: DailyPrice)
    requires k !in prices
    ensures |prices[k := price]| == |prices| + 1
  {
    assert prices[k := price].Keys == prices.Keys + {k};
    assert |prices[k := price]| == |prices[k := price].Keys| && |prices| == |prices.Keys|;
  }

  lemma MergeGrows(prices: Prices, symbol: nat, rows: seq<ResultRow>)
    requires DistinctDates(rows)
    ensures var missing := Missing(prices, symbol, rows);
      |Upserted(prices, symbol, KIWOOM, SortBy(ToPayloads(missing), PayloadKey))| == |prices| + |missing|
  {
    hide Missing, SortBy, Upserted;
    var payloads := ToPayloads(Missing(prices, symbol, rows));
    MissingPayloads(prices, symbol, rows);
    SortMembers(payloads, PayloadKey);
    UpsertGrows(prices, symbol, SortBy(payloads, PayloadKey));
  }

  /** Where a request is decided, the result reports what happened: on a conflict exactly
      the days whose canonical price differs, each once and in order, and nothing applied;
      otherwise no day and as many rows as the price table has gained. */
  lemma OutcomeReports(db: Db, symbols: Symbols, id: nat, maxRows: nat)
    requires Deciding(db, symbols, id, maxRows)
    ensures var (after, result) := Apply(db, symbols, id, maxRows);
      var symbol := symbols[db.tables.requests[id].key.symbol]; var rows := ListResults(db.tables, id);
      && result.Outcome? && result.appliedRows == |after.prices| - |db.prices|
      && (forall d :: d in result.conflictDates <==>
            exists row :: row in rows && row.tradeDate == d && (symbol, d) in db.prices
                          && db.prices[(symbol, d)].value != row.price)
      && (forall i, j :: 0 <= i < j < |result.conflictDates| ==> result.conflictDates[i] < result.conflictDates[j])
      && (result.status == Applied <==> result.conflictDates == [])
      && (result.status == Conflict <==> result.conflictDates != [])
  {
    hide Conflicts, Missing, ListResults, Applicable, Upserted, SortBy, DistinctDates;
    var symbol := symbols[db.tables.requests[id].key.symbol];
    var rows := ListResults(db.tables, id);
    var conflicts := Conflicts(db.prices, symbol, rows);
    ApplicableDates(db.tables, id, maxRows);
    ListedInOrder(db.tables, id);
    MergeGrows(db.prices, symbol, rows);
    forall d ensures d in Dates(conflicts) <==>
        exists row :: row in rows && row.tradeDate == d && (symbol, d) in db.prices
                      && db.prices[(symbol, d)].value != row.price
    {
      ConflictNamesDays(db.prices, symbol, rows, d);
    }
    forall i, j | 0 <= i < j < |conflicts| ensures Dates(conflicts)[i] < Dates(conflicts)[j] {
      ConflictsInOrder(db.prices, symbol, rows, i, j);
    }
    assert conflicts == [] ==> Dates(conflicts) == [];
  }

  lemma ListedInOrder(t: Tables, id: nat)
    ensures SortedBy(ListResults(t, id), DateKey)
  {
  }

  /** The outcome is recorded: applying again returns the same status and leaves
      the database alone. */
  lemma ReapplyChangesNothing(db: Db, symbols: Symbols, id: nat, maxRows: nat)
    requires Apply(db, symbols, id, maxRows).1.Outcome?
    ensures var (once, first) := Apply(db, symbols, id, maxRows);
      && Apply(once, symbols, id, maxRows).0 == once
      && Apply(once, symbols, id, maxRows).1.Outcome?
      && Apply(once, symbols, id, maxRows).1.status == first.status
  {
    hide Apply;
    OutcomeMarks(db, symbols, id, maxRows);
    MarkedIsFinal(Apply(db, symbols, id, maxRows).0, symbols, id, maxRows);
  }

  /** An outcome is recorded in the marker. */
  lemma OutcomeMarks(db: Db, symbols: Symbols, id: nat, maxRows: nat)
    requires Apply(db, symbols, id, maxRows).1.Outcome?
    ensures var (once, first) := Apply(db, symbols, id, maxRows);
      id < |once.tables.requests| && once.tables.requests[id].application == first.status != NotApplied
  {
    hide Conflicts, Missing, ListResults, Applicable, Upserted, SortBy;
  }

  /** A request that carries a marker is left alone. */
  lemma MarkedIsFinal(db: Db, symbols: Symbols, id: nat, maxRows: nat)
    requires id < |db.tables.requests| && db.tables.requests[id].application != NotApplied
    ensures var (after, result) := Apply(db, symbols, id, maxRows);
      after == db && result.Outcome? && result.status == db.tables.requests[id].application
  {
    hide Conflicts, Missing, ListResults, Applicable, Upserted, SortBy;
  }

  // ---- every order gives the same prices -------------------------------

  /** `price` is what some request in `ids` says about key `k`. */
  ghost predicate Proposes(db: Db, symbols: Symbols, ids: seq<nat>, k: PriceKey, price: Ohlcv) {
    exists id, row :: id in ids && id < |db.tables.requests| && db.tables.requests[id].key.symbol in symbols
                      && row in ListResults(db.tables, id)
                      && k == (symbols[db.tables.requests[id].key.symbol], row.tradeDate) && row.price == price
  }

  /** The requests agree with each other and with the prices already there. */
  ghost predicate Agreeing(db: Db, symbols: Symbols, ids: seq<nat>) {
    && (forall k, p, q :: Proposes(db, symbols, ids, k, p) && Proposes(db, symbols, ids, k, q) ==> p == q)
    && (forall k, p :: Proposes(db, symbols, ids, k, p) && k in db.prices ==> db.prices[k].value == p)
  }

  ghost function ApplyAll(db: Db, symbols: Symbols, ids: seq<nat>, maxRows: nat): Db
    decreases |ids|
  {
    if ids == [] then db
    else Apply(ApplyAll(db, symbols, ids[..|ids| - 1], maxRows), symbols, ids[|ids| - 1], maxRows).0
  }

  /** What every order must end in: the old prices plus every proposed one. */
  ghost predicate Completes(db: Db, symbols: Symbols, ids: seq<nat>, after: Prices) {
    && Extends(db.prices, after)
    && (forall k, p :: Proposes(db, symbols, ids, k, p) ==> k in after && after[k].value == p)
    && (forall k :: k in after && k !in db.prices ==>
          Proposes(db, symbols, ids, k, after[k].value) && after[k].provider == KIWOOM)
  }

  /** That condition leaves only one price map. */
  lemma CompletesUnique(db: Db, symbols: Symbols, ids: seq<nat>, other: seq<nat>, a: Prices, b: Prices)
    requires forall id :: id in ids <==> id in other
    requires Completes(db, symbols, ids, a) && Completes(db, symbols, other, b)
    ensures a == b
  {
    forall k, p ensures Proposes(db, symbols, ids, k, p) <==> Proposes(db, symbols, other, k, p) {
    }
    forall k ensures k in a <==> k in b {
    }
    forall k | k in a ensures a[k] == b[k] {
      if k !in db.prices {
        assert Proposes(db, symbols, ids, k, a[k].value);
      }
    }
  }

  /** Only the application marker of a request changes when it is applied. */
  ghost predicate SameQueue(a: Tables, b: Tables) {
    && |a.requests| == |b.requests| && a.attempts == b.attempts && a.results == b.results
    && forall i :: 0 <= i < |a.requests| ==> a.requests[i].(application := b.requests[i].application) == b.requests[i]
  }

  lemma SameQueueSame(a: Tables, b: Tables, id: nat, maxRows: nat)
    requires SameQueue(a, b) && id < |a.requests|
    ensures ListResults(a, id) == ListResults(b, id)
    ensures Applicable(a, id, maxRows) <==> Applicable(b, id, maxRows)
    ensures a.requests[id].key == b.requests[id].key && a.requests[id].status == b.requests[id].status
  {
    assert a.requests[id].key == b.requests[id].key;
    assert a.requests[id].historyFrom == b.requests[id].historyFrom;
  }

  /** `ids` are valid completed requests of known symbols, none applied yet. */
  ghost predicate AllReady(db: Db, symbols: Symbols, ids: seq<nat>, maxRows: nat) {
    forall id :: id in ids ==> Deciding(db, symbols, id, maxRows)
  }

  lemma ApplyTables(db: Db, symbols: Symbols, id: nat, maxRows: nat)
    ensures var after := Apply(db, symbols, id, maxRows).0.tables;
      after == db.tables || after == SetApplicationStep(db.tables, id, Rejected)
      || after == SetApplicationStep(db.tables, id, Conflict) || after == SetApplicationStep(db.tables, id, Applied)
  {
    hide Conflicts, Missing, ListResults, Applicable, Upserted, SetApplicationStep;
  }

  lemma ApplyKeepsQueue(db: Db, symbols: Symbols, id: nat, maxRows: nat)
    ensures SameQueue(db.tables, Apply(db, symbols, id, maxRows).0.tables)
    ensures forall i :: 0 <= i < |db.tables.requests| && i != id ==>
              Apply(db, symbols, id, maxRows).0.tables.requests[i].application == db.tables.requests[i].application
  {
    ApplyTables(db, symbols, id, maxRows);
    hide Apply;
  }

  lemma ProposesSplit(db: Db, symbols: Symbols, front: seq<nat>, id: nat, k: PriceKey, p: Ohlcv)
    ensures Proposes(db, symbols, front + [id], k, p) <==>
              Proposes(db, symbols, front, k, p) || Proposes(db, symbols, [id], k, p)
  {
  }

  lemma ProposesMore(db: Db, symbols: Symbols, ids: seq<nat>, more: seq<nat>)
    requires forall id :: id in ids ==> id in more
    ensures forall k, p :: Proposes(db, symbols, ids, k, p) ==> Proposes(db, symbols, more, k, p)
    ensures Agreeing(db, symbols, more) ==> Agreeing(db, symbols, ids)
  {
  }

  lemma RowProposes(db: Db, symbols: Symbols, id: nat, row: ResultRow)
    requires id < |db.tables.requests| && db.tables.requests[id].key.symbol in symbols
    requires row in ListResults(db.tables, id)
    ensures Proposes(db, symbols, [id], (symbols[db.tables.requests[id].key.symbol], row.tradeDate), row.price)
  {
    assert id in [id];
  }

  /** Agreeing rows never conflict, whatever agreeing requests came before. */
  lemma NoConflictLeft(db: Db, symbols: Symbols, front: seq<nat>, id: nat, prices: Prices)
    requires id < |db.tables.requests| && db.tables.requests[id].key.symbol in symbols
    requires Agreeing(db, symbols, front + [id]) && Completes(db, symbols, front, prices)
    ensures !SomeDiffers(prices, symbols[db.tables.requests[id].key.symbol], ListResults(db.tables, id))
  {
    var symbol := symbols[db.tables.requests[id].key.symbol];
    forall row | row in ListResults(db.tables, id) ensures !Differs(prices, symbol, row) {
      var k := (symbol, row.tradeDate);
      RowProposes(db, symbols, id, row);
      ProposesSplit(db, symbols, front, id, k, row.price);
      if k in prices && k !in db.prices {
        ProposesSplit(db, symbols, front, id, k, prices[k].value);
      }
    }
  }

  ghost predicate MergeSetting(db: Db, symbols: Symbols, front: seq<nat>, id: nat, prices: Prices, after: Prices) {
    && id < |db.tables.requests| && db.tables.requests[id].key.symbol in symbols
    && Agreeing(db, symbols, front + [id]) && Completes(db, symbols, front, prices)
    && Merged(prices, after, symbols[db.tables.requests[id].key.symbol], ListResults(db.tables, id))
  }

  lemma MergeHasProposed(db: Db, symbols: Symbols, front: seq<nat>, id: nat, prices: Prices, after: Prices, k: PriceKey,
                         p: Ohlcv)
    requires MergeSetting(db, symbols, front, id, prices, after)
    requires Proposes(db, symbols, front + [id], k, p)
    ensures k in after && after[k].value == p
  {
    ProposesSplit(db, symbols, front, id, k, p);
    if !Proposes(db, symbols, front, k, p) {
      var symbol := symbols[db.tables.requests[id].key.symbol];
      NoConflictLeft(db, symbols, front, id, prices);
      var row :| row in ListResults(db.tables, id) && k == (symbol, row.tradeDate) && row.price == p;
      assert !Differs(prices, symbol, row);
    }
  }

  lemma MergeAddsProposed(db: Db, symbols: Symbols, front: seq<nat>, id: nat, prices: Prices, after: Prices,
                          k: PriceKey)
    requires MergeSetting(db, symbols, front, id, prices, after)
    requires k in after && k !in db.prices
    ensures Proposes(db, symbols, front + [id], k, after[k].value) && after[k].provider == KIWOOM
  {
    ProposesSplit(db, symbols, front, id, k, after[k].value);
    if k !in prices {
      var row :| row in ListResults(db.tables, id) && k == (symbols[db.tables.requests[id].key.symbol], row.tradeDate);
      RowProposes(db, symbols, id, row);
    }
  }

  lemma MergeCompletes(db: Db, symbols: Symbols, front: seq<nat>, id: nat, prices: Prices, after: Prices)
    requires MergeSetting(db, symbols, front, id, prices, after)
    ensures Completes(db, symbols, front + [id], after)
  {
    hide Proposes, Agreeing, ListResults;
    assert Extends(db.prices, after) by {
      ExtendsTransitive(db.prices, prices, after);
    }
    forall k, p | Proposes(db, symbols, front + [id], k, p) ensures k in after && after[k].value == p {
      MergeHasProposed(db, symbols, front, id, prices, after, k, p);
    }
    forall k | k in after && k !in db.prices
      ensures Proposes(db, symbols, front + [id], k, after[k].value) && after[k].provider == KIWOOM
    {
      MergeAddsProposed(db, symbols, front, id, prices, after, k);
    }
    hide Merged;
  }

  /** Where the applications stand after a prefix of an order. */
  ghost predicate Progress(db: Db, cur: Db, symbols: Symbols, done: seq<nat>) {
    && SameQueue(db.tables, cur.tables)
    && Completes(db, symbols, done, cur.prices)
    && (forall i :: 0 <= i < |db.tables.requests| ==>
          cur.tables.requests[i].application == if i in done then Applied else db.tables.requests[i].application)
  }

  lemma ApplyNext(db: Db, cur: Db, symbols: Symbols, front: seq<nat>, id: nat, maxRows: nat)
    requires Deciding(db, symbols, id, maxRows) && id !in front
    requires Progress(db, cur, symbols, front) && Agreeing(db, symbols, front + [id])
    ensures Apply(cur, symbols, id, maxRows).1.Outcome? && Apply(cur, symbols, id, maxRows).1.status == Applied
    ensures Completes(db, symbols, front + [id], Apply(cur, symbols, id, maxRows).0.prices)
  {
    SameQueueSame(db.tables, cur.tables, id, maxRows);
    NoConflictLeft(db, symbols, front, id, cur.prices);
    DecidedOutcome(cur, symbols, id, maxRows);
    MergeCompletes(db, symbols, front, id, cur.prices, Apply(cur, symbols, id, maxRows).0.prices);
  }

  lemma AppliedMarks(db: Db, symbols: Symbols, id: nat, maxRows: nat)
    requires id < |db.tables.requests|
    requires Apply(db, symbols, id, maxRows).1.Outcome? && Apply(db, symbols, id, maxRows).1.status == Applied
    ensures id < |Apply(db, symbols, id, maxRows).0.tables.requests|
    ensures Apply(db, symbols, id, maxRows).0.tables.requests[id].application == Applied
  {
    hide Conflicts, Missing, ListResults, Applicable, Upserted, SortBy;
  }

  lemma AppliedSkips(db: Db, symbols: Symbols, id: nat, maxRows: nat)
    requires id < |db.tables.requests| && db.tables.requests[id].application == Applied
    ensures Apply(db, symbols, id, maxRows).0 == db
  {
    hide Conflicts, Missing, ListResults, Applicable, Upserted, SortBy;
  }

  lemma SameQueueTransitive(a: Tables, b: Tables, c: Tables)
    requires SameQueue(a, b) && SameQueue(b, c)
    ensures SameQueue(a, c)
  {
    forall i | 0 <= i < |a.requests|
      ensures a.requests[i].(application := c.requests[i].application) == c.requests[i]
    {
      assert b.requests[i] == a.requests[i].(application := b.requests[i].application);
      assert c.requests[i] == b.requests[i].(application := c.requests[i].application);
    }
  }

  lemma ProgressSkips(db: Db, cur: Db, symbols: Symbols, front: seq<nat>, id: nat)
    requires Progress(db, cur, symbols, front) && id in front
    ensures Progress(db, cur, symbols, front + [id])
  {
    ProposesMore(db, symbols, front, front + [id]);
    ProposesMore(db, symbols, front + [id], front);
    hide Proposes, SameQueue;
  }

  lemma ProgressApplies(db: Db, cur: Db, symbols: Symbols, front: seq<nat>, id: nat, maxRows: nat)
    requires Deciding(db, symbols, id, maxRows) && id !in front
    requires Progress(db, cur, symbols, front) && Agreeing(db, symbols, front + [id])
    ensures Progress(db, Apply(cur, symbols, id, maxRows).0, symbols, front + [id])
  {
    hide Apply, Completes, Agreeing, Applicable;
    ApplyNext(db, cur, symbols, front, id, maxRows);
    AppliedMarks(cur, symbols, id, maxRows);
    ApplyKeepsQueue(cur, symbols, id, maxRows);
    SameQueueTransitive(db.tables, cur.tables, Apply(cur, symbols, id, maxRows).0.tables);
  }

  lemma ProgressNext(db: Db, cur: Db, symbols: Symbols, front: seq<nat>, id: nat, maxRows: nat)
    requires Deciding(db, symbols, id, maxRows)
    requires Progress(db, cur, symbols, front) && Agreeing(db, symbols, front + [id])
    ensures Progress(db, Apply(cur, symbols, id, maxRows).0, symbols, front + [id])
  {
    if id in front {
      ProgressSkips(db, cur, symbols, front, id);
      AppliedSkips(cur, symbols, id, maxRows);
    } else {
      ProgressApplies(db, cur, symbols, front, id, maxRows);
    }
    hide Apply, Completes, Agreeing;
  }

  lemma {:induction false} ApplyAllProgress(db: Db, symbols: Symbols, ids: seq<nat>, maxRows: nat)
    requires AllReady(db, symbols, ids, maxRows) && Agreeing(db, symbols, ids)
    ensures Progress(db, ApplyAll(db, symbols, ids, maxRows), symbols, ids)
    decreases |ids|
  {
    if ids != [] {
      var front, id := ids[..|ids| - 1], ids[|ids| - 1];
      assert ids == front + [id];
      assert id in ids && forall i :: i in front ==> i in ids;
      ProposesMore(db, symbols, front, ids);
      ApplyAllProgress(db, symbols, front, maxRows);
      ProgressNext(db, ApplyAll(db, symbols, front, maxRows), symbols, front, id, maxRows);
    }
  }

  /** Valid requests whose rows agree with each other and with the canonical
      prices are all applied, in whatever order and however often they are taken,
      and every order of the same requests ends in the same canonical prices. */
  lemma OrderDoesNotMatter(db: Db, symbols: Symbols, ids: seq<nat>, other: seq<nat>, maxRows: nat)
    requires AllReady(db, symbols, ids, maxRows) && Agreeing(db, symbols, ids)
    requires forall id :: id in ids <==> id in other
    ensures forall id :: id in ids ==>
              && id < |ApplyAll(db, symbols, ids, maxRows).tables.requests|
              && ApplyAll(db, symbols, ids, maxRows).tables.requests[id].application == Applied
    ensures ApplyAll(db, symbols, ids, maxRows).prices == ApplyAll(db, symbols, other, maxRows).prices
    ensures Extends(db.prices, ApplyAll(db, symbols, ids, maxRows).prices)
  {
    ProposesMore(db, symbols, other, ids);
    ApplyAllProgress(db, symbols, ids, maxRows);
    ApplyAllProgress(db, symbols, other, maxRows);
    CompletesUnique(db, symbols, ids, other,
                    ApplyAll(db, symbols, ids, maxRows).prices, ApplyAll(db, symbols, other, maxRows).prices);
    forall id | id in ids
      ensures id < |ApplyAll(db, symbols, ids, maxRows).tables.requests|
      ensures ApplyAll(db, symbols, ids, maxRows).tables.requests[id].application == Applied
    {
      assert Deciding(db, symbols, id, maxRows);
    }
  }
}
