/** The dated price windows of the historical RS statement, against the filtered
    and sorted price lists of its portable reference. */
module RsWindows {
  import opened Common
  import opened Sorting

  type Close = r: real | 0.0 < r witness 1.0

  datatype Price = Price(instrumentId: nat, date: Date, close: Close)

  datatype Membership = Membership(instrumentId: nat, market: nat, date: Date, expected: bool)

  datatype Reason = OutsideTradingInterval | PriceMissing | InsufficientHistory

  const MIN_REQUIRED_PRICES := 253

  function DateKey(p: Price): Key { (p.date, 0, 0) }

  function PriceKey(p: Price): Key { (p.instrumentId, p.date, 0) }

  function OfInstrument(i: nat): Price -> bool { (p: Price) => p.instrumentId == i }

  function NotAfter(d: Date): Price -> bool { (p: Price) => p.date <= d }

  function UpTo(i: nat, d: Date): Price -> bool { (p: Price) => p.instrumentId == i && p.date <= d }

  /** One price per instrument and day. */
  ghost predicate OnePerDay(prices: seq<Price>) { DistinctKeys(prices, PriceKey) }

  /** PARTITION BY instrument_id ORDER BY trade_date. */
  function History(prices: seq<Price>, i: nat): seq<Price> { SortBy(Filter(prices, OfInstrument(i)), DateKey) }

  /** The reference's `sorted(row for row in ... if row.trade_date <= ...)`. */
  function Available(prices: seq<Price>, i: nat, d: Date): seq<Price> { SortBy(Filter(prices, UpTo(i, d)), DateKey) }

  /** `lag(close, w)` at row `k`. */
  function Lag(rows: seq<Price>, k: nat, w: nat): Option<Close>
    requires k < |rows|
  {
    if w <= k then Some(rows[k - w].close) else None
  }

  /** One row of the `history` relation. */
  datatype WindowRow = WindowRow(observations: nat, close: Close, c21: Option<Close>, c63: Option<Close>,
                                 c126: Option<Close>, c189: Option<Close>, c252: Option<Close>)

  function RowAt(rows: seq<Price>, k: nat): WindowRow
    requires k < |rows|
  {
    WindowRow(k + 1, rows[k].close, Lag(rows, k, 21), Lag(rows, k, 63), Lag(rows, k, 126), Lag(rows, k, 189),
              Lag(rows, k, 252))
  }

  function FindDay(rows: seq<Price>, d: Date): (r: Option<nat>)
    ensures r.Some? ==> r.value < |rows| && rows[r.value].date == d
    ensures r.None? ==> forall p :: p in rows ==> p.date != d
    decreases |rows|
  {
    if rows == [] then None
    else
      assert rows == rows[..|rows| - 1] + [rows[|rows| - 1]];
      if rows[|rows| - 1].date == d then Some(|rows| - 1) else FindDay(rows[..|rows| - 1], d)
  }

  /** The LEFT JOIN of a membership with `history`. */
  function Joined(prices: seq<Price>, m: Membership): Option<WindowRow> {
    var rows := History(prices, m.instrumentId);
    match FindDay(rows, m.date)
    case Some(k) => Some(RowAt(rows, k))
    case None => None
  }

  /** The same row read off the prices up to the day alone. */
  function FromAvailable(rows: seq<Price>, d: Date): Option<WindowRow> {
    if rows != [] && rows[|rows| - 1].date == d then Some(RowAt(rows, |rows| - 1)) else None
  }

  // ---- histories are prefixes ------------------------------------------

  lemma {:induction false} SameInstrumentDistinct(rows: seq<Price>, i: nat)
    requires DistinctKeys(rows, PriceKey) && forall p :: p in rows ==> p.instrumentId == i
    ensures DistinctKeys(rows, DateKey)
  {
    if rows != [] {
      assert rows == [rows[0]] + rows[1..];
      SameInstrumentDistinct(rows[1..], i);
      forall p | p in rows[1..] ensures DateKey(p) != DateKey(rows[0]) {
        assert PriceKey(p) != PriceKey(rows[0]);
      }
    }
  }

  lemma OneInstrument(prices: seq<Price>, i: nat)
    requires OnePerDay(prices)
    ensures DistinctKeys(Filter(prices, OfInstrument(i)), DateKey)
  {
    FilterDistinct(prices, PriceKey, OfInstrument(i));
    SameInstrumentDistinct(Filter(prices, OfInstrument(i)), i);
  }

  ghost predicate StrictlyDated(rows: seq<Price>) {
    SortedBy(rows, DateKey) && DistinctKeys(rows, DateKey)
  }

  lemma HistoryIsDated(prices: seq<Price>, i: nat)
    requires OnePerDay(prices)
    ensures StrictlyDated(History(prices, i))
  {
    OneInstrument(prices, i);
    SortDistinct(Filter(prices, OfInstrument(i)), DateKey, DateKey);
  }

  lemma DatedAt(rows: seq<Price>, j: nat, k: nat)
    requires StrictlyDated(rows) && j < k < |rows|
    ensures rows[j].date < rows[k].date
  {
    SortedAt(rows, DateKey, j, k);
    DistinctAt(rows, DateKey, j, k);
  }

  lemma AvailableIsFiltered(prices: seq<Price>, i: nat, d: Date)
    requires OnePerDay(prices)
    ensures Available(prices, i, d) == Filter(History(prices, i), NotAfter(d))
  {
    var mine := Filter(prices, OfInstrument(i));
    OneInstrument(prices, i);
    DistinctIdentifies(mine, DateKey);
    FilterSort(mine, DateKey, NotAfter(d));
    FilterBoth(prices, i, d);
  }

  lemma {:induction false} FilterBoth(prices: seq<Price>, i: nat, d: Date)
    ensures Filter(Filter(prices, OfInstrument(i)), NotAfter(d)) == Filter(prices, UpTo(i, d))
  {
    if prices != [] {
      FilterBoth(prices[1..], i, d);
      FilterAppend(if prices[0].instrumentId == i then [prices[0]] else [], Filter(prices[1..], OfInstrument(i)),
                   NotAfter(d));
    }
  }

  /** The rows up to a day are a prefix of a dated history. */
  lemma {:induction false} CutAt(rows: seq<Price>, d: Date) returns (n: nat)
    requires StrictlyDated(rows)
    ensures n <= |rows| && Filter(rows, NotAfter(d)) == rows[..n]
    ensures forall k :: 0 <= k < |rows| ==> (k < n <==> rows[k].date <= d)
  {
    if rows == [] {
      n := 0;
    } else if rows[0].date <= d {
      var rest := CutAt(rows[1..], d);
      n := rest + 1;
      assert rows[..n] == [rows[0]] + rows[1..][..rest];
      forall k | 0 <= k < |rows| ensures k < n <==> rows[k].date <= d {
        if k > 0 {
          assert rows[k] == rows[1..][k - 1];
        }
      }
    } else {
      n := 0;
      forall k | 0 <= k < |rows| ensures rows[k].date > d {
        if k > 0 {
          DatedAt(rows, 0, k);
        }
      }
      FilterNone(rows, NotAfter(d));
    }
  }

  /** A window row depends only on the prices up to its own day. */
  lemma WindowIsPrefix(prices: seq<Price>, m: Membership)
    requires OnePerDay(prices)
    ensures Joined(prices, m) == FromAvailable(Available(prices, m.instrumentId, m.date), m.date)
  {
    var rows := History(prices, m.instrumentId);
    HistoryIsDated(prices, m.instrumentId);
    AvailableIsFiltered(prices, m.instrumentId, m.date);
    var n := CutAt(rows, m.date);
    hide History, Available, OnePerDay;
    PrefixRow(rows, n, m.date);
  }

  lemma PrefixRow(rows: seq<Price>, n: nat, d: Date)
    requires StrictlyDated(rows) && n <= |rows|
    requires forall k :: 0 <= k < |rows| ==> (k < n <==> rows[k].date <= d)
    ensures FromAvailable(rows[..n], d)
            == match FindDay(rows, d) { case Some(k) => Some(RowAt(rows, k)) case None => None }
  {
    match FindDay(rows, d) {
      case Some(k) =>
        if k < n - 1 {
          DatedAt(rows, k, n - 1);
        }
      case None =>
        if n > 0 {
          assert rows[n - 1] in rows;
        }
    }
  }

  // ---- the two gates ---------------------------------------------------

  /** The reference's pre-check. */
  function ReferenceReason(prices: seq<Price>, m: Membership): Option<Reason> {
    var rows := Available(prices, m.instrumentId, m.date);
    if !m.expected then Some(OutsideTradingInterval)
    else if !exists p :: p in rows && p.date == m.date then Some(PriceMissing)
    else if |rows| < MIN_REQUIRED_PRICES then Some(InsufficientHistory)
    else None
  }

  /** `score IS NOT NULL`: every return of an expected membership is null unless its
      252-row lag exists. */
  predicate HasScore(prices: seq<Price>, m: Membership) {
    m.expected && Joined(prices, m).Some? && Joined(prices, m).value.c252.Some?
  }

  function StatementReason(prices: seq<Price>, m: Membership): Option<Reason> {
    if HasScore(prices, m) then None
    else if !m.expected then Some(OutsideTradingInterval)
    else if Joined(prices, m).None? then Some(PriceMissing)
    else Some(InsufficientHistory)
  }

  lemma LastIsNewest(rows: seq<Price>, d: Date)
    requires SortedBy(rows, DateKey) && forall p :: p in rows ==> p.date <= d
    ensures (exists p :: p in rows && p.date == d) <==> rows != [] && rows[|rows| - 1].date == d
  {
    if p :| p in rows && p.date == d {
      var k :| 0 <= k < |rows| && rows[k] == p;
      if k < |rows| - 1 {
        SortedAt(rows, DateKey, k, |rows| - 1);
      }
      assert rows[|rows| - 1] in rows;
    }
    if rows != [] {
      assert rows[|rows| - 1] in rows;
    }
  }

  /** Both paths give every membership the same reason, or none. */
  lemma GatesAgree(prices: seq<Price>, m: Membership)
    requires OnePerDay(prices)
    ensures ReferenceReason(prices, m) == StatementReason(prices, m)
  {
    WindowIsPrefix(prices, m);
    var rows := Available(prices, m.instrumentId, m.date);
    SortMembers(Filter(prices, UpTo(m.instrumentId, m.date)), DateKey);
    LastIsNewest(rows, m.date);
    hide Joined, Available, OnePerDay, SortedBy;
  }

  // ---- no look-ahead ---------------------------------------------------

  lemma {:induction false} DistinctPrefix<T(!new)>(xs: seq<T>, ys: seq<T>, key: T -> Key)
    requires DistinctKeys(xs + ys, key)
    ensures DistinctKeys(xs, key)
  {
    if xs != [] {
      assert (xs + ys)[1..] == xs[1..] + ys;
      DistinctPrefix(xs[1..], ys, key);
    }
  }

  lemma AvailableIgnoresLater(prices: seq<Price>, later: seq<Price>, i: nat, d: Date)
    requires forall p :: p in later ==> p.date > d
    ensures Available(prices + later, i, d) == Available(prices, i, d)
  {
    FilterAppend(prices, later, UpTo(i, d));
    FilterNone(later, UpTo(i, d));
    assert Filter(prices, UpTo(i, d)) + [] == Filter(prices, UpTo(i, d));
  }

  /** Prices dated after a day change no window up to that day. */
  lemma WindowsDoNotLookAhead(prices: seq<Price>, later: seq<Price>, m: Membership, d: Date)
    requires OnePerDay(prices + later) && m.date <= d && forall p :: p in later ==> p.date > d
    ensures Joined(prices + later, m) == Joined(prices, m)
    ensures StatementReason(prices + later, m) == StatementReason(prices, m)
  {
    DistinctPrefix(prices, later, PriceKey);
    WindowIsPrefix(prices + later, m);
    WindowIsPrefix(prices, m);
    AvailableIgnoresLater(prices, later, m.instrumentId, m.date);
    hide Joined, Available;
  }
}
