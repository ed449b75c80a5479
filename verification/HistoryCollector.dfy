/** Bounded page-at-a-time history collection: the generator as a resumable
    state machine, its accounting, and its completeness. */
module HistoryCollector {
  import opened Common
  import opened Sorting
  import opened PriceTable

  /** What one provider call does, as the collector sees it. */
  datatype Fetch =
    | FetchFailed
    | CrashInFetch
    | Unparsable(invalidRows: nat)
    | CrashInParse
    | Page(rows: seq<Payload>, invalid: nat, continuation: bool, nextKey: Option<nat>)

  datatype Terminal = FailedFetch | ProviderUnsupported | PaginationAnomaly
                    | CollectionStartReached | ProviderExhausted | RequestBudgetExhausted

  datatype HistoryRequest = HistoryRequest(start: Date, end: Date, preparationStart: Option<Date>, budget: nat) {
    ghost predicate Valid() {
      start <= end && budget >= 1 && (preparationStart.Some? ==> preparationStart.value <= start)
    }

    function CollectionStart(): Date {
      if preparationStart.Some? then preparationStart.value else start
    }

    predicate InRange(d: Date) { CollectionStart() <= d <= end }
  }

  datatype HistoryPage = HistoryPage(number: nat, rows: seq<Payload>)

  datatype Summary = Summary(
    terminal: Option<Terminal>, requestCount: nat, received: nat, emitted: nat,
    requested: nat, preparation: nat, invalid: nat, duplicates: nat)

  /** Where the suspended generator will continue. */
  datatype Phase = AtLoop | AfterYield(oldest: Date, continuation: bool, nextKey: Option<nat>) | Finished

  /** `pages` is the log of everything yielded so far. */
  datatype State = State(
    summary: Summary, seenDates: set<Date>, seenKeys: set<nat>, phase: Phase, pages: seq<HistoryPage>)

  datatype Outcome = Yielded(page: HistoryPage) | Stopped | Raised

  const FRESH := State(Summary(None, 0, 0, 0, 0, 0, 0, 0), {}, {}, AtLoop, [])

  // ---- one page of rows ------------------------------------------------

  datatype Absorbed = Absorbed(seen: set<Date>, kept: seq<Payload>, duplicates: nat, requested: nat, preparation: nat)

  function AbsorbRow(req: HistoryRequest, acc: Absorbed, row: Payload): Absorbed {
    if row.tradeDate in acc.seen then acc.(duplicates := acc.duplicates + 1)
    else if !req.InRange(row.tradeDate) then acc.(seen := acc.seen + {row.tradeDate})
    else if row.tradeDate < req.start then
      acc.(seen := acc.seen + {row.tradeDate}, kept := acc.kept + [row], preparation := acc.preparation + 1)
    else
      acc.(seen := acc.seen + {row.tradeDate}, kept := acc.kept + [row], requested := acc.requested + 1)
  }

  function Absorb(req: HistoryRequest, seen: set<Date>, rows: seq<Payload>): Absorbed
    decreases |rows|
  {
    if rows == [] then Absorbed(seen, [], 0, 0, 0)
    else AbsorbRow(req, Absorb(req, seen, rows[..|rows| - 1]), rows[|rows| - 1])
  }

  function Oldest(rows: seq<Payload>): (d: Date)
    requires rows != []
    ensures exists row :: row in rows && row.tradeDate == d
    ensures forall row :: row in rows ==> d <= row.tradeDate
  {
    if |rows| == 1 then rows[0].tradeDate
    else
      var rest := Oldest(rows[1..]);
      assert rows == [rows[0]] + rows[1..];
      assert rows[0] in rows;
      if rows[0].tradeDate < rest then rows[0].tradeDate else rest
  }

  // ---- the generator ---------------------------------------------------

  function Finish(st: State, reason: Terminal): State {
    st.(summary := st.summary.(terminal := Some(reason)), phase := Finished)
  }

  /** The checks that follow a yield, up to the next loop test. */
  function Resume(req: HistoryRequest, st: State): State {
    match st.phase
    case AfterYield(oldest, continuation, key) =>
      if oldest <= req.CollectionStart() then Finish(st, CollectionStartReached)
      else if !continuation || key.None? then Finish(st, ProviderExhausted)
      else if key.value in st.seenKeys then Finish(st, PaginationAnomaly)
      else st.(seenKeys := st.seenKeys + {key.value}, phase := AtLoop)
    case _ => st
  }

  function Counted(s: Summary): Summary { s.(requestCount := s.requestCount + 1) }

  function ReceivePage(req: HistoryRequest, st: State, f: Fetch): (State, Outcome)
    requires f.Page?
  {
    var s := Counted(st.summary).(received := st.summary.received + |f.rows|,
                                  invalid := st.summary.invalid + f.invalid);
    if f.rows == [] then (Finish(st.(summary := s), PaginationAnomaly), Stopped)
    else
      var a := Absorb(req, st.seenDates, f.rows);
      var counted := s.(duplicates := s.duplicates + a.duplicates, emitted := s.emitted + |a.kept|,
                        requested := s.requested + a.requested, preparation := s.preparation + a.preparation);
      var next := st.(summary := counted, seenDates := a.seen);
      if a.duplicates == |f.rows| then (Finish(next, PaginationAnomaly), Stopped)
      else
        var page := HistoryPage(s.requestCount, SortBy(a.kept, PayloadKey));
        (next.(phase := AfterYield(Oldest(f.rows), f.continuation, f.nextKey), pages := st.pages + [page]),
         Yielded(page))
  }

  function Receive(req: HistoryRequest, st: State, f: Fetch): (State, Outcome) {
    match f
    case FetchFailed => (Finish(st, FailedFetch), Stopped)
    case CrashInFetch => (st.(phase := Finished), Raised)
    case Unparsable(n) =>
      (Finish(st.(summary := Counted(st.summary).(invalid := st.summary.invalid + n)), ProviderUnsupported), Stopped)
    case CrashInParse => (st.(summary := Counted(st.summary), phase := Finished), Raised)
    case Page(_, _, _, _) => ReceivePage(req, st, f)
  }

  /** From one suspension of the generator to the next.  `script[i]` is what the
      provider does on the i-th counted request. */
  function Advance(req: HistoryRequest, script: seq<Fetch>, st: State): (State, Outcome)
    requires |script| >= req.budget
  {
    var r := Resume(req, st);
    if r.phase.Finished? then (r, Stopped)
    else if r.summary.requestCount >= req.budget then (Finish(r, RequestBudgetExhausted), Stopped)
    else Receive(req, r, script[r.summary.requestCount])
  }

  lemma YieldCounts(req: HistoryRequest, script: seq<Fetch>, st: State)
    requires |script| >= req.budget
    ensures var (next, out) := Advance(req, script, st);
      && st.summary.requestCount <= next.summary.requestCount <= st.summary.requestCount + 1
      && (next.summary.requestCount > st.summary.requestCount ==> next.summary.requestCount <= req.budget)
      && (out.Yielded? ==> next.summary.requestCount == st.summary.requestCount + 1 <= req.budget)
  {
  }

  /** The whole traversal: keep asking until the generator stops or raises. */
  function Drain(req: HistoryRequest, script: seq<Fetch>, st: State): State
    requires |script| >= req.budget
    decreases req.budget - st.summary.requestCount
  {
    YieldCounts(req, script, st);
    var (next, out) := Advance(req, script, st);
    if out.Yielded? then Drain(req, script, next) else next
  }

  // ---- accounting ------------------------------------------------------

  function AllRows(pages: seq<HistoryPage>): seq<Payload> {
    if pages == [] then [] else AllRows(pages[..|pages| - 1]) + pages[|pages| - 1].rows
  }

  ghost function OutOfRange(req: HistoryRequest, seen: set<Date>): set<Date> {
    set d | d in seen && !req.InRange(d)
  }

  lemma OutOfRangeGrows(req: HistoryRequest, seen: set<Date>, d: Date)
    requires d !in seen
    ensures |OutOfRange(req, seen + {d})| == |OutOfRange(req, seen)| + if req.InRange(d) then 0 else 1
  {
    if req.InRange(d) {
      assert OutOfRange(req, seen + {d}) == OutOfRange(req, seen);
    } else {
      assert OutOfRange(req, seen + {d}) == OutOfRange(req, seen) + {d};
    }
  }

  lemma {:induction false} AbsorbCounts(req: HistoryRequest, seen: set<Date>, rows: seq<Payload>)
    ensures var a := Absorb(req, seen, rows);
      && seen <= a.seen
      && |a.kept| == a.requested + a.preparation
      && |rows| + |OutOfRange(req, seen)| == |a.kept| + a.duplicates + |OutOfRange(req, a.seen)|
    decreases |rows|
  {
    if rows != [] {
      var before := Absorb(req, seen, rows[..|rows| - 1]);
      AbsorbCounts(req, seen, rows[..|rows| - 1]);
      if rows[|rows| - 1].tradeDate !in before.seen {
        OutOfRangeGrows(req, before.seen, rows[|rows| - 1].tradeDate);
      }
    }
  }

  lemma {:induction false} AbsorbSeen(req: HistoryRequest, seen: set<Date>, rows: seq<Payload>, d: Date)
    ensures var a := Absorb(req, seen, rows);
      && (d in a.seen <==> d in seen || exists row :: row in rows && row.tradeDate == d)
      && (d in a.seen && d !in seen && req.InRange(d) ==> exists row :: row in a.kept && row.tradeDate == d)
    decreases |rows|
  {
    if rows != [] {
      var front, last := rows[..|rows| - 1], rows[|rows| - 1];
      assert rows == front + [last];
      assert last in rows && forall row :: row in rows <==> row in front || row == last;
      AbsorbSeen(req, seen, front, d);
      AbsorbCounts(req, seen, front);
      if d == last.tradeDate && d !in Absorb(req, seen, front).seen && req.InRange(d) {
        assert last in Absorb(req, seen, rows).kept;
      }
    }
  }

  lemma {:induction false} AbsorbKept(req: HistoryRequest, seen: set<Date>, rows: seq<Payload>)
    ensures var a := Absorb(req, seen, rows);
      && DistinctKeys(a.kept, PayloadKey)
      && (forall row :: row in a.kept ==>
            row in rows && row.tradeDate !in seen && row.tradeDate in a.seen && req.InRange(row.tradeDate))
    decreases |rows|
  {
    if rows != [] {
      var front, last := rows[..|rows| - 1], rows[|rows| - 1];
      assert rows == front + [last];
      var before := Absorb(req, seen, front);
      AbsorbKept(req, seen, front);
      AbsorbCounts(req, seen, front);
      DistinctAppend(before.kept, last, PayloadKey);
      assert last in rows && forall row :: row in front ==> row in rows;
    }
  }

  /** A page of nothing but duplicates leaves no trace in the seen dates. */
  lemma {:induction false} AbsorbOnlyDuplicates(req: HistoryRequest, seen: set<Date>, rows: seq<Payload>)
    ensures var a := Absorb(req, seen, rows);
      && a.duplicates <= |rows|
      && (a.duplicates == |rows| ==> a.seen == seen && a.kept == [])
    decreases |rows|
  {
    if rows != [] {
      AbsorbOnlyDuplicates(req, seen, rows[..|rows| - 1]);
    }
  }

  /** The collector's books balance. */
  ghost predicate Balanced(req: HistoryRequest, st: State) {
    && st.summary.emitted == st.summary.requested + st.summary.preparation == |AllRows(st.pages)|
    && st.summary.received == st.summary.emitted + st.summary.duplicates + |OutOfRange(req, st.seenDates)|
    && st.summary.requestCount <= req.budget
  }

  /** Emitted rows are one per day, in range, and cover every seen day in range. */
  ghost predicate Covering(req: HistoryRequest, st: State) {
    && DistinctKeys(AllRows(st.pages), PayloadKey)
    && (forall row :: row in AllRows(st.pages) ==> row.tradeDate in st.seenDates && req.InRange(row.tradeDate))
    && (forall d :: d in st.seenDates && req.InRange(d) ==>
        exists row :: row in AllRows(st.pages) && row.tradeDate == d)
    && (forall page :: page in st.pages ==> SortedBy(page.rows, PayloadKey))
  }

  ghost predicate Books(req: HistoryRequest, st: State) { Balanced(req, st) && Covering(req, st) }

  /** Two states whose books are the same but for the request count. */
  ghost predicate SameRows(a: State, b: State) {
    && a.pages == b.pages && a.seenDates == b.seenDates
    && a.summary.emitted == b.summary.emitted && a.summary.received == b.summary.received
    && a.summary.requested == b.summary.requested && a.summary.preparation == b.summary.preparation
    && a.summary.duplicates == b.summary.duplicates
  }

  lemma SameRowsSameBooks(req: HistoryRequest, a: State, b: State)
    requires Books(req, a) && SameRows(a, b) && b.summary.requestCount <= req.budget
    ensures Books(req, b)
  {
    hide AllRows, OutOfRange, DistinctKeys;
  }

  lemma ResumeSameRows(req: HistoryRequest, st: State)
    ensures SameRows(st, Resume(req, st)) && Resume(req, st).summary.requestCount == st.summary.requestCount
  {
  }

  lemma AllRowsAppend(pages: seq<HistoryPage>, page: HistoryPage)
    ensures AllRows(pages + [page]) == AllRows(pages) + page.rows
  {
    assert (pages + [page])[..|pages|] == pages;
  }

  lemma ReceiveBalances(req: HistoryRequest, st: State, f: Fetch)
    requires Balanced(req, st) && st.summary.requestCount < req.budget && f.Page?
    ensures Balanced(req, ReceivePage(req, st, f).0)
  {
    AbsorbCounts(req, st.seenDates, f.rows);
    AbsorbOnlyDuplicates(req, st.seenDates, f.rows);
    var kept := Absorb(req, st.seenDates, f.rows).kept;
    SortMembers(kept, PayloadKey);
    AllRowsAppend(st.pages, HistoryPage(st.summary.requestCount + 1, SortBy(kept, PayloadKey)));
  }

  lemma ReceiveCovers(req: HistoryRequest, st: State, f: Fetch)
    requires Covering(req, st) && f.Page?
    ensures Covering(req, ReceivePage(req, st, f).0)
  {
    var a := Absorb(req, st.seenDates, f.rows);
    var page := HistoryPage(st.summary.requestCount + 1, SortBy(a.kept, PayloadKey));
    AbsorbKept(req, st.seenDates, f.rows);
    AbsorbCounts(req, st.seenDates, f.rows);
    AbsorbOnlyDuplicates(req, st.seenDates, f.rows);
    if f.rows != [] && a.duplicates != |f.rows| {
      SortMembers(a.kept, PayloadKey);
      SortDistinct(a.kept, PayloadKey, PayloadKey);
      AllRowsAppend(st.pages, page);
      DistinctConcat(AllRows(st.pages), page.rows, PayloadKey);
      forall d | d in a.seen && req.InRange(d)
        ensures exists row :: row in AllRows(st.pages) + page.rows && row.tradeDate == d
      {
        AbsorbSeen(req, st.seenDates, f.rows, d);
        if d in st.seenDates {
          var row :| row in AllRows(st.pages) && row.tradeDate == d;
          assert row in AllRows(st.pages) + page.rows;
        } else {
          var row :| row in a.kept && row.tradeDate == d;
          assert row in AllRows(st.pages) + page.rows;
        }
      }
    }
  }

  lemma ReceiveKeepsBooks(req: HistoryRequest, st: State, f: Fetch)
    requires Books(req, st) && st.summary.requestCount < req.budget
    ensures Books(req, Receive(req, st, f).0)
  {
    hide ReceivePage, Balanced, Covering;
    if f.Page? {
      ReceiveBalances(req, st, f);
      ReceiveCovers(req, st, f);
    } else {
      SameRowsSameBooks(req, st, Receive(req, st, f).0);
    }
  }

  lemma AdvanceKeepsBooks(req: HistoryRequest, script: seq<Fetch>, st: State)
    requires |script| >= req.budget && Books(req, st)
    ensures Books(req, Advance(req, script, st).0)
  {
    var r := Resume(req, st);
    ResumeSameRows(req, st);
    assert st.summary.requestCount <= req.budget;
    hide Resume, Receive, Books;
    SameRowsSameBooks(req, st, r);
    if r.phase.Finished? {
    } else if r.summary.requestCount >= req.budget {
      SameRowsSameBooks(req, r, Finish(r, RequestBudgetExhausted));
    } else {
      ReceiveKeepsBooks(req, r, script[r.summary.requestCount]);
    }
  }

  lemma {:induction false} DrainKeepsBooks(req: HistoryRequest, script: seq<Fetch>, st: State)
    requires |script| >= req.budget && Books(req, st)
    ensures Books(req, Drain(req, script, st))
    decreases req.budget - st.summary.requestCount
  {
    YieldCounts(req, script, st);
    AdvanceKeepsBooks(req, script, st);
    var (next, out) := Advance(req, script, st);
    if out.Yielded? {
      DrainKeepsBooks(req, script, next);
    }
    hide Advance, Books;
  }

  /** Whatever the provider does, the traversal stays within its request budget,
      emits at most one row per day, all in range, in pages whose days ascend
      and never overlap, and its counters balance: emitted = requested +
      preparation, received = emitted + duplicates + days out of range. */
  lemma AnyProvider(req: HistoryRequest, script: seq<Fetch>)
    requires req.Valid() && |script| >= req.budget
    ensures var end := Drain(req, script, FRESH);
      && end.phase.Finished?
      && Balanced(req, end) && Covering(req, end)
      && (forall page :: page in end.pages ==> Ascends(page.rows))
      && (forall i, j, x, y :: 0 <= i < j < |end.pages| && x in end.pages[i].rows && y in end.pages[j].rows ==>
            x.tradeDate != y.tradeDate)
  {
    assert OutOfRange(req, {}) == {};
    DrainKeepsBooks(req, script, FRESH);
    DrainFinishes(req, script, FRESH);
    var end := Drain(req, script, FRESH);
    forall page | page in end.pages ensures Ascends(page.rows) {
      var i :| 0 <= i < |end.pages| && end.pages[i] == page;
      PageDistinct(end.pages, i);
      SortedDistinctAscends(page.rows);
    }
    forall i, j, x, y | 0 <= i < j < |end.pages| && x in end.pages[i].rows && y in end.pages[j].rows
      ensures x.tradeDate != y.tradeDate
    {
      PagesDisjoint(end.pages, i, j, x, y);
    }
    hide Drain, Balanced, Covering;
  }

  /** Strictly increasing days. */
  ghost predicate Ascends(rows: seq<Payload>) {
    forall i, j :: 0 <= i < j < |rows| ==> rows[i].tradeDate < rows[j].tradeDate
  }

  lemma SortedDistinctAscends(rows: seq<Payload>)
    requires SortedBy(rows, PayloadKey) && DistinctKeys(rows, PayloadKey)
    ensures Ascends(rows)
  {
    forall i, j | 0 <= i < j < |rows| ensures rows[i].tradeDate < rows[j].tradeDate {
      SortedAt(rows, PayloadKey, i, j);
      DistinctAt(rows, PayloadKey, i, j);
    }
  }

  lemma {:induction false} DistinctParts<T(!new)>(xs: seq<T>, ys: seq<T>, key: T -> Key)
    requires DistinctKeys(xs + ys, key)
    ensures DistinctKeys(xs, key) && DistinctKeys(ys, key)
    ensures forall x, y :: x in xs && y in ys ==> key(x) != key(y)
  {
    if xs == [] {
      assert xs + ys == ys;
    } else {
      assert (xs + ys)[1..] == xs[1..] + ys;
      assert xs == [xs[0]] + xs[1..];
      DistinctParts(xs[1..], ys, key);
    }
  }

  lemma {:induction false} PageRowsEmitted(pages: seq<HistoryPage>, i: nat, x: Payload)
    requires i < |pages| && x in pages[i].rows
    ensures x in AllRows(pages)
    decreases |pages|
  {
    if i < |pages| - 1 {
      PageRowsEmitted(pages[..|pages| - 1], i, x);
    }
  }

  lemma {:induction false} PageDistinct(pages: seq<HistoryPage>, i: nat)
    requires i < |pages| && DistinctKeys(AllRows(pages), PayloadKey)
    ensures DistinctKeys(pages[i].rows, PayloadKey)
    decreases |pages|
  {
    DistinctParts(AllRows(pages[..|pages| - 1]), pages[|pages| - 1].rows, PayloadKey);
    if i < |pages| - 1 {
      PageDistinct(pages[..|pages| - 1], i);
    }
  }

  lemma {:induction false} PagesDisjoint(pages: seq<HistoryPage>, i: nat, j: nat, x: Payload, y: Payload)
    requires i < j < |pages| && DistinctKeys(AllRows(pages), PayloadKey)
    requires x in pages[i].rows && y in pages[j].rows
    ensures x.tradeDate != y.tradeDate
    decreases |pages|
  {
    var front := pages[..|pages| - 1];
    DistinctParts(AllRows(front), pages[|pages| - 1].rows, PayloadKey);
    PageRowsEmitted(front, i, x);
    if j < |pages| - 1 {
      PagesDisjoint(front, i, j, x, y);
    } else {
      assert PayloadKey(x) != PayloadKey(y);
    }
  }

  lemma {:induction false} DrainFinishes(req: HistoryRequest, script: seq<Fetch>, st: State)
    requires |script| >= req.budget
    ensures Drain(req, script, st).phase.Finished?
    decreases req.budget - st.summary.requestCount
  {
    YieldCounts(req, script, st);
    var (next, out) := Advance(req, script, st);
    if out.Yielded? {
      DrainFinishes(req, script, next);
    }
  }
}
