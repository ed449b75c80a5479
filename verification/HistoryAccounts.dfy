/** What a traversal has emitted and counted, read off what the provider served. */
module HistoryAccounts {
  import opened Common
  import opened Sorting
  import opened PriceTable
  import opened HistoryCollector
  import opened HistoryEndings

  /** `row` is the first row of its day in `rows`. */
  ghost predicate FirstOfDay(rows: seq<Payload>, row: Payload) {
    exists i :: 0 <= i < |rows| && rows[i] == row && forall j :: 0 <= j < i ==> rows[j].tradeDate != row.tradeDate
  }

  /** The day lies between the collection start, or the start of the preparation, and the end. */
  predicate Within(req: HistoryRequest, d: Date) {
    d <= req.end && (if req.preparationStart.Some? then req.preparationStart.value else req.start) <= d
  }

  /** What the k-th page adds: the first row of each new day in the collection range. */
  ghost predicate Kept(req: HistoryRequest, script: seq<Fetch>, k: nat, rows: seq<Payload>)
    requires k < |script| && script[k].Page?
  {
    forall row :: row in rows <==>
      Within(req, row.tradeDate) && row.tradeDate !in DaysBefore(script, k) && FirstOfDay(script[k].rows, row)
  }

  ghost predicate Logged(req: HistoryRequest, script: seq<Fetch>, pages: seq<HistoryPage>) {
    && |pages| <= |script|
    && forall k :: 0 <= k < |pages| ==>
         script[k].Page? && pages[k].number == k + 1 && Kept(req, script, k, pages[k].rows)
  }

  /** Rows, and rows that could not be parsed, in the first `n` answers. */
  function Received(script: seq<Fetch>, n: nat): nat
    requires n <= |script|
  {
    if n == 0 then 0 else Received(script, n - 1) + if script[n - 1].Page? then |script[n - 1].rows| else 0
  }

  function Invalid(script: seq<Fetch>, n: nat): nat
    requires n <= |script|
  {
    if n == 0 then 0
    else Invalid(script, n - 1) + match script[n - 1]
           case Page(_, invalid, _, _) => invalid
           case Unparsable(invalid) => invalid
           case _ => 0
  }

  function From(d: Date): Payload -> bool { (row: Payload) => d <= row.tradeDate }

  ghost predicate Counts(req: HistoryRequest, script: seq<Fetch>, st: State) {
    && st.summary.requestCount <= |script|
    && st.summary.received == Received(script, st.summary.requestCount)
    && st.summary.invalid == Invalid(script, st.summary.requestCount)
    && st.summary.requested == |Filter(AllRows(st.pages), From(req.start))|
  }

  lemma FirstOfDayAppend(rows: seq<Payload>, last: Payload, row: Payload)
    ensures FirstOfDay(rows + [last], row)
       <==> FirstOfDay(rows, row) || (row == last && forall x :: x in rows ==> x.tradeDate != row.tradeDate)
  {
    var all := rows + [last];
    if FirstOfDay(rows, row) {
      var i :| 0 <= i < |rows| && rows[i] == row && forall j :: 0 <= j < i ==> rows[j].tradeDate != row.tradeDate;
      assert all[i] == row && forall j :: 0 <= j < i ==> all[j] == rows[j];
    }
    if row == last && forall x :: x in rows ==> x.tradeDate != row.tradeDate {
      assert all[|rows|] == row && forall j :: 0 <= j < |rows| ==> all[j] == rows[j] && rows[j] in rows;
    }
    if FirstOfDay(all, row) {
      var i :| 0 <= i < |all| && all[i] == row && forall j :: 0 <= j < i ==> all[j].tradeDate != row.tradeDate;
      assert forall j :: 0 <= j < |rows| ==> all[j] == rows[j];
    }
  }

  lemma {:induction false} AbsorbFirsts(req: HistoryRequest, seen: set<Date>, rows: seq<Payload>, row: Payload)
    ensures row in Absorb(req, seen, rows).kept
       <==> req.InRange(row.tradeDate) && row.tradeDate !in seen && FirstOfDay(rows, row)
    decreases |rows|
  {
    if rows != [] {
      var front, last := rows[..|rows| - 1], rows[|rows| - 1];
      assert rows == front + [last];
      AbsorbFirsts(req, seen, front, row);
      FirstOfDayAppend(front, last, row);
      AbsorbSeen(req, seen, front, last.tradeDate);
      hide FirstOfDay;
    }
  }

  lemma {:induction false} AbsorbRequested(req: HistoryRequest, seen: set<Date>, rows: seq<Payload>)
    ensures |Filter(Absorb(req, seen, rows).kept, From(req.start))| == Absorb(req, seen, rows).requested
    decreases |rows|
  {
    if rows != [] {
      var before := Absorb(req, seen, rows[..|rows| - 1]);
      AbsorbRequested(req, seen, rows[..|rows| - 1]);
      FilterAppend(before.kept, [rows[|rows| - 1]], From(req.start));
    }
  }

  lemma SameLength<T>(xs: seq<T>, ys: seq<T>)
    requires multiset(xs) == multiset(ys)
    ensures |xs| == |ys|
  {
    assert |multiset(xs)| == |xs| && |multiset(ys)| == |ys|;
  }

  lemma SortedRequested(req: HistoryRequest, seen: set<Date>, rows: seq<Payload>, pages: seq<HistoryPage>, number: nat)
    ensures var a := Absorb(req, seen, rows); var sorted := SortBy(a.kept, PayloadKey);
      |Filter(AllRows(pages + [HistoryPage(number, sorted)]), From(req.start))|
      == |Filter(AllRows(pages), From(req.start))| + a.requested
  {
    hide Absorb, AllRows, SortBy, Filter, From;
    var kept := Absorb(req, seen, rows).kept;
    var sorted := SortBy(kept, PayloadKey);
    AbsorbRequested(req, seen, rows);
    FilterPermutation(kept, sorted, From(req.start));
    SameLength(Filter(kept, From(req.start)), Filter(sorted, From(req.start)));
    FilterAppend(AllRows(pages), sorted, From(req.start));
    AllRowsAppend(pages, HistoryPage(number, sorted));
  }

  lemma NothingRequested(req: HistoryRequest, seen: set<Date>, rows: seq<Payload>)
    requires Absorb(req, seen, rows).duplicates == |rows|
    ensures Absorb(req, seen, rows).requested == 0
  {
    AbsorbOnlyDuplicates(req, seen, rows);
    AbsorbCounts(req, seen, rows);
  }

  lemma PageRequested(req: HistoryRequest, st: State, f: Fetch)
    requires f.Page? && st.summary.requested == |Filter(AllRows(st.pages), From(req.start))|
    ensures var next := ReceivePage(req, st, f).0;
      next.summary.requested == |Filter(AllRows(next.pages), From(req.start))|
  {
    hide Absorb, AllRows, SortBy, Filter, From, Oldest;
    if Absorb(req, st.seenDates, f.rows).duplicates == |f.rows| {
      NothingRequested(req, st.seenDates, f.rows);
    } else {
      SortedRequested(req, st.seenDates, f.rows, st.pages, st.summary.requestCount + 1);
    }
  }

  lemma ReceiveCounts(req: HistoryRequest, script: seq<Fetch>, st: State)
    requires st.summary.requestCount < |script| && Counts(req, script, st)
    ensures Counts(req, script, Receive(req, st, script[st.summary.requestCount]).0)
  {
    hide Filter, From, AllRows, Absorb, SortBy, Oldest;
    if script[st.summary.requestCount].Page? {
      PageRequested(req, st, script[st.summary.requestCount]);
    }
  }

  lemma ResumeCounts(req: HistoryRequest, script: seq<Fetch>, st: State)
    requires Counts(req, script, st)
    ensures Counts(req, script, Resume(req, st))
    ensures Counts(req, script, Finish(Resume(req, st), RequestBudgetExhausted))
  {
    hide Filter, From, AllRows;
  }

  lemma {:induction false} DrainCounts(req: HistoryRequest, script: seq<Fetch>, st: State)
    requires |script| >= req.budget && Counts(req, script, st)
    ensures Counts(req, script, Drain(req, script, st))
    decreases req.budget - st.summary.requestCount
  {
    hide Resume, Receive, Counts;
    YieldCounts(req, script, st);
    ResumeCounts(req, script, st);
    var r := Resume(req, st);
    var (next, out) := Advance(req, script, st);
    if !r.phase.Finished? && r.summary.requestCount < req.budget {
      ReceiveCounts(req, script, r);
      if out.Yielded? {
        DrainCounts(req, script, next);
      }
    }
  }

  /** One more page, after `n` that continue, is logged with the rows it adds. */
  lemma LogsPage(req: HistoryRequest, script: seq<Fetch>, st: State)
    requires st.summary.requestCount == |st.pages| < |script| && Logged(req, script, st.pages)
    requires st.seenDates == DaysBefore(script, |st.pages|)
    ensures var (next, out) := Receive(req, st, script[|st.pages|]);
      && Logged(req, script, next.pages)
      && |next.pages| == |st.pages| + if out.Yielded? then 1 else 0
  {
    hide Absorb, SortBy, Oldest, FirstOfDay, DaysBefore;
    var f := script[|st.pages|];
    if f.Page? {
      var kept := Absorb(req, st.seenDates, f.rows).kept;
      SortMembers(kept, PayloadKey);
      forall row ensures row in SortBy(kept, PayloadKey) <==>
          Within(req, row.tradeDate) && row.tradeDate !in DaysBefore(script, |st.pages|) && FirstOfDay(f.rows, row)
      {
        AbsorbFirsts(req, st.seenDates, f.rows, row);
      }
    }
  }

  lemma {:induction false} DrainLogs(req: HistoryRequest, script: seq<Fetch>, st: State)
    requires |st.pages| <= req.budget <= |script|
    requires After(req, script, |st.pages|, st) && Logged(req, script, st.pages)
    ensures Logged(req, script, Drain(req, script, st).pages)
    ensures var k := FirstStop(req, script, if st.pages == [] then 0 else |st.pages| - 1);
      |Drain(req, script, st).pages|
      == k + if k < req.budget && script[k].Page? && BringsNewDay(script, k) then 1 else 0
    decreases req.budget - st.summary.requestCount
  {
    hide Receive, BringsNewDay, DaysBefore, KeysBefore, EndingAt, Continues, Resume, Logged;
    var n := |st.pages|;
    YieldCounts(req, script, st);
    var r := Resume(req, st);
    if n > 0 {
      ResumesAfter(req, script, n, st);
    } else {
      StartResumes(req, script, st);
    }
    ResumeSameRows(req, st);
    if (n == 0 || Continues(req, script, n - 1)) && n < req.budget {
      FromLoop(req, script, n, r);
      LogsPage(req, script, r);
      var (next, out) := Receive(req, r, script[n]);
      YieldsNewDay(req, script, n, r);
      if out.Yielded? {
        DrainLogs(req, script, next);
      }
    }
    hide After, EndsAs;
  }

  lemma YieldsNewDay(req: HistoryRequest, script: seq<Fetch>, n: nat, r: State)
    requires n < req.budget <= |script| && r.phase == AtLoop && r.summary.terminal.None?
    requires r.summary.requestCount == n && r.seenDates == DaysBefore(script, n) && r.seenKeys == KeysBefore(script, n)
    ensures Receive(req, r, script[n]).1.Yielded? <==> script[n].Page? && BringsNewDay(script, n)
  {
    hide BringsNewDay, DaysBefore, KeysBefore;
    if script[n].Page? {
      ReceivesPage(req, script, n, r);
      hide ReceivePage, After;
    }
  }

  /** Whatever the provider serves: the page emitted for an answer holds exactly the
      first row of each day that is in the collection range and new with this answer, a
      page is emitted for each answer up to the one that stops, and for that one if it
      holds a new day, and each counter is what its name says of the answers or the rows. */
  lemma EmissionMeans(req: HistoryRequest, script: seq<Fetch>)
    requires req.budget <= |script|
    ensures var k, end := FirstStop(req, script, 0), Drain(req, script, FRESH);
      && |end.pages| == k + (if k < req.budget && script[k].Page? && BringsNewDay(script, k) then 1 else 0)
      && |end.pages| <= end.summary.requestCount <= |script|
      && (forall i :: 0 <= i < |end.pages| ==>
            script[i].Page? && end.pages[i].number == i + 1 && Kept(req, script, i, end.pages[i].rows))
      && end.summary.received == Received(script, end.summary.requestCount)
      && end.summary.invalid == Invalid(script, end.summary.requestCount)
      && end.summary.requested == |Filter(AllRows(end.pages), (row: Payload) => req.start <= row.tradeDate)|
  {
    hide Drain, BringsNewDay, DaysBefore;
    assert Counts(req, script, FRESH);
    DrainCounts(req, script, FRESH);
    StartsLogged(req, script);
    DrainLogs(req, script, FRESH);
    EndingMeans(req, script);
    FilterSame(AllRows(Drain(req, script, FRESH).pages), From(req.start), (row: Payload) => req.start <= row.tradeDate);
  }

  lemma StartsLogged(req: HistoryRequest, script: seq<Fetch>)
    ensures Logged(req, script, FRESH.pages) && After(req, script, 0, FRESH)
  {
  }
}
