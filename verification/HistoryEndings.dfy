/** How every traversal ends, read off what the provider served. */
module HistoryEndings {
  import opened Common
  import opened Sorting
  import opened PriceTable
  import opened HistoryCollector
  import opened HistoryCompleteness

  /** The days of the first `n` pages. */
  function DaysBefore(script: seq<Fetch>, n: nat): set<Date>
    requires n <= |script|
  {
    if n == 0 then {} else DaysBefore(script, n - 1) + DaysOf(script[n - 1])
  }

  function DaysOf(f: Fetch): set<Date> { if f.Page? then (set row | row in f.rows :: row.tradeDate) else {} }

  /** The continuation keys of the first `n` pages. */
  function KeysBefore(script: seq<Fetch>, n: nat): set<nat>
    requires n <= |script|
  {
    if n == 0 then {} else KeysBefore(script, n - 1) + KeysOf(script[n - 1])
  }

  function KeysOf(f: Fetch): set<nat> { if f.Page? && f.nextKey.Some? then {f.nextKey.value} else {} }

  predicate BringsNewDay(script: seq<Fetch>, k: nat)
    requires k < |script| && script[k].Page?
  {
    exists row :: row in script[k].rows && row.tradeDate !in DaysBefore(script, k)
  }

  predicate ReachesStart(req: HistoryRequest, f: Fetch)
    requires f.Page?
  {
    var first := if req.preparationStart.Some? then req.preparationStart.value else req.start;
    exists row :: row in f.rows && row.tradeDate <= first
  }

  predicate HasNext(f: Fetch)
    requires f.Page?
  {
    f.continuation && f.nextKey.Some?
  }

  /** The k-th page is followed by another request, if the budget allows. */
  predicate Continues(req: HistoryRequest, script: seq<Fetch>, k: nat)
    requires k < |script|
  {
    && script[k].Page? && BringsNewDay(script, k) && !ReachesStart(req, script[k]) && HasNext(script[k])
    && script[k].nextKey.value !in KeysBefore(script, k)
  }

  /** What the first fetch that does not continue makes of the traversal. */
  function EndingAt(req: HistoryRequest, script: seq<Fetch>, k: nat): Option<Terminal>
    requires k < |script|
  {
    match script[k]
    case FetchFailed => Some(FailedFetch)
    case Unparsable(_) => Some(ProviderUnsupported)
    case Page(_, _, _, _) =>
      if !BringsNewDay(script, k) then Some(PaginationAnomaly)
      else if ReachesStart(req, script[k]) then Some(CollectionStartReached)
      else if !HasNext(script[k]) then Some(ProviderExhausted)
      else Some(PaginationAnomaly)
    case _ => None
  }

  predicate IsCounted(f: Fetch) { !f.FetchFailed? && !f.CrashInFetch? }

  // ---- the traversal between two pages ---------------------------------

  /** The generator has received `n` pages, all of which continue but perhaps the last. */
  ghost predicate After(req: HistoryRequest, script: seq<Fetch>, n: nat, st: State)
    requires n <= |script|
  {
    && st.summary.requestCount == n && st.summary.terminal.None?
    && st.seenDates == DaysBefore(script, n)
    && (n == 0 ==> st.phase == AtLoop && st.seenKeys == {})
    && (n > 0 ==>
          && script[n - 1].Page? && script[n - 1].rows != []
          && st.phase == AfterYield(Oldest(script[n - 1].rows), script[n - 1].continuation, script[n - 1].nextKey)
          && st.seenKeys == KeysBefore(script, n - 1) && BringsNewDay(script, n - 1))
  }

  lemma OldestReaches(req: HistoryRequest, f: Fetch)
    requires f.Page? && f.rows != []
    ensures Oldest(f.rows) <= req.CollectionStart() <==> ReachesStart(req, f)
  {
  }

  lemma AbsorbsDays(req: HistoryRequest, seen: set<Date>, f: Fetch)
    requires f.Page?
    ensures Absorb(req, seen, f.rows).seen == seen + DaysOf(f)
  {
    forall d ensures d in Absorb(req, seen, f.rows).seen <==> d in seen + DaysOf(f) {
      AbsorbSeen(req, seen, f.rows, d);
    }
  }

  /** A page is all duplicates exactly when it brings no new day. */
  lemma {:induction false} AllDuplicatesIff(req: HistoryRequest, seen: set<Date>, rows: seq<Payload>)
    ensures Absorb(req, seen, rows).duplicates == |rows| <==> forall row :: row in rows ==> row.tradeDate in seen
    decreases |rows|
  {
    AbsorbOnlyDuplicates(req, seen, rows);
    if rows != [] {
      var front, last := rows[..|rows| - 1], rows[|rows| - 1];
      assert rows == front + [last];
      AllDuplicatesIff(req, seen, front);
      AbsorbOnlyDuplicates(req, seen, front);
      AbsorbCounts(req, seen, front);
      assert last in rows && forall row :: row in rows <==> row in front || row == last;
    }
  }

  /** Resuming after a page goes on exactly when the page continues. */
  lemma ResumesAfter(req: HistoryRequest, script: seq<Fetch>, n: nat, st: State)
    requires 0 < n <= |script| && After(req, script, n, st)
    ensures var r := Resume(req, st);
      && r.summary.requestCount == n && r.seenDates == st.seenDates
      && if Continues(req, script, n - 1) then
           r.phase == AtLoop && r.summary.terminal.None? && r.seenKeys == KeysBefore(script, n)
         else r.phase == Finished && r.summary.terminal == EndingAt(req, script, n - 1)
  {
    hide BringsNewDay, ReachesStart, DaysBefore;
    OldestReaches(req, script[n - 1]);
  }

  /** Receiving one more page, after `n` that continue. */
  lemma ReceivesPage(req: HistoryRequest, script: seq<Fetch>, n: nat, st: State)
    requires n < |script| && script[n].Page? && st.phase == AtLoop && st.summary.terminal.None?
    requires st.summary.requestCount == n && st.seenDates == DaysBefore(script, n)
             && st.seenKeys == KeysBefore(script, n)
    ensures var (next, out) := Receive(req, st, script[n]);
      if BringsNewDay(script, n) then out.Yielded? && After(req, script, n + 1, next)
      else out.Stopped? && next.summary.terminal == Some(PaginationAnomaly) && next.summary.requestCount == n + 1
  {
    AbsorbsDays(req, st.seenDates, script[n]);
    AllDuplicatesIff(req, st.seenDates, script[n].rows);
    hide Absorb, SortBy, Oldest, DaysOf;
  }

  /** The first fetch that does not continue, or the budget. */
  function FirstStop(req: HistoryRequest, script: seq<Fetch>, n: nat): (k: nat)
    requires n <= req.budget <= |script|
    ensures n <= k <= req.budget && forall j :: n <= j < k ==> Continues(req, script, j)
    ensures k < req.budget ==> !Continues(req, script, k)
    decreases req.budget - n
  {
    if n == req.budget || !Continues(req, script, n) then n else FirstStop(req, script, n + 1)
  }

  /** From `n` pages that continue on: the end is settled by the first fetch that does not. */
  ghost predicate EndsAs(req: HistoryRequest, script: seq<Fetch>, k: nat, end: State)
    requires k <= req.budget <= |script|
  {
    if k == req.budget then end.summary.terminal == Some(RequestBudgetExhausted) && end.summary.requestCount == k
    else end.summary.terminal == EndingAt(req, script, k)
         && end.summary.requestCount == k + if IsCounted(script[k]) then 1 else 0
  }

  lemma FromLoop(req: HistoryRequest, script: seq<Fetch>, n: nat, r: State)
    requires n < req.budget <= |script| && r.phase == AtLoop && r.summary.terminal.None?
    requires r.summary.requestCount == n && r.seenDates == DaysBefore(script, n) && r.seenKeys == KeysBefore(script, n)
    ensures var (next, out) := Receive(req, r, script[n]);
      if out.Yielded? then After(req, script, n + 1, next)
      else !Continues(req, script, n) && EndsAs(req, script, n, next)
  {
    hide BringsNewDay, DaysBefore, KeysBefore;
    if script[n].Page? {
      ReceivesPage(req, script, n, r);
      hide ReceivePage, After;
    }
  }

  lemma {:induction false} DrainEnds(req: HistoryRequest, script: seq<Fetch>, n: nat, st: State)
    requires n <= req.budget <= |script| && After(req, script, n, st)
    ensures EndsAs(req, script, FirstStop(req, script, if n == 0 then 0 else n - 1), Drain(req, script, st))
    decreases req.budget - n
  {
    hide Receive, BringsNewDay, DaysBefore, KeysBefore, EndingAt, Continues, Resume;
    YieldCounts(req, script, st);
    var r := Resume(req, st);
    if n > 0 {
      ResumesAfter(req, script, n, st);
    } else {
      StartResumes(req, script, st);
    }
    if (n == 0 || Continues(req, script, n - 1)) && n < req.budget {
      FromLoop(req, script, n, r);
      var (next, out) := Receive(req, r, script[n]);
      if out.Yielded? {
        DrainEnds(req, script, n + 1, next);
      }
    }
    hide After, EndsAs;
  }

  lemma StartResumes(req: HistoryRequest, script: seq<Fetch>, st: State)
    requires After(req, script, 0, st)
    ensures Resume(req, st) == st && st.seenKeys == KeysBefore(script, 0)
  {
  }

  /** Every traversal asks on exactly as long as each page brings a new day, stays above
      the collection start and names a key not used before, within the budget; the
      first fetch that does not, or the budget, gives its terminal reason. */
  lemma EndingMeans(req: HistoryRequest, script: seq<Fetch>)
    requires req.budget <= |script|
    ensures var k, end := FirstStop(req, script, 0), Drain(req, script, FRESH);
      && (forall j :: 0 <= j < k ==> Continues(req, script, j)) && (k < req.budget ==> !Continues(req, script, k))
      && (end.summary.terminal == Some(RequestBudgetExhausted) <==> k == req.budget)
      && (end.summary.terminal == Some(CollectionStartReached) <==>
            k < req.budget && script[k].Page? && BringsNewDay(script, k) && ReachesStart(req, script[k]))
      && (end.summary.terminal == Some(ProviderExhausted) <==>
            k < req.budget && script[k].Page? && BringsNewDay(script, k) && !ReachesStart(req, script[k])
            && !HasNext(script[k]))
      && (end.summary.terminal == Some(PaginationAnomaly) <==>
            k < req.budget && script[k].Page?
            && (!BringsNewDay(script, k)
                || (!ReachesStart(req, script[k]) && HasNext(script[k])
                    && script[k].nextKey.value in KeysBefore(script, k))))
      && (end.summary.terminal == Some(FailedFetch) <==> k < req.budget && script[k].FetchFailed?)
      && (end.summary.terminal == Some(ProviderUnsupported) <==> k < req.budget && script[k].Unparsable?)
      && (end.summary.terminal == None <==>
            k < req.budget && (script[k].CrashInFetch? || script[k].CrashInParse?))
      && end.summary.requestCount
         == k + if k < req.budget && !script[k].FetchFailed? && !script[k].CrashInFetch? then 1 else 0
  {
    DrainEnds(req, script, 0, FRESH);
    hide Drain, BringsNewDay, ReachesStart, KeysBefore;
  }

  // ---- providers that serve steadily -----------------------------------

  /** Each of the first `n` answers was a page naming a next one. */
  ghost predicate Asked(script: seq<Fetch>, n: nat)
    requires n <= |script|
  {
    forall j :: 0 <= j < n ==> script[j].Page? && HasNext(script[j])
  }

  /** The next answer holds rows of the history with a new day, under a key not used before. */
  ghost predicate Serves(history: seq<Payload>, script: seq<Fetch>, n: nat)
    requires n < |script|
  {
    && script[n].Page? && (forall row :: row in script[n].rows ==> row in history) && BringsNewDay(script, n)
    && (script[n].nextKey.Some? ==> script[n].nextKey.value !in KeysBefore(script, n))
  }

  /** A provider that serves pages like this as long as it is asked on. */
  ghost predicate Steady(history: seq<Payload>, script: seq<Fetch>) {
    forall k :: 0 <= k < |script| && Asked(script, k) ==> Serves(history, script, k)
  }

  lemma {:induction false} DaysGrow(history: seq<Payload>, script: seq<Fetch>, n: nat)
    requires n <= |script| && Steady(history, script) && Asked(script, n)
    ensures |DaysBefore(script, n)| >= n && DaysBefore(script, n) <= DaysOfRows(history)
    decreases n
  {
    hide Asked, Serves, DaysOfRows, DaysOf;
    if n > 0 {
      AskedBefore(script, n);
      DaysGrow(history, script, n - 1);
      OneMoreDay(history, script, n - 1);
    }
  }

  lemma AskedBefore(script: seq<Fetch>, n: nat)
    requires 0 < n <= |script| && Asked(script, n)
    ensures Asked(script, n - 1)
  {
  }

  lemma OneMoreDay(history: seq<Payload>, script: seq<Fetch>, n: nat)
    requires n < |script| && Serves(history, script, n)
    ensures |DaysBefore(script, n + 1)| > |DaysBefore(script, n)|
    ensures DaysOf(script[n]) <= DaysOfRows(history)
  {
    var row :| row in script[n].rows && row.tradeDate !in DaysBefore(script, n);
    SubsetSize(DaysBefore(script, n) + {row.tradeDate}, DaysBefore(script, n + 1));
  }

  function DaysOfRows(rows: seq<Payload>): set<Date> { set row | row in rows :: row.tradeDate }

  lemma {:induction false} DaysAreFew(history: seq<Payload>)
    ensures |DaysOfRows(history)| <= |history|
  {
    if history != [] {
      DaysAreFew(history[1..]);
      assert history == [history[0]] + history[1..];
      assert DaysOfRows(history) == DaysOfRows(history[1..]) + {history[0].tradeDate};
    } else {
      assert DaysOfRows(history) == {};
    }
  }

  /** A provider that serves a history steadily is always read to a normal end by a
      budget of more requests than the history has rows. */
  lemma SteadyConcludes(req: HistoryRequest, history: seq<Payload>, script: seq<Fetch>)
    requires |history| < req.budget <= |script| && Steady(history, script)
    ensures Conclusive(Drain(req, script, FRESH))
  {
    hide Drain, BringsNewDay, ReachesStart, KeysBefore, Steady, Serves, DaysBefore, DaysOfRows;
    var k := FirstStop(req, script, 0);
    EndingMeans(req, script);
    AskedUntil(req, script, k);
    if k == req.budget {
      DaysGrow(history, script, k);
      DaysAreFew(history);
      SubsetSize(DaysBefore(script, k), DaysOfRows(history));
    } else {
      ServedAt(history, script, k);
    }
  }

  lemma AskedUntil(req: HistoryRequest, script: seq<Fetch>, k: nat)
    requires k <= |script| && forall j :: 0 <= j < k ==> Continues(req, script, j)
    ensures Asked(script, k)
  {
    forall j | 0 <= j < k ensures script[j].Page? && HasNext(script[j]) {
      assert Continues(req, script, j);
    }
  }

  lemma ServedAt(history: seq<Payload>, script: seq<Fetch>, k: nat)
    requires k < |script| && Steady(history, script) && Asked(script, k)
    ensures script[k].Page? && BringsNewDay(script, k)
    ensures script[k].nextKey.Some? ==> script[k].nextKey.value !in KeysBefore(script, k)
  {
    hide BringsNewDay, KeysBefore, Asked;
  }

  /** So it is read completely: every row of the range is emitted, exactly once. */
  lemma SteadyIsComplete(req: HistoryRequest, history: seq<Payload>, script: seq<Fetch>, slices: seq<Slice>)
    requires req.Valid() && |history| < req.budget <= |script|
    requires Steady(history, script) && Consistent(history, script, slices)
    ensures var emitted := AllRows(Drain(req, script, FRESH).pages);
      && (forall row :: row in emitted <==> row in history && req.InRange(row.tradeDate))
      && (forall i, j :: 0 <= i < j < |emitted| ==> emitted[i] != emitted[j])
  {
    hide Drain, AllRows, Steady, Consistent;
    SteadyConcludes(req, history, script);
    CompleteTraversal(req, history, script, slices);
  }
}
