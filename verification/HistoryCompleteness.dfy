/** Completeness of the collector against a provider that serves a descending
    history in possibly overlapping pages, and the collector as an object. */
module HistoryCompleteness {
  import opened Common
  import opened Sorting
  import opened PriceTable
  import opened HistoryCollector

  ghost predicate Descending(history: seq<Payload>) {
    forall i, j :: 0 <= i < j < |history| ==> history[i].tradeDate > history[j].tradeDate
  }

  /** The part of the history one page covers. */
  datatype Slice = Slice(lo: nat, hi: nat)

  /** How much of the history the pages so far have covered. */
  function Reach(slices: seq<Slice>): nat {
    if slices == [] then 0
    else
      var before, last := Reach(slices[..|slices| - 1]), slices[|slices| - 1].hi;
      if last > before then last else before
  }

  /** The i-th call returns slice i, in any row order; a page starts no later
      than what was covered before it, and pagination is declared over only when
      the whole history has been covered. */
  ghost predicate ServesAt(history: seq<Payload>, script: seq<Fetch>, slices: seq<Slice>, i: nat)
    requires i < |script| == |slices|
  {
    match script[i]
    case Page(rows, _, continuation, key) =>
      && slices[i].lo <= slices[i].hi <= |history|
      && slices[i].lo <= Reach(slices[..i])
      && (forall row :: row in rows <==> row in history[slices[i].lo..slices[i].hi])
      && (!continuation || key.None? ==> Reach(slices[..i + 1]) == |history|)
    case _ => slices[i].hi == 0
  }

  ghost predicate Consistent(history: seq<Payload>, script: seq<Fetch>, slices: seq<Slice>) {
    && Descending(history) && |slices| == |script|
    && forall i :: 0 <= i < |script| ==> ServesAt(history, script, slices, i)
  }

  lemma ReachNext(slices: seq<Slice>, n: nat)
    requires n < |slices|
    ensures Reach(slices[..n + 1]) == if slices[n].hi > Reach(slices[..n]) then slices[n].hi else Reach(slices[..n])
  {
    assert slices[..n + 1][..n] == slices[..n];
  }

  /** Day `d` lies among the first `n` rows of the history. */
  ghost predicate Within(history: seq<Payload>, n: nat, d: Date) {
    exists k :: 0 <= k < n && k < |history| && history[k].tradeDate == d
  }

  /** The seen days are exactly those of the covered part of the history. */
  ghost predicate Served(history: seq<Payload>, slices: seq<Slice>, st: State) {
    && st.summary.requestCount <= |slices|
    && (forall d :: d in st.seenDates <==> Within(history, Reach(slices[..st.summary.requestCount]), d))
    && (forall row :: row in AllRows(st.pages) ==> row in history)
  }

  /** The suspended generator remembers the page it yielded last. */
  ghost predicate Suspended(script: seq<Fetch>, st: State) {
    match st.phase
    case AfterYield(oldest, continuation, key) =>
      var n := st.summary.requestCount;
      && 1 <= n <= |script| && script[n - 1].Page? && script[n - 1].rows != []
      && oldest == Oldest(script[n - 1].rows)
      && continuation == script[n - 1].continuation && key == script[n - 1].nextKey
    case _ => true
  }

  /** Every row of the history that is in range has been covered. */
  ghost predicate Exhausted(req: HistoryRequest, history: seq<Payload>, n: nat) {
    forall k :: n <= k < |history| ==> !req.InRange(history[k].tradeDate)
  }

  ghost predicate Conclusive(st: State) {
    st.summary.terminal in {Some(CollectionStartReached), Some(ProviderExhausted)}
  }

  ghost predicate Concluded(req: HistoryRequest, history: seq<Payload>, slices: seq<Slice>, st: State) {
    st.summary.requestCount <= |slices|
    && (Conclusive(st) ==> Exhausted(req, history, Reach(slices[..st.summary.requestCount])))
  }

  lemma PageWithin(history: seq<Payload>, slices: seq<Slice>, n: nat, rows: seq<Payload>, d: Date)
    requires n < |slices| && slices[n].lo <= slices[n].hi <= |history| && slices[n].lo <= Reach(slices[..n])
    requires forall row :: row in rows <==> row in history[slices[n].lo..slices[n].hi]
    ensures Within(history, Reach(slices[..n + 1]), d) <==>
              Within(history, Reach(slices[..n]), d) || exists row :: row in rows && row.tradeDate == d
  {
    ReachNext(slices, n);
    var part := history[slices[n].lo..slices[n].hi];
    if Within(history, Reach(slices[..n + 1]), d) && !Within(history, Reach(slices[..n]), d) {
      var k :| 0 <= k < Reach(slices[..n + 1]) && k < |history| && history[k].tradeDate == d;
      assert part[k - slices[n].lo] == history[k];
      assert history[k] in rows;
    }
    if row :| row in rows && row.tradeDate == d {
      var i :| 0 <= i < |part| && part[i] == row;
      assert history[slices[n].lo + i] == row;
    }
  }

  lemma ReceivePageServed(req: HistoryRequest, history: seq<Payload>, script: seq<Fetch>, slices: seq<Slice>, st: State)
    requires Consistent(history, script, slices) && Served(history, slices, st)
    requires st.summary.requestCount < |script| && script[st.summary.requestCount].Page?
    ensures Served(history, slices, ReceivePage(req, st, script[st.summary.requestCount]).0)
  {
    var n := st.summary.requestCount;
    var f := script[n];
    PageServes(history, script, slices, n);
    ReceivePageSees(req, st, f);
    hide ReceivePage, Reach, AllRows, Within, Consistent;
    forall d ensures d in ReceivePage(req, st, f).0.seenDates <==> Within(history, Reach(slices[..n + 1]), d) {
      PageWithin(history, slices, n, f.rows, d);
    }
    ReceivePageRows(req, history, f, st);
  }

  lemma PageServes(history: seq<Payload>, script: seq<Fetch>, slices: seq<Slice>, n: nat)
    requires Consistent(history, script, slices) && n < |script| && script[n].Page?
    ensures n < |slices| && slices[n].lo <= slices[n].hi <= |history| && slices[n].lo <= Reach(slices[..n])
    ensures forall row :: row in script[n].rows <==> row in history[slices[n].lo..slices[n].hi]
  {
    assert ServesAt(history, script, slices, n);
    hide Reach;
  }

  /** A page counts one request and adds its days to the seen ones. */
  lemma ReceivePageSees(req: HistoryRequest, st: State, f: Fetch)
    requires f.Page?
    ensures var next := ReceivePage(req, st, f).0;
      && next.summary.requestCount == st.summary.requestCount + 1
      && forall d :: d in next.seenDates <==> d in st.seenDates || exists row :: row in f.rows && row.tradeDate == d
  {
    AbsorbOnlyDuplicates(req, st.seenDates, f.rows);
    hide Absorb, Oldest, SortBy;
    forall d ensures d in Absorb(req, st.seenDates, f.rows).seen <==>
        d in st.seenDates || exists row :: row in f.rows && row.tradeDate == d {
      AbsorbSeen(req, st.seenDates, f.rows, d);
    }
  }

  lemma ReceivePageRows(req: HistoryRequest, history: seq<Payload>, f: Fetch, st: State)
    requires f.Page? && forall row :: row in AllRows(st.pages) ==> row in history
    requires forall row :: row in f.rows ==> row in history
    ensures forall row :: row in AllRows(ReceivePage(req, st, f).0.pages) ==> row in history
  {
    var kept := Absorb(req, st.seenDates, f.rows).kept;
    AbsorbKept(req, st.seenDates, f.rows);
    SortMembers(kept, PayloadKey);
    AllRowsAppend(st.pages, HistoryPage(st.summary.requestCount + 1, SortBy(kept, PayloadKey)));
  }

  lemma ReceiveServed(req: HistoryRequest, history: seq<Payload>, script: seq<Fetch>, slices: seq<Slice>, st: State)
    requires Consistent(history, script, slices) && Served(history, slices, st)
    requires st.summary.requestCount < |script|
    ensures Served(history, slices, Receive(req, st, script[st.summary.requestCount]).0)
  {
    var n := st.summary.requestCount;
    if script[n].Page? {
      ReceivePageServed(req, history, script, slices, st);
    } else {
      assert ServesAt(history, script, slices, n);
      ReachNext(slices, n);
    }
    hide ReceivePage, AllRows, Within;
  }

  lemma ReceiveSuspends(req: HistoryRequest, script: seq<Fetch>, st: State)
    requires st.summary.requestCount < |script| && st.phase.AtLoop? && st.summary.terminal.None?
    ensures var next := Receive(req, st, script[st.summary.requestCount]).0;
      Suspended(script, next) && !Conclusive(next) && (!next.phase.Finished? ==> next.summary.terminal.None?)
  {
    hide Absorb, SortBy;
  }

  /** Everything not yet covered is older than the oldest row of the last page. */
  lemma UncoveredIsOlder(history: seq<Payload>, rows: seq<Payload>, s: Slice, reach: nat)
    requires Descending(history) && rows != [] && s.lo <= s.hi <= |history| && s.hi <= reach
    requires forall row :: row in rows <==> row in history[s.lo..s.hi]
    ensures forall k :: reach <= k < |history| ==> history[k].tradeDate < Oldest(rows)
  {
    var d := Oldest(rows);
    var row :| row in rows && row.tradeDate == d;
    var part := history[s.lo..s.hi];
    var i :| 0 <= i < |part| && part[i] == row;
    assert history[s.lo + i].tradeDate == Oldest(rows);
  }

  /** Ending the traversal after a page is justified by that page. */
  lemma ResumeConcludes(req: HistoryRequest, history: seq<Payload>, script: seq<Fetch>, slices: seq<Slice>, st: State)
    requires Consistent(history, script, slices) && Suspended(script, st) && st.summary.terminal.None?
    requires st.summary.requestCount <= |slices| && !st.phase.Finished?
    ensures Concluded(req, history, slices, Resume(req, st))
  {
    hide Reach, Oldest;
    if st.phase.AfterYield? {
      var n := st.summary.requestCount;
      assert ServesAt(history, script, slices, n - 1);
      ReachNext(slices, n - 1);
      UncoveredIsOlder(history, script[n - 1].rows, slices[n - 1], Reach(slices[..n]));
    }
  }

  ghost predicate Tracking(req: HistoryRequest, history: seq<Payload>, script: seq<Fetch>, slices: seq<Slice>,
                           st: State)
  {
    && Served(history, slices, st) && Suspended(script, st) && Concluded(req, history, slices, st)
    && (!st.phase.Finished? ==> st.summary.terminal.None?)
  }

  lemma ResumeTracks(req: HistoryRequest, history: seq<Payload>, script: seq<Fetch>, slices: seq<Slice>, st: State)
    requires Consistent(history, script, slices) && Tracking(req, history, script, slices, st)
    ensures Tracking(req, history, script, slices, Resume(req, st))
  {
    if !st.phase.Finished? {
      ResumeConcludes(req, history, script, slices, st);
    }
    hide AllRows, Reach, Consistent, Exhausted;
  }

  lemma AdvanceTracks(req: HistoryRequest, history: seq<Payload>, script: seq<Fetch>, slices: seq<Slice>, st: State)
    requires |script| >= req.budget
    requires Consistent(history, script, slices) && Tracking(req, history, script, slices, st)
    ensures Tracking(req, history, script, slices, Advance(req, script, st).0)
  {
    hide Consistent, AllRows, Exhausted, Receive;
    var r := Resume(req, st);
    ResumeTracks(req, history, script, slices, st);
    if !r.phase.Finished? && r.summary.requestCount < req.budget {
      ResumeLoops(req, st);
      ReceiveServed(req, history, script, slices, r);
      ReceiveSuspends(req, script, r);
    }
  }

  lemma ResumeLoops(req: HistoryRequest, st: State)
    ensures Resume(req, st).phase.Finished? || Resume(req, st).phase.AtLoop?
  {
  }

  lemma {:induction false} DrainTracks(req: HistoryRequest, history: seq<Payload>, script: seq<Fetch>,
                                       slices: seq<Slice>, st: State)
    requires |script| >= req.budget
    requires Consistent(history, script, slices) && Tracking(req, history, script, slices, st)
    ensures Tracking(req, history, script, slices, Drain(req, script, st))
    decreases req.budget - st.summary.requestCount
  {
    YieldCounts(req, script, st);
    AdvanceTracks(req, history, script, slices, st);
    var (next, out) := Advance(req, script, st);
    if out.Yielded? {
      DrainTracks(req, history, script, slices, next);
    }
    hide Advance, Tracking, Consistent;
  }

  /** A traversal that ends at the collection start, or because the provider ran
      out, has emitted every provider row dated in [collection_start, end], and
      nothing else, each exactly once. */
  lemma CompleteTraversal(req: HistoryRequest, history: seq<Payload>, script: seq<Fetch>, slices: seq<Slice>)
    requires req.Valid() && |script| >= req.budget && Consistent(history, script, slices)
    requires Conclusive(Drain(req, script, FRESH))
    ensures var emitted := AllRows(Drain(req, script, FRESH).pages);
      && (forall row :: row in emitted <==> row in history && req.InRange(row.tradeDate))
      && (forall i, j :: 0 <= i < j < |emitted| ==> emitted[i] != emitted[j])
  {
    var end := Drain(req, script, FRESH);
    var emitted := AllRows(end.pages);
    assert Reach(slices[..0]) == 0;
    DrainTracks(req, history, script, slices, FRESH);
    AnyProvider(req, script);
    forall row | row in history && req.InRange(row.tradeDate) ensures row in emitted {
      EmittedIfCovered(req, history, slices, end, row);
    }
    forall i, j | 0 <= i < j < |emitted| ensures emitted[i] != emitted[j] {
      DistinctAt(emitted, PayloadKey, i, j);
    }
    hide Drain, AllRows, Consistent;
  }

  lemma EmittedIfCovered(req: HistoryRequest, history: seq<Payload>, slices: seq<Slice>, end: State, row: Payload)
    requires Descending(history) && Served(history, slices, end) && Covering(req, end)
    requires Exhausted(req, history, Reach(slices[..end.summary.requestCount]))
    requires row in history && req.InRange(row.tradeDate)
    ensures row in AllRows(end.pages)
  {
    var k :| 0 <= k < |history| && history[k] == row;
    assert Within(history, Reach(slices[..end.summary.requestCount]), row.tradeDate);
    var other :| other in AllRows(end.pages) && other.tradeDate == row.tradeDate;
    var m :| 0 <= m < |history| && history[m] == other;
    assert m == k;
  }

  // ---- the collector object --------------------------------------------

  class KiwoomHistoryIterator {
    const request: HistoryRequest
    const script: seq<Fetch>
    var summary: Summary
    var seenDates: set<Date>
    var seenKeys: set<nat>
    var phase: Phase
    ghost var pages: seq<HistoryPage>

    ghost function View(): State
      reads this
    {
      State(summary, seenDates, seenKeys, phase, pages)
    }

    ghost predicate Valid()
      reads this
    {
      request.Valid() && |script| >= request.budget && Books(request, View())
    }

    constructor (request: HistoryRequest, script: seq<Fetch>)
      requires request.Valid() && |script| >= request.budget
      ensures this.request == request && this.script == script
      ensures View() == FRESH && Valid()
    {
      this.request, this.script := request, script;
      summary, seenDates, seenKeys, phase, pages := FRESH.summary, {}, {}, AtLoop, [];
      new;
      assert OutOfRange(request, {}) == {};
    }

    /** The row loop of one page. */
    method AbsorbRows(rows: seq<Payload>) returns (kept: seq<Payload>, duplicates: nat)
      modifies this`seenDates, this`summary
      ensures var a := Absorb(request, old(seenDates), rows);
        && seenDates == a.seen && kept == a.kept && duplicates == a.duplicates
        && summary == old(summary).(requested := old(summary).requested + a.requested,
                                    preparation := old(summary).preparation + a.preparation)
    {
      kept, duplicates := [], 0;
      var i := 0;
      while i < |rows|
        invariant 0 <= i <= |rows|
        invariant var a := Absorb(request, old(seenDates), rows[..i]);
          && seenDates == a.seen && kept == a.kept && duplicates == a.duplicates
          && summary == old(summary).(requested := old(summary).requested + a.requested,
                                      preparation := old(summary).preparation + a.preparation)
      {
        assert rows[..i + 1][..i] == rows[..i];
        var row := rows[i];
        if row.tradeDate in seenDates {
          duplicates := duplicates + 1;
        } else {
          seenDates := seenDates + {row.tradeDate};
          if request.InRange(row.tradeDate) {
            kept := kept + [row];
            if row.tradeDate < request.start {
              summary := summary.(preparation := summary.preparation + 1);
            } else {
              summary := summary.(requested := summary.requested + 1);
            }
          }
        }
        i := i + 1;
      }
      assert rows[..i] == rows;
    }

    /** One received page: count it, drop duplicates, yield the sorted rest. */
    method TakePage(f: Fetch) returns (out: Outcome)
      requires f.Page?
      modifies this
      ensures (View(), out) == ReceivePage(request, old(View()), f)
    {
      hide Absorb, SortBy, Oldest;
      summary := summary.(requestCount := summary.requestCount + 1, received := summary.received + |f.rows|,
                          invalid := summary.invalid + f.invalid);
      if f.rows == [] {
        summary, phase := summary.(terminal := Some(PaginationAnomaly)), Finished;
        return Stopped;
      }
      var kept, duplicates := AbsorbRows(f.rows);
      summary := summary.(duplicates := summary.duplicates + duplicates, emitted := summary.emitted + |kept|);
      if duplicates == |f.rows| {
        summary, phase := summary.(terminal := Some(PaginationAnomaly)), Finished;
        return Stopped;
      }
      var page := HistoryPage(summary.requestCount, SortBy(kept, PayloadKey));
      phase, pages := AfterYield(Oldest(f.rows), f.continuation, f.nextKey), pages + [page];
      return Yielded(page);
    }

    /** Resume the generator until it yields, stops or raises. */
    method Next() returns (out: Outcome)
      requires Valid()
      modifies this
      ensures Valid()
      ensures (View(), out) == Advance(request, script, old(View()))
    {
      hide Books;
      AdvanceKeepsBooks(request, script, View());
      CheckContinuation();
      if phase.Finished? {
        return Stopped;
      }
      if summary.requestCount >= request.budget {
        summary, phase := summary.(terminal := Some(RequestBudgetExhausted)), Finished;
        return Stopped;
      }
      var f := script[summary.requestCount];
      match f
      case FetchFailed =>
        summary, phase := summary.(terminal := Some(FailedFetch)), Finished;
        return Stopped;
      case CrashInFetch =>
        phase := Finished;
        return Raised;
      case Unparsable(n) =>
        summary := summary.(requestCount := summary.requestCount + 1, invalid := summary.invalid + n,
                            terminal := Some(ProviderUnsupported));
        phase := Finished;
        return Stopped;
      case CrashInParse =>
        summary, phase := summary.(requestCount := summary.requestCount + 1), Finished;
        return Raised;
      case Page(_, _, _, _) =>
        out := TakePage(f);
    }

    /** The boundary checks that follow a yielded page. */
    method CheckContinuation()
      modifies this
      ensures View() == Resume(request, old(View()))
    {
      if phase.AfterYield? {
        if phase.oldest <= request.CollectionStart() {
          summary, phase := summary.(terminal := Some(CollectionStartReached)), Finished;
        } else if !phase.continuation || phase.nextKey.None? {
          summary, phase := summary.(terminal := Some(ProviderExhausted)), Finished;
        } else if phase.nextKey.value in seenKeys {
          summary, phase := summary.(terminal := Some(PaginationAnomaly)), Finished;
        } else {
          seenKeys, phase := seenKeys + {phase.nextKey.value}, AtLoop;
        }
      }
    }
  }
}
