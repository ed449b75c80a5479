/** What a session's report adds up to when nothing raises. */
module BackfillReports {
  import opened Common
  import opened Sorting
  import opened PriceTable
  import opened HistoryCollector
  import opened BackfillPlan
  import opened BackfillState
  import opened BackfillSession
  import opened BackfillCourse
  import opened BackfillTargets
  import opened BackfillFates
  import opened BackfillTallies
  import opened BackfillObservations

  /** The canonical price of the observed day is another one. */
  function InConflict(prices: Prices): Observation -> bool {
    (o: Observation) => (o.symbolId, o.tradeDate) !in prices || prices[(o.symbolId, o.tradeDate)].value != o.value
  }

  ghost predicate Priced(seen: seq<Observation>, prices: Prices) {
    forall o :: o in seen ==> (o.symbolId, o.tradeDate) in prices
  }

  /** Inserted rows are the new prices, and every observation since `base` is counted
      once: inserted, the same as the canonical price, or in conflict with it. */
  ghost predicate Tallied(base: Db, prices: Prices, seen: seq<Observation>, r: Report) {
    && Extends(base.prices, prices) && Priced(seen, prices)
    && r.inserted + |base.prices| == |prices|
    && r.inserted + r.same + r.conflict == |seen|
    && r.conflict == |Filter(seen, InConflict(prices))|
  }

  lemma ConflictsExtend(seen: seq<Observation>, prices: Prices, later: Prices)
    requires Priced(seen, prices) && Extends(prices, later)
    ensures Priced(seen, later) && |Filter(seen, InConflict(later))| == |Filter(seen, InConflict(prices))|
  {
    FilterSame(seen, InConflict(prices), InConflict(later));
  }

  lemma {:induction false} ObservedConflicts(symbol: nat, rows: seq<Payload>, provider: nat, now: Instant,
                                             prices: Prices)
    ensures |Filter(Observed(symbol, rows, provider, now), InConflict(prices))|
         == |Filter(rows, Differing(prices, symbol))|
  {
    if rows != [] {
      assert Observed(symbol, rows, provider, now)[1..] == Observed(symbol, rows[1..], provider, now);
      ObservedConflicts(symbol, rows[1..], provider, now, prices);
    }
  }

  lemma SaveTallies(base: Db, prices: Prices, seen: seq<Observation>, r: Report, symbol: nat, provider: nat,
                    rows: seq<Payload>, now: Instant)
    requires Tallied(base, prices, seen, r) && DistinctKeys(rows, PayloadKey)
    ensures var saved := SaveAll(prices, symbol, provider, false, rows);
      Tallied(base, saved.table, seen + Observed(symbol, rows, provider, now), Merged(r, saved.report))
  {
    hide SaveAll, Filter, InConflict, Differing, DistinctKeys;
    var saved := SaveAll(prices, symbol, provider, false, rows);
    var shown := Observed(symbol, rows, provider, now);
    SaveGrows(prices, symbol, provider, false, rows);
    SaveCounts(prices, symbol, provider, false, rows);
    HistoricalNeverAlters(prices, symbol, provider, rows);
    ExtendsTransitive(base.prices, prices, saved.table);
    ConflictsCounted(prices, symbol, provider, false, rows);
    ObservedConflicts(symbol, rows, provider, now, saved.table);
    ConflictsExtend(seen, prices, saved.table);
    FilterAppend(seen, shown, InConflict(saved.table));
    ShownPriced(prices, symbol, provider, rows, now);
    PricedAppend(seen, shown, saved.table);
  }

  lemma PricedAppend(a: seq<Observation>, b: seq<Observation>, prices: Prices)
    requires Priced(a, prices) && Priced(b, prices)
    ensures Priced(a + b, prices)
  {
  }

  lemma ShownPriced(prices: Prices, symbol: nat, provider: nat, rows: seq<Payload>, now: Instant)
    ensures Priced(Observed(symbol, rows, provider, now), SaveAll(prices, symbol, provider, false, rows).table)
  {
    var shown := Observed(symbol, rows, provider, now);
    forall o | o in shown ensures (o.symbolId, o.tradeDate) in SaveAll(prices, symbol, provider, false, rows).table {
      var k :| 0 <= k < |shown| && shown[k] == o;
      assert rows[k] in rows;
      SavedKeys(prices, symbol, provider, false, rows, (symbol, rows[k].tradeDate));
    }
    hide SaveAll;
  }

  // ---- desks -----------------------------------------------------------

  /** The desk's report fits what has been saved and spent since `base`. */
  ghost predicate Fitting(d: Desk, id: nat, base: Db) {
    && id in d.working.runs && d.report.requestsUsed == d.working.runs[id].requestsUsed
    && base.observations <= d.working.observations
    && Tallied(base, d.working.prices, d.working.observations[|base.observations|..], d.report)
  }

  lemma RecordFits(d: Desk, id: nat, counted: nat, left: nat, base: Db)
    requires Fitting(d, id, base)
    ensures Fitting(Record(d, id, counted, left), id, base)
  {
    hide Filter, Extends, Priced;
  }

  lemma SavePageFits(d: Desk, id: nat, i: nat, symbol: nat, rows: seq<Payload>, now: Instant, base: Db)
    requires Ready(d, id, i, symbol) && Fitting(d, id, base) && DistinctKeys(rows, PayloadKey)
    ensures Fitting(SavePage(d, id, i, symbol, rows, now), id, base)
  {
    hide SaveAll, SortBy, Observed, Tallied, DistinctKeys, Progressed;
    var provider, n := d.working.runs[id].manifest.provider, |base.observations|;
    var incoming := SortBy(rows, PayloadKey);
    SortDistinct(rows, PayloadKey, PayloadKey);
    SaveTallies(base, d.working.prices, d.working.observations[n..], d.report, symbol, provider, incoming, now);
    var shown := Observed(symbol, incoming, provider, now);
    assert (d.working.observations + shown)[n..] == d.working.observations[n..] + shown;
  }

  lemma {:induction false} PagesFit(d: Desk, id: nat, i: nat, symbol: nat, req: HistoryRequest, script: seq<Fetch>,
                                    st: State, faults: map<nat, Fault>, left: nat, now: Instant, base: Db)
    requires |script| >= req.budget && Ready(d, id, i, symbol) && Books(req, st) && Fitting(d, id, base)
    ensures var trip := Pages(d, id, i, symbol, req, script, st, faults, left, now);
      trip.ending == Stopping ==> Fitting(trip.desk, id, base)
    decreases req.budget - st.summary.requestCount
  {
    hide Advance, Record, SavePage, Ready, Books, Fitting;
    YieldCounts(req, script, st);
    DrainStep(req, script, st);
    AdvanceKeepsBooks(req, script, st);
    ReadyStays(d, id, i, symbol);
    var (next, out) := Advance(req, script, st);
    var counted := next.summary.requestCount - st.summary.requestCount;
    RecordFits(d, id, counted, left, base);
    var e, rest := Record(d, id, counted, left), left - Delta(counted, left);
    if out.Yielded? {
      PageOfBooks(req, next, out.page);
      ReadyStays(e, id, i, symbol);
      var expected := d.working.runs[id].targets[i].expected;
      var rows := Filter(out.page.rows, Wanted(expected));
      if rows == [] {
        PagesFit(e, id, i, symbol, req, script, next, faults, rest, now, base);
      } else {
        FilterDistinct(out.page.rows, PayloadKey, Wanted(expected));
        SavePageFits(e, id, i, symbol, rows, now, base);
        var saved := SavePage(e, id, i, symbol, rows, now);
        ReadyStays(saved, id, i, symbol);
        if FaultAt(faults, out.page.number).NoFault? {
          CommitFits(saved, id, base);
          PagesFit(Commit(saved), id, i, symbol, req, script, next, faults, rest, now, base);
        }
      }
    }
  }

  lemma CommitFits(d: Desk, id: nat, base: Db)
    requires Fitting(d, id, base)
    ensures Fitting(Commit(d), id, base)
  {
    hide Tallied;
  }

  lemma ConcludeFits(d: Desk, id: nat, i: nat, terminal: Option<Terminal>, fault: Fault, left: nat, base: Db)
    requires HasTarget(d.working, id, i) && Shape(d, id, |d.working.runs[id].targets|) && Fitting(d, id, base)
    ensures var a := Conclude(d, id, i, terminal, fault, left);
      !a.raised ==> Fitting(a.desk, id, base)
  {
    hide Filter, Extends, Priced;
  }

  lemma AttemptFits(d: Desk, id: nat, i: nat, s: Session, script: seq<Fetch>, faults: Faults, left: nat, base: Db)
    requires |script| >= left && HasTarget(d.working, id, i) && Shape(d, id, |d.working.runs[id].targets|)
    requires Fitting(d, id, base) && !Attempt(d, id, i, s, script, faults, left).raised
    ensures Fitting(Attempt(d, id, i, s, script, faults, left).desk, id, base)
  {
    hide Pages, Conclude, Filter, Extends, Priced, Books;
    var t := d.working.runs[id].targets[i];
    if !Unresolved(t) && !NoIterator(s, faults) {
      var symbol, req := t.symbolId.value, Request(s, left);
      var trip := Pages(d, id, i, symbol, req, script, FRESH, faults.pages, left, s.now);
      FreshBooks(req);
      hide Fitting;
      PagesFit(d, id, i, symbol, req, script, FRESH, faults.pages, left, s.now, base);
      if trip.ending == Stopping {
        ConcludeFits(trip.desk, id, i, trip.end.summary.terminal, faults.conclusion, trip.left, base);
      }
    }
  }

  lemma {:induction false} LoopFits(d: Desk, id: nat, s: Session, scripts: seq<seq<Fetch>>, faults: SessionFaults,
                                    i: nat, left: nat, clean: bool, targets: seq<TargetState>, base: Db)
    requires Midway(d, id, i, targets) && i <= |targets| && Fits(scripts, faults, |targets|, left)
    requires clean ==> Fitting(d, id, base)
    ensures var sweep := Loop(d, id, s, scripts, faults, |targets|, i, left, clean);
      sweep.Swept? && sweep.clean ==> clean && Fitting(sweep.desk, id, base)
    decreases |targets| - i
  {
    hide Attempt, Midway, Commit, Waiting, Fitting;
    MidwaySkips(d, id, i, targets);
    if i < |targets| {
      MidwayAt(d, id, i, targets);
      if Skipped(targets[i], s) {
        LoopFits(d, id, s, scripts, faults, i + 1, left, clean, targets, base);
      } else if left < 1 {
        if clean {
          WaitingFits(d, id, i, s, base);
        }
      } else if Loop(d, id, s, scripts, faults, |targets|, i, left, clean).Swept? {
        var a := Attempt(d, id, i, s, scripts[i], faults.targets[i], left);
        LoopGoesOn(d, id, s, scripts, faults, i, left, clean, targets);
        if clean && !a.raised {
          AttemptFits(d, id, i, s, scripts[i], faults.targets[i], left, base);
        }
        LoopFits(Onward(a, id, i), id, s, scripts, faults, i + 1, a.left, clean && !a.raised, targets, base);
      }
    }
    hide Loop;
  }

  lemma WaitingFits(d: Desk, id: nat, i: nat, s: Session, base: Db)
    requires HasTarget(d.working, id, i) && Fitting(d, id, base)
    ensures Fitting(Commit(Waiting(d, id, i, s)), id, base)
  {
    hide Filter, Extends, Priced;
  }

  // ---- a whole session -------------------------------------------------

  lemma {:induction false} ExpectedSums(targets: seq<TargetState>, sizes: seq<nat>)
    requires |sizes| == |targets| && forall k :: 0 <= k < |targets| ==> sizes[k] == |targets[k].expected|
    ensures Expected(targets) == Sum(sizes)
    decreases |targets|
  {
    if targets != [] {
      var n := |targets| - 1;
      ExpectedSums(targets[..n], sizes[..n]);
      SumAppend(sizes[..n], [sizes[n]]);
      assert sizes == sizes[..n] + [sizes[n]];
    }
  }

  lemma OpensFitting(db: Db, id: nat, p: Plan, additional: nat)
    ensures Fitting(Open(db, id, p, additional), id, db)
  {
    assert db.observations[|db.observations|..] == [];
    hide NewRun;
  }

  /** The report of a run as it is found. */
  predicate Describes(report: Report, targets: seq<TargetState>, sizes: seq<nat>) {
    && report.targetCount == |targets| && report.expectedRows == Sum(sizes)
    && report.unresolvedTargets
         == |Filter(targets, (t: TargetState) => t.providerCode.None? || t.symbolId.None?)|
  }

  lemma OpeningDescribes(r: Run, sizes: seq<nat>)
    requires |sizes| == |r.targets| && forall k :: 0 <= k < |r.targets| ==> sizes[k] == |r.targets[k].expected|
    ensures Describes(OpeningReport(r), r.targets, sizes) && OpeningReport(r).requestsUsed == r.requestsUsed
  {
    ExpectedSums(r.targets, sizes);
    FilterSame(r.targets, Unresolved, (t: TargetState) => t.providerCode.None? || t.symbolId.None?);
  }

  lemma CloseReports(d: Desk, id: nat)
    requires id in d.working.runs
    ensures var e := CloseRun(d, id);
      && SameCounts(e.report.(completedTargets := d.report.completedTargets), d.report)
      && e.report.(completedTargets := d.report.completedTargets) == d.report
      && e.committed.prices == d.working.prices && e.committed.observations == d.working.observations
      && id in e.committed.runs && e.committed.runs[id].requestsUsed == d.working.runs[id].requestsUsed
  {
    hide Filter, Finalized;
    FinalizedUses(d.working.runs[id]);
  }

  lemma FinalizedUses(r: Run)
    ensures Finalized(r).requestsUsed == r.requestsUsed
  {
  }

  /** The report and the observations of a session that returns.  The counts of failed and
      unsupported targets are sums over the targets dealt with; the targets left waiting
      are those whose turn did not come; every emitted row of an expected day has become
      one observation, in order.  If nothing has raised, the inserted rows are the new
      prices, the conflicts are the new observations whose price is another one, and the
      requests reported are those recorded. */
  lemma SessionReports(db: Db, id: nat, p: Plan, additional: nat, s: Session, scripts: seq<seq<Fetch>>,
                       faults: SessionFaults, sizes: seq<nat>)
    requires var r := Authorized(db, id, p, additional); Fits(scripts, faults, |r.targets|, r.requestBudget)
    requires var targets := Starting(db, id, p).targets;
      |sizes| == |targets| && forall k :: 0 <= k < |targets| ==> sizes[k] == |targets[k].expected|
    ensures var start, all := Starting(db, id, p), Unspent(Authorized(db, id, p, additional));
      var result := Execute(db, id, p, additional, s, scripts, faults);
      var report, now := result.desk.report, result.desk.committed;
      result.outcome == Ok && !p.dryRun ==>
        && result.reached <= |start.targets| && Fits(scripts, faults, |start.targets|, all)
        && Describes(report, start.targets, sizes)
        && report.failed == FailedUpTo(start.targets, s, scripts, faults, all, result.reached)
        && report.unsupported == UnsupportedUpTo(start.targets, s, scripts, faults, all, result.reached)
        && report.exhaustedTargets
             == |Filter(start.targets[result.reached..], (t: TargetState) => t.status in s.statuses)|
        && now.observations == db.observations
             + ObservedUpTo(start.targets, s, scripts, faults, all, start.manifest.provider, result.reached)
        && (result.clean ==>
              && id in now.runs && report.requestsUsed == now.runs[id].requestsUsed
              && Tallied(db, now.prices, now.observations[|db.observations|..], report))
  {
    hide Loop, Midway, NewRun, CloseRun, LeftBefore, FailedUpTo, UnsupportedUpTo, ObservedUpTo, Tallied, Heads, Fitting,
         Describes, OpeningReport;
    var d, start := Open(db, id, p, additional), Starting(db, id, p);
    var all := Unspent(Authorized(db, id, p, additional));
    OpenMidway(db, id, p, additional);
    OpensFitting(db, id, p, additional);
    OpensReport(db, id, p, additional, s, scripts, faults, sizes);
    LoopCounts(d, id, s, scripts, faults, 0, all, true, start.targets, all, d.report);
    LoopObserves(d, id, s, scripts, faults, 0, all, true, start.targets, all, start, db.observations);
    LoopFits(d, id, s, scripts, faults, 0, all, true, start.targets, db);
    var sweep := Loop(d, id, s, scripts, faults, |start.targets|, 0, all, true);
    if sweep.Swept? {
      CloseReports(sweep.desk, id);
      SweepReports(d, sweep, id, s, start.targets, scripts, faults, all, sizes);
      if sweep.clean {
        FittingDesk(sweep.desk, id, db);
        FittingTally(db, sweep.desk, CloseRun(sweep.desk, id), id);
      }
    }
  }

  lemma FittingDesk(d: Desk, id: nat, base: Db)
    requires Fitting(d, id, base)
    ensures id in d.working.runs && d.report.requestsUsed == d.working.runs[id].requestsUsed
    ensures base.observations <= d.working.observations
    ensures Tallied(base, d.working.prices, d.working.observations[|base.observations|..], d.report)
  {
  }

  lemma FittingTally(base: Db, d: Desk, e: Desk, id: nat)
    requires base.observations <= d.working.observations
    requires Tallied(base, d.working.prices, d.working.observations[|base.observations|..], d.report)
    requires e.committed.prices == d.working.prices && e.committed.observations == d.working.observations
    requires e.report.(completedTargets := d.report.completedTargets) == d.report
    ensures Tallied(base, e.committed.prices, e.committed.observations[|base.observations|..], e.report)
  {
    hide Filter, Extends, Priced;
  }

  /** Nothing is counted or observed yet. */
  lemma OpensReport(db: Db, id: nat, p: Plan, additional: nat, s: Session, scripts: seq<seq<Fetch>>,
                    faults: SessionFaults, sizes: seq<nat>)
    requires var r := Authorized(db, id, p, additional); Fits(scripts, faults, |r.targets|, r.requestBudget)
    requires var targets := Starting(db, id, p).targets;
      |sizes| == |targets| && forall k :: 0 <= k < |targets| ==> sizes[k] == |targets[k].expected|
    ensures var d, start := Open(db, id, p, additional), Starting(db, id, p);
      var all := Unspent(Authorized(db, id, p, additional));
      && Fits(scripts, faults, |start.targets|, all) && LeftBefore(start.targets, s, scripts, faults, all, 0) == all
      && CountsUpTo(d.report, d.report, start.targets, s, scripts, faults, all, 0)
      && Heads(d, id, start) && Describes(d.report, start.targets, sizes)
      && d.report.failed == d.report.unsupported == d.report.exhaustedTargets == 0
      && d.working.observations == db.observations
           + ObservedUpTo(start.targets, s, scripts, faults, all, start.manifest.provider, 0)
  {
    hide NewRun, Describes;
    var r := Authorized(db, id, p, additional);
    OpeningDescribes(r, sizes);
    assert db.observations + [] == db.observations;
  }

  lemma SweepReports(d: Desk, sweep: Sweep, id: nat, s: Session, targets: seq<TargetState>, scripts: seq<seq<Fetch>>,
                     faults: SessionFaults, left: nat, sizes: seq<nat>)
    requires sweep.Swept? && id in sweep.desk.working.runs && sweep.reached <= |targets|
    requires Fits(scripts, faults, |targets|, left)
    requires CountsUpTo(d.report.(exhaustedTargets := d.report.exhaustedTargets
                                  + WaitingFrom(targets, s, sweep.reached)),
                     sweep.desk.report, targets, s, scripts, faults, left, sweep.reached)
    requires Describes(d.report, targets, sizes)
    requires d.report.failed == d.report.unsupported == d.report.exhaustedTargets == 0
    ensures var report := CloseRun(sweep.desk, id).report;
      && report.failed == FailedUpTo(targets, s, scripts, faults, left, sweep.reached)
      && report.unsupported == UnsupportedUpTo(targets, s, scripts, faults, left, sweep.reached)
      && report.exhaustedTargets == |Filter(targets[sweep.reached..], (t: TargetState) => t.status in s.statuses)|
      && Describes(report, targets, sizes)
  {
    hide CloseRun, FailedUpTo, UnsupportedUpTo, Filter;
    CloseReports(sweep.desk, id);
    FilterSame(targets[sweep.reached..], (t: TargetState) => t.status in s.statuses,
               (t: TargetState) => t.status in s.statuses);
  }

  // ---- failures are not counted once each ------------------------------

  /** How many of the targets before the n-th fail. */
  function FailingUpTo(targets: seq<TargetState>, s: Session, scripts: seq<seq<Fetch>>, faults: SessionFaults,
                       left: nat, n: nat): nat
    requires n <= |targets| && Fits(scripts, faults, |targets|, left)
  {
    if n == 0 then 0
    else FailingUpTo(targets, s, scripts, faults, left, n - 1)
         + if Worked(targets, s, scripts, faults, left, n - 1)
              && WhyFailed(targets[n - 1], s, scripts[n - 1], faults.targets[n - 1],
                           LeftBefore(targets, s, scripts, faults, left, n - 1)).Some?
           then 1 else 0
  }

  /** A failure mark of the k-th target is rolled back at its commit. */
  predicate MarkLost(targets: seq<TargetState>, s: Session, scripts: seq<seq<Fetch>>, faults: SessionFaults, left: nat,
                     k: nat)
    requires k < |targets| && Fits(scripts, faults, |targets|, left)
  {
    var t, l := targets[k], LeftBefore(targets, s, scripts, faults, left, k);
    && Worked(targets, s, scripts, faults, left, k) && faults.targets[k].conclusion == AtCommit
    && (t.providerCode.None? || t.symbolId.None?
        || TerminalOf(t, s, scripts[k], faults.targets[k], l) in {Some(FailedFetch), Some(ProviderUnsupported)})
  }

  /** The reported failures are never fewer than the failing targets, and they are as many
      exactly when no commit of a failure mark raises: then the mark is counted, rolled
      back, and the target counted again by the handler. */
  lemma {:induction false} FailuresCountedIff(targets: seq<TargetState>, s: Session, scripts: seq<seq<Fetch>>,
                                              faults: SessionFaults, left: nat, n: nat)
    requires n <= |targets| && Fits(scripts, faults, |targets|, left)
    ensures FailedUpTo(targets, s, scripts, faults, left, n) >= FailingUpTo(targets, s, scripts, faults, left, n)
    ensures FailedUpTo(targets, s, scripts, faults, left, n) == FailingUpTo(targets, s, scripts, faults, left, n)
       <==> forall k :: 0 <= k < n ==> !MarkLost(targets, s, scripts, faults, left, k)
    decreases n
  {
    hide LeftBefore, WhyFailed, TerminalOf, Worked;
    if n > 0 {
      FailuresCountedIff(targets, s, scripts, faults, left, n - 1);
      assert MarkLost(targets, s, scripts, faults, left, n - 1)
        <==> FailedUpTo(targets, s, scripts, faults, left, n) - FailedUpTo(targets, s, scripts, faults, left, n - 1)
             > FailingUpTo(targets, s, scripts, faults, left, n)
               - FailingUpTo(targets, s, scripts, faults, left, n - 1);
    }
  }

  /** One target without a provider code whose mark is rolled back is counted twice. */
  lemma FailureCountedTwice(s: Session)
    requires Pending in s.statuses
    ensures var t := TargetState(1, Some(1), None, 1, [], [], [], 0, Pending, None);
      var faults := SessionFaults(false, [Faults(false, map[], AtCommit, false)], false, false);
      && Fits([[FetchFailed]], faults, 1, 1)
      && FailedUpTo([t], s, [[FetchFailed]], faults, 1, 1) == 2
      && FailingUpTo([t], s, [[FetchFailed]], faults, 1, 1) == 1
  {
    var t := TargetState(1, Some(1), None, 1, [], [], [], 0, Pending, None);
    var faults := SessionFaults(false, [Faults(false, map[], AtCommit, false)], false, false);
    assert LeftBefore([t], s, [[FetchFailed]], faults, 1, 0) == 1;
    assert FailedUpTo([t], s, [[FetchFailed]], faults, 1, 0) == 0;
    assert FailingUpTo([t], s, [[FetchFailed]], faults, 1, 0) == 0;
    hide LineOf;
  }
}
