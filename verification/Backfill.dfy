/** The backfill service as it runs: a session whose working state is committed
    page by page and rolled back when a target raises. */
module Backfill {
  import opened Common
  import opened Sorting
  import opened Gathering
  import opened PriceTable
  import opened HistoryCollector
  import opened HistoryCompleteness
  import opened BackfillPlan
  import opened BackfillState
  import opened BackfillSession
  import opened BackfillSafety

  class HistoricalBackfillService {
    const store: PriceRepository
    var runs: map<nat, Run>
    var committed: Db
    /** Everything committed before the current session, and within it. */
    ghost var past: seq<Db>
    ghost var session: seq<Db>

    ghost function Working(): Db
      reads this, store
    {
      Db(runs, store.prices, store.observations)
    }

    ghost function Log(): seq<Db>
      reads this
    {
      past + session
    }

    ghost function View(report: Report): Desk
      reads this, store
    {
      Desk(Working(), committed, session, report)
    }

    /** As far as it matters after a raise: the working state is rolled back. */
    ghost predicate RaisedAs(d: Desk, report: Report)
      reads this, store
    {
      View(report) == d.(working := Working())
    }

    constructor (store: PriceRepository, db: Db)
      requires store.prices == db.prices && store.observations == db.observations
      ensures this.store == store && committed == db && Working() == db && Log() == []
    {
      this.store, runs, committed, past, session := store, db.runs, db, [], [];
    }

    method Commit()
      modifies this`committed, this`session
      ensures committed == Working() && session == old(session) + [committed]
    {
      committed := Db(runs, store.prices, store.observations);
      session := session + [committed];
    }

    method Rollback()
      modifies this`runs, store
      ensures Working() == committed
    {
      runs := committed.runs;
      store.prices := committed.prices;
      store.observations := committed.observations;
    }

    // ---- single marks --------------------------------------------------

    /** `_record_request_usage`: add what was counted since the last time, as far
        as the remaining budget reaches. */
    method RecordUsage(id: nat, measured: nat, accounted: nat, remaining: nat, before: Report)
      returns (left: nat, report: Report)
      requires id in runs
      modifies this`runs
      ensures var counted := if measured > accounted then measured - accounted else 0;
        left == remaining - Delta(counted, remaining)
            && View(report) == Record(old(View(before)), id, counted, remaining)
    {
      left, report := remaining, before;
      var counted := if measured > accounted then measured - accounted else 0;
      var delta := if counted < remaining then counted else remaining;
      if delta > 0 {
        runs := runs[id := runs[id].(requestsUsed := runs[id].requestsUsed + delta)];
        report := report.(requestsUsed := runs[id].requestsUsed);
        left := left - delta;
      } else {
        assert runs[id := Used(runs[id], 0)] == runs;
      }
    }

    /** `mark_target_failure`. */
    method MarkFailure(id: nat, i: nat, reason: FailureReason)
      requires HasTarget(Working(), id, i)
      modifies this`runs
      ensures runs == old(runs)[id := WithTarget(old(runs[id]), i, Rejected(old(runs[id].targets[i]), reason))]
    {
      var r, t := runs[id], runs[id].targets[i];
      runs := runs[id := r.(targets := r.targets[i := t.(
        attempts := t.attempts + 1, status := Failed, failure := Some(reason))])];
    }

    /** `mark_target_collection_complete`. */
    method MarkCollected(id: nat, i: nat)
      requires HasTarget(Working(), id, i)
      modifies this`runs
      ensures runs == old(runs)[id := WithTarget(old(runs[id]), i, Collected(old(runs[id].targets[i])))]
    {
      var r, t := runs[id], runs[id].targets[i];
      runs := runs[id := r.(targets := r.targets[i := t.(status := Completed)])];
    }

    /** `mark_target_progress`. */
    method MarkProgress(id: nat, i: nat, dates: seq<Date>)
      requires HasTarget(Working(), id, i)
      modifies this`runs
      ensures runs == old(runs)[id := WithTarget(old(runs[id]), i, Progressed(old(runs[id].targets[i]), dates))]
    {
      var r, t := runs[id], runs[id].targets[i];
      var confirmed := Ascent.SortedDistinct(t.confirmed + Filter(dates, (d: Date) => d in t.expected));
      var remaining := Filter(t.expected, (d: Date) => d !in confirmed);
      runs := runs[id := r.(targets := r.targets[i := t.(
        confirmed := confirmed, remaining := remaining, attempts := t.attempts + 1, failure := None,
        status := if remaining == [] then Completed else Running)])];
    }

    // ---- one page ------------------------------------------------------

    /** Prices, observations and the date checkpoint of one page, in one commit. */
    method SavePage(id: nat, i: nat, rows: seq<Payload>, fault: Fault, now: Instant, before: Report)
      returns (raised: bool, report: Report)
      requires HasTarget(Working(), id, i) && runs[id].targets[i].symbolId.Some? && DistinctKeys(rows, PayloadKey)
      modifies this`runs, this`committed, this`session, store
      ensures var d, symbol := old(View(before)), old(runs[id].targets[i].symbolId.value);
        HasTarget(d.working, id, i) &&
        var saved := BackfillSession.SavePage(d, id, i, symbol, rows, now);
        match fault
        case NoFault => !raised && View(report) == BackfillSession.Commit(saved)
        case BeforeReport => raised && RaisedAs(d, report)
        case AtCommit => raised && RaisedAs(saved, report)
    {
      hide SaveAll, Progressed, DistinctKeys;
      report := before;
      if fault.BeforeReport? {
        return true, report;
      }
      var symbol, provider := runs[id].targets[i].symbolId.value, runs[id].manifest.provider;
      SortDistinct(rows, PayloadKey, PayloadKey);
      DistinctNeverBreaks(store.prices, symbol, SortBy(rows, PayloadKey));
      var outcome := store.SaveHistoricalPrices(symbol, rows, provider, false, now);
      report := Merged(report, outcome.report);
      MarkProgress(id, i, outcome.report.confirmed);
      if fault.AtCommit? {
        return true, report;
      }
      Commit();
      return false, report;
    }

    /** One yielded page: its request recorded, its wanted rows saved, if there are any. */
    method TakePage(id: nat, i: nat, page: HistoryPage, fault: Fault, measured: nat, accounted: nat, remaining: nat,
                    now: Instant, before: Report, ghost symbol: nat)
      returns (raised: bool, left: nat, report: Report)
      requires Ready(View(before), id, i, symbol) && DistinctKeys(page.rows, PayloadKey) && accounted <= measured
      modifies this`runs, this`committed, this`session, store
      ensures left == remaining - Delta(measured - accounted, remaining)
      ensures var d := old(View(before));
        Ready(d, id, i, symbol) && var e := Record(d, id, measured - accounted, remaining);
        Ready(e, id, i, symbol) && var rows := Filter(page.rows, Wanted(d.working.runs[id].targets[i].expected));
        if rows == [] then !raised && View(report) == e
        else
          var saved := BackfillSession.SavePage(e, id, i, symbol, rows, now);
          match fault
          case NoFault => !raised && View(report) == BackfillSession.Commit(saved)
          case BeforeReport => raised && RaisedAs(e, report)
          case AtCommit => raised && RaisedAs(saved, report)
    {
      hide SaveAll, Progressed, BackfillSession.SavePage, DistinctKeys;
      raised := false;
      ReadyStays(View(before), id, i, symbol);
      RecordKeepsTargets(View(before), id, measured - accounted, remaining);
      left, report := RecordUsage(id, measured, accounted, remaining, before);
      var rows := Filter(page.rows, Wanted(runs[id].targets[i].expected));
      if rows != [] {
        FilterDistinct(page.rows, PayloadKey, Wanted(runs[id].targets[i].expected));
        raised, report := SavePage(id, i, rows, fault, now, report);
      }
    }

    // ---- one target ----------------------------------------------------

    /** The loop over the pages of one target, each recorded before it is looked at. */
    method CollectTarget(id: nat, i: nat, request: HistoryRequest, script: seq<Fetch>, faults: map<nat, Fault>,
                         remaining: nat, now: Instant, before: Report)
      returns (ending: Ending, left: nat, terminal: Option<Terminal>, report: Report)
      requires HasTarget(Working(), id, i) && runs[id].targets[i].symbolId.Some?
      requires Shape(View(before), id, |runs[id].targets|)
      requires request.Valid() && request.budget == remaining <= |script|
      modifies this`runs, this`committed, this`session, store
      ensures var d, symbol := old(View(before)), old(runs[id].targets[i].symbolId.value);
        Ready(d, id, i, symbol) &&
        var trip := Pages(d, id, i, symbol, request, script, FRESH, faults, remaining, now);
        && ending == trip.ending && left == trip.left
        && if ending == Stopping then View(report) == trip.desk && terminal == trip.end.summary.terminal
           else RaisedAs(trip.desk, report)
    {
      hide Advance, Books, Record, BackfillSession.SavePage, Ready, BackfillSession.Commit, Filter, Delta, Shape, Pages,
        LastStep;
      ghost var d, symbol := View(before), runs[id].targets[i].symbolId.value;
      assert Ready(d, id, i, symbol) by { IsReady(d, id, i, symbol); }
      ghost var trip := Pages(d, id, i, symbol, request, script, FRESH, faults, remaining, now);
      var pages := new KiwoomHistoryIterator(request, script);
      var accounted: nat := 0;
      left, report, terminal := remaining, before, None;
      var more := true;
      while more
        invariant fresh(pages) && pages.Valid() && pages.request == request && pages.script == script
        invariant id in runs && Ready(View(report), id, i, symbol) && accounted <= pages.summary.requestCount
        invariant more ==> accounted == pages.summary.requestCount
        invariant more ==> trip == Pages(View(report), id, i, symbol, request, script, pages.View(), faults, left, now)
        invariant !more ==> trip == LastStep(View(report), id, pages.summary.requestCount - accounted, left,
                                             pages.View())
        decreases more, remaining - pages.summary.requestCount
      {
        YieldCounts(request, script, pages.View());
        PagesNext(View(report), id, i, symbol, request, script, pages.View(), faults, left, now);
        ghost var was := pages.View();
        var out := pages.Next();
        match out {
          case Stopped => more := false;
          case Raised => return IteratorRaised, left, None, report;
          case Yielded(page) =>
            YieldedDistinct(request, script, was, page);
            NextReady(View(report), id, i, symbol, page, pages.summary.requestCount - accounted, left, now);
            var raised;
            raised, left, report := TakePage(id, i, page, FaultAt(faults, page.number), pages.summary.requestCount,
                                             accounted, left, now, report, symbol);
            if raised {
              return SaveRaised, left, None, report;
            }
            accounted := pages.summary.requestCount;
            ReadyTarget(View(report), id, i, symbol);
        }
      }
      LastStepIs(View(report), id, pages.summary.requestCount - accounted, left, pages.View());
      left, report := RecordUsage(id, pages.summary.requestCount, accounted, left, report);
      return Stopping, left, pages.summary.terminal, report;
    }

    /** What follows a traversal: the target is concluded by its terminal reason. */
    method Conclude(id: nat, i: nat, terminal: Option<Terminal>, fault: Fault, ghost left: nat, before: Report)
      returns (raised: bool, report: Report)
      requires HasTarget(Working(), id, i) && Shape(View(before), id, |runs[id].targets|)
      modifies this`runs, this`committed, this`session
      ensures var d := old(View(before));
        HasTarget(d.working, id, i) && Shape(d, id, |d.working.runs[id].targets|) &&
        var a := BackfillSession.Conclude(d, id, i, terminal, fault, left);
        raised == a.raised && if raised then RaisedAs(a.desk, report) else View(report) == a.desk
    {
      raised, report := false, before;
      if terminal == Some(CollectionStartReached) || terminal == Some(ProviderExhausted) {
        if fault.BeforeReport? {
          return true, report;
        }
        MarkCollected(id, i);
      } else if terminal == Some(FailedFetch) || terminal == Some(ProviderUnsupported) {
        if fault.BeforeReport? {
          return true, report;
        }
        var unsupported := terminal == Some(ProviderUnsupported);
        MarkFailure(id, i, if unsupported then Unsupported else FetchFailure);
        report := report.(failed := report.failed + 1,
                          unsupported := report.unsupported + if unsupported then 1 else 0);
      } else {
        return;
      }
      if fault.AtCommit? {
        return true, report;
      }
      Commit();
    }

    /** The `try` block for one target. */
    method Attempt(id: nat, i: nat, s: Session, script: seq<Fetch>, faults: Faults, remaining: nat, before: Report)
      returns (raised: bool, left: nat, report: Report)
      requires HasTarget(Working(), id, i) && Shape(View(before), id, |runs[id].targets|)
      requires 1 <= remaining <= |script|
      modifies this`runs, this`committed, this`session, store
      ensures var d := old(View(before));
        HasTarget(d.working, id, i) && Shape(d, id, |d.working.runs[id].targets|) &&
        var a := BackfillSession.Attempt(d, id, i, s, script, faults, remaining);
        && raised == a.raised && left == a.left
        && if raised then RaisedAs(a.desk, report) else View(report) == a.desk
    {
      hide Pages, BackfillSession.Conclude;
      raised, left, report := false, remaining, before;
      var target := runs[id].targets[i];
      if target.providerCode.None? || target.symbolId.None? {
        if faults.conclusion.BeforeReport? {
          return true, left, report;
        }
        MarkFailure(id, i, UnresolvedIdentity);
        report := report.(failed := report.failed + 1);
        if faults.conclusion.AtCommit? {
          return true, left, report;
        }
        Commit();
        return;
      }
      if faults.factory || s.end < s.start {
        return true, left, report;
      }
      var request := HistoryRequest(s.start, s.end, None, remaining);
      var ending, terminal;
      ending, left, terminal, report := CollectTarget(id, i, request, script, faults.pages, remaining, s.now, report);
      if ending != Stopping {
        return true, left, report;
      }
      raised, report := Conclude(id, i, terminal, faults.conclusion, left, report);
    }

    /** One target with its handler: on a raise everything since the last commit is
        rolled back and the target marked failed.  If the run itself had not been
        committed yet it is gone, and the handler raises in its turn. */
    method ProcessTarget(id: nat, i: nat, s: Session, script: seq<Fetch>, faults: Faults, remaining: nat,
                         before: Report)
      returns (outcome: BackfillSession.Outcome, smooth: bool, left: nat, report: Report)
      requires HasTarget(Working(), id, i) && Shape(View(before), id, |runs[id].targets|)
      requires 1 <= remaining <= |script|
      modifies this`runs, this`committed, this`session, store
      ensures var d := old(View(before));
        HasTarget(d.working, id, i) && Shape(d, id, |d.working.runs[id].targets|) &&
        var a := BackfillSession.Attempt(d, id, i, s, script, faults, remaining);
        var e := BackfillSession.Rollback(a.desk);
        && left == a.left && smooth == !a.raised
        && if !a.raised then outcome == BackfillSession.Outcome.Ok && View(report) == a.desk
           else if id !in e.working.runs then outcome == RunLost && View(report) == e
           else if faults.handler then outcome == Interrupted && committed == e.committed && session == e.log
           else outcome == BackfillSession.Outcome.Ok && HasTarget(e.working, id, i)
                && View(report) == BackfillSession.Commit(Failing(e, id, i))
    {
      hide BackfillSession.Attempt;
      outcome := BackfillSession.Outcome.Ok;
      var raised;
      raised, left, report := Attempt(id, i, s, script, faults, remaining, before);
      smooth := !raised;
      if raised {
        Rollback();
        if id !in runs {
          return RunLost, smooth, left, report;
        }
        MarkFailure(id, i, WriteFailure);
        report := report.(failed := report.failed + 1);
        if faults.handler {
          return Interrupted, smooth, left, report;
        }
        Commit();
      }
    }

    // ---- the run -------------------------------------------------------

    /** `create_or_resume` and `extend_request_budget`, still uncommitted. */
    method Open(id: nat, plan: Plan, additional: nat) returns (refusal: Option<BackfillSession.Outcome>, report: Report)
      requires committed == Working() && session == []
      modifies this`runs
      ensures refusal == Refusal(committed, id, plan, additional) && refusal != Some(BackfillSession.Outcome.Ok)
      ensures refusal.None? ==>
                && View(report) == BackfillSession.Open(committed, id, plan, additional)
                && id in runs && runs[id] == Authorized(committed, id, plan, additional)
                && Shape(View(report), id, |runs[id].targets|)
                && WithRun(committed, id, runs[id]) == Working() && report == OpeningReport(runs[id])
    {
      hide NewRun, Serialized;
      var existed := id in runs;
      if existed && runs[id].manifest != Serialized(plan) {
        return Some(PlanRefused), OpeningReport(runs[id]);
      }
      if !existed {
        runs := runs[id := NewRun(plan)];
      }
      if additional > 0 {
        if !existed || runs[id].manifest.dryRun {
          return Some(BudgetRefused), OpeningReport(runs[id]);
        }
        runs := runs[id := runs[id].(requestBudget := runs[id].requestBudget + additional)];
      }
      if existed && additional == 0 {
        assert runs[id := runs[id]] == runs;
      }
      return None, OpeningReport(runs[id]);
    }

    /** No budget is left: the waiting targets are counted and the run is marked, in one commit. */
    method Exhaust(id: nat, i: nat, s: Session, before: Report) returns (report: Report)
      requires HasTarget(Working(), id, i)
      modifies this`runs, this`committed, this`session
      ensures HasTarget(old(Working()), id, i)
      ensures View(report) == BackfillSession.Commit(Waiting(old(View(before)), id, i, s))
    {
      hide Filter;
      var waiting := Filter(runs[id].targets[i..], (t: TargetState) => t.status in s.statuses);
      report := before.(exhaustedTargets := before.exhaustedTargets + |waiting|);
      runs := runs[id := runs[id].(status := BudgetExhausted)];
      Commit();
    }

    /** The per-target loop. */
    method RunTargets(id: nat, s: Session, scripts: seq<seq<Fetch>>, faults: SessionFaults, remaining: nat,
                      before: Report)
      returns (outcome: BackfillSession.Outcome, left: nat, clean: bool, report: Report, ghost reached: nat)
      requires id in runs && Shape(View(before), id, |runs[id].targets|)
      requires Fits(scripts, faults, |runs[id].targets|, remaining)
      modifies this`runs, this`committed, this`session, store
      ensures id in old(runs) && Shape(old(View(before)), id, |old(runs[id].targets)|)
      ensures var sweep := Loop(old(View(before)), id, s, scripts, faults, |old(runs[id].targets)|, 0, remaining, true);
        match sweep
        case Swept(d, rest, n, smooth) =>
          outcome == BackfillSession.Outcome.Ok && View(report) == d && left == rest && reached == n && clean == smooth
        case Lost(d) => outcome == RunLost && RaisedAs(d, report)
        case Escaped(d) => outcome == Interrupted && committed == d.committed && session == d.log
    {
      hide BackfillSession.Attempt, Filter, Waiting;
      ghost var d, count := View(before), |runs[id].targets|;
      left, clean, report := remaining, true, before;
      var position := 0;
      while position < |runs[id].targets|
        invariant id in runs && Shape(View(report), id, count) && position <= count && left <= remaining
        invariant Loop(d, id, s, scripts, faults, count, 0, remaining, true)
               == Loop(View(report), id, s, scripts, faults, count, position, left, clean)
        decreases count - position
      {
        var target := runs[id].targets[position];
        if target.status == Completed || target.status !in s.statuses {
          position := position + 1;
          continue;
        }
        if left < 1 {
          if faults.exhaustion {
            return Interrupted, left, clean, report, position;
          }
          report := Exhaust(id, position, s, report);
          return BackfillSession.Outcome.Ok, left, clean, report, position;
        }
        var smooth;
        outcome, smooth, left, report := ProcessTarget(id, position, s, scripts[position], faults.targets[position],
                                                       left, report);
        if outcome != BackfillSession.Outcome.Ok {
          return outcome, left, clean, report, position;
        }
        clean := clean && smooth;
        position := position + 1;
      }
      return BackfillSession.Outcome.Ok, left, clean, report, position;
    }

    /** `_finalize_run_status`. */
    method FinalizeStatus(id: nat)
      requires id in runs
      modifies this`runs
      ensures runs == old(runs)[id := Finalized(old(runs[id]))]
    {
      var targets := runs[id].targets;
      if targets != [] && forall t :: t in targets ==> IsSettled(t) {
        var all := forall t :: t in targets ==> IsCompleted(t);
        runs := runs[id := runs[id].(status := if all then AllCompleted else CompletedPartial)];
      } else {
        assert runs[id := runs[id]] == runs;
      }
    }

    /** `execute`. */
    method Execute(id: nat, plan: Plan, scripts: seq<seq<Fetch>>, faults: SessionFaults, additional: nat,
                   statuses: set<TargetStatus>, now: Instant)
      returns (outcome: BackfillSession.Outcome, report: Report, left: nat, clean: bool, ghost reached: nat)
      requires committed == Working()
      requires var r := Authorized(committed, id, plan, additional); Fits(scripts, faults, |r.targets|, r.requestBudget)
      modifies this, store
      ensures var s := Session(plan.start, plan.end, statuses, now);
        var result := BackfillSession.Execute(old(committed), id, plan, additional, s, scripts, faults);
        && outcome == result.outcome && committed == result.desk.committed && Log() == old(Log()) + result.desk.log
        && (outcome == BackfillSession.Outcome.Ok ==>
              && Working() == committed && report == result.desk.report
              && left == result.left && clean == result.clean && reached == result.reached)
      ensures old(Log()) <= Log()
      ensures Valid(old(committed)) && PlanValid(plan) ==>
                Follows(old(committed), Log()[|old(Log())|..]) && Valid(committed)
    {
      hide Loop, NewRun, Serialized, CloseRun, Refusal, Filter, Valid, Follows, Authorized, OpeningReport;
      if Valid(committed) && PlanValid(plan) {
        ExecuteIsSound(committed, id, plan, additional, Session(plan.start, plan.end, statuses, now), scripts, faults);
      }
      past, session := past + session, [];
      left, clean, reached := 0, false, 0;
      var refusal;
      refusal, report := Open(id, plan, additional);
      if refusal.Some? {
        return refusal.value, report, left, clean, reached;
      }
      if faults.opening {
        return Interrupted, report, left, clean, reached;
      }
      if plan.dryRun {
        if faults.finish {
          return Interrupted, report, left, clean, reached;
        }
        runs := runs[id := runs[id].(status := DryRun)];
        Commit();
        return BackfillSession.Outcome.Ok, report, Unspent(runs[id]), true, reached;
      }
      var remaining := if runs[id].requestBudget > runs[id].requestsUsed
                       then runs[id].requestBudget - runs[id].requestsUsed else 0;
      var s := Session(plan.start, plan.end, statuses, now);
      outcome, left, clean, report, reached := RunTargets(id, s, scripts, faults, remaining, report);
      if outcome != BackfillSession.Outcome.Ok || faults.finish {
        return if outcome == BackfillSession.Outcome.Ok then Interrupted else outcome, report, left, clean, reached;
      }
      report := Finish(id, report);
    }

    /** The end of `execute`: completed targets counted, the run finalized, one commit. */
    method Finish(id: nat, before: Report) returns (report: Report)
      requires id in runs
      modifies this`runs, this`committed, this`session
      ensures id in old(runs) && View(report) == CloseRun(old(View(before)), id) && Working() == committed
    {
      hide Finalized, Filter;
      FinalizedTargets(runs[id]);
      report := before.(completedTargets := |Filter(runs[id].targets, IsCompleted)|);
      FinalizeStatus(id);
      Commit();
    }

    /** `reconcile_targets_with_confirmed_start`: a running target whose first expected
        day is confirmed counts as collected; its dates stay as they are.  An unknown
        run raises. */
    method ReconcileConfirmedStart(id: nat) returns (reconciled: Option<nat>)
      requires committed == Working()
      modifies this`runs, this`committed, this`session
      ensures reconciled == if id in old(runs) then Some(|Filter(old(runs[id].targets), StartConfirmed)|) else None
      ensures Log() == old(Log()) + Commits(old(committed), Reconciling(id))
      ensures Working() == committed == Last(old(committed), Commits(old(committed), Reconciling(id)))
      ensures Valid(old(committed)) ==> Follows(old(committed), Log()[|old(Log())|..]) && Valid(committed)
    {
      hide StartConfirmed, Collected, Finalized, Filter, Valid, Follows;
      if Valid(committed) {
        ReconcileIsSound(committed, id);
      }
      if id !in runs {
        return None;
      }
      ghost var was := runs[id];
      var count := 0;
      var i := 0;
      NoneReconciled(was);
      while i < |runs[id].targets|
        invariant id in runs && committed == old(committed) && session == old(session) && i <= |was.targets|
        invariant runs == old(runs)[id := was.(targets := Reconciled(was.targets, i))]
        invariant count == |Filter(was.targets[..i], StartConfirmed)|
        decreases |was.targets| - i
      {
        FilterNext(was.targets, StartConfirmed, i);
        ReconciledNext(was, i);
        if StartConfirmed(runs[id].targets[i]) {
          MarkCollected(id, i);
          count := count + 1;
        }
        i := i + 1;
      }
      assert i == |was.targets| && was.targets[..i] == was.targets;
      FinalizeStatus(id);
      Commit();
      assert committed == WithRun(old(committed), id, ReconcileRun(was));
      assert old(committed).runs[id] == was;
      assert Commits(old(committed), Reconciling(id)) == [committed];
      assert past + (old(session) + [committed]) == (past + old(session)) + [committed];
      return Some(count);
    }
  }

  lemma ExecuteIsSound(db: Db, id: nat, p: Plan, additional: nat, s: Session, scripts: seq<seq<Fetch>>,
                       faults: SessionFaults)
    requires var r := Authorized(db, id, p, additional); Fits(scripts, faults, |r.targets|, r.requestBudget)
    requires Valid(db) && PlanValid(p)
    ensures var d := BackfillSession.Execute(db, id, p, additional, s, scripts, faults).desk;
      Follows(db, d.log) && Valid(d.committed)
  {
    hide Valid, Follows, BackfillSession.Execute;
    ExecuteSound(db, id, p, additional, s, scripts, faults);
    FollowsLast(db, BackfillSession.Execute(db, id, p, additional, s, scripts, faults).desk.log);
  }

  lemma ReconcileIsSound(db: Db, id: nat)
    requires Valid(db)
    ensures var log := Commits(db, Reconciling(id)); Follows(db, log) && Valid(Last(db, log))
  {
    hide Valid, Follows, Commits;
    CommitsFollow(db, Reconciling(id));
    FollowsLast(db, Commits(db, Reconciling(id)));
  }

  function LastStep(d: Desk, id: nat, counted: nat, left: nat, end: State): Trip
    requires id in d.working.runs
  {
    Trip(Record(d, id, counted, left), left - Delta(counted, left), end, Stopping)
  }

  lemma LastStepIs(d: Desk, id: nat, counted: nat, left: nat, end: State)
    requires id in d.working.runs
    ensures LastStep(d, id, counted, left, end)
         == Trip(Record(d, id, counted, left), left - Delta(counted, left), end, Stopping)
  {
  }

  /** The traversal from one suspension of the iterator to the next. */
  lemma PagesNext(d: Desk, id: nat, i: nat, symbol: nat, req: HistoryRequest, script: seq<Fetch>, st: State,
                  faults: map<nat, Fault>, left: nat, now: Instant)
    requires |script| >= req.budget && Ready(d, id, i, symbol)
    ensures HasTarget(d.working, id, i)
    ensures var (next, out) := Advance(req, script, st);
      var trip := Pages(d, id, i, symbol, req, script, st, faults, left, now);
      next.summary.requestCount >= st.summary.requestCount &&
      var counted: nat := next.summary.requestCount - st.summary.requestCount;
      var e, rest: nat := Record(d, id, counted, left), left - Delta(counted, left);
      match out
      case Raised => trip == Trip(d, left, next, IteratorRaised)
      case Stopped => trip == LastStep(d, id, counted, left, next)
      case Yielded(page) =>
        HasTarget(e.working, id, i) && Ready(e, id, i, symbol) &&
        var rows := Filter(page.rows, Wanted(d.working.runs[id].targets[i].expected));
        var saved := BackfillSession.SavePage(e, id, i, symbol, rows, now);
        if rows == [] then trip == Pages(e, id, i, symbol, req, script, next, faults, rest, now)
        else match FaultAt(faults, page.number)
          case BeforeReport => trip == Trip(e, rest, next, SaveRaised)
          case AtCommit => trip == Trip(saved, rest, next, SaveRaised)
          case NoFault =>
            && Ready(BackfillSession.Commit(saved), id, i, symbol)
            && trip == Pages(BackfillSession.Commit(saved), id, i, symbol, req, script, next, faults, rest, now)
  {
    hide Advance, Record, BackfillSession.SavePage, Ready, BackfillSession.Commit, Filter, Delta;
    YieldCounts(req, script, st);
    ReadyStays(d, id, i, symbol);
    var (next, out) := Advance(req, script, st);
    var counted := next.summary.requestCount - st.summary.requestCount;
    var e := Record(d, id, counted, left);
    if out.Yielded? {
      NextReady(d, id, i, symbol, out.page, counted, left, now);
    }
  }

  lemma IsReady(d: Desk, id: nat, i: nat, symbol: nat)
    requires HasTarget(d.working, id, i) && Shape(d, id, |d.working.runs[id].targets|)
    requires d.working.runs[id].targets[i].symbolId == Some(symbol)
    ensures Ready(d, id, i, symbol)
  {
  }

  lemma ReadyTarget(d: Desk, id: nat, i: nat, symbol: nat)
    requires Ready(d, id, i, symbol)
    ensures HasTarget(d.working, id, i) && d.working.runs[id].targets[i].symbolId == Some(symbol)
  {
  }

  lemma NextReady(d: Desk, id: nat, i: nat, symbol: nat, page: HistoryPage, counted: nat, left: nat, now: Instant)
    requires Ready(d, id, i, symbol)
    ensures HasTarget(d.working, id, i) && Ready(Record(d, id, counted, left), id, i, symbol)
    ensures var e := Record(d, id, counted, left);
      var rows := Filter(page.rows, Wanted(d.working.runs[id].targets[i].expected));
      HasTarget(e.working, id, i)
      && Ready(BackfillSession.Commit(BackfillSession.SavePage(e, id, i, symbol, rows, now)), id, i, symbol)
  {
    hide Ready, BackfillSession.SavePage, Record, BackfillSession.Commit;
    ReadyStays(d, id, i, symbol);
    var e, rows := Record(d, id, counted, left), Filter(page.rows, Wanted(d.working.runs[id].targets[i].expected));
    ReadyStays(e, id, i, symbol);
    ReadyStays(BackfillSession.SavePage(e, id, i, symbol, rows, now), id, i, symbol);
  }

  lemma RecordKeepsTargets(d: Desk, id: nat, counted: nat, left: nat)
    requires id in d.working.runs
    ensures var e := Record(d, id, counted, left);
      id in e.working.runs && e.working.runs[id].targets == d.working.runs[id].targets
  {
  }

  /** A page of a traversal in good order has one row a day. */
  lemma YieldedDistinct(req: HistoryRequest, script: seq<Fetch>, st: State, page: HistoryPage)
    requires |script| >= req.budget && Books(req, st) && Advance(req, script, st).1 == Yielded(page)
    ensures DistinctKeys(page.rows, PayloadKey)
  {
    var next := Advance(req, script, st).0;
    AdvanceKeepsBooks(req, script, st);
    assert next.pages == st.pages + [page] by { hide Absorb, Oldest, SortBy; }
    assert next.pages[..|st.pages|] == st.pages;
    hide Advance;
    DistinctParts(AllRows(st.pages), page.rows, PayloadKey);
  }

  lemma FinalizedTargets(r: Run)
    ensures Finalized(r).targets == r.targets
  {
  }

  lemma NoneReconciled(r: Run)
    ensures r.(targets := Reconciled(r.targets, 0)) == r
  {
    assert Reconciled(r.targets, 0) == r.targets;
  }

  lemma ReconciledNext(r: Run, i: nat)
    requires i < |r.targets|
    ensures var before, after := r.(targets := Reconciled(r.targets, i)), r.(targets := Reconciled(r.targets, i + 1));
      && before.targets[i] == r.targets[i]
      && after == if StartConfirmed(r.targets[i]) then WithTarget(before, i, Collected(r.targets[i])) else before
  {
    hide Collected, StartConfirmed;
    var next := Reconciled(r.targets, i + 1);
    if StartConfirmed(r.targets[i]) {
      assert next == Reconciled(r.targets, i)[i := Collected(r.targets[i])];
    } else {
      assert next == Reconciled(r.targets, i);
    }
  }
}
