/** Every committed state of any sequence of sessions is valid and only adds to the
    one committed before it. */
module BackfillSafety {
  import opened Common
  import opened Sorting
  import opened PriceTable
  import opened HistoryCollector
  import opened BackfillPlan
  import opened BackfillState
  import opened BackfillSession

  function Last(base: Db, log: seq<Db>): Db { if log == [] then base else log[|log| - 1] }

  function Previous(base: Db, log: seq<Db>, k: nat): Db
    requires k < |log|
  {
    if k == 0 then base else log[k - 1]
  }

  /** Each state of the log is valid and advances the one before it. */
  ghost predicate Follows(base: Db, log: seq<Db>) {
    forall k :: 0 <= k < |log| ==> Valid(log[k]) && Advances(Previous(base, log, k), log[k])
  }

  ghost predicate Sound(base: Db, d: Desk) {
    && Valid(d.working) && Valid(d.committed) && Advances(d.committed, d.working)
    && Follows(base, d.log) && d.committed == Last(base, d.log)
  }

  // ---- single steps ----------------------------------------------------

  lemma CommitSound(base: Db, d: Desk)
    requires Sound(base, d)
    ensures Sound(base, Commit(d))
  {
    hide Valid, Advances;
    AdvancesReflexive(d.working);
    var log := d.log + [d.working];
    forall k | 0 <= k < |log| ensures Valid(log[k]) && Advances(Previous(base, log, k), log[k]) {
      if k < |d.log| {
        assert Previous(base, log, k) == Previous(base, d.log, k);
      }
    }
  }

  lemma RollbackSound(base: Db, d: Desk)
    requires Sound(base, d)
    ensures Sound(base, Rollback(d))
  {
    hide Valid, Advances, Follows;
    AdvancesReflexive(d.committed);
  }

  lemma StepSound(base: Db, d: Desk, e: Desk)
    requires Sound(base, d) && e.committed == d.committed && e.log == d.log
    requires Valid(e.working) && Advances(d.working, e.working)
    ensures Sound(base, e)
  {
    hide Valid, Advances, Follows;
    AdvancesTransitive(d.committed, d.working, e.working);
  }

  lemma RecordSound(base: Db, d: Desk, id: nat, counted: nat, left: nat)
    requires Sound(base, d) && id in d.working.runs
    ensures Sound(base, Record(d, id, counted, left))
  {
    hide Valid, Advances, Sound;
    assert Valid(d.working) by { SoundWorking(base, d); }
    UsageKeeps(d.working, id, Delta(counted, left));
    StepSound(base, d, Record(d, id, counted, left));
  }

  lemma SoundWorking(base: Db, d: Desk)
    requires Sound(base, d)
    ensures Valid(d.working)
  {
  }

  lemma SavePageSound(base: Db, d: Desk, id: nat, i: nat, symbol: nat, rows: seq<Payload>, now: Instant)
    requires Sound(base, d) && Ready(d, id, i, symbol)
    ensures Sound(base, SavePage(d, id, i, symbol, rows, now))
  {
    hide Valid, Advances, Sound, SaveAll;
    SoundWorking(base, d);
    var provider, sorted := d.working.runs[id].manifest.provider, SortBy(rows, PayloadKey);
    PageKeeps(d.working, id, i, symbol, provider, sorted,
              d.working.observations + Observed(symbol, sorted, provider, now));
    StepSound(base, d, SavePage(d, id, i, symbol, rows, now));
  }

  lemma MarkSound(base: Db, d: Desk, id: nat, i: nat, t: TargetState, report: Report)
    requires Sound(base, d) && HasTarget(d.working, id, i)
    requires var old' := d.working.runs[id].targets[i];
             t == Collected(old') || exists reason :: t == Rejected(old', reason)
    ensures Sound(base, OnTarget(d, id, i, t).(report := report))
  {
    hide Valid, Advances, Sound;
    SoundWorking(base, d);
    var old' := d.working.runs[id].targets[i];
    if t == Collected(old') {
      CollectedKeeps(d.working, id, i);
    } else {
      var reason :| t == Rejected(old', reason);
      FailureKeeps(d.working, id, i, reason);
    }
    StepSound(base, d, OnTarget(d, id, i, t).(report := report));
  }

  lemma StatusSound(base: Db, d: Desk, id: nat, status: RunStatus, report: Report)
    requires Sound(base, d) && id in d.working.runs
    ensures Sound(base, OnRun(d, id, d.working.runs[id].(status := status)).(report := report))
  {
    hide Valid, Advances, Sound;
    SoundWorking(base, d);
    StatusKeeps(d.working, id, status);
    StepSound(base, d, OnRun(d, id, d.working.runs[id].(status := status)).(report := report));
  }

  lemma SettleSound(base: Db, d: Desk, marked: Desk, fault: Fault, left: nat)
    requires Sound(base, d) && Sound(base, marked)
    ensures Sound(base, Settle(d, marked, fault, left).desk)
  {
    hide Sound;
    CommitSound(base, marked);
  }

  // ---- one target ------------------------------------------------------

  lemma {:induction false} PagesSound(base: Db, d: Desk, id: nat, i: nat, symbol: nat, req: HistoryRequest,
                                      script: seq<Fetch>, st: State, faults: map<nat, Fault>, left: nat, now: Instant)
    requires |script| >= req.budget && Ready(d, id, i, symbol) && Sound(base, d)
    ensures Sound(base, Pages(d, id, i, symbol, req, script, st, faults, left, now).desk)
    decreases req.budget - st.summary.requestCount
  {
    hide Sound, Advance, Record, SavePage, Ready;
    ReadyStays(d, id, i, symbol);
    YieldCounts(req, script, st);
    var (next, out) := Advance(req, script, st);
    var counted := next.summary.requestCount - st.summary.requestCount;
    RecordSound(base, d, id, counted, left);
    var e, rest := Record(d, id, counted, left), left - Delta(counted, left);
    if out.Yielded? {
      ReadyStays(e, id, i, symbol);
      var rows := Filter(out.page.rows, Wanted(d.working.runs[id].targets[i].expected));
      if rows == [] {
        PagesSound(base, e, id, i, symbol, req, script, next, faults, rest, now);
      } else {
        var saved := SavePage(e, id, i, symbol, rows, now);
        ReadyStays(saved, id, i, symbol);
        SavePageSound(base, e, id, i, symbol, rows, now);
        if FaultAt(faults, out.page.number).NoFault? {
          CommitSound(base, saved);
          PagesSound(base, Commit(saved), id, i, symbol, req, script, next, faults, rest, now);
        }
      }
    }
  }

  lemma ConcludeSound(base: Db, d: Desk, id: nat, i: nat, terminal: Option<Terminal>, fault: Fault, left: nat)
    requires HasTarget(d.working, id, i) && Shape(d, id, |d.working.runs[id].targets|) && Sound(base, d)
    ensures Sound(base, Conclude(d, id, i, terminal, fault, left).desk)
  {
    hide Sound;
    if Concludes(terminal) {
      var t := Concluding(d.working.runs[id].targets[i], terminal);
      MarkSound(base, d, id, i, t, ConcludingReport(d.report, terminal));
      SettleSound(base, d, OnTarget(d, id, i, t).(report := ConcludingReport(d.report, terminal)), fault, left);
    }
  }

  lemma AttemptSound(base: Db, d: Desk, id: nat, i: nat, s: Session, script: seq<Fetch>, faults: Faults, left: nat)
    requires |script| >= left && HasTarget(d.working, id, i) && Shape(d, id, |d.working.runs[id].targets|)
             && Sound(base, d)
    ensures Sound(base, Attempt(d, id, i, s, script, faults, left).desk)
  {
    hide Sound, Pages, Conclude;
    var t := d.working.runs[id].targets[i];
    if Unresolved(t) {
      var report := d.report.(failed := d.report.failed + 1);
      MarkSound(base, d, id, i, Rejected(t, UnresolvedIdentity), report);
      SettleSound(base, d, OnTarget(d, id, i, Rejected(t, UnresolvedIdentity)).(report := report), faults.conclusion,
                  left);
    } else if !NoIterator(s, faults) {
      var req := HistoryRequest(s.start, s.end, None, left);
      var trip := Pages(d, id, i, t.symbolId.value, req, script, FRESH, faults.pages, left, s.now);
      PagesSound(base, d, id, i, t.symbolId.value, req, script, FRESH, faults.pages, left, s.now);
      ConcludeSound(base, trip.desk, id, i, trip.end.summary.terminal, faults.conclusion, trip.left);
    }
  }

  // ---- sessions --------------------------------------------------------

  lemma {:induction false} LoopSound(base: Db, d: Desk, id: nat, s: Session, scripts: seq<seq<Fetch>>,
                                     faults: SessionFaults, count: nat, i: nat, left: nat, clean: bool)
    requires Shape(d, id, count) && i <= count && Fits(scripts, faults, count, left) && Sound(base, d)
    ensures Sound(base, DeskOf(Loop(d, id, s, scripts, faults, count, i, left, clean)))
    decreases count - i
  {
    hide Sound, Attempt;
    if i < count {
      if Skipped(d.working.runs[id].targets[i], s) {
        LoopSound(base, d, id, s, scripts, faults, count, i + 1, left, clean);
      } else if left < 1 {
        StatusSound(base, d, id, BudgetExhausted, Waiting(d, id, i, s).report);
        CommitSound(base, Waiting(d, id, i, s));
      } else {
        var a := Attempt(d, id, i, s, scripts[i], faults.targets[i], left);
        AttemptSound(base, d, id, i, s, scripts[i], faults.targets[i], left);
        if !a.raised {
          LoopSound(base, a.desk, id, s, scripts, faults, count, i + 1, a.left, clean);
        } else {
          RollbackSound(base, a.desk);
          var e := Rollback(a.desk);
          if id in e.working.runs && !faults.targets[i].handler {
            MarkSound(base, e, id, i, Rejected(e.working.runs[id].targets[i], WriteFailure), Failing(e, id, i).report);
            CommitSound(base, Failing(e, id, i));
            LoopSound(base, Commit(Failing(e, id, i)), id, s, scripts, faults, count, i + 1, a.left, false);
          }
        }
      }
    }
  }

  lemma OpenSound(db: Db, id: nat, p: Plan, additional: nat)
    requires Valid(db) && PlanValid(p)
    ensures Sound(db, Open(db, id, p, additional))
    ensures Shape(Open(db, id, p, additional), id, |Starting(db, id, p).targets|)
  {
    hide Valid, Advances, NewRun, Serialized;
    var created := WithRun(db, id, Starting(db, id, p));
    StartingKeeps(db, id, p);
    BudgetKeeps(created, id, additional);
    var d := Open(db, id, p, additional);
    assert d.working == WithRun(created, id, Authorized(db, id, p, additional));
    AdvancesTransitive(db, created, d.working);
  }

  lemma StartingKeeps(db: Db, id: nat, p: Plan)
    requires Valid(db) && PlanValid(p)
    ensures Valid(WithRun(db, id, Starting(db, id, p))) && Advances(db, WithRun(db, id, Starting(db, id, p)))
  {
    if id in db.runs {
      assert WithRun(db, id, db.runs[id]) == db;
      AdvancesReflexive(db);
    } else {
      OpeningKeeps(db, id, p);
    }
    hide Valid, Advances;
  }

  lemma CloseSound(base: Db, d: Desk, id: nat)
    requires id in d.working.runs && Sound(base, d)
    ensures Sound(base, CloseRun(d, id))
  {
    hide Sound, Valid, Advances, Finalized;
    SoundWorking(base, d);
    FinalizeKeeps(d.working, id);
    var r := Finalized(d.working.runs[id]);
    var e := OnRun(d, id, r).(report := d.report.(completedTargets := |Filter(r.targets, IsCompleted)|));
    StepSound(base, d, e);
    CommitSound(base, e);
  }

  /** A session commits nothing but valid states, each advancing the one before,
      whatever raises in it and wherever it ends. */
  lemma ExecuteSound(db: Db, id: nat, p: Plan, additional: nat, s: Session, scripts: seq<seq<Fetch>>,
                     faults: SessionFaults)
    requires var r := Authorized(db, id, p, additional); Fits(scripts, faults, |r.targets|, r.requestBudget)
    requires Valid(db) && PlanValid(p)
    ensures var d := Execute(db, id, p, additional, s, scripts, faults).desk;
      Follows(db, d.log) && d.committed == Last(db, d.log)
  {
    hide Valid, Advances, Loop, CloseRun;
    var r, d := Authorized(db, id, p, additional), Open(db, id, p, additional);
    OpenSound(db, id, p, additional);
    StatusSound(db, d, id, DryRun, d.report);
    CommitSound(db, OnRun(d, id, r.(status := DryRun)));
    var sweep := Loop(d, id, s, scripts, faults, |r.targets|, 0, Unspent(r), true);
    LoopSound(db, d, id, s, scripts, faults, |r.targets|, 0, Unspent(r), true);
    if sweep.Swept? {
      CloseSound(db, sweep.desk, id);
    }
    hide Follows, Commit, Open, Authorized;
  }

  // ---- sequences of sessions -------------------------------------------

  /** One call of the service.  A call that raised is followed by a rollback, so
      each starts from the last committed state. */
  datatype Call =
    | Executing(id: nat, plan: Plan, additional: nat, session: Session, scripts: seq<seq<Fetch>>, faults: SessionFaults)
    | Reconciling(id: nat)

  ghost predicate WellFormed(db: Db, call: Call) {
    match call
    case Executing(id, plan, additional, _, scripts, faults) =>
      var r := Authorized(db, id, plan, additional);
      PlanValid(plan) && Fits(scripts, faults, |r.targets|, r.requestBudget)
    case Reconciling(_) => true
  }

  /** What one call commits; reconciling an unknown run raises. */
  ghost function Commits(db: Db, call: Call): seq<Db>
    requires WellFormed(db, call)
  {
    match call
    case Executing(id, plan, additional, s, scripts, faults) =>
      Execute(db, id, plan, additional, s, scripts, faults).desk.log
    case Reconciling(id) => if id in db.runs then [WithRun(db, id, ReconcileRun(db.runs[id]))] else []
  }

  ghost predicate AllWellFormed(db: Db, calls: seq<Call>)
    decreases |calls|, 0
  {
    calls == [] || (AllWellFormed(db, calls[..|calls| - 1])
                    && WellFormed(Last(db, History(db, calls[..|calls| - 1])), calls[|calls| - 1]))
  }

  /** Everything committed by a sequence of calls, in order. */
  ghost function History(db: Db, calls: seq<Call>): seq<Db>
    requires AllWellFormed(db, calls)
    decreases |calls|, 1
  {
    if calls == [] then []
    else
      var front := History(db, calls[..|calls| - 1]);
      front + Commits(Last(db, front), calls[|calls| - 1])
  }

  lemma FollowsConcat(base: Db, a: seq<Db>, b: seq<Db>)
    requires Follows(base, a) && Follows(Last(base, a), b)
    ensures Follows(base, a + b)
  {
    hide Valid, Advances;
    var log := a + b;
    forall k | 0 <= k < |log| ensures Valid(log[k]) && Advances(Previous(base, log, k), log[k]) {
      if k < |a| {
        assert Previous(base, log, k) == Previous(base, a, k);
      } else {
        assert log[k] == b[k - |a|] && Previous(base, log, k) == Previous(Last(base, a), b, k - |a|);
      }
    }
  }

  lemma FollowsLast(base: Db, log: seq<Db>)
    requires Valid(base) && Follows(base, log)
    ensures Valid(Last(base, log))
  {
    hide Valid, Advances;
  }

  lemma ReconcileKeeps(db: Db, id: nat)
    requires Valid(db) && id in db.runs
    ensures Valid(WithRun(db, id, ReconcileRun(db.runs[id])))
            && Advances(db, WithRun(db, id, ReconcileRun(db.runs[id])))
  {
    hide RunValid, RunAdvances, Finalized, Valid, Advances, Reconciled;
    var r := db.runs[id].(targets := Reconciled(db.runs[id].targets, |db.runs[id].targets|));
    var mid := WithRun(db, id, r);
    ReconciledValid(db, id);
    ReconciledAdvances(db.runs[id]);
    RunStepKeeps(db, id, r);
    FinalizeKeeps(mid, id);
    assert WithRun(mid, id, Finalized(r)) == WithRun(db, id, Finalized(r));
    AdvancesTransitive(db, mid, WithRun(mid, id, Finalized(r)));
  }

  lemma ReconciledAdvances(r: Run)
    ensures RunAdvances(r, r.(targets := Reconciled(r.targets, |r.targets|)))
  {
  }

  lemma ReconciledValid(db: Db, id: nat)
    requires Valid(db) && id in db.runs
    ensures RunValid(db.runs[id].(targets := Reconciled(db.runs[id].targets, |db.runs[id].targets|)), db.prices)
  {
    assert RunValid(db.runs[id], db.prices);
    forall i | 0 <= i < |db.runs[id].targets|
      ensures TargetValid(Reconciled(db.runs[id].targets, |db.runs[id].targets|)[i], db.prices)
    {
      assert TargetValid(db.runs[id].targets[i], db.prices);
    }
    hide TargetValid;
  }

  lemma CommitsFollow(db: Db, call: Call)
    requires Valid(db) && WellFormed(db, call)
    ensures Follows(db, Commits(db, call))
  {
    match call
    case Executing(id, plan, additional, s, scripts, faults) =>
      hide Valid, Advances, BackfillSession.Execute, Follows;
      ExecuteSound(db, id, plan, additional, s, scripts, faults);
    case Reconciling(id) =>
      if id in db.runs {
        ReconcileKeeps(db, id);
      }
      hide Valid, Advances, ReconcileRun;
  }

  lemma {:induction false} HistoryFollows(db: Db, calls: seq<Call>)
    requires Valid(db) && AllWellFormed(db, calls)
    ensures Follows(db, History(db, calls))
    decreases |calls|
  {
    hide Valid, Advances, Commits, WellFormed;
    if calls != [] {
      var front := History(db, calls[..|calls| - 1]);
      hide Follows;
      HistoryFollows(db, calls[..|calls| - 1]);
      FollowsLast(db, front);
      CommitsFollow(Last(db, front), calls[|calls| - 1]);
      FollowsConcat(db, front, Commits(Last(db, front), calls[|calls| - 1]));
    } else {
      hide AllWellFormed;
    }
  }

  lemma {:induction false} LaterAdvances(base: Db, log: seq<Db>, i: nat, j: nat)
    requires Follows(base, log) && i <= j < |log|
    ensures Advances(log[i], log[j])
    decreases j
  {
    hide Valid, Advances;
    if i < j {
      LaterAdvances(base, log, i, j - 1);
      assert Previous(base, log, j) == log[j - 1];
      AdvancesTransitive(log[i], log[j - 1], log[j]);
    } else {
      AdvancesReflexive(log[i]);
    }
  }

  /** In every committed state of any sequence of sessions, with raises anywhere, and
      of reconciliations: a confirmed date has a canonical price row, and confirmed and
      remaining dates split the expected dates.  In every later committed state that
      date is still confirmed, the price is the same, and usage has not fallen. */
  lemma CommittedIsDurable(db: Db, calls: seq<Call>, i: nat, j: nat, id: nat, k: nat, d: Date)
    requires Valid(db) && AllWellFormed(db, calls) && i <= j < |History(db, calls)|
    requires HasTarget(History(db, calls)[i], id, k) && d in History(db, calls)[i].runs[id].targets[k].confirmed
    ensures var a, b := History(db, calls)[i], History(db, calls)[j];
      var t := a.runs[id].targets[k];
      && t.symbolId.Some? && (t.symbolId.value, d) in a.prices && d in t.expected && d !in t.remaining
      && multiset(t.expected) == multiset(t.confirmed) + multiset(t.remaining)
      && HasTarget(b, id, k) && d in b.runs[id].targets[k].confirmed
      && (t.symbolId.value, d) in b.prices && b.prices[(t.symbolId.value, d)] == a.prices[(t.symbolId.value, d)]
      && a.runs[id].requestsUsed <= b.runs[id].requestsUsed && a.runs[id].manifest == b.runs[id].manifest
  {
    HistoryFollows(db, calls);
    LaterAdvances(db, History(db, calls), i, j);
    var a, b := History(db, calls)[i], History(db, calls)[j];
    assert Valid(a);
    hide History, Follows, Valid;
    DurableDate(a, b, id, k, d);
  }

  lemma DurableDate(a: Db, b: Db, id: nat, k: nat, d: Date)
    requires Valid(a) && Advances(a, b) && HasTarget(a, id, k) && d in a.runs[id].targets[k].confirmed
    ensures var t := a.runs[id].targets[k];
      && t.symbolId.Some? && (t.symbolId.value, d) in a.prices && d in t.expected && d !in t.remaining
      && multiset(t.expected) == multiset(t.confirmed) + multiset(t.remaining)
      && HasTarget(b, id, k) && d in b.runs[id].targets[k].confirmed
      && (t.symbolId.value, d) in b.prices && b.prices[(t.symbolId.value, d)] == a.prices[(t.symbolId.value, d)]
      && a.runs[id].requestsUsed <= b.runs[id].requestsUsed && a.runs[id].manifest == b.runs[id].manifest
  {
    assert RunValid(a.runs[id], a.prices) && RunAdvances(a.runs[id], b.runs[id]);
    assert TargetValid(a.runs[id].targets[k], a.prices);
    assert TargetAdvances(a.runs[id].targets[k], b.runs[id].targets[k]);
    DatesPartition(a.runs[id].targets[k], a.prices);
  }
}
