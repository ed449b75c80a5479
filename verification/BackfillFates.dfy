/** What one whole session does to its targets and to the run. */
module BackfillFates {
  import opened Common
  import opened Sorting
  import opened PriceTable
  import opened HistoryCollector
  import opened BackfillPlan
  import opened BackfillState
  import opened BackfillSession
  import opened BackfillCourse
  import opened BackfillTargets

  // ---- manifest and status stay while targets are processed -------------

  predicate SameHead(r: Run, head: Run) { r.manifest == head.manifest && r.status == head.status }

  /** The run has this manifest and status, and so has its stored form, if there is one. */
  predicate Heads(d: Desk, id: nat, head: Run) {
    && id in d.working.runs && SameHead(d.working.runs[id], head)
    && (id in d.committed.runs ==> SameHead(d.committed.runs[id], head))
  }

  lemma HeadsStay(d: Desk, id: nat, i: nat, symbol: nat, head: Run)
    requires Ready(d, id, i, symbol) && Heads(d, id, head)
    ensures forall counted, left :: Heads(Record(d, id, counted, left), id, head)
    ensures forall rows, now :: Heads(SavePage(d, id, i, symbol, rows, now), id, head)
    ensures Heads(Commit(d), id, head)
  {
    hide SaveAll;
  }

  lemma {:induction false} PagesKeepHead(d: Desk, id: nat, i: nat, symbol: nat, req: HistoryRequest,
                                         script: seq<Fetch>, st: State, faults: map<nat, Fault>, left: nat,
                                         now: Instant, head: Run)
    requires |script| >= req.budget && Ready(d, id, i, symbol) && Heads(d, id, head)
    ensures Heads(Pages(d, id, i, symbol, req, script, st, faults, left, now).desk, id, head)
    decreases req.budget - st.summary.requestCount
  {
    hide Advance, Record, SavePage, Ready, Heads, Commit;
    ReadyStays(d, id, i, symbol);
    HeadsStay(d, id, i, symbol, head);
    YieldCounts(req, script, st);
    var (next, out) := Advance(req, script, st);
    var counted := next.summary.requestCount - st.summary.requestCount;
    var e, rest := Record(d, id, counted, left), left - Delta(counted, left);
    if out.Yielded? {
      ReadyStays(e, id, i, symbol);
      HeadsStay(e, id, i, symbol, head);
      var rows := Filter(out.page.rows, Wanted(d.working.runs[id].targets[i].expected));
      if rows == [] {
        PagesKeepHead(e, id, i, symbol, req, script, next, faults, rest, now, head);
      } else {
        var saved := SavePage(e, id, i, symbol, rows, now);
        ReadyStays(saved, id, i, symbol);
        HeadsStay(saved, id, i, symbol, head);
        if FaultAt(faults, out.page.number).NoFault? {
          PagesKeepHead(Commit(saved), id, i, symbol, req, script, next, faults, rest, now, head);
        }
      }
    }
  }

  lemma AttemptKeepsHead(d: Desk, id: nat, i: nat, s: Session, script: seq<Fetch>, faults: Faults, left: nat,
                         head: Run)
    requires |script| >= left && HasTarget(d.working, id, i) && Shape(d, id, |d.working.runs[id].targets|)
    requires Heads(d, id, head)
    ensures Heads(Onward(Attempt(d, id, i, s, script, faults, left), id, i), id, head)
  {
    hide Pages, Conclude;
    var t := d.working.runs[id].targets[i];
    if !Unresolved(t) && !NoIterator(s, faults) {
      var trip := Pages(d, id, i, t.symbolId.value, Request(s, left), script, FRESH, faults.pages, left, s.now);
      PagesKeepHead(d, id, i, t.symbolId.value, Request(s, left), script, FRESH, faults.pages, left, s.now, head);
      if trip.ending == Stopping {
        ConcludeKeepsHead(trip.desk, id, i, trip.end.summary.terminal, faults.conclusion, trip.left, head);
      }
    }
  }

  lemma ConcludeKeepsHead(d: Desk, id: nat, i: nat, terminal: Option<Terminal>, fault: Fault, left: nat, head: Run)
    requires HasTarget(d.working, id, i) && Shape(d, id, |d.working.runs[id].targets|) && Heads(d, id, head)
    ensures Heads(Onward(Conclude(d, id, i, terminal, fault, left), id, i), id, head)
  {
  }

  // ---- a whole session -------------------------------------------------

  /** The first `n` targets have met their fate, each with the budget those before it
      left; the others are as they were. */
  ghost predicate Fates(before: seq<TargetState>, after: seq<TargetState>, n: nat, s: Session,
                        scripts: seq<seq<Fetch>>, faults: SessionFaults, left: nat, prices: Prices)
  {
    && |after| == |before| && n <= |before| && Fits(scripts, faults, |before|, left)
    && (forall k :: 0 <= k < n ==>
          Fate(before[k], after[k], s, scripts[k], faults.targets[k],
               LeftBefore(before, s, scripts, faults, left, k), prices))
    && (forall k :: n <= k < |before| ==> after[k] == before[k])
  }

  lemma FatesNext(before: seq<TargetState>, mid: seq<TargetState>, after: seq<TargetState>, n: nat, s: Session,
                  scripts: seq<seq<Fetch>>, faults: SessionFaults, left: nat, prices: Prices, later: Prices)
    requires Fates(before, mid, n, s, scripts, faults, left, prices) && n < |before| == |after|
    requires Extends(prices, later) && forall k :: 0 <= k < |mid| && k != n ==> after[k] == mid[k]
    requires Fate(before[n], after[n], s, scripts[n], faults.targets[n],
                  LeftBefore(before, s, scripts, faults, left, n), later)
    ensures Fates(before, after, n + 1, s, scripts, faults, left, later)
  {
    hide Fate, LeftBefore, Extends;
    forall k | 0 <= k < n + 1
      ensures Fate(before[k], after[k], s, scripts[k], faults.targets[k],
                   LeftBefore(before, s, scripts, faults, left, k), later)
    {
      if k < n {
        FateExtends(before[k], after[k], s, scripts[k], faults.targets[k],
                    LeftBefore(before, s, scripts, faults, left, k), prices, later);
      }
    }
  }

  lemma FateOfSkipped(before: seq<TargetState>, mid: seq<TargetState>, n: nat, s: Session, scripts: seq<seq<Fetch>>,
                      faults: SessionFaults, left: nat, prices: Prices)
    requires Fates(before, mid, n, s, scripts, faults, left, prices) && n < |before| && Skipped(before[n], s)
    ensures Fates(before, mid, n + 1, s, scripts, faults, left, prices)
  {
    hide LeftBefore;
  }

  /** The loop has stopped for want of budget, or at the end. */
  ghost predicate StopsAt(targets: seq<TargetState>, s: Session, scripts: seq<seq<Fetch>>, faults: SessionFaults,
                          all: nat, reached: nat, left: nat)
    requires Fits(scripts, faults, |targets|, all)
  {
    && reached <= |targets| && left == LeftBefore(targets, s, scripts, faults, all, reached)
    && (reached < |targets| ==>
          left == 0 && targets[reached].status != Completed && targets[reached].status in s.statuses)
  }

  lemma {:induction false} LoopFates(d: Desk, id: nat, s: Session, scripts: seq<seq<Fetch>>, faults: SessionFaults,
                                     i: nat, left: nat, clean: bool, targets: seq<TargetState>, all: nat, head: Run)
    requires Midway(d, id, i, targets) && i <= |targets| && Fits(scripts, faults, |targets|, all)
    requires left == LeftBefore(targets, s, scripts, faults, all, i) && Heads(d, id, head)
    requires Fates(targets, d.working.runs[id].targets, i, s, scripts, faults, all, d.working.prices)
    ensures var sweep := Loop(d, id, s, scripts, faults, |targets|, i, left, clean);
      sweep.Swept? ==>
        var e := sweep.desk.working;
        && StopsAt(targets, s, scripts, faults, all, sweep.reached, sweep.left)
        && Fates(targets, e.runs[id].targets, sweep.reached, s, scripts, faults, all, e.prices)
        && e.runs[id].status == if sweep.reached < |targets| then BudgetExhausted else head.status
    decreases |targets| - i
  {
    hide Attempt, CourseOf, Fates, Extends, Fate, Midway, Heads;
    HeadStatus(d, id, head);
    var count := |targets|;
    MidwaySkips(d, id, i, targets);
    if i < count {
      MidwayAt(d, id, i, targets);
      if Skipped(targets[i], s) {
        FateOfSkipped(targets, d.working.runs[id].targets, i, s, scripts, faults, all, d.working.prices);
        LoopFates(d, id, s, scripts, faults, i + 1, left, clean, targets, all, head);
      } else if left >= 1 {
        var a := Attempt(d, id, i, s, scripts[i], faults.targets[i], left);
        AttemptFollows(d, id, i, s, scripts[i], faults.targets[i], left);
        NextTarget(d, id, i, s, scripts[i], faults.targets[i], left, targets);
        if !a.raised || (id in a.desk.committed.runs && !faults.targets[i].handler) {
          AttemptFate(d, id, i, s, scripts[i], faults.targets[i], left, targets);
          var e := Onward(a, id, i);
          FatesNext(targets, d.working.runs[id].targets, e.working.runs[id].targets, i, s, scripts, faults, all,
                    d.working.prices, e.working.prices);
          AttemptKeepsHead(d, id, i, s, scripts[i], faults.targets[i], left, head);
          LoopFates(e, id, s, scripts, faults, i + 1, a.left, clean && !a.raised, targets, all, head);
        }
      }
    }
  }

  lemma HeadStatus(d: Desk, id: nat, head: Run)
    requires Heads(d, id, head)
    ensures id in d.working.runs && d.working.runs[id].status == head.status
  {
  }

  lemma {:induction false} LoopClean(d: Desk, id: nat, s: Session, scripts: seq<seq<Fetch>>, faults: SessionFaults,
                                     i: nat, left: nat, clean: bool, targets: seq<TargetState>, all: nat)
    requires Midway(d, id, i, targets) && i <= |targets| && Fits(scripts, faults, |targets|, all)
    requires left == LeftBefore(targets, s, scripts, faults, all, i)
    ensures var sweep := Loop(d, id, s, scripts, faults, |targets|, i, left, clean);
      sweep.Swept? ==>
        (sweep.clean <==> clean && NothingRaised(targets, s, scripts, faults, all, i))
    decreases |targets| - i
  {
    hide Attempt, CourseOf, Midway, Others;
    var count := |targets|;
    MidwaySkips(d, id, i, targets);
    if i < count {
      MidwayAt(d, id, i, targets);
      if Skipped(targets[i], s) {
        LoopClean(d, id, s, scripts, faults, i + 1, left, clean, targets, all);
      } else if left < 1 {
        forall k | i <= k < count ensures !Worked(targets, s, scripts, faults, all, k) {
          LeftNeverGrows(targets, s, scripts, faults, all, i, k);
        }
      } else {
        var a := Attempt(d, id, i, s, scripts[i], faults.targets[i], left);
        AttemptFollows(d, id, i, s, scripts[i], faults.targets[i], left);
        NextTarget(d, id, i, s, scripts[i], faults.targets[i], left, targets);
        assert Worked(targets, s, scripts, faults, all, i);
        if !a.raised || (id in a.desk.committed.runs && !faults.targets[i].handler) {
          LoopClean(Onward(a, id, i), id, s, scripts, faults, i + 1, a.left, clean && !a.raised, targets, all);
        }
      }
    }
  }

  predicate NothingRaised(targets: seq<TargetState>, s: Session, scripts: seq<seq<Fetch>>, faults: SessionFaults,
                          left: nat, i: nat)
    requires Fits(scripts, faults, |targets|, left)
  {
    forall k :: i <= k < |targets| && Worked(targets, s, scripts, faults, left, k) ==>
                  !CourseAt(targets, s, scripts, faults, left, k).raised
  }

  /** A session that returns has dealt with its targets in order, each with the budget
      those before it left, until the budget was spent; what became of each, and
      whether anything raised, is settled by the inputs. */
  lemma SessionFates(db: Db, id: nat, p: Plan, additional: nat, s: Session, scripts: seq<seq<Fetch>>,
                     faults: SessionFaults)
    requires var r := Authorized(db, id, p, additional); Fits(scripts, faults, |r.targets|, r.requestBudget)
    ensures var start, all := Starting(db, id, p), Unspent(Authorized(db, id, p, additional));
      var result := Execute(db, id, p, additional, s, scripts, faults);
      result.outcome == Ok && !p.dryRun ==>
        && result.desk.working == result.desk.committed && id in result.desk.committed.runs
        && var r := result.desk.committed.runs[id];
        && Fits(scripts, faults, |start.targets|, all)
        && StopsAt(start.targets, s, scripts, faults, all, result.reached, result.left)
        && Fates(start.targets, r.targets, result.reached, s, scripts, faults, all, result.desk.committed.prices)
        && (result.clean <==> NothingRaised(start.targets, s, scripts, faults, all, 0))
        && result.desk.report.completedTargets == |Filter(r.targets, (t: TargetState) => t.status == Completed)|
        && r.status ==
             if r.targets != [] && forall t :: t in r.targets ==> t.status in {Completed, Failed} then
               if forall t :: t in r.targets ==> t.status == Completed then AllCompleted else CompletedPartial
             else if result.reached < |r.targets| then BudgetExhausted else start.status
  {
    hide Loop, Fates, StopsAt, NothingRaised, Midway, NewRun, CloseRun, LeftBefore;
    var d, targets := Open(db, id, p, additional), Starting(db, id, p).targets;
    var all := Unspent(Authorized(db, id, p, additional));
    OpenMidway(db, id, p, additional);
    NoFates(targets, s, scripts, faults, all, d.working.prices);
    assert Heads(d, id, Starting(db, id, p));
    LoopFates(d, id, s, scripts, faults, 0, all, true, targets, all, Starting(db, id, p));
    LoopClean(d, id, s, scripts, faults, 0, all, true, targets, all);
    var sweep := Loop(d, id, s, scripts, faults, |targets|, 0, all, true);
    if sweep.Swept? {
      ClosedRun(sweep.desk, id);
    }
  }

  lemma NoFates(targets: seq<TargetState>, s: Session, scripts: seq<seq<Fetch>>, faults: SessionFaults, left: nat,
                prices: Prices)
    requires Fits(scripts, faults, |targets|, left)
    ensures Fates(targets, targets, 0, s, scripts, faults, left, prices)
    ensures LeftBefore(targets, s, scripts, faults, left, 0) == left
  {
    hide Fate;
  }

  lemma ClosedRun(d: Desk, id: nat)
    requires id in d.working.runs
    ensures var e := CloseRun(d, id);
      && e.working == e.committed && id in e.committed.runs && e.committed.prices == d.working.prices
      && var r := e.committed.runs[id];
      && r.targets == d.working.runs[id].targets
      && e.report.completedTargets == |Filter(r.targets, (t: TargetState) => t.status == Completed)|
      && r.status ==
           if r.targets != [] && forall t :: t in r.targets ==> t.status in {Completed, Failed} then
             if forall t :: t in r.targets ==> t.status == Completed then AllCompleted else CompletedPartial
           else d.working.runs[id].status
  {
    var targets := d.working.runs[id].targets;
    FilterSame(targets, IsCompleted, (t: TargetState) => t.status == Completed);
    hide Filter;
  }

  /** A run ends as completed only if no target failed: whatever fails in a session is
      stored as failed, with its reason. */
  lemma FailureIsStored(db: Db, id: nat, p: Plan, additional: nat, s: Session, scripts: seq<seq<Fetch>>,
                        faults: SessionFaults, k: nat, reason: FailureReason)
    requires var r := Authorized(db, id, p, additional); Fits(scripts, faults, |r.targets|, r.requestBudget)
    requires var result := Execute(db, id, p, additional, s, scripts, faults);
      result.outcome == Ok && !p.dryRun && k < result.reached
    ensures var start, all := Starting(db, id, p), Unspent(Authorized(db, id, p, additional));
      && k < |start.targets| && Fits(scripts, faults, |start.targets|, all)
      && var t, left := start.targets[k], LeftBefore(start.targets, s, scripts, faults, all, k);
         var now := Execute(db, id, p, additional, s, scripts, faults).desk.committed;
      t.status != Completed && t.status in s.statuses
      && WhyFailed(t, s, scripts[k], faults.targets[k], left) == Some(reason) ==>
        && HasTarget(now, id, k)
        && now.runs[id].targets[k].status == Failed && now.runs[id].targets[k].failure == Some(reason)
        && (now.runs[id].status == AllCompleted ==> start.status == AllCompleted)
  {
    hide Execute, Confirms, Served, WhyFailed, TerminalOf, LeftBefore, NothingRaised, Filter;
    SessionFates(db, id, p, additional, s, scripts, faults);
  }

  /** When a session is refused, and what a dry run stores. */
  lemma OutcomeMeans(db: Db, id: nat, p: Plan, additional: nat, s: Session, scripts: seq<seq<Fetch>>,
                     faults: SessionFaults)
    requires var r := Authorized(db, id, p, additional); Fits(scripts, faults, |r.targets|, r.requestBudget)
    ensures var start, result := Starting(db, id, p), Execute(db, id, p, additional, s, scripts, faults);
      && (result.outcome == PlanRefused <==> id in db.runs && db.runs[id].manifest != Serialized(p))
      && (result.outcome == BudgetRefused <==>
            result.outcome != PlanRefused && additional > 0 && (id !in db.runs || db.runs[id].manifest.dryRun))
      && (result.outcome in {PlanRefused, BudgetRefused} ==> result.desk.log == [] && result.desk.committed == db)
      && (result.outcome == Ok && p.dryRun ==>
            && additional == 0 && id in result.desk.committed.runs
            && result.desk.committed == db.(runs := db.runs[id := start.(status := DryRun)])
            && result.desk.log == [result.desk.committed])
  {
    hide Loop, CloseRun, NewRun, Serialized;
    NewRunIsPlan(p);
    SerializedKeepsDryRun(p);
  }

  lemma NewRunIsPlan(p: Plan)
    ensures NewRun(p).manifest == Serialized(p)
  {
  }

  lemma SerializedKeepsDryRun(p: Plan)
    ensures Serialized(p).dryRun == p.dryRun
  {
  }

  /** The run a session starts from: the stored one, or a new one with a pending target for
      each planned one, all of its days still to be confirmed. */
  lemma StartMeans(db: Db, id: nat, p: Plan)
    ensures var start := Starting(db, id, p);
      if id in db.runs then start == db.runs[id]
      else
        && start.manifest == Serialized(p) && start.status == Active
        && start.requestBudget == p.requestBudget && start.requestsUsed == 0 && |start.targets| == |p.targets|
        && forall k :: 0 <= k < |p.targets| ==>
             var t := p.targets[k];
             start.targets[k] == TargetState(t.instrumentId, t.symbolId, t.providerCode, t.market, t.expectedDates, [],
                                             t.expectedDates, 0, Pending, None)
  {
  }

  /** What reconciling a stored run does: a running target whose first expected day is
      confirmed is completed, everything else about the targets stays, and the run ends
      once every target is completed or failed. */
  lemma ReconcileMeans(r: Run)
    ensures var after := ReconcileRun(r);
      && |after.targets| == |r.targets|
      && (forall k :: 0 <= k < |r.targets| ==>
            var t := r.targets[k];
            after.targets[k] == if t.status == Running && |t.expected| > 0 && t.expected[0] in t.confirmed
                                then t.(status := Completed) else t)
      && after.(targets := r.targets, status := r.status) == r
      && after.status ==
           if r.targets != [] && forall t :: t in after.targets ==> t.status in {Completed, Failed} then
             if forall t :: t in after.targets ==> t.status == Completed then AllCompleted else CompletedPartial
           else r.status
  {
  }
}
