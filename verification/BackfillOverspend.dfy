/** Sessions that overspend their run, and the exact condition for a session that
    never can. */
module BackfillOverspend {
  import opened Common
  import opened Sorting
  import RepairTables
  import opened PriceTable
  import opened HistoryCollector
  import opened BackfillPlan
  import opened BackfillState
  import opened BackfillSession
  import opened BackfillCourse
  import opened BackfillBudget

  lemma FailingAttempt(d: Desk, id: nat, i: nat, s: Session, script: seq<Fetch>, left: nat)
    requires |script| >= left && HasTarget(d.working, id, i) && Shape(d, id, |d.working.runs[id].targets|)
    ensures Attempt(d, id, i, s, script, FAILING, left) == Attempted(d, left, true)
  {
  }

  /** The stored run is still as it was before the session. */
  predicate Untouched(d: Desk, id: nat, terms: Terms) {
    && id in d.committed.runs && d.committed.runs[id].requestBudget == terms.budget
    && d.committed.runs[id].requestsUsed == terms.used
  }

  predicate Reverted(d: Desk, id: nat, terms: Terms) {
    && id in d.working.runs && d.working.runs[id].requestBudget == terms.budget
    && d.working.runs[id].requestsUsed == terms.used
  }

  /** After the rollback and the mark the run is as it was before the session. */
  lemma FailedAgain(d: Desk, id: nat, i: nat, targets: seq<TargetState>, terms: Terms)
    requires Midway(d, id, i, targets) && i < |targets| && Untouched(d, id, terms)
    ensures var e := Rollback(d);
      && id in d.committed.runs && id in e.working.runs && HasTarget(e.working, id, i)
      && Untouched(Commit(Failing(e, id, i)), id, terms) && Reverted(Commit(Failing(e, id, i)), id, terms)
  {
  }

  /** All targets from the i-th up to the k-th raise: the first of them takes the
      extension away, and none of them spends anything. */
  lemma {:induction false} RaiseThrough(d: Desk, id: nat, s: Session, scripts: seq<seq<Fetch>>, faults: SessionFaults,
                                        i: nat, k: nat, left: nat, clean: bool, targets: seq<TargetState>, terms: Terms)
    returns (e: Desk, smooth: bool)
    requires Midway(d, id, i, targets) && i <= k <= |targets| && Fits(scripts, faults, |targets|, left) && left >= 1
    requires Untouched(d, id, terms) && forall j :: i <= j < k ==> faults.targets[j] == FAILING
    ensures Midway(e, id, k, targets) && Untouched(e, id, terms)
    ensures Loop(d, id, s, scripts, faults, |targets|, i, left, clean)
         == Loop(e, id, s, scripts, faults, |targets|, k, left, smooth)
    ensures Reverted(d, id, terms) || (exists j :: i <= j < k && !Skipped(targets[j], s)) ==> Reverted(e, id, terms)
    decreases k - i
  {
    hide Attempt, Midway, Others, Untouched, Reverted, Commit, Failing, Rollback;
    MidwaySkips(d, id, i, targets);
    if i == k {
      e, smooth := d, clean;
    } else if Skipped(targets[i], s) {
      MidwayAt(d, id, i, targets);
      e, smooth := RaiseThrough(d, id, s, scripts, faults, i + 1, k, left, clean, targets, terms);
    } else {
      MidwayAt(d, id, i, targets);
      FailingAttempt(d, id, i, s, scripts[i], left);
      NextTarget(d, id, i, s, scripts[i], FAILING, left, targets);
      FailedAgain(d, id, i, targets, terms);
      var f := Commit(Failing(Rollback(d), id, i));
      e, smooth := RaiseThrough(f, id, s, scripts, faults, i + 1, k, left, false, targets, terms);
    }
  }

  /** With nothing left to spend the loop goes through without touching usage or budget. */
  lemma {:induction false} LoopIdles(d: Desk, id: nat, s: Session, scripts: seq<seq<Fetch>>, faults: SessionFaults,
                                     count: nat, i: nat, clean: bool)
    requires Shape(d, id, count) && i <= count && Fits(scripts, faults, count, 0) && !faults.exhaustion
    ensures var sweep := Loop(d, id, s, scripts, faults, count, i, 0, clean);
      && sweep.Swept? && id in sweep.desk.working.runs
      && sweep.desk.working.runs[id].requestsUsed == d.working.runs[id].requestsUsed
      && sweep.desk.working.runs[id].requestBudget == d.working.runs[id].requestBudget
    decreases count - i
  {
    if i < count && Skipped(d.working.runs[id].targets[i], s) {
      LoopIdles(d, id, s, scripts, faults, count, i + 1, clean);
    }
  }

  const SOME_PRICE := RepairTables.Ohlcv(0, 0, 0, 0, 0, None)

  /** A provider that always has another page, of a day after the range. */
  function EndlessPage(s: Session, n: nat): Fetch {
    Page([Payload(Larger(s.start, s.end) + 1 + n, SOME_PRICE)], 0, true, Some(n))
  }

  function Endless(s: Session, count: nat): seq<Fetch> { seq(count, n requires 0 <= n < count => EndlessPage(s, n)) }

  /** The generator after `n` pages of that provider. */
  ghost predicate Dragging(s: Session, st: State) {
    var n := st.summary.requestCount;
    && (forall key :: key in st.seenKeys ==> key + 1 < n)
    && (forall d :: d in st.seenDates ==> d <= Larger(s.start, s.end) + n)
    && st.phase == if n == 0 then AtLoop else AfterYield(Larger(s.start, s.end) + n, true, Some(n - 1))
  }

  lemma EndlessStep(s: Session, req: HistoryRequest, script: seq<Fetch>, st: State)
    requires req == Request(s, req.budget) && |script| >= req.budget && st.summary.requestCount < req.budget
    requires Dragging(s, st) && script[st.summary.requestCount] == EndlessPage(s, st.summary.requestCount)
    ensures var (next, out) := Advance(req, script, st);
      && out.Yielded? && out.page.rows == [] && Dragging(s, next)
      && next.summary.requestCount == st.summary.requestCount + 1
  {
    var n := st.summary.requestCount;
    var r, row := Resume(req, st), Payload(Larger(s.start, s.end) + 1 + n, SOME_PRICE);
    assert r.phase.AtLoop? && r.summary == st.summary && r.seenDates == st.seenDates;
    assert [row][..0] == [];
    assert Absorb(req, r.seenDates, [row][..0]) == Absorbed(r.seenDates, [], 0, 0, 0);
    assert Absorb(req, r.seenDates, [row]) == Absorbed(r.seenDates + {row.tradeDate}, [], 0, 0, 0);
  }

  /** Collecting from it spends whatever is left, and commits nothing. */
  lemma {:induction false} EndlessSpends(d: Desk, id: nat, i: nat, symbol: nat, s: Session, req: HistoryRequest,
                                         script: seq<Fetch>, st: State, left: nat)
    requires |script| >= req.budget && Ready(d, id, i, symbol) && Dragging(s, st)
    requires req == Request(s, req.budget) && left + st.summary.requestCount == req.budget
    requires forall n :: 0 <= n < req.budget ==> script[n] == EndlessPage(s, n)
    ensures var trip := Pages(d, id, i, symbol, req, script, st, map[], left, s.now);
      && trip.ending == Stopping && trip.left == 0 && trip.end.summary.terminal == Some(RequestBudgetExhausted)
      && trip.desk.working.runs[id].requestsUsed == d.working.runs[id].requestsUsed + left
      && trip.desk.working.runs[id].requestBudget == d.working.runs[id].requestBudget
    decreases left
  {
    hide Advance, Dragging, Ready, SavePage;
    ReadyStays(d, id, i, symbol);
    if left == 0 {
      EndlessStops(s, req, script, st);
      ReadyRun(d, id, i, symbol);
    } else {
      EndlessStep(s, req, script, st);
      var next := Advance(req, script, st).0;
      EndlessSpends(Record(d, id, 1, left), id, i, symbol, s, req, script, next, left - 1);
    }
  }

  lemma EndlessStops(s: Session, req: HistoryRequest, script: seq<Fetch>, st: State)
    requires req == Request(s, req.budget) && |script| >= req.budget && st.summary.requestCount == req.budget
    requires Dragging(s, st)
    ensures var (next, out) := Advance(req, script, st);
      && out.Stopped? && next.summary.terminal == Some(RequestBudgetExhausted)
      && next.summary.requestCount == st.summary.requestCount
  {
    assert Resume(req, st).phase.AtLoop?;
  }

  lemma EndlessAttempt(d: Desk, id: nat, i: nat, s: Session, script: seq<Fetch>, left: nat)
    requires |script| >= left && HasTarget(d.working, id, i) && Shape(d, id, |d.working.runs[id].targets|)
    requires Collectable(d.working.runs[id].targets[i], s)
    requires forall n :: 0 <= n < left ==> script[n] == EndlessPage(s, n)
    ensures var a := Attempt(d, id, i, s, script, SMOOTH, left);
      && !a.raised && a.left == 0 && id in a.desk.working.runs
      && a.desk.working.runs[id].requestsUsed == d.working.runs[id].requestsUsed + left
      && a.desk.working.runs[id].requestBudget == d.working.runs[id].requestBudget
  {
    var symbol := d.working.runs[id].targets[i].symbolId.value;
    EndlessSpends(d, id, i, symbol, s, Request(s, left), script, FRESH, left);
    hide Pages;
  }

  /** Every script is endless. */
  function EndlessScripts(s: Session, count: nat, budget: nat): (scripts: seq<seq<Fetch>>)
    ensures |scripts| == count && forall k :: 0 <= k < count ==> scripts[k] == Endless(s, budget)
  {
    seq(count, k requires 0 <= k < count => Endless(s, budget))
  }

  /** The targets before the k-th raise. */
  function FailingBefore(count: nat, k: nat): (faults: SessionFaults)
    ensures |faults.targets| == count && !faults.opening && !faults.exhaustion && !faults.finish
    ensures forall j :: 0 <= j < count ==> faults.targets[j] == if j < k then FAILING else SMOOTH
  {
    SessionFaults(false, seq(count, j requires 0 <= j < count => if j < k then FAILING else SMOOTH), false, false)
  }

  function Dragged(db: Db, id: nat, p: Plan, additional: nat, s: Session, k: nat): Result {
    var r := Authorized(db, id, p, additional);
    Execute(db, id, p, additional, s, EndlessScripts(s, |r.targets|, r.requestBudget), FailingBefore(|r.targets|, k))
  }

  /** The session on endless scripts in which the targets before the k-th raise ends
      well, and its last commit has this usage and budget. */
  predicate EndsWith(db: Db, id: nat, p: Plan, additional: nat, s: Session, k: nat, used: nat, budget: nat) {
    var result := Dragged(db, id, p, additional, s, k);
    && result.outcome == Ok && result.desk.committed in result.desk.log && id in result.desk.committed.runs
    && result.desk.committed.runs[id].requestsUsed == used && result.desk.committed.runs[id].requestBudget == budget
  }

  /** A run overspent even with its extension is committed as it is. */
  lemma OverspentStays(db: Db, id: nat, p: Plan, additional: nat, s: Session)
    requires Refusal(db, id, p, additional).None?
    requires var terms := TermsOf(db, id, p, additional); terms.used > terms.limit
    ensures var terms := TermsOf(db, id, p, additional);
      EndsWith(db, id, p, additional, s, 0, terms.used, terms.limit)
  {
    var d, r := Open(db, id, p, additional), Authorized(db, id, p, additional);
    var scripts, faults := EndlessScripts(s, |r.targets|, r.requestBudget), FailingBefore(|r.targets|, 0);
    OpenMidway(db, id, p, additional);
    if !p.dryRun {
      LoopIdles(d, id, s, scripts, faults, |r.targets|, 0, true);
      CloseUses(Loop(d, id, s, scripts, faults, |r.targets|, 0, 0, true).desk, id);
    }
    hide Loop, CloseRun, NewRun, Midway;
  }

  /** A run overspent before the extension: once any target raises, the extension is
      lost and the overspent run committed again. */
  lemma RelapseCommits(db: Db, id: nat, p: Plan, additional: nat, s: Session, j: nat)
    requires Refusal(db, id, p, additional).None? && additional > 0
    requires j < |db.runs[id].targets| && !Skipped(db.runs[id].targets[j], s)
    requires var terms := TermsOf(db, id, p, additional); terms.budget < terms.used < terms.limit
    ensures var terms := TermsOf(db, id, p, additional);
      EndsWith(db, id, p, additional, s, |db.runs[id].targets|, terms.used, terms.budget)
  {
    var d, r, terms := Open(db, id, p, additional), Authorized(db, id, p, additional), TermsOf(db, id, p, additional);
    var count := |r.targets|;
    var scripts, faults := EndlessScripts(s, count, r.requestBudget), FailingBefore(count, count);
    OpenMidway(db, id, p, additional);
    var e, smooth := RaiseThrough(d, id, s, scripts, faults, 0, count, Unspent(r), true, r.targets, terms);
    CloseUses(e, id);
    hide CloseRun, NewRun, Midway;
  }

  /** One target raises before any commit and a later one is collected: it spends the
      extension although the run has lost it. */
  lemma LostExtensionOverspends(db: Db, id: nat, p: Plan, additional: nat, s: Session, j: nat, k: nat)
    requires Refusal(db, id, p, additional).None? && additional > 0 && j < k < |db.runs[id].targets|
    requires !Skipped(db.runs[id].targets[j], s) && !Skipped(db.runs[id].targets[k], s)
    requires Collectable(db.runs[id].targets[k], s) && db.runs[id].requestsUsed <= db.runs[id].requestBudget
    ensures var terms := TermsOf(db, id, p, additional);
      EndsWith(db, id, p, additional, s, k, terms.limit, terms.budget)
  {
    hide Attempt;
    var d, r, terms := Open(db, id, p, additional), Authorized(db, id, p, additional), TermsOf(db, id, p, additional);
    var count, left := |r.targets|, Unspent(r);
    var scripts, faults := EndlessScripts(s, count, r.requestBudget), FailingBefore(count, k);
    OpenMidway(db, id, p, additional);
    var e, smooth := RaiseThrough(d, id, s, scripts, faults, 0, k, left, true, r.targets, terms);
    var a := Attempt(e, id, k, s, scripts[k], SMOOTH, left);
    EndlessAttempt(e, id, k, s, scripts[k], left);
    LoopIdles(a.desk, id, s, scripts, faults, count, k + 1, smooth);
    var sweep := Loop(a.desk, id, s, scripts, faults, count, k + 1, 0, smooth);
    assert Loop(e, id, s, scripts, faults, count, k, left, smooth) == sweep;
    CloseUses(sweep.desk, id);
    hide CloseRun, NewRun, Midway, Loop;
  }

  lemma OverspentIsNotWithin(db: Db, id: nat, p: Plan, additional: nat, s: Session, k: nat, used: nat, budget: nat)
    requires EndsWith(db, id, p, additional, s, k, used, budget) && used > budget
    ensures !NeverOverspends(db, id, p, additional, s)
  {
    var r := Authorized(db, id, p, additional);
    var scripts, faults := EndlessScripts(s, |r.targets|, r.requestBudget), FailingBefore(|r.targets|, k);
    assert Fits(scripts, faults, |r.targets|, r.requestBudget);
    assert Dragged(db, id, p, additional, s, k) == Execute(db, id, p, additional, s, scripts, faults);
    hide Execute, EndlessScripts, FailingBefore, Authorized;
  }

  /** Whatever the provider does and whatever raises, every commit of the session keeps
      the run's usage within its budget. */
  ghost predicate NeverOverspends(db: Db, id: nat, p: Plan, additional: nat, s: Session) {
    var r := Authorized(db, id, p, additional);
    forall scripts, faults :: Fits(scripts, faults, |r.targets|, r.requestBudget) ==>
      Within(Execute(db, id, p, additional, s, scripts, faults).desk.log, id)
  }

  /** Exactly the safe sessions never overspend. */
  lemma BudgetHoldsIff(db: Db, id: nat, p: Plan, additional: nat, s: Session)
    requires Refusal(db, id, p, additional).None?
    ensures NeverOverspends(db, id, p, additional, s)
       <==> BudgetSafe(Starting(db, id, p).targets, s, TermsOf(db, id, p, additional))
  {
    var targets, terms := Starting(db, id, p).targets, TermsOf(db, id, p, additional);
    var r := Authorized(db, id, p, additional);
    if BudgetSafe(targets, s, terms) {
      forall scripts, faults | Fits(scripts, faults, |r.targets|, r.requestBudget)
        ensures Within(Execute(db, id, p, additional, s, scripts, faults).desk.log, id)
      {
        SafeSession(db, id, p, additional, s, scripts, faults);
      }
    } else if terms.used > terms.limit {
      OverspentStays(db, id, p, additional, s);
      OverspentIsNotWithin(db, id, p, additional, s, 0, terms.used, terms.limit);
    } else if terms.used > terms.budget {
      var j :| 0 <= j < |targets| && !Skipped(targets[j], s);
      RelapseCommits(db, id, p, additional, s, j);
      OverspentIsNotWithin(db, id, p, additional, s, |targets|, terms.used, terms.budget);
    } else {
      var j, k :| 0 <= j < k < |targets| && !Skipped(targets[j], s) && !Skipped(targets[k], s)
          && Collectable(targets[k], s);
      LostExtensionOverspends(db, id, p, additional, s, j, k);
      OverspentIsNotWithin(db, id, p, additional, s, k, terms.limit, terms.budget);
    }
    hide Execute, NewRun, EndsWith;
  }

  /** A plan of this many pending targets, resolved to one symbol each. */
  function ExamplePlan(count: nat): Plan {
    Plan(0, 10, 1, 0, 0, 5, seq(count, k requires 0 <= k < count => Target(k, Some(k), Some(k), 0, [3])), false)
  }

  /** Its run, with all 5 requests spent. */
  function SpentRun(count: nat): Run { NewRun(ExamplePlan(count)).(requestsUsed := 5) }

  const EXAMPLE_SESSION := Session(0, 10, {Pending, Running}, 0)

  lemma ExampleStart(count: nat)
    ensures var db, p := Db(map[7 := SpentRun(count)], map[], []), ExamplePlan(count);
      && Refusal(db, 7, p, 3).None? && TermsOf(db, 7, p, 3) == Terms(5, 5, 8)
      && Starting(db, 7, p).targets == SpentRun(count).targets && |SpentRun(count).targets| == count
      && forall k :: 0 <= k < count ==>
           !Skipped(SpentRun(count).targets[k], EXAMPLE_SESSION)
           && Collectable(SpentRun(count).targets[k], EXAMPLE_SESSION)
  {
    hide SortBy;
  }

  /** With 3 more requests two targets can bring it to 8 requests on a budget of 5. */
  lemma TwoTargetsOverspend()
    ensures var db := Db(map[7 := SpentRun(2)], map[], []);
      && EndsWith(db, 7, ExamplePlan(2), 3, EXAMPLE_SESSION, 1, 8, 5)
      && !NeverOverspends(db, 7, ExamplePlan(2), 3, EXAMPLE_SESSION)
  {
    hide EndsWith, NeverOverspends, SpentRun, ExamplePlan;
    var db := Db(map[7 := SpentRun(2)], map[], []);
    ExampleStart(2);
    LostExtensionOverspends(db, 7, ExamplePlan(2), 3, EXAMPLE_SESSION, 0, 1);
    OverspentIsNotWithin(db, 7, ExamplePlan(2), 3, EXAMPLE_SESSION, 1, 8, 5);
  }

  /** One target cannot. */
  lemma OneTargetKeepsBudget()
    ensures NeverOverspends(Db(map[7 := SpentRun(1)], map[], []), 7, ExamplePlan(1), 3, EXAMPLE_SESSION)
  {
    hide NeverOverspends, SpentRun, ExamplePlan;
    ExampleStart(1);
    BudgetHoldsIff(Db(map[7 := SpentRun(1)], map[], []), 7, ExamplePlan(1), 3, EXAMPLE_SESSION);
  }
}
