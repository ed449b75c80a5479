/** The request budget over a whole backfill session.  A budget extension is pending
    until the first commit, so a rollback before it takes the extension away from
    the run but not from what the session may still spend. */
module BackfillBudget {
  import opened Common
  import opened Sorting
  import opened PriceTable
  import opened HistoryCollector
  import opened BackfillPlan
  import opened BackfillState
  import opened BackfillSession
  import opened BackfillCourse

  function Larger(a: nat, b: nat): nat { if a > b then a else b }

  /** Every commit of the log keeps the run's usage within its budget. */
  ghost predicate Within(log: seq<Db>, id: nat) {
    forall e :: e in log && id in e.runs ==> e.runs[id].requestsUsed <= e.runs[id].requestBudget
  }

  lemma WithinNext(log: seq<Db>, id: nat, db: Db)
    requires Within(log, id) && (id in db.runs ==> db.runs[id].requestsUsed <= db.runs[id].requestBudget)
    ensures Within(log + [db], id)
  {
  }

  /** The run's budget and usage before the session, and its budget as extended. */
  datatype Terms = Terms(budget: nat, used: nat, limit: nat) {
    function Total(): nat { Larger(used, limit) }
  }

  // ---- what a session may spend ----------------------------------------

  /** The run has either budget, as stored and as worked on, and its usage and what is
      left never exceed the total together. */
  ghost predicate Authorizes(d: Desk, id: nat, left: nat, terms: Terms) {
    && id in d.working.runs && Permitted(d.working.runs[id], left, terms)
    && (id in d.committed.runs ==> Permitted(d.committed.runs[id], left, terms))
  }

  predicate Permitted(r: Run, left: nat, terms: Terms) {
    r.requestBudget in {terms.budget, terms.limit} && r.requestsUsed + left <= terms.Total()
  }

  /** Nothing has been lost so far: what was authorized is either used or left. */
  ghost predicate Exact(d: Desk, id: nat, left: nat, terms: Terms) {
    && id in d.working.runs && d.working.runs[id].requestBudget == terms.limit
    && d.working.runs[id].requestsUsed + left == terms.Total()
  }

  /** Every commit is within its budget and the run has the extended one; the stored
      run does, or is still as it was before the session. */
  ghost predicate Unlost(d: Desk, id: nat, terms: Terms) {
    && terms.used <= terms.limit && Within(d.log, id)
    && id in d.working.runs && d.working.runs[id].requestBudget == terms.limit
    && (id in d.committed.runs && d.committed.runs[id].requestBudget != terms.limit ==>
          d.committed.runs[id].requestBudget == terms.budget && d.committed.runs[id].requestsUsed == terms.used)
  }

  /** What holds of one desk holds of the next. */
  ghost predicate Carries(d: Desk, left: nat, e: Desk, rest: nat, id: nat, terms: Terms) {
    && Authorizes(e, id, rest, terms)
    && (Exact(d, id, left, terms) ==> Exact(e, id, rest, terms))
    && (Unlost(d, id, terms) ==> Unlost(e, id, terms))
  }

  lemma RecordCarries(d: Desk, id: nat, counted: nat, left: nat, terms: Terms)
    requires Authorizes(d, id, left, terms)
    ensures Carries(d, left, Record(d, id, counted, left), left - Delta(counted, left), id, terms)
  {
  }

  /** A step that leaves usage and budget of the run alone. */
  ghost predicate SameUse(d: Desk, e: Desk, id: nat) {
    && id in d.working.runs && id in e.working.runs && e.committed == d.committed && e.log == d.log
    && e.working.runs[id].requestsUsed == d.working.runs[id].requestsUsed
    && e.working.runs[id].requestBudget == d.working.runs[id].requestBudget
  }

  lemma SavePageUses(d: Desk, id: nat, i: nat, symbol: nat, rows: seq<Payload>, now: Instant)
    requires Ready(d, id, i, symbol)
    ensures SameUse(d, SavePage(d, id, i, symbol, rows, now), id)
  {
    hide SaveAll;
  }

  lemma SameUseCarries(d: Desk, e: Desk, id: nat, left: nat, terms: Terms)
    requires Authorizes(d, id, left, terms) && SameUse(d, e, id)
    ensures Carries(d, left, e, left, id, terms)
  {
  }

  lemma CommitCarries(d: Desk, id: nat, left: nat, terms: Terms)
    requires Authorizes(d, id, left, terms)
    ensures Carries(d, left, Commit(d), left, id, terms)
  {
    if Unlost(d, id, terms) {
      WithinNext(d.log, id, d.working);
    }
    hide Within;
  }

  lemma {:induction false} PagesCarry(d: Desk, id: nat, i: nat, symbol: nat, req: HistoryRequest, script: seq<Fetch>,
                                      st: State, faults: map<nat, Fault>, left: nat, now: Instant, terms: Terms)
    requires |script| >= req.budget && Ready(d, id, i, symbol) && Authorizes(d, id, left, terms)
    ensures var trip := Pages(d, id, i, symbol, req, script, st, faults, left, now);
      Carries(d, left, trip.desk, trip.left, id, terms)
    decreases req.budget - st.summary.requestCount
  {
    hide Advance, Record, SavePage, Ready, Authorizes, Exact, Unlost, Commit, SameUse;
    YieldCounts(req, script, st);
    ReadyStays(d, id, i, symbol);
    var (next, out) := Advance(req, script, st);
    var counted := next.summary.requestCount - st.summary.requestCount;
    RecordCarries(d, id, counted, left, terms);
    var e, rest := Record(d, id, counted, left), left - Delta(counted, left);
    if out.Yielded? {
      ReadyStays(e, id, i, symbol);
      var rows := Filter(out.page.rows, Wanted(d.working.runs[id].targets[i].expected));
      if rows == [] {
        PagesCarry(e, id, i, symbol, req, script, next, faults, rest, now, terms);
      } else {
        var saved := SavePage(e, id, i, symbol, rows, now);
        ReadyStays(saved, id, i, symbol);
        SavePageUses(e, id, i, symbol, rows, now);
        SameUseCarries(e, saved, id, rest, terms);
        CommitCarries(saved, id, rest, terms);
        if FaultAt(faults, out.page.number).NoFault? {
          PagesCarry(Commit(saved), id, i, symbol, req, script, next, faults, rest, now, terms);
        }
      }
    }
  }

  lemma SettleCarries(d: Desk, marked: Desk, fault: Fault, id: nat, left: nat, terms: Terms)
    requires Authorizes(d, id, left, terms) && SameUse(d, marked, id)
    ensures Settle(d, marked, fault, left).left == left
    ensures Carries(d, left, Settle(d, marked, fault, left).desk, left, id, terms)
  {
    hide Authorizes, Exact, Unlost, SameUse, Commit;
    SameUseCarries(d, marked, id, left, terms);
    CommitCarries(marked, id, left, terms);
  }

  lemma ConcludeCarries(d: Desk, id: nat, i: nat, terminal: Option<Terminal>, fault: Fault, left: nat, terms: Terms)
    requires HasTarget(d.working, id, i) && Shape(d, id, |d.working.runs[id].targets|)
    requires Authorizes(d, id, left, terms)
    ensures Carries(d, left, Conclude(d, id, i, terminal, fault, left).desk, left, id, terms)
  {
    hide Authorizes, Exact, Unlost, Settle;
    if Concludes(terminal) {
      var marked := OnTarget(d, id, i, Concluding(d.working.runs[id].targets[i], terminal))
                    .(report := ConcludingReport(d.report, terminal));
      SettleCarries(d, marked, fault, id, left, terms);
    }
  }

  lemma AttemptCarries(d: Desk, id: nat, i: nat, s: Session, script: seq<Fetch>, faults: Faults, left: nat,
                       terms: Terms)
    requires |script| >= left && HasTarget(d.working, id, i) && Shape(d, id, |d.working.runs[id].targets|)
    requires Authorizes(d, id, left, terms)
    ensures var a := Attempt(d, id, i, s, script, faults, left); Carries(d, left, a.desk, a.left, id, terms)
  {
    hide Authorizes, Exact, Unlost, Settle, Pages, Conclude;
    var t := d.working.runs[id].targets[i];
    if Unresolved(t) {
      var marked := OnTarget(d, id, i, Rejected(t, UnresolvedIdentity))
                    .(report := d.report.(failed := d.report.failed + 1));
      SettleCarries(d, marked, faults.conclusion, id, left, terms);
    } else if !NoIterator(s, faults) {
      var req := Request(s, left);
      var trip := Pages(d, id, i, t.symbolId.value, req, script, FRESH, faults.pages, left, s.now);
      PagesCarry(d, id, i, t.symbolId.value, req, script, FRESH, faults.pages, left, s.now, terms);
      ConcludeCarries(trip.desk, id, i, trip.end.summary.terminal, faults.conclusion, trip.left, terms);
    }
  }

  lemma RollbackAuthorized(d: Desk, id: nat, i: nat, left: nat, terms: Terms)
    requires Authorizes(d, id, left, terms) && HasTarget(d.committed, id, i)
    ensures Authorizes(Commit(Failing(Rollback(d), id, i)), id, left, terms)
  {
  }

  lemma {:induction false} LoopAuthorized(d: Desk, id: nat, s: Session, scripts: seq<seq<Fetch>>, faults: SessionFaults,
                                          count: nat, i: nat, left: nat, clean: bool, terms: Terms)
    requires Shape(d, id, count) && i <= count && Fits(scripts, faults, count, left)
    requires Authorizes(d, id, left, terms) && (clean ==> Exact(d, id, left, terms))
    ensures var sweep := Loop(d, id, s, scripts, faults, count, i, left, clean);
      sweep.Swept? ==>
        Authorizes(sweep.desk, id, sweep.left, terms) && (sweep.clean ==> Exact(sweep.desk, id, sweep.left, terms))
    decreases count - i
  {
    hide Authorizes, Exact, Unlost, Attempt;
    if i < count {
      if Skipped(d.working.runs[id].targets[i], s) {
        LoopAuthorized(d, id, s, scripts, faults, count, i + 1, left, clean, terms);
      } else if left < 1 {
        SameUseCarries(d, Waiting(d, id, i, s), id, left, terms);
        CommitCarries(Waiting(d, id, i, s), id, left, terms);
      } else {
        var a := Attempt(d, id, i, s, scripts[i], faults.targets[i], left);
        AttemptCarries(d, id, i, s, scripts[i], faults.targets[i], left, terms);
        if !a.raised {
          LoopAuthorized(a.desk, id, s, scripts, faults, count, i + 1, a.left, clean, terms);
        } else if id in a.desk.committed.runs && !faults.targets[i].handler {
          RollbackAuthorized(a.desk, id, i, a.left, terms);
          var e := Commit(Failing(Rollback(a.desk), id, i));
          LoopAuthorized(e, id, s, scripts, faults, count, i + 1, a.left, false, terms);
        }
      }
    }
  }

  function TermsOf(db: Db, id: nat, p: Plan, additional: nat): Terms {
    var start := Starting(db, id, p);
    Terms(start.requestBudget, start.requestsUsed, start.requestBudget + additional)
  }

  lemma OpenAuthorized(db: Db, id: nat, p: Plan, additional: nat)
    requires Refusal(db, id, p, additional).None?
    ensures var d, terms, left := Open(db, id, p, additional), TermsOf(db, id, p, additional),
                                  Unspent(Authorized(db, id, p, additional));
      && Authorizes(d, id, left, terms) && Exact(d, id, left, terms)
      && (terms.used <= terms.limit ==> Unlost(d, id, terms))
  {
    hide NewRun;
    assert id !in db.runs ==> additional == 0;
  }

  lemma CloseUses(d: Desk, id: nat)
    requires id in d.working.runs
    ensures var e := CloseRun(d, id);
      && e.log == d.log + [e.working] && id in e.working.runs && e.committed == e.working
      && e.working.runs[id].requestsUsed == d.working.runs[id].requestsUsed
      && e.working.runs[id].requestBudget == d.working.runs[id].requestBudget
  {
    hide Filter;
  }

  /** Whatever raises, a session spends no more than was authorized, also on a run
      overspent before; while nothing raises, used and left add up to it exactly. */
  lemma SpendingIsAuthorized(db: Db, id: nat, p: Plan, additional: nat, s: Session, scripts: seq<seq<Fetch>>,
                             faults: SessionFaults)
    requires var r := Authorized(db, id, p, additional); Fits(scripts, faults, |r.targets|, r.requestBudget)
    ensures var start, authorized := Starting(db, id, p), Authorized(db, id, p, additional);
      var total, result := Larger(start.requestsUsed, authorized.requestBudget),
                           Execute(db, id, p, additional, s, scripts, faults);
      result.outcome == Ok ==>
        && id in result.desk.committed.runs
        && var r := result.desk.committed.runs[id];
        && r.requestsUsed + result.left <= total && r.requestBudget in {start.requestBudget, authorized.requestBudget}
        && (result.clean ==> r.requestsUsed + result.left == total && r.requestBudget == authorized.requestBudget)
  {
    if Refusal(db, id, p, additional).None? {
      OpenAuthorized(db, id, p, additional);
      var d, r := Open(db, id, p, additional), Authorized(db, id, p, additional);
      LoopAuthorized(d, id, s, scripts, faults, |r.targets|, 0, Unspent(r), true, TermsOf(db, id, p, additional));
      var sweep := Loop(d, id, s, scripts, faults, |r.targets|, 0, Unspent(r), true);
      if sweep.Swept? {
        CloseUses(sweep.desk, id);
      }
      hide Loop, CloseRun, NewRun;
    }
  }

  // ---- when stored usage stays within the stored budget ----------------

  /** The targets from the i-th on can be processed without one raising before any
      commit and a later one spending what was rolled back. */
  ghost predicate Shielded(targets: seq<TargetState>, s: Session, i: nat, terms: Terms) {
    || terms.limit == terms.budget
    || if terms.used > terms.budget then forall k :: i <= k < |targets| ==> Skipped(targets[k], s)
       else forall j, k :: i <= j < k < |targets| && !Skipped(targets[j], s) && !Skipped(targets[k], s) ==>
                             !Collectable(targets[k], s)
  }

  /** The extension is gone, nothing has been spent, and nothing will be. */
  ghost predicate Relapsed(d: Desk, id: nat, terms: Terms) {
    && terms.used <= terms.budget && Within(d.log, id)
    && id in d.working.runs && id in d.committed.runs
    && d.working.runs[id].requestBudget == d.committed.runs[id].requestBudget == terms.budget
    && d.working.runs[id].requestsUsed == d.committed.runs[id].requestsUsed == terms.used
  }

  ghost predicate NoneCollectable(targets: seq<TargetState>, s: Session, i: nat) {
    forall k :: i <= k < |targets| && !Skipped(targets[k], s) ==> !Collectable(targets[k], s)
  }

  lemma FailingWithin(d: Desk, id: nat, i: nat, left: nat, terms: Terms)
    requires Authorizes(d, id, left, terms) && Unlost(d, id, terms) && HasTarget(d.committed, id, i)
    requires terms.limit == terms.budget || terms.used <= terms.budget
    ensures var e := Commit(Failing(Rollback(d), id, i));
      Unlost(e, id, terms) || (terms.limit != terms.budget && Relapsed(e, id, terms))
  {
    var e := Failing(Rollback(d), id, i);
    WithinNext(d.log, id, e.working);
    hide Within;
  }

  lemma RelapsedStays(d: Desk, id: nat, i: nat, s: Session, script: seq<Fetch>, faults: Faults, left: nat, terms: Terms)
    requires |script| >= left && HasTarget(d.working, id, i) && Shape(d, id, |d.working.runs[id].targets|)
    requires Relapsed(d, id, terms) && !Collectable(d.working.runs[id].targets[i], s)
    ensures var a := Attempt(d, id, i, s, script, faults, left);
      if a.raised then Within(a.desk.log, id) && HasTarget(a.desk.committed, id, i)
                       && Relapsed(Commit(Failing(Rollback(a.desk), id, i)), id, terms)
      else Relapsed(a.desk, id, terms)
  {
    var a := Attempt(d, id, i, s, script, faults, left);
    var e := if a.raised then Failing(Rollback(a.desk), id, i) else a.desk;
    WithinNext(d.log, id, e.working);
    hide Within;
  }

  ghost predicate Holding(d: Desk, id: nat, s: Session, targets: seq<TargetState>, i: nat, left: nat, terms: Terms) {
    || (Unlost(d, id, terms) && (left == 0 || Shielded(targets, s, i, terms)))
    || (Relapsed(d, id, terms) && NoneCollectable(targets, s, i))
  }

  lemma HoldingNext(d: Desk, id: nat, s: Session, script: seq<Fetch>, faults: Faults, targets: seq<TargetState>, i: nat,
                    left: nat, terms: Terms)
    requires Midway(d, id, i, targets) && i < |targets| && 1 <= left <= |script| && !Skipped(targets[i], s)
    requires Authorizes(d, id, left, terms) && Holding(d, id, s, targets, i, left, terms)
    ensures var a := Attempt(d, id, i, s, script, faults, left);
      && Within(a.desk.log, id)
      && (!a.raised ==> Holding(a.desk, id, s, targets, i + 1, a.left, terms))
      && (a.raised && HasTarget(a.desk.committed, id, i) ==>
            Holding(Commit(Failing(Rollback(a.desk), id, i)), id, s, targets, i + 1, a.left, terms))
  {
    hide Attempt, Authorizes, Within;
    var a := Attempt(d, id, i, s, script, faults, left);
    if Unlost(d, id, terms) && Shielded(targets, s, i, terms) {
      AttemptCarries(d, id, i, s, script, faults, left, terms);
      if a.raised && HasTarget(a.desk.committed, id, i) {
        FailingWithin(a.desk, id, i, a.left, terms);
      }
      hide Unlost, Relapsed;
    } else {
      RelapsedStays(d, id, i, s, script, faults, left, terms);
      hide Unlost, Relapsed;
    }
  }

  lemma {:induction false} LoopWithin(d: Desk, id: nat, s: Session, scripts: seq<seq<Fetch>>, faults: SessionFaults,
                                      i: nat, left: nat, clean: bool, targets: seq<TargetState>, terms: Terms)
    requires Midway(d, id, i, targets) && i <= |targets| && Fits(scripts, faults, |targets|, left)
    requires Authorizes(d, id, left, terms) && Holding(d, id, s, targets, i, left, terms)
    ensures var sweep := Loop(d, id, s, scripts, faults, |targets|, i, left, clean);
      Within(DeskOf(sweep).log, id) && (sweep.Swept? ==> Within([sweep.desk.working], id))
    decreases |targets| - i
  {
    hide Attempt, Authorizes, Holding, Within;
    HoldingWithin(d, id, s, targets, i, left, terms);
    if i < |targets| {
      if Skipped(targets[i], s) {
        HoldingSkips(d, id, s, targets, i, left, terms);
        LoopWithin(d, id, s, scripts, faults, i + 1, left, clean, targets, terms);
      } else if left < 1 {
        WaitingWithin(d, id, i, s, left, terms);
      } else {
        var a := Attempt(d, id, i, s, scripts[i], faults.targets[i], left);
        HoldingNext(d, id, s, scripts[i], faults.targets[i], targets, i, left, terms);
        AttemptCarries(d, id, i, s, scripts[i], faults.targets[i], left, terms);
        NextTarget(d, id, i, s, scripts[i], faults.targets[i], left, targets);
        hide Carries;
        if !a.raised {
          CarriesAuthorizes(d, left, a.desk, a.left, id, terms);
          LoopWithin(a.desk, id, s, scripts, faults, i + 1, a.left, clean, targets, terms);
        } else if id in a.desk.committed.runs && !faults.targets[i].handler {
          CarriesAuthorizes(d, left, a.desk, a.left, id, terms);
          RollbackAuthorized(a.desk, id, i, a.left, terms);
          LoopWithin(Commit(Failing(Rollback(a.desk), id, i)), id, s, scripts, faults, i + 1, a.left, false, targets,
                     terms);
        }
      }
    }
  }

  lemma CarriesAuthorizes(d: Desk, left: nat, e: Desk, rest: nat, id: nat, terms: Terms)
    requires Carries(d, left, e, rest, id, terms)
    ensures Authorizes(e, id, rest, terms)
  {
  }

  lemma HoldingWithin(d: Desk, id: nat, s: Session, targets: seq<TargetState>, i: nat, left: nat, terms: Terms)
    requires Authorizes(d, id, left, terms) && Holding(d, id, s, targets, i, left, terms)
    ensures Within(d.log, id) && Within([d.working], id)
  {
  }

  lemma HoldingSkips(d: Desk, id: nat, s: Session, targets: seq<TargetState>, i: nat, left: nat, terms: Terms)
    requires Holding(d, id, s, targets, i, left, terms)
    ensures Holding(d, id, s, targets, i + 1, left, terms)
  {
    hide Unlost, Relapsed;
  }

  lemma WaitingWithin(d: Desk, id: nat, i: nat, s: Session, left: nat, terms: Terms)
    requires HasTarget(d.working, id, i) && Within(d.log, id) && Within([d.working], id)
    ensures Within(Commit(Waiting(d, id, i, s)).log, id) && Within([Waiting(d, id, i, s).working], id)
  {
    assert d.working in [d.working];
    WithinNext(d.log, id, Waiting(d, id, i, s).working);
  }

  /** The sessions of a run that can never overspend it: it is not overspent already,
      and there is no extension, nothing to spend, or no way to lose the extension and
      then commit more than the old budget. */
  ghost predicate BudgetSafe(targets: seq<TargetState>, s: Session, terms: Terms) {
    terms.used <= terms.limit && (terms.used == terms.limit || Shielded(targets, s, 0, terms))
  }

  lemma SafeSession(db: Db, id: nat, p: Plan, additional: nat, s: Session, scripts: seq<seq<Fetch>>,
                    faults: SessionFaults)
    requires var r := Authorized(db, id, p, additional); Fits(scripts, faults, |r.targets|, r.requestBudget)
    requires Refusal(db, id, p, additional).None?
    requires BudgetSafe(Starting(db, id, p).targets, s, TermsOf(db, id, p, additional))
    ensures Within(Execute(db, id, p, additional, s, scripts, faults).desk.log, id)
  {
    var d, r, terms := Open(db, id, p, additional), Authorized(db, id, p, additional), TermsOf(db, id, p, additional);
    OpenAuthorized(db, id, p, additional);
    OpenMidway(db, id, p, additional);
    LoopWithin(d, id, s, scripts, faults, 0, Unspent(r), true, Starting(db, id, p).targets, terms);
    var sweep := Loop(d, id, s, scripts, faults, |r.targets|, 0, Unspent(r), true);
    if sweep.Swept? {
      CloseUses(sweep.desk, id);
      assert sweep.desk.working in [sweep.desk.working];
      WithinNext(sweep.desk.log, id, CloseRun(sweep.desk, id).working);
    }
    WithinNext([], id, OnRun(d, id, r.(status := DryRun)).working);
    hide Loop, CloseRun, NewRun, Midway, Authorizes;
  }
}
