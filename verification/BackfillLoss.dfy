/** Which new runs a session can lose, and which it must, whatever the provider
    answers and whatever raises. */
module BackfillLoss {
  import opened Common
  import opened Sorting
  import opened HistoryCollector
  import opened BackfillPlan
  import opened BackfillState
  import opened BackfillSession
  import opened BackfillCourse

  ghost predicate FitsSession(db: Db, id: nat, p: Plan, additional: nat, scripts: seq<seq<Fetch>>,
                              faults: SessionFaults)
  {
    var r := Authorized(db, id, p, additional);
    Fits(scripts, faults, |r.targets|, r.requestBudget)
  }

  ghost predicate CanBeLost(db: Db, id: nat, p: Plan, additional: nat, s: Session) {
    exists scripts, faults ::
      FitsSession(db, id, p, additional, scripts, faults)
      && Execute(db, id, p, additional, s, scripts, faults).outcome == RunLost
  }

  /** Lost by every session that gets past opening the run. */
  ghost predicate MustBeLost(db: Db, id: nat, p: Plan, additional: nat, s: Session) {
    forall scripts, faults ::
      FitsSession(db, id, p, additional, scripts, faults) && !faults.opening ==>
        Execute(db, id, p, additional, s, scripts, faults).outcome == RunLost
  }

  /** A session on a new run that has something to process and something to spend. */
  predicate Starts(db: Db, id: nat, p: Plan, additional: nat, s: Session) {
    && id !in db.runs && additional == 0 && !p.dryRun
    && p.targets != [] && Pending in s.statuses && p.requestBudget >= 1
  }

  // ---- two sessions ----------------------------------------------------

  /** Every request fails. */
  function FailedFetches(count: nat, budget: nat): (scripts: seq<seq<Fetch>>)
    ensures |scripts| == count
    ensures forall k :: 0 <= k < count ==>
              |scripts[k]| == budget && forall n :: 0 <= n < budget ==> scripts[k][n] == FetchFailed
  {
    seq(count, k requires 0 <= k < count => seq(budget, n requires 0 <= n < budget => FetchFailed))
  }

  /** Every target meets the same faults, and nothing else raises. */
  function Alike(count: nat, faults: Faults): (all: SessionFaults)
    ensures |all.targets| == count && forall k :: 0 <= k < count ==> all.targets[k] == faults
    ensures !all.opening && !all.exhaustion && !all.finish
  {
    SessionFaults(false, seq(count, k requires 0 <= k < count => faults), false, false)
  }

  lemma NewTargets(p: Plan, s: Session)
    ensures |NewRun(p).targets| == |p.targets|
    ensures forall k :: 0 <= k < |p.targets| ==>
              (Skipped(NewRun(p).targets[k], s) <==> Pending !in s.statuses)
              && NewRun(p).targets[k].providerCode == p.targets[k].providerCode
              && NewRun(p).targets[k].symbolId == p.targets[k].symbolId
  {
  }

  /** A failed fetch concludes a target without raising. */
  lemma FailedFetchLine(t: TargetState, s: Session, script: seq<Fetch>, left: nat)
    requires Collectable(t, s) && 1 <= left <= |script| && script[0] == FetchFailed
    ensures !CourseOf(t, s, script, SMOOTH, left).raised
  {
    assert Advance(Request(s, left), script, FRESH).1.Stopped?;
  }

  /** Targets of which none raises lose nothing. */
  lemma NothingLost(targets: seq<TargetState>, s: Session, scripts: seq<seq<Fetch>>, faults: SessionFaults, left: nat,
                    k: nat)
    requires k < |targets| && Fits(scripts, faults, |targets|, left)
    requires faults.targets[k] == SMOOTH && s.start <= s.end
    requires forall n :: 0 <= n < left ==> scripts[k][n] == FetchFailed
    ensures !Loses(targets, s, scripts, faults, left, k)
  {
    var l := LeftBefore(targets, s, scripts, faults, left, k);
    if l >= 1 && !Unresolved(targets[k]) {
      FailedFetchLine(targets[k], s, scripts[k], l);
    }
    hide CourseOf;
    if Unresolved(targets[k]) {
      UnresolvedCourse(targets[k], s, scripts[k], l);
    }
  }

  /** Marking an unresolved target stores the run, unless it raises. */
  lemma UnresolvedCourse(t: TargetState, s: Session, script: seq<Fetch>, left: nat)
    requires Unresolved(t) && |script| >= left
    ensures CourseOf(t, s, script, SMOOTH, left) == Course(left, false, true)
  {
  }

  lemma FailingLoses(targets: seq<TargetState>, s: Session, scripts: seq<seq<Fetch>>, faults: SessionFaults, left: nat)
    requires targets != [] && Fits(scripts, faults, |targets|, left) && left >= 1 && !Skipped(targets[0], s)
    requires faults.targets[0] == FAILING || (!Unresolved(targets[0]) && s.end < s.start)
    ensures Loses(targets, s, scripts, faults, left, 0)
  {
    hide LineOf;
  }

  // ---- which runs can be lost ------------------------------------------

  lemma WorkedMeans(p: Plan, s: Session, scripts: seq<seq<Fetch>>, faults: SessionFaults, left: nat, k: nat)
    requires k < |NewRun(p).targets| && Fits(scripts, faults, |NewRun(p).targets|, left)
    requires Loses(NewRun(p).targets, s, scripts, faults, left, k)
    ensures p.targets != [] && Pending in s.statuses && left >= 1
  {
    NewTargets(p, s);
    hide CourseOf, LeftBefore, NewRun;
  }

  /** A session can lose its run exactly when the run is new and it starts to process a target. */
  lemma CanBeLostIff(db: Db, id: nat, p: Plan, additional: nat, s: Session)
    ensures CanBeLost(db, id, p, additional, s) <==> Starts(db, id, p, additional, s)
  {
    hide NewRun, Execute, Loses, Traceless;
    var r := Authorized(db, id, p, additional);
    var left := Unspent(r);
    NewRunIs(p);
    NewTargets(p, s);
    if Starts(db, id, p, additional, s) {
      var scripts, faults := FailedFetches(|r.targets|, r.requestBudget), Alike(|r.targets|, FAILING);
      FailingLoses(r.targets, s, scripts, faults, left);
      RunLostIff(db, id, p, additional, s, scripts, faults);
      assert FitsSession(db, id, p, additional, scripts, faults);
    }
    if CanBeLost(db, id, p, additional, s) {
      var scripts, faults :|
        FitsSession(db, id, p, additional, scripts, faults)
        && Execute(db, id, p, additional, s, scripts, faults).outcome == RunLost;
      RunLostIff(db, id, p, additional, s, scripts, faults);
      var k :| 0 <= k < |r.targets| && Loses(r.targets, s, scripts, faults, left, k);
      WorkedMeans(p, s, scripts, faults, left, k);
    }
  }

  lemma NewRunIs(p: Plan)
    ensures NewRun(p).requestBudget == p.requestBudget && NewRun(p).requestsUsed == 0
  {
  }

  /** And it always loses it exactly when, besides, no iterator can be created for the
      range and the first target is resolved: an unresolved one is marked and committed. */
  lemma MustBeLostIff(db: Db, id: nat, p: Plan, additional: nat, s: Session)
    ensures MustBeLost(db, id, p, additional, s) <==>
              && Starts(db, id, p, additional, s) && s.end < s.start
              && p.targets[0].providerCode.Some? && p.targets[0].symbolId.Some?
  {
    hide NewRun, Execute, Loses, Traceless, CanBeLost;
    var r := Authorized(db, id, p, additional);
    var left, count := Unspent(r), |r.targets|;
    NewRunIs(p);
    NewTargets(p, s);
    if Starts(db, id, p, additional, s) && s.end < s.start && !Unresolved(r.targets[0]) {
      forall scripts, faults | FitsSession(db, id, p, additional, scripts, faults) && !faults.opening
        ensures Execute(db, id, p, additional, s, scripts, faults).outcome == RunLost
      {
        FailingLoses(r.targets, s, scripts, faults, left);
        RunLostIff(db, id, p, additional, s, scripts, faults);
      }
    } else {
      var scripts, faults := FailedFetches(count, r.requestBudget), Alike(count, SMOOTH);
      assert FitsSession(db, id, p, additional, scripts, faults);
      if Starts(db, id, p, additional, s) {
        SmoothIsKept(db, id, p, s);
      } else {
        assert FitsSession(db, id, p, additional, scripts, faults);
        CanBeLostIff(db, id, p, additional, s);
        NotLost(db, id, p, additional, s, scripts, faults);
      }
    }
  }

  lemma NotLost(db: Db, id: nat, p: Plan, additional: nat, s: Session, scripts: seq<seq<Fetch>>, faults: SessionFaults)
    requires FitsSession(db, id, p, additional, scripts, faults) && !CanBeLost(db, id, p, additional, s)
    ensures Execute(db, id, p, additional, s, scripts, faults).outcome != RunLost
  {
    hide Execute;
  }

  /** The session in which no database call raises and every fetch fails. */
  lemma SmoothIsKept(db: Db, id: nat, p: Plan, s: Session)
    requires Starts(db, id, p, 0, s) && (s.start <= s.end || Unresolved(NewRun(p).targets[0]))
    ensures var r := Authorized(db, id, p, 0);
      var scripts, faults := FailedFetches(|r.targets|, r.requestBudget), Alike(|r.targets|, SMOOTH);
      FitsSession(db, id, p, 0, scripts, faults)
      && Execute(db, id, p, 0, s, scripts, faults).outcome != RunLost
  {
    hide NewRun, Execute, Loses, Traceless;
    var r := Authorized(db, id, p, 0);
    var left, count := Unspent(r), |r.targets|;
    var scripts, faults := FailedFetches(count, r.requestBudget), Alike(count, SMOOTH);
    NewRunIs(p);
    NewTargets(p, s);
    RunLostIff(db, id, p, 0, s, scripts, faults);
    if s.start <= s.end {
      forall k | 0 <= k < count ensures !Loses(r.targets, s, scripts, faults, left, k) {
        NothingLost(r.targets, s, scripts, faults, left, k);
      }
    } else {
      FirstIsStored(r.targets, s, scripts, faults, left);
    }
  }

  lemma FirstIsStored(targets: seq<TargetState>, s: Session, scripts: seq<seq<Fetch>>, faults: SessionFaults, left: nat)
    requires targets != [] && Fits(scripts, faults, |targets|, left) && left >= 1
    requires !Skipped(targets[0], s) && Unresolved(targets[0]) && faults.targets[0] == SMOOTH
    ensures !Loses(targets, s, scripts, faults, left, 0) && !Traceless(targets, s, scripts, faults, left, 0)
  {
    UnresolvedCourse(targets[0], s, scripts[0], left);
    hide CourseOf;
  }
}
