/** Durable state of backfill runs, its invariant, what later states may change,
    and the single steps a run is made of. */
module BackfillState {
  import opened Common
  import opened Sorting
  import opened Ascent
  import opened PriceTable
  import opened BackfillPlan

  datatype TargetStatus = Pending | Running | Completed | Failed

  datatype FailureReason = UnresolvedIdentity | FetchFailure | Unsupported | WriteFailure

  datatype TargetState = TargetState(
    instrumentId: nat, symbolId: Option<nat>, providerCode: Option<nat>, market: nat,
    expected: seq<Date>, confirmed: seq<Date>, remaining: seq<Date>,
    attempts: nat, status: TargetStatus, failure: Option<FailureReason>)

  datatype RunStatus = Active | BudgetExhausted | DryRun | AllCompleted | CompletedPartial

  datatype Run = Run(
    manifest: Document, requestBudget: nat, requestsUsed: nat, status: RunStatus, targets: seq<TargetState>)

  datatype Db = Db(runs: map<nat, Run>, prices: Prices, observations: seq<Observation>)

  // ---- the invariant ---------------------------------------------------

  function Without(dates: seq<Date>, confirmed: seq<Date>): seq<Date> {
    Filter(dates, (d: Date) => d !in confirmed)
  }

  ghost predicate TargetValid(t: TargetState, prices: Prices) {
    && Ascending(t.expected) && Ascending(t.confirmed)
    && (forall d :: d in t.confirmed ==> d in t.expected)
    && t.remaining == Without(t.expected, t.confirmed)
    && (forall d :: d in t.confirmed ==> t.symbolId.Some? && (t.symbolId.value, d) in prices)
  }

  ghost predicate RunValid(r: Run, prices: Prices) {
    && SortedBy(r.manifest.targets, TargetKey)
    && forall i :: 0 <= i < |r.targets| ==> TargetValid(r.targets[i], prices)
  }

  ghost predicate Valid(db: Db) {
    forall id :: id in db.runs ==> RunValid(db.runs[id], db.prices)
  }

  lemma {:induction false} FilterAscending(xs: seq<nat>, p: nat -> bool)
    requires Ascending(xs)
    ensures Ascending(Filter(xs, p))
  {
    if xs != [] {
      FilterAscending(xs[1..], p);
      var rest := Filter(xs[1..], p);
      assert ([xs[0]] + rest)[1..] == rest && [] + rest == rest;
    }
  }

  lemma FilterSplitsMultiset(xs: seq<nat>, p: nat -> bool)
    ensures multiset(xs) == multiset(Filter(xs, p)) + multiset(Filter(xs, (x: nat) => !p(x)))
  {
    forall x ensures multiset(xs)[x] == multiset(Filter(xs, p))[x] + multiset(Filter(xs, (x: nat) => !p(x)))[x] {
      FilterMultiset(xs, p, x);
      FilterMultiset(xs, (x: nat) => !p(x), x);
    }
  }

  /** Confirmed and remaining dates partition the expected dates, in their order. */
  lemma DatesPartition(t: TargetState, prices: Prices)
    requires TargetValid(t, prices)
    ensures t.confirmed == Filter(t.expected, (d: Date) => d in t.confirmed)
    ensures t.remaining == Filter(t.expected, (d: Date) => d !in t.confirmed)
    ensures multiset(t.expected) == multiset(t.confirmed) + multiset(t.remaining)
    ensures forall d :: d in t.expected <==> d in t.confirmed || d in t.remaining
    ensures forall d :: d in t.confirmed ==> d !in t.remaining
  {
    var kept := (d: Date) => d in t.confirmed;
    FilterAscending(t.expected, kept);
    AscendingUnique(t.confirmed, Filter(t.expected, kept));
    FilterSplitsMultiset(t.expected, kept);
    FilterSame(t.expected, (d: Date) => !kept(d), (d: Date) => d !in t.confirmed);
  }

  // ---- what later states may change ------------------------------------

  ghost predicate TargetAdvances(a: TargetState, b: TargetState) {
    && a.instrumentId == b.instrumentId && a.symbolId == b.symbolId && a.providerCode == b.providerCode
    && a.market == b.market && a.expected == b.expected && a.attempts <= b.attempts
    && forall d :: d in a.confirmed ==> d in b.confirmed
  }

  ghost predicate RunAdvances(a: Run, b: Run) {
    && a.manifest == b.manifest
    && a.requestsUsed <= b.requestsUsed && a.requestBudget <= b.requestBudget
    && |a.targets| == |b.targets|
    && forall i :: 0 <= i < |a.targets| ==> TargetAdvances(a.targets[i], b.targets[i])
  }

  /** Frozen manifests, growing confirmations, usage and budgets, and canonical
      prices of which none is altered or lost. */
  ghost predicate Advances(a: Db, b: Db) {
    && Extends(a.prices, b.prices) && a.observations <= b.observations
    && forall id :: id in a.runs ==> id in b.runs && RunAdvances(a.runs[id], b.runs[id])
  }

  lemma AdvancesReflexive(a: Db)
    ensures Advances(a, a)
  {
  }

  lemma RunAdvancesTransitive(a: Run, b: Run, c: Run)
    requires RunAdvances(a, b) && RunAdvances(b, c)
    ensures RunAdvances(a, c)
  {
    forall i | 0 <= i < |a.targets| ensures TargetAdvances(a.targets[i], c.targets[i]) {
      assert TargetAdvances(a.targets[i], b.targets[i]) && TargetAdvances(b.targets[i], c.targets[i]);
    }
  }

  lemma AdvancesTransitive(a: Db, b: Db, c: Db)
    requires Advances(a, b) && Advances(b, c)
    ensures Advances(a, c)
  {
    forall id | id in a.runs ensures id in c.runs && RunAdvances(a.runs[id], c.runs[id]) {
      RunAdvancesTransitive(a.runs[id], b.runs[id], c.runs[id]);
    }
    hide RunAdvances;
  }

  // ---- creating and resuming -------------------------------------------

  function FreshTarget(t: Target): TargetState {
    TargetState(t.instrumentId, t.symbolId, t.providerCode, t.market, t.expectedDates, [], t.expectedDates, 0, Pending,
                None)
  }

  function FreshTargets(targets: seq<Target>): (r: seq<TargetState>)
    ensures |r| == |targets| && forall i :: 0 <= i < |r| ==> r[i] == FreshTarget(targets[i])
  {
    seq(|targets|, i requires 0 <= i < |targets| => FreshTarget(targets[i]))
  }

  function NewRun(p: Plan): Run {
    Run(Serialized(p), p.requestBudget, 0, Active, FreshTargets(p.targets))
  }

  datatype Opening = Refused | Resumed | Created

  function CreateOrResume(db: Db, id: nat, p: Plan): (Db, Opening) {
    if id in db.runs then
      if db.runs[id].manifest != Serialized(p) then (db, Refused) else (db, Resumed)
    else (db.(runs := db.runs[id := NewRun(p)]), Created)
  }

  /** Every target lists its days in order, as planning produces them. */
  ghost predicate PlanValid(p: Plan) {
    forall i :: 0 <= i < |p.targets| ==> Ascending(p.targets[i].expectedDates)
  }

  lemma NewRunValid(p: Plan, prices: Prices)
    requires PlanValid(p)
    ensures RunValid(NewRun(p), prices)
  {
    forall i | 0 <= i < |p.targets| ensures TargetValid(FreshTarget(p.targets[i]), prices) {
      FilterAll(p.targets[i].expectedDates, (d: Date) => d !in []);
    }
    hide TargetValid, FreshTarget;
  }

  lemma OpeningKeeps(db: Db, id: nat, p: Plan)
    requires Valid(db) && PlanValid(p)
    ensures Valid(CreateOrResume(db, id, p).0) && Advances(db, CreateOrResume(db, id, p).0)
    ensures CreateOrResume(db, id, p).1 == Created <==> id !in db.runs
    ensures CreateOrResume(db, id, p).1 == Refused <==> id in db.runs && db.runs[id].manifest != Serialized(p)
  {
    hide RunValid, RunAdvances, NewRun, Serialized;
    NewRunValid(p, db.prices);
    forall other | other in db.runs ensures RunAdvances(db.runs[other], db.runs[other]) {
      RunAdvancesReflexive(db.runs[other]);
    }
  }

  /** A plan is accepted on resume exactly when it agrees with the stored manifest in
      all that is not a target, and has the same targets but for the order in which
      the instruments are listed: those of one instrument come in the same order. */
  lemma ResumeIff(db: Db, id: nat, p: Plan)
    requires Valid(db) && id in db.runs
    ensures var m := db.runs[id].manifest;
      CreateOrResume(db, id, p) == (db, Resumed) <==>
        && Restored(m) == p.(targets := m.targets)
        && forall k :: Filter(p.targets, WithKey(TargetKey, k)) == Filter(m.targets, WithKey(TargetKey, k))
  {
    var m := db.runs[id].manifest;
    assert RunValid(db.runs[id], db.prices);
    forall k
      ensures Filter(SortBy(p.targets, TargetKey), WithKey(TargetKey, k)) == Filter(p.targets, WithKey(TargetKey, k))
    {
      SortStable(p.targets, TargetKey, k);
    }
    if forall k :: Filter(p.targets, WithKey(TargetKey, k)) == Filter(m.targets, WithKey(TargetKey, k)) {
      SortedSame(SortBy(p.targets, TargetKey), m.targets, TargetKey);
    }
  }

  /** So the plan restored from a run's stored manifest is always accepted, whatever
      the run and its budget have become since. */
  lemma RestoredPlanResumes(db: Db, id: nat)
    requires Valid(db) && id in db.runs
    ensures CreateOrResume(db, id, Restored(db.runs[id].manifest)) == (db, Resumed)
  {
    ResumeIff(db, id, Restored(db.runs[id].manifest));
  }

  // ---- steps on one run ------------------------------------------------

  function WithRun(db: Db, id: nat, r: Run): Db { db.(runs := db.runs[id := r]) }

  function WithTarget(r: Run, i: nat, t: TargetState): Run
    requires i < |r.targets|
  {
    r.(targets := r.targets[i := t])
  }

  function Used(r: Run, delta: nat): Run { r.(requestsUsed := r.requestsUsed + delta) }

  /** `mark_target_progress`. */
  function Progressed(t: TargetState, dates: seq<Date>): TargetState {
    var confirmed := SortedDistinct(t.confirmed + Filter(dates, (d: Date) => d in t.expected));
    var remaining := Without(t.expected, confirmed);
    t.(confirmed := confirmed, remaining := remaining, attempts := t.attempts + 1, failure := None,
       status := if remaining == [] then Completed else Running)
  }

  /** `mark_target_failure`. */
  function Rejected(t: TargetState, reason: FailureReason): TargetState {
    t.(attempts := t.attempts + 1, status := Failed, failure := Some(reason))
  }

  /** `mark_target_collection_complete`. */
  function Collected(t: TargetState): TargetState { t.(status := Completed) }

  lemma RunStepKeeps(db: Db, id: nat, r: Run)
    requires Valid(db) && id in db.runs && RunValid(r, db.prices) && RunAdvances(db.runs[id], r)
    ensures Valid(WithRun(db, id, r)) && Advances(db, WithRun(db, id, r))
  {
    hide RunValid, RunAdvances;
    forall other | other in db.runs && other != id ensures RunAdvances(db.runs[other], db.runs[other]) {
      RunAdvancesReflexive(db.runs[other]);
    }
  }

  lemma RunAdvancesReflexive(r: Run)
    ensures RunAdvances(r, r)
  {
  }

  lemma TargetStepKeeps(db: Db, id: nat, i: nat, t: TargetState)
    requires Valid(db) && id in db.runs && i < |db.runs[id].targets|
    requires TargetValid(t, db.prices) && TargetAdvances(db.runs[id].targets[i], t)
    ensures Valid(WithRun(db, id, WithTarget(db.runs[id], i, t)))
    ensures Advances(db, WithRun(db, id, WithTarget(db.runs[id], i, t)))
  {
    var r := WithTarget(db.runs[id], i, t);
    assert RunValid(db.runs[id], db.prices);
    assert RunValid(r, db.prices) && RunAdvances(db.runs[id], r) by { hide TargetValid; }
    RunStepKeeps(db, id, r);
    hide RunValid, RunAdvances, TargetValid;
  }

  lemma FailureKeeps(db: Db, id: nat, i: nat, reason: FailureReason)
    requires Valid(db) && id in db.runs && i < |db.runs[id].targets|
    ensures Valid(WithRun(db, id, WithTarget(db.runs[id], i, Rejected(db.runs[id].targets[i], reason))))
    ensures Advances(db, WithRun(db, id, WithTarget(db.runs[id], i, Rejected(db.runs[id].targets[i], reason))))
  {
    assert RunValid(db.runs[id], db.prices);
    assert TargetValid(db.runs[id].targets[i], db.prices);
    TargetStepKeeps(db, id, i, Rejected(db.runs[id].targets[i], reason));
  }

  lemma CollectedKeeps(db: Db, id: nat, i: nat)
    requires Valid(db) && id in db.runs && i < |db.runs[id].targets|
    ensures Valid(WithRun(db, id, WithTarget(db.runs[id], i, Collected(db.runs[id].targets[i]))))
    ensures Advances(db, WithRun(db, id, WithTarget(db.runs[id], i, Collected(db.runs[id].targets[i]))))
  {
    assert RunValid(db.runs[id], db.prices);
    assert TargetValid(db.runs[id].targets[i], db.prices);
    TargetStepKeeps(db, id, i, Collected(db.runs[id].targets[i]));
  }

  lemma UsageKeeps(db: Db, id: nat, delta: nat)
    requires Valid(db) && id in db.runs
    ensures Valid(WithRun(db, id, Used(db.runs[id], delta))) && Advances(db, WithRun(db, id, Used(db.runs[id], delta)))
  {
    assert RunValid(db.runs[id], db.prices);
    RunAdvancesReflexive(db.runs[id]);
    RunStepKeeps(db, id, Used(db.runs[id], delta));
  }

  lemma StatusKeeps(db: Db, id: nat, status: RunStatus)
    requires Valid(db) && id in db.runs
    ensures Valid(WithRun(db, id, db.runs[id].(status := status)))
    ensures Advances(db, WithRun(db, id, db.runs[id].(status := status)))
  {
    assert RunValid(db.runs[id], db.prices);
    RunAdvancesReflexive(db.runs[id]);
    RunStepKeeps(db, id, db.runs[id].(status := status));
  }

  lemma BudgetKeeps(db: Db, id: nat, more: nat)
    requires Valid(db) && id in db.runs
    ensures Valid(WithRun(db, id, db.runs[id].(requestBudget := db.runs[id].requestBudget + more)))
    ensures Advances(db, WithRun(db, id, db.runs[id].(requestBudget := db.runs[id].requestBudget + more)))
  {
    assert RunValid(db.runs[id], db.prices);
    RunAdvancesReflexive(db.runs[id]);
    RunStepKeeps(db, id, db.runs[id].(requestBudget := db.runs[id].requestBudget + more));
  }

  // ---- one page --------------------------------------------------------

  lemma ProgressValid(t: TargetState, dates: seq<Date>, prices: Prices)
    requires TargetValid(t, prices)
    requires t.symbolId.Some? && forall d :: d in dates ==> (t.symbolId.value, d) in prices
    ensures TargetValid(Progressed(t, dates), prices) && TargetAdvances(t, Progressed(t, dates))
    ensures forall d :: d in Progressed(t, dates).confirmed <==> d in t.confirmed || (d in dates && d in t.expected)
  {
    var fresh' := Filter(dates, (d: Date) => d in t.expected);
    assert forall d :: d in t.confirmed + fresh' <==> d in t.confirmed || d in fresh';
  }

  lemma PricesKeep(db: Db, prices: Prices, observations: seq<Observation>)
    requires Valid(db) && Extends(db.prices, prices) && db.observations <= observations
    ensures Valid(db.(prices := prices, observations := observations))
    ensures Advances(db, db.(prices := prices, observations := observations))
  {
    forall id | id in db.runs ensures RunValid(db.runs[id], prices) && RunAdvances(db.runs[id], db.runs[id]) {
      assert RunValid(db.runs[id], db.prices);
      RunAdvancesReflexive(db.runs[id]);
      forall i | 0 <= i < |db.runs[id].targets| ensures TargetValid(db.runs[id].targets[i], prices) {
        assert TargetValid(db.runs[id].targets[i], db.prices);
      }
    }
    hide RunValid, RunAdvances;
  }

  /** The database after one page: its prices saved, its days confirmed. */
  function PageSaved(db: Db, id: nat, i: nat, table: Prices, observations: seq<Observation>, confirmed: seq<Date>): Db
    requires id in db.runs && i < |db.runs[id].targets|
  {
    WithRun(db.(prices := table, observations := observations), id,
            WithTarget(db.runs[id], i, Progressed(db.runs[id].targets[i], confirmed)))
  }

  lemma PageKeeps(db: Db, id: nat, i: nat, symbol: nat, provider: nat, rows: seq<Payload>,
                  observations: seq<Observation>)
    requires Valid(db) && id in db.runs && i < |db.runs[id].targets| && db.runs[id].targets[i].symbolId == Some(symbol)
    requires db.observations <= observations
    ensures var saved := SaveAll(db.prices, symbol, provider, false, rows);
            var after := PageSaved(db, id, i, saved.table, observations, saved.report.confirmed);
      Valid(after) && Advances(db, after)
  {
    var saved := SaveAll(db.prices, symbol, provider, false, rows);
    HistoricalNeverAlters(db.prices, symbol, provider, rows);
    ConfirmedHaveRows(db.prices, symbol, provider, false, rows);
    var mid := db.(prices := saved.table, observations := observations);
    PricesKeep(db, saved.table, observations);
    assert RunValid(mid.runs[id], mid.prices);
    var t := mid.runs[id].targets[i];
    assert TargetValid(t, mid.prices);
    ProgressValid(t, saved.report.confirmed, mid.prices);
    TargetStepKeeps(mid, id, i, Progressed(t, saved.report.confirmed));
    AdvancesTransitive(db, mid, WithRun(mid, id, WithTarget(mid.runs[id], i, Progressed(t, saved.report.confirmed))));
    hide Valid, Advances, TargetValid, Progressed;
  }

  // ---- finishing -------------------------------------------------------

  predicate IsSettled(t: TargetState) { t.status == Completed || t.status == Failed }

  predicate IsCompleted(t: TargetState) { t.status == Completed }

  /** `_finalize_run_status`: a run ends once every target is collected or failed. */
  function Finalized(r: Run): Run {
    if r.targets != [] && forall t :: t in r.targets ==> IsSettled(t) then
      r.(status := if forall t :: t in r.targets ==> IsCompleted(t) then AllCompleted else CompletedPartial)
    else r
  }

  lemma FinalizeKeeps(db: Db, id: nat)
    requires Valid(db) && id in db.runs
    ensures Valid(WithRun(db, id, Finalized(db.runs[id]))) && Advances(db, WithRun(db, id, Finalized(db.runs[id])))
  {
    StatusKeeps(db, id, Finalized(db.runs[id]).status);
    assert db.runs[id].(status := Finalized(db.runs[id]).status) == Finalized(db.runs[id]);
  }
}
