/** The reconciler as it runs, and the end-to-end guarantee: what the queue
    accepts, the reconciler does not reject. */
module RepairApplication {
  import opened Common
  import opened Sorting
  import opened RepairTables
  import opened RepairProtocol
  import opened RepairQueue
  import opened PriceTable
  import opened RepairReconciler

  // ---- what acceptance vouches for -------------------------------------

  /** Everything the reconciler asks of a row except the change rate. */
  predicate VouchedRow(row: ResultRow, r: Request) {
    && row.symbol == r.key.symbol && row.adjusted == r.key.adjusted && AllowedSource(row.source)
    && (r.historyFrom.Some? ==> r.historyFrom.value <= row.tradeDate)
    && row.tradeDate <= r.key.tradeDate
    && ValidOhlcv(row.price)
  }

  ghost predicate VouchedRows(r: Request, a: Attempt, rows: seq<ResultRow>, maxRows: nat) {
    && rows != [] && |rows| <= maxRows
    && AttemptCovers(a, rows) && a.resultHash.Some?
    && DistinctDates(rows)
    && forall row :: row in rows ==> VouchedRow(row, r)
  }

  ghost predicate Vouched(t: Tables, id: nat, maxRows: nat)
    requires id < |t.requests|
  {
    var latest := LatestAttempt(t.attempts, id);
    latest.Some? && VouchedRows(t.requests[id], t.attempts[latest.value], RowsOf(t.results, id), maxRows)
  }

  ghost predicate AllVouched(t: Tables, maxRows: nat) {
    forall id :: 0 <= id < |t.requests| && t.requests[id].status == Completed ==> Vouched(t, id, maxRows)
  }

  lemma SettledKeepsLatest(t: Tables, u: Tables, id: nat)
    requires Valid(t) && Valid(u) && id < |t.requests| && t.requests[id].status == Completed && Settled(t, u, id)
    ensures LatestAttempt(t.attempts, id).Some? && LatestAttempt(u.attempts, id) == LatestAttempt(t.attempts, id)
    ensures u.attempts[LatestAttempt(t.attempts, id).value] == t.attempts[LatestAttempt(t.attempts, id).value]
  {
    LatestIsLast(t, id);
    LatestIsLast(u, id);
    SoleNumber(u, LatestAttempt(t.attempts, id).value, LatestAttempt(u.attempts, id).value);
  }

  lemma SettledKeepsVouched(t: Tables, u: Tables, id: nat, maxRows: nat)
    requires Valid(t) && Valid(u) && id < |t.requests| && t.requests[id].status == Completed && Settled(t, u, id)
    requires Vouched(t, id, maxRows)
    ensures Vouched(u, id, maxRows)
  {
    SettledKeepsLatest(t, u, id);
  }

  lemma SubmissionVouches(r: Request, s: Submission, maxRows: nat, done: Request, a: Attempt)
    requires ValidSubmission(r, s, maxRows)
    requires done.key == r.key && done.historyFrom == r.historyFrom
    requires a.status == Succeeded && a.rowCount == |s.rows| && a.dataComplete
    requires a.latestDate == Some(s.latestDate) && a.resultHash == Some(StableHash(s.rows))
    ensures VouchedRows(done, a, s.rows, maxRows)
  {
  }

  lemma CompletedState(t: Tables, s: Submission, at: Instant, k: nat)
    requires Valid(t)
    requires CheckClaim(t, s.requestId, s.token, s.version, at) == Admitted(k)
    ensures s.requestId < |t.requests| && k < |t.attempts|
    ensures var u := CompleteStep(t, s.requestId, s.token, s.version, s.rows, s.latestDate, s.dataComplete,
                                  StableHash(s.rows), at);
      && Valid(u) && RowsOf(u.results, s.requestId) == s.rows
      && |u.requests| == |t.requests| && |u.attempts| == |t.attempts|
      && u.requests[s.requestId] == Released(t.requests[s.requestId], Completed, t.requests[s.requestId].nextAttemptAt)
      && u.attempts[k] == t.attempts[k].(status := Succeeded, rowCount := |s.rows|, latestDate := Some(s.latestDate),
                                         dataComplete := s.dataComplete, resultHash := Some(StableHash(s.rows)))
      && LatestAttempt(u.attempts, s.requestId) == Some(k)
  {
    var u := CompleteStep(t, s.requestId, s.token, s.version, s.rows, s.latestDate, s.dataComplete, StableHash(s.rows),
                          at);
    CompleteKeeps(t, s.requestId, s.token, s.version, s.rows, s.latestDate, s.dataComplete, StableHash(s.rows), at);
    CompleteResults(t, s.requestId, s.rows, k, u);
    LatestIsLast(u, s.requestId);
    SoleNumber(u, k, LatestAttempt(u.attempts, s.requestId).value);
    hide Valid, AttemptsValid;
  }

  /** An accepted submission vouches for the request it completes. */
  lemma AcceptanceVouches(t: Tables, s: Submission, at: Instant, maxRows: nat)
    requires Valid(t) && s.requestId < |t.requests| && ValidSubmission(t.requests[s.requestId], s, maxRows)
    requires CheckClaim(t, s.requestId, s.token, s.version, at).Admitted?
    ensures var u := Next(t, Complete(s, at), maxRows);
      && s.requestId < |u.requests| && u.requests[s.requestId].status == Completed
      && u.requests[s.requestId].key == t.requests[s.requestId].key
      && RowsOf(u.results, s.requestId) == s.rows
      && Vouched(u, s.requestId, maxRows)
  {
    hide Valid, CheckClaim, ValidSubmission, CompleteStep, VouchedRows;
    var k := CheckClaim(t, s.requestId, s.token, s.version, at).attemptId;
    CompletedState(t, s, at, k);
    var u := CompleteStep(t, s.requestId, s.token, s.version, s.rows, s.latestDate, s.dataComplete, StableHash(s.rows),
                          at);
    assert s.dataComplete by { SubmissionIsComplete(t.requests[s.requestId], s, maxRows); }
    SubmissionVouches(t.requests[s.requestId], s, maxRows, u.requests[s.requestId], u.attempts[k]);
  }

  lemma SubmissionIsComplete(r: Request, s: Submission, maxRows: nat)
    requires ValidSubmission(r, s, maxRows)
    ensures s.dataComplete
  {
  }

  /** A step completes a request only by accepting a submission for it. */
  lemma CompletionCause(t: Tables, step: Step, maxRows: nat, id: nat)
    requires Valid(t) && id < |Next(t, step, maxRows).requests|
    requires Next(t, step, maxRows).requests[id].status == Completed
    requires id >= |t.requests| || t.requests[id].status != Completed
    ensures step.Complete? && step.submission.requestId == id && id < |t.requests|
    ensures ValidSubmission(t.requests[id], step.submission, maxRows)
    ensures CheckClaim(t, id, step.submission.token, step.submission.version, step.at).Admitted?
  {
    hide Valid;
  }

  lemma VouchedStep(t: Tables, step: Step, maxRows: nat)
    requires Valid(t) && AllVouched(t, maxRows)
    ensures AllVouched(Next(t, step, maxRows), maxRows)
  {
    var u := Next(t, step, maxRows);
    StepKeeps(t, step, maxRows);
    forall id | 0 <= id < |u.requests| && u.requests[id].status == Completed ensures Vouched(u, id, maxRows) {
      if id < |t.requests| && t.requests[id].status == Completed {
        SettledStep(t, step, maxRows, id);
        SettledKeepsVouched(t, u, id, maxRows);
      } else {
        CompletionCause(t, step, maxRows, id);
        AcceptanceVouches(t, step.submission, step.at, maxRows);
      }
    }
    hide Valid, Next, Vouched;
  }

  lemma {:induction false} VouchedRun(t: Tables, steps: seq<Step>, maxRows: nat)
    requires Valid(t) && AllVouched(t, maxRows)
    ensures Valid(Run(t, steps, maxRows)) && AllVouched(Run(t, steps, maxRows), maxRows)
    decreases |steps|
  {
    RunKeeps(t, steps, maxRows);
    if steps != [] {
      VouchedRun(t, steps[..|steps| - 1], maxRows);
      VouchedStep(Run(t, steps[..|steps| - 1], maxRows), steps[|steps| - 1], maxRows);
    }
    hide Valid, AllVouched;
  }

  // ---- listing order does not matter -----------------------------------

  /** The fingerprint depends on the rows, not on their order. */
  lemma HashIsOrderFree(rows: seq<ResultRow>, other: seq<ResultRow>)
    requires multiset(rows) == multiset(other)
    requires DistinctDates(rows) && forall a, b :: a in rows && b in rows ==> a.symbol == b.symbol
    ensures StableHash(rows) == StableHash(other)
  {
    DistinctIdentifies(rows, DateKey);
    assert KeyIdentifies(rows, RowKey) by {
      forall a, b | a in rows && b in rows && RowKey(a) == RowKey(b) ensures a == b {
        assert DateKey(a) == DateKey(b);
      }
    }
    SortPermutation(rows, other, RowKey);
  }

  /** Fingerprints agree exactly on the same rows in any order. */
  lemma FingerprintIff(rows: seq<ResultRow>, other: seq<ResultRow>)
    requires DistinctDates(rows) && forall a, b :: a in rows && b in rows ==> a.symbol == b.symbol
    ensures StableHash(rows) == StableHash(other) <==> multiset(rows) == multiset(other)
  {
    if multiset(rows) == multiset(other) {
      HashIsOrderFree(rows, other);
    } else {
      assert multiset(StableHash(rows)) == multiset(rows) && multiset(StableHash(other)) == multiset(other);
    }
  }

  lemma LatestDateOrderFree(rows: seq<ResultRow>, other: seq<ResultRow>)
    requires rows != [] && other != [] && forall row :: row in rows <==> row in other
    ensures LatestDate(rows) == LatestDate(other)
  {
  }

  /** For vouched rows the reconciler's validation comes down to its own row
      limit and to the change rates. */
  lemma VouchedApplicableIff(t: Tables, id: nat, maxRows: nat, limit: nat)
    requires id < |t.requests| && Vouched(t, id, maxRows)
    ensures Applicable(t, id, limit) <==>
              |RowsOf(t.results, id)| <= limit
              && forall row :: row in RowsOf(t.results, id) ==> row.price.changeRate.Some?
  {
    var rows, listed := RowsOf(t.results, id), ListResults(t, id);
    SortMembers(rows, DateKey);
    SortDistinct(rows, DateKey, DateKey);
    LatestDateOrderFree(rows, listed);
    HashIsOrderFree(rows, listed);
    forall row | row in rows ensures ApplicableRow(row, t.requests[id]) <==> row.price.changeRate.Some? {
      assert VouchedRow(row, t.requests[id]);
    }
    hide LatestAttempt, DistinctKeys, StableHash, LatestDate, SortBy, RowsOf, ApplicableRow, VouchedRow;
  }

  // ---- the end-to-end guarantee ----------------------------------------

  ghost predicate LacksChangeRate(rows: seq<ResultRow>) {
    exists row :: row in rows && row.price.changeRate.None?
  }

  /** The outcome of applying a vouched request. */
  ghost predicate OutcomeAsVouched(t: Tables, limit: nat, prices: Prices, symbols: Symbols, id: nat)
    requires id < |t.requests| && t.requests[id].key.symbol in symbols
  {
    var result := Apply(Db(t, prices), symbols, id, limit).1;
    && result.Outcome?
    && (result.status == Rejected <==> LacksChangeRate(RowsOf(t.results, id)) || |RowsOf(t.results, id)| > limit)
    && (result.status != Rejected ==>
          result.status == if SomeDiffers(prices, symbols[t.requests[id].key.symbol], ListResults(t, id))
                           then Conflict else Applied)
  }

  lemma RejectionIsInapplicable(db: Db, symbols: Symbols, id: nat, limit: nat)
    requires id < |db.tables.requests| && db.tables.requests[id].status == Completed
    requires db.tables.requests[id].application == NotApplied && !Applicable(db.tables, id, limit)
    ensures Apply(db, symbols, id, limit).1.Outcome? && Apply(db, symbols, id, limit).1.status == Rejected
  {
    hide ListResults, Applicable, Conflicts, Missing, Upserted;
  }

  lemma VouchedOutcome(t: Tables, maxRows: nat, limit: nat, prices: Prices, symbols: Symbols, id: nat)
    requires id < |t.requests| && t.requests[id].status == Completed && t.requests[id].application == NotApplied
    requires t.requests[id].key.symbol in symbols && Vouched(t, id, maxRows)
    ensures OutcomeAsVouched(t, limit, prices, symbols, id)
  {
    hide ListResults, Applicable, Apply, SomeDiffers, Vouched, RowsOf, Merged;
    VouchedApplicableIff(t, id, maxRows, limit);
    var db := Db(t, prices);
    if Applicable(t, id, limit) {
      assert db.tables == t && Deciding(db, symbols, id, limit);
      DecidedOutcome(db, symbols, id, limit);
      assert Apply(db, symbols, id, limit).1.status != Rejected;
    } else {
      RejectionIsInapplicable(db, symbols, id, limit);
    }
  }

  /** In every reachable state of the queue, a completed request not yet applied
      is rejected exactly when one of its rows lacks a change rate or the rows
      exceed the reconciler's own limit.  Otherwise it is applied, or reported as
      a conflict when a canonical price differs. */
  lemma RejectedIff(steps: seq<Step>, maxRows: nat, limit: nat, prices: Prices, symbols: Symbols, id: nat)
    requires var t := Run(EMPTY, steps, maxRows);
             id < |t.requests| && t.requests[id].status == Completed && t.requests[id].application == NotApplied
             && t.requests[id].key.symbol in symbols
    ensures OutcomeAsVouched(Run(EMPTY, steps, maxRows), limit, prices, symbols, id)
  {
    EmptyVouched(maxRows);
    hide Valid, AllVouched, Vouched, OutcomeAsVouched, Run;
    VouchedRun(EMPTY, steps, maxRows);
    VouchedOne(Run(EMPTY, steps, maxRows), id, maxRows);
    VouchedOutcome(Run(EMPTY, steps, maxRows), maxRows, limit, prices, symbols, id);
  }

  lemma EmptyVouched(maxRows: nat)
    ensures Valid(EMPTY) && AllVouched(EMPTY, maxRows)
  {
  }

  lemma VouchedOne(t: Tables, id: nat, maxRows: nat)
    requires AllVouched(t, maxRows) && id < |t.requests| && t.requests[id].status == Completed
    ensures Vouched(t, id, maxRows)
  {
  }

  /** A submission the queue accepts, with a change rate on every row, is never
      rejected later, whatever other steps the queue takes in between: applying
      its request gives applied or conflict, over exactly the submitted rows. */
  lemma AcceptedIsNeverRejected(before: seq<Step>, s: Submission, at: Instant, after: seq<Step>, maxRows: nat,
                                prices: Prices, symbols: Symbols)
    requires var t := Run(EMPTY, before, maxRows);
             && s.requestId < |t.requests| && ValidSubmission(t.requests[s.requestId], s, maxRows)
             && CheckClaim(t, s.requestId, s.token, s.version, at).Admitted?
    requires forall row :: row in s.rows ==> row.price.changeRate.Some?
    requires s.symbol in symbols
    ensures var u := Run(Next(Run(EMPTY, before, maxRows), Complete(s, at), maxRows), after, maxRows);
      && s.requestId < |u.requests|
      && multiset(ListResults(u, s.requestId)) == multiset(s.rows)
      && (u.requests[s.requestId].application == NotApplied ==>
            var result := Apply(Db(u, prices), symbols, s.requestId, maxRows).1;
            result.Outcome? && result.status in {Applied, Conflict})
  {
    hide Valid, Run, Next, Apply, Applicable, Vouched, CheckClaim, SomeDiffers;
    var t := Run(EMPTY, before, maxRows);
    EmptyVouched(maxRows);
    RunKeeps(EMPTY, before, maxRows);
    AcceptanceVouches(t, s, at, maxRows);
    StepKeeps(t, Complete(s, at), maxRows);
    var done := Next(t, Complete(s, at), maxRows);
    var u := Run(done, after, maxRows);
    RunKeeps(done, after, maxRows);
    TerminalForever(done, after, maxRows, s.requestId);
    SettledKeepsVouched(done, u, s.requestId, maxRows);
    VouchedApplicableIff(u, s.requestId, maxRows, maxRows);
    if u.requests[s.requestId].application == NotApplied {
      DecidedOutcome(Db(u, prices), symbols, s.requestId, maxRows);
    }
  }

  // ---- queue and reconciler interleaved --------------------------------

  /** The queue takes a step, or the reconciler applies a request.  Markers are set by
      the reconciler alone. */
  datatype Action = Queueing(step: Step) | Applying(requestId: nat)

  predicate LeavesMarkers(action: Action) { action.Queueing? ==> !action.step.SetApplication? }

  ghost function Act(db: Db, symbols: Symbols, action: Action, maxRows: nat, limit: nat): Db {
    match action
    case Queueing(step) => Db(Next(db.tables, step, maxRows), db.prices)
    case Applying(id) => Apply(db, symbols, id, limit).0
  }

  ghost function ActAll(db: Db, symbols: Symbols, actions: seq<Action>, maxRows: nat, limit: nat): Db
    decreases |actions|
  {
    if actions == [] then db
    else Act(ActAll(db, symbols, actions[..|actions| - 1], maxRows, limit), symbols, actions[|actions| - 1], maxRows,
             limit)
  }

  lemma OneStep(t: Tables, step: Step, maxRows: nat)
    ensures Run(t, [step], maxRows) == Next(t, step, maxRows)
  {
    assert [step][..0] == [];
    assert Run(t, [step][..0], maxRows) == t;
    hide Next;
  }

  lemma MarkStep(t: Tables, id: nat, status: ApplicationStatus, maxRows: nat)
    ensures Run(t, [SetApplication(id, status)], maxRows) == SetApplicationStep(t, id, status)
  {
    OneStep(t, SetApplication(id, status), maxRows);
    hide Run, SetApplicationStep;
  }

  lemma ActIsStep(db: Db, symbols: Symbols, action: Action, maxRows: nat, limit: nat) returns (steps: seq<Step>)
    ensures Act(db, symbols, action, maxRows, limit).tables == Run(db.tables, steps, maxRows)
  {
    match action
    case Queueing(step) =>
      steps := [step];
      OneStep(db.tables, step, maxRows);
    case Applying(id) =>
      ApplyTables(db, symbols, id, limit);
      var after := Act(db, symbols, action, maxRows, limit).tables;
      if after == db.tables {
        steps := [];
      } else {
        var status := if after == SetApplicationStep(db.tables, id, Rejected) then Rejected
                      else if after == SetApplicationStep(db.tables, id, Conflict) then Conflict else Applied;
        steps := [SetApplication(id, status)];
        MarkStep(db.tables, id, status, maxRows);
      }
      hide Apply, SetApplicationStep, Run, Next;
  }

  lemma {:induction false} RunConcat(t: Tables, a: seq<Step>, b: seq<Step>, maxRows: nat)
    ensures Run(t, a + b, maxRows) == Run(Run(t, a, maxRows), b, maxRows)
    decreases |b|
  {
    if b == [] {
      assert a + b == a;
    } else {
      RunConcat(t, a, b[..|b| - 1], maxRows);
      assert (a + b)[..|a + b| - 1] == a + b[..|b| - 1];
    }
    hide Next;
  }

  /** As far as the queue is concerned, actions are a run of queue steps. */
  lemma {:induction false} ActionsAreSteps(db: Db, symbols: Symbols, actions: seq<Action>, maxRows: nat, limit: nat)
    returns (steps: seq<Step>)
    ensures ActAll(db, symbols, actions, maxRows, limit).tables == Run(db.tables, steps, maxRows)
    decreases |actions|
  {
    if actions == [] {
      steps := [];
    } else {
      var front := ActAll(db, symbols, actions[..|actions| - 1], maxRows, limit);
      var before := ActionsAreSteps(db, symbols, actions[..|actions| - 1], maxRows, limit);
      var last := ActIsStep(front, symbols, actions[|actions| - 1], maxRows, limit);
      RunConcat(db.tables, before, last, maxRows);
      steps := before + last;
      hide Act, Run;
    }
  }

  ghost predicate Deficient(t: Tables, id: nat, limit: nat) {
    LacksChangeRate(RowsOf(t.results, id)) || |RowsOf(t.results, id)| > limit
  }

  /** A request carries a marker only once completed, and `rejected` exactly when its
      stored rows call for it. */
  ghost predicate AllMarked(t: Tables, limit: nat) {
    forall id :: 0 <= id < |t.requests| && t.requests[id].application != NotApplied ==>
      && t.requests[id].status == Completed
      && (t.requests[id].application == Rejected <==> Deficient(t, id, limit))
  }

  lemma MarkerStays(t: Tables, step: Step, maxRows: nat)
    requires !step.SetApplication?
    ensures var u := Next(t, step, maxRows);
      && |t.requests| <= |u.requests|
      && forall id :: 0 <= id < |u.requests| ==>
           u.requests[id].application == if id < |t.requests| then t.requests[id].application else NotApplied
  {
  }

  lemma StepKeepsMarks(t: Tables, step: Step, maxRows: nat, limit: nat)
    requires Valid(t) && AllMarked(t, limit) && !step.SetApplication?
    ensures AllMarked(Next(t, step, maxRows), limit)
  {
    hide Valid, Next, Deficient;
    var u := Next(t, step, maxRows);
    MarkerStays(t, step, maxRows);
    forall id | 0 <= id < |u.requests| && u.requests[id].application != NotApplied
      ensures u.requests[id].status == Completed
              && (u.requests[id].application == Rejected <==> Deficient(u, id, limit))
    {
      SettledStep(t, step, maxRows, id);
      assert Deficient(u, id, limit) == Deficient(t, id, limit) by { SameRowsDeficient(t, u, id, limit); }
    }
  }

  lemma SameRowsDeficient(t: Tables, u: Tables, id: nat, limit: nat)
    requires RowsOf(u.results, id) == RowsOf(t.results, id)
    ensures Deficient(u, id, limit) == Deficient(t, id, limit)
  {
  }

  lemma ApplyMarks(db: Db, symbols: Symbols, id: nat, limit: nat)
    ensures var (after, result) := Apply(db, symbols, id, limit);
      && |after.tables.requests| == |db.tables.requests| && after.tables.results == db.tables.results
      && (forall k :: 0 <= k < |db.tables.requests| ==>
            && after.tables.requests[k].status == db.tables.requests[k].status
            && (k != id ==> after.tables.requests[k] == db.tables.requests[k]))
      && (id < |db.tables.requests| ==>
            after.tables.requests[id].application ==
              if db.tables.requests[id].application == NotApplied && db.tables.requests[id].status == Completed
                 && result.Outcome?
              then result.status else db.tables.requests[id].application)
  {
    hide Conflicts, Missing, ListResults, Applicable, Upserted;
  }

  lemma ApplyKeepsMarks(db: Db, symbols: Symbols, id: nat, maxRows: nat, limit: nat)
    requires Valid(db.tables) && AllVouched(db.tables, maxRows) && AllMarked(db.tables, limit)
    ensures AllMarked(Apply(db, symbols, id, limit).0.tables, limit)
  {
    hide Valid, Apply, Vouched, Deficient;
    var t, after := db.tables, Apply(db, symbols, id, limit).0.tables;
    ApplyMarks(db, symbols, id, limit);
    forall k | 0 <= k < |after.requests| && after.requests[k].application != NotApplied
      ensures after.requests[k].status == Completed
      ensures after.requests[k].application == Rejected <==> Deficient(after, k, limit)
    {
      SameRowsDeficient(t, after, k, limit);
      if k == id && t.requests[id].application == NotApplied {
        VouchedMark(db, symbols, id, maxRows, limit);
      }
    }
  }

  lemma VouchedMark(db: Db, symbols: Symbols, id: nat, maxRows: nat, limit: nat)
    requires id < |db.tables.requests| && db.tables.requests[id].status == Completed
    requires db.tables.requests[id].application == NotApplied && Vouched(db.tables, id, maxRows)
    ensures var result := Apply(db, symbols, id, limit).1;
      result.Outcome? ==> (result.status == Rejected <==> Deficient(db.tables, id, limit))
  {
    hide Vouched, Apply;
    var t := db.tables;
    if t.requests[id].key.symbol in symbols {
      assert Db(t, db.prices) == db;
      VouchedOutcome(t, maxRows, limit, db.prices, symbols, id);
    } else {
      VouchedApplicableIff(t, id, maxRows, limit);
      UnknownSymbolOutcome(db, symbols, id, limit);
    }
  }

  lemma UnknownSymbolOutcome(db: Db, symbols: Symbols, id: nat, limit: nat)
    requires id < |db.tables.requests| && db.tables.requests[id].status == Completed
    requires db.tables.requests[id].application == NotApplied && db.tables.requests[id].key.symbol !in symbols
    ensures var result := Apply(db, symbols, id, limit).1;
      if Applicable(db.tables, id, limit) then !result.Outcome? else result.Outcome? && result.status == Rejected
  {
    hide ListResults, Applicable, Conflicts, Missing, Upserted;
  }

  /** However queue steps and applications interleave, a request carries a marker only
      once completed, and it is marked rejected exactly when a stored row lacks a
      change rate or the rows exceed the reconciler's limit. */
  lemma {:induction false} MarkersAreRight(symbols: Symbols, actions: seq<Action>, maxRows: nat, limit: nat,
                                           prices: Prices)
    requires forall action :: action in actions ==> LeavesMarkers(action)
    ensures var t := ActAll(Db(EMPTY, prices), symbols, actions, maxRows, limit).tables;
      Valid(t) && AllVouched(t, maxRows) && AllMarked(t, limit)
    decreases |actions|
  {
    hide Valid, AllVouched, AllMarked, Act;
    ReachableVouched(symbols, actions, maxRows, limit, prices);
    if actions == [] {
      NoMarks(limit);
    } else {
      var front, last := actions[..|actions| - 1], actions[|actions| - 1];
      assert last in actions && forall action :: action in front ==> action in actions;
      MarkersAreRight(symbols, front, maxRows, limit, prices);
      ActKeepsMarks(ActAll(Db(EMPTY, prices), symbols, front, maxRows, limit), symbols, last, maxRows, limit);
    }
  }

  lemma NoMarks(limit: nat)
    ensures AllMarked(EMPTY, limit)
  {
  }

  lemma ReachableVouched(symbols: Symbols, actions: seq<Action>, maxRows: nat, limit: nat, prices: Prices)
    ensures var t := ActAll(Db(EMPTY, prices), symbols, actions, maxRows, limit).tables;
            Valid(t) && AllVouched(t, maxRows)
  {
    hide Valid, AllVouched, Run, ActAll;
    var steps := ActionsAreSteps(Db(EMPTY, prices), symbols, actions, maxRows, limit);
    EmptyVouched(maxRows);
    VouchedRun(EMPTY, steps, maxRows);
  }

  lemma ActKeepsMarks(db: Db, symbols: Symbols, action: Action, maxRows: nat, limit: nat)
    requires Valid(db.tables) && AllVouched(db.tables, maxRows) && AllMarked(db.tables, limit) && LeavesMarkers(action)
    ensures AllMarked(Act(db, symbols, action, maxRows, limit).tables, limit)
  {
    hide Valid, AllVouched, AllMarked, Next, Apply;
    match action
    case Queueing(step) => StepKeepsMarks(db.tables, step, maxRows, limit);
    case Applying(id) => ApplyKeepsMarks(db, symbols, id, maxRows, limit);
  }

  lemma {:induction false} ActConcat(db: Db, symbols: Symbols, a: seq<Action>, b: seq<Action>, maxRows: nat, limit: nat)
    ensures ActAll(db, symbols, a + b, maxRows, limit)
         == ActAll(ActAll(db, symbols, a, maxRows, limit), symbols, b, maxRows, limit)
    decreases |b|
  {
    if b == [] {
      assert a + b == a;
    } else {
      ActConcat(db, symbols, a, b[..|b| - 1], maxRows, limit);
      assert (a + b)[..|a + b| - 1] == a + b[..|b| - 1];
    }
    hide Act;
  }

  /** So a submission accepted with a change rate on every row is never marked rejected
      in any later state, and its rows stay as submitted. */
  lemma AcceptedIsNeverMarked(before: seq<Action>, s: Submission, at: Instant, after: seq<Action>, maxRows: nat,
                              symbols: Symbols, prices: Prices)
    requires forall action :: action in before + after ==> LeavesMarkers(action)
    requires var t := ActAll(Db(EMPTY, prices), symbols, before, maxRows, maxRows).tables;
             && s.requestId < |t.requests| && ValidSubmission(t.requests[s.requestId], s, maxRows)
             && CheckClaim(t, s.requestId, s.token, s.version, at).Admitted?
    requires forall row :: row in s.rows ==> row.price.changeRate.Some?
    ensures var actions := before + [Queueing(Complete(s, at))] + after;
      var u := ActAll(Db(EMPTY, prices), symbols, actions, maxRows, maxRows).tables;
      && s.requestId < |u.requests| && u.requests[s.requestId].application != Rejected
      && u.requests[s.requestId].status == Completed && RowsOf(u.results, s.requestId) == s.rows
  {
    hide Valid, AllVouched, Act, ActAll, CheckClaim, ValidSubmission, Deficient;
    var id, start, accepting := s.requestId, Db(EMPTY, prices), [Queueing(Complete(s, at))];
    forall action | action in before + accepting + after ensures LeavesMarkers(action) {
      assert action in before + after || action == accepting[0];
    }
    MarkersAreRight(symbols, before + accepting + after, maxRows, maxRows, prices);
    ReachableVouched(symbols, before, maxRows, maxRows, prices);
    ActThrough(start, symbols, before, accepting[0], after, maxRows, maxRows);
    var db := ActAll(start, symbols, before, maxRows, maxRows);
    AcceptedStays(db, s, at, after, maxRows, symbols);
    var u := ActAll(start, symbols, before + accepting + after, maxRows, maxRows).tables;
    assert !Deficient(u, id, maxRows) by { SoundRows(u, id, s.rows, maxRows); }
  }

  lemma ActThrough(db: Db, symbols: Symbols, a: seq<Action>, action: Action, b: seq<Action>, maxRows: nat, limit: nat)
    ensures var done := Act(ActAll(db, symbols, a, maxRows, limit), symbols, action, maxRows, limit);
      ActAll(db, symbols, a + [action] + b, maxRows, limit) == ActAll(done, symbols, b, maxRows, limit)
  {
    hide Act, ActAll;
    OneAction(ActAll(db, symbols, a, maxRows, limit), symbols, action, maxRows, limit);
    ActConcat(db, symbols, a, [action], maxRows, limit);
    ActConcat(db, symbols, a + [action], b, maxRows, limit);
  }

  lemma OneAction(db: Db, symbols: Symbols, action: Action, maxRows: nat, limit: nat)
    ensures ActAll(db, symbols, [action], maxRows, limit) == Act(db, symbols, action, maxRows, limit)
  {
    assert [action][..0] == [];
    assert ActAll(db, symbols, [action][..0], maxRows, limit) == db;
    hide Act;
  }

  lemma SoundRows(t: Tables, id: nat, rows: seq<ResultRow>, limit: nat)
    requires RowsOf(t.results, id) == rows && |rows| <= limit
    requires forall row :: row in rows ==> row.price.changeRate.Some?
    ensures !Deficient(t, id, limit)
  {
  }

  /** What was accepted stays completed, with the rows submitted. */
  lemma AcceptedStays(db: Db, s: Submission, at: Instant, after: seq<Action>, maxRows: nat, symbols: Symbols)
    requires Valid(db.tables) && s.requestId < |db.tables.requests|
    requires ValidSubmission(db.tables.requests[s.requestId], s, maxRows)
    requires CheckClaim(db.tables, s.requestId, s.token, s.version, at).Admitted?
    ensures var done := Act(db, symbols, Queueing(Complete(s, at)), maxRows, maxRows);
      var u := ActAll(done, symbols, after, maxRows, maxRows).tables;
      && s.requestId < |u.requests| && u.requests[s.requestId].status == Completed
      && RowsOf(u.results, s.requestId) == s.rows && |s.rows| <= maxRows
  {
    hide Valid, Run, Next, CheckClaim, ValidSubmission, Vouched, ActAll;
    AcceptanceVouches(db.tables, s, at, maxRows);
    StepKeeps(db.tables, Complete(s, at), maxRows);
    var done := Act(db, symbols, Queueing(Complete(s, at)), maxRows, maxRows);
    VouchedSize(done.tables, s.requestId, maxRows);
    var steps := ActionsAreSteps(done, symbols, after, maxRows, maxRows);
    TerminalForever(done.tables, steps, maxRows, s.requestId);
  }

  lemma VouchedSize(t: Tables, id: nat, maxRows: nat)
    requires id < |t.requests| && Vouched(t, id, maxRows)
    ensures |RowsOf(t.results, id)| <= maxRows
  {
  }

  // ---- the reconciler --------------------------------------------------

  class Reconciler {
    const queue: CrawlRepairRepository
    const store: PriceRepository
    const symbols: Symbols
    const maxRows: nat

    ghost function Database(): Db
      reads queue, store
    {
      Db(queue.State(), store.prices)
    }

    constructor (queue: CrawlRepairRepository, store: PriceRepository, symbols: Symbols, maxRows: nat)
      ensures this.queue == queue && this.store == store && this.symbols == symbols && this.maxRows == maxRows
    {
      this.queue, this.store, this.symbols, this.maxRows := queue, store, symbols, maxRows;
    }

    /** The row loop of `_validate_completed_results`. */
    method CheckRows(rows: seq<ResultRow>, r: Request) returns (ok: bool)
      ensures ok <==> (forall row :: row in rows ==> ApplicableRow(row, r)) && DistinctDates(rows)
    {
      var seenDates: set<Date> := {};
      var i := 0;
      while i < |rows|
        invariant 0 <= i <= |rows|
        invariant forall row :: row in rows[..i] ==> ApplicableRow(row, r)
        invariant forall d :: d in seenDates <==> exists row :: row in rows[..i] && row.tradeDate == d
        invariant DistinctDates(rows[..i])
      {
        var row := rows[i];
        assert rows[..i + 1] == rows[..i] + [row];
        assert row in rows;
        DistinctAppend(rows[..i], row, DateKey);
        if !ApplicableRow(row, r) {
          return false;
        }
        if row.tradeDate in seenDates {
          DistinctPrefix(rows, i + 1, DateKey);
          return false;
        }
        seenDates := seenDates + {row.tradeDate};
        i := i + 1;
      }
      assert rows[..i] == rows;
      return true;
    }

    method Validate(id: nat) returns (ok: bool)
      requires id < |queue.requests|
      ensures ok <==> Applicable(queue.State(), id, maxRows)
    {
      var rows := SortBy(RowsOf(queue.results, id), DateKey);
      if rows == [] || |rows| > maxRows {
        return false;
      }
      var latest := LatestAttempt(queue.attempts, id);
      if latest.None? || !AttemptCovers(queue.attempts[latest.value], rows) {
        return false;
      }
      ok := CheckRows(rows, queue.requests[id]);
    }

    /** `apply_request`: one savepoint around validation, merge and marker. */
    method ApplyRequest(id: nat, now: Instant) returns (result: ApplyResult)
      requires Valid(queue.State())
      modifies queue, store
      ensures Valid(queue.State())
      ensures (Database(), result) == Apply(old(Database()), symbols, id, maxRows)
      ensures Extends(old(store.prices), store.prices)
    {
      hide Valid, Upserted, ListResults, Conflicts, Missing, Applicable;
      ApplyIsSafe(Database(), symbols, id, maxRows);
      if id >= |queue.requests| {
        return RequestMissing;
      }
      var request := queue.requests[id];
      var rows := SortBy(RowsOf(queue.results, id), DateKey);
      assert rows == ListResults(queue.State(), id) by { ListResultsIs(queue.State(), id); }
      if request.application == Applied {
        return Outcome(Applied, |rows|, []);
      }
      if request.application != NotApplied {
        return Outcome(request.application, 0, []);
      }
      if request.status != RequestStatus.Completed {
        return NotCompleted;
      }
      var ok := Validate(id);
      var found := true;
      if !ok {
        found := queue.SetApplicationStatus(id, Rejected);
        return Outcome(Rejected, 0, []);
      }
      if request.key.symbol !in symbols {
        return SymbolMissing;
      }
      var symbol := symbols[request.key.symbol];
      var conflicts := Conflicts(store.prices, symbol, rows);
      if conflicts != [] {
        found := queue.SetApplicationStatus(id, Conflict);
        return Outcome(Conflict, 0, Dates(conflicts));
      }
      var missing := Missing(store.prices, symbol, rows);
      ApplicableDistinct(queue.State(), id, maxRows);
      MissingPayloads(store.prices, symbol, rows);
      DistinctNeverBreaks(store.prices, symbol, SortBy(ToPayloads(missing), PayloadKey));
      if missing != [] {
        var outcome := store.SaveSymbolPrices(symbols, request.key.symbol, ToPayloads(missing), KIWOOM, now);
      } else {
        UpsertOfNothing(store.prices, symbol);
      }
      found := queue.SetApplicationStatus(id, Applied);
      return Outcome(Applied, |missing|, []);
    }
  }

  lemma UpsertOfNothing(prices: Prices, symbol: nat)
    ensures Upserted(prices, symbol, KIWOOM, SortBy(ToPayloads([]), PayloadKey)) == prices
  {
    assert ToPayloads([]) == [];
  }

  lemma ListResultsIs(t: Tables, id: nat)
    ensures ListResults(t, id) == SortBy(RowsOf(t.results, id), DateKey)
  {
  }

  lemma ApplicableDistinct(t: Tables, id: nat, maxRows: nat)
    requires id < |t.requests| && Applicable(t, id, maxRows)
    ensures DistinctDates(ListResults(t, id))
  {
  }
}
