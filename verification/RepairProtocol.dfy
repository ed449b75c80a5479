/** What every run of the repair queue keeps: leases, attempt numbering,
    fencing, terminal states and the bound on claims. */
module RepairProtocol {
  import opened Common
  import opened RepairTables

  // ---- the invariant ---------------------------------------------------

  /** A request is leased exactly while it is processing. */
  ghost predicate LeaseShape(r: Request) {
    && (r.status == Processing <==> r.claimToken.Some?)
    && (r.status == Processing <==> r.leaseExpiresAt.Some?)
    && r.claimVersion == r.attemptCount <= r.maxAttempts
    && (r.status in {Processing, Completed, Failed} ==> r.attemptCount >= 1)
  }

  ghost predicate RequestsValid(t: Tables) {
    && (forall i :: 0 <= i < |t.requests| ==> LeaseShape(t.requests[i]))
    && (forall i :: 0 <= i < |t.requests| && t.requests[i].claimToken.Some? ==>
          t.requests[i].claimToken.value in t.issued)
    && (forall i, j :: 0 <= i < j < |t.requests| && t.requests[i].claimToken.Some? ==>
          t.requests[i].claimToken != t.requests[j].claimToken)
    && (forall i, j :: 0 <= i < j < |t.requests| ==> t.requests[i].key != t.requests[j].key)
  }

  /** The status an attempt must have, given its request. */
  ghost predicate AttemptAgrees(a: Attempt, r: Request) {
    && 1 <= a.attemptNo <= r.attemptCount
    && (a.status == Running <==> r.status == Processing && a.attemptNo == r.attemptCount)
    && (a.status == Succeeded <==> r.status == Completed && a.attemptNo == r.attemptCount)
  }

  ghost predicate HasAttempt(attempts: seq<Attempt>, id: nat, no: nat) {
    exists k :: 0 <= k < |attempts| && attempts[k].requestId == id && attempts[k].attemptNo == no
  }

  /** Attempts of a request carry the numbers 1..attempt_count, once each, in order. */
  ghost predicate AttemptsValid(t: Tables) {
    && (forall k :: 0 <= k < |t.attempts| ==>
          t.attempts[k].requestId < |t.requests| && AttemptAgrees(t.attempts[k], t.requests[t.attempts[k].requestId]))
    && (forall j, k :: 0 <= j < k < |t.attempts| && t.attempts[j].requestId == t.attempts[k].requestId ==>
          t.attempts[j].attemptNo < t.attempts[k].attemptNo)
    && (forall i, no :: 0 <= i < |t.requests| && 1 <= no <= t.requests[i].attemptCount ==>
          HasAttempt(t.attempts, i, no))
  }

  /** Result rows exist only for completed requests, under the completed attempt. */
  ghost predicate ResultsValid(t: Tables) {
    && (forall k :: 0 <= k < |t.results| ==>
          && t.results[k].attemptId < |t.attempts|
          && t.attempts[t.results[k].attemptId].requestId == t.results[k].requestId
          && t.attempts[t.results[k].attemptId].status == Succeeded)
    && (forall k :: 0 <= k < |t.attempts| && t.attempts[k].status == Succeeded ==>
          |RowsOf(t.results, t.attempts[k].requestId)| == t.attempts[k].rowCount)
  }

  function Counts(requests: seq<Request>): (c: seq<nat>)
    ensures |c| == |requests|
    ensures forall i :: 0 <= i < |c| ==> c[i] == requests[i].attemptCount
  {
    seq(|requests|, i requires 0 <= i < |requests| => requests[i].attemptCount)
  }

  function Limits(requests: seq<Request>): (c: seq<nat>)
    ensures |c| == |requests|
    ensures forall i :: 0 <= i < |c| ==> c[i] == requests[i].maxAttempts
  {
    seq(|requests|, i requires 0 <= i < |requests| => requests[i].maxAttempts)
  }

  ghost predicate ClaimsCounted(t: Tables) {
    |t.attempts| == Sum(Counts(t.requests))
  }

  ghost predicate Valid(t: Tables) {
    RequestsValid(t) && AttemptsValid(t) && ResultsValid(t) && ClaimsCounted(t)
  }

  // ---- the latest attempt ----------------------------------------------

  /** In a valid state the latest attempt is the one numbered attempt_count. */
  lemma LatestIsLast(t: Tables, id: nat)
    requires AttemptsValid(t) && id < |t.requests| && t.requests[id].attemptCount >= 1
    ensures LatestAttempt(t.attempts, id).Some?
    ensures t.attempts[LatestAttempt(t.attempts, id).value].attemptNo == t.requests[id].attemptCount
  {
    assert HasAttempt(t.attempts, id, t.requests[id].attemptCount);
  }

  /** A processing request always has its active attempt, so the check that
      looks for it never fails on its own. */
  lemma ActiveIsLatest(t: Tables, id: nat)
    requires Valid(t) && id < |t.requests| && t.requests[id].status == Processing
    ensures ActiveAttempt(t.attempts, id, t.requests[id].attemptCount).Some?
    ensures ActiveAttempt(t.attempts, id, t.requests[id].attemptCount) == LatestAttempt(t.attempts, id)
  {
    LatestIsLast(t, id);
    var k := LatestAttempt(t.attempts, id).value;
    assert IsActive(t.attempts[k], id, t.requests[id].attemptCount);
  }

  // ---- preservation: requests ------------------------------------------

  lemma RequestsUpdate(t: Tables, id: nat, r: Request, issued: set<Token>)
    requires RequestsValid(t) && id < |t.requests|
    requires LeaseShape(r) && r.key == t.requests[id].key && t.issued <= issued
    requires r.claimToken.Some? ==>
               r.claimToken.value in issued && (r.claimToken == t.requests[id].claimToken
                                                || r.claimToken.value !in t.issued)
    ensures RequestsValid(t.(requests := t.requests[id := r], issued := issued))
  {
  }

  lemma HasAttemptKept(before: seq<Attempt>, after: seq<Attempt>, id: nat, no: nat)
    requires HasAttempt(before, id, no)
    requires |before| <= |after|
    requires forall k :: 0 <= k < |before| ==>
               after[k].requestId == before[k].requestId && after[k].attemptNo == before[k].attemptNo
    ensures HasAttempt(after, id, no)
  {
    var k :| 0 <= k < |before| && before[k].requestId == id && before[k].attemptNo == no;
    assert after[k].requestId == id;
  }

  /** A step that rewrites one leased request together with its active attempt. */
  lemma AttemptsUpdate(t: Tables, id: nat, r: Request, k: nat, a: Attempt)
    requires Valid(t) && id < |t.requests| && t.requests[id].status == Processing
    requires ActiveAttempt(t.attempts, id, t.requests[id].attemptCount) == Some(k)
    requires r.attemptCount == t.requests[id].attemptCount && r.status != Processing
    requires a.requestId == id && a.attemptNo == r.attemptCount
    requires a.status != Running && (a.status == Succeeded <==> r.status == Completed)
    ensures AttemptsValid(t.(requests := t.requests[id := r], attempts := t.attempts[k := a]))
  {
    var u := t.(requests := t.requests[id := r], attempts := t.attempts[k := a]);
    forall i, no | 0 <= i < |u.requests| && 1 <= no <= u.requests[i].attemptCount
      ensures HasAttempt(u.attempts, i, no)
    {
      HasAttemptKept(t.attempts, u.attempts, i, no);
    }
    forall j | 0 <= j < |u.attempts|
      ensures u.attempts[j].requestId < |u.requests|
              && AttemptAgrees(u.attempts[j], u.requests[u.attempts[j].requestId])
    {
      SoleNumber(t, j, k);
    }
  }

  lemma SoleNumber(t: Tables, j: nat, k: nat)
    requires AttemptsValid(t) && j < |t.attempts| && k < |t.attempts|
    ensures t.attempts[j].requestId == t.attempts[k].requestId && t.attempts[j].attemptNo == t.attempts[k].attemptNo ==>
            j == k
  {
  }

  lemma AttemptsAppend(t: Tables, id: nat, r: Request, a: Attempt)
    requires Valid(t) && id < |t.requests| && t.requests[id].status == Pending
    requires r.attemptCount == t.requests[id].attemptCount + 1 && r.status == Processing
    requires a.requestId == id && a.attemptNo == r.attemptCount && a.status == Running
    ensures AttemptsValid(t.(requests := t.requests[id := r], attempts := t.attempts + [a]))
  {
    var u := t.(requests := t.requests[id := r], attempts := t.attempts + [a]);
    forall i, no | 0 <= i < |u.requests| && 1 <= no <= u.requests[i].attemptCount
      ensures HasAttempt(u.attempts, i, no)
    {
      if i == id && no == r.attemptCount {
        assert u.attempts[|t.attempts|].requestId == id;
      } else {
        HasAttemptKept(t.attempts, u.attempts, i, no);
      }
    }
  }

  // ---- preservation: results and counters ------------------------------

  lemma {:induction false} RowsOfAppend(a: seq<StoredResult>, b: seq<StoredResult>, id: nat)
    ensures RowsOf(a + b, id) == RowsOf(a, id) + RowsOf(b, id)
  {
    if a == [] {
      assert a + b == b;
    } else {
      var head := if a[0].requestId == id then [a[0].row] else [];
      assert (a + b)[0] == a[0] && (a + b)[1..] == a[1..] + b;
      RowsOfAppend(a[1..], b, id);
      assert RowsOf(a + b, id) == head + (RowsOf(a[1..], id) + RowsOf(b, id));
    }
  }

  lemma {:induction false} RowsOfStored(rows: seq<ResultRow>, id: nat, attempt: nat, other: nat)
    ensures RowsOf(Stored(rows, id, attempt), other) == if other == id then rows else []
  {
    if rows != [] {
      assert Stored(rows, id, attempt)[1..] == Stored(rows[1..], id, attempt);
      RowsOfStored(rows[1..], id, attempt, other);
    }
  }

  /** Rows are listed for a request only if one of the stored rows names it. */
  lemma {:induction false} RowsOfNone(results: seq<StoredResult>, id: nat)
    requires forall k :: 0 <= k < |results| ==> results[k].requestId != id
    ensures RowsOf(results, id) == []
  {
    if results != [] {
      RowsOfNone(results[1..], id);
    }
  }

  /** A request that is not completed has no result rows. */
  lemma UncompletedHasNoRows(t: Tables, id: nat)
    requires Valid(t) && id < |t.requests| && t.requests[id].status != Completed
    ensures RowsOf(t.results, id) == []
  {
    RowsOfNone(t.results, id);
  }

  lemma CountsUpdate(requests: seq<Request>, id: nat, r: Request)
    requires id < |requests|
    ensures Sum(Counts(requests[id := r])) == Sum(Counts(requests)) - requests[id].attemptCount + r.attemptCount
  {
    assert Counts(requests[id := r]) == Counts(requests)[id := r.attemptCount];
    SumUpdate(Counts(requests), id, r.attemptCount);
  }

  lemma ResultsKept(t: Tables, requests: seq<Request>, k: nat, a: Attempt, issued: set<Token>)
    requires ResultsValid(t) && k < |t.attempts|
    requires t.attempts[k].status != Succeeded && a.status != Succeeded && a.requestId == t.attempts[k].requestId
    ensures ResultsValid(t.(requests := requests, attempts := t.attempts[k := a], issued := issued))
  {
  }

  // ---- preservation: one lemma per step --------------------------------

  lemma EnqueueRequests(t: Tables, u: Tables, r: Request)
    requires RequestsValid(t) && u == t.(requests := t.requests + [r]) && LeaseShape(r) && r.claimToken.None?
    requires forall q :: q in t.requests ==> q.key != r.key
    ensures RequestsValid(u)
  {
    assert forall i :: 0 <= i < |t.requests| ==> t.requests[i] in t.requests;
  }

  lemma EnqueueAttempts(t: Tables, u: Tables, r: Request)
    requires AttemptsValid(t) && u == t.(requests := t.requests + [r]) && r.attemptCount == 0
    ensures AttemptsValid(u)
  {
  }

  lemma EnqueueKeeps(t: Tables, key: DedupeKey, from: Option<Date>, op: Operation, max: nat, at: Instant)
    requires Valid(t)
    ensures Valid(EnqueueStep(t, key, from, op, max, at))
  {
    if !(max < 1 || FindKey(t.requests, key).Some?) {
      var u := EnqueueStep(t, key, from, op, max, at);
      var r := u.requests[|t.requests|];
      assert u.requests == t.requests + [r];
      assert Counts(u.requests) == Counts(t.requests) + [0];
      SumAppend(Counts(t.requests), [0]);
      EnqueueRequests(t, u, r);
      EnqueueAttempts(t, u, r);
      hide RequestsValid, AttemptsValid, Sum;
    }
  }

  lemma ExpireKeeps(t: Tables, id: nat, at: Instant)
    requires Valid(t)
    ensures Valid(ExpireStep(t, id, at))
  {
    if id < |t.requests| && Expired(t.requests[id], at) {
      ActiveIsLatest(t, id);
      var k := LatestAttempt(t.attempts, id).value;
      var r := Released(t.requests[id], Pending, at);
      var a := t.attempts[k].(status := Broken);
      RequestsUpdate(t, id, r, t.issued);
      AttemptsUpdate(t, id, r, k, a);
      ResultsKept(t, t.requests[id := r], k, a, t.issued);
      CountsUpdate(t.requests, id, r);
    }
  }

  /** A new attempt that has not succeeded says nothing about results. */
  lemma ResultsStay(t: Tables, u: Tables)
    requires ResultsValid(t) && u.results == t.results && |u.attempts| == |t.attempts| + 1
    requires u.attempts[..|t.attempts|] == t.attempts && u.attempts[|t.attempts|].status != Succeeded
    ensures ResultsValid(u)
  {
    hide RowsOf;
    assert forall k :: 0 <= k < |t.attempts| ==> u.attempts[k] == u.attempts[..|t.attempts|][k];
  }

  lemma GrantKeeps(t: Tables, id: nat, at: Instant, lease: nat, token: Token)
    requires Valid(t)
    ensures Valid(GrantStep(t, id, at, lease, token))
  {
    if id < |t.requests| && Ready(t.requests[id], at) && token !in t.issued {
      var u := GrantStep(t, id, at, lease, token);
      var r := u.requests[id];
      RequestsUpdate(t, id, r, u.issued);
      AttemptsAppend(t, id, r, u.attempts[|t.attempts|]);
      CountsUpdate(t.requests, id, r);
      ResultsStay(t, u);
    }
  }

  lemma CompleteKeeps(t: Tables, id: nat, token: Token, version: Option<nat>, rows: seq<ResultRow>,
                      latestDate: Date, dataComplete: bool, hash: ResultHash, at: Instant)
    requires Valid(t)
    ensures Valid(CompleteStep(t, id, token, version, rows, latestDate, dataComplete, hash, at))
  {
    if CheckClaim(t, id, token, version, at).Admitted? {
      var k := CheckClaim(t, id, token, version, at).attemptId;
      var u := CompleteStep(t, id, token, version, rows, latestDate, dataComplete, hash, at);
      RequestsUpdate(t, id, u.requests[id], t.issued);
      AttemptsUpdate(t, id, u.requests[id], k, u.attempts[k]);
      CountsUpdate(t.requests, id, u.requests[id]);
      CompleteResults(t, id, rows, k, u);
    }
  }

  lemma CompleteResults(t: Tables, id: nat, rows: seq<ResultRow>, k: nat, u: Tables)
    requires Valid(t) && id < |t.requests| && t.requests[id].status == Processing && k < |t.attempts|
    requires t.attempts[k].requestId == id && t.attempts[k].status == Running
    requires |u.attempts| == |t.attempts| && u.attempts == t.attempts[k := u.attempts[k]]
             && u.results == t.results + Stored(rows, id, k)
    requires u.attempts[k].requestId == id && u.attempts[k].status == Succeeded && u.attempts[k].rowCount == |rows|
    ensures ResultsValid(u)
    ensures RowsOf(u.results, id) == rows
  {
    UncompletedHasNoRows(t, id);
    forall other ensures RowsOf(u.results, other) == if other == id then rows else RowsOf(t.results, other) {
      RowsOfAppend(t.results, Stored(rows, id, k), other);
      RowsOfStored(rows, id, k, other);
    }
    forall j | 0 <= j < |u.attempts| && u.attempts[j].status == Succeeded
      ensures |RowsOf(u.results, u.attempts[j].requestId)| == u.attempts[j].rowCount
    {
      if j != k {
        assert t.attempts[j].requestId != id;
      }
    }
  }

  lemma FailKeeps(t: Tables, id: nat, token: Token, version: Option<nat>, retryable: bool, after: nat, at: Instant)
    requires Valid(t)
    ensures Valid(FailStep(t, id, token, version, retryable, after, at))
  {
    if CheckClaim(t, id, token, version, at).Admitted? {
      var k := CheckClaim(t, id, token, version, at).attemptId;
      var u := FailStep(t, id, token, version, retryable, after, at);
      RequestsUpdate(t, id, u.requests[id], t.issued);
      AttemptsUpdate(t, id, u.requests[id], k, u.attempts[k]);
      ResultsKept(t, u.requests, k, u.attempts[k], t.issued);
      CountsUpdate(t.requests, id, u.requests[id]);
    }
  }

  lemma SetApplicationKeeps(t: Tables, id: nat, application: ApplicationStatus)
    requires Valid(t)
    ensures Valid(SetApplicationStep(t, id, application))
  {
    if id < |t.requests| {
      var u := SetApplicationStep(t, id, application);
      RequestsUpdate(t, id, u.requests[id], t.issued);
      CountsUpdate(t.requests, id, u.requests[id]);
      AttemptsStay(t, id, application);
      hide AttemptsValid, RequestsValid;
    }
  }

  lemma AttemptsStay(t: Tables, id: nat, application: ApplicationStatus)
    requires AttemptsValid(t) && id < |t.requests|
    ensures AttemptsValid(SetApplicationStep(t, id, application))
  {
  }

  lemma StepKeeps(t: Tables, step: Step, maxRows: nat)
    requires Valid(t)
    ensures Valid(Next(t, step, maxRows))
  {
    hide Valid, EnqueueStep, ExpireStep, GrantStep, CompleteStep, FailStep, SetApplicationStep, ValidSubmission;
    match step
    case Enqueue(key, from, op, max, at) => EnqueueKeeps(t, key, from, op, max, at);
    case Expire(id, at) => ExpireKeeps(t, id, at);
    case Grant(id, at, lease, token) => GrantKeeps(t, id, at, lease, token);
    case Complete(s, at) =>
      CompleteKeeps(t, s.requestId, s.token, s.version, s.rows, s.latestDate, s.dataComplete, StableHash(s.rows), at);
    case Fail(id, token, version, retryable, after, at) => FailKeeps(t, id, token, version, retryable, after, at);
    case SetApplication(id, application) => SetApplicationKeeps(t, id, application);
  }

  /** Every run that starts from a valid state ends in one. */
  lemma {:induction false} RunKeeps(t: Tables, steps: seq<Step>, maxRows: nat)
    requires Valid(t)
    ensures Valid(Run(t, steps, maxRows))
    decreases |steps|
  {
    if steps != [] {
      RunKeeps(t, steps[..|steps| - 1], maxRows);
      StepKeeps(Run(t, steps[..|steps| - 1], maxRows), steps[|steps| - 1], maxRows);
    }
  }

  // ---- consequences over whole runs ------------------------------------

  /** A request is processing exactly when it holds a token and a lease, and
      then exactly one attempt is running, its last one; attempt numbers are
      1..attempt_count without a gap and equal the claim version. */
  lemma ReachableShape(steps: seq<Step>, maxRows: nat, id: nat)
    requires id < |Run(EMPTY, steps, maxRows).requests|
    ensures var t := Run(EMPTY, steps, maxRows); var r := t.requests[id];
      && (r.status == Processing <==> r.claimToken.Some?)
      && (r.status == Processing <==> r.leaseExpiresAt.Some?)
      && r.claimVersion == r.attemptCount <= r.maxAttempts
      && (r.status == Processing <==>
            exists k :: 0 <= k < |t.attempts| && t.attempts[k].requestId == id && t.attempts[k].status == Running)
      && (forall k :: 0 <= k < |t.attempts| && t.attempts[k].requestId == id && t.attempts[k].status == Running ==>
            Some(k) == LatestAttempt(t.attempts, id))
      && (forall no: nat :: HasAttempt(t.attempts, id, no) <==> 1 <= no <= r.attemptCount)
  {
    hide Run, Valid, HasAttempt;
    RunKeeps(EMPTY, steps, maxRows);
    ShapeOfValid(Run(EMPTY, steps, maxRows), id);
  }

  lemma ShapeOfValid(t: Tables, id: nat)
    requires Valid(t) && id < |t.requests|
    ensures var r := t.requests[id];
      && (r.status == Processing <==> r.claimToken.Some?)
      && (r.status == Processing <==> r.leaseExpiresAt.Some?)
      && r.claimVersion == r.attemptCount <= r.maxAttempts
      && (r.status == Processing <==>
            exists k :: 0 <= k < |t.attempts| && t.attempts[k].requestId == id && t.attempts[k].status == Running)
      && (forall k :: 0 <= k < |t.attempts| && t.attempts[k].requestId == id && t.attempts[k].status == Running ==>
            Some(k) == LatestAttempt(t.attempts, id))
      && (forall no: nat :: HasAttempt(t.attempts, id, no) <==> 1 <= no <= r.attemptCount)
  {
    if t.requests[id].status == Processing {
      ActiveIsLatest(t, id);
    }
    forall k | 0 <= k < |t.attempts| && t.attempts[k].requestId == id && t.attempts[k].status == Running
      ensures Some(k) == LatestAttempt(t.attempts, id)
    {
      LatestIsLast(t, id);
      SoleNumber(t, k, LatestAttempt(t.attempts, id).value);
    }
  }

  /** Claims granted over any run never exceed the attempts the requests allow. */
  lemma ClaimsBounded(steps: seq<Step>, maxRows: nat)
    ensures |Run(EMPTY, steps, maxRows).attempts| <= Sum(Limits(Run(EMPTY, steps, maxRows).requests))
  {
    RunKeeps(EMPTY, steps, maxRows);
    var t := Run(EMPTY, steps, maxRows);
    SumMonotone(Counts(t.requests), Limits(t.requests));
  }

  // ---- fencing ---------------------------------------------------------

  /** The claim identified by `token` is still the one in force on request `id`. */
  ghost predicate Holds(t: Tables, id: nat, token: Token) {
    id < |t.requests| && t.requests[id].claimToken == Some(token)
  }

  /** Nothing about the lease has changed between two states. */
  ghost predicate SameLease(a: Request, b: Request) {
    && a.status == b.status == Processing && a.claimToken == b.claimToken
    && a.claimVersion == b.claimVersion && a.attemptCount == b.attemptCount
    && a.leaseExpiresAt == b.leaseExpiresAt
  }

  lemma FenceEnqueue(t: Tables, key: DedupeKey, from: Option<Date>, op: Operation, max: nat, at: Instant, id: nat,
                     token: Token)
    requires Valid(t) && token in t.issued
    ensures Fenced(t, EnqueueStep(t, key, from, op, max, at), id, token)
  {
  }

  lemma FenceExpire(t: Tables, target: nat, at: Instant, id: nat, token: Token)
    requires Valid(t) && token in t.issued
    ensures Fenced(t, ExpireStep(t, target, at), id, token)
  {
  }

  lemma FenceGrant(t: Tables, target: nat, at: Instant, lease: nat, granted: Token, id: nat, token: Token)
    requires Valid(t) && token in t.issued
    ensures Fenced(t, GrantStep(t, target, at, lease, granted), id, token)
  {
  }

  lemma FenceFail(t: Tables, target: nat, own: Token, version: Option<nat>, retryable: bool, after: nat, at: Instant,
                  id: nat, token: Token)
    requires Valid(t) && token in t.issued
    ensures Fenced(t, FailStep(t, target, own, version, retryable, after, at), id, token)
  {
  }

  lemma FenceMark(t: Tables, target: nat, application: ApplicationStatus, id: nat, token: Token)
    requires Valid(t) && token in t.issued
    ensures Fenced(t, SetApplicationStep(t, target, application), id, token)
  {
  }

  lemma FenceNothing(t: Tables, id: nat, token: Token)
    requires Valid(t) && token in t.issued
    ensures Fenced(t, t, id, token)
  {
  }

  /** The token stays issued, and if it is held it was, under the same lease. */
  ghost predicate Fenced(t: Tables, u: Tables, id: nat, token: Token) {
    && token in u.issued
    && (Holds(u, id, token) ==> Holds(t, id, token) && SameLease(t.requests[id], u.requests[id]))
  }

  /** A token once lost is never held again, and while held its lease is fixed. */
  lemma FenceStep(t: Tables, step: Step, maxRows: nat, id: nat, token: Token)
    requires Valid(t) && token in t.issued
    ensures token in Next(t, step, maxRows).issued
    ensures Holds(Next(t, step, maxRows), id, token) ==>
              Holds(t, id, token) && SameLease(t.requests[id], Next(t, step, maxRows).requests[id])
  {
    hide Valid, EnqueueStep, ExpireStep, GrantStep, CompleteStep, FailStep, SetApplicationStep, ValidSubmission;
    match step
    case Enqueue(key, from, op, max, at) => FenceEnqueue(t, key, from, op, max, at, id, token);
    case Expire(target, at) => FenceExpire(t, target, at, id, token);
    case Grant(target, at, lease, granted) => FenceGrant(t, target, at, lease, granted, id, token);
    case Complete(s, at) =>
      FenceComplete(t, s.requestId, s, at, id, token);
      FenceNothing(t, id, token);
    case Fail(target, own, version, retryable, after, at) =>
      FenceFail(t, target, own, version, retryable, after, at, id, token);
    case SetApplication(target, application) => FenceMark(t, target, application, id, token);
  }

  lemma FenceComplete(t: Tables, target: nat, s: Submission, at: Instant, id: nat, token: Token)
    requires Valid(t) && token in t.issued
    ensures var u := CompleteStep(t, target, s.token, s.version, s.rows, s.latestDate, s.dataComplete,
                                  StableHash(s.rows), at);
      && u.issued == t.issued
      && (Holds(u, id, token) ==> Holds(t, id, token) && SameLease(t.requests[id], u.requests[id]))
  {
  }

  /** The state after the first `n` steps of a run. */
  ghost function After(t: Tables, steps: seq<Step>, n: nat, maxRows: nat): Tables
    requires n <= |steps|
  {
    Run(t, steps[..n], maxRows)
  }

  lemma {:induction false} FenceRun(t: Tables, steps: seq<Step>, n: nat, maxRows: nat, id: nat, token: Token, j: nat)
    requires Valid(t) && token in t.issued && j <= n <= |steps|
    ensures token in After(t, steps, n, maxRows).issued
    ensures Holds(After(t, steps, n, maxRows), id, token) ==>
              && Holds(After(t, steps, j, maxRows), id, token)
              && SameLease(After(t, steps, j, maxRows).requests[id], After(t, steps, n, maxRows).requests[id])
    decreases n
  {
    RunKeeps(t, steps[..n], maxRows);
    if n > 0 {
      var u := After(t, steps, n - 1, maxRows);
      assert steps[..n][..n - 1] == steps[..n - 1];
      RunKeeps(t, steps[..n - 1], maxRows);
      if j < n {
        FenceRun(t, steps, n - 1, maxRows, id, token, j);
      } else {
        FenceRun(t, steps, n - 1, maxRows, id, token, n - 1);
      }
      FenceStep(u, steps[n - 1], maxRows, id, token);
    }
  }

  /** Fencing: if a token issued before a run is accepted at its end, then at
      every moment of the run the request was processing under that very claim,
      with the same version and attempt, and the lease it was granted is still
      running.  So no expiry, requeue, new claim, completion or failure of the
      request happened in between. */
  lemma Fencing(t: Tables, steps: seq<Step>, maxRows: nat, id: nat, token: Token, version: Option<nat>, now: Instant)
    requires Valid(t) && token in t.issued
    requires CheckClaim(Run(t, steps, maxRows), id, token, version, now).Admitted?
    ensures Holds(t, id, token) && t.requests[id].status == Processing
    ensures version == Some(t.requests[id].claimVersion)
    ensures t.requests[id].leaseExpiresAt.Some? && now < t.requests[id].leaseExpiresAt.value
    ensures forall j :: 0 <= j <= |steps| ==>
              && Holds(After(t, steps, j, maxRows), id, token)
              && SameLease(t.requests[id], After(t, steps, j, maxRows).requests[id])
  {
    assert steps[..|steps|] == steps && steps[..0] == [];
    RunKeeps(t, steps, maxRows);
    FenceRun(t, steps, |steps|, maxRows, id, token, 0);
    forall j | 0 <= j <= |steps|
      ensures Holds(After(t, steps, j, maxRows), id, token)
      ensures SameLease(t.requests[id], After(t, steps, j, maxRows).requests[id])
    {
      FenceRun(t, steps, |steps|, maxRows, id, token, j);
    }
  }

  /** With its own token and version a claim is accepted exactly until its lease ends. */
  lemma ClaimAcceptedIff(t: Tables, id: nat, token: Token, version: Option<nat>, now: Instant)
    requires Valid(t)
    ensures CheckClaim(t, id, token, version, now).Admitted? <==>
              && Holds(t, id, token) && version == Some(t.requests[id].claimVersion)
              && now < t.requests[id].leaseExpiresAt.value
    ensures CheckClaim(t, id, token, version, now) != NoActiveAttempt
  {
    if id < |t.requests| && t.requests[id].status == Processing {
      ActiveIsLatest(t, id);
    }
  }

  // ---- terminal states -------------------------------------------------

  /** Completed and failed requests keep their status, attempts and result rows. */
  ghost predicate Settled(t: Tables, u: Tables, id: nat)
    requires id < |t.requests|
  {
    && id < |u.requests|
    && u.requests[id].status == t.requests[id].status
    && u.requests[id].attemptCount == t.requests[id].attemptCount
    && u.requests[id].key == t.requests[id].key && u.requests[id].historyFrom == t.requests[id].historyFrom
    && RowsOf(u.results, id) == RowsOf(t.results, id)
    && |t.attempts| <= |u.attempts|
    && (forall k :: 0 <= k < |t.attempts| ==> u.attempts[k].requestId == t.attempts[k].requestId)
    && (forall k :: 0 <= k < |t.attempts| && t.attempts[k].requestId == id ==> u.attempts[k] == t.attempts[k])
    && (forall k :: |t.attempts| <= k < |u.attempts| ==> u.attempts[k].requestId != id)
  }

  lemma SettledStep(t: Tables, step: Step, maxRows: nat, id: nat)
    requires Valid(t) && id < |t.requests| && t.requests[id].status in {Completed, Failed}
    ensures Settled(t, Next(t, step, maxRows), id)
  {
    hide Valid, EnqueueStep, ExpireStep, GrantStep, CompleteStep, FailStep, SetApplicationStep, ValidSubmission,
        Settled;
    SettledReflexive(t, id);
    match step
    case Enqueue(key, from, op, max, at) => SettledEnqueue(t, key, from, op, max, at, id);
    case Expire(other, at) => SettledExpire(t, other, at, id);
    case Grant(other, at, lease, token) => SettledGrant(t, other, at, lease, token, id);
    case Complete(s, at) => SettledComplete(t, s, at, maxRows, id);
    case Fail(other, token, version, retryable, after, at) =>
      SettledFail(t, other, token, version, retryable, after, at, id);
    case SetApplication(other, application) => SettledMark(t, other, application, id);
  }

  lemma SettledReflexive(t: Tables, id: nat)
    requires Valid(t) && id < |t.requests|
    ensures Settled(t, t, id)
  {
  }

  lemma SettledEnqueue(t: Tables, key: DedupeKey, from: Option<Date>, op: Operation, max: nat, at: Instant, id: nat)
    requires Valid(t) && id < |t.requests| && t.requests[id].status in {Completed, Failed}
    ensures Settled(t, EnqueueStep(t, key, from, op, max, at), id)
  {
  }

  lemma SettledGrant(t: Tables, other: nat, at: Instant, lease: nat, token: Token, id: nat)
    requires Valid(t) && id < |t.requests| && t.requests[id].status in {Completed, Failed}
    ensures Settled(t, GrantStep(t, other, at, lease, token), id)
  {
  }

  lemma SettledMark(t: Tables, other: nat, application: ApplicationStatus, id: nat)
    requires Valid(t) && id < |t.requests| && t.requests[id].status in {Completed, Failed}
    ensures Settled(t, SetApplicationStep(t, other, application), id)
  {
  }

  lemma SettledExpire(t: Tables, other: nat, at: Instant, id: nat)
    requires Valid(t) && id < |t.requests| && t.requests[id].status in {Completed, Failed}
    ensures Settled(t, ExpireStep(t, other, at), id)
  {
  }

  lemma SettledFail(t: Tables, other: nat, token: Token, version: Option<nat>, retryable: bool, after: nat,
                    at: Instant, id: nat)
    requires Valid(t) && id < |t.requests| && t.requests[id].status in {Completed, Failed}
    ensures Settled(t, FailStep(t, other, token, version, retryable, after, at), id)
  {
  }

  lemma SettledComplete(t: Tables, s: Submission, at: Instant, maxRows: nat, id: nat)
    requires Valid(t) && id < |t.requests| && t.requests[id].status in {Completed, Failed}
    ensures Settled(t, CompleteStep(t, s.requestId, s.token, s.version, s.rows, s.latestDate, s.dataComplete,
                                    StableHash(s.rows), at), id)
  {
    var verdict := CheckClaim(t, s.requestId, s.token, s.version, at);
    if verdict.Admitted? {
      RowsOfAppend(t.results, Stored(s.rows, s.requestId, verdict.attemptId), id);
      RowsOfStored(s.rows, s.requestId, verdict.attemptId, id);
    }
  }

  lemma SettledStatus(t: Tables, u: Tables, id: nat)
    requires id < |t.requests| && Settled(t, u, id)
    ensures id < |u.requests| && u.requests[id].status == t.requests[id].status
  {
  }

  lemma SettledTransitive(t: Tables, u: Tables, v: Tables, id: nat)
    requires id < |t.requests| && Settled(t, u, id)
    requires id < |u.requests| && Settled(u, v, id)
    ensures Settled(t, v, id)
  {
    hide RowsOf;
  }

  /** Once completed or failed, a request is never claimed, completed or failed again. */
  lemma {:induction false} TerminalForever(t: Tables, steps: seq<Step>, maxRows: nat, id: nat)
    requires Valid(t) && id < |t.requests| && t.requests[id].status in {Completed, Failed}
    ensures Settled(t, Run(t, steps, maxRows), id)
    decreases |steps|
  {
    if steps != [] {
      hide Settled, Valid, Next;
      TerminalForever(t, steps[..|steps| - 1], maxRows, id);
      var u := Run(t, steps[..|steps| - 1], maxRows);
      RunKeeps(t, steps[..|steps| - 1], maxRows);
      SettledStatus(t, u, id);
      SettledStep(u, steps[|steps| - 1], maxRows, id);
      SettledTransitive(t, u, Next(u, steps[|steps| - 1], maxRows), id);
    } else {
      hide Valid, Next;
    }
  }

  /** All result rows of a request belong to its one completed attempt and
      number that attempt's row count. */
  lemma ResultsBelongToOneAttempt(steps: seq<Step>, maxRows: nat, k: nat)
    requires k < |Run(EMPTY, steps, maxRows).results|
    ensures var t := Run(EMPTY, steps, maxRows); var row := t.results[k];
      && row.requestId < |t.requests| && t.requests[row.requestId].status == Completed
      && Some(row.attemptId) == LatestAttempt(t.attempts, row.requestId)
      && t.attempts[row.attemptId].status == Succeeded
      && t.attempts[row.attemptId].rowCount == |RowsOf(t.results, row.requestId)|
      && (forall j :: 0 <= j < |t.attempts| && t.attempts[j].requestId == row.requestId
                      && t.attempts[j].status == Succeeded
            ==> j == row.attemptId)
  {
    RunKeeps(EMPTY, steps, maxRows);
    var t := Run(EMPTY, steps, maxRows);
    var row := t.results[k];
    LatestIsLast(t, row.requestId);
    SoleNumber(t, row.attemptId, LatestAttempt(t.attempts, row.requestId).value);
    forall j | 0 <= j < |t.attempts| && t.attempts[j].requestId == row.requestId && t.attempts[j].status == Succeeded
      ensures j == row.attemptId
    {
      SoleNumber(t, j, row.attemptId);
    }
  }

  // ---- retries that run out --------------------------------------------

  ghost predicate Exhausted(r: Request) { r.status == Pending && r.attemptCount >= r.maxAttempts }

  lemma ExhaustedStays(t: Tables, step: Step, maxRows: nat, id: nat)
    requires Valid(t) && id < |t.requests| && Exhausted(t.requests[id])
    ensures id < |Next(t, step, maxRows).requests| && Exhausted(Next(t, step, maxRows).requests[id])
  {
  }

  lemma {:induction false} ExhaustedIsStuck(t: Tables, steps: seq<Step>, maxRows: nat, id: nat)
    requires Valid(t) && id < |t.requests| && Exhausted(t.requests[id])
    ensures id < |Run(t, steps, maxRows).requests|
    ensures Exhausted(Run(t, steps, maxRows).requests[id])
    decreases |steps|
  {
    if steps != [] {
      ExhaustedIsStuck(t, steps[..|steps| - 1], maxRows, id);
      RunKeeps(t, steps[..|steps| - 1], maxRows);
      hide Valid, Next;
      ExhaustedStays(Run(t, steps[..|steps| - 1], maxRows), steps[|steps| - 1], maxRows, id);
    }
  }

  /** A pending request can be claimed again by some step sequence exactly when
      it has attempts left; otherwise it stays pending forever. */
  lemma PendingClaimableIff(t: Tables, maxRows: nat, id: nat, unused: Token)
    requires Valid(t) && id < |t.requests| && t.requests[id].status == Pending && unused !in t.issued
    ensures (exists steps :: id < |Run(t, steps, maxRows).requests|
                             && Run(t, steps, maxRows).requests[id].status == Processing)
            <==> t.requests[id].attemptCount < t.requests[id].maxAttempts
  {
    if t.requests[id].attemptCount < t.requests[id].maxAttempts {
      var claim := Grant(id, t.requests[id].nextAttemptAt, 1, unused);
      assert Run(t, [], maxRows) == t;
      assert [claim][..0] == [];
      assert Run(t, [claim], maxRows) == Next(t, claim, maxRows);
      assert Run(t, [claim], maxRows).requests[id].status == Processing;
    } else {
      forall steps ensures !(id < |Run(t, steps, maxRows).requests|
                             && Run(t, steps, maxRows).requests[id].status == Processing)
      {
        ExhaustedIsStuck(t, steps, maxRows, id);
      }
    }
  }

  /** Only a lease that expires on the last allowed attempt leaves a request so stuck. */
  lemma ExhaustionCause(t: Tables, step: Step, maxRows: nat, id: nat)
    requires Valid(t) && id < |Next(t, step, maxRows).requests|
    requires Exhausted(Next(t, step, maxRows).requests[id])
    ensures id < |t.requests|
    ensures !Exhausted(t.requests[id]) <==>
              && step.Expire? && step.id == id && Expired(t.requests[id], step.at)
              && t.requests[id].attemptCount == t.requests[id].maxAttempts
  {
  }

  // ---- how long claims and delays last ---------------------------------

  /** A granted claim is accepted from the grant until its lease ends, and no longer. */
  lemma ClaimLasts(t: Tables, id: nat, at: Instant, lease: nat, token: Token, now: Instant)
    requires Valid(t) && id < |t.requests| && Ready(t.requests[id], at) && lease >= 1 && token !in t.issued
    ensures CheckClaim(GrantStep(t, id, at, lease, token), id, token, Some(t.requests[id].claimVersion + 1),
                       now).Admitted?
       <==> now < at + lease
  {
    hide Valid, CheckClaim;
    GrantKeeps(t, id, at, lease, token);
    ClaimAcceptedIff(GrantStep(t, id, at, lease, token), id, token, Some(t.requests[id].claimVersion + 1), now);
  }

  /** The lease of a request is out. */
  predicate LeaseOut(r: Request, now: Instant) {
    r.status == Processing && r.leaseExpiresAt.Some? && now >= r.leaseExpiresAt.value
  }

  /** Which check a refused claim fails: the checks are asked in this order, and the last
      one never fails. */
  lemma RefusalMeans(t: Tables, id: nat, token: Token, version: Option<nat>, now: Instant)
    requires Valid(t)
    ensures var v := CheckClaim(t, id, token, version, now);
      && (v == NotFound <==> id >= |t.requests|)
      && (v == NotProcessing <==> id < |t.requests| && t.requests[id].status != Processing)
      && (v == LeaseExpired <==> id < |t.requests| && LeaseOut(t.requests[id], now))
      && (v == InvalidToken <==> id < |t.requests| && t.requests[id].status == Processing
                                 && !LeaseOut(t.requests[id], now) && !Holds(t, id, token))
      && (v == StaleVersion <==> Holds(t, id, token) && !LeaseOut(t.requests[id], now)
                                 && version != Some(t.requests[id].claimVersion))
      && v != NoActiveAttempt
  {
    ClaimAcceptedIff(t, id, token, version, now);
  }
}
