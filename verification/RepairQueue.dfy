/** The repair queue as it runs: a repository that updates its tables in place
    and the service that validates submissions before they reach it. */
module RepairQueue {
  import opened Common
  import opened Sorting
  import opened RepairTables
  import opened RepairProtocol

  datatype Claim = Claim(requestId: nat, token: Token, version: nat)

  /** Expiring leases never touches a request whose lease is not out. */
  lemma {:induction false} ExpireAllSkips(t: Tables, ids: seq<nat>, at: Instant, i: nat)
    requires i < |t.requests| && !Expired(t.requests[i], at)
    ensures |ExpireAll(t, ids, at).requests| == |t.requests|
    ensures ExpireAll(t, ids, at).requests[i] == t.requests[i]
    ensures ExpireAll(t, ids, at).issued == t.issued
    decreases |ids|
  {
    if ids != [] {
      ExpireAllSkips(t, ids[..|ids| - 1], at, i);
    }
  }

  lemma ExpireAllNext(t: Tables, ids: seq<nat>, at: Instant, k: nat)
    requires k < |ids|
    ensures ExpireAll(t, ids[..k + 1], at) == ExpireStep(ExpireAll(t, ids[..k], at), ids[k], at)
  {
    assert ids[..k + 1][..k] == ids[..k];
  }

  /** A requeue is a run of single expiries, so it keeps what runs keep. */
  lemma {:induction false} ExpireAllIsRun(t: Tables, ids: seq<nat>, at: Instant, maxRows: nat)
    ensures ExpireAll(t, ids, at) == Run(t, seq(|ids|, i requires 0 <= i < |ids| => Expire(ids[i], at)), maxRows)
    decreases |ids|
  {
    var steps := seq(|ids|, i requires 0 <= i < |ids| => Expire(ids[i], at));
    if ids != [] {
      var front := ids[..|ids| - 1];
      ExpireAllIsRun(t, front, at, maxRows);
      assert steps[..|ids| - 1] == seq(|front|, i requires 0 <= i < |front| => Expire(front[i], at));
    }
  }

  /** After a requeue no lease is out. */
  lemma {:induction false} ExpireAllClears(t: Tables, ids: seq<nat>, at: Instant, i: nat)
    requires i < |t.requests| && (i in ids || !Expired(t.requests[i], at))
    ensures |ExpireAll(t, ids, at).requests| == |t.requests|
    ensures !Expired(ExpireAll(t, ids, at).requests[i], at)
    decreases |ids|
  {
    if ids != [] {
      var front := ids[..|ids| - 1];
      assert ids == front + [ids[|ids| - 1]];
      if i in front || !Expired(t.requests[i], at) {
        ExpireAllClears(t, front, at, i);
      } else {
        ExpireAllLength(t, front, at);
      }
    }
  }

  lemma {:induction false} ExpireAllLength(t: Tables, ids: seq<nat>, at: Instant)
    ensures |ExpireAll(t, ids, at).requests| == |t.requests|
    decreases |ids|
  {
    if ids != [] {
      ExpireAllLength(t, ids[..|ids| - 1], at);
    }
  }

  /** The claim is in force before `end`, and from then on it is not. */
  ghost predicate InForceUntil(t: Tables, claim: Claim, end: Instant) {
    forall now: Instant ::
      CheckClaim(t, claim.requestId, claim.token, Some(claim.version), now).Admitted? <==> now < end
  }

  lemma GrantInForce(t: Tables, id: nat, at: Instant, lease: nat, token: Token)
    requires Valid(t) && id < |t.requests| && Ready(t.requests[id], at) && lease >= 1 && token !in t.issued
    ensures InForceUntil(GrantStep(t, id, at, lease, token), Claim(id, token, t.requests[id].claimVersion + 1),
                         at + lease)
  {
    hide Valid, CheckClaim, GrantStep;
    var granted, version := GrantStep(t, id, at, lease, token), t.requests[id].claimVersion + 1;
    forall now: Instant ensures CheckClaim(granted, id, token, Some(version), now).Admitted? <==> now < at + lease {
      ClaimLasts(t, id, at, lease, token, now);
    }
  }

  /** What the requeue makes of one request: with its lease out it goes back into the
      queue at once, if it has attempts left; any other stays as it is. */
  ghost predicate Requeued(before: Request, after: Request, now: Instant) {
    if LeaseOut(before, now) then
      && after.status == Pending && after.attemptCount == before.attemptCount && after.maxAttempts == before.maxAttempts
      && forall t: Instant :: Ready(after, t) <==> now <= t && before.attemptCount < before.maxAttempts
    else after == before
  }

  lemma {:induction false} ExpireAllRequeues(t: Tables, ids: seq<nat>, at: Instant, i: nat)
    requires i < |t.requests| && (i in ids || !LeaseOut(t.requests[i], at))
    ensures |ExpireAll(t, ids, at).requests| == |t.requests|
    ensures Requeued(t.requests[i], ExpireAll(t, ids, at).requests[i], at)
    decreases |ids|
  {
    if ids != [] {
      var front := ids[..|ids| - 1];
      assert ids == front + [ids[|ids| - 1]];
      ExpireAllLength(t, front, at);
      if i in front || !LeaseOut(t.requests[i], at) {
        ExpireAllRequeues(t, front, at, i);
      } else {
        ExpireAllOthers(t, front, at, i);
      }
    }
  }

  lemma {:induction false} ExpireAllOthers(t: Tables, ids: seq<nat>, at: Instant, i: nat)
    requires i < |t.requests| && i !in ids
    ensures |ExpireAll(t, ids, at).requests| == |t.requests|
    ensures ExpireAll(t, ids, at).requests[i] == t.requests[i]
    decreases |ids|
  {
    if ids != [] {
      assert ids == ids[..|ids| - 1] + [ids[|ids| - 1]];
      ExpireAllOthers(t, ids[..|ids| - 1], at, i);
    }
  }

  class CrawlRepairRepository {
    var requests: seq<Request>
    var attempts: seq<Attempt>
    var results: seq<StoredResult>
    ghost var issued: set<Token>

    ghost function State(): Tables
      reads this
    {
      Tables(requests, attempts, results, issued)
    }

    constructor ()
      ensures State() == EMPTY
      ensures Valid(State())
    {
      requests, attempts, results, issued := [], [], [], {};
    }

    /** Create a request once per dedupe key. */
    method Enqueue(key: DedupeKey, historyFrom: Option<Date>, operation: Operation, maxAttempts: nat, at: Instant)
      returns (id: Option<nat>, created: bool)
      requires Valid(State())
      modifies this
      ensures State() == EnqueueStep(old(State()), key, historyFrom, operation, maxAttempts, at)
      ensures id.None? <==> maxAttempts < 1
      ensures id.Some? ==> id.value < |requests| && requests[id.value].key == key
      ensures created <==> |requests| == |old(requests)| + 1
      ensures created ==> id.Some? && id.value == |old(requests)| && requests[..id.value] == old(requests)
      ensures created ==> forall t: Instant :: Ready(requests[id.value], t) <==> at <= t
      ensures id.Some? && !created ==> requests == old(requests)
      ensures Valid(State())
    {
      EnqueueKeeps(State(), key, historyFrom, operation, maxAttempts, at);
      if maxAttempts < 1 {
        return None, false;
      }
      var existing := FindKey(requests, key);
      if existing.Some? {
        return existing, false;
      }
      requests := requests + [Request(key, historyFrom, operation, Pending, NotApplied, 0, maxAttempts, 0,
                                      None, None, at, at)];
      return Some(|requests| - 1), true;
    }

    /** Put one request whose lease is out back into the queue. */
    method RequeueOne(id: nat, now: Instant)
      requires id < |requests|
      modifies this
      ensures State() == ExpireStep(old(State()), id, now)
    {
      if Expired(requests[id], now) {
        var latest := LatestAttempt(attempts, id);
        if latest.Some? && attempts[latest.value].status == Running {
          attempts := attempts[latest.value := attempts[latest.value].(status := Broken)];
        }
        requests := requests[id := requests[id].(
          status := Pending, claimToken := None, leaseExpiresAt := None, nextAttemptAt := now)];
      }
    }

    method RequeueExpired(now: Instant)
      requires Valid(State())
      modifies this
      ensures State() == ExpireAll(old(State()), ExpiredIds(old(requests), now, |old(requests)|), now)
      ensures |requests| == |old(requests)|
      ensures forall i :: 0 <= i < |requests| ==> Requeued(old(requests)[i], requests[i], now)
      ensures forall i :: 0 <= i < |requests| ==> !Expired(requests[i], now)
      ensures Valid(State())
    {
      ghost var was := State();
      var expired := ExpiredIds(requests, now, |requests|);
      var k := 0;
      while k < |expired|
        invariant 0 <= k <= |expired|
        invariant |requests| == |was.requests|
        invariant State() == ExpireAll(was, expired[..k], now)
      {
        ExpireAllNext(was, expired, now, k);
        assert expired[k] in expired;
        RequeueOne(expired[k], now);
        k := k + 1;
      }
      assert expired[..k] == expired;
      forall i | 0 <= i < |requests|
        ensures !Expired(requests[i], now) && Requeued(was.requests[i], requests[i], now)
      {
        ExpireAllClears(was, expired, now, i);
        ExpireAllRequeues(was, expired, now, i);
      }
      ExpireAllIsRun(was, expired, now, 0);
      RunKeeps(was, seq(|expired|, i requires 0 <= i < |expired| => Expire(expired[i], now)), 0);
    }

    /** Lease one ready request under a token never used before. */
    method Lease(i: nat, now: Instant, lease: nat, token: Token) returns (claim: Claim)
      requires Valid(State())
      requires i < |requests| && Ready(requests[i], now) && lease >= 1 && token !in issued
      modifies this
      ensures Valid(State())
      ensures State() == GrantStep(old(State()), i, now, lease, token)
      ensures claim == Claim(i, token, old(requests[i].claimVersion) + 1)
      ensures InForceUntil(State(), claim, now + lease)
    {
      hide Valid, InForceUntil;
      GrantKeeps(State(), i, now, lease, token);
      GrantInForce(State(), i, now, lease, token);
      var r := requests[i];
      requests := requests[i := r.(
        status := Processing, attemptCount := r.attemptCount + 1, claimVersion := r.claimVersion + 1,
        claimToken := Some(token), leaseExpiresAt := Some(now + lease))];
      attempts := attempts + [Attempt(i, r.attemptCount + 1, Running, 0, None, false, None)];
      issued := issued + {token};
      return Claim(i, token, r.claimVersion + 1);
    }

    /** Claim the oldest ready request.  The query sees the rows as they were
        before the requeue unless the session flushes first.  A worker without a
        name, or a lease of less than a second, is refused. */
    method ClaimOne(named: bool, now: Instant, lease: int, token: Token, flushed: bool, locked: set<nat>)
      returns (refused: bool, claim: Option<Claim>)
      requires Valid(State()) && token !in issued
      modifies this
      ensures Valid(State())
      ensures refused <==> !named || lease < 1
      ensures refused ==> claim.None? && State() == old(State())
      ensures !refused ==>
              var was := old(State());
              var requeued := ExpireAll(was, ExpiredIds(was.requests, now, |was.requests|), now);
              var seen := if flushed then requeued.requests else was.requests;
              match FirstReady(seen, now, locked, |seen|)
              case None => claim.None? && State() == requeued
              case Some(i) => State() == GrantStep(requeued, i, now, lease, token)
                              && i < |requeued.requests| && Ready(requeued.requests[i], now)
                                   && token !in requeued.issued
                              && claim == Some(Claim(i, token, requeued.requests[i].claimVersion + 1))
      ensures claim.Some? ==> InForceUntil(State(), claim.value, now + lease)
    {
      hide Valid, InForceUntil, Requeued, LeaseOut, CheckClaim, Expired;
      if !named || lease < 1 {
        return true, None;
      }
      ghost var was := State();
      var before := requests;
      RequeueExpired(now);
      var seen := if flushed then requests else before;
      var found := FirstReady(seen, now, locked, |seen|);
      if found.None? {
        return false, None;
      }
      ExpireAllSkipsReady(was, ExpiredIds(was.requests, now, |was.requests|), now, found.value, flushed);
      var granted := Lease(found.value, now, lease, token);
      return false, Some(granted);
    }

    /** `complete`: refuse unless the claim checks pass, then settle the request. */
    method Complete(id: nat, token: Token, version: Option<nat>, rows: seq<ResultRow>, latestDate: Date,
                    dataComplete: bool, resultHash: ResultHash, now: Instant) returns (verdict: ClaimVerdict)
      requires Valid(State())
      modifies this
      ensures verdict == CheckClaim(old(State()), id, token, version, now)
      ensures State() == CompleteStep(old(State()), id, token, version, rows, latestDate, dataComplete, resultHash, now)
      ensures !verdict.Admitted? ==> State() == old(State())
      ensures Valid(State())
    {
      CompleteKeeps(State(), id, token, version, rows, latestDate, dataComplete, resultHash, now);
      verdict := CheckTables(id, token, version, now);
      if verdict.Admitted? {
        var a := verdict.attemptId;
        results := results + Stored(rows, id, a);
        attempts := attempts[a := attempts[a].(
          status := Succeeded, rowCount := |rows|, latestDate := Some(latestDate),
          dataComplete := dataComplete, resultHash := Some(resultHash))];
        requests := requests[id := requests[id].(
          status := RequestStatus.Completed, claimToken := None, leaseExpiresAt := None)];
      }
    }

    /** `fail`: back to the queue if a retry is allowed and left, else for good. */
    method Fail(id: nat, token: Token, version: Option<nat>, retryable: bool, retryAfter: nat, now: Instant)
      returns (verdict: ClaimVerdict)
      requires Valid(State())
      modifies this
      ensures verdict == CheckClaim(old(State()), id, token, version, now)
      ensures State() == FailStep(old(State()), id, token, version, retryable, retryAfter, now)
      ensures !verdict.Admitted? ==> State() == old(State())
      ensures verdict.Admitted? ==>
                (requests[id].status == Pending <==> retryable && requests[id].attemptCount < requests[id].maxAttempts)
                && (requests[id].status != Pending ==> requests[id].status == RequestStatus.Failed)
                && forall t: Instant :: Ready(requests[id], t) <==>
                     retryable && requests[id].attemptCount < requests[id].maxAttempts && now + retryAfter <= t
      ensures Valid(State())
    {
      FailKeeps(State(), id, token, version, retryable, retryAfter, now);
      verdict := CheckTables(id, token, version, now);
      if verdict.Admitted? {
        var a := verdict.attemptId;
        attempts := attempts[a := attempts[a].(status := Broken)];
        var canRetry := retryable && requests[id].attemptCount < requests[id].maxAttempts;
        requests := requests[id := requests[id].(
          status := if canRetry then Pending else RequestStatus.Failed,
          nextAttemptAt := now + retryAfter, claimToken := None, leaseExpiresAt := None)];
      }
    }

    method SetApplicationStatus(id: nat, application: ApplicationStatus) returns (found: bool)
      requires Valid(State())
      modifies this
      ensures Valid(State())
      ensures found <==> id < |old(requests)|
      ensures State() == SetApplicationStep(old(State()), id, application)
    {
      SetApplicationKeeps(State(), id, application);
      found := id < |requests|;
      if found {
        requests := requests[id := requests[id].(application := application)];
      }
    }

    /** `_locked_claim`. */
    method CheckTables(id: nat, token: Token, version: Option<nat>, now: Instant) returns (verdict: ClaimVerdict)
      ensures verdict == CheckClaim(State(), id, token, version, now)
    {
      if id >= |requests| {
        return NotFound;
      }
      var r := requests[id];
      if r.status != Processing {
        return NotProcessing;
      }
      if r.leaseExpiresAt.Some? && r.leaseExpiresAt.value <= now {
        return LeaseExpired;
      }
      if r.claimToken != Some(token) {
        return InvalidToken;
      }
      if version != Some(r.claimVersion) {
        return StaleVersion;
      }
      var active := ActiveAttempt(attempts, id, r.attemptCount);
      return if active.None? then NoActiveAttempt else Admitted(active.value);
    }
  }

  /** A row seen ready, before or after the requeue, is still ready when granted. */
  lemma ExpireAllSkipsReady(t: Tables, ids: seq<nat>, at: Instant, i: nat, flushed: bool)
    requires flushed ==> i < |ExpireAll(t, ids, at).requests| && Ready(ExpireAll(t, ids, at).requests[i], at)
    requires !flushed ==> i < |t.requests| && Ready(t.requests[i], at)
    ensures i < |ExpireAll(t, ids, at).requests| && Ready(ExpireAll(t, ids, at).requests[i], at)
    ensures ExpireAll(t, ids, at).issued == t.issued
  {
    ExpireAllLength(t, ids, at);
    if !flushed {
      ExpireAllSkips(t, ids, at, i);
    }
    ExpireAllIssues(t, ids, at);
  }

  lemma {:induction false} ExpireAllIssues(t: Tables, ids: seq<nat>, at: Instant)
    ensures ExpireAll(t, ids, at).issued == t.issued
    decreases |ids|
  {
    if ids != [] {
      ExpireAllIssues(t, ids[..|ids| - 1], at);
    }
  }

  // ---- the service -----------------------------------------------------

  datatype SubmitResult = Accepted | RequestNotFound | ClaimRefused | Invalid

  class RepairQueueService {
    const repository: CrawlRepairRepository
    const maxRows: nat

    constructor (repository: CrawlRepairRepository, maxRows: nat)
      ensures this.repository == repository && this.maxRows == maxRows
    {
      this.repository := repository;
      this.maxRows := maxRows;
    }

    /** Row checks of `complete`: one pass with the set of dates seen so far. */
    method CheckRows(s: Submission) returns (ok: bool)
      ensures ok <==> (forall row :: row in s.rows ==> ValidSubmittedRow(row, s)) && DistinctDates(s.rows)
    {
      var seenDates: set<Date> := {};
      var i := 0;
      while i < |s.rows|
        invariant 0 <= i <= |s.rows|
        invariant forall row :: row in s.rows[..i] ==> ValidSubmittedRow(row, s)
        invariant forall d :: d in seenDates <==> exists row :: row in s.rows[..i] && row.tradeDate == d
        invariant DistinctDates(s.rows[..i])
      {
        var row := s.rows[i];
        assert s.rows[..i + 1] == s.rows[..i] + [row];
        assert row in s.rows;
        DistinctAppend(s.rows[..i], row, DateKey);
        if !ValidSubmittedRow(row, s) {
          return false;
        }
        if row.tradeDate in seenDates {
          DistinctPrefix(s.rows, i + 1, DateKey);
          return false;
        }
        seenDates := seenDates + {row.tradeDate};
        i := i + 1;
      }
      assert s.rows[..i] == s.rows;
      return true;
    }

    /** `complete`: accepted exactly when the submission meets the contract and
        its claim is in force; nothing changes otherwise. */
    method Complete(s: Submission, now: Instant) returns (r: SubmitResult)
      requires Valid(repository.State())
      modifies repository
      ensures Valid(repository.State())
      ensures r.RequestNotFound? <==> s.requestId >= |old(repository.requests)|
      ensures r.Accepted? <==>
                && s.requestId < |old(repository.requests)|
                && ValidSubmission(old(repository.requests[s.requestId]), s, maxRows)
                && CheckClaim(old(repository.State()), s.requestId, s.token, s.version, now).Admitted?
      ensures repository.State() == Next(old(repository.State()), Step.Complete(s, now), maxRows)
      ensures !r.Accepted? ==> repository.State() == old(repository.State())
      ensures r.Invalid? ==>
                s.requestId < |old(repository.requests)| && repository.requests[s.requestId].status == Processing
    {
      if s.requestId >= |repository.requests| {
        return RequestNotFound;
      }
      var request := repository.requests[s.requestId];
      if request.status != Processing {
        return ClaimRefused;
      }
      if s.operation != request.operation || s.operation != DailyChart || s.symbol != request.key.symbol
         || s.toDate != request.key.tradeDate || (request.historyFrom.Some? && s.fromDate != request.historyFrom.value)
         || s.adjusted != request.key.adjusted || s.executor != SamKiwoomCli || s.mode == OtherMode || !s.dataComplete
         || s.rows == [] || |s.rows| != s.rowCount || |s.rows| > maxRows
      {
        return Invalid;
      }
      var rowsOk := CheckRows(s);
      if !rowsOk || s.latestDate != LatestDate(s.rows)
         || (s.resultHash.Some? && s.resultHash.value != StableHash(s.rows))
      {
        return Invalid;
      }
      var verdict := repository.Complete(s.requestId, s.token, s.version, s.rows, s.latestDate, s.dataComplete,
                                         StableHash(s.rows), now);
      return if verdict.Admitted? then Accepted else ClaimRefused;
    }
  }

  /** A price the queue takes: open and close within the day's low and high, the low positive. */
  predicate Sane(p: Ohlcv) {
    0 <= p.volume && 0 < p.low && p.low <= p.open <= p.high && p.low <= p.close <= p.high
  }

  /** A row of the submission's symbol and range from an allowed source, with a sane price. */
  predicate Fitting(row: ResultRow, s: Submission) {
    && (row.symbol, row.adjusted) == (s.symbol, s.adjusted) && row.source in {Kiwoom, KiwoomRest}
    && !(row.tradeDate < s.fromDate) && !(s.toDate < row.tradeDate) && Sane(row.price)
  }

  /** What a submission must be for the request it answers, in plain terms: a complete daily
      chart of the request's symbol, up to its day and from its first day if it names one,
      made by the Sam tool in demo or real mode; at least one row and not too many, as many
      as announced; each day once, from an allowed source, with a sane price, the latest one
      as announced; and the digest, if sent, is that of the rows. */
  lemma SubmissionMeans(r: Request, s: Submission, maxRows: nat)
    ensures ValidSubmission(r, s, maxRows) <==>
        && r.operation == DailyChart && s.operation == DailyChart && s.symbol == r.key.symbol
        && s.adjusted == r.key.adjusted && s.toDate == r.key.tradeDate
        && (r.historyFrom != None ==> r.historyFrom == Some(s.fromDate))
        && s.executor != OtherExecutor && s.mode in {Demo, Real} && s.dataComplete
        && 0 < |s.rows| <= maxRows && s.rowCount == |s.rows|
        && (forall row :: row in s.rows ==> Fitting(row, s))
        && (forall i, j :: 0 <= i < j < |s.rows| ==> s.rows[i].tradeDate != s.rows[j].tradeDate)
        && (exists row :: row in s.rows && row.tradeDate == s.latestDate)
        && (forall row :: row in s.rows ==> row.tradeDate <= s.latestDate)
        && (s.resultHash == None || s.resultHash == Some(StableHash(s.rows)))
  {
    hide StableHash, DistinctDates, ValidSubmittedRow, Fitting, LatestDate;
    DatesDistinctIff(s.rows);
    RowsFit(s);
    if s.rows != [] {
      LatestIff(s.rows, s.latestDate);
    }
  }

  lemma RowsFit(s: Submission)
    ensures (forall row :: row in s.rows ==> ValidSubmittedRow(row, s))
       <==> (forall row :: row in s.rows ==> Fitting(row, s))
  {
    assert forall row: ResultRow :: ValidSubmittedRow(row, s) <==> Fitting(row, s);
    hide ValidSubmittedRow, Fitting;
  }

  lemma LatestIff(rows: seq<ResultRow>, d: Date)
    requires rows != []
    ensures d == LatestDate(rows)
       <==> (exists row :: row in rows && row.tradeDate == d) && forall row :: row in rows ==> row.tradeDate <= d
  {
  }

  lemma {:induction false} DatesDistinctIff(rows: seq<ResultRow>)
    ensures DistinctDates(rows) <==> forall i, j :: 0 <= i < j < |rows| ==> rows[i].tradeDate != rows[j].tradeDate
  {
    if rows != [] {
      var rest := rows[1..];
      DatesDistinctIff(rest);
      assert rows == [rows[0]] + rest;
      if DistinctDates(rows) {
        forall i, j | 0 <= i < j < |rows| ensures rows[i].tradeDate != rows[j].tradeDate {
          DistinctAt(rows, DateKey, i, j);
        }
      }
      if forall i, j :: 0 <= i < j < |rows| ==> rows[i].tradeDate != rows[j].tradeDate {
        forall i, j | 0 <= i < j < |rest| ensures rest[i].tradeDate != rest[j].tradeDate {
          assert rows[i + 1] == rest[i] && rows[j + 1] == rest[j];
        }
        forall y | y in rest ensures DateKey(y) != DateKey(rows[0]) {
          var j :| 0 <= j < |rest| && rest[j] == y;
          assert rows[j + 1] == y;
        }
      }
    }
  }

  lemma {:induction false} DistinctPrefix<T(!new)>(xs: seq<T>, n: nat, key: T -> Key)
    requires n <= |xs|
    ensures DistinctKeys(xs, key) ==> DistinctKeys(xs[..n], key)
    decreases |xs| - n
  {
    if n < |xs| {
      DistinctPrefix(xs, n + 1, key);
      assert xs[..n + 1] == xs[..n] + [xs[n]];
      DistinctAppend(xs[..n], xs[n], key);
    } else {
      assert xs[..n] == xs;
    }
  }
}
