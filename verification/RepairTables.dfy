/** The tables of the Sam repair queue and its atomic steps as functions of the
    table state.  Row ids are positions; a token hash is the token itself and a
    result hash is the canonically sorted row list it digests. */
module RepairTables {
  import opened Common
  import opened Sorting

  datatype RequestStatus = Pending | Processing | Completed | Failed
  datatype AttemptStatus = Running | Succeeded | Broken
  datatype ApplicationStatus = NotApplied | Applied | Conflict | Rejected
  datatype Source = Kiwoom | KiwoomRest | OtherSource(name: nat)
  datatype Operation = DailyChart | OtherOperation(name: nat)

  type Token = nat
  type ResultHash = seq<ResultRow>

  /** Prices in ten-thousandths, the scale of the price columns. */
  datatype Ohlcv = Ohlcv(open: int, high: int, low: int, close: int, volume: int, changeRate: Option<int>)

  datatype ResultRow = ResultRow(symbol: nat, tradeDate: Date, source: Source, adjusted: bool, price: Ohlcv)

  datatype DedupeKey = DedupeKey(jobId: Option<nat>, symbol: nat, tradeDate: Date, errorType: nat, adjusted: bool)

  datatype Request = Request(
    key: DedupeKey, historyFrom: Option<Date>, operation: Operation,
    status: RequestStatus, application: ApplicationStatus,
    attemptCount: nat, maxAttempts: nat, claimVersion: nat,
    claimToken: Option<Token>, leaseExpiresAt: Option<Instant>,
    nextAttemptAt: Instant, requestedAt: Instant)

  datatype Attempt = Attempt(
    requestId: nat, attemptNo: nat, status: AttemptStatus, rowCount: nat,
    latestDate: Option<Date>, dataComplete: bool, resultHash: Option<ResultHash>)

  datatype StoredResult = StoredResult(requestId: nat, attemptId: nat, row: ResultRow)

  /** `issued` remembers every claim token handed out so far. */
  datatype Tables = Tables(
    requests: seq<Request>, attempts: seq<Attempt>, results: seq<StoredResult>, issued: set<Token>)

  const EMPTY := Tables([], [], [], {})

  // ---- queries ---------------------------------------------------------

  function FindKey(requests: seq<Request>, key: DedupeKey): (r: Option<nat>)
    ensures r.Some? ==> r.value < |requests| && requests[r.value].key == key
    ensures r.None? ==> forall q :: q in requests ==> q.key != key
  {
    if requests == [] then None
    else if requests[|requests| - 1].key == key then Some(|requests| - 1)
    else FindKey(requests[..|requests| - 1], key)
  }

  /** The attempt of a request with the highest number. */
  function LatestAttempt(attempts: seq<Attempt>, id: nat): (r: Option<nat>)
    ensures r.Some? ==> r.value < |attempts| && attempts[r.value].requestId == id
    ensures r.Some? ==> forall j :: 0 <= j < |attempts| && attempts[j].requestId == id ==>
                                      attempts[j].attemptNo <= attempts[r.value].attemptNo
    ensures r.None? ==> forall j :: 0 <= j < |attempts| ==> attempts[j].requestId != id
  {
    if attempts == [] then None
    else
      var n := |attempts| - 1;
      var rest := LatestAttempt(attempts[..n], id);
      if attempts[n].requestId == id
         && (rest.None? || attempts[rest.value].attemptNo <= attempts[n].attemptNo)
      then Some(n) else rest
  }

  /** The running attempt carrying the given number. */
  function ActiveAttempt(attempts: seq<Attempt>, id: nat, no: nat): (r: Option<nat>)
    ensures r.Some? ==> r.value < |attempts| && IsActive(attempts[r.value], id, no)
    ensures r.None? ==> forall j :: 0 <= j < |attempts| ==> !IsActive(attempts[j], id, no)
  {
    if attempts == [] then None
    else if IsActive(attempts[|attempts| - 1], id, no) then Some(|attempts| - 1)
    else ActiveAttempt(attempts[..|attempts| - 1], id, no)
  }

  predicate IsActive(a: Attempt, id: nat, no: nat) {
    a.requestId == id && a.attemptNo == no && a.status == Running
  }

  /** Result rows of one request, in id order. */
  function RowsOf(results: seq<StoredResult>, id: nat): seq<ResultRow> {
    if results == [] then []
    else (if results[0].requestId == id then [results[0].row] else []) + RowsOf(results[1..], id)
  }

  predicate Expired(r: Request, now: Instant) {
    r.status == Processing && r.leaseExpiresAt.Some? && r.leaseExpiresAt.value <= now
  }

  predicate Ready(r: Request, now: Instant) {
    r.status == Pending && r.nextAttemptAt <= now && r.attemptCount < r.maxAttempts
  }

  /** Ids below `n` whose lease has run out, ascending. */
  function ExpiredIds(requests: seq<Request>, now: Instant, n: nat): (ids: seq<nat>)
    requires n <= |requests|
    ensures forall i: nat :: i in ids <==> i < n && Expired(requests[i], now)
  {
    if n == 0 then []
    else ExpiredIds(requests, now, n - 1) + (if Expired(requests[n - 1], now) then [n - 1] else [])
  }

  /** The ready, unlocked request that is oldest by (requested_at, id). */
  function FirstReady(requests: seq<Request>, now: Instant, locked: set<nat>, n: nat): (r: Option<nat>)
    requires n <= |requests|
    ensures r.Some? ==> r.value < n && Ready(requests[r.value], now) && r.value !in locked
    ensures r.Some? ==> forall j :: 0 <= j < n && Ready(requests[j], now) && j !in locked && j != r.value ==>
      requests[r.value].requestedAt < requests[j].requestedAt
      || (requests[r.value].requestedAt == requests[j].requestedAt && r.value < j)
    ensures r.None? ==> forall j :: 0 <= j < n && Ready(requests[j], now) ==> j in locked
  {
    if n == 0 then None
    else
      var best := FirstReady(requests, now, locked, n - 1);
      if Ready(requests[n - 1], now) && n - 1 !in locked
         && (best.None? || requests[n - 1].requestedAt < requests[best.value].requestedAt)
      then Some(n - 1) else best
  }

  // ---- claim check -----------------------------------------------------

  datatype ClaimVerdict = Admitted(attemptId: nat) | NotFound | NotProcessing | LeaseExpired
                        | InvalidToken | StaleVersion | NoActiveAttempt

  /** `_locked_claim`: the checks a complete or fail call has to pass, in order. */
  function CheckClaim(t: Tables, id: nat, token: Token, version: Option<nat>, now: Instant): ClaimVerdict {
    if id >= |t.requests| then NotFound
    else
      var r := t.requests[id];
      if r.status != Processing then NotProcessing
      else if r.leaseExpiresAt.Some? && r.leaseExpiresAt.value <= now then LeaseExpired
      else if r.claimToken != Some(token) then InvalidToken
      else if version != Some(r.claimVersion) then StaleVersion
      else match ActiveAttempt(t.attempts, id, r.attemptCount)
           case None => NoActiveAttempt
           case Some(a) => Admitted(a)
  }

  // ---- submissions -----------------------------------------------------

  predicate ValidOhlcv(p: Ohlcv) {
    && p.open > 0 && p.high > 0 && p.low > 0 && p.close > 0
    && p.high >= p.low && p.high >= p.open && p.high >= p.close
    && p.low <= p.open && p.low <= p.close
    && p.volume >= 0
  }

  predicate AllowedSource(s: Source) { s == Kiwoom || s == KiwoomRest }

  function RowKey(r: ResultRow): Key { (r.symbol, r.tradeDate, 0) }

  function DateKey(r: ResultRow): Key { (r.tradeDate, 0, 0) }

  /** `stable_result_hash`: the rows in canonical order. */
  function StableHash(rows: seq<ResultRow>): ResultHash { SortBy(rows, RowKey) }

  ghost predicate DistinctDates(rows: seq<ResultRow>) {
    DistinctKeys(rows, DateKey)
  }

  function LatestDate(rows: seq<ResultRow>): (d: Date)
    requires rows != []
    ensures exists r :: r in rows && r.tradeDate == d
    ensures forall r :: r in rows ==> r.tradeDate <= d
  {
    if |rows| == 1 then rows[0].tradeDate
    else
      var rest := LatestDate(rows[1..]);
      assert rows == [rows[0]] + rows[1..];
      assert rows[0] in rows;
      if rows[0].tradeDate > rest then rows[0].tradeDate else rest
  }

  datatype Executor = SamKiwoomCli | OtherExecutor
  datatype Mode = Demo | Real | OtherMode

  datatype Submission = Submission(
    requestId: nat, token: Token, version: Option<nat>,
    operation: Operation, symbol: nat, fromDate: Date, toDate: Date, adjusted: bool,
    executor: Executor, mode: Mode, latestDate: Date, rowCount: nat, dataComplete: bool,
    rows: seq<ResultRow>, resultHash: Option<ResultHash>)

  /** What a submitted row owes to the submission that carries it. */
  predicate ValidSubmittedRow(row: ResultRow, s: Submission) {
    && row.symbol == s.symbol && row.adjusted == s.adjusted && AllowedSource(row.source)
    && s.fromDate <= row.tradeDate <= s.toDate
    && ValidOhlcv(row.price)
  }

  /** The whole submission contract of `RepairQueueService.complete`. */
  ghost predicate ValidSubmission(r: Request, s: Submission, maxRows: nat) {
    && s.operation == r.operation == DailyChart
    && s.symbol == r.key.symbol
    && s.toDate == r.key.tradeDate
    && (r.historyFrom.Some? ==> s.fromDate == r.historyFrom.value)
    && s.adjusted == r.key.adjusted
    && s.executor == SamKiwoomCli && s.mode != OtherMode && s.dataComplete
    && s.rows != [] && |s.rows| == s.rowCount && |s.rows| <= maxRows
    && (forall row :: row in s.rows ==> ValidSubmittedRow(row, s))
    && DistinctDates(s.rows)
    && s.latestDate == LatestDate(s.rows)
    && (s.resultHash.Some? ==> s.resultHash.value == StableHash(s.rows))
  }

  // ---- atomic steps ----------------------------------------------------

  datatype Step =
    | Enqueue(key: DedupeKey, historyFrom: Option<Date>, operation: Operation, maxAttempts: nat, at: Instant)
    | Expire(id: nat, at: Instant)
    | Grant(id: nat, at: Instant, lease: nat, token: Token)
    | Complete(submission: Submission, at: Instant)
    | Fail(id: nat, token: Token, version: Option<nat>, retryable: bool, retryAfter: nat, at: Instant)
    | SetApplication(id: nat, application: ApplicationStatus)

  /** A fresh row per dedupe key; a repeated key changes nothing. */
  function EnqueueStep(t: Tables, key: DedupeKey, historyFrom: Option<Date>, operation: Operation,
                       maxAttempts: nat, at: Instant): Tables
  {
    if maxAttempts < 1 || FindKey(t.requests, key).Some? then t
    else t.(requests := t.requests + [Request(
                          key, historyFrom, operation, Pending, NotApplied, 0, maxAttempts, 0,
                          None, None, at, at)])
  }

  /** A request leaving its lease for `status`, to be retried from `next` on. */
  function Released(r: Request, status: RequestStatus, next: Instant): Request {
    r.(status := status, claimToken := None, leaseExpiresAt := None, nextAttemptAt := next)
  }

  function ExpireStep(t: Tables, id: nat, at: Instant): Tables {
    if id >= |t.requests| || !Expired(t.requests[id], at) then t
    else
      var latest := LatestAttempt(t.attempts, id);
      t.(requests := t.requests[id := Released(t.requests[id], Pending, at)],
         attempts := if latest.Some? && t.attempts[latest.value].status == Running
                     then t.attempts[latest.value := t.attempts[latest.value].(status := Broken)]
                     else t.attempts)
  }

  function GrantStep(t: Tables, id: nat, at: Instant, lease: nat, token: Token): Tables {
    if id >= |t.requests| || !Ready(t.requests[id], at) || token in t.issued then t
    else
      var r := t.requests[id];
      t.(requests := t.requests[id := r.(
                                    status := Processing, attemptCount := r.attemptCount + 1,
                                    claimVersion := r.claimVersion + 1, claimToken := Some(token),
                                    leaseExpiresAt := Some(at + lease))],
         attempts := t.attempts + [Attempt(id, r.attemptCount + 1, Running, 0, None, false, None)],
         issued := t.issued + {token})
  }

  function Stored(rows: seq<ResultRow>, id: nat, attempt: nat): (s: seq<StoredResult>)
    ensures |s| == |rows|
    ensures forall i :: 0 <= i < |rows| ==> s[i] == StoredResult(id, attempt, rows[i])
  {
    seq(|rows|, i requires 0 <= i < |rows| => StoredResult(id, attempt, rows[i]))
  }

  function CompleteStep(t: Tables, id: nat, token: Token, version: Option<nat>, rows: seq<ResultRow>,
                        latestDate: Date, dataComplete: bool, resultHash: ResultHash, at: Instant): Tables
  {
    match CheckClaim(t, id, token, version, at)
    case Admitted(a) =>
      t.(requests := t.requests[id := Released(t.requests[id], Completed, t.requests[id].nextAttemptAt)],
         attempts := t.attempts[a := t.attempts[a].(
                                  status := Succeeded, rowCount := |rows|, latestDate := Some(latestDate),
                                  dataComplete := dataComplete, resultHash := Some(resultHash))],
         results := t.results + Stored(rows, id, a))
    case _ => t
  }

  function FailStep(t: Tables, id: nat, token: Token, version: Option<nat>, retryable: bool,
                    retryAfter: nat, at: Instant): Tables
  {
    match CheckClaim(t, id, token, version, at)
    case Admitted(a) =>
      var r := t.requests[id];
      var status := if retryable && r.attemptCount < r.maxAttempts then Pending else Failed;
      t.(requests := t.requests[id := Released(r, status, at + retryAfter)],
         attempts := t.attempts[a := t.attempts[a].(status := Broken)])
    case _ => t
  }

  function SetApplicationStep(t: Tables, id: nat, application: ApplicationStatus): Tables {
    if id >= |t.requests| then t
    else t.(requests := t.requests[id := t.requests[id].(application := application)])
  }

  /** One step; a refused step leaves the tables alone. */
  ghost function Next(t: Tables, step: Step, maxRows: nat): Tables {
    match step
    case Enqueue(key, from, op, max, at) => EnqueueStep(t, key, from, op, max, at)
    case Expire(id, at) => ExpireStep(t, id, at)
    case Grant(id, at, lease, token) => GrantStep(t, id, at, lease, token)
    case Complete(s, at) =>
      if s.requestId < |t.requests| && ValidSubmission(t.requests[s.requestId], s, maxRows)
      then CompleteStep(t, s.requestId, s.token, s.version, s.rows, s.latestDate, s.dataComplete,
                        StableHash(s.rows), at)
      else t
    case Fail(id, token, version, retryable, after, at) => FailStep(t, id, token, version, retryable, after, at)
    case SetApplication(id, application) => SetApplicationStep(t, id, application)
  }

  ghost function Run(t: Tables, steps: seq<Step>, maxRows: nat): Tables
    decreases |steps|
  {
    if steps == [] then t
    else Next(Run(t, steps[..|steps| - 1], maxRows), steps[|steps| - 1], maxRows)
  }

  /** `_requeue_expired`: the listed leases expire one after the other. */
  function ExpireAll(t: Tables, ids: seq<nat>, at: Instant): Tables
    decreases |ids|
  {
    if ids == [] then t else ExpireStep(ExpireAll(t, ids[..|ids| - 1], at), ids[|ids| - 1], at)
  }
}
