/** One backfill session as a function of the stored state, the provider's answers
    and the database calls that raise. */
module BackfillSession {
  import opened Common
  import opened Sorting
  import opened PriceTable
  import opened HistoryCollector
  import opened BackfillPlan
  import opened BackfillState

  datatype Report = Report(
    requestsUsed: nat, targetCount: nat, expectedRows: nat, unresolvedTargets: nat, inserted: nat, same: nat,
    conflict: nat, failed: nat, unsupported: nat, completedTargets: nat, exhaustedTargets: nat)

  /** The session's own state, the last commit, the commits so far and the report. */
  datatype Desk = Desk(working: Db, committed: Db, log: seq<Db>, report: Report)

  /** Where, around one commit, a database call raises: before its effect is counted
      in the report, or only at the commit itself. */
  datatype Fault = NoFault | BeforeReport | AtCommit

  /** What raises while one target is processed: creating its iterator, saving the
      pages of the given numbers, the conclusion, the handler. */
  datatype Faults = Faults(factory: bool, pages: map<nat, Fault>, conclusion: Fault, handler: bool)

  datatype SessionFaults = SessionFaults(opening: bool, targets: seq<Faults>, exhaustion: bool, finish: bool)

  const SMOOTH := Faults(false, map[], NoFault, false)

  /** Creating the iterator raises, and so does marking an unresolved target. */
  const FAILING := Faults(true, map[], BeforeReport, false)

  /** What a session asks of every target alike. */
  datatype Session = Session(start: Date, end: Date, statuses: set<TargetStatus>, now: Instant)

  predicate HasTarget(db: Db, id: nat, i: nat) { id in db.runs && i < |db.runs[id].targets| }

  /** The run has `count` targets, and so has its stored form, if there is one. */
  predicate Shape(d: Desk, id: nat, count: nat) {
    && id in d.working.runs && |d.working.runs[id].targets| == count
    && (id in d.committed.runs ==> |d.committed.runs[id].targets| == count)
  }

  /** The target can be collected under the symbol. */
  predicate Ready(d: Desk, id: nat, i: nat, symbol: nat) {
    && HasTarget(d.working, id, i) && Shape(d, id, |d.working.runs[id].targets|)
    && d.working.runs[id].targets[i].symbolId == Some(symbol)
  }

  // ---- single steps ----------------------------------------------------

  function Commit(d: Desk): Desk { d.(committed := d.working, log := d.log + [d.working]) }

  function Rollback(d: Desk): Desk { d.(working := d.committed) }

  function OnRun(d: Desk, id: nat, r: Run): Desk { d.(working := WithRun(d.working, id, r)) }

  function OnTarget(d: Desk, id: nat, i: nat, t: TargetState): Desk
    requires HasTarget(d.working, id, i)
  {
    OnRun(d, id, WithTarget(d.working.runs[id], i, t))
  }

  /** What `_record_request_usage` adds: the counted requests, as far as the budget reaches. */
  function Delta(counted: nat, left: nat): nat { if counted < left then counted else left }

  function Record(d: Desk, id: nat, counted: nat, left: nat): Desk
    requires id in d.working.runs
  {
    var r := Used(d.working.runs[id], Delta(counted, left));
    OnRun(d, id, r).(report := if Delta(counted, left) > 0 then d.report.(requestsUsed := r.requestsUsed) else d.report)
  }

  function Merged(r: Report, s: SaveReport): Report {
    r.(inserted := r.inserted + s.inserted, same := r.same + s.same, conflict := r.conflict + s.conflict)
  }

  function SavedRows(d: Desk, id: nat, symbol: nat, rows: seq<Payload>): Saved
    requires id in d.working.runs
  {
    SaveAll(d.working.prices, symbol, d.working.runs[id].manifest.provider, false, SortBy(rows, PayloadKey))
  }

  /** Prices, observations and the date checkpoint of one page, not yet committed. */
  function SavePage(d: Desk, id: nat, i: nat, symbol: nat, rows: seq<Payload>, now: Instant): Desk
    requires HasTarget(d.working, id, i)
  {
    var saved := SavedRows(d, id, symbol, rows);
    var observed := Observed(symbol, SortBy(rows, PayloadKey), d.working.runs[id].manifest.provider, now);
    d.(working := PageSaved(d.working, id, i, saved.table, d.working.observations + observed, saved.report.confirmed),
       report := Merged(d.report, saved.report))
  }

  lemma ReadyStays(d: Desk, id: nat, i: nat, symbol: nat)
    requires Ready(d, id, i, symbol)
    ensures HasTarget(d.working, id, i)
    ensures forall counted, left :: Ready(Record(d, id, counted, left), id, i, symbol)
    ensures forall rows, now :: Ready(SavePage(d, id, i, symbol, rows, now), id, i, symbol)
    ensures Ready(Commit(d), id, i, symbol)
  {
    hide SaveAll;
  }

  function FaultAt(faults: map<nat, Fault>, n: nat): Fault { if n in faults then faults[n] else NoFault }

  function Wanted(expected: seq<Date>): Payload -> bool { (p: Payload) => p.tradeDate in expected }

  // ---- the pages of one target -----------------------------------------

  datatype Ending = Stopping | IteratorRaised | SaveRaised

  /** The desk after the pages of a target, the budget left, and the iterator as it
      was left.  On a raise the working state does not matter: it is rolled back. */
  datatype Trip = Trip(desk: Desk, left: nat, end: State, ending: Ending)

  function Pages(d: Desk, id: nat, i: nat, symbol: nat, req: HistoryRequest, script: seq<Fetch>, st: State,
                 faults: map<nat, Fault>, left: nat, now: Instant): (trip: Trip)
    requires |script| >= req.budget && Ready(d, id, i, symbol)
    ensures Ready(trip.desk, id, i, symbol)
    ensures Shape(trip.desk, id, |d.working.runs[id].targets|) && trip.left <= left
    decreases req.budget - st.summary.requestCount
  {
    YieldCounts(req, script, st);
    var (next, out) := Advance(req, script, st);
    var counted := next.summary.requestCount - st.summary.requestCount;
    var e, rest := Record(d, id, counted, left), left - Delta(counted, left);
    match out
    case Raised => Trip(d, left, next, IteratorRaised)
    case Stopped => Trip(e, rest, next, Stopping)
    case Yielded(page) =>
      var rows := Filter(page.rows, Wanted(d.working.runs[id].targets[i].expected));
      if rows == [] then Pages(e, id, i, symbol, req, script, next, faults, rest, now)
      else
        var saved := SavePage(e, id, i, symbol, rows, now);
        match FaultAt(faults, page.number)
        case BeforeReport => Trip(e, rest, next, SaveRaised)
        case AtCommit => Trip(saved, rest, next, SaveRaised)
        case NoFault => Pages(Commit(saved), id, i, symbol, req, script, next, faults, rest, now)
  }

  // ---- one target ------------------------------------------------------

  /** What the terminal reason of a traversal makes of the target. */
  function Concluding(t: TargetState, terminal: Option<Terminal>): TargetState {
    match terminal
    case Some(CollectionStartReached) => Collected(t)
    case Some(ProviderExhausted) => Collected(t)
    case Some(FailedFetch) => Rejected(t, FetchFailure)
    case Some(ProviderUnsupported) => Rejected(t, Unsupported)
    case _ => t
  }

  /** Traversals that end at the budget or in an anomaly conclude nothing. */
  predicate Concludes(terminal: Option<Terminal>) {
    terminal in {Some(CollectionStartReached), Some(ProviderExhausted), Some(FailedFetch), Some(ProviderUnsupported)}
  }

  function ConcludingReport(r: Report, terminal: Option<Terminal>): Report {
    match terminal
    case Some(FailedFetch) => r.(failed := r.failed + 1)
    case Some(ProviderUnsupported) => r.(failed := r.failed + 1, unsupported := r.unsupported + 1)
    case _ => r
  }

  /** A desk, the budget left, and whether the target raised. */
  datatype Attempted = Attempted(desk: Desk, left: nat, raised: bool)

  /** One mark and its commit: `marked` is the desk with both mark and report. */
  function Settle(d: Desk, marked: Desk, fault: Fault, left: nat): Attempted {
    match fault
    case NoFault => Attempted(Commit(marked), left, false)
    case BeforeReport => Attempted(d, left, true)
    case AtCommit => Attempted(marked, left, true)
  }

  predicate Unresolved(t: TargetState) { t.providerCode.None? || t.symbolId.None? }

  /** No iterator can be created: creating it raises, as it always does for a range
      that ends before it starts. */
  predicate NoIterator(s: Session, faults: Faults) { faults.factory || s.end < s.start }

  /** The provider can be asked for the target. */
  predicate Collectable(t: TargetState, s: Session) { !Unresolved(t) && s.start <= s.end }

  /** The `try` block. */
  function Attempt(d: Desk, id: nat, i: nat, s: Session, script: seq<Fetch>, faults: Faults, left: nat): (a: Attempted)
    requires |script| >= left && HasTarget(d.working, id, i) && Shape(d, id, |d.working.runs[id].targets|)
    ensures Shape(a.desk, id, |d.working.runs[id].targets|) && a.left <= left
  {
    var t := d.working.runs[id].targets[i];
    if Unresolved(t) then
      var marked := OnTarget(d, id, i, Rejected(t, UnresolvedIdentity))
                    .(report := d.report.(failed := d.report.failed + 1));
      Settle(d, marked, faults.conclusion, left)
    else if NoIterator(s, faults) then Attempted(d, left, true)
    else
      var trip := Pages(d, id, i, t.symbolId.value, HistoryRequest(s.start, s.end, None, left), script, FRESH,
                        faults.pages, left, s.now);
      if trip.ending != Stopping then Attempted(trip.desk, trip.left, true)
      else Conclude(trip.desk, id, i, trip.end.summary.terminal, faults.conclusion, trip.left)
  }

  function Conclude(d: Desk, id: nat, i: nat, terminal: Option<Terminal>, fault: Fault, left: nat): (a: Attempted)
    requires HasTarget(d.working, id, i) && Shape(d, id, |d.working.runs[id].targets|)
    ensures Shape(a.desk, id, |d.working.runs[id].targets|) && a.left == left
  {
    if !Concludes(terminal) then Attempted(d, left, false)
    else
      var marked := OnTarget(d, id, i, Concluding(d.working.runs[id].targets[i], terminal))
                    .(report := ConcludingReport(d.report, terminal));
      Settle(d, marked, fault, left)
  }

  // ---- the loop over targets -------------------------------------------

  predicate Skipped(t: TargetState, s: Session) { t.status == Completed || t.status !in s.statuses }

  /** The loop went through, leaving targets from `reached` on for more budget; or the
      run was gone after a rollback; or a commit outside any `try` block raised. */
  datatype Sweep =
    | Swept(desk: Desk, left: nat, reached: nat, clean: bool)
    | Lost(desk: Desk)
    | Escaped(desk: Desk)

  function DeskOf(sweep: Sweep): Desk {
    match sweep
    case Swept(d, _, _, _) => d
    case Lost(d) => d
    case Escaped(d) => d
  }

  /** The handler's mark, once the session is rolled back. */
  function Failing(d: Desk, id: nat, i: nat): Desk
    requires HasTarget(d.working, id, i)
  {
    OnTarget(d, id, i, Rejected(d.working.runs[id].targets[i], WriteFailure))
    .(report := d.report.(failed := d.report.failed + 1))
  }

  function Waiting(d: Desk, id: nat, i: nat, s: Session): Desk
    requires HasTarget(d.working, id, i)
  {
    var waiting := Filter(d.working.runs[id].targets[i..], (t: TargetState) => t.status in s.statuses);
    OnRun(d, id, d.working.runs[id].(status := BudgetExhausted))
    .(report := d.report.(exhaustedTargets := d.report.exhaustedTargets + |waiting|))
  }

  ghost predicate Fits(scripts: seq<seq<Fetch>>, faults: SessionFaults, count: nat, budget: nat) {
    && |scripts| >= count && |faults.targets| >= count
    && forall k :: 0 <= k < count ==> |scripts[k]| >= budget
  }

  function Loop(d: Desk, id: nat, s: Session, scripts: seq<seq<Fetch>>, faults: SessionFaults, count: nat, i: nat,
                left: nat, clean: bool): (sweep: Sweep)
    requires Shape(d, id, count) && i <= count && Fits(scripts, faults, count, left)
    ensures sweep.Swept? ==> Shape(sweep.desk, id, count) && sweep.left <= left && i <= sweep.reached <= count
    decreases count - i
  {
    if i == count then Swept(d, left, count, clean)
    else if Skipped(d.working.runs[id].targets[i], s) then Loop(d, id, s, scripts, faults, count, i + 1, left, clean)
    else if left < 1 then
      if faults.exhaustion then Escaped(d) else Swept(Commit(Waiting(d, id, i, s)), left, i, clean)
    else
      var a := Attempt(d, id, i, s, scripts[i], faults.targets[i], left);
      if !a.raised then Loop(a.desk, id, s, scripts, faults, count, i + 1, a.left, clean)
      else
        var e := Rollback(a.desk);
        if id !in e.working.runs then Lost(e)
        else if faults.targets[i].handler then Escaped(e)
        else Loop(Commit(Failing(e, id, i)), id, s, scripts, faults, count, i + 1, a.left, false)
  }

  // ---- the session -----------------------------------------------------

  datatype Outcome = Ok | PlanRefused | BudgetRefused | RunLost | Interrupted

  datatype Result = Result(outcome: Outcome, desk: Desk, left: nat, reached: nat, clean: bool)

  function Expected(targets: seq<TargetState>): nat
    decreases |targets|
  {
    if targets == [] then 0 else Expected(targets[..|targets| - 1]) + |targets[|targets| - 1].expected|
  }

  function OpeningReport(r: Run): Report {
    Report(r.requestsUsed, |r.targets|, Expected(r.targets), |Filter(r.targets, Unresolved)|, 0, 0, 0, 0, 0, 0, 0)
  }

  /** The run a session starts from. */
  function Starting(db: Db, id: nat, p: Plan): Run { if id in db.runs then db.runs[id] else NewRun(p) }

  /** Why `create_or_resume` or `extend_request_budget` refuse, if they do. */
  function Refusal(db: Db, id: nat, p: Plan, additional: nat): Option<Outcome> {
    if id in db.runs && db.runs[id].manifest != Serialized(p) then Some(PlanRefused)
    else if additional > 0 && (id !in db.runs || db.runs[id].manifest.dryRun) then Some(BudgetRefused)
    else None
  }

  function Authorized(db: Db, id: nat, p: Plan, additional: nat): Run {
    var r := Starting(db, id, p);
    r.(requestBudget := r.requestBudget + additional)
  }

  /** The budget a session may spend. */
  function Unspent(r: Run): nat { if r.requestBudget > r.requestsUsed then r.requestBudget - r.requestsUsed else 0 }

  /** The desk of a session that was not refused: the run created or its budget
      extended, and nothing committed yet. */
  function Open(db: Db, id: nat, p: Plan, additional: nat): Desk {
    var r := Authorized(db, id, p, additional);
    Desk(WithRun(db, id, r), db, [], OpeningReport(r))
  }

  function CloseRun(d: Desk, id: nat): Desk
    requires id in d.working.runs
  {
    var r := Finalized(d.working.runs[id]);
    Commit(OnRun(d, id, r).(report := d.report.(completedTargets := |Filter(r.targets, IsCompleted)|)))
  }

  function Closed(outcome: Outcome, d: Desk): Result { Result(outcome, d, 0, 0, false) }

  /** `execute`. */
  function Execute(db: Db, id: nat, p: Plan, additional: nat, s: Session, scripts: seq<seq<Fetch>>,
                   faults: SessionFaults): Result
    requires var r := Authorized(db, id, p, additional); Fits(scripts, faults, |r.targets|, r.requestBudget)
  {
    var r := Authorized(db, id, p, additional);
    var d := Open(db, id, p, additional);
    var refusal := Refusal(db, id, p, additional);
    if refusal.Some? then Closed(refusal.value, Desk(db, db, [], OpeningReport(r)))
    else if faults.opening then Closed(Interrupted, d)
    else if p.dryRun then
      if faults.finish then Closed(Interrupted, d)
      else Result(Ok, Commit(OnRun(d, id, r.(status := DryRun))), Unspent(r), 0, true)
    else
      match Loop(d, id, s, scripts, faults, |r.targets|, 0, Unspent(r), true)
      case Lost(e) => Closed(RunLost, e)
      case Escaped(e) => Closed(Interrupted, e)
      case Swept(e, left, reached, clean) =>
        if faults.finish then Closed(Interrupted, e) else Result(Ok, CloseRun(e, id), left, reached, clean)
  }

  // ---- reconciling confirmed starts ------------------------------------

  predicate StartConfirmed(t: TargetState) {
    t.status == Running && t.expected != [] && t.expected[0] in t.confirmed
  }

  /** Targets of which the first `n` have been reconciled. */
  function Reconciled(targets: seq<TargetState>, n: nat): (r: seq<TargetState>)
    ensures |r| == |targets|
    ensures forall k :: 0 <= k < |r| ==>
              r[k] == if k < n && StartConfirmed(targets[k]) then Collected(targets[k]) else targets[k]
  {
    seq(|targets|, k requires 0 <= k < |targets| =>
      if k < n && StartConfirmed(targets[k]) then Collected(targets[k]) else targets[k])
  }

  /** `reconcile_targets_with_confirmed_start` on a stored run. */
  function ReconcileRun(r: Run): Run { Finalized(r.(targets := Reconciled(r.targets, |r.targets|))) }
}
