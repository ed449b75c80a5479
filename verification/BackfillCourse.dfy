/** How a session goes, read off its inputs alone: how much budget each target finds
    and leaves, what raises, and what is committed before. */
module BackfillCourse {
  import opened Common
  import opened Sorting
  import opened PriceTable
  import opened HistoryCollector
  import opened BackfillPlan
  import opened BackfillState
  import opened BackfillSession

  // ---- the pages of one target -----------------------------------------

  /** The budget left, the iterator as it was left, and whether a page was committed. */
  datatype Line = Line(left: nat, end: State, ending: Ending, saved: bool)

  function PagesLine(expected: seq<Date>, req: HistoryRequest, script: seq<Fetch>, st: State, faults: map<nat, Fault>,
                     left: nat, saved: bool): (line: Line)
    requires |script| >= req.budget
    ensures line.left <= left
    decreases req.budget - st.summary.requestCount
  {
    YieldCounts(req, script, st);
    var (next, out) := Advance(req, script, st);
    var rest := left - Delta(next.summary.requestCount - st.summary.requestCount, left);
    match out
    case Raised => Line(left, next, IteratorRaised, saved)
    case Stopped => Line(rest, next, Stopping, saved)
    case Yielded(page) =>
      if Filter(page.rows, Wanted(expected)) == [] then PagesLine(expected, req, script, next, faults, rest, saved)
      else if FaultAt(faults, page.number) != NoFault then Line(rest, next, SaveRaised, saved)
      else PagesLine(expected, req, script, next, faults, rest, true)
  }

  lemma ExpectedStays(d: Desk, id: nat, i: nat, symbol: nat)
    requires Ready(d, id, i, symbol)
    ensures forall counted, left :: ExpectedOf(Record(d, id, counted, left), id, i) == ExpectedOf(d, id, i)
    ensures forall rows, now :: ExpectedOf(SavePage(d, id, i, symbol, rows, now), id, i) == ExpectedOf(d, id, i)
    ensures ExpectedOf(Commit(d), id, i) == ExpectedOf(d, id, i)
  {
    hide SaveAll;
  }

  function ExpectedOf(d: Desk, id: nat, i: nat): seq<Date> {
    if HasTarget(d.working, id, i) then d.working.runs[id].targets[i].expected else []
  }

  lemma LogsStay(d: Desk, id: nat, i: nat, symbol: nat, counted: nat, left: nat, rows: seq<Payload>, now: Instant)
    requires Ready(d, id, i, symbol)
    ensures Record(d, id, counted, left).log == d.log && Record(d, id, counted, left).committed == d.committed
    ensures SavePage(d, id, i, symbol, rows, now).log == d.log
            && SavePage(d, id, i, symbol, rows, now).committed == d.committed
  {
    hide SaveAll;
  }

  /** The desk's pages take this course; nothing is committed exactly when none is saved. */
  lemma {:induction false} PagesFollow(d: Desk, id: nat, i: nat, symbol: nat, req: HistoryRequest, script: seq<Fetch>,
                                       st: State, faults: map<nat, Fault>, left: nat, now: Instant, saved: bool)
    requires |script| >= req.budget && Ready(d, id, i, symbol)
    ensures var trip := Pages(d, id, i, symbol, req, script, st, faults, left, now);
      var line := PagesLine(ExpectedOf(d, id, i), req, script, st, faults, left, saved);
      && trip.left == line.left && trip.end == line.end && trip.ending == line.ending
      && d.log <= trip.desk.log && (saved ==> line.saved)
      && (!line.saved ==> trip.desk.log == d.log && trip.desk.committed == d.committed)
      && (line.saved && !saved ==> trip.desk.log != d.log)
      && (id in d.committed.runs || (line.saved && !saved) ==> id in trip.desk.committed.runs)
    decreases req.budget - st.summary.requestCount
  {
    hide Advance, Record, SavePage, Ready, ExpectedOf;
    YieldCounts(req, script, st);
    var (next, out) := Advance(req, script, st);
    var counted := next.summary.requestCount - st.summary.requestCount;
    ReadyStays(d, id, i, symbol);
    ExpectedStays(d, id, i, symbol);
    LogsStay(d, id, i, symbol, counted, left, [], now);
    var e, rest := Record(d, id, counted, left), left - Delta(counted, left);
    assert ExpectedOf(d, id, i) == d.working.runs[id].targets[i].expected by { ExpectedIs(d, id, i); }
    if out.Yielded? {
      ReadyStays(e, id, i, symbol);
      ExpectedStays(e, id, i, symbol);
      var rows := Filter(out.page.rows, Wanted(ExpectedOf(d, id, i)));
      if rows == [] {
        PagesFollow(e, id, i, symbol, req, script, next, faults, rest, now, saved);
      } else {
        LogsStay(e, id, i, symbol, 0, 0, rows, now);
        var kept := SavePage(e, id, i, symbol, rows, now);
        ReadyStays(kept, id, i, symbol);
        ExpectedStays(kept, id, i, symbol);
        if FaultAt(faults, out.page.number).NoFault? {
          ReadyRun(kept, id, i, symbol);
          PagesFollow(Commit(kept), id, i, symbol, req, script, next, faults, rest, now, true);
        }
      }
    }
  }

  lemma ExpectedIs(d: Desk, id: nat, i: nat)
    requires HasTarget(d.working, id, i)
    ensures ExpectedOf(d, id, i) == d.working.runs[id].targets[i].expected
  {
  }

  lemma ReadyRun(d: Desk, id: nat, i: nat, symbol: nat)
    requires Ready(d, id, i, symbol)
    ensures id in d.working.runs
  {
  }

  /** Unless something raises, the pages are the whole traversal, each request is
      recorded, and the clamp of the recorder never binds. */
  lemma {:induction false} LineIsTraversal(expected: seq<Date>, req: HistoryRequest, script: seq<Fetch>, st: State,
                                           faults: map<nat, Fault>, left: nat, saved: bool)
    requires |script| >= req.budget && left + st.summary.requestCount == req.budget
    ensures var line := PagesLine(expected, req, script, st, faults, left, saved);
      line.ending == Stopping ==>
        line.end == Drain(req, script, st) && line.left + line.end.summary.requestCount == req.budget
    decreases req.budget - st.summary.requestCount
  {
    hide Advance;
    YieldCounts(req, script, st);
    var (next, out) := Advance(req, script, st);
    StepWithin(req, script, st);
    if out.Yielded? {
      if Filter(out.page.rows, Wanted(expected)) == [] {
        LineIsTraversal(expected, req, script, next, faults, left - 1, saved);
      } else if FaultAt(faults, out.page.number).NoFault? {
        LineIsTraversal(expected, req, script, next, faults, left - 1, true);
      }
    }
  }

  lemma StepWithin(req: HistoryRequest, script: seq<Fetch>, st: State)
    requires |script| >= req.budget && st.summary.requestCount <= req.budget
    ensures Advance(req, script, st).0.summary.requestCount <= req.budget
    ensures var (next, out) := Advance(req, script, st);
      && (out.Raised? && next.summary.requestCount > st.summary.requestCount <==>
            && !Resume(req, st).phase.Finished? && st.summary.requestCount < req.budget
            && script[st.summary.requestCount].CrashInParse?)
      && (out.Yielded? ==> next.summary.requestCount == st.summary.requestCount + 1)
  {
    hide Absorb, Oldest, SortBy;
  }

  /** A counted request goes unrecorded exactly when the iterator itself raises after
      counting it, on a page it cannot parse. */
  lemma {:induction false} UnrecordedIff(expected: seq<Date>, req: HistoryRequest, script: seq<Fetch>, st: State,
                                         faults: map<nat, Fault>, left: nat, saved: bool)
    requires |script| >= req.budget && left + st.summary.requestCount == req.budget
    ensures var line := PagesLine(expected, req, script, st, faults, left, saved);
      var recorded, counted := req.budget - line.left, line.end.summary.requestCount;
      && recorded <= counted <= recorded + 1
      && (counted == recorded + 1 <==>
            line.ending == IteratorRaised && recorded < req.budget && script[recorded].CrashInParse?)
    decreases req.budget - st.summary.requestCount
  {
    hide Advance, Filter, Wanted, FaultAt, PagesLine;
    YieldCounts(req, script, st);
    LineNext(expected, req, script, st, faults, left, saved);
    var (next, out) := Advance(req, script, st);
    StepRecords(req, script, st);
    if out.Yielded? {
      if Filter(out.page.rows, Wanted(expected)) == [] {
        UnrecordedIff(expected, req, script, next, faults, left - 1, saved);
      } else if FaultAt(faults, out.page.number).NoFault? {
        UnrecordedIff(expected, req, script, next, faults, left - 1, true);
      }
    }
  }

  /** The course from one suspension of the iterator to the next. */
  lemma LineNext(expected: seq<Date>, req: HistoryRequest, script: seq<Fetch>, st: State, faults: map<nat, Fault>,
                 left: nat, saved: bool)
    requires |script| >= req.budget
    ensures var (next, out) := Advance(req, script, st);
      var line := PagesLine(expected, req, script, st, faults, left, saved);
      next.summary.requestCount >= st.summary.requestCount &&
      var rest: nat := left - Delta(next.summary.requestCount - st.summary.requestCount, left);
      match out
      case Raised => line == Line(left, next, IteratorRaised, saved)
      case Stopped => line == Line(rest, next, Stopping, saved)
      case Yielded(page) =>
        line == if Filter(page.rows, Wanted(expected)) == [] then
                  PagesLine(expected, req, script, next, faults, rest, saved)
                else if FaultAt(faults, page.number) != NoFault then Line(rest, next, SaveRaised, saved)
                else PagesLine(expected, req, script, next, faults, rest, true)
  {
    hide Advance, Filter, Wanted, FaultAt;
    YieldCounts(req, script, st);
  }

  /** Which step counts a request, and which of those raise. */
  lemma StepRecords(req: HistoryRequest, script: seq<Fetch>, st: State)
    requires |script| >= req.budget && st.summary.requestCount <= req.budget
    ensures var (next, out) := Advance(req, script, st);
      && next.summary.requestCount <= req.budget
      && (out.Yielded? ==> next.summary.requestCount == st.summary.requestCount + 1)
      && (out.Raised? ==>
            (next.summary.requestCount > st.summary.requestCount
             <==> st.summary.requestCount < req.budget && script[st.summary.requestCount].CrashInParse?))
  {
    hide Advance, Resume;
    StepWithin(req, script, st);
    if Advance(req, script, st).1.Raised? {
      RaisedAtLoop(req, script, st);
    }
  }

  lemma RaisedAtLoop(req: HistoryRequest, script: seq<Fetch>, st: State)
    requires |script| >= req.budget && Advance(req, script, st).1.Raised?
    ensures !Resume(req, st).phase.Finished? && st.summary.requestCount < req.budget
  {
    hide Absorb, Oldest, SortBy;
  }

  // ---- one target ------------------------------------------------------

  function Request(s: Session, budget: nat): HistoryRequest { HistoryRequest(s.start, s.end, None, budget) }

  function LineOf(t: TargetState, s: Session, script: seq<Fetch>, faults: Faults, left: nat): Line
    requires |script| >= left
  {
    PagesLine(t.expected, Request(s, left), script, FRESH, faults.pages, left, false)
  }

  /** The budget left, whether the target raises, and whether something is committed. */
  datatype Course = Course(left: nat, raised: bool, commits: bool)

  function CourseOf(t: TargetState, s: Session, script: seq<Fetch>, faults: Faults, left: nat): (c: Course)
    requires |script| >= left
    ensures c.left <= left
  {
    if Unresolved(t) then Course(left, faults.conclusion != NoFault, faults.conclusion == NoFault)
    else if NoIterator(s, faults) then Course(left, true, false)
    else
      var line := LineOf(t, s, script, faults, left);
      if line.ending != Stopping then Course(line.left, true, line.saved)
      else if !Concludes(line.end.summary.terminal) then Course(line.left, false, line.saved)
      else Course(line.left, faults.conclusion != NoFault, line.saved || faults.conclusion == NoFault)
  }

  /** The `try` block takes this course. */
  lemma AttemptFollows(d: Desk, id: nat, i: nat, s: Session, script: seq<Fetch>, faults: Faults, left: nat)
    requires |script| >= left && HasTarget(d.working, id, i) && Shape(d, id, |d.working.runs[id].targets|)
    ensures var a := Attempt(d, id, i, s, script, faults, left);
      var c := CourseOf(d.working.runs[id].targets[i], s, script, faults, left);
      && a.left == c.left && a.raised == c.raised && d.log <= a.desk.log
      && (c.commits <==> a.desk.log != d.log)
      && (!c.commits ==> a.desk.committed == d.committed)
      && (id in d.committed.runs || c.commits ==> id in a.desk.committed.runs)
  {
    var t := d.working.runs[id].targets[i];
    if !Unresolved(t) && !NoIterator(s, faults) {
      hide Pages, PagesLine, Record, SavePage;
      var trip := Pages(d, id, i, t.symbolId.value, Request(s, left), script, FRESH, faults.pages, left, s.now);
      PagesFollow(d, id, i, t.symbolId.value, Request(s, left), script, FRESH, faults.pages, left, s.now, false);
      assert trip.desk.log <= trip.desk.log + [trip.desk.working];
      ConcludeLog(trip.desk, id, i, trip.end.summary.terminal, faults.conclusion, trip.left);
    }
  }

  lemma ConcludeLog(d: Desk, id: nat, i: nat, terminal: Option<Terminal>, fault: Fault, left: nat)
    requires HasTarget(d.working, id, i) && Shape(d, id, |d.working.runs[id].targets|)
    ensures var a := Conclude(d, id, i, terminal, fault, left);
      && a.raised == (Concludes(terminal) && fault != NoFault)
      && d.log <= a.desk.log && (a.desk.log == d.log <==> !Concludes(terminal) || fault != NoFault)
      && (a.desk.log == d.log ==> a.desk.committed == d.committed)
      && (id in d.committed.runs || a.desk.log != d.log ==> id in a.desk.committed.runs)
      && |a.desk.log| <= |d.log| + 1
  {
  }

  // ---- the whole loop --------------------------------------------------

  /** The budget left before the k-th target, threaded through those before it. */
  function LeftBefore(targets: seq<TargetState>, s: Session, scripts: seq<seq<Fetch>>, faults: SessionFaults,
                      left: nat, k: nat): (r: nat)
    requires k <= |targets| && Fits(scripts, faults, |targets|, left)
    ensures r <= left
  {
    if k == 0 then left
    else
      var l := LeftBefore(targets, s, scripts, faults, left, k - 1);
      if Skipped(targets[k - 1], s) || l < 1 then l
      else CourseOf(targets[k - 1], s, scripts[k - 1], faults.targets[k - 1], l).left
  }

  function CourseAt(targets: seq<TargetState>, s: Session, scripts: seq<seq<Fetch>>, faults: SessionFaults, left: nat,
                    k: nat): Course
    requires k < |targets| && Fits(scripts, faults, |targets|, left)
  {
    CourseOf(targets[k], s, scripts[k], faults.targets[k], LeftBefore(targets, s, scripts, faults, left, k))
  }

  /** The k-th target is worked on, if the loop gets there. */
  predicate Worked(targets: seq<TargetState>, s: Session, scripts: seq<seq<Fetch>>, faults: SessionFaults, left: nat,
                   k: nat)
    requires k < |targets| && Fits(scripts, faults, |targets|, left)
  {
    !Skipped(targets[k], s) && LeftBefore(targets, s, scripts, faults, left, k) >= 1
  }

  lemma LeftNeverGrows(targets: seq<TargetState>, s: Session, scripts: seq<seq<Fetch>>, faults: SessionFaults,
                       left: nat, i: nat, k: nat)
    requires i <= k <= |targets| && Fits(scripts, faults, |targets|, left)
    ensures LeftBefore(targets, s, scripts, faults, left, k) <= LeftBefore(targets, s, scripts, faults, left, i)
    decreases k
  {
    hide CourseOf, Skipped;
    if i < k {
      LeftNeverGrows(targets, s, scripts, faults, left, i, k - 1);
    }
  }

  /** The k-th target loses a run that is not stored yet. */
  predicate Loses(targets: seq<TargetState>, s: Session, scripts: seq<seq<Fetch>>, faults: SessionFaults, left: nat,
                  k: nat)
    requires k < |targets| && Fits(scripts, faults, |targets|, left)
  {
    && Worked(targets, s, scripts, faults, left, k)
    && CourseAt(targets, s, scripts, faults, left, k).raised && !CourseAt(targets, s, scripts, faults, left, k).commits
  }

  /** The k-th target leaves no trace: it is not worked on, or neither raises nor commits. */
  predicate Traceless(targets: seq<TargetState>, s: Session, scripts: seq<seq<Fetch>>, faults: SessionFaults,
                      left: nat, k: nat)
    requires k < |targets| && Fits(scripts, faults, |targets|, left)
  {
    Worked(targets, s, scripts, faults, left, k) ==>
      !CourseAt(targets, s, scripts, faults, left, k).raised && !CourseAt(targets, s, scripts, faults, left, k).commits
  }

  // ---- the state between two targets -----------------------------------

  /** Prices, observations and, once the run is stored, its targets are committed. */
  predicate InStep(d: Desk, id: nat) {
    && id in d.working.runs && d.working.prices == d.committed.prices
    && d.working.observations == d.committed.observations
    && (id in d.committed.runs ==> d.committed.runs[id].targets == d.working.runs[id].targets)
  }

  /** All targets but perhaps the i-th are the given ones, stored or not. */
  predicate Others(d: Desk, id: nat, i: nat, targets: seq<TargetState>) {
    && Shape(d, id, |targets|)
    && (forall k :: 0 <= k < |targets| && k != i ==> d.working.runs[id].targets[k] == targets[k])
    && (id in d.committed.runs ==>
          forall k :: 0 <= k < |targets| && k != i ==> d.committed.runs[id].targets[k] == targets[k])
  }

  /** The session has come to the i-th target: it and the later ones are as they were. */
  predicate Midway(d: Desk, id: nat, i: nat, targets: seq<TargetState>) {
    && Shape(d, id, |targets|) && InStep(d, id)
    && forall k :: i <= k < |targets| ==> d.working.runs[id].targets[k] == targets[k]
  }

  lemma MidwayAt(d: Desk, id: nat, i: nat, targets: seq<TargetState>)
    requires Midway(d, id, i, targets) && i < |targets|
    ensures Shape(d, id, |targets|) && d.working.runs[id].targets[i] == targets[i]
  {
  }

  lemma MidwaySkips(d: Desk, id: nat, i: nat, targets: seq<TargetState>)
    requires Midway(d, id, i, targets)
    ensures Midway(d, id, i + 1, targets) && Shape(d, id, |targets|)
  {
  }

  lemma OthersStay(d: Desk, id: nat, i: nat, symbol: nat, targets: seq<TargetState>)
    requires Ready(d, id, i, symbol) && Others(d, id, i, targets)
    ensures forall counted, left :: Others(Record(d, id, counted, left), id, i, targets)
    ensures forall rows, now :: Others(SavePage(d, id, i, symbol, rows, now), id, i, targets)
    ensures Others(Commit(d), id, i, targets)
  {
    hide SaveAll;
  }

  lemma InStepStays(d: Desk, id: nat, i: nat, symbol: nat)
    requires Ready(d, id, i, symbol)
    ensures InStep(d, id) ==> forall counted, left :: InStep(Record(d, id, counted, left), id)
    ensures InStep(Commit(d), id)
  {
  }

  /** The pages of a target touch no other target. */
  lemma {:induction false} PagesTouch(d: Desk, id: nat, i: nat, symbol: nat, req: HistoryRequest, script: seq<Fetch>,
                                      st: State, faults: map<nat, Fault>, left: nat, now: Instant,
                                      targets: seq<TargetState>)
    requires |script| >= req.budget && Ready(d, id, i, symbol) && Others(d, id, i, targets) && InStep(d, id)
    ensures var trip := Pages(d, id, i, symbol, req, script, st, faults, left, now);
      Others(trip.desk, id, i, targets) && (trip.ending == Stopping ==> InStep(trip.desk, id))
    decreases req.budget - st.summary.requestCount
  {
    hide Advance, Record, SavePage, Ready, Others, InStep, Commit;
    ReadyStays(d, id, i, symbol);
    OthersStay(d, id, i, symbol, targets);
    InStepStays(d, id, i, symbol);
    YieldCounts(req, script, st);
    var (next, out) := Advance(req, script, st);
    var counted := next.summary.requestCount - st.summary.requestCount;
    var e, rest := Record(d, id, counted, left), left - Delta(counted, left);
    if out.Yielded? {
      ReadyStays(e, id, i, symbol);
      OthersStay(e, id, i, symbol, targets);
      var rows := Filter(out.page.rows, Wanted(d.working.runs[id].targets[i].expected));
      if rows == [] {
        PagesTouch(e, id, i, symbol, req, script, next, faults, rest, now, targets);
      } else {
        var saved := SavePage(e, id, i, symbol, rows, now);
        ReadyStays(saved, id, i, symbol);
        OthersStay(saved, id, i, symbol, targets);
        InStepStays(saved, id, i, symbol);
        if FaultAt(faults, out.page.number).NoFault? {
          PagesTouch(Commit(saved), id, i, symbol, req, script, next, faults, rest, now, targets);
        }
      }
    }
  }

  lemma AttemptTouches(d: Desk, id: nat, i: nat, s: Session, script: seq<Fetch>, faults: Faults, left: nat,
                       targets: seq<TargetState>)
    requires |script| >= left && i < |targets| && Others(d, id, i, targets) && InStep(d, id)
    ensures var a := Attempt(d, id, i, s, script, faults, left);
      Others(a.desk, id, i, targets) && (!a.raised ==> InStep(a.desk, id))
  {
    var t := d.working.runs[id].targets[i];
    if !Unresolved(t) && !NoIterator(s, faults) {
      var trip := Pages(d, id, i, t.symbolId.value, Request(s, left), script, FRESH, faults.pages, left, s.now);
      PagesTouch(d, id, i, t.symbolId.value, Request(s, left), script, FRESH, faults.pages, left, s.now, targets);
      hide Pages;
    }
  }

  /** From one target to the next, whether it raises or not. */
  lemma NextTarget(d: Desk, id: nat, i: nat, s: Session, script: seq<Fetch>, faults: Faults, left: nat,
                   targets: seq<TargetState>)
    requires |script| >= left && i < |targets| && Midway(d, id, i, targets)
    ensures var a, was := Attempt(d, id, i, s, script, faults, left), d.working.runs[id].targets;
      && Others(a.desk, id, i, was)
      && (!a.raised ==> Midway(a.desk, id, i + 1, targets))
      && (a.raised && id in a.desk.committed.runs ==>
            var e := Rollback(a.desk);
            id in e.working.runs && Shape(e, id, |targets|) && Others(e, id, i, was)
            && Midway(Commit(Failing(e, id, i)), id, i + 1, targets))
  {
    AttemptTouches(d, id, i, s, script, faults, left, d.working.runs[id].targets);
    hide Attempt;
  }

  // ---- lost runs -------------------------------------------------------

  lemma {:induction false} StoredIsKept(d: Desk, id: nat, s: Session, scripts: seq<seq<Fetch>>, faults: SessionFaults,
                                        count: nat, i: nat, left: nat, clean: bool)
    requires Shape(d, id, count) && i <= count && Fits(scripts, faults, count, left) && id in d.committed.runs
    ensures !Loop(d, id, s, scripts, faults, count, i, left, clean).Lost?
    decreases count - i
  {
    hide Attempt, Rollback, Commit, Failing;
    if i < count {
      if Skipped(d.working.runs[id].targets[i], s) {
        StoredIsKept(d, id, s, scripts, faults, count, i + 1, left, clean);
      } else if left >= 1 {
        var a := Attempt(d, id, i, s, scripts[i], faults.targets[i], left);
        StoredStep(d, id, i, s, scripts[i], faults.targets[i], left, count);
        if !a.raised {
          StoredIsKept(a.desk, id, s, scripts, faults, count, i + 1, a.left, clean);
        } else if !faults.targets[i].handler {
          StoredIsKept(Commit(Failing(Rollback(a.desk), id, i)), id, s, scripts, faults, count, i + 1, a.left, false);
        }
      }
    }
  }

  /** A stored run is stored after any target, raised or not. */
  lemma StoredStep(d: Desk, id: nat, i: nat, s: Session, script: seq<Fetch>, faults: Faults, left: nat, count: nat)
    requires Shape(d, id, count) && i < count && |script| >= left && id in d.committed.runs
    ensures var a := Attempt(d, id, i, s, script, faults, left);
      && Shape(a.desk, id, count) && id in a.desk.committed.runs
      && var e := Rollback(a.desk);
      && HasTarget(e.working, id, i)
      && Shape(Commit(Failing(e, id, i)), id, count) && id in Commit(Failing(e, id, i)).committed.runs
  {
    hide Attempt;
    AttemptFollows(d, id, i, s, script, faults, left);
  }

  lemma {:induction false} LoopLostIff(d: Desk, id: nat, s: Session, scripts: seq<seq<Fetch>>, faults: SessionFaults,
                                       i: nat, left: nat, clean: bool, targets: seq<TargetState>, all: nat)
    requires Midway(d, id, i, targets) && i <= |targets| && Fits(scripts, faults, |targets|, all)
    requires left == LeftBefore(targets, s, scripts, faults, all, i) && id !in d.committed.runs
    ensures Loop(d, id, s, scripts, faults, |targets|, i, left, clean).Lost? <==>
            exists k :: i <= k < |targets| && Loses(targets, s, scripts, faults, all, k)
                        && forall j :: i <= j < k ==> Traceless(targets, s, scripts, faults, all, j)
    decreases |targets| - i
  {
    hide Attempt, CourseOf, Loses, Traceless;
    var count := |targets|;
    if i < count {
      if Skipped(targets[i], s) {
        LoopLostIff(d, id, s, scripts, faults, i + 1, left, clean, targets, all);
        NotWorked(targets, s, scripts, faults, all, i);
      } else if left < 1 {
        forall k | i <= k < count ensures !Loses(targets, s, scripts, faults, all, k) {
          SpentLoses(targets, s, scripts, faults, all, i, k);
        }
      } else {
        var a := Attempt(d, id, i, s, scripts[i], faults.targets[i], left);
        UnstoredTarget(d, id, i, s, scripts, faults, left, targets, all);
        if id !in a.desk.committed.runs {
          if !a.raised {
            LoopLostIff(a.desk, id, s, scripts, faults, i + 1, a.left, clean, targets, all);
          }
        } else if !a.raised {
          StoredIsKept(a.desk, id, s, scripts, faults, count, i + 1, a.left, clean);
        } else if !faults.targets[i].handler {
          StoredIsKept(Commit(Failing(Rollback(a.desk), id, i)), id, s, scripts, faults, count, i + 1, a.left, false);
        }
      }
    }
  }

  /** What one target does to a run that is not stored yet. */
  lemma UnstoredTarget(d: Desk, id: nat, i: nat, s: Session, scripts: seq<seq<Fetch>>, faults: SessionFaults,
                       left: nat, targets: seq<TargetState>, all: nat)
    requires Midway(d, id, i, targets) && i < |targets| && Fits(scripts, faults, |targets|, all) && left >= 1
    requires left == LeftBefore(targets, s, scripts, faults, all, i) && !Skipped(targets[i], s)
    requires id !in d.committed.runs
    ensures var a := Attempt(d, id, i, s, scripts[i], faults.targets[i], left);
      && Shape(a.desk, id, |targets|) && a.left == LeftBefore(targets, s, scripts, faults, all, i + 1)
      && (Loses(targets, s, scripts, faults, all, i) <==> a.raised && id !in a.desk.committed.runs)
      && (Traceless(targets, s, scripts, faults, all, i) <==> !a.raised && id !in a.desk.committed.runs)
      && (!a.raised ==> Midway(a.desk, id, i + 1, targets))
      && (a.raised && id in a.desk.committed.runs ==>
            HasTarget(a.desk.committed, id, i) && Shape(Commit(Failing(Rollback(a.desk), id, i)), id, |targets|))
  {
    hide Attempt, CourseOf;
    AttemptFollows(d, id, i, s, scripts[i], faults.targets[i], left);
    NextTarget(d, id, i, s, scripts[i], faults.targets[i], left, targets);
  }

  lemma SpentLoses(targets: seq<TargetState>, s: Session, scripts: seq<seq<Fetch>>, faults: SessionFaults, left: nat,
                   i: nat, k: nat)
    requires i <= k < |targets| && Fits(scripts, faults, |targets|, left)
    requires LeftBefore(targets, s, scripts, faults, left, i) < 1
    ensures !Loses(targets, s, scripts, faults, left, k)
  {
    LeftNeverGrows(targets, s, scripts, faults, left, i, k);
  }

  lemma NotWorked(targets: seq<TargetState>, s: Session, scripts: seq<seq<Fetch>>, faults: SessionFaults, left: nat,
                  k: nat)
    requires k < |targets| && Fits(scripts, faults, |targets|, left) && Skipped(targets[k], s)
    ensures !Loses(targets, s, scripts, faults, left, k) && Traceless(targets, s, scripts, faults, left, k)
  {
  }

  lemma OpenMidway(db: Db, id: nat, p: Plan, additional: nat)
    ensures Midway(Open(db, id, p, additional), id, 0, Starting(db, id, p).targets)
  {
    hide NewRun;
  }

  /** A session loses its run exactly when the run is new, nothing refuses the session,
      and some target raises with nothing committed, neither by itself nor by the
      targets before it, none of which has raised. */
  lemma RunLostIff(db: Db, id: nat, p: Plan, additional: nat, s: Session, scripts: seq<seq<Fetch>>,
                   faults: SessionFaults)
    requires var r := Authorized(db, id, p, additional); Fits(scripts, faults, |r.targets|, r.requestBudget)
    ensures var targets, left := Starting(db, id, p).targets, Unspent(Authorized(db, id, p, additional));
      Execute(db, id, p, additional, s, scripts, faults).outcome == RunLost <==>
        && id !in db.runs && additional == 0 && !faults.opening && !p.dryRun
        && exists k :: 0 <= k < |targets| && Loses(targets, s, scripts, faults, left, k)
                       && forall j :: 0 <= j < k ==> Traceless(targets, s, scripts, faults, left, j)
  {
    hide Loses, Traceless, Midway, NewRun, CloseRun, InStep;
    var d, targets := Open(db, id, p, additional), Starting(db, id, p).targets;
    var left := Unspent(Authorized(db, id, p, additional));
    OpenMidway(db, id, p, additional);
    if id in db.runs {
      StoredIsKept(d, id, s, scripts, faults, |targets|, 0, left, true);
    } else {
      LoopLostIff(d, id, s, scripts, faults, 0, left, true, targets, left);
    }
    hide Loop;
  }
}
