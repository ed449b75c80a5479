/** What a session reports and observes, against what it did. */
module BackfillTallies {
  import opened Common
  import opened Sorting
  import opened PriceTable
  import opened HistoryCollector
  import opened BackfillPlan
  import opened BackfillState
  import opened BackfillSession
  import opened BackfillCourse
  import opened BackfillTargets
  import opened BackfillFates

  // ---- failures --------------------------------------------------------

  /** The counters the pages of a target leave alone. */
  predicate SameCounts(a: Report, b: Report) {
    && a.failed == b.failed && a.unsupported == b.unsupported && a.completedTargets == b.completedTargets
    && a.exhaustedTargets == b.exhaustedTargets && a.targetCount == b.targetCount
    && a.expectedRows == b.expectedRows && a.unresolvedTargets == b.unresolvedTargets
  }

  /** A target counts as failed once, and once more when the commit of its failure mark
      raises: the mark is rolled back, its count is not. */
  function FailedBy(t: TargetState, s: Session, script: seq<Fetch>, faults: Faults, left: nat): nat
    requires |script| >= left
  {
    var marks := t.providerCode.None? || t.symbolId.None?
                 || TerminalOf(t, s, script, faults, left) in {Some(FailedFetch), Some(ProviderUnsupported)};
    (if WhyFailed(t, s, script, faults, left).Some? then 1 else 0)
    + if marks && faults.conclusion == AtCommit then 1 else 0
  }

  function UnsupportedBy(t: TargetState, s: Session, script: seq<Fetch>, faults: Faults, left: nat): nat
    requires |script| >= left
  {
    if TerminalOf(t, s, script, faults, left) == Some(ProviderUnsupported) && faults.conclusion != BeforeReport
    then 1 else 0
  }

  lemma CountsStay(d: Desk, id: nat, i: nat, symbol: nat, counted: nat, left: nat, rows: seq<Payload>, now: Instant)
    requires Ready(d, id, i, symbol)
    ensures SameCounts(Record(d, id, counted, left).report, d.report)
    ensures SameCounts(SavePage(d, id, i, symbol, rows, now).report, d.report)
  {
    hide SaveAll;
  }

  lemma {:induction false} PagesCount(d: Desk, id: nat, i: nat, symbol: nat, req: HistoryRequest, script: seq<Fetch>,
                                      st: State, faults: map<nat, Fault>, left: nat, now: Instant)
    requires |script| >= req.budget && Ready(d, id, i, symbol)
    ensures SameCounts(Pages(d, id, i, symbol, req, script, st, faults, left, now).desk.report, d.report)
    decreases req.budget - st.summary.requestCount
  {
    hide Advance, Record, SavePage, Ready;
    ReadyStays(d, id, i, symbol);
    YieldCounts(req, script, st);
    var (next, out) := Advance(req, script, st);
    var counted := next.summary.requestCount - st.summary.requestCount;
    CountsStay(d, id, i, symbol, counted, left, [], now);
    var e, rest := Record(d, id, counted, left), left - Delta(counted, left);
    if out.Yielded? {
      ReadyStays(e, id, i, symbol);
      var rows := Filter(out.page.rows, Wanted(d.working.runs[id].targets[i].expected));
      if rows == [] {
        PagesCount(e, id, i, symbol, req, script, next, faults, rest, now);
      } else {
        CountsStay(e, id, i, symbol, 0, 0, rows, now);
        var saved := SavePage(e, id, i, symbol, rows, now);
        ReadyStays(saved, id, i, symbol);
        if FaultAt(faults, out.page.number).NoFault? {
          PagesCount(Commit(saved), id, i, symbol, req, script, next, faults, rest, now);
        }
      }
    }
  }

  /** `after` counts this many failures and unsupported targets more. */
  predicate Adds(before: Report, after: Report, failed: nat, unsupported: nat) {
    SameCounts(after, before.(failed := before.failed + failed, unsupported := before.unsupported + unsupported))
  }

  lemma ConcludeCounts(d: Desk, id: nat, i: nat, terminal: Option<Terminal>, fault: Fault, left: nat)
    requires HasTarget(d.working, id, i) && Shape(d, id, |d.working.runs[id].targets|)
    ensures var a := Conclude(d, id, i, terminal, fault, left);
      !a.raised || HasTarget(a.desk.committed, id, i) ==>
        Adds(d.report, Onward(a, id, i).report,
             (if terminal in {Some(FailedFetch), Some(ProviderUnsupported)}
                 || (terminal in {Some(CollectionStartReached), Some(ProviderExhausted)} && fault != NoFault)
              then 1 else 0)
             + (if terminal in {Some(FailedFetch), Some(ProviderUnsupported)} && fault == AtCommit then 1 else 0),
             if terminal == Some(ProviderUnsupported) && fault != BeforeReport then 1 else 0)
  {
  }

  lemma AttemptCounts(d: Desk, id: nat, i: nat, s: Session, script: seq<Fetch>, faults: Faults, left: nat)
    requires |script| >= left && HasTarget(d.working, id, i) && Shape(d, id, |d.working.runs[id].targets|)
    requires var a := Attempt(d, id, i, s, script, faults, left); !a.raised || id in a.desk.committed.runs
    ensures var t := d.working.runs[id].targets[i];
      Adds(d.report, Onward(Attempt(d, id, i, s, script, faults, left), id, i).report,
           FailedBy(t, s, script, faults, left), UnsupportedBy(t, s, script, faults, left))
  {
    var t := d.working.runs[id].targets[i];
    if !Unresolved(t) && !NoIterator(s, faults) {
      CollectedCounts(d, id, i, s, script, faults, left);
    } else {
      hide Pages, LineOf;
    }
  }

  lemma CollectedCounts(d: Desk, id: nat, i: nat, s: Session, script: seq<Fetch>, faults: Faults, left: nat)
    requires |script| >= left && HasTarget(d.working, id, i) && Shape(d, id, |d.working.runs[id].targets|)
    requires !Unresolved(d.working.runs[id].targets[i]) && !NoIterator(s, faults)
    requires var a := Attempt(d, id, i, s, script, faults, left); !a.raised || id in a.desk.committed.runs
    ensures var t := d.working.runs[id].targets[i];
      Adds(d.report, Onward(Attempt(d, id, i, s, script, faults, left), id, i).report,
           FailedBy(t, s, script, faults, left), UnsupportedBy(t, s, script, faults, left))
  {
    hide Pages, PagesLine, Conclude;
    var t := d.working.runs[id].targets[i];
    var symbol, req := t.symbolId.value, Request(s, left);
    var trip := Pages(d, id, i, symbol, req, script, FRESH, faults.pages, left, s.now);
    PagesCount(d, id, i, symbol, req, script, FRESH, faults.pages, left, s.now);
    PagesFollow(d, id, i, symbol, req, script, FRESH, faults.pages, left, s.now, false);
    assert ExpectedOf(d, id, i) == t.expected;
    if trip.ending == Stopping {
      ConcludeCounts(trip.desk, id, i, trip.end.summary.terminal, faults.conclusion, trip.left);
    }
  }

  /** What the targets before the n-th add to the failed and unsupported counts. */
  function FailedUpTo(targets: seq<TargetState>, s: Session, scripts: seq<seq<Fetch>>, faults: SessionFaults, left: nat,
                      n: nat): nat
    requires n <= |targets| && Fits(scripts, faults, |targets|, left)
  {
    if n == 0 then 0
    else FailedUpTo(targets, s, scripts, faults, left, n - 1)
         + if Worked(targets, s, scripts, faults, left, n - 1)
           then FailedBy(targets[n - 1], s, scripts[n - 1], faults.targets[n - 1],
                         LeftBefore(targets, s, scripts, faults, left, n - 1))
           else 0
  }

  function UnsupportedUpTo(targets: seq<TargetState>, s: Session, scripts: seq<seq<Fetch>>, faults: SessionFaults,
                           left: nat, n: nat): nat
    requires n <= |targets| && Fits(scripts, faults, |targets|, left)
  {
    if n == 0 then 0
    else UnsupportedUpTo(targets, s, scripts, faults, left, n - 1)
         + if Worked(targets, s, scripts, faults, left, n - 1)
           then UnsupportedBy(targets[n - 1], s, scripts[n - 1], faults.targets[n - 1],
                              LeftBefore(targets, s, scripts, faults, left, n - 1))
           else 0
  }

  /** The targets the session would have worked on from the n-th on. */
  function WaitingFrom(targets: seq<TargetState>, s: Session, n: nat): nat
    requires n <= |targets|
  {
    |Filter(targets[n..], (t: TargetState) => t.status in s.statuses)|
  }

  lemma WaitingCounts(d: Desk, id: nat, i: nat, s: Session, targets: seq<TargetState>)
    requires Midway(d, id, i, targets) && i < |targets|
    ensures Adds(d.report.(exhaustedTargets := d.report.exhaustedTargets + WaitingFrom(targets, s, i)),
                 Commit(Waiting(d, id, i, s)).report, 0, 0)
  {
    assert d.working.runs[id].targets[i..] == targets[i..];
    FilterSame(targets[i..], (t: TargetState) => t.status in s.statuses, (t: TargetState) => t.status in s.statuses);
  }

  /** A loop that goes through works on the i-th target and goes on after it. */
  lemma LoopGoesOn(d: Desk, id: nat, s: Session, scripts: seq<seq<Fetch>>, faults: SessionFaults, i: nat, left: nat,
                   clean: bool, targets: seq<TargetState>)
    requires Midway(d, id, i, targets) && i < |targets| && Fits(scripts, faults, |targets|, left)
    requires !Skipped(targets[i], s) && left >= 1
    requires Loop(d, id, s, scripts, faults, |targets|, i, left, clean).Swept?
    ensures var a := Attempt(d, id, i, s, scripts[i], faults.targets[i], left);
      && (!a.raised || id in a.desk.committed.runs)
      && Midway(Onward(a, id, i), id, i + 1, targets) && Shape(Onward(a, id, i), id, |targets|)
      && Loop(d, id, s, scripts, faults, |targets|, i, left, clean)
         == Loop(Onward(a, id, i), id, s, scripts, faults, |targets|, i + 1, a.left, clean && !a.raised)
  {
    hide Attempt, InStep;
    NextTarget(d, id, i, s, scripts[i], faults.targets[i], left, targets);
  }

  /** The counts are those of the targets before the i-th. */
  ghost predicate CountsUpTo(base: Report, report: Report, targets: seq<TargetState>, s: Session,
                          scripts: seq<seq<Fetch>>, faults: SessionFaults, left: nat, i: nat)
    requires i <= |targets| && Fits(scripts, faults, |targets|, left)
  {
    Adds(base, report, FailedUpTo(targets, s, scripts, faults, left, i),
         UnsupportedUpTo(targets, s, scripts, faults, left, i))
  }

  lemma CountedSkips(base: Report, report: Report, targets: seq<TargetState>, s: Session, scripts: seq<seq<Fetch>>,
                     faults: SessionFaults, left: nat, i: nat)
    requires i < |targets| && Fits(scripts, faults, |targets|, left) && Skipped(targets[i], s)
    requires CountsUpTo(base, report, targets, s, scripts, faults, left, i)
    ensures CountsUpTo(base, report, targets, s, scripts, faults, left, i + 1)
  {
    hide FailedBy, UnsupportedBy, LeftBefore;
  }

  lemma CountedNext(base: Report, report: Report, after: Report, targets: seq<TargetState>, s: Session,
                    scripts: seq<seq<Fetch>>, faults: SessionFaults, left: nat, i: nat)
    requires i < |targets| && Fits(scripts, faults, |targets|, left) && Worked(targets, s, scripts, faults, left, i)
    requires CountsUpTo(base, report, targets, s, scripts, faults, left, i)
    requires var l := LeftBefore(targets, s, scripts, faults, left, i);
      Adds(report, after, FailedBy(targets[i], s, scripts[i], faults.targets[i], l),
           UnsupportedBy(targets[i], s, scripts[i], faults.targets[i], l))
    ensures CountsUpTo(base, after, targets, s, scripts, faults, left, i + 1)
  {
    hide FailedBy, UnsupportedBy, LeftBefore;
  }

  lemma WaitingCounted(d: Desk, id: nat, i: nat, s: Session, targets: seq<TargetState>, scripts: seq<seq<Fetch>>,
                       faults: SessionFaults, left: nat, base: Report)
    requires Midway(d, id, i, targets) && i < |targets| && Fits(scripts, faults, |targets|, left)
    requires CountsUpTo(base, d.report, targets, s, scripts, faults, left, i)
    ensures CountsUpTo(base.(exhaustedTargets := base.exhaustedTargets + WaitingFrom(targets, s, i)),
                    Commit(Waiting(d, id, i, s)).report, targets, s, scripts, faults, left, i)
  {
    hide FailedUpTo, UnsupportedUpTo, WaitingFrom, Commit, Waiting, Midway;
    MidwayAt(d, id, i, targets);
    WaitingCounts(d, id, i, s, targets);
  }

  lemma NoneWaiting(targets: seq<TargetState>, s: Session)
    ensures WaitingFrom(targets, s, |targets|) == 0
  {
    assert targets[|targets|..] == [];
  }

  lemma {:induction false} LoopCounts(d: Desk, id: nat, s: Session, scripts: seq<seq<Fetch>>, faults: SessionFaults,
                                      i: nat, left: nat, clean: bool, targets: seq<TargetState>, all: nat, base: Report)
    requires Midway(d, id, i, targets) && i <= |targets| && Fits(scripts, faults, |targets|, all)
    requires left == LeftBefore(targets, s, scripts, faults, all, i)
    requires CountsUpTo(base, d.report, targets, s, scripts, faults, all, i)
    ensures var sweep := Loop(d, id, s, scripts, faults, |targets|, i, left, clean);
      sweep.Swept? ==>
        CountsUpTo(base.(exhaustedTargets := base.exhaustedTargets + WaitingFrom(targets, s, sweep.reached)),
                sweep.desk.report, targets, s, scripts, faults, all, sweep.reached)
    decreases |targets| - i
  {
    hide Attempt, CourseOf, Midway, CountsUpTo, Commit, Waiting, Onward, FailedBy, UnsupportedBy, Adds,
         WaitingFrom;
    MidwaySkips(d, id, i, targets);
    if i == |targets| {
      NoneWaiting(targets, s);
    } else {
      MidwayAt(d, id, i, targets);
      if Skipped(targets[i], s) {
        CountedSkips(base, d.report, targets, s, scripts, faults, all, i);
        LoopCounts(d, id, s, scripts, faults, i + 1, left, clean, targets, all, base);
      } else if left < 1 {
        WaitingCounted(d, id, i, s, targets, scripts, faults, all, base);
      } else if Loop(d, id, s, scripts, faults, |targets|, i, left, clean).Swept? {
        var a := Attempt(d, id, i, s, scripts[i], faults.targets[i], left);
        LoopGoesOn(d, id, s, scripts, faults, i, left, clean, targets);
        AttemptFollows(d, id, i, s, scripts[i], faults.targets[i], left);
        AttemptCounts(d, id, i, s, scripts[i], faults.targets[i], left);
        CountedNext(base, d.report, Onward(a, id, i).report, targets, s, scripts, faults, all, i);
        LoopCounts(Onward(a, id, i), id, s, scripts, faults, i + 1, a.left, clean && !a.raised, targets, all, base);
      }
    }
    hide Loop;
  }
}
