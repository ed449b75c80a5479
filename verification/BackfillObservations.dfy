/** What a session observes: for every target the emitted rows of its expected days, each
    as an observation, whether its price is canonical or in conflict. */
module BackfillObservations {
  import opened Common
  import opened Sorting
  import opened PriceTable
  import opened HistoryCollector
  import opened BackfillPlan
  import opened BackfillState
  import opened BackfillSession
  import opened BackfillCourse
  import opened BackfillTargets
  import opened BackfillFates
  import opened BackfillTallies

  /** The observations of the expected days among the pages. */
  function ObservedIn(pages: seq<HistoryPage>, expected: seq<Date>, symbol: nat, provider: nat,
                      now: Instant): seq<Observation>
  {
    Observed(symbol, Filter(AllRows(pages), Wanted(expected)), provider, now)
  }

  lemma ObservedAppend(pages: seq<HistoryPage>, page: HistoryPage, expected: seq<Date>, symbol: nat, provider: nat,
                       now: Instant)
    ensures ObservedIn(pages + [page], expected, symbol, provider, now)
         == ObservedIn(pages, expected, symbol, provider, now)
             + Observed(symbol, Filter(page.rows, Wanted(expected)), provider, now)
  {
    AllRowsAppend(pages, page);
    FilterAppend(AllRows(pages), page.rows, Wanted(expected));
    hide AllRows, Filter, Wanted;
  }

  /** The i-th target still expects these days, and what its pages showed is observed. */
  ghost predicate Seen(db: Db, id: nat, i: nat, earlier: seq<Observation>, pages: seq<HistoryPage>, expected: seq<Date>,
                       symbol: nat, provider: nat, now: Instant)
  {
    && HasTarget(db, id, i) && db.runs[id].targets[i].expected == expected && db.runs[id].manifest.provider == provider
    && db.observations == earlier + ObservedIn(pages, expected, symbol, provider, now)
  }

  lemma SeenStays(d: Desk, id: nat, i: nat, symbol: nat, counted: nat, left: nat, earlier: seq<Observation>,
                  pages: seq<HistoryPage>, expected: seq<Date>, provider: nat, now: Instant)
    requires Ready(d, id, i, symbol) && Seen(d.working, id, i, earlier, pages, expected, symbol, provider, now)
    ensures Seen(Record(d, id, counted, left).working, id, i, earlier, pages, expected, symbol, provider, now)
  {
    hide ObservedIn;
  }

  /** A page's rows are sorted, so saving sorts nothing. */
  lemma WantedSorted(page: HistoryPage, expected: seq<Date>)
    requires SortedBy(page.rows, PayloadKey)
    ensures SortBy(Filter(page.rows, Wanted(expected)), PayloadKey) == Filter(page.rows, Wanted(expected))
  {
    FilterSorted(page.rows, PayloadKey, Wanted(expected));
    SortOfSorted(Filter(page.rows, Wanted(expected)), PayloadKey);
  }

  lemma SavePageSees(d: Desk, id: nat, i: nat, symbol: nat, page: HistoryPage, now: Instant,
                     earlier: seq<Observation>, pages: seq<HistoryPage>, expected: seq<Date>, provider: nat)
    requires Ready(d, id, i, symbol) && SortedBy(page.rows, PayloadKey)
    requires Seen(d.working, id, i, earlier, pages, expected, symbol, provider, now)
    ensures var rows := Filter(page.rows, Wanted(expected));
      var e := if rows == [] then d else SavePage(d, id, i, symbol, rows, now);
      Seen(e.working, id, i, earlier, pages + [page], expected, symbol, provider, now)
  {
    hide SavePage, Ready, ObservedIn, Filter, SortBy, Wanted, Observed;
    SeenExpects(d.working, id, i, earlier, pages, expected, symbol, provider, now);
    var rows := Filter(page.rows, Wanted(expected));
    if rows == [] {
      NothingSeen(d.working, id, i, earlier, pages, page, expected, symbol, provider, now);
    } else {
      WantedSorted(page, expected);
      ObservedAppend(pages, page, expected, symbol, provider, now);
      SavePageShows(d, id, i, symbol, rows, now);
    }
  }

  lemma SavePageShows(d: Desk, id: nat, i: nat, symbol: nat, rows: seq<Payload>, now: Instant)
    requires Ready(d, id, i, symbol)
    ensures var provider, db := d.working.runs[id].manifest.provider, SavePage(d, id, i, symbol, rows, now).working;
      && HasTarget(db, id, i) && db.runs[id].manifest.provider == provider
      && db.runs[id].targets[i].expected == d.working.runs[id].targets[i].expected
      && db.observations == d.working.observations + Observed(symbol, SortBy(rows, PayloadKey), provider, now)
  {
    hide SaveAll, SortBy, Observed, Progressed;
    ProgressedExpects(d.working.runs[id].targets[i], SavedRows(d, id, symbol, rows).report.confirmed);
  }

  lemma ProgressedExpects(t: TargetState, dates: seq<Date>)
    ensures Progressed(t, dates).expected == t.expected
  {
  }

  lemma {:induction false} PagesObserve(d: Desk, id: nat, i: nat, symbol: nat, req: HistoryRequest, script: seq<Fetch>,
                                        st: State, faults: map<nat, Fault>, left: nat, now: Instant,
                                        earlier: seq<Observation>, expected: seq<Date>, provider: nat)
    requires |script| >= req.budget && Ready(d, id, i, symbol) && Books(req, st)
    requires Seen(d.working, id, i, earlier, st.pages, expected, symbol, provider, now)
    requires id in d.committed.runs ==> Seen(d.committed, id, i, earlier, st.pages, expected, symbol, provider, now)
    ensures var trip := Pages(d, id, i, symbol, req, script, st, faults, left, now);
      var e := Settled(trip);
      id in e.working.runs ==>
        Seen(e.working, id, i, earlier, Emitted(trip.end, trip.ending), expected, symbol, provider, now)
    decreases req.budget - st.summary.requestCount
  {
    hide Advance, Record, SavePage, Ready, Books, Seen, AllRows, Filter, Wanted;
    YieldCounts(req, script, st);
    DrainStep(req, script, st);
    AdvanceKeepsBooks(req, script, st);
    ReadyStays(d, id, i, symbol);
    SeenExpects(d.working, id, i, earlier, st.pages, expected, symbol, provider, now);
    var (next, out) := Advance(req, script, st);
    var counted := next.summary.requestCount - st.summary.requestCount;
    SeenStays(d, id, i, symbol, counted, left, earlier, st.pages, expected, provider, now);
    LogsStay(d, id, i, symbol, counted, left, [], now);
    var e, rest := Record(d, id, counted, left), left - Delta(counted, left);
    if out.Yielded? {
      SortedPage(req, next, out.page);
      assert next.pages == st.pages + [out.page] && next.pages[..|st.pages|] == st.pages;
      ReadyStays(e, id, i, symbol);
      var rows := Filter(out.page.rows, Wanted(expected));
      SavePageSees(e, id, i, symbol, out.page, now, earlier, st.pages, expected, provider);
      if rows == [] {
        if id in d.committed.runs {
          NothingSeen(d.committed, id, i, earlier, st.pages, out.page, expected, symbol, provider, now);
        }
        PagesObserve(e, id, i, symbol, req, script, next, faults, rest, now, earlier, expected, provider);
      } else {
        LogsStay(e, id, i, symbol, 0, 0, rows, now);
        var saved := SavePage(e, id, i, symbol, rows, now);
        ReadyStays(saved, id, i, symbol);
        if FaultAt(faults, out.page.number).NoFault? {
          PagesObserve(Commit(saved), id, i, symbol, req, script, next, faults, rest, now, earlier, expected, provider);
        }
      }
    }
  }

  lemma SeenExpects(db: Db, id: nat, i: nat, earlier: seq<Observation>, pages: seq<HistoryPage>, expected: seq<Date>,
                    symbol: nat, provider: nat, now: Instant)
    requires Seen(db, id, i, earlier, pages, expected, symbol, provider, now)
    ensures HasTarget(db, id, i) && db.runs[id].targets[i].expected == expected
  {
  }

  /** A page without expected days changes nothing. */
  lemma NothingSeen(db: Db, id: nat, i: nat, earlier: seq<Observation>, pages: seq<HistoryPage>, page: HistoryPage,
                    expected: seq<Date>, symbol: nat, provider: nat, now: Instant)
    requires Seen(db, id, i, earlier, pages, expected, symbol, provider, now)
    requires Filter(page.rows, Wanted(expected)) == []
    ensures Seen(db, id, i, earlier, pages + [page], expected, symbol, provider, now)
  {
    ObservedAppend(pages, page, expected, symbol, provider, now);
    assert Observed(symbol, [], provider, now) == [];
    var seen := ObservedIn(pages, expected, symbol, provider, now);
    assert seen + [] == seen;
    hide ObservedIn;
  }

  lemma SortedPage(req: HistoryRequest, st: State, page: HistoryPage)
    requires Books(req, st) && st.pages != [] && st.pages[|st.pages| - 1] == page
    ensures SortedBy(page.rows, PayloadKey)
  {
    assert page in st.pages;
  }

  // ---- one target, and all of them -------------------------------------

  /** What is observed for one target of a session that reaches it with `left` requests. */
  function ObservedBy(t: TargetState, s: Session, script: seq<Fetch>, faults: Faults, left: nat,
                      provider: nat): seq<Observation>
    requires |script| >= left
  {
    if t.symbolId.None? then []
    else ObservedIn(Served(t, s, script, faults, left), t.expected, t.symbolId.value, provider, s.now)
  }

  lemma ObservedUntried(t: TargetState, s: Session, script: seq<Fetch>, faults: Faults, left: nat, provider: nat)
    requires |script| >= left && (Unresolved(t) || NoIterator(s, faults))
    ensures ObservedBy(t, s, script, faults, left, provider) == []
  {
    hide LineOf;
  }

  lemma AttemptObserves(d: Desk, id: nat, i: nat, s: Session, script: seq<Fetch>, faults: Faults, left: nat)
    requires 1 <= left <= |script| && HasTarget(d.working, id, i) && InStep(d, id)
    requires Shape(d, id, |d.working.runs[id].targets|) && Heads(d, id, d.working.runs[id])
    requires var a := Attempt(d, id, i, s, script, faults, left); !a.raised || id in a.desk.committed.runs
    ensures Onward(Attempt(d, id, i, s, script, faults, left), id, i).working.observations
         == d.working.observations
             + ObservedBy(d.working.runs[id].targets[i], s, script, faults, left, d.working.runs[id].manifest.provider)
  {
    var t := d.working.runs[id].targets[i];
    if Unresolved(t) || NoIterator(s, faults) {
      ObservedUntried(t, s, script, faults, left, d.working.runs[id].manifest.provider);
      hide Pages, ObservedBy;
    } else {
      CollectedObserves(d, id, i, s, script, faults, left);
    }
  }

  lemma CollectedObserves(d: Desk, id: nat, i: nat, s: Session, script: seq<Fetch>, faults: Faults, left: nat)
    requires 1 <= left <= |script| && HasTarget(d.working, id, i) && InStep(d, id)
    requires Shape(d, id, |d.working.runs[id].targets|) && Heads(d, id, d.working.runs[id])
    requires !Unresolved(d.working.runs[id].targets[i]) && !NoIterator(s, faults)
    requires var a := Attempt(d, id, i, s, script, faults, left); !a.raised || id in a.desk.committed.runs
    ensures Onward(Attempt(d, id, i, s, script, faults, left), id, i).working.observations
         == d.working.observations
             + ObservedBy(d.working.runs[id].targets[i], s, script, faults, left, d.working.runs[id].manifest.provider)
  {
    hide Pages, PagesLine, Conclude, ObservedIn, Books, Emitted;
    var t, provider := d.working.runs[id].targets[i], d.working.runs[id].manifest.provider;
    var symbol, req := t.symbolId.value, Request(s, left);
    var trip := Pages(d, id, i, symbol, req, script, FRESH, faults.pages, left, s.now);
    FreshBooks(req);
    StartsUnseen(d, id, i, symbol, s.now);
    PagesObserve(d, id, i, symbol, req, script, FRESH, faults.pages, left, s.now, d.working.observations, t.expected,
                 provider);
    PagesFollow(d, id, i, symbol, req, script, FRESH, faults.pages, left, s.now, false);
    assert ExpectedOf(d, id, i) == t.expected;
    if trip.ending == Stopping {
      assert InStep(trip.desk, id) by {
        PagesTouch(d, id, i, symbol, req, script, FRESH, faults.pages, left, s.now, d.working.runs[id].targets);
      }
      ConcludedObserves(trip.desk, id, i, trip.end.summary.terminal, faults.conclusion, trip.left);
    }
  }

  lemma StartsUnseen(d: Desk, id: nat, i: nat, symbol: nat, now: Instant)
    requires HasTarget(d.working, id, i) && InStep(d, id) && Shape(d, id, |d.working.runs[id].targets|)
    requires Heads(d, id, d.working.runs[id])
    ensures var t, provider := d.working.runs[id].targets[i], d.working.runs[id].manifest.provider;
      && Seen(d.working, id, i, d.working.observations, [], t.expected, symbol, provider, now)
      && (id in d.committed.runs ==>
            Seen(d.committed, id, i, d.working.observations, [], t.expected, symbol, provider, now))
  {
    assert AllRows([]) == [];
  }

  lemma ConcludedObserves(d: Desk, id: nat, i: nat, terminal: Option<Terminal>, fault: Fault, left: nat)
    requires HasTarget(d.working, id, i) && Shape(d, id, |d.working.runs[id].targets|) && InStep(d, id)
    ensures var a := Conclude(d, id, i, terminal, fault, left);
      !a.raised || id in a.desk.committed.runs ==> Onward(a, id, i).working.observations == d.working.observations
  {
  }

  /** What is observed for the targets before the n-th. */
  function ObservedUpTo(targets: seq<TargetState>, s: Session, scripts: seq<seq<Fetch>>, faults: SessionFaults,
                        left: nat, provider: nat, n: nat): seq<Observation>
    requires n <= |targets| && Fits(scripts, faults, |targets|, left)
  {
    if n == 0 then []
    else ObservedUpTo(targets, s, scripts, faults, left, provider, n - 1)
         + if Worked(targets, s, scripts, faults, left, n - 1)
           then ObservedBy(targets[n - 1], s, scripts[n - 1], faults.targets[n - 1],
                           LeftBefore(targets, s, scripts, faults, left, n - 1), provider)
           else []
  }

  /** Where the loop stops, everything the targets before showed has been observed. */
  lemma {:induction false} LoopObserves(d: Desk, id: nat, s: Session, scripts: seq<seq<Fetch>>, faults: SessionFaults,
                                        i: nat, left: nat, clean: bool, targets: seq<TargetState>, all: nat, head: Run,
                                        earlier: seq<Observation>)
    requires Midway(d, id, i, targets) && i <= |targets| && Fits(scripts, faults, |targets|, all)
    requires left == LeftBefore(targets, s, scripts, faults, all, i) && Heads(d, id, head)
    requires d.working.observations
             == earlier + ObservedUpTo(targets, s, scripts, faults, all, head.manifest.provider, i)
    ensures var sweep := Loop(d, id, s, scripts, faults, |targets|, i, left, clean);
      sweep.Swept? ==>
        sweep.desk.working.observations
        == earlier + ObservedUpTo(targets, s, scripts, faults, all, head.manifest.provider, sweep.reached)
    decreases |targets| - i
  {
    hide Attempt, CourseOf, Midway, Commit, ObservedBy, Onward, Heads;
    MidwaySkips(d, id, i, targets);
    if i < |targets| {
      MidwayAt(d, id, i, targets);
      if Skipped(targets[i], s) {
        LoopObserves(d, id, s, scripts, faults, i + 1, left, clean, targets, all, head, earlier);
      } else if left < 1 {
        WaitingShows(d, id, i, s);
      } else if Loop(d, id, s, scripts, faults, |targets|, i, left, clean).Swept? {
        var a := Attempt(d, id, i, s, scripts[i], faults.targets[i], left);
        LoopGoesOn(d, id, s, scripts, faults, i, left, clean, targets);
        AttemptFollows(d, id, i, s, scripts[i], faults.targets[i], left);
        MidwayObserves(d, id, i, s, scripts[i], faults.targets[i], left, targets, head);
        LoopObserves(Onward(a, id, i), id, s, scripts, faults, i + 1, a.left, clean && !a.raised, targets, all, head,
                     earlier);
      }
    }
    hide Loop;
  }

  lemma WaitingShows(d: Desk, id: nat, i: nat, s: Session)
    requires HasTarget(d.working, id, i)
    ensures Commit(Waiting(d, id, i, s)).working.observations == d.working.observations
  {
  }

  lemma MidwayObserves(d: Desk, id: nat, i: nat, s: Session, script: seq<Fetch>, faults: Faults, left: nat,
                       targets: seq<TargetState>, head: Run)
    requires 1 <= left <= |script| && i < |targets| && Midway(d, id, i, targets) && Heads(d, id, head)
    requires var a := Attempt(d, id, i, s, script, faults, left); !a.raised || id in a.desk.committed.runs
    ensures var e := Onward(Attempt(d, id, i, s, script, faults, left), id, i);
      && e.working.observations
           == d.working.observations + ObservedBy(targets[i], s, script, faults, left, head.manifest.provider)
      && Heads(e, id, head)
  {
    hide Attempt, ObservedBy, Onward;
    AttemptObserves(d, id, i, s, script, faults, left);
    AttemptKeepsHead(d, id, i, s, script, faults, left, head);
  }
}
