/** What one traversal of the provider does to a backfill target: which dates its
    pages confirm, how it is concluded, and what a collected target means. */
module BackfillTargets {
  import opened Common
  import opened Sorting
  import Ascent
  import opened PriceTable
  import opened HistoryCollector
  import opened HistoryCompleteness
  import opened BackfillPlan
  import opened BackfillState
  import opened BackfillSession
  import opened BackfillCourse

  /** Some emitted row of the day agrees with the canonical price. */
  ghost predicate Agrees(emitted: seq<Payload>, symbol: nat, d: Date, prices: Prices) {
    exists row :: row in emitted && row.tradeDate == d && (symbol, d) in prices
        && prices[(symbol, d)].value == row.value
  }

  predicate SameTarget(a: TargetState, b: TargetState) {
    && a.instrumentId == b.instrumentId && a.symbolId == b.symbolId && a.providerCode == b.providerCode
    && a.market == b.market && a.expected == b.expected
  }

  /** `after` is the target once the emitted rows have been saved, in `saves` pages: every
      expected day among them has a price, and exactly those whose price agrees are
      confirmed besides what was confirmed before. */
  ghost predicate TakesIn(before: TargetState, after: TargetState, emitted: seq<Payload>, saves: nat, symbol: nat,
                          prices: Prices)
  {
    && SameTarget(before, after) && before.symbolId == Some(symbol)
    && (forall row :: row in emitted && row.tradeDate in before.expected ==> (symbol, row.tradeDate) in prices)
    && (forall d :: d in after.confirmed <==>
          d in before.confirmed || (d in before.expected && Agrees(emitted, symbol, d, prices)))
    && Progresses(before, after, saves)
  }

  /** Each saved page is an attempt; the last one sets the status the remaining dates call
      for and clears the failure. */
  ghost predicate Progresses(before: TargetState, after: TargetState, saves: nat) {
    if saves == 0 then after == before
    else
      && after.attempts == before.attempts + saves && after.failure.None?
      && (forall d :: d in after.remaining <==> d in before.expected && d !in after.confirmed)
      && after.status == if after.remaining == [] then Completed else Running
  }

  predicate HoldsExpected(rows: seq<Payload>, expected: seq<Date>) {
    exists row :: row in rows && row.tradeDate in expected
  }

  /** The pages that have something to save. */
  function SavedPages(pages: seq<HistoryPage>, expected: seq<Date>): nat
    decreases |pages|
  {
    if pages == [] then 0
    else SavedPages(pages[..|pages| - 1], expected)
         + if HoldsExpected(pages[|pages| - 1].rows, expected) then 1 else 0
  }

  lemma SavedPagesAppend(pages: seq<HistoryPage>, page: HistoryPage, expected: seq<Date>)
    ensures SavedPages(pages + [page], expected)
         == SavedPages(pages, expected) + if HoldsExpected(page.rows, expected) then 1 else 0
  {
    assert (pages + [page])[..|pages|] == pages;
  }

  lemma WantedIff(rows: seq<Payload>, expected: seq<Date>)
    ensures Filter(rows, Wanted(expected)) != [] <==> HoldsExpected(rows, expected)
  {
    if Filter(rows, Wanted(expected)) != [] {
      assert Filter(rows, Wanted(expected))[0] in Filter(rows, Wanted(expected));
    }
  }

  lemma TakesNothing(t: TargetState, symbol: nat, prices: Prices)
    requires t.symbolId == Some(symbol)
    ensures TakesIn(t, t, [], 0, symbol, prices)
  {
  }

  /** Later prices that only extend the table change nothing about it. */
  lemma TakesInExtends(before: TargetState, after: TargetState, emitted: seq<Payload>, saves: nat, symbol: nat,
                       prices: Prices, later: Prices)
    requires TakesIn(before, after, emitted, saves, symbol, prices) && Extends(prices, later)
    ensures TakesIn(before, after, emitted, saves, symbol, later)
  {
    forall d | d in before.expected ensures Agrees(emitted, symbol, d, prices) <==> Agrees(emitted, symbol, d, later) {
      AgreesExtends(before, emitted, symbol, d, prices, later);
    }
    hide Agrees;
  }

  lemma AgreesExtends(before: TargetState, emitted: seq<Payload>, symbol: nat, d: Date, prices: Prices, later: Prices)
    requires Extends(prices, later) && d in before.expected
    requires forall row :: row in emitted && row.tradeDate in before.expected ==> (symbol, row.tradeDate) in prices
    ensures Agrees(emitted, symbol, d, prices) <==> Agrees(emitted, symbol, d, later)
  {
  }

  lemma AgreesAppend(a: seq<Payload>, b: seq<Payload>, symbol: nat, d: Date, prices: Prices)
    ensures Agrees(a + b, symbol, d, prices) <==> Agrees(a, symbol, d, prices) || Agrees(b, symbol, d, prices)
  {
    assert forall row :: row in a + b <==> row in a || row in b;
  }

  lemma ProgressMembers(t: TargetState, dates: seq<Date>, d: Date)
    ensures d in Progressed(t, dates).confirmed <==> d in t.confirmed || (d in dates && d in t.expected)
  {
    var expected := Filter(dates, (x: Date) => x in t.expected);
    assert d in t.confirmed + expected <==> d in t.confirmed || d in expected;
  }

  /** The save confirms exactly the saved days whose price agrees. */
  lemma SaveConfirms(rows: seq<Payload>, symbol: nat, provider: nat, prices: Prices, d: Date)
    requires DistinctKeys(rows, PayloadKey)
    ensures var s := SaveAll(prices, symbol, provider, false, rows);
      d in s.report.confirmed <==> Agrees(rows, symbol, d, s.table)
  {
    var s := SaveAll(prices, symbol, provider, false, rows);
    ConfirmedHaveRows(prices, symbol, provider, false, rows);
    forall p | p in rows && p.tradeDate == d
      ensures d in s.report.confirmed <==> (symbol, d) in s.table && s.table[(symbol, d)].value == p.value
    {
      SavedValue(prices, symbol, provider, false, rows, p);
    }
    hide SaveAll;
  }

  lemma AgreesSameRows(a: seq<Payload>, b: seq<Payload>, symbol: nat, d: Date, prices: Prices)
    requires forall row: Payload :: row.tradeDate == d ==> (row in a <==> row in b)
    ensures Agrees(a, symbol, d, prices) <==> Agrees(b, symbol, d, prices)
  {
  }

  /** The target and the prices after one more page. */
  ghost predicate PageTaken(mid: TargetState, after: TargetState, page: seq<Payload>, symbol: nat, provider: nat,
                            prices: Prices, later: Prices) {
    var rows := Filter(page, Wanted(mid.expected));
    var saved := SaveAll(prices, symbol, provider, false, SortBy(rows, PayloadKey));
    if rows == [] then after == mid && later == prices
    else after == Progressed(mid, saved.report.confirmed) && later == saved.table
  }

  lemma WantedRows(page: seq<Payload>, expected: seq<Date>, d: Date)
    requires DistinctKeys(page, PayloadKey)
    ensures var rows := SortBy(Filter(page, Wanted(expected)), PayloadKey);
      && DistinctKeys(rows, PayloadKey)
      && forall row :: row in rows <==> row in page && row.tradeDate in expected
  {
    var rows := Filter(page, Wanted(expected));
    FilterDistinct(page, PayloadKey, Wanted(expected));
    SortDistinct(rows, PayloadKey, PayloadKey);
    SortMembers(rows, PayloadKey);
  }

  lemma PageExtends(mid: TargetState, after: TargetState, page: seq<Payload>, symbol: nat, provider: nat,
                    prices: Prices, later: Prices)
    requires PageTaken(mid, after, page, symbol, provider, prices, later)
    ensures Extends(prices, later) && after.expected == mid.expected && after.symbolId == mid.symbolId
    ensures forall k :: k in later && k !in prices ==> k.0 == symbol
  {
    var rows := SortBy(Filter(page, Wanted(mid.expected)), PayloadKey);
    HistoricalNeverAlters(prices, symbol, provider, rows);
    forall k | k in later && k !in prices ensures k.0 == symbol {
      SavedKeys(prices, symbol, provider, false, rows, k);
    }
    hide SaveAll;
  }

  /** Which days one page confirms. */
  lemma PageConfirms(mid: TargetState, after: TargetState, page: seq<Payload>, symbol: nat, provider: nat,
                     prices: Prices, later: Prices, d: Date)
    requires PageTaken(mid, after, page, symbol, provider, prices, later) && DistinctKeys(page, PayloadKey)
    ensures d in after.confirmed <==> d in mid.confirmed || (d in mid.expected && Agrees(page, symbol, d, later))
    ensures forall row :: row in page && row.tradeDate in mid.expected ==> (symbol, row.tradeDate) in later
  {
    var wanted := Filter(page, Wanted(mid.expected));
    var rows := SortBy(wanted, PayloadKey);
    WantedRows(page, mid.expected, d);
    if wanted == [] {
      assert forall row :: row in page ==> row !in wanted;
    } else {
      SaveConfirms(rows, symbol, provider, prices, d);
      ProgressMembers(mid, SaveAll(prices, symbol, provider, false, rows).report.confirmed, d);
      forall row | row in rows ensures (symbol, row.tradeDate) in later {
        SavedValue(prices, symbol, provider, false, rows, row);
      }
      hide SaveAll, Progressed;
      if d in mid.expected {
        AgreesSameRows(rows, page, symbol, d, later);
      }
    }
  }

  /** One more page keeps the account of all pages so far. */
  lemma PageTakesIn(before: TargetState, mid: TargetState, after: TargetState, emitted: seq<Payload>, saves: nat,
                    page: seq<Payload>, symbol: nat, provider: nat, prices: Prices, later: Prices)
    requires TakesIn(before, mid, emitted, saves, symbol, prices) && DistinctKeys(page, PayloadKey)
    requires PageTaken(mid, after, page, symbol, provider, prices, later)
    ensures TakesIn(before, after, emitted + page,
                    saves + if HoldsExpected(page, before.expected) then 1 else 0, symbol, later)
  {
    hide Agrees, PageTaken, Progresses, DistinctKeys, HoldsExpected;
    PageExtends(mid, after, page, symbol, provider, prices, later);
    TakesInExtends(before, mid, emitted, saves, symbol, prices, later);
    ProgressesNext(before, mid, after, saves, page, symbol, provider, prices, later);
    forall d
      ensures d in after.confirmed <==> d in mid.confirmed || (d in mid.expected && Agrees(page, symbol, d, later))
      ensures Agrees(emitted + page, symbol, d, later)
              <==> Agrees(emitted, symbol, d, later) || Agrees(page, symbol, d, later)
    {
      PageConfirms(mid, after, page, symbol, provider, prices, later, d);
      AgreesAppend(emitted, page, symbol, d, later);
    }
    forall row | row in emitted + page && row.tradeDate in before.expected ensures (symbol, row.tradeDate) in later {
      PageConfirms(mid, after, page, symbol, provider, prices, later, row.tradeDate);
    }
  }

  lemma ProgressesNext(before: TargetState, mid: TargetState, after: TargetState, saves: nat, page: seq<Payload>,
                       symbol: nat, provider: nat, prices: Prices, later: Prices)
    requires SameTarget(before, mid) && Progresses(before, mid, saves)
    requires PageTaken(mid, after, page, symbol, provider, prices, later)
    ensures SameTarget(before, after)
    ensures Progresses(before, after, saves + if HoldsExpected(page, before.expected) then 1 else 0)
  {
    hide SaveAll, HoldsExpected, Ascent.SortedDistinct;
    WantedIff(page, mid.expected);
  }

  // ---- the pages of one target -----------------------------------------

  /** New prices are of one symbol, and none is lost or altered. */
  ghost predicate OnlySymbol(a: Prices, b: Prices, symbol: nat) {
    Extends(a, b) && forall k :: k in b && k !in a ==> k.0 == symbol
  }

  lemma OnlySymbolTransitive(a: Prices, b: Prices, c: Prices, symbol: nat)
    requires OnlySymbol(a, b, symbol) && OnlySymbol(b, c, symbol)
    ensures OnlySymbol(a, c, symbol)
  {
    ExtendsTransitive(a, b, c);
  }

  /** The emitted pages that stay saved: all, or all but the one whose save raised. */
  function Emitted(end: State, ending: Ending): seq<HistoryPage> {
    if ending == SaveRaised && end.pages != [] then end.pages[..|end.pages| - 1] else end.pages
  }

  /** The desk once a raise has been rolled back. */
  function Settled(trip: Trip): Desk { if trip.ending == Stopping then trip.desk else Rollback(trip.desk) }

  /** The target has taken in these pages. */
  ghost predicate TakesPages(before: TargetState, after: TargetState, pages: seq<HistoryPage>, symbol: nat,
                             prices: Prices)
  {
    TakesIn(before, after, AllRows(pages), SavedPages(pages, before.expected), symbol, prices)
  }

  /** The stored i-th target has taken in these pages. */
  ghost predicate Taken(db: Db, id: nat, i: nat, before: TargetState, pages: seq<HistoryPage>, symbol: nat) {
    HasTarget(db, id, i) && TakesPages(before, db.runs[id].targets[i], pages, symbol, db.prices)
  }

  lemma SavePageTakes(d: Desk, id: nat, i: nat, symbol: nat, page: HistoryPage, now: Instant, before: TargetState,
                      pages: seq<HistoryPage>)
    requires Ready(d, id, i, symbol) && Taken(d.working, id, i, before, pages, symbol)
             && DistinctKeys(page.rows, PayloadKey)
    ensures var t := d.working.runs[id].targets[i];
      var rows := Filter(page.rows, Wanted(t.expected));
      var e := if rows == [] then d else SavePage(d, id, i, symbol, rows, now);
      && Taken(e.working, id, i, before, pages + [page], symbol)
      && OnlySymbol(d.working.prices, e.working.prices, symbol)
  {
    hide PageTaken, TakesIn, SavedPages, HoldsExpected, AllRows, SavePage, Ready, OnlySymbol;
    var t, provider := d.working.runs[id].targets[i], d.working.runs[id].manifest.provider;
    var rows := Filter(page.rows, Wanted(t.expected));
    var e := if rows == [] then d else SavePage(d, id, i, symbol, rows, now);
    SavedAsPage(d, id, i, symbol, page.rows, now);
    var u := e.working.runs[id].targets[i];
    AllRowsAppend(pages, page);
    SavedPagesAppend(pages, page, before.expected);
    PageTakesIn(before, t, u, AllRows(pages), SavedPages(pages, before.expected), page.rows, symbol, provider,
                d.working.prices, e.working.prices);
    PageOfSymbol(t, u, page.rows, symbol, provider, d.working.prices, e.working.prices);
  }

  lemma PageOfSymbol(mid: TargetState, after: TargetState, page: seq<Payload>, symbol: nat, provider: nat,
                     prices: Prices, later: Prices)
    requires PageTaken(mid, after, page, symbol, provider, prices, later)
    ensures OnlySymbol(prices, later, symbol)
  {
    PageExtends(mid, after, page, symbol, provider, prices, later);
    hide PageTaken;
  }

  lemma SavedAsPage(d: Desk, id: nat, i: nat, symbol: nat, page: seq<Payload>, now: Instant)
    requires Ready(d, id, i, symbol)
    ensures var t, provider := d.working.runs[id].targets[i], d.working.runs[id].manifest.provider;
      var rows := Filter(page, Wanted(t.expected));
      var e := if rows == [] then d else SavePage(d, id, i, symbol, rows, now);
      && HasTarget(e.working, id, i)
      && PageTaken(t, e.working.runs[id].targets[i], page, symbol, provider, d.working.prices, e.working.prices)
  {
    hide SaveAll, Progressed, Observed, Filter;
  }

  lemma TakenStays(a: Db, b: Db, id: nat, i: nat, before: TargetState, pages: seq<HistoryPage>,
                   symbol: nat)
    requires Taken(a, id, i, before, pages, symbol) && id in b.runs && b.prices == a.prices
    requires b.runs[id].targets == a.runs[id].targets
    ensures Taken(b, id, i, before, pages, symbol)
  {
    hide TakesPages;
  }

  lemma StepsKeepTaken(d: Desk, id: nat, i: nat, symbol: nat, counted: nat, left: nat)
    requires Ready(d, id, i, symbol)
    ensures var e := Record(d, id, counted, left);
      && id in e.working.runs && e.working.prices == d.working.prices
      && e.working.runs[id].targets == d.working.runs[id].targets
    ensures InStep(d, id) && id in d.committed.runs ==>
              d.committed.prices == d.working.prices && d.committed.runs[id].targets == d.working.runs[id].targets
  {
  }

  /** What the pages of a target have saved, once a raise has been rolled back. */
  lemma {:induction false} PagesTake(d: Desk, id: nat, i: nat, symbol: nat, req: HistoryRequest, script: seq<Fetch>,
                                     st: State, faults: map<nat, Fault>, left: nat, now: Instant, before: TargetState)
    requires |script| >= req.budget && Ready(d, id, i, symbol) && InStep(d, id) && Books(req, st)
    requires Taken(d.working, id, i, before, st.pages, symbol)
    ensures var trip := Pages(d, id, i, symbol, req, script, st, faults, left, now);
      var e := Settled(trip);
      id in e.working.runs ==>
        && Taken(e.working, id, i, before, Emitted(trip.end, trip.ending), symbol)
        && OnlySymbol(d.working.prices, e.working.prices, symbol)
    decreases req.budget - st.summary.requestCount
  {
    hide Advance, Record, SavePage, Ready, InStep, Books, Taken, AllRows, OnlySymbol, Filter, Wanted;
    YieldCounts(req, script, st);
    DrainStep(req, script, st);
    AdvanceKeepsBooks(req, script, st);
    ReadyStays(d, id, i, symbol);
    InStepStays(d, id, i, symbol);
    var (next, out) := Advance(req, script, st);
    var counted := next.summary.requestCount - st.summary.requestCount;
    StepsKeepTaken(d, id, i, symbol, counted, left);
    var e, rest := Record(d, id, counted, left), left - Delta(counted, left);
    TakenStays(d.working, e.working, id, i, before, st.pages, symbol);
    NothingNew(d.working.prices, symbol);
    if id in d.committed.runs {
      TakenStays(d.working, d.committed, id, i, before, st.pages, symbol);
    }
    if out.Yielded? {
      PageOfBooks(req, next, out.page);
      assert next.pages == st.pages + [out.page] && next.pages[..|st.pages|] == st.pages;
      ReadyStays(e, id, i, symbol);
      InStepStays(e, id, i, symbol);
      var rows := Filter(out.page.rows, Wanted(d.working.runs[id].targets[i].expected));
      SavePageTakes(e, id, i, symbol, out.page, now, before, st.pages);
      if rows == [] {
        PagesTake(e, id, i, symbol, req, script, next, faults, rest, now, before);
      } else {
        LogsStay(d, id, i, symbol, counted, left, [], now);
        LogsStay(e, id, i, symbol, 0, 0, rows, now);
        var saved := SavePage(e, id, i, symbol, rows, now);
        ReadyStays(saved, id, i, symbol);
        InStepStays(saved, id, i, symbol);
        if FaultAt(faults, out.page.number).NoFault? {
          ReadyRun(saved, id, i, symbol);
          PagesTake(Commit(saved), id, i, symbol, req, script, next, faults, rest, now, before);
          var trip := Pages(Commit(saved), id, i, symbol, req, script, next, faults, rest, now);
          if id in Settled(trip).working.runs {
            OnlySymbolTransitive(d.working.prices, saved.working.prices, Settled(trip).working.prices, symbol);
          }
        }
      }
    }
  }

  lemma NothingNew(prices: Prices, symbol: nat)
    ensures OnlySymbol(prices, prices, symbol)
  {
  }

  /** One generator step within the whole traversal. */
  lemma DrainStep(req: HistoryRequest, script: seq<Fetch>, st: State)
    requires |script| >= req.budget
    ensures var (next, out) := Advance(req, script, st);
      && Drain(req, script, st) == (if out.Yielded? then Drain(req, script, next) else next)
      && (out.Yielded? ==> next.pages == st.pages + [out.page])
      && (!out.Yielded? ==> next.pages == st.pages)
  {
    hide Absorb, Oldest, SortBy;
  }

  lemma PageOfBooks(req: HistoryRequest, st: State, page: HistoryPage)
    requires Books(req, st) && st.pages != [] && st.pages[|st.pages| - 1] == page
    ensures DistinctKeys(page.rows, PayloadKey)
    ensures AllRows(st.pages) == AllRows(st.pages[..|st.pages| - 1]) + page.rows
  {
    DistinctParts(AllRows(st.pages[..|st.pages| - 1]), page.rows, PayloadKey);
  }

  // ---- where the pages of a target end ---------------------------------

  /** The save of the page raises: it has an expected day, and a fault is set on its number. */
  predicate Fails(page: HistoryPage, expected: seq<Date>, faults: map<nat, Fault>) {
    HoldsExpected(page.rows, expected) && page.number in faults && faults[page.number] != NoFault
  }

  lemma {:induction false} LineReads(expected: seq<Date>, req: HistoryRequest, script: seq<Fetch>, st: State,
                                     faults: map<nat, Fault>, left: nat, saved: bool)
    requires |script| >= req.budget && !st.phase.Finished? && st.summary.terminal.None?
    ensures var line, full := PagesLine(expected, req, script, st, faults, left, saved), Drain(req, script, st);
      && st.pages <= full.pages
      && if line.ending == SaveRaised then
           && st.pages < line.end.pages <= full.pages && Fails(line.end.pages[|line.end.pages| - 1], expected, faults)
           && forall i :: |st.pages| <= i < |line.end.pages| - 1 ==> !Fails(full.pages[i], expected, faults)
         else
           && line.end == full && line.ending == (if full.summary.terminal.None? then IteratorRaised else Stopping)
           && forall i :: |st.pages| <= i < |full.pages| ==> !Fails(full.pages[i], expected, faults)
    decreases req.budget - st.summary.requestCount
  {
    hide Advance, Filter, Wanted, HoldsExpected, PagesLine, Drain;
    YieldCounts(req, script, st);
    LineNext(expected, req, script, st, faults, left, saved);
    DrainStep(req, script, st);
    AdvanceEnds(req, script, st);
    var (next, out) := Advance(req, script, st);
    if out.Yielded? {
      WantedIff(out.page.rows, expected);
      var rest := left - Delta(next.summary.requestCount - st.summary.requestCount, left);
      if Filter(out.page.rows, Wanted(expected)) == [] {
        LineReads(expected, req, script, next, faults, rest, saved);
      } else if FaultAt(faults, out.page.number) == NoFault {
        LineReads(expected, req, script, next, faults, rest, true);
      } else {
        DrainExtends(req, script, next);
      }
    }
  }

  lemma {:induction false} DrainExtends(req: HistoryRequest, script: seq<Fetch>, st: State)
    requires |script| >= req.budget
    ensures st.pages <= Drain(req, script, st).pages
    decreases req.budget - st.summary.requestCount
  {
    hide Advance;
    YieldCounts(req, script, st);
    DrainStep(req, script, st);
    if Advance(req, script, st).1.Yielded? {
      DrainExtends(req, script, Advance(req, script, st).0);
    }
  }

  lemma AdvanceEnds(req: HistoryRequest, script: seq<Fetch>, st: State)
    requires |script| >= req.budget && !st.phase.Finished? && st.summary.terminal.None?
    ensures var (next, out) := Advance(req, script, st);
      && (out.Yielded? ==> !next.phase.Finished? && next.summary.terminal.None?)
      && (out.Stopped? ==> next.summary.terminal.Some?) && (out.Raised? ==> next.summary.terminal.None?)
  {
    hide Absorb, Oldest, SortBy;
  }

  /** The pages of a target, against the whole traversal: they end with the first page that
      has an expected day and whose save raises; without such a page they are the whole
      traversal, which the iterator itself breaks off exactly if it has no terminal reason. */
  lemma LineMeans(t: TargetState, s: Session, script: seq<Fetch>, faults: Faults, left: nat)
    requires |script| >= left
    ensures var line, full := LineOf(t, s, script, faults, left), Drain(Request(s, left), script, FRESH);
      if line.ending == SaveRaised then
        && 0 < |line.end.pages| <= |full.pages| && line.end.pages == full.pages[..|line.end.pages|]
        && Fails(line.end.pages[|line.end.pages| - 1], t.expected, faults.pages)
        && forall i :: 0 <= i < |line.end.pages| - 1 ==> !Fails(full.pages[i], t.expected, faults.pages)
      else
        && line.end == full && line.ending == (if full.summary.terminal.None? then IteratorRaised else Stopping)
        && forall i :: 0 <= i < |full.pages| ==> !Fails(full.pages[i], t.expected, faults.pages)
  {
    hide PagesLine, Drain, Fails;
    LineReads(t.expected, Request(s, left), script, FRESH, faults.pages, left, false);
  }

  // ---- the fate of one target ------------------------------------------

  /** The provider is not asked for the target at all. */
  predicate Untried(t: TargetState, s: Session, faults: Faults) {
    t.providerCode.None? || t.symbolId.None? || faults.factory || s.end < s.start
  }

  /** The pages of a target that stay saved. */
  function Served(t: TargetState, s: Session, script: seq<Fetch>, faults: Faults, left: nat): seq<HistoryPage>
    requires |script| >= left
  {
    if Untried(t, s, faults) then []
    else
      var line := LineOf(t, s, script, faults, left);
      Emitted(line.end, line.ending)
  }

  /** The terminal reason of a traversal that is not cut short by a raise. */
  function TerminalOf(t: TargetState, s: Session, script: seq<Fetch>, faults: Faults, left: nat): Option<Terminal>
    requires |script| >= left
  {
    if Untried(t, s, faults) || LineOf(t, s, script, faults, left).ending != Stopping then None
    else LineOf(t, s, script, faults, left).end.summary.terminal
  }

  /** Why the target fails, if it does: its identity is not resolved, the traversal ends in
      a failed fetch or an unsupported answer, or something raises. */
  function WhyFailed(t: TargetState, s: Session, script: seq<Fetch>, faults: Faults, left: nat): Option<FailureReason>
    requires |script| >= left
  {
    var terminal := TerminalOf(t, s, script, faults, left);
    if t.providerCode.None? || t.symbolId.None? then
      Some(if faults.conclusion == NoFault then UnresolvedIdentity else WriteFailure)
    else if Untried(t, s, faults) || LineOf(t, s, script, faults, left).ending != Stopping then Some(WriteFailure)
    else if terminal == Some(FailedFetch) then
      Some(if faults.conclusion == NoFault then FetchFailure else WriteFailure)
    else if terminal == Some(ProviderUnsupported) then
      Some(if faults.conclusion == NoFault then Unsupported else WriteFailure)
    else if terminal in {Some(CollectionStartReached), Some(ProviderExhausted)} && faults.conclusion != NoFault then
      Some(WriteFailure)
    else None
  }

  /** The days a target has confirmed after the given pages: those before, and the expected
      days whose emitted price agrees with the canonical one. */
  ghost predicate Confirms(before: TargetState, after: TargetState, pages: seq<HistoryPage>, prices: Prices) {
    if before.symbolId.None? || SavedPages(pages, before.expected) == 0 then
      after.confirmed == before.confirmed && after.remaining == before.remaining
    else
      && (forall row :: row in AllRows(pages) && row.tradeDate in before.expected ==>
            (before.symbolId.value, row.tradeDate) in prices)
      && (forall d :: d in after.confirmed <==>
            d in before.confirmed
            || (d in before.expected && Agrees(AllRows(pages), before.symbolId.value, d, prices)))
      && (forall d :: d in after.remaining <==> d in before.expected && d !in after.confirmed)
  }

  /** What becomes of a target in a session that reaches it with `left` requests.  It fails
      for the reason above; it is completed when the traversal ends at the collection start
      or the provider's end; otherwise a saved page leaves it completed or running by the
      days that remain, and no saved page leaves it as it was.  Every saved page and every
      failure is an attempt. */
  ghost predicate Fate(before: TargetState, after: TargetState, s: Session, script: seq<Fetch>, faults: Faults,
                       left: nat, prices: Prices)
    requires |script| >= left
  {
    if before.status == Completed || before.status !in s.statuses then after == before
    else
      var pages := Served(before, s, script, faults, left);
      var saves := SavedPages(pages, before.expected);
      && SameTarget(before, after) && Confirms(before, after, pages, prices)
      && match WhyFailed(before, s, script, faults, left)
         case Some(reason) =>
           after.status == Failed && after.failure == Some(reason) && after.attempts == before.attempts + saves + 1
         case None =>
           && after.attempts == before.attempts + saves
           && after.failure == (if saves == 0 then before.failure else None)
           && after.status ==
                if TerminalOf(before, s, script, faults, left)
                   in {Some(CollectionStartReached), Some(ProviderExhausted)}
                then Completed
                else if saves == 0 then before.status
                else if after.remaining == [] then Completed else Running
  }

  lemma TakesPagesConfirms(before: TargetState, taken: TargetState, after: TargetState, pages: seq<HistoryPage>,
                           symbol: nat, prices: Prices)
    requires TakesPages(before, taken, pages, symbol, prices)
    requires after.confirmed == taken.confirmed && after.remaining == taken.remaining
    ensures Confirms(before, after, pages, prices)
  {
    hide Agrees, AllRows, SavedPages;
  }

  lemma FateOf(before: TargetState, taken: TargetState, s: Session, script: seq<Fetch>, faults: Faults, left: nat,
               prices: Prices)
    requires |script| >= left && !Skipped(before, s) && !Unresolved(before) && !NoIterator(s, faults)
    requires var line := LineOf(before, s, script, faults, left);
      TakesPages(before, taken, Emitted(line.end, line.ending), before.symbolId.value, prices)
    ensures var line := LineOf(before, s, script, faults, left);
      var raised := CourseOf(before, s, script, faults, left).raised;
      var after := if raised then Rejected(taken, WriteFailure) else Concluding(taken, line.end.summary.terminal);
      Fate(before, after, s, script, faults, left, prices)
  {
    hide Emitted, LineOf, Agrees, AllRows, SavedPages, Confirms;
    var line := LineOf(before, s, script, faults, left);
    var raised := CourseOf(before, s, script, faults, left).raised;
    var after := if raised then Rejected(taken, WriteFailure) else Concluding(taken, line.end.summary.terminal);
    TakesPagesConfirms(before, taken, after, Emitted(line.end, line.ending), before.symbolId.value, prices);
  }

  /** A target the provider is not asked for. */
  lemma FateOfUntried(before: TargetState, s: Session, script: seq<Fetch>, faults: Faults, left: nat, prices: Prices)
    requires |script| >= left && !Skipped(before, s) && (Unresolved(before) || NoIterator(s, faults))
    ensures var marked := Unresolved(before) && faults.conclusion == NoFault;
      var reason := if marked then UnresolvedIdentity else WriteFailure;
      Fate(before, Rejected(before, reason), s, script, faults, left, prices)
  {
    hide LineOf;
  }

  lemma FateExtends(before: TargetState, after: TargetState, s: Session, script: seq<Fetch>, faults: Faults, left: nat,
                    prices: Prices, later: Prices)
    requires |script| >= left && Fate(before, after, s, script, faults, left, prices) && Extends(prices, later)
    ensures Fate(before, after, s, script, faults, left, later)
  {
    hide Extends, Confirms, Served, WhyFailed, TerminalOf;
    if !(before.status == Completed || before.status !in s.statuses) {
      ConfirmsExtends(before, after, Served(before, s, script, faults, left), prices, later);
    }
  }

  lemma ConfirmsExtends(before: TargetState, after: TargetState, pages: seq<HistoryPage>, prices: Prices, later: Prices)
    requires Confirms(before, after, pages, prices) && Extends(prices, later)
    ensures Confirms(before, after, pages, later)
  {
    hide Agrees, AllRows, SavedPages;
    if before.symbolId.Some? && SavedPages(pages, before.expected) > 0 {
      forall d | d in before.expected
        ensures Agrees(AllRows(pages), before.symbolId.value, d, prices)
                <==> Agrees(AllRows(pages), before.symbolId.value, d, later)
      {
        AgreesExtends(before, AllRows(pages), before.symbolId.value, d, prices, later);
      }
    }
  }

  /** Without a saved page no expected day has been emitted. */
  lemma {:induction false} NothingExpected(pages: seq<HistoryPage>, expected: seq<Date>)
    ensures SavedPages(pages, expected) == 0 <==> !HoldsExpected(AllRows(pages), expected)
    decreases |pages|
  {
    if pages != [] {
      NothingExpected(pages[..|pages| - 1], expected);
    }
  }

  /** Collection finished at a normal boundary of a consistent provider: an expected
      day of the range is confirmed exactly when it was before or the provider has a
      row of that day that agrees with the canonical price.  So a day left over is
      one the provider does not have, or one in conflict. */
  lemma CollectedMeansServed(before: TargetState, after: TargetState, s: Session, script: seq<Fetch>, faults: Faults,
                             left: nat, history: seq<Payload>, slices: seq<Slice>, prices: Prices, d: Date)
    requires s.start <= d <= s.end && 1 <= left <= |script| && Consistent(history, script, slices)
    requires !Skipped(before, s) && !Unresolved(before) && d in before.expected
    requires Fate(before, after, s, script, faults, left, prices)
    requires !CourseOf(before, s, script, faults, left).raised
    requires Conclusive(LineOf(before, s, script, faults, left).end)
    ensures after.status == Completed
    ensures d in after.confirmed <==> d in before.confirmed || Agrees(history, before.symbolId.value, d, prices)
  {
    var req, line := Request(s, left), LineOf(before, s, script, faults, left);
    LineIsTraversal(before.expected, req, script, FRESH, faults.pages, left, false);
    CompleteTraversal(req, history, script, slices);
    hide PagesLine, Drain, AllRows, Consistent, SavedPages, Agrees, Confirms;
    assert Confirms(before, after, line.end.pages, prices);
    ConfirmedDay(before, after, line.end.pages, prices, d);
    AgreesSameRows(AllRows(line.end.pages), history, before.symbolId.value, d, prices);
  }

  lemma ConfirmedDay(before: TargetState, after: TargetState, pages: seq<HistoryPage>, prices: Prices, d: Date)
    requires before.symbolId.Some? && Confirms(before, after, pages, prices) && d in before.expected
    ensures d in after.confirmed
       <==> d in before.confirmed || Agrees(AllRows(pages), before.symbolId.value, d, prices)
  {
    NothingExpected(pages, before.expected);
    hide AllRows, SavedPages;
  }

  /** The desk when the session goes on after the i-th target, if the run is still there. */
  function Onward(a: Attempted, id: nat, i: nat): Desk {
    if !a.raised then a.desk
    else if HasTarget(Rollback(a.desk).working, id, i) then Commit(Failing(Rollback(a.desk), id, i))
    else a.desk
  }

  /** One target meets its fate, and no price is lost or altered. */
  lemma AttemptFate(d: Desk, id: nat, i: nat, s: Session, script: seq<Fetch>, faults: Faults, left: nat,
                    targets: seq<TargetState>)
    requires 1 <= left <= |script| && i < |targets| && Midway(d, id, i, targets) && !Skipped(targets[i], s)
    requires var a := Attempt(d, id, i, s, script, faults, left); !a.raised || id in a.desk.committed.runs
    ensures var e := Onward(Attempt(d, id, i, s, script, faults, left), id, i);
      && Midway(e, id, i + 1, targets) && Others(e, id, i, d.working.runs[id].targets)
      && Fate(targets[i], e.working.runs[id].targets[i], s, script, faults, left, e.working.prices)
      && Extends(d.working.prices, e.working.prices)
  {
    hide Attempt, Fate, Extends, Unresolved, NoIterator;
    NextTarget(d, id, i, s, script, faults, left, targets);
    if Unresolved(targets[i]) || NoIterator(s, faults) {
      MarkedFate(d, id, i, s, script, faults, left);
    } else {
      CollectedFate(d, id, i, s, script, faults, left);
    }
  }

  /** A target whose pages are asked for takes in what they save. */
  lemma CollectedFate(d: Desk, id: nat, i: nat, s: Session, script: seq<Fetch>, faults: Faults, left: nat)
    requires 1 <= left <= |script| && HasTarget(d.working, id, i) && InStep(d, id)
    requires Shape(d, id, |d.working.runs[id].targets|) && !Skipped(d.working.runs[id].targets[i], s)
    requires !Unresolved(d.working.runs[id].targets[i]) && !NoIterator(s, faults)
    requires var a := Attempt(d, id, i, s, script, faults, left); !a.raised || id in a.desk.committed.runs
    ensures var e := Onward(Attempt(d, id, i, s, script, faults, left), id, i);
      && HasTarget(e.working, id, i) && Extends(d.working.prices, e.working.prices)
      && Fate(d.working.runs[id].targets[i], e.working.runs[id].targets[i], s, script, faults, left, e.working.prices)
  {
    hide Attempt, LineOf, CourseOf, Emitted, TakesPages, Fate, Extends, TakenBy, Onward, Rejected, Concluding;
    AttemptTakes(d, id, i, s, script, faults, left);
    AttemptFollows(d, id, i, s, script, faults, left);
    var e := Onward(Attempt(d, id, i, s, script, faults, left), id, i);
    var taken := TakenBy(d, id, i, s, script, faults, left);
    FateOf(d.working.runs[id].targets[i], taken, s, script, faults, left, e.working.prices);
  }

  /** A target that is not collected is marked, or fails for the fault alone. */
  lemma MarkedFate(d: Desk, id: nat, i: nat, s: Session, script: seq<Fetch>, faults: Faults, left: nat)
    requires 1 <= left <= |script| && HasTarget(d.working, id, i) && InStep(d, id)
    requires Shape(d, id, |d.working.runs[id].targets|) && !Skipped(d.working.runs[id].targets[i], s)
    requires Unresolved(d.working.runs[id].targets[i]) || NoIterator(s, faults)
    requires var a := Attempt(d, id, i, s, script, faults, left); !a.raised || id in a.desk.committed.runs
    ensures var e := Onward(Attempt(d, id, i, s, script, faults, left), id, i);
      && HasTarget(e.working, id, i) && Extends(d.working.prices, e.working.prices)
      && Fate(d.working.runs[id].targets[i], e.working.runs[id].targets[i], s, script, faults, left, e.working.prices)
  {
    hide Pages, LineOf, Fate;
    var e := Onward(Attempt(d, id, i, s, script, faults, left), id, i);
    FateOfUntried(d.working.runs[id].targets[i], s, script, faults, left, e.working.prices);
  }

  /** The target as its pages left it, once a raise has been rolled back. */
  function TakenBy(d: Desk, id: nat, i: nat, s: Session, script: seq<Fetch>, faults: Faults, left: nat): TargetState
    requires |script| >= left && HasTarget(d.working, id, i) && Shape(d, id, |d.working.runs[id].targets|)
    requires !Unresolved(d.working.runs[id].targets[i]) && !NoIterator(s, faults)
  {
    var t := d.working.runs[id].targets[i];
    var trip := Pages(d, id, i, t.symbolId.value, Request(s, left), script, FRESH, faults.pages, left, s.now);
    if HasTarget(Settled(trip).working, id, i) then Settled(trip).working.runs[id].targets[i] else t
  }

  lemma AttemptTakes(d: Desk, id: nat, i: nat, s: Session, script: seq<Fetch>, faults: Faults, left: nat)
    requires 1 <= left <= |script| && HasTarget(d.working, id, i) && InStep(d, id)
    requires !Unresolved(d.working.runs[id].targets[i]) && !NoIterator(s, faults)
    requires var a := Attempt(d, id, i, s, script, faults, left); !a.raised || id in a.desk.committed.runs
    ensures var t, a := d.working.runs[id].targets[i], Attempt(d, id, i, s, script, faults, left);
      var line, e := LineOf(t, s, script, faults, left), Onward(a, id, i);
      var taken := TakenBy(d, id, i, s, script, faults, left);
      && TakesPages(t, taken, Emitted(line.end, line.ending), t.symbolId.value, e.working.prices)
      && Extends(d.working.prices, e.working.prices) && HasTarget(e.working, id, i)
      && e.working.runs[id].targets[i] == if a.raised then Rejected(taken, WriteFailure)
                                          else Concluding(taken, line.end.summary.terminal)
  {
    var t := d.working.runs[id].targets[i];
    var symbol, req := t.symbolId.value, Request(s, left);
    var trip := Pages(d, id, i, symbol, req, script, FRESH, faults.pages, left, s.now);
    assert trip.end == LineOf(t, s, script, faults, left).end
           && trip.ending == LineOf(t, s, script, faults, left).ending by {
      PagesFollow(d, id, i, symbol, req, script, FRESH, faults.pages, left, s.now, false);
    }
    assert id in Settled(trip).working.runs ==>
        Taken(Settled(trip).working, id, i, t, Emitted(trip.end, trip.ending), symbol)
        && OnlySymbol(d.working.prices, Settled(trip).working.prices, symbol) by {
      TakesNothing(t, symbol, d.working.prices);
      FreshBooks(req);
      PagesTake(d, id, i, symbol, req, script, FRESH, faults.pages, left, s.now, t);
    }
    hide Pages, LineOf, TakesPages, Emitted, Extends;
    if trip.ending == Stopping {
      assert InStep(trip.desk, id) by {
        PagesTouch(d, id, i, symbol, req, script, FRESH, faults.pages, left, s.now, d.working.runs[id].targets);
      }
      ConcludedAs(trip.desk, id, i, trip.end.summary.terminal, faults.conclusion, trip.left);
      hide Conclude, Concluding, Rejected, Onward;
    } else {
      hide Conclude, Concluding;
    }
  }

  /** Concluding changes the target alone, and a raise in it undoes nothing of the pages. */
  lemma ConcludedAs(d: Desk, id: nat, i: nat, terminal: Option<Terminal>, fault: Fault, left: nat)
    requires HasTarget(d.working, id, i) && Shape(d, id, |d.working.runs[id].targets|) && InStep(d, id)
    ensures var t, a := d.working.runs[id].targets[i], Conclude(d, id, i, terminal, fault, left);
      var e := Onward(a, id, i);
      !a.raised || id in a.desk.committed.runs ==>
        && e.working.prices == d.working.prices && HasTarget(e.working, id, i)
        && e.working.runs[id].targets[i] == if a.raised then Rejected(t, WriteFailure) else Concluding(t, terminal)
  {
  }

  lemma FreshBooks(req: HistoryRequest)
    ensures Books(req, FRESH)
  {
    assert OutOfRange(req, {}) == {};
  }
}
