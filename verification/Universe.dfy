/** Replay of listing evidence into dated membership: a fast-forward over the
    transition days that refines the plain day-by-day meaning. */
module Universe {
  import opened Common
  import opened Sorting
  import opened Ascent
  import opened ListingLedger

  datatype Membership = Membership(listed: bool, market: Option<nat>, evidence: Evidence, status: TradingStatus)

  datatype Instrument = Instrument(id: nat, securityType: nat)

  datatype Expectation = Expected | OutsideTradingInterval

  datatype Entry = Entry(
    tradeDate: Date, instrumentId: nat, market: nat, securityType: nat,
    evidence: Evidence, status: TradingStatus, expectation: Expectation)

  datatype UniverseRequest = UniverseRequest(start: Date, end: Date, markets: set<nat>, securityTypes: set<nat>) {
    ghost predicate Valid() { start <= end }
  }

  const INITIAL := Membership(false, None, Unknown, Trading)

  function Or<T>(a: Option<T>, b: Option<T>): Option<T> { if a.Some? then a else b }

  function OrElse<T>(a: Option<T>, b: T): T { if a.Some? then a.value else b }

  /** An interval of evidence ends. */
  function ExpireEvent(m: Membership, e: EventInput): Membership {
    match e.eventType
    case Listed => m.(listed := false)
    case TradingHalted => m.(status := Trading)
    case _ => m
  }

  /** Evidence takes effect. */
  function BeginEvent(m: Membership, e: EventInput): Membership {
    match e.eventType
    case Listed => m.(listed := true, market := Or(e.market, m.market), evidence := e.evidence)
    case Delisted => m.(listed := false)
    case MarketTransferred => m.(market := Or(e.marketTo, Or(e.market, m.market)), evidence := e.evidence)
    case TradingHalted => m.(status := OrElse(e.tradingStatus, Suspended))
    case TradingResumed => m.(status := OrElse(e.tradingStatus, Trading))
    case _ => m
  }

  function ExpireEvents(m: Membership, events: seq<EventInput>): Membership
    decreases |events|
  {
    if events == [] then m else ExpireEvent(ExpireEvents(m, events[..|events| - 1]), events[|events| - 1])
  }

  function BeginEvents(m: Membership, events: seq<EventInput>): Membership
    decreases |events|
  {
    if events == [] then m else BeginEvent(BeginEvents(m, events[..|events| - 1]), events[|events| - 1])
  }

  function Ending(events: seq<EventInput>, day: Date): seq<EventInput> {
    Filter(events, (e: EventInput) => e.effectiveTo == Some(day))
  }

  function Starting(events: seq<EventInput>, day: Date): seq<EventInput> {
    Filter(events, (e: EventInput) => e.effectiveFrom == day)
  }

  /** All transitions of one day: endings first, then beginnings. */
  function Transition(m: Membership, events: seq<EventInput>, day: Date): Membership {
    BeginEvents(ExpireEvents(m, Ending(events, day)), Starting(events, day))
  }

  /** The day-by-day meaning: the membership before day `d`, having lived through
      every earlier day. */
  function Before(events: seq<EventInput>, d: Date): Membership {
    if d == 0 then INITIAL else Transition(Before(events, d - 1), events, d - 1)
  }

  function StateOn(events: seq<EventInput>, d: Date): Membership { Before(events, d + 1) }

  /** Some evidence begins or ends on the day. */
  ghost predicate Busy(events: seq<EventInput>, d: Date) {
    exists e :: e in events && (e.effectiveFrom == d || e.effectiveTo == Some(d))
  }

  lemma QuietDay(m: Membership, events: seq<EventInput>, d: Date)
    requires !Busy(events, d)
    ensures Transition(m, events, d) == m
  {
    FilterNone(events, (e: EventInput) => e.effectiveTo == Some(d));
    FilterNone(events, (e: EventInput) => e.effectiveFrom == d);
  }

  /** Days without transitions can be skipped. */
  lemma {:induction false} QuietStretch(events: seq<EventInput>, a: Date, b: Date)
    requires a <= b && forall d :: a <= d < b ==> !Busy(events, d)
    ensures Before(events, b) == Before(events, a)
    decreases b
  {
    hide Busy, Transition;
    if a < b {
      QuietStretch(events, a, b - 1);
      QuietDay(Before(events, b - 1), events, b - 1);
    }
  }

  // ---- entries ---------------------------------------------------------

  function ExpectationOf(status: TradingStatus): Expectation {
    if status == Suspended || status == Halted then OutsideTradingInterval else Expected
  }

  predicate IsMember(m: Membership, req: UniverseRequest) {
    m.listed && m.market.Some? && m.market.value in req.markets
  }

  /** The entry of an instrument on a day, from the day-by-day meaning. */
  function EntryOn(i: Instrument, events: seq<EventInput>, req: UniverseRequest, trading: Date -> bool,
                   d: Date): (r: Option<Entry>)
    ensures r.Some? ==> r.value.tradeDate == d && r.value.instrumentId == i.id
  {
    var m := StateOn(events, d);
    if IsMember(m, req) && trading(d)
    then Some(Entry(d, i.id, m.market.value, i.securityType, m.evidence, m.status, ExpectationOf(m.status)))
    else None
  }

  function AsSeq<T>(o: Option<T>): seq<T> { if o.Some? then [o.value] else [] }

  /** Entries of one instrument for the days lo..hi-1. */
  function EntriesIn(i: Instrument, events: seq<EventInput>, req: UniverseRequest, trading: Date -> bool, lo: Date,
                     hi: Date): seq<Entry>
    decreases hi
  {
    if hi <= lo then []
    else EntriesIn(i, events, req, trading, lo, hi - 1) + AsSeq(EntryOn(i, events, req, trading, hi - 1))
  }

  lemma {:induction false} EntriesInMembers(i: Instrument, events: seq<EventInput>, req: UniverseRequest,
                                            trading: Date -> bool, lo: Date, hi: Date, e: Entry)
    ensures e in EntriesIn(i, events, req, trading, lo, hi) <==>
              lo <= e.tradeDate < hi && EntryOn(i, events, req, trading, e.tradeDate) == Some(e)
    decreases hi
  {
    hide EntryOn;
    if lo < hi {
      EntriesInMembers(i, events, req, trading, lo, hi - 1, e);
      assert e in AsSeq(EntryOn(i, events, req, trading, hi - 1))
             <==> EntryOn(i, events, req, trading, hi - 1) == Some(e);
    }
  }

  function EntryKey(e: Entry): Key { (e.tradeDate, e.market, e.instrumentId) }

  function DayKey(e: Entry): Key { (e.instrumentId, e.tradeDate, 0) }

  /** One entry per instrument and day. */
  lemma {:induction false} EntriesInDistinct(i: Instrument, events: seq<EventInput>, req: UniverseRequest,
                                             trading: Date -> bool, lo: Date, hi: Date)
    ensures DistinctKeys(EntriesIn(i, events, req, trading, lo, hi), DayKey)
    ensures forall e :: e in EntriesIn(i, events, req, trading, lo, hi) ==> e.instrumentId == i.id
    decreases hi
  {
    hide EntryOn;
    if lo < hi {
      var rest := EntriesIn(i, events, req, trading, lo, hi - 1);
      EntriesInDistinct(i, events, req, trading, lo, hi - 1);
      var last := EntryOn(i, events, req, trading, hi - 1);
      if last.Some? {
        forall e | e in rest ensures DayKey(e) != DayKey(last.value) {
          EntriesInMembers(i, events, req, trading, lo, hi - 1, e);
        }
        DistinctAppend(rest, last.value, DayKey);
      } else {
        assert rest + [] == rest;
      }
    }
  }

  /** The entries of a window are the entries of any larger window cut to it. */
  lemma {:induction false} WindowOfEntries(i: Instrument, events: seq<EventInput>, small: UniverseRequest,
                                           large: UniverseRequest, trading: Date -> bool, lo: Date, hi: Date)
    requires small.markets == large.markets && large.start <= small.start
    requires lo == small.start && hi <= large.end + 1
    ensures Filter(EntriesIn(i, events, large, trading, large.start, hi), InWindow(small))
         == EntriesIn(i, events, small, trading, lo, if hi <= small.end + 1 then hi else small.end + 1)
    decreases hi
  {
    hide EntryOn, Filter;
    if large.start < hi {
      WindowOfEntries(i, events, small, large, trading, lo, hi - 1);
      var last := AsSeq(EntryOn(i, events, large, trading, hi - 1));
      FilterAppend(EntriesIn(i, events, large, trading, large.start, hi - 1), last, InWindow(small));
      SameEntry(i, events, small, large, trading, hi - 1);
      OneEntryFilter(small, EntryOn(i, events, large, trading, hi - 1));
    }
  }

  lemma SameEntry(i: Instrument, events: seq<EventInput>, a: UniverseRequest, b: UniverseRequest, trading: Date -> bool,
                  d: Date)
    requires a.markets == b.markets
    ensures EntryOn(i, events, a, trading, d) == EntryOn(i, events, b, trading, d)
  {
  }

  lemma OneEntryFilter(req: UniverseRequest, o: Option<Entry>)
    ensures Filter(AsSeq(o), InWindow(req)) ==
            if o.Some? && req.start <= o.value.tradeDate <= req.end then AsSeq(o) else []
  {
  }

  function InWindow(req: UniverseRequest): Entry -> bool {
    (e: Entry) => req.start <= e.tradeDate <= req.end
  }

  // ---- the whole universe ----------------------------------------------

  /** The evidence of one instrument, in view order. */
  function EventsOf(view: seq<Revision>, id: nat): (r: seq<EventInput>) {
    Inputs(Filter(view, (r: Revision) => r.row.input.instrumentId == id))
  }

  function Inputs(view: seq<Revision>): (r: seq<EventInput>)
    ensures |r| == |view| && forall k :: 0 <= k < |r| ==> r[k] == view[k].row.input
  {
    seq(|view|, k requires 0 <= k < |view| => view[k].row.input)
  }

  predicate HasListing(events: seq<EventInput>) { exists e :: e in events && e.eventType == Listed }

  /** Instruments whose evidence is replayed. */
  predicate Selected(i: Instrument, view: seq<Revision>, req: UniverseRequest, excluded: set<nat>) {
    i.id !in excluded && i.securityType in req.securityTypes && HasListing(EventsOf(view, i.id))
  }

  /** Instruments reported as unknown: eligible, but never seen listed. */
  predicate Unseen(i: Instrument, view: seq<Revision>, req: UniverseRequest, excluded: set<nat>) {
    i.id !in excluded && i.securityType in req.securityTypes && !HasListing(EventsOf(view, i.id))
  }

  /** What one instrument adds to the raw entries. */
  function PartOf(i: Instrument, view: seq<Revision>, req: UniverseRequest, trading: Date -> bool,
                  excluded: set<nat>): seq<Entry>
  {
    if Selected(i, view, req, excluded) then EntriesIn(i, EventsOf(view, i.id), req, trading, req.start, req.end + 1)
    else []
  }

  function RawEntries(instruments: seq<Instrument>, view: seq<Revision>, req: UniverseRequest, trading: Date -> bool,
                      excluded: set<nat>): seq<Entry>
    decreases |instruments|
  {
    if instruments == [] then []
    else
      var last := instruments[|instruments| - 1];
      RawEntries(instruments[..|instruments| - 1], view, req, trading, excluded)
      + PartOf(last, view, req, trading, excluded)
  }

  function UnknownIds(instruments: seq<Instrument>, view: seq<Revision>, req: UniverseRequest,
                      excluded: set<nat>): seq<nat>
    decreases |instruments|
  {
    if instruments == [] then []
    else
      var last := instruments[|instruments| - 1];
      UnknownIds(instruments[..|instruments| - 1], view, req, excluded)
      + if Unseen(last, view, req, excluded) then [last.id] else []
  }

  datatype Manifest = Manifest(request: UniverseRequest, entries: seq<Entry>, expectedCount: nat, unknownIds: seq<nat>)

  predicate IsExpected(e: Entry) { e.expectation == Expected }

  function Build(instruments: seq<Instrument>, view: seq<Revision>, req: UniverseRequest, trading: Date -> bool,
                 excluded: set<nat>): Manifest
  {
    var entries := SortBy(RawEntries(instruments, view, req, trading, excluded), EntryKey);
    Manifest(req, entries, |Filter(entries, IsExpected)|, SortedDistinct(UnknownIds(instruments, view, req, excluded)))
  }

  ghost predicate DistinctIds(instruments: seq<Instrument>) {
    forall j, k :: 0 <= j < k < |instruments| ==> instruments[j].id != instruments[k].id
  }

  /** Some selected instrument has this entry on its day. */
  ghost predicate Owned(instruments: seq<Instrument>, view: seq<Revision>, req: UniverseRequest, trading: Date -> bool,
                        excluded: set<nat>, e: Entry)
  {
    exists i :: i in instruments && Selected(i, view, req, excluded)
                && EntryOn(i, EventsOf(view, i.id), req, trading, e.tradeDate) == Some(e)
  }

  lemma OwnedSplit(front: seq<Instrument>, last: Instrument, view: seq<Revision>, req: UniverseRequest,
                   trading: Date -> bool, excluded: set<nat>, e: Entry)
    ensures Owned(front + [last], view, req, trading, excluded, e) <==>
              Owned(front, view, req, trading, excluded, e)
              || (Selected(last, view, req, excluded)
                  && EntryOn(last, EventsOf(view, last.id), req, trading, e.tradeDate) == Some(e))
  {
    hide EntryOn, EventsOf, Selected;
    assert last in front + [last];
  }

  lemma {:induction false} RawMembers(instruments: seq<Instrument>, view: seq<Revision>, req: UniverseRequest,
                                      trading: Date -> bool, excluded: set<nat>, e: Entry)
    ensures e in RawEntries(instruments, view, req, trading, excluded) <==>
              req.start <= e.tradeDate <= req.end && Owned(instruments, view, req, trading, excluded, e)
    decreases |instruments|
  {
    hide EntryOn, EventsOf, EntriesIn, Selected, Owned;
    if instruments != [] {
      var front, last := instruments[..|instruments| - 1], instruments[|instruments| - 1];
      assert instruments == front + [last];
      RawMembers(front, view, req, trading, excluded, e);
      OwnedSplit(front, last, view, req, trading, excluded, e);
      EntriesInMembers(last, EventsOf(view, last.id), req, trading, req.start, req.end + 1, e);
    } else {
      OwnedByNone(view, req, trading, excluded, e);
    }
  }

  lemma OwnedByNone(view: seq<Revision>, req: UniverseRequest, trading: Date -> bool, excluded: set<nat>, e: Entry)
    ensures !Owned([], view, req, trading, excluded, e)
  {
  }

  lemma {:induction false} RawDistinct(instruments: seq<Instrument>, view: seq<Revision>, req: UniverseRequest,
                                       trading: Date -> bool, excluded: set<nat>)
    requires DistinctIds(instruments)
    ensures DistinctKeys(RawEntries(instruments, view, req, trading, excluded), DayKey)
    ensures forall e :: e in RawEntries(instruments, view, req, trading, excluded) ==>
              exists i :: i in instruments && i.id == e.instrumentId
    decreases |instruments|
  {
    if instruments != [] {
      var front, last := instruments[..|instruments| - 1], instruments[|instruments| - 1];
      assert instruments == front + [last];
      assert last in instruments && forall i :: i in front ==> i in instruments;
      RawDistinct(front, view, req, trading, excluded);
      EntriesInDistinct(last, EventsOf(view, last.id), req, trading, req.start, req.end + 1);
      var a := RawEntries(front, view, req, trading, excluded);
      var b := EntriesIn(last, EventsOf(view, last.id), req, trading, req.start, req.end + 1);
      forall x, y | x in a && y in b ensures DayKey(x) != DayKey(y) {
        var i :| i in front && i.id == x.instrumentId;
      }
      DistinctConcat(a, b, DayKey);
      assert a + [] == a;
      hide EntriesIn, EventsOf, Selected;
    }
  }

  /** Replay means the day-by-day fold: an entry exists exactly when folding all
      transitions of its instrument up to that day leaves it listed in a
      requested market on a trading day; entries are strictly ordered, at most
      one per instrument and day. */
  lemma BuildMeaning(instruments: seq<Instrument>, view: seq<Revision>, req: UniverseRequest, trading: Date -> bool,
                     excluded: set<nat>)
    requires DistinctIds(instruments)
    ensures var entries := Build(instruments, view, req, trading, excluded).entries;
      && (forall e :: e in entries <==>
            req.start <= e.tradeDate <= req.end && Owned(instruments, view, req, trading, excluded, e))
      && SortedBy(entries, EntryKey) && DistinctKeys(entries, DayKey)
      && (forall j, k :: 0 <= j < k < |entries| ==>
            Le(EntryKey(entries[j]), EntryKey(entries[k])) && EntryKey(entries[j]) != EntryKey(entries[k]))
  {
    hide RawEntries, Owned, SortBy;
    var raw := RawEntries(instruments, view, req, trading, excluded);
    var entries := SortBy(raw, EntryKey);
    RawDistinct(instruments, view, req, trading, excluded);
    SortMembers(raw, EntryKey);
    SortDistinct(raw, EntryKey, DayKey);
    forall e
      ensures e in raw <==> req.start <= e.tradeDate <= req.end && Owned(instruments, view, req, trading, excluded, e)
    {
      RawMembers(instruments, view, req, trading, excluded, e);
    }
    forall j, k | 0 <= j < k < |entries|
      ensures Le(EntryKey(entries[j]), EntryKey(entries[k])) && EntryKey(entries[j]) != EntryKey(entries[k])
    {
      SortedAt(entries, EntryKey, j, k);
      DistinctAt(entries, DayKey, j, k);
    }
  }

  lemma {:induction false} RawWindow(instruments: seq<Instrument>, view: seq<Revision>, small: UniverseRequest,
                                     large: UniverseRequest, trading: Date -> bool, excluded: set<nat>)
    requires Widens(small, large)
    ensures Filter(RawEntries(instruments, view, large, trading, excluded), InWindow(small))
         == RawEntries(instruments, view, small, trading, excluded)
    decreases |instruments|
  {
    hide EntriesIn, EventsOf, InWindow, Selected, Filter;
    if instruments != [] {
      var front, last := instruments[..|instruments| - 1], instruments[|instruments| - 1];
      RawWindow(front, view, small, large, trading, excluded);
      SelectedAlike(last, view, small, large, excluded);
      var part := PartOf(last, view, large, trading, excluded);
      FilterAppend(RawEntries(front, view, large, trading, excluded), part, InWindow(small));
      PartWindow(last, view, small, large, trading, excluded);
    } else {
      FilterNone([], InWindow(small));
    }
  }

  lemma SelectedAlike(i: Instrument, view: seq<Revision>, small: UniverseRequest, large: UniverseRequest,
                      excluded: set<nat>)
    requires Widens(small, large)
    ensures Selected(i, view, small, excluded) == Selected(i, view, large, excluded)
  {
    hide HasListing, EventsOf;
  }

  lemma PartWindow(i: Instrument, view: seq<Revision>, small: UniverseRequest, large: UniverseRequest,
                   trading: Date -> bool, excluded: set<nat>)
    requires Widens(small, large)
    ensures Filter(PartOf(i, view, large, trading, excluded), InWindow(small))
            == PartOf(i, view, small, trading, excluded)
  {
    hide EntriesIn, EventsOf, InWindow, Selected, Filter;
    SelectedAlike(i, view, small, large, excluded);
    WindowOfEntries(i, EventsOf(view, i.id), small, large, trading, small.start, large.end + 1);
    FilterNone([], InWindow(small));
  }

  /** `large` asks the same question over a larger window. */
  ghost predicate Widens(small: UniverseRequest, large: UniverseRequest) {
    && small.markets == large.markets && small.securityTypes == large.securityTypes
    && large.start <= small.start <= small.end <= large.end
  }

  /** The universe of a window is the universe of any larger window, restricted. */
  lemma BuildWindow(instruments: seq<Instrument>, view: seq<Revision>, small: UniverseRequest, large: UniverseRequest,
                    trading: Date -> bool, excluded: set<nat>)
    requires DistinctIds(instruments) && Widens(small, large)
    ensures Build(instruments, view, small, trading, excluded).entries
         == Filter(Build(instruments, view, large, trading, excluded).entries, InWindow(small))
  {
    var raw := RawEntries(instruments, view, large, trading, excluded);
    RawWindow(instruments, view, small, large, trading, excluded);
    RawDistinct(instruments, view, large, trading, excluded);
    DistinctIdentifies(raw, DayKey);
    assert KeyIdentifies(raw, EntryKey) by {
      forall x, y | x in raw && y in raw && EntryKey(x) == EntryKey(y) ensures x == y {
        assert DayKey(x) == DayKey(y);
      }
    }
    FilterSort(raw, EntryKey, InWindow(small));
  }

  /** Time travel: with the instruments fixed, evidence ingested after `t` leaves
      the universe as known at `t` unchanged. */
  lemma UniverseTimeTravel(instruments: seq<Instrument>, ledger: seq<Row>, arrivals: seq<Arrival>, ids: set<nat>,
                           t: Instant, req: UniverseRequest, trading: Date -> bool, excluded: set<nat>)
    requires forall a :: a in arrivals ==> a.at > t
    ensures Build(instruments, View(IngestAll(ledger, arrivals), ids, Some(t)), req, trading, excluded)
         == Build(instruments, View(ledger, ids, Some(t)), req, trading, excluded)
  {
    TimeTravel(ledger, arrivals, ids, t);
  }
}
