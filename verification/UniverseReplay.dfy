/** The replay as it runs: a mutable membership state, a fast-forward over the
    transition days before the window, then one pass over the window. */
module UniverseReplay {
  import opened Common
  import opened Sorting
  import opened Ascent
  import opened ListingLedger
  import opened Universe

  type DayIndex = map<Date, seq<EventInput>>

  function At(index: DayIndex, day: Date): seq<EventInput> { if day in index then index[day] else [] }

  lemma EventsSnoc(events: seq<EventInput>, e: EventInput, day: Date)
    ensures Starting(events + [e], day) == Starting(events, day) + if e.effectiveFrom == day then [e] else []
    ensures Ending(events + [e], day) == Ending(events, day) + if e.effectiveTo == Some(day) then [e] else []
  {
    FilterAppend(events, [e], (x: EventInput) => x.effectiveFrom == day);
    FilterAppend(events, [e], (x: EventInput) => x.effectiveTo == Some(day));
  }

  /** Every day with a transition is a key of one of the two indexes. */
  ghost predicate Indexes(events: seq<EventInput>, starting: DayIndex, ending: DayIndex) {
    && (forall day :: At(starting, day) == Starting(events, day))
    && (forall day :: At(ending, day) == Ending(events, day))
    && (forall day :: Busy(events, day) <==> day in starting || day in ending)
  }

  class MembershipState {
    var listed: bool
    var market: Option<nat>
    var evidence: Evidence
    var status: TradingStatus

    ghost function Value(): Membership
      reads this
    {
      Membership(listed, market, evidence, status)
    }

    constructor ()
      ensures Value() == INITIAL
    {
      listed, market, evidence, status := false, None, Unknown, Trading;
    }

    /** `_apply_transitions`: what ends on the day, then what begins on it. */
    method ApplyTransitions(day: Date, starting: DayIndex, ending: DayIndex)
      modifies this
      ensures Value() == BeginEvents(ExpireEvents(old(Value()), At(ending, day)), At(starting, day))
    {
      var i := 0;
      var ends := At(ending, day);
      while i < |ends|
        invariant 0 <= i <= |ends|
        invariant Value() == ExpireEvents(old(Value()), ends[..i])
      {
        assert ends[..i + 1][..i] == ends[..i];
        match ends[i].eventType {
          case Listed => listed := false;
          case TradingHalted => status := Trading;
          case _ =>
        }
        i := i + 1;
      }
      assert ends[..i] == ends;
      ghost var expired := Value();
      i := 0;
      var starts := At(starting, day);
      while i < |starts|
        invariant 0 <= i <= |starts|
        invariant Value() == BeginEvents(expired, starts[..i])
      {
        assert starts[..i + 1][..i] == starts[..i];
        Begin(starts[i]);
        i := i + 1;
      }
      assert starts[..i] == starts;
    }

    /** Live through one day of indexed events. */
    method Live(ghost events: seq<EventInput>, day: Date, starting: DayIndex, ending: DayIndex)
      requires Indexes(events, starting, ending) && Value() == Before(events, day)
      modifies this
      ensures Value() == Before(events, day + 1) == StateOn(events, day)
    {
      ApplyTransitions(day, starting, ending);
      assert Value() == Transition(Before(events, day), events, day);
    }

    method Begin(e: EventInput)
      modifies this
      ensures Value() == BeginEvent(old(Value()), e)
    {
      match e.eventType
      case Listed =>
        listed := true;
        market := Or(e.market, market);
        evidence := e.evidence;
      case Delisted => listed := false;
      case MarketTransferred =>
        market := Or(e.marketTo, Or(e.market, market));
        evidence := e.evidence;
      case TradingHalted => status := OrElse(e.tradingStatus, Suspended);
      case TradingResumed => status := OrElse(e.tradingStatus, Trading);
      case _ =>
    }
  }

  /** Group the events by the day they begin and by the day they end. */
  method IndexEvents(events: seq<EventInput>) returns (starting: DayIndex, ending: DayIndex, days: seq<Date>)
    ensures Indexes(events, starting, ending)
    ensures forall day :: day in days <==> day in starting || day in ending
  {
    starting, ending, days := map[], map[], [];
    var i := 0;
    while i < |events|
      invariant 0 <= i <= |events|
      invariant Indexes(events[..i], starting, ending)
      invariant forall day :: day in days <==> day in starting || day in ending
    {
      var e := events[i];
      assert events[..i + 1] == events[..i] + [e];
      IndexNext(events[..i], e, starting, ending);
      starting := starting[e.effectiveFrom := At(starting, e.effectiveFrom) + [e]];
      days := days + [e.effectiveFrom];
      if e.effectiveTo.Some? {
        ending := ending[e.effectiveTo.value := At(ending, e.effectiveTo.value) + [e]];
        days := days + [e.effectiveTo.value];
      }
      i := i + 1;
    }
    assert events[..i] == events;
  }

  lemma IndexNext(events: seq<EventInput>, e: EventInput, starting: DayIndex, ending: DayIndex)
    requires Indexes(events, starting, ending)
    ensures var s := starting[e.effectiveFrom := At(starting, e.effectiveFrom) + [e]];
            var n := if e.effectiveTo.Some? then ending[e.effectiveTo.value := At(ending, e.effectiveTo.value) + [e]]
                else ending;
            Indexes(events + [e], s, n)
  {
    hide Starting, Ending;
    var s := starting[e.effectiveFrom := At(starting, e.effectiveFrom) + [e]];
    var n := if e.effectiveTo.Some? then ending[e.effectiveTo.value := At(ending, e.effectiveTo.value) + [e]]
        else ending;
    forall day ensures At(s, day) == Starting(events + [e], day) && At(n, day) == Ending(events + [e], day) {
      EventsSnoc(events, e, day);
    }
    forall day ensures Busy(events + [e], day) <==> day in s || day in n {
      BusySnoc(events, e, day);
    }
  }

  lemma BusySnoc(events: seq<EventInput>, e: EventInput, day: Date)
    ensures Busy(events + [e], day) <==> Busy(events, day) || e.effectiveFrom == day || e.effectiveTo == Some(day)
  {
    assert e in events + [e];
  }

  /** Having lived through the first `n` transition days means having lived
      through every day up to the next one. */
  lemma FastForward(events: seq<EventInput>, days: seq<Date>, n: nat, target: Date)
    requires Ascending(days) && (forall d :: Busy(events, d) ==> d in days)
    requires n <= |days| && Resting(days, n) <= target
    requires n < |days| ==> target <= days[n]
    ensures Before(events, target) == Before(events, Resting(days, n))
  {
    forall d | Resting(days, n) <= d < target ensures !Busy(events, d) {
      if d in days {
        var k :| 0 <= k < |days| && days[k] == d;
        if k < n - 1 {
          AscendingAt(days, k, n - 1);
        } else if n < k {
          AscendingAt(days, n, k);
        }
      }
    }
    QuietStretch(events, Resting(days, n), target);
  }

  /** The day after the n-th transition day. */
  function Resting(days: seq<Date>, n: nat): Date
    requires n <= |days|
  {
    if n == 0 then 0 else days[n - 1] + 1
  }

  lemma RestingBeforeNext(days: seq<Date>, n: nat)
    requires Ascending(days) && n < |days|
    ensures Resting(days, n) <= days[n]
  {
    if n > 0 {
      AscendingAt(days, n - 1, n);
    }
  }

  /** Run the state up to, but not into, the window. */
  method SkipTo(events: seq<EventInput>, state: MembershipState, start: Date, starting: DayIndex, ending: DayIndex,
                days: seq<Date>)
    requires state.Value() == INITIAL && Indexes(events, starting, ending)
    requires Ascending(days) && forall d :: d in days <==> d in starting || d in ending
    modifies state
    ensures state.Value() == Before(events, start)
  {
    hide Ascending, Indexes, Before, Busy;
    assert forall d :: Busy(events, d) ==> d in days by { BusyDaysListed(events, starting, ending, days); }
    assert Before(events, 0) == INITIAL by { StartsInitial(events); }
    var n := 0;
    while n < |days| && days[n] < start
      invariant 0 <= n <= |days| && Resting(days, n) <= start
      invariant state.Value() == Before(events, Resting(days, n))
    {
      RestingBeforeNext(days, n);
      FastForward(events, days, n, days[n]);
      state.Live(events, days[n], starting, ending);
      n := n + 1;
    }
    FastForward(events, days, n, start);
  }

  lemma StartsInitial(events: seq<EventInput>)
    ensures Before(events, 0) == INITIAL
  {
  }

  lemma BusyDaysListed(events: seq<EventInput>, starting: DayIndex, ending: DayIndex, days: seq<Date>)
    requires Indexes(events, starting, ending) && forall d :: d in days <==> d in starting || d in ending
    ensures forall d :: Busy(events, d) ==> d in days
  {
  }

  /** `_entries_for_instrument`. */
  method EntriesForInstrument(i: Instrument, events: seq<EventInput>, req: UniverseRequest, trading: Date -> bool)
    returns (entries: seq<Entry>)
    requires req.Valid()
    ensures entries == EntriesIn(i, events, req, trading, req.start, req.end + 1)
  {
    hide Indexes, Before, Ascending;
    var starting, ending, days := IndexEvents(events);
    var state := new MembershipState();
    SkipTo(events, state, req.start, starting, ending, SortedDistinct(days));
    entries := [];
    var day := req.start;
    while day <= req.end
      invariant req.start <= day <= req.end + 1
      invariant state.Value() == Before(events, day)
      invariant entries == EntriesIn(i, events, req, trading, req.start, day)
    {
      state.Live(events, day, starting, ending);
      if state.listed && state.market.Some? && state.market.value in req.markets && trading(day) {
        entries := entries + [Entry(day, i.id, state.market.value, i.securityType, state.evidence, state.status,
                                    ExpectationOf(state.status))];
      }
      day := day + 1;
    }
  }

  /** `build_historical_universe`: the replay of every selected instrument. */
  method BuildUniverse(instruments: seq<Instrument>, view: seq<Revision>, req: UniverseRequest, trading: Date -> bool,
                       excluded: set<nat>) returns (manifest: Manifest)
    requires req.Valid()
    ensures manifest == Build(instruments, view, req, trading, excluded)
  {
    hide EntriesIn, EventsOf, HasListing, SortBy;
    var entries: seq<Entry> := [];
    var unknown: seq<nat> := [];
    var k := 0;
    while k < |instruments|
      invariant 0 <= k <= |instruments|
      invariant entries == RawEntries(instruments[..k], view, req, trading, excluded)
      invariant unknown == UnknownIds(instruments[..k], view, req, excluded)
    {
      var i := instruments[k];
      assert instruments[..k + 1][..k] == instruments[..k];
      if i.id !in excluded && i.securityType in req.securityTypes {
        var events := EventsOf(view, i.id);
        if HasListing(events) {
          var own := EntriesForInstrument(i, events, req, trading);
          entries := entries + own;
        } else {
          unknown := unknown + [i.id];
        }
      }
      k := k + 1;
    }
    assert instruments[..k] == instruments;
    var sorted := SortBy(entries, EntryKey);
    return Manifest(req, sorted, |Filter(sorted, IsExpected)|, SortedDistinct(unknown));
  }
}
