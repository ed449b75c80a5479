/** What the replayed evidence says about an instrument on a day, read off the
    evidence itself: the last relevant act up to that day decides each part. */
module UniverseMeaning {
  import opened Common
  import opened Sorting
  import opened Ascent
  import opened ListingLedger
  import opened Universe

  /** A piece of evidence takes effect, or its interval ends, on a day. */
  datatype Act = Act(day: Date, begins: bool, index: nat)

  /** What an act can decide. */
  datatype Aspect = Listing | NamedMarket | Proof | Status

  predicate Happens(view: seq<Revision>, id: nat, a: Act) {
    && a.index < |view| && view[a.index].row.input.instrumentId == id
    && if a.begins then view[a.index].row.input.effectiveFrom == a.day
       else view[a.index].row.input.effectiveTo == Some(a.day)
  }

  /** By day; endings before beginnings; then in the order of the view. */
  predicate Earlier(a: Act, b: Act) {
    || a.day < b.day
    || (a.day == b.day && !a.begins && b.begins)
    || (a.day == b.day && a.begins == b.begins && a.index < b.index)
  }

  predicate Concerns(e: EventInput, begins: bool, aspect: Aspect) {
    match aspect
    case Listing => e.eventType == Listed || (begins && e.eventType == Delisted)
    case NamedMarket =>
      begins && ((e.eventType == Listed && e.market.Some?)
                 || (e.eventType == MarketTransferred && (e.marketTo.Some? || e.market.Some?)))
    case Proof => begins && (e.eventType == Listed || e.eventType == MarketTransferred)
    case Status => e.eventType == TradingHalted || (begins && e.eventType == TradingResumed)
  }

  /** An act on the instrument before `p` that decides the aspect. */
  predicate Decides(view: seq<Revision>, id: nat, p: Act, aspect: Aspect, a: Act) {
    Happens(view, id, a) && Earlier(a, p) && Concerns(view[a.index].row.input, a.begins, aspect)
  }

  ghost predicate LastBefore(view: seq<Revision>, id: nat, p: Act, aspect: Aspect, a: Act) {
    && Decides(view, id, p, aspect, a)
    && forall b :: Decides(view, id, p, aspect, b) ==> b == a || Earlier(b, a)
  }

  ghost predicate NoneBefore(view: seq<Revision>, id: nat, p: Act, aspect: Aspect) {
    forall a :: !Decides(view, id, p, aspect, a)
  }

  /** The last deciding act up to and including day `d`. */
  ghost predicate Last(view: seq<Revision>, id: nat, d: Date, aspect: Aspect, a: Act) {
    LastBefore(view, id, Act(d + 1, false, 0), aspect, a)
  }

  ghost predicate NoneYet(view: seq<Revision>, id: nat, d: Date, aspect: Aspect) {
    NoneBefore(view, id, Act(d + 1, false, 0), aspect)
  }

  // ---- one act at a time -----------------------------------------------

  lemma ActDecides(view: seq<Revision>, id: nat, p: Act, aspect: Aspect, a: Act)
    requires p.index < |view|
    ensures Decides(view, id, p.(index := p.index + 1), aspect, a)
       <==> Decides(view, id, p, aspect, a)
            || (a == p && Happens(view, id, p) && Concerns(view[p.index].row.input, p.begins, aspect))
  {
    hide Concerns;
  }

  /** The act at `p` happens and decides the aspect. */
  predicate Deciding(view: seq<Revision>, id: nat, p: Act, aspect: Aspect)
    requires p.index < |view|
  {
    Happens(view, id, p) && Concerns(view[p.index].row.input, p.begins, aspect)
  }

  lemma DecidingIsLast(view: seq<Revision>, id: nat, p: Act, aspect: Aspect, a: Act)
    requires p.index < |view| && Deciding(view, id, p, aspect)
    ensures LastBefore(view, id, p.(index := p.index + 1), aspect, a) <==> a == p
  {
    hide Concerns, Happens;
    ActDecides(view, id, p, aspect, a);
    ActDecides(view, id, p, aspect, p);
    if a == p {
      forall b | Decides(view, id, p.(index := p.index + 1), aspect, b) ensures b == a || Earlier(b, a) {
        ActDecides(view, id, p, aspect, b);
      }
    }
  }

  lemma OthersStay(view: seq<Revision>, id: nat, p: Act, aspect: Aspect)
    requires p.index < |view| && !Deciding(view, id, p, aspect)
    ensures forall a ::
              LastBefore(view, id, p.(index := p.index + 1), aspect, a) <==> LastBefore(view, id, p, aspect, a)
    ensures NoneBefore(view, id, p.(index := p.index + 1), aspect) <==> NoneBefore(view, id, p, aspect)
  {
    var q := p.(index := p.index + 1);
    forall a ensures Decides(view, id, q, aspect, a) <==> Decides(view, id, p, aspect, a) {
      ActDecides(view, id, p, aspect, a);
    }
    hide Decides, Deciding;
  }

  lemma LastStep(view: seq<Revision>, id: nat, p: Act, aspect: Aspect)
    requires p.index < |view|
    ensures var q := p.(index := p.index + 1);
      if Deciding(view, id, p, aspect) then
        LastBefore(view, id, q, aspect, p) && !NoneBefore(view, id, q, aspect)
        && forall a :: LastBefore(view, id, q, aspect, a) ==> a == p
      else
        && (forall a :: LastBefore(view, id, q, aspect, a) <==> LastBefore(view, id, p, aspect, a))
        && (NoneBefore(view, id, q, aspect) <==> NoneBefore(view, id, p, aspect))
  {
    var q := p.(index := p.index + 1);
    if Deciding(view, id, p, aspect) {
      DecidingIsLast(view, id, p, aspect, p);
      forall a | LastBefore(view, id, q, aspect, a) ensures a == p {
        DecidingIsLast(view, id, p, aspect, a);
      }
    } else {
      OthersStay(view, id, p, aspect);
    }
    hide Deciding, Decides;
  }

  function MarketOf(e: EventInput): Option<nat> {
    if e.eventType == MarketTransferred && e.marketTo.Some? then e.marketTo else e.market
  }

  function StatusOf(e: EventInput, begins: bool): TradingStatus {
    if !begins then Trading
    else if e.tradingStatus.Some? then e.tradingStatus.value
    else if e.eventType == TradingHalted then Suspended else Trading
  }

  /** Something decides the aspect before `p`, last of all, unless nothing does. */
  ghost predicate Settles(view: seq<Revision>, id: nat, p: Act, aspect: Aspect) {
    NoneBefore(view, id, p, aspect) || exists a :: LastBefore(view, id, p, aspect, a)
  }

  ghost predicate SaysListed(view: seq<Revision>, id: nat, p: Act, listed: bool) {
    && Settles(view, id, p, Listing) && (NoneBefore(view, id, p, Listing) ==> !listed)
    && (forall a :: LastBefore(view, id, p, Listing, a) ==>
          (listed <==> a.begins && view[a.index].row.input.eventType == Listed))
  }

  ghost predicate SaysMarket(view: seq<Revision>, id: nat, p: Act, market: Option<nat>) {
    && Settles(view, id, p, NamedMarket) && (NoneBefore(view, id, p, NamedMarket) ==> market == None)
    && (forall a :: LastBefore(view, id, p, NamedMarket, a) ==> market == MarketOf(view[a.index].row.input))
  }

  ghost predicate SaysEvidence(view: seq<Revision>, id: nat, p: Act, evidence: Evidence) {
    && Settles(view, id, p, Proof) && (NoneBefore(view, id, p, Proof) ==> evidence == Unknown)
    && (forall a :: LastBefore(view, id, p, Proof, a) ==> evidence == view[a.index].row.input.evidence)
  }

  ghost predicate SaysStatus(view: seq<Revision>, id: nat, p: Act, status: TradingStatus) {
    && Settles(view, id, p, Status) && (NoneBefore(view, id, p, Status) ==> status == Trading)
    && (forall a :: LastBefore(view, id, p, Status, a) ==> status == StatusOf(view[a.index].row.input, a.begins))
  }

  /** The membership is what the last deciding acts before `p` say. */
  ghost predicate Describes(view: seq<Revision>, id: nat, p: Act, m: Membership) {
    && SaysListed(view, id, p, m.listed) && SaysMarket(view, id, p, m.market)
    && SaysEvidence(view, id, p, m.evidence) && SaysStatus(view, id, p, m.status)
  }

  /** What the act at `p` makes of the membership. */
  function Acted(view: seq<Revision>, id: nat, p: Act, m: Membership): Membership
    requires p.index < |view|
  {
    var e := view[p.index].row.input;
    if !Happens(view, id, p) then m else if p.begins then BeginEvent(m, e) else ExpireEvent(m, e)
  }

  lemma ListedNext(view: seq<Revision>, id: nat, p: Act, m: Membership)
    requires p.index < |view| && SaysListed(view, id, p, m.listed)
    ensures SaysListed(view, id, p.(index := p.index + 1), Acted(view, id, p, m).listed)
  {
    hide LastBefore, NoneBefore, Happens;
    LastStep(view, id, p, Listing);
  }

  lemma MarketNext(view: seq<Revision>, id: nat, p: Act, m: Membership)
    requires p.index < |view| && SaysMarket(view, id, p, m.market)
    ensures SaysMarket(view, id, p.(index := p.index + 1), Acted(view, id, p, m).market)
  {
    hide LastBefore, NoneBefore, Happens;
    LastStep(view, id, p, NamedMarket);
  }

  lemma EvidenceNext(view: seq<Revision>, id: nat, p: Act, m: Membership)
    requires p.index < |view| && SaysEvidence(view, id, p, m.evidence)
    ensures SaysEvidence(view, id, p.(index := p.index + 1), Acted(view, id, p, m).evidence)
  {
    hide LastBefore, NoneBefore, Happens;
    LastStep(view, id, p, Proof);
  }

  lemma StatusNext(view: seq<Revision>, id: nat, p: Act, m: Membership)
    requires p.index < |view| && SaysStatus(view, id, p, m.status)
    ensures SaysStatus(view, id, p.(index := p.index + 1), Acted(view, id, p, m).status)
  {
    hide LastBefore, NoneBefore, Happens;
    LastStep(view, id, p, Status);
  }

  lemma DescribesNext(view: seq<Revision>, id: nat, p: Act, m: Membership)
    requires p.index < |view| && Describes(view, id, p, m)
    ensures Describes(view, id, p.(index := p.index + 1), Acted(view, id, p, m))
  {
    hide SaysListed, SaysMarket, SaysEvidence, SaysStatus, Acted;
    ListedNext(view, id, p, m);
    MarketNext(view, id, p, m);
    EvidenceNext(view, id, p, m);
    StatusNext(view, id, p, m);
  }

  // ---- one day, and all days -------------------------------------------

  lemma EventsSplit(view: seq<Revision>, id: nat, n: nat)
    requires n < |view|
    ensures EventsOf(view[..n + 1], id)
         == EventsOf(view[..n], id) + if view[n].row.input.instrumentId == id then [view[n].row.input] else []
  {
    assert view[..n + 1] == view[..n] + [view[n]];
    FilterAppend(view[..n], [view[n]], (r: Revision) => r.row.input.instrumentId == id);
    hide Filter;
  }

  lemma ExpireLast(m: Membership, events: seq<EventInput>, e: EventInput, d: Date)
    ensures ExpireEvents(m, Ending(events + [e], d))
         == if e.effectiveTo == Some(d) then ExpireEvent(ExpireEvents(m, Ending(events, d)), e)
            else ExpireEvents(m, Ending(events, d))
  {
    var ends := Ending(events, d);
    FilterAppend(events, [e], (x: EventInput) => x.effectiveTo == Some(d));
    assert ends + [] == ends && (ends + [e])[..|ends|] == ends;
    hide ExpireEvent;
  }

  lemma BeginLast(m: Membership, events: seq<EventInput>, e: EventInput, d: Date)
    ensures BeginEvents(m, Starting(events + [e], d))
         == if e.effectiveFrom == d then BeginEvent(BeginEvents(m, Starting(events, d)), e)
            else BeginEvents(m, Starting(events, d))
  {
    var starts := Starting(events, d);
    FilterAppend(events, [e], (x: EventInput) => x.effectiveFrom == d);
    assert starts + [] == starts && (starts + [e])[..|starts|] == starts;
    hide BeginEvent;
  }

  lemma EndingNext(view: seq<Revision>, id: nat, d: Date, n: nat, m: Membership)
    requires n < |view|
    ensures ExpireEvents(m, Ending(EventsOf(view[..n + 1], id), d))
         == Acted(view, id, Act(d, false, n), ExpireEvents(m, Ending(EventsOf(view[..n], id), d)))
  {
    hide EventsOf, ExpireEvent, ExpireEvents, BeginEvent, Ending;
    EventsSplit(view, id, n);
    var before, e := EventsOf(view[..n], id), view[n].row.input;
    ExpireLast(m, before, e, d);
    assert before + [] == before;
  }

  lemma StartingNext(view: seq<Revision>, id: nat, d: Date, n: nat, m: Membership)
    requires n < |view|
    ensures BeginEvents(m, Starting(EventsOf(view[..n + 1], id), d))
         == Acted(view, id, Act(d, true, n), BeginEvents(m, Starting(EventsOf(view[..n], id), d)))
  {
    hide EventsOf, BeginEvent, BeginEvents, ExpireEvent, Starting;
    EventsSplit(view, id, n);
    var before, e := EventsOf(view[..n], id), view[n].row.input;
    BeginLast(m, before, e, d);
    assert before + [] == before;
  }

  lemma {:induction false} EndingsDescribe(view: seq<Revision>, id: nat, d: Date, n: nat, m: Membership)
    requires n <= |view| && Describes(view, id, Act(d, false, 0), m)
    ensures Describes(view, id, Act(d, false, n), ExpireEvents(m, Ending(EventsOf(view[..n], id), d)))
    decreases n
  {
    hide Describes, Acted;
    if n > 0 {
      EndingsDescribe(view, id, d, n - 1, m);
      EndingNext(view, id, d, n - 1, m);
      DescribesNext(view, id, Act(d, false, n - 1), ExpireEvents(m, Ending(EventsOf(view[..n - 1], id), d)));
    }
  }

  lemma {:induction false} BeginningsDescribe(view: seq<Revision>, id: nat, d: Date, n: nat, m: Membership)
    requires n <= |view| && Describes(view, id, Act(d, true, 0), m)
    ensures Describes(view, id, Act(d, true, n), BeginEvents(m, Starting(EventsOf(view[..n], id), d)))
    decreases n
  {
    hide Describes, Acted;
    if n > 0 {
      BeginningsDescribe(view, id, d, n - 1, m);
      StartingNext(view, id, d, n - 1, m);
      DescribesNext(view, id, Act(d, true, n - 1), BeginEvents(m, Starting(EventsOf(view[..n - 1], id), d)));
    }
  }

  /** Two positions with the same acts before them. */
  lemma SamePast(view: seq<Revision>, id: nat, p: Act, q: Act, m: Membership)
    requires forall a :: Happens(view, id, a) ==> (Earlier(a, p) <==> Earlier(a, q))
    requires Describes(view, id, p, m)
    ensures Describes(view, id, q, m)
  {
    hide LastBefore, NoneBefore, Happens, Earlier;
    SameDeciding(view, id, p, q, Listing);
    SameDeciding(view, id, p, q, NamedMarket);
    SameDeciding(view, id, p, q, Proof);
    SameDeciding(view, id, p, q, Status);
  }

  lemma SameDeciding(view: seq<Revision>, id: nat, p: Act, q: Act, aspect: Aspect)
    requires forall a :: Happens(view, id, a) ==> (Earlier(a, p) <==> Earlier(a, q))
    ensures SameLast(view, id, p, q, aspect)
  {
    assert forall a :: Decides(view, id, p, aspect, a) <==> Decides(view, id, q, aspect, a);
    hide Decides;
  }

  ghost predicate SameLast(view: seq<Revision>, id: nat, p: Act, q: Act, aspect: Aspect) {
    && (NoneBefore(view, id, p, aspect) <==> NoneBefore(view, id, q, aspect))
    && forall a :: LastBefore(view, id, p, aspect, a) <==> LastBefore(view, id, q, aspect, a)
  }

  /** The day-by-day fold is what the last deciding acts say. */
  lemma {:induction false} BeforeDescribes(view: seq<Revision>, id: nat, d: Date)
    ensures Describes(view, id, Act(d, false, 0), Before(EventsOf(view, id), d))
    decreases d
  {
    hide Describes, EventsOf, Ending, Starting, Happens;
    if d == 0 {
      NothingBefore(view, id);
    } else {
      var m := Before(EventsOf(view, id), d - 1);
      BeforeDescribes(view, id, d - 1);
      assert view[..|view|] == view;
      EndingsDescribe(view, id, d - 1, |view|, m);
      var ended := ExpireEvents(m, Ending(EventsOf(view, id), d - 1));
      IndexBound(view, id);
      SamePast(view, id, Act(d - 1, false, |view|), Act(d - 1, true, 0), ended);
      BeginningsDescribe(view, id, d - 1, |view|, ended);
      SamePast(view, id, Act(d - 1, true, |view|), Act(d, false, 0), Before(EventsOf(view, id), d));
    }
  }

  lemma IndexBound(view: seq<Revision>, id: nat)
    ensures forall a :: Happens(view, id, a) ==> a.index < |view|
  {
  }

  lemma NothingBefore(view: seq<Revision>, id: nat)
    ensures Describes(view, id, Act(0, false, 0), INITIAL)
  {
    assert forall a :: !Earlier(a, Act(0, false, 0));
  }

  /** The membership on a day: listed exactly when the last listing, end of a listing or
      delisting up to that day is a listing; the market is the last one named, evidence
      and status are those of the last act that says something about them. */
  lemma MembershipMeans(view: seq<Revision>, id: nat, d: Date)
    ensures var m := StateOn(EventsOf(view, id), d);
      && (m.listed <==> exists a :: Last(view, id, d, Listing, a)
                                    && a.begins && view[a.index].row.input.eventType == Listed)
      && (m.market.Some? <==> !NoneYet(view, id, d, NamedMarket))
      && (m.market.Some? ==>
            exists a :: Last(view, id, d, NamedMarket, a) && m.market == MarketOf(view[a.index].row.input))
      && (if NoneYet(view, id, d, Proof) then m.evidence == Unknown
          else exists a :: Last(view, id, d, Proof, a) && m.evidence == view[a.index].row.input.evidence)
      && (if NoneYet(view, id, d, Status) then m.status == Trading
          else exists a :: Last(view, id, d, Status, a) && m.status == StatusOf(view[a.index].row.input, a.begins))
  {
    hide Before, EventsOf, LastBefore, NoneBefore, MarketOf, StatusOf;
    BeforeDescribes(view, id, d + 1);
    MarketSaid(view, id, Act(d + 1, false, 0), StateOn(EventsOf(view, id), d).market);
  }

  lemma MarketSaid(view: seq<Revision>, id: nat, p: Act, market: Option<nat>)
    requires SaysMarket(view, id, p, market)
    ensures market.Some? <==> !NoneBefore(view, id, p, NamedMarket)
    ensures market.Some? ==>
        exists a :: LastBefore(view, id, p, NamedMarket, a) && market == MarketOf(view[a.index].row.input)
  {
  }

  // ---- the universe ----------------------------------------------------

  /** The instrument is asked for and some evidence lists it at some time. */
  ghost predicate Candidate(i: Instrument, view: seq<Revision>, req: UniverseRequest, excluded: set<nat>) {
    && i.id !in excluded && i.securityType in req.securityTypes
    && exists r :: r in view && r.row.input.instrumentId == i.id && r.row.input.eventType == Listed
  }

  /** What the evidence has to say for the instrument to have this entry. */
  ghost predicate Shows(i: Instrument, view: seq<Revision>, req: UniverseRequest, e: Entry) {
    && e.instrumentId == i.id && e.securityType == i.securityType && e.market in req.markets
    && (exists a :: Last(view, i.id, e.tradeDate, Listing, a)
                    && a.begins && view[a.index].row.input.eventType == Listed)
    && (exists a :: Last(view, i.id, e.tradeDate, NamedMarket, a)
                    && MarketOf(view[a.index].row.input) == Some(e.market))
    && (if NoneYet(view, i.id, e.tradeDate, Proof) then e.evidence == Unknown
        else exists a :: Last(view, i.id, e.tradeDate, Proof, a) && e.evidence == view[a.index].row.input.evidence)
    && (if NoneYet(view, i.id, e.tradeDate, Status) then e.status == Trading
        else exists a :: Last(view, i.id, e.tradeDate, Status, a)
                         && e.status == StatusOf(view[a.index].row.input, a.begins))
    && e.expectation == (if e.status in {Suspended, Halted} then OutsideTradingInterval else Expected)
  }

  lemma CandidateIsSelected(i: Instrument, view: seq<Revision>, req: UniverseRequest, excluded: set<nat>)
    ensures Candidate(i, view, req, excluded) <==> Selected(i, view, req, excluded)
    ensures Unseen(i, view, req, excluded) <==>
              i.id !in excluded && i.securityType in req.securityTypes && !Candidate(i, view, req, excluded)
  {
    var own := Filter(view, (r: Revision) => r.row.input.instrumentId == i.id);
    var events := Inputs(own);
    assert EventsOf(view, i.id) == events;
    if r :| r in view && r.row.input.instrumentId == i.id && r.row.input.eventType == Listed {
      var k :| 0 <= k < |own| && own[k] == r;
      assert events[k].eventType == Listed;
    }
    if e :| e in events && e.eventType == Listed {
      var k :| 0 <= k < |events| && events[k] == e;
      assert own[k] in view;
    }
  }

  lemma OnlyLast(view: seq<Revision>, id: nat, d: Date, aspect: Aspect, a: Act, b: Act)
    requires Last(view, id, d, aspect, a) && Last(view, id, d, aspect, b)
    ensures a == b
  {
  }

  /** The state read off the last acts is the one an entry records. */
  lemma ShownState(i: Instrument, view: seq<Revision>, req: UniverseRequest, e: Entry)
    ensures var m := StateOn(EventsOf(view, i.id), e.tradeDate);
      Shows(i, view, req, e) <==>
        e.instrumentId == i.id && e.securityType == i.securityType && e.market in req.markets
        && m.listed && m.market == Some(e.market) && m.evidence == e.evidence && m.status == e.status
        && e.expectation == ExpectationOf(m.status)
  {
    hide StateOn, EventsOf, MarketOf, StatusOf, Last, NoneYet;
    var m := StateOn(EventsOf(view, i.id), e.tradeDate);
    MembershipMeans(view, i.id, e.tradeDate);
    OneSays(view, i.id, e.tradeDate);
    if m.market.Some? {
      var a :| Last(view, i.id, e.tradeDate, NamedMarket, a) && m.market == MarketOf(view[a.index].row.input);
    }
  }

  lemma OneSays(view: seq<Revision>, id: nat, d: Date)
    ensures forall aspect, a, b :: Last(view, id, d, aspect, a) && Last(view, id, d, aspect, b) ==> a == b
    ensures forall aspect, a :: Last(view, id, d, aspect, a) ==> a.index < |view| && !NoneYet(view, id, d, aspect)
  {
    forall aspect, a, b | Last(view, id, d, aspect, a) && Last(view, id, d, aspect, b) ensures a == b {
      OnlyLast(view, id, d, aspect, a, b);
    }
  }

  lemma EntryShown(i: Instrument, view: seq<Revision>, req: UniverseRequest, trading: Date -> bool, e: Entry)
    ensures EntryOn(i, EventsOf(view, i.id), req, trading, e.tradeDate) == Some(e)
       <==> trading(e.tradeDate) && Shows(i, view, req, e)
  {
    ShownState(i, view, req, e);
    hide StateOn, EventsOf, Shows;
  }

  /** The universe is exactly what the evidence says: one entry for each trading day of
      the window and each candidate that the evidence shows listed in a requested market
      that day; the days outside trading are not counted as expected; and a requested
      instrument that no evidence lists is named as unknown. */
  lemma UniverseMeans(instruments: seq<Instrument>, view: seq<Revision>, req: UniverseRequest, trading: Date -> bool,
                      excluded: set<nat>)
    requires DistinctIds(instruments)
    ensures var built := Build(instruments, view, req, trading, excluded);
      && (forall e :: e in built.entries <==>
            req.start <= e.tradeDate <= req.end && trading(e.tradeDate)
            && exists i :: i in instruments && Candidate(i, view, req, excluded) && Shows(i, view, req, e))
      && built.expectedCount == |Filter(built.entries, (e: Entry) => e.status != Suspended && e.status != Halted)|
      && (forall id :: id in built.unknownIds <==>
            exists i :: i in instruments && i.id == id && i.id !in excluded && i.securityType in req.securityTypes
                        && !Candidate(i, view, req, excluded))
      && Ascending(built.unknownIds)
  {
    hide EntryOn, EventsOf, Selected, Candidate, Shows, RawEntries, UnknownIds, SortBy, Unseen;
    var built := Build(instruments, view, req, trading, excluded);
    BuildMeaning(instruments, view, req, trading, excluded);
    forall e ensures Owned(instruments, view, req, trading, excluded, e) <==>
        trading(e.tradeDate)
        && exists i :: i in instruments && Candidate(i, view, req, excluded) && Shows(i, view, req, e)
    {
      OwnedMeans(instruments, view, req, trading, excluded, e);
    }
    hide Owned;
    ExpectedMeans(instruments, view, req, trading, excluded);
    forall id ensures id in UnknownIds(instruments, view, req, excluded) <==>
        exists i :: i in instruments && i.id == id && i.id !in excluded && i.securityType in req.securityTypes
                    && !Candidate(i, view, req, excluded)
    {
      UnknownMeans(instruments, view, req, excluded, id);
    }
  }

  lemma OwnedMeans(instruments: seq<Instrument>, view: seq<Revision>, req: UniverseRequest, trading: Date -> bool,
                   excluded: set<nat>, e: Entry)
    ensures Owned(instruments, view, req, trading, excluded, e) <==>
        trading(e.tradeDate)
        && exists i :: i in instruments && Candidate(i, view, req, excluded) && Shows(i, view, req, e)
  {
    hide EntryOn, EventsOf, Selected, Candidate, Shows;
    forall i: Instrument ensures EntryOn(i, EventsOf(view, i.id), req, trading, e.tradeDate) == Some(e)
             <==> trading(e.tradeDate) && Shows(i, view, req, e)
    {
      EntryShown(i, view, req, trading, e);
    }
    forall i: Instrument ensures Candidate(i, view, req, excluded) <==> Selected(i, view, req, excluded) {
      CandidateIsSelected(i, view, req, excluded);
    }
  }

  lemma ExpectedMeans(instruments: seq<Instrument>, view: seq<Revision>, req: UniverseRequest, trading: Date -> bool,
                      excluded: set<nat>)
    requires DistinctIds(instruments)
    ensures var built := Build(instruments, view, req, trading, excluded);
      built.expectedCount == |Filter(built.entries, (e: Entry) => e.status != Suspended && e.status != Halted)|
  {
    hide RawEntries, SortBy, StateOn, EventsOf, Selected;
    var entries := Build(instruments, view, req, trading, excluded).entries;
    BuildMeaning(instruments, view, req, trading, excluded);
    FilterSame(entries, IsExpected, (e: Entry) => e.status != Suspended && e.status != Halted);
  }

  lemma {:induction false} UnknownMeans(instruments: seq<Instrument>, view: seq<Revision>, req: UniverseRequest,
                                        excluded: set<nat>, id: nat)
    ensures id in UnknownIds(instruments, view, req, excluded) <==>
        exists i :: i in instruments && i.id == id && i.id !in excluded && i.securityType in req.securityTypes
                    && !Candidate(i, view, req, excluded)
    decreases |instruments|
  {
    hide Candidate, Selected, Unseen;
    if instruments != [] {
      var front, last := instruments[..|instruments| - 1], instruments[|instruments| - 1];
      assert instruments == front + [last];
      UnknownMeans(front, view, req, excluded, id);
      CandidateIsSelected(last, view, req, excluded);
    }
  }
}
