/** Dated RS rows: gate, windows, ranks and ratings put together per trade date. */
module HistoricalRs {
  import opened Common
  import opened Sorting
  import opened Gathering
  import opened RsWindows
  import opened RsRanking

  /** What a window is ordered by: the score, or a cumulative return. */
  datatype Measure = Overall | OneMonth | ThreeMonths | SixMonths | TwelveMonths

  datatype RsRow = RsRow(instrumentId: nat, market: nat, date: Date, reason: Option<Reason>, observations: nat,
                         figures: Option<Figures>)

  /** The columns of an available row. */
  datatype Figures = Figures(scored: Scored, percentile: real, rs1: int, rs3: int, rs6: int, rs12: int, rating: int,
                             rankInMarket: nat, rankInUniverse: nat)

  function MemberKey(m: Membership): Key { (m.instrumentId, m.date, 0) }

  ghost predicate OncePerDay(ms: seq<Membership>) { DistinctKeys(ms, MemberKey) }

  function ScoredAt(prices: seq<Price>, m: Membership): Option<Scored> {
    if HasScore(prices, m) then
      JoinedComplete(prices, m);
      Some(ScoredOf(Joined(prices, m).value))
    else None
  }

  lemma JoinedComplete(prices: seq<Price>, m: Membership)
    requires HasScore(prices, m)
    ensures Complete(Joined(prices, m).value)
  {
    var rows := History(prices, m.instrumentId);
    LagsComplete(rows, FindDay(rows, m.date).value);
  }

  function ValueOf(s: Scored, measure: Measure): real {
    match measure
    case Overall => s.score
    case OneMonth => s.r1
    case ThreeMonths => s.r3
    case SixMonths => s.r6
    case TwelveMonths => s.r12
  }

  function EntryOf(prices: seq<Price>, m: Membership, measure: Measure): Entry {
    Entry(m.instrumentId, match ScoredAt(prices, m) { case Some(s) => Some(ValueOf(s, measure)) case None => None })
  }

  /** PARTITION BY trade_date. */
  function EntriesOn(prices: seq<Price>, ms: seq<Membership>, d: Date, measure: Measure): set<Entry> {
    set m | m in ms && m.date == d :: EntryOf(prices, m, measure)
  }

  function EligibleOn(prices: seq<Price>, ms: seq<Membership>, d: Date): set<Membership> {
    set m | m in ms && m.date == d && HasScore(prices, m)
  }

  // ---- the eligible count fits every ranking ---------------------------

  lemma OneMember(ms: seq<Membership>, a: Membership, b: Membership)
    requires OncePerDay(ms) && a in ms && b in ms && a.instrumentId == b.instrumentId && a.date == b.date
    ensures a == b
  {
    DistinctIdentifies(ms, MemberKey);
  }

  lemma EntriesHaveDistinctIds(prices: seq<Price>, ms: seq<Membership>, d: Date, measure: Measure)
    requires OncePerDay(ms)
    ensures DistinctIds(EntriesOn(prices, ms, d, measure))
  {
    forall a, b | a in ms && b in ms && a.date == d && b.date == d && a.instrumentId == b.instrumentId ensures a == b {
      OneMember(ms, a, b);
    }
    EntryIds(prices, measure);
    hide EntryOf, OncePerDay;
  }

  lemma EntryIds(prices: seq<Price>, measure: Measure)
    ensures forall m :: EntryOf(prices, m, measure).id == m.instrumentId
    ensures forall m :: EntryOf(prices, m, measure).value.Some? <==> HasScore(prices, m)
  {
  }

  lemma {:induction false} ImageOfMembers(prices: seq<Price>, part: set<Membership>, measure: Measure)
    requires forall a, b :: a in part && b in part && a.instrumentId == b.instrumentId ==> a == b
    ensures |set m | m in part :: EntryOf(prices, m, measure)| == |part|
    decreases |part|
  {
    EntryIds(prices, measure);
    hide EntryOf, HasScore;
    if part == {} {
      assert (set m | m in part :: EntryOf(prices, m, measure)) == {};
    } else {
      var last :| last in part;
      var rest := part - {last};
      ImageOfMembers(prices, rest, measure);
      var image := set m | m in rest :: EntryOf(prices, m, measure);
      assert EntryOf(prices, last, measure) !in image;
      assert (set m | m in part :: EntryOf(prices, m, measure)) == image + {EntryOf(prices, last, measure)};
    }
  }

  /** Every window of a date has as many ranked rows as the date has eligible ones. */
  lemma EligibleCount(prices: seq<Price>, ms: seq<Membership>, d: Date, measure: Measure)
    requires OncePerDay(ms)
    ensures |Ranked(EntriesOn(prices, ms, d, measure))| == |EligibleOn(prices, ms, d)|
  {
    var eligible := EligibleOn(prices, ms, d);
    forall a, b | a in eligible && b in eligible && a.instrumentId == b.instrumentId ensures a == b {
      OneMember(ms, a, b);
    }
    ImageOfMembers(prices, eligible, measure);
    RankedEntries(prices, ms, d, measure);
  }

  lemma RankedEntries(prices: seq<Price>, ms: seq<Membership>, d: Date, measure: Measure)
    ensures Ranked(EntriesOn(prices, ms, d, measure)) == set m | m in EligibleOn(prices, ms, d) ::
            EntryOf(prices, m, measure)
  {
    EntryIds(prices, measure);
    hide EntryOf, HasScore;
    var entries := EntriesOn(prices, ms, d, measure);
    var image := set m | m in EligibleOn(prices, ms, d) :: EntryOf(prices, m, measure);
    forall e | e in image ensures e in Ranked(entries) {
      var m :| m in EligibleOn(prices, ms, d) && EntryOf(prices, m, measure) == e;
      assert e in entries;
    }
    forall e | e in Ranked(entries) ensures e in image {
      var m :| m in ms && m.date == d && EntryOf(prices, m, measure) == e;
      assert m in EligibleOn(prices, ms, d);
    }
  }

  function RankOf(prices: seq<Price>, ms: seq<Membership>, m: Membership, measure: Measure): nat {
    Rank(EntriesOn(prices, ms, m.date, measure), EntryOf(prices, m, measure))
  }

  lemma RankFits(prices: seq<Price>, ms: seq<Membership>, m: Membership, measure: Measure)
    requires OncePerDay(ms) && m in ms && HasScore(prices, m)
    ensures 1 <= RankOf(prices, ms, m, measure) <= |EligibleOn(prices, ms, m.date)|
  {
    EligibleCount(prices, ms, m.date, measure);
    EntryIds(prices, measure);
    hide EntryOf, HasScore, OncePerDay;
    RankInRange(EntriesOn(prices, ms, m.date, measure), EntryOf(prices, m, measure));
  }

  /** `coalesce(least(observations, 253), 0)`. */
  function AvailableObservations(prices: seq<Price>, m: Membership): nat {
    match Joined(prices, m)
    case Some(w) => if w.observations < MIN_REQUIRED_PRICES then w.observations else MIN_REQUIRED_PRICES
    case None => 0
  }

  /** One row of the INSERT. */
  function RsRowOf(prices: seq<Price>, ms: seq<Membership>, m: Membership): RsRow
    requires OncePerDay(ms) && m in ms
  {
    RsRow(m.instrumentId, m.market, m.date, StatementReason(prices, m), AvailableObservations(prices, m),
          if HasScore(prices, m) then Some(FiguresOf(prices, ms, m)) else None)
  }

  function FiguresOf(prices: seq<Price>, ms: seq<Membership>, m: Membership): Figures
    requires OncePerDay(ms) && m in ms && HasScore(prices, m)
  {
    var n := |EligibleOn(prices, ms, m.date)|;
    var rank := RankOf(prices, ms, m, Overall);
    RankFits(prices, ms, m, Overall);
    RankFits(prices, ms, m, OneMonth);
    RankFits(prices, ms, m, ThreeMonths);
    RankFits(prices, ms, m, SixMonths);
    RankFits(prices, ms, m, TwelveMonths);
    Figures(ScoredAt(prices, m).value, if n > 1 then (n - rank) as real / (n - 1) as real else 1.0,
            PeriodRating(n, RankOf(prices, ms, m, OneMonth)), PeriodRating(n, RankOf(prices, ms, m, ThreeMonths)),
            PeriodRating(n, RankOf(prices, ms, m, SixMonths)), PeriodRating(n, RankOf(prices, ms, m, TwelveMonths)),
            OverallRating(n, rank), rank, rank)
  }

  // ---- the reference's returns -----------------------------------------

  /** `_return_over_window`. */
  function ReferenceReturn(rows: seq<Price>, w: nat): real
    requires w < |rows|
  {
    rows[|rows| - 1].close / rows[|rows| - (w + 1)].close - 1.0
  }

  /** One `_quarterly_returns` step, guarded against a zero denominator. */
  function Quarter(to: real, from: real): real {
    if 1.0 + from != 0.0 then (1.0 + to) / (1.0 + from) - 1.0 else 0.0
  }

  function ReferenceScored(rows: seq<Price>): Scored
    requires |rows| >= MIN_REQUIRED_PRICES
  {
    var r3, r6, r9, r12 := ReferenceReturn(rows, 63), ReferenceReturn(rows, 126), ReferenceReturn(rows, 189),
        ReferenceReturn(rows, 252);
    Scored(ReferenceReturn(rows, 21), r3, r6, r9, r12,
           0.25 * (r3 + Quarter(r6, r3) + Quarter(r9, r6) + Quarter(r12, r9)))
  }

  /** Window lags and list positions give the same returns and score. */
  lemma ScoresAgree(prices: seq<Price>, m: Membership)
    requires OnePerDay(prices) && HasScore(prices, m)
    ensures |Available(prices, m.instrumentId, m.date)| >= MIN_REQUIRED_PRICES
    ensures ScoredAt(prices, m) == Some(ReferenceScored(Available(prices, m.instrumentId, m.date)))
  {
    hide Available, OnePerDay, Joined, HasScore, ScoredAt, FromAvailable, ReferenceScored;
    WindowIsPrefix(prices, m);
    ScoreFromRows(prices, m, Available(prices, m.instrumentId, m.date));
  }

  lemma ScoreFromRows(prices: seq<Price>, m: Membership, rows: seq<Price>)
    requires HasScore(prices, m) && Joined(prices, m) == FromAvailable(rows, m.date)
    ensures |rows| >= MIN_REQUIRED_PRICES
    ensures ScoredAt(prices, m) == Some(ReferenceScored(rows))
  {
    hide Joined, ScoredOf, ReferenceScored, RowAt;
    JoinedComplete(prices, m);
    SameScore(rows);
  }

  lemma SameScore(rows: seq<Price>)
    requires |rows| > 0 && RowAt(rows, |rows| - 1).c252.Some?
    ensures Complete(RowAt(rows, |rows| - 1)) && |rows| >= MIN_REQUIRED_PRICES
    ensures ScoredOf(RowAt(rows, |rows| - 1)) == ReferenceScored(rows)
  {
    var w := RowAt(rows, |rows| - 1);
    RatioPositive(w.close, w.c63.value);
    RatioPositive(w.close, w.c126.value);
    RatioPositive(w.close, w.c189.value);
  }

  // ---- a date's ranking ------------------------------------------------

  ghost predicate HoldsRank(prices: seq<Price>, ms: seq<Membership>, d: Date, measure: Measure, r: nat) {
    exists m :: m in EligibleOn(prices, ms, d) && RankOf(prices, ms, m, measure) == r
  }

  /** On every date and for every measure the eligible memberships are numbered
      1..n, each number once. */
  lemma RanksNumberTheDate(prices: seq<Price>, ms: seq<Membership>, d: Date, measure: Measure)
    requires OncePerDay(ms)
    ensures var eligible := EligibleOn(prices, ms, d);
      && (forall m :: m in eligible ==> 1 <= RankOf(prices, ms, m, measure) <= |eligible|)
      && (forall a, b :: a in eligible && b in eligible && a != b ==>
            RankOf(prices, ms, a, measure) != RankOf(prices, ms, b, measure))
      && (forall r :: 1 <= r <= |eligible| ==> HoldsRank(prices, ms, d, measure, r))
  {
    var eligible := EligibleOn(prices, ms, d);
    var entries := EntriesOn(prices, ms, d, measure);
    EntriesHaveDistinctIds(prices, ms, d, measure);
    EligibleCount(prices, ms, d, measure);
    RanksAreBijection(entries);
    EntryIds(prices, measure);
    forall a, b | a in eligible && b in eligible && EntryOf(prices, a, measure) == EntryOf(prices, b, measure)
      ensures a == b
    {
      OneMember(ms, a, b);
    }
    hide EntryOf, HasScore, OncePerDay, Rank, DistinctIds;
    forall m | m in eligible ensures EntryOf(prices, m, measure) in Ranked(entries) {
    }
    forall r | 1 <= r <= |eligible| ensures HoldsRank(prices, ms, d, measure, r) {
      assert IsRankOf(entries, r);
      var e :| e in Ranked(entries) && Rank(entries, e) == r;
      var m :| m in ms && m.date == d && EntryOf(prices, m, measure) == e;
      assert m in eligible;
    }
  }

  lemma LargerIsBefore(prices: seq<Price>, a: Membership, b: Membership, measure: Measure)
    requires HasScore(prices, a) && HasScore(prices, b)
    requires ValueOf(ScoredAt(prices, a).value, measure) > ValueOf(ScoredAt(prices, b).value, measure)
    ensures Before(EntryOf(prices, a, measure), EntryOf(prices, b, measure))
  {
  }

  /** A larger value ranks strictly better and never rates lower; the same holds of
      the overall rating. */
  lemma BetterValueBetterRank(prices: seq<Price>, ms: seq<Membership>, a: Membership, b: Membership, measure: Measure)
    requires OncePerDay(ms) && a in ms && b in ms && a.date == b.date && HasScore(prices, a) && HasScore(prices, b)
    requires ValueOf(ScoredAt(prices, a).value, measure) > ValueOf(ScoredAt(prices, b).value, measure)
    ensures RankOf(prices, ms, a, measure) < RankOf(prices, ms, b, measure)
    ensures var n := |EligibleOn(prices, ms, a.date)|;
      && 1 <= RankOf(prices, ms, a, measure) && RankOf(prices, ms, b, measure) <= n
      && PeriodRating(n, RankOf(prices, ms, b, measure)) <= PeriodRating(n, RankOf(prices, ms, a, measure))
      && OverallRating(n, RankOf(prices, ms, b, measure)) <= OverallRating(n, RankOf(prices, ms, a, measure))
  {
    hide EntryOf, HasScore, OncePerDay, Before, ScoredAt;
    LargerIsBefore(prices, a, b, measure);
    RankFits(prices, ms, a, measure);
    RankFits(prices, ms, b, measure);
    RankFollowsOrder(EntriesOn(prices, ms, a.date, measure), EntryOf(prices, a, measure), EntryOf(prices, b, measure));
    var n := |EligibleOn(prices, ms, a.date)|;
    RatingScale(n, RankOf(prices, ms, a, measure), RankOf(prices, ms, b, measure));
    RatingScale(n, RankOf(prices, ms, b, measure), RankOf(prices, ms, b, measure));
  }

  // ---- no look-ahead ---------------------------------------------------

  /** Later prices and memberships leave a date's windows as they were. */
  lemma DateUnchanged(prices: seq<Price>, later: seq<Price>, ms: seq<Membership>, laterMs: seq<Membership>, d: Date,
                      t: Date, measure: Measure)
    requires OnePerDay(prices + later) && d <= t
    requires (forall p :: p in later ==> p.date > t) && (forall m :: m in laterMs ==> m.date > t)
    ensures EntriesOn(prices + later, ms + laterMs, d, measure) == EntriesOn(prices, ms, d, measure)
    ensures EligibleOn(prices + later, ms + laterMs, d) == EligibleOn(prices, ms, d)
  {
    forall m: Membership | m.date == d
      ensures EntryOf(prices + later, m, measure) == EntryOf(prices, m, measure)
      ensures HasScore(prices + later, m) == HasScore(prices, m)
    {
      WindowsDoNotLookAhead(prices, later, m, t);
    }
    hide EntryOf, HasScore;
    assert forall m :: m in ms + laterMs && m.date == d <==> m in ms && m.date == d;
  }

  /** Adding prices and memberships dated after `t` changes no row dated up to `t`:
      neither its reason nor any return, score, rank or rating. */
  lemma NoLookAhead(prices: seq<Price>, later: seq<Price>, ms: seq<Membership>, laterMs: seq<Membership>, m: Membership,
                    t: Date)
    requires OnePerDay(prices + later) && OncePerDay(ms + laterMs) && OncePerDay(ms) && m in ms && m.date <= t
    requires (forall p :: p in later ==> p.date > t) && (forall x :: x in laterMs ==> x.date > t)
    ensures m in ms + laterMs
    ensures RsRowOf(prices + later, ms + laterMs, m) == RsRowOf(prices, ms, m)
  {
    WindowsDoNotLookAhead(prices, later, m, t);
    SameRank(prices, later, ms, laterMs, m, t, Overall);
    SameRank(prices, later, ms, laterMs, m, t, OneMonth);
    SameRank(prices, later, ms, laterMs, m, t, ThreeMonths);
    SameRank(prices, later, ms, laterMs, m, t, SixMonths);
    SameRank(prices, later, ms, laterMs, m, t, TwelveMonths);
    if HasScore(prices, m) {
      hide OncePerDay, OnePerDay, RankOf, EligibleOn, ScoredAt, HasScore, PeriodRating, OverallRating;
      SameFigures(prices, later, ms, laterMs, m);
    }
  }

  lemma SameRank(prices: seq<Price>, later: seq<Price>, ms: seq<Membership>, laterMs: seq<Membership>, m: Membership,
                 t: Date, measure: Measure)
    requires OnePerDay(prices + later) && m.date <= t
    requires (forall p :: p in later ==> p.date > t) && (forall x :: x in laterMs ==> x.date > t)
    ensures RankOf(prices + later, ms + laterMs, m, measure) == RankOf(prices, ms, m, measure)
    ensures EligibleOn(prices + later, ms + laterMs, m.date) == EligibleOn(prices, ms, m.date)
    ensures ScoredAt(prices + later, m) == ScoredAt(prices, m)
  {
    DateUnchanged(prices, later, ms, laterMs, m.date, t, measure);
    WindowsDoNotLookAhead(prices, later, m, t);
    hide Joined, Rank, EntriesOn, EligibleOn, OnePerDay;
  }

  lemma SameFigures(prices: seq<Price>, later: seq<Price>, ms: seq<Membership>, laterMs: seq<Membership>, m: Membership)
    requires OncePerDay(ms + laterMs) && OncePerDay(ms) && m in ms && m in ms + laterMs
    requires HasScore(prices + later, m) && HasScore(prices, m)
    requires ScoredAt(prices + later, m) == ScoredAt(prices, m)
    requires EligibleOn(prices + later, ms + laterMs, m.date) == EligibleOn(prices, ms, m.date)
    requires RankOf(prices + later, ms + laterMs, m, Overall) == RankOf(prices, ms, m, Overall)
    requires RankOf(prices + later, ms + laterMs, m, OneMonth) == RankOf(prices, ms, m, OneMonth)
    requires RankOf(prices + later, ms + laterMs, m, ThreeMonths) == RankOf(prices, ms, m, ThreeMonths)
    requires RankOf(prices + later, ms + laterMs, m, SixMonths) == RankOf(prices, ms, m, SixMonths)
    requires RankOf(prices + later, ms + laterMs, m, TwelveMonths) == RankOf(prices, ms, m, TwelveMonths)
    ensures FiguresOf(prices + later, ms + laterMs, m) == FiguresOf(prices, ms, m)
  {
    hide OncePerDay, RankOf, EligibleOn, ScoredAt, HasScore, PeriodRating, OverallRating;
  }

  // ---- the reference's gate loop ---------------------------------------

  function Unavailable(prices: seq<Price>): Membership -> Option<(Membership, Reason)> {
    (m: Membership) => match ReferenceReason(prices, m) { case Some(r) => Some((m, r)) case None => None }
  }

  function Passes(prices: seq<Price>): Membership -> bool { (m: Membership) => HasScore(prices, m) }

  method ByInstrument(prices: seq<Price>) returns (byInstrument: map<nat, seq<Price>>)
    ensures Indexes(byInstrument, prices, OfInstrument)
  {
    byInstrument := map[];
    NothingIndexed(byInstrument, OfInstrument);
    var k := 0;
    assert prices[..0] == [];
    while k < |prices|
      invariant 0 <= k <= |prices|
      invariant Indexes(byInstrument, prices[..k], OfInstrument)
    {
      hide Indexes;
      var p := prices[k];
      assert prices[..k + 1] == prices[..k] + [p];
      IndexesNext(byInstrument, prices[..k], OfInstrument, p, p.instrumentId);
      byInstrument := byInstrument[p.instrumentId := At(byInstrument, p.instrumentId) + [p]];
      k := k + 1;
    }
    assert prices[..k] == prices;
  }

  lemma GateRows(prices: seq<Price>, byInstrument: map<nat, seq<Price>>, m: Membership)
    requires Indexes(byInstrument, prices, OfInstrument)
    ensures SortBy(Filter(At(byInstrument, m.instrumentId), NotAfter(m.date)), DateKey)
         == Available(prices, m.instrumentId, m.date)
  {
    hide SortBy, Filter;
    assert At(byInstrument, m.instrumentId) == Filter(prices, OfInstrument(m.instrumentId));
    FilterBoth(prices, m.instrumentId, m.date);
  }

  /** The reasons, in the order the loop asks. */
  method Gate(ghost prices: seq<Price>, byInstrument: map<nat, seq<Price>>, m: Membership)
    returns (reason: Option<Reason>)
    requires Indexes(byInstrument, prices, OfInstrument)
    ensures reason == ReferenceReason(prices, m)
  {
    hide Available, SortBy, Filter, At, Indexes, NotAfter;
    var rows := SortBy(Filter(At(byInstrument, m.instrumentId), NotAfter(m.date)), DateKey);
    GateRows(prices, byInstrument, m);
    if !m.expected {
      return Some(OutsideTradingInterval);
    }
    if !exists p :: p in rows && p.date == m.date {
      return Some(PriceMissing);
    }
    if |rows| < MIN_REQUIRED_PRICES {
      return Some(InsufficientHistory);
    }
    return None;
  }

  lemma PrecheckNext(prices: seq<Price>, ms: seq<Membership>, k: nat)
    requires OnePerDay(prices) && k < |ms|
    ensures Collect(ms[..k + 1], Unavailable(prices)) == Collect(ms[..k], Unavailable(prices))
              + match ReferenceReason(prices, ms[k]) { case Some(r) => [(ms[k], r)] case None => [] }
    ensures Filter(ms[..k + 1], Passes(prices))
         == Filter(ms[..k], Passes(prices)) + if ReferenceReason(prices, ms[k]).None? then [ms[k]] else []
  {
    GatesAgree(prices, ms[k]);
    hide HasScore, ReferenceReason, OnePerDay, Filter, Collect;
    CollectNext(ms, Unavailable(prices), k);
    FilterNext(ms, Passes(prices), k);
  }

  /** The pre-check of `calculate_historical_rs`: what it turns away, with reasons,
      and what it passes on, which is exactly what the statement scores. */
  method Precheck(prices: seq<Price>, ms: seq<Membership>)
    returns (unavailable: seq<(Membership, Reason)>, eligible: seq<Membership>)
    requires OnePerDay(prices)
    ensures unavailable == Collect(ms, Unavailable(prices))
    ensures eligible == Filter(ms, Passes(prices))
  {
    var byInstrument := ByInstrument(prices);
    hide Indexes, OnePerDay, ReferenceReason, HasScore;
    unavailable, eligible := [], [];
    var k := 0;
    while k < |ms|
      invariant 0 <= k <= |ms|
      invariant unavailable == Collect(ms[..k], Unavailable(prices))
      invariant eligible == Filter(ms[..k], Passes(prices))
    {
      var m := ms[k];
      var reason := Gate(prices, byInstrument, m);
      PrecheckNext(prices, ms, k);
      if reason.Some? {
        unavailable := unavailable + [(m, reason.value)];
      } else {
        eligible := eligible + [m];
      }
      k := k + 1;
    }
    assert ms[..k] == ms;
  }
}
