/** What every column of an inserted RS row holds, in terms of closes and of the
    memberships it is compared with. */
module RsColumns {
  import opened Common
  import opened Sorting
  import opened RsWindows
  import opened RsRanking
  import opened HistoricalRs

  /** Row `x` is ahead of row `m`: a larger value, or the same and the smaller instrument id. */
  ghost predicate Beats(prices: seq<Price>, x: Membership, m: Membership, value: Scored -> real)
    requires HasScore(prices, x) && HasScore(prices, m)
  {
    var a, b := value(ScoredAt(prices, x).value), value(ScoredAt(prices, m).value);
    a > b || (a == b && x.instrumentId < m.instrumentId)
  }

  /** The scored memberships of the same date that are ahead of `m`, and behind it. */
  ghost function Leaders(prices: seq<Price>, ms: seq<Membership>, m: Membership, value: Scored -> real): set<Membership>
    requires HasScore(prices, m)
  {
    set x | x in ms && x.date == m.date && HasScore(prices, x) && Beats(prices, x, m, value)
  }

  ghost function Trailers(prices: seq<Price>, ms: seq<Membership>, m: Membership,
                          value: Scored -> real): set<Membership>
    requires HasScore(prices, m)
  {
    set x | x in ms && x.date == m.date && HasScore(prices, x) && Beats(prices, m, x, value)
  }

  /** `rating - 1` is the integer nearest to 98 * behind / others, halves upwards. */
  ghost predicate Rates(rating: int, behind: nat, others: nat) {
    2 * others * (rating - 1) <= 2 * (98 * behind) + others < 2 * others * rating
  }

  // ---- rank() counts the rows ahead ------------------------------------

  lemma EntryBefore(prices: seq<Price>, x: Membership, m: Membership, measure: Measure, value: Scored -> real)
    requires HasScore(prices, m) && forall s :: value(s) == ValueOf(s, measure)
    ensures Before(EntryOf(prices, x, measure), EntryOf(prices, m, measure))
       <==> HasScore(prices, x) && Beats(prices, x, m, value)
  {
    hide HasScore, ValueOf, ScoredOf;
  }

  lemma AheadAreLeaders(prices: seq<Price>, ms: seq<Membership>, m: Membership, measure: Measure, value: Scored -> real)
    requires HasScore(prices, m) && forall s :: value(s) == ValueOf(s, measure)
    ensures Ahead(EntriesOn(prices, ms, m.date, measure), EntryOf(prices, m, measure))
         == set x | x in Leaders(prices, ms, m, value) :: EntryOf(prices, x, measure)
  {
    hide HasScore, EntryOf, Before, Beats;
    var e := EntryOf(prices, m, measure);
    var image := set x | x in Leaders(prices, ms, m, value) :: EntryOf(prices, x, measure);
    forall x | x in ms && x.date == m.date
      ensures Before(EntryOf(prices, x, measure), e) <==> x in Leaders(prices, ms, m, value)
    {
      EntryBefore(prices, x, m, measure, value);
    }
    forall a | a in Ahead(EntriesOn(prices, ms, m.date, measure), e) ensures a in image {
      var x :| x in ms && x.date == m.date && EntryOf(prices, x, measure) == a;
    }
    forall a | a in image ensures a in Ahead(EntriesOn(prices, ms, m.date, measure), e) {
      var x :| x in Leaders(prices, ms, m, value) && EntryOf(prices, x, measure) == a;
    }
  }

  lemma RankCounts(prices: seq<Price>, ms: seq<Membership>, m: Membership, measure: Measure, value: Scored -> real)
    requires OncePerDay(ms) && HasScore(prices, m) && forall s :: value(s) == ValueOf(s, measure)
    ensures RankOf(prices, ms, m, measure) == 1 + |Leaders(prices, ms, m, value)|
  {
    hide HasScore, EntryOf, Beats, ValueOf, Ahead, OncePerDay;
    var leaders := Leaders(prices, ms, m, value);
    forall a, b | a in leaders && b in leaders && a.instrumentId == b.instrumentId ensures a == b {
      OneMember(ms, a, b);
    }
    ImageOfMembers(prices, leaders, measure);
    AheadAreLeaders(prices, ms, m, measure, value);
  }

  /** Every other scored membership of the date is on one side. */
  lemma SidesPartition(prices: seq<Price>, ms: seq<Membership>, m: Membership, value: Scored -> real)
    requires OncePerDay(ms) && m in ms && HasScore(prices, m)
    ensures |EligibleOn(prices, ms, m.date)|
         == 1 + |Leaders(prices, ms, m, value)| + |Trailers(prices, ms, m, value)|
  {
    hide HasScore, ScoredAt, OncePerDay;
    var leaders, trailers := Leaders(prices, ms, m, value), Trailers(prices, ms, m, value);
    forall x | x in ms && x.date == m.date && x.instrumentId == m.instrumentId ensures x == m {
      OneMember(ms, x, m);
    }
    assert EligibleOn(prices, ms, m.date) == {m} + leaders + trailers;
    assert leaders !! trailers && m !in leaders && m !in trailers;
  }

  lemma Divides(percentile: real, a: real, b: real)
    requires b > 0.0 && percentile == a / b
    ensures percentile * b == a
  {
  }

  /** A period column. */
  lemma PeriodColumn(prices: seq<Price>, ms: seq<Membership>, m: Membership, measure: Measure, value: Scored -> real)
    requires OncePerDay(ms) && m in ms && HasScore(prices, m) && forall s :: value(s) == ValueOf(s, measure)
    requires |EligibleOn(prices, ms, m.date)| > 1
    ensures var n := |EligibleOn(prices, ms, m.date)|;
      && 1 <= RankOf(prices, ms, m, measure) <= n
      && n - RankOf(prices, ms, m, measure) == |Trailers(prices, ms, m, value)|
      && Rates(PeriodRating(n, RankOf(prices, ms, m, measure)), |Trailers(prices, ms, m, value)|, n - 1)
      && OverallRating(n, RankOf(prices, ms, m, measure)) == PeriodRating(n, RankOf(prices, ms, m, measure))
  {
    hide HasScore, OncePerDay, RankOf, EligibleOn, Leaders, Trailers, ValueOf;
    var n := |EligibleOn(prices, ms, m.date)|;
    RankFits(prices, ms, m, measure);
    RankCounts(prices, ms, m, measure, value);
    SidesPartition(prices, ms, m, value);
    var r := RankOf(prices, ms, m, measure);
    RoundedIsNearest(n, r);
    RatingScale(n, r, r);
    hide Rounded, PeriodRating, OverallRating;
  }

  // ---- returns, score and reason, in closes ----------------------------

  /** The membership has a price on its day and 252 days with prices before it. */
  predicate HasYear(rows: seq<Price>, d: Date) {
    |rows| >= 253 && rows[|rows| - 1].date == d
  }

  /** The returns over 21, 63, 126, 189 and 252 rows, and the mean of the four quarters. */
  ghost predicate ReadsCloses(rows: seq<Price>, s: Scored)
    requires |rows| >= 253
  {
    var n := |rows|;
    var c, c21, c63, c126, c189, c252 := rows[n - 1].close, rows[n - 22].close, rows[n - 64].close, rows[n - 127].close,
        rows[n - 190].close, rows[n - 253].close;
    && s.r1 == c / c21 - 1.0 && s.r3 == c / c63 - 1.0 && s.r6 == c / c126 - 1.0
    && s.r9 == c / c189 - 1.0 && s.r12 == c / c252 - 1.0
    && s.score == ((c / c63 - 1.0) + (c63 / c126 - 1.0) + (c126 / c189 - 1.0) + (c189 / c252 - 1.0)) / 4.0
  }

  lemma ScoredMeans(prices: seq<Price>, m: Membership)
    requires OnePerDay(prices)
    ensures var rows := Available(prices, m.instrumentId, m.date);
      && (HasScore(prices, m) <==> m.expected && HasYear(rows, m.date))
      && (HasScore(prices, m) ==> ReadsCloses(rows, ScoredAt(prices, m).value))
  {
    hide Available, Joined, OnePerDay, ScoreOf;
    WindowIsPrefix(prices, m);
    if HasScore(prices, m) {
      JoinedComplete(prices, m);
      ScoreIsQuarterlyMean(Joined(prices, m).value);
    }
  }

  /** The reason of a row that has no figures, and how many prices it could use. */
  lemma ReasonMeans(prices: seq<Price>, ms: seq<Membership>, m: Membership)
    requires OnePerDay(prices) && OncePerDay(ms) && m in ms
    ensures var row := RsRowOf(prices, ms, m); var rows := Available(prices, m.instrumentId, m.date);
      && row.instrumentId == m.instrumentId && row.market == m.market && row.date == m.date
      && row.observations == (if rows == [] || rows[|rows| - 1].date != m.date then 0
                              else if |rows| < 253 then |rows| else 253)
      && (row.figures.Some? <==> row.reason.None?)
      && (row.reason == Some(OutsideTradingInterval) <==> !m.expected)
      && (row.reason == Some(PriceMissing) <==> m.expected && (rows == [] || rows[|rows| - 1].date != m.date))
      && (row.reason == Some(InsufficientHistory) <==>
            m.expected && 0 < |rows| < 253 && rows[|rows| - 1].date == m.date)
  {
    hide Available, Joined, OnePerDay, OncePerDay, RowAt, FiguresOf;
    WindowIsPrefix(prices, m);
    ScoredMeans(prices, m);
    CountsRows(Available(prices, m.instrumentId, m.date), m.date);
  }

  lemma CountsRows(rows: seq<Price>, d: Date)
    ensures match FromAvailable(rows, d)
      case Some(w) => rows != [] && rows[|rows| - 1].date == d && w.observations == |rows|
      case None => rows == [] || rows[|rows| - 1].date != d
  {
  }

  /** The columns of an available row: the returns and the score read off the closes up
      to the day; the overall rank counts the rows ahead by score, the percentile is the
      share of the others behind; each rating places the rows behind by its own measure
      on the scale from 1 to 99; a lone row gets rating 99 and period ratings 1. */
  lemma RowMeans(prices: seq<Price>, ms: seq<Membership>, m: Membership)
    requires OnePerDay(prices) && OncePerDay(ms) && m in ms && HasScore(prices, m)
    ensures var f := RsRowOf(prices, ms, m).figures.value;
      var others := |Leaders(prices, ms, m, (s: Scored) => s.score)|
          + |Trailers(prices, ms, m, (s: Scored) => s.score)|;
      && |Available(prices, m.instrumentId, m.date)| >= 253
      && ReadsCloses(Available(prices, m.instrumentId, m.date), f.scored)
      && f.rankInUniverse == f.rankInMarket == 1 + |Leaders(prices, ms, m, (s: Scored) => s.score)|
      && if others == 0 then
           f.percentile == 1.0 && f.rating == 99 && f.rs1 == f.rs3 == f.rs6 == f.rs12 == 1
         else
           && f.percentile * others as real == |Trailers(prices, ms, m, (s: Scored) => s.score)| as real
           && Rates(f.rating, |Trailers(prices, ms, m, (s: Scored) => s.score)|, others)
           && Rates(f.rs1, |Trailers(prices, ms, m, (s: Scored) => s.r1)|, others)
           && Rates(f.rs3, |Trailers(prices, ms, m, (s: Scored) => s.r3)|, others)
           && Rates(f.rs6, |Trailers(prices, ms, m, (s: Scored) => s.r6)|, others)
           && Rates(f.rs12, |Trailers(prices, ms, m, (s: Scored) => s.r12)|, others)
  {
    hide HasScore, OncePerDay, OnePerDay, Available, ReadsCloses, RankOf, EligibleOn, Leaders, Trailers, ScoredAt,
         PeriodRating, OverallRating, Rates, RsRowOf;
    ScoredMeans(prices, m);
    FiguresAre(prices, ms, m);
    OverallMeans(prices, ms, m);
    if |EligibleOn(prices, ms, m.date)| > 1 {
      PeriodColumn(prices, ms, m, OneMonth, (s: Scored) => s.r1);
      PeriodColumn(prices, ms, m, ThreeMonths, (s: Scored) => s.r3);
      PeriodColumn(prices, ms, m, SixMonths, (s: Scored) => s.r6);
      PeriodColumn(prices, ms, m, TwelveMonths, (s: Scored) => s.r12);
    } else {
      LoneFigures(prices, ms, m);
    }
  }

  lemma FiguresAre(prices: seq<Price>, ms: seq<Membership>, m: Membership)
    requires OncePerDay(ms) && m in ms && HasScore(prices, m)
    ensures RsRowOf(prices, ms, m).figures == Some(FiguresOf(prices, ms, m))
    ensures FiguresOf(prices, ms, m).scored == ScoredAt(prices, m).value
    ensures forall measure :: 1 <= RankOf(prices, ms, m, measure) <= |EligibleOn(prices, ms, m.date)|
    ensures var n := |EligibleOn(prices, ms, m.date)|; var f := FiguresOf(prices, ms, m);
      && f.rs1 == PeriodRating(n, RankOf(prices, ms, m, OneMonth))
      && f.rs3 == PeriodRating(n, RankOf(prices, ms, m, ThreeMonths))
      && f.rs6 == PeriodRating(n, RankOf(prices, ms, m, SixMonths))
      && f.rs12 == PeriodRating(n, RankOf(prices, ms, m, TwelveMonths))
  {
    hide HasScore, OncePerDay, RankOf, EligibleOn, ScoredAt, PeriodRating, OverallRating;
    forall measure ensures 1 <= RankOf(prices, ms, m, measure) <= |EligibleOn(prices, ms, m.date)| {
      RankFits(prices, ms, m, measure);
    }
  }

  lemma OverallMeans(prices: seq<Price>, ms: seq<Membership>, m: Membership)
    requires OncePerDay(ms) && m in ms && HasScore(prices, m)
    ensures var f := FiguresOf(prices, ms, m); var others := |EligibleOn(prices, ms, m.date)| - 1;
      var ahead := |Leaders(prices, ms, m, (s: Scored) => s.score)|;
      var behind := |Trailers(prices, ms, m, (s: Scored) => s.score)|;
      && others == ahead + behind && f.rankInUniverse == f.rankInMarket == 1 + ahead
      && (others > 0 ==> f.percentile * others as real == behind as real && Rates(f.rating, behind, others))
  {
    hide HasScore, OncePerDay, RankOf, EligibleOn, Leaders, Trailers, ScoredAt, PeriodRating, OverallRating, Rates;
    var n := |EligibleOn(prices, ms, m.date)|;
    RankFits(prices, ms, m, Overall);
    RankCounts(prices, ms, m, Overall, (s: Scored) => s.score);
    SidesPartition(prices, ms, m, (s: Scored) => s.score);
    if n > 1 {
      PeriodColumn(prices, ms, m, Overall, (s: Scored) => s.score);
      Divides(FiguresOf(prices, ms, m).percentile, (n - RankOf(prices, ms, m, Overall)) as real, (n - 1) as real);
    }
  }

  lemma LoneFigures(prices: seq<Price>, ms: seq<Membership>, m: Membership)
    requires OncePerDay(ms) && m in ms && HasScore(prices, m) && |EligibleOn(prices, ms, m.date)| == 1
    ensures var f := FiguresOf(prices, ms, m);
      f.percentile == 1.0 && f.rating == 99 && f.rs1 == f.rs3 == f.rs6 == f.rs12 == 1
  {
    hide HasScore, OncePerDay, RankOf, EligibleOn, ScoredAt;
  }

  /** Rating 99 and rank 1 for the row nobody is ahead of, rating 1 for the one nobody is behind. */
  lemma RatingEnds(rating: int, behind: nat, others: nat)
    requires Rates(rating, behind, others) && 0 < others && behind <= others
    ensures 1 <= rating <= 99 && (behind == others ==> rating == 99) && (behind == 0 ==> rating == 1)
  {
    var c := 2 * others;
    Scales(c, rating, behind, others);
    MultiplyOrder(c, 0, rating);
    MultiplyOrder(c, rating - 1, 99);
    MultiplyOrder(c, 98, rating);
    MultiplyOrder(c, rating - 1, 1);
  }

  lemma Scales(c: nat, rating: int, behind: nat, others: nat)
    requires Rates(rating, behind, others) && c == 2 * others
    ensures c * (rating - 1) <= 196 * behind + others < c * rating
  {
  }

  lemma RatingRises(low: int, high: int, fewer: nat, more: nat, others: nat)
    requires Rates(low, fewer, others) && Rates(high, more, others) && fewer <= more && 0 < others
    ensures low <= high
  {
    var c := 2 * others;
    Scales(c, low, fewer, others);
    Scales(c, high, more, others);
    MultiplyOrder(c, low - 1, high);
  }

  lemma TrailersGrow(prices: seq<Price>, ms: seq<Membership>, a: Membership, b: Membership, value: Scored -> real)
    requires a.date == b.date && HasScore(prices, a) && HasScore(prices, b) && Beats(prices, a, b, value)
    ensures |Trailers(prices, ms, b, value)| <= |Trailers(prices, ms, a, value)|
    ensures |Leaders(prices, ms, a, value)| <= |Leaders(prices, ms, b, value)|
    ensures a in ms ==> |Leaders(prices, ms, a, value)| < |Leaders(prices, ms, b, value)|
  {
    hide HasScore, ScoredAt;
    SubsetSize(Trailers(prices, ms, b, value), Trailers(prices, ms, a, value));
    SubsetSize(Leaders(prices, ms, a, value), Leaders(prices, ms, b, value));
    if a in ms {
      SubsetSize(Leaders(prices, ms, a, value) + {a}, Leaders(prices, ms, b, value));
    }
  }

  /** Two rows of one date: the one with the better score, or the same score and the
      smaller instrument id, has the better rank and percentile and no lower rating. */
  lemma BetterScoreBetterRow(prices: seq<Price>, ms: seq<Membership>, a: Membership, b: Membership)
    requires OnePerDay(prices) && OncePerDay(ms) && a in ms && b in ms && a.date == b.date
    requires HasScore(prices, a) && HasScore(prices, b) && Beats(prices, a, b, (s: Scored) => s.score)
    ensures var f, g := RsRowOf(prices, ms, a).figures.value, RsRowOf(prices, ms, b).figures.value;
      && f.rankInUniverse < g.rankInUniverse && f.percentile >= g.percentile
      && 1 <= g.rating <= f.rating <= 99
      && (f.rankInUniverse == 1 ==> f.rating == 99)
      && (g.rankInUniverse == |EligibleOn(prices, ms, b.date)| ==> g.rating == 1)
  {
    hide HasScore, OncePerDay, OnePerDay, Leaders, Trailers, ScoredAt, Rates, ReadsCloses, RsRowOf, EligibleOn, Beats,
         FiguresOf, RankOf, PeriodRating;
    var value := (s: Scored) => s.score;
    FiguresAre(prices, ms, a);
    FiguresAre(prices, ms, b);
    RowMeans(prices, ms, a);
    RowMeans(prices, ms, b);
    SidesPartition(prices, ms, a, value);
    SidesPartition(prices, ms, b, value);
    TrailersGrow(prices, ms, a, b, value);
    var others := |EligibleOn(prices, ms, a.date)| - 1;
    BetterPlace(others, |Leaders(prices, ms, a, value)|, |Trailers(prices, ms, a, value)|,
                |Leaders(prices, ms, b, value)|, |Trailers(prices, ms, b, value)|,
                RsRowOf(prices, ms, a).figures.value, RsRowOf(prices, ms, b).figures.value);
  }

  /** What the counts ahead and behind say of two rows among the same others. */
  lemma BetterPlace(others: nat, ahead: nat, behind: nat, aheadWorse: nat, behindWorse: nat, f: Figures, g: Figures)
    requires ahead < aheadWorse && others == ahead + behind == aheadWorse + behindWorse
    requires f.percentile * others as real == behind as real && g.percentile * others as real == behindWorse as real
    requires Rates(f.rating, behind, others) && Rates(g.rating, behindWorse, others)
    ensures f.percentile >= g.percentile && 1 <= g.rating <= f.rating <= 99
    ensures (ahead == 0 ==> f.rating == 99) && (behindWorse == 0 ==> g.rating == 1)
  {
    hide Rates;
    RatingRises(g.rating, f.rating, behindWorse, behind, others);
    RatingEnds(f.rating, behind, others);
    RatingEnds(g.rating, behindWorse, others);
    ShareRises(f.percentile, g.percentile, others as real);
  }

  lemma ShareRises(f: real, g: real, others: real)
    requires others > 0.0 && f * others >= g * others
    ensures f >= g
  {
  }
}
