/** Scores, ranks and ratings of the historical RS statement. */
module RsRanking {
  import opened Common
  import opened Sorting
  import opened RsWindows

  // ---- score arithmetic ------------------------------------------------

  datatype Scored = Scored(r1: real, r3: real, r6: real, r9: real, r12: real, score: real)

  function Return(close: Close, anchor: Close): real { close / anchor - 1.0 }

  /** The statement's score of the cumulative returns. */
  function ScoreOf(r3: real, r6: real, r9: real, r12: real): real
    requires 1.0 + r3 != 0.0 && 1.0 + r6 != 0.0 && 1.0 + r9 != 0.0
  {
    0.25 * (r3 + ((1.0 + r6) / (1.0 + r3) - 1.0) + ((1.0 + r9) / (1.0 + r6) - 1.0) + ((1.0 + r12) / (1.0 + r9) - 1.0))
  }

  predicate Complete(w: WindowRow) { w.c21.Some? && w.c63.Some? && w.c126.Some? && w.c189.Some? && w.c252.Some? }

  function ScoredOf(w: WindowRow): Scored
    requires Complete(w)
  {
    var r3, r6, r9, r12 := Return(w.close, w.c63.value), Return(w.close, w.c126.value), Return(w.close, w.c189.value),
                           Return(w.close, w.c252.value);
    RatioPositive(w.close, w.c63.value);
    RatioPositive(w.close, w.c126.value);
    RatioPositive(w.close, w.c189.value);
    Scored(Return(w.close, w.c21.value), r3, r6, r9, r12, ScoreOf(r3, r6, r9, r12))
  }

  lemma RatioPositive(a: real, b: real)
    requires a > 0.0 && b > 0.0
    ensures a / b > 0.0
  {
    assert (a / b) * b == a;
    SignOfProduct(a / b, b);
  }

  lemma SignOfProduct(q: real, b: real)
    requires b > 0.0
    ensures q * b > 0.0 <==> q > 0.0
  {
  }

  /** The last lag implies all the shorter ones. */
  lemma LagsComplete(rows: seq<Price>, k: nat)
    requires k < |rows| && RowAt(rows, k).c252.Some?
    ensures Complete(RowAt(rows, k))
  {
  }

  lemma RatioOfRatios(c: real, a: real, b: real)
    requires c > 0.0 && a > 0.0 && b > 0.0
    ensures c / a > 0.0 && (c / b) / (c / a) == a / b
  {
    RatioPositive(c, a);
    var x, y := c / a, c / b;
    assert x * a == c && y * b == c;
    var q := y / x;
    assert q * x == y;
    assert q * x * b == c == x * a;
    assert x * (q * b) == x * a;
    CancelLeft(x, q * b, a);
    assert q * b == a;
    DivideOut(q, b, a);
  }

  lemma CancelLeft(x: real, a: real, b: real)
    requires x > 0.0 && x * a == x * b
    ensures a == b
  {
    assert x * (a - b) == 0.0;
  }

  lemma DivideOut(q: real, b: real, a: real)
    requires b > 0.0 && q * b == a
    ensures q == a / b
  {
    assert (a / b) * b == a;
    CancelLeft(b, q, a / b);
  }

  /** The quarter growth factors between four anchors and the close. */
  function Growth(from: Close, to: Close): real { to / from }

  lemma ProductOfRatios(a: real, b: real, c: real)
    requires a > 0.0 && b > 0.0 && c > 0.0
    ensures (a / b) * (b / c) == a / c
  {
    var x, y := a / b, b / c;
    assert x * b == a && y * c == b;
    assert (x * y) * c == x * (y * c) == a;
    DivideOut(x * y, c, a);
  }

  /** The score is the mean of the four quarterly returns, and their growth factors
      multiply to the year's. */
  lemma ScoreIsQuarterlyMean(w: WindowRow)
    requires Complete(w)
    ensures var g1, g2, g3, g4 := Growth(w.c63.value, w.close), Growth(w.c126.value, w.c63.value),
                                  Growth(w.c189.value, w.c126.value), Growth(w.c252.value, w.c189.value);
      && ScoredOf(w).score == ((g1 - 1.0) + (g2 - 1.0) + (g3 - 1.0) + (g4 - 1.0)) / 4.0
      && g1 > 0.0 && g2 > 0.0 && g3 > 0.0 && g4 > 0.0
      && ((g1 * g2) * g3) * g4 == Growth(w.c252.value, w.close)
  {
    var c, a, b, d, e := w.close, w.c63.value, w.c126.value, w.c189.value, w.c252.value;
    RatioOfRatios(c, a, b);
    RatioOfRatios(c, b, d);
    RatioOfRatios(c, d, e);
    RatioPositive(a, b);
    RatioPositive(b, d);
    RatioPositive(d, e);
    ProductOfRatios(c, a, b);
    ProductOfRatios(c, b, d);
    ProductOfRatios(c, d, e);
  }

  lemma SquareMean(a: real, b: real)
    ensures ((a + b) / 2.0) * ((a + b) / 2.0) >= a * b
  {
    var m, h := (a + b) / 2.0, (a - b) / 2.0;
    assert a == m + h && b == m - h;
    assert (m + h) * (m - h) == m * m - h * h;
    assert h * h >= 0.0;
  }

  lemma MultiplyBounds(a: real, b: real, c: real, d: real)
    requires 0.0 <= a <= c && 0.0 <= b <= d
    ensures a * b <= c * d
  {
    assert a * b <= c * b;
    assert c * b <= c * d;
  }

  lemma SquareOfProduct(p: real, q: real)
    ensures (p * q) * (p * q) == (p * p) * (q * q)
  {
  }

  lemma Regroup(a: real, b: real, c: real, d: real)
    ensures ((a * b) * c) * d == (a * b) * (c * d)
  {
  }

  /** Factors below two squares have a product below the square of what bounds the roots. */
  lemma ProductsBelow(x: real, y: real, p: real, q: real, s: real)
    requires 0.0 <= x <= p * p && 0.0 <= y <= q * q && 0.0 <= p * q <= s
    ensures x * y <= s * s
  {
    MultiplyBounds(x, y, p * p, q * q);
    SquareOfProduct(p, q);
    MultiplyBounds(p * q, p * q, s, s);
  }

  /** The arithmetic-geometric mean inequality for four factors. */
  lemma FourMean(a: real, b: real, c: real, d: real)
    requires a > 0.0 && b > 0.0 && c > 0.0 && d > 0.0
    ensures var m := (a + b + c + d) / 4.0; (m * m) * (m * m) >= ((a * b) * c) * d
  {
    var p, q := (a + b) / 2.0, (c + d) / 2.0;
    var m := (a + b + c + d) / 4.0;
    SquareMean(a, b);
    SquareMean(c, d);
    SquareMean(p, q);
    assert m == (p + q) / 2.0;
    ProductsBelow(a * b, c * d, p, q, m * m);
    Regroup(a, b, c, d);
  }

  /** A score never understates the year: (1 + score)^4 is at least close / c252. */
  lemma ScoreBoundsYear(w: WindowRow)
    requires Complete(w)
    ensures var g := 1.0 + ScoredOf(w).score; (g * g) * (g * g) >= w.close / w.c252.value
  {
    ScoreIsQuarterlyMean(w);
    var g1, g2, g3, g4 := Growth(w.c63.value, w.close), Growth(w.c126.value, w.c63.value),
                          Growth(w.c189.value, w.c126.value), Growth(w.c252.value, w.c189.value);
    FourMean(g1, g2, g3, g4);
    assert 1.0 + ScoredOf(w).score == (g1 + g2 + g3 + g4) / 4.0;
  }

  // ---- rank() ----------------------------------------------------------

  /** One row of a date's window: the instrument and the value it is ordered by. */
  datatype Entry = Entry(id: nat, value: Option<real>)

  /** ORDER BY value DESC NULLS LAST, instrument_id. */
  predicate Before(a: Entry, b: Entry) {
    if a.value.Some? && b.value.Some? then
      a.value.value > b.value.value || (a.value.value == b.value.value && a.id < b.id)
    else if a.value.None? && b.value.None? then a.id < b.id
    else a.value.Some?
  }

  function Ahead(entries: set<Entry>, e: Entry): set<Entry> { set x | x in entries && Before(x, e) }

  /** `rank()`: one more than the rows strictly before. */
  function Rank(entries: set<Entry>, e: Entry): nat { 1 + |Ahead(entries, e)| }

  ghost predicate DistinctIds(entries: set<Entry>) {
    forall a, b :: a in entries && b in entries && a.id == b.id ==> a == b
  }

  function Ranked(entries: set<Entry>): set<Entry> { set x | x in entries && x.value.Some? }

  lemma BeforeTotal(a: Entry, b: Entry)
    requires a.id != b.id
    ensures Before(a, b) <==> !Before(b, a)
  {
  }

  lemma BeforeTransitive(a: Entry, b: Entry, c: Entry)
    requires Before(a, b) && Before(b, c)
    ensures Before(a, c)
  {
  }

  /** Rank follows the order. */
  lemma RankFollowsOrder(entries: set<Entry>, a: Entry, b: Entry)
    requires a in entries && Before(a, b)
    ensures Rank(entries, a) < Rank(entries, b)
  {
    forall x | x in Ahead(entries, a) ensures x in Ahead(entries, b) && x != a {
      BeforeTransitive(x, a, b);
    }
    assert a in Ahead(entries, b);
    SubsetSize(Ahead(entries, a), Ahead(entries, b) - {a});
  }

  lemma RankInRange(entries: set<Entry>, e: Entry)
    requires e in entries && e.value.Some?
    ensures 1 <= Rank(entries, e) <= |Ranked(entries)|
  {
    assert Ahead(entries, e) <= Ranked(entries) - {e};
    SubsetSize(Ahead(entries, e), Ranked(entries) - {e});
  }

  lemma {:induction false} ImageSize(entries: set<Entry>, part: set<Entry>)
    requires DistinctIds(entries) && part <= entries
    ensures |set x | x in part :: Rank(entries, x)| == |part|
    decreases |part|
  {
    if part != {} {
      var e :| e in part;
      var rest := part - {e};
      ImageSize(entries, rest);
      var image := set x | x in rest :: Rank(entries, x);
      forall x | x in rest ensures Rank(entries, x) != Rank(entries, e) {
        RanksDiffer(entries, x, e);
      }
      assert Rank(entries, e) !in image;
      assert (set x | x in part :: Rank(entries, x)) == image + {Rank(entries, e)};
    } else {
      assert (set x | x in part :: Rank(entries, x)) == {};
    }
  }

  lemma RanksDiffer(entries: set<Entry>, a: Entry, b: Entry)
    requires DistinctIds(entries) && a in entries && b in entries && a != b
    ensures Rank(entries, a) != Rank(entries, b)
  {
    BeforeTotal(a, b);
    if Before(a, b) {
      RankFollowsOrder(entries, a, b);
    } else {
      RankFollowsOrder(entries, b, a);
    }
  }

  ghost predicate IsRankOf(entries: set<Entry>, r: nat) { exists e :: e in Ranked(entries) && Rank(entries, e) == r }

  /** The rows with a value are numbered 1..n, each number once, by decreasing value. */
  lemma RanksAreBijection(entries: set<Entry>)
    requires DistinctIds(entries)
    ensures forall e :: e in Ranked(entries) ==> 1 <= Rank(entries, e) <= |Ranked(entries)|
    ensures forall a, b :: a in Ranked(entries) && b in Ranked(entries) && Rank(entries, a) == Rank(entries, b) ==>
            a == b
    ensures forall r :: 1 <= r <= |Ranked(entries)| ==> IsRankOf(entries, r)
  {
    var ranked := Ranked(entries);
    var ranks := set x | x in ranked :: Rank(entries, x);
    var all := Interval(1, |ranked| + 1);
    ImageSize(entries, ranked);
    forall e | e in ranked ensures 1 <= Rank(entries, e) <= |ranked| {
      RankInRange(entries, e);
    }
    forall a, b | a in ranked && b in ranked && a != b ensures Rank(entries, a) != Rank(entries, b) {
      RanksDiffer(entries, a, b);
    }
    assert ranks <= all;
    SubsetOfSameSize(ranks, all);
    forall r | 1 <= r <= |ranked| ensures IsRankOf(entries, r) {
      assert r in ranks;
    }
  }

  // ---- ratings ---------------------------------------------------------

  /** `round(98 * (n - r) / (n - 1))`, halves away from zero. */
  function Rounded(n: nat, r: nat): nat
    requires 1 <= r <= n && n >= 2
  {
    (2 * (98 * (n - r)) + (n - 1)) / (2 * (n - 1))
  }

  function Clamp(x: int): int { if x < 1 then 1 else if x > 99 then 99 else x }

  /** A period rating; with one row the quotient is null and `greatest` yields 1. */
  function PeriodRating(n: nat, r: nat): int
    requires 1 <= r <= n
  {
    if n == 1 then 1 else Clamp(Rounded(n, r) + 1)
  }

  function OverallRating(n: nat, r: nat): int
    requires 1 <= r <= n
  {
    if n == 1 then 99 else Clamp(Rounded(n, r) + 1)
  }

  /** `Rounded` is the integer nearest to 98 (n - r) / (n - 1). */
  lemma RoundedIsNearest(n: nat, r: nat)
    requires 1 <= r <= n && n >= 2
    ensures 2 * (n - 1) * Rounded(n, r) <= 2 * (98 * (n - r)) + (n - 1) < 2 * (n - 1) * (Rounded(n, r) + 1)
  {
    DivisionBounds(2 * (98 * (n - r)) + (n - 1), 2 * (n - 1));
  }

  lemma DivisionBounds(a: nat, b: nat)
    requires b > 0
    ensures b * (a / b) <= a < b * (a / b + 1)
  {
    assert a == b * (a / b) + a % b;
  }

  lemma MultiplyOrder(c: nat, x: int, y: int)
    requires c > 0
    ensures c * x < c * y <==> x < y
  {
    assert c * y - c * x == c * (y - x);
  }

  lemma DivideMonotone(a: nat, b: nat, c: nat)
    requires c > 0 && a <= b
    ensures a / c <= b / c
  {
    DivisionBounds(a, c);
    DivisionBounds(b, c);
    MultiplyOrder(c, a / c, b / c + 1);
  }

  lemma DivideExactly(q: nat, rest: nat, c: nat)
    requires rest < c
    ensures (q * c + rest) / c == q
  {
    DivisionBounds(q * c + rest, c);
    var p := (q * c + rest) / c;
    assert c * q == q * c && c * (q + 1) == c * q + c;
    MultiplyOrder(c, p, q + 1);
    MultiplyOrder(c, q, p + 1);
  }

  lemma RoundedEnds(n: nat)
    requires n >= 2
    ensures Rounded(n, 1) == 98 && Rounded(n, n) == 0
  {
    assert 2 * (98 * (n - 1)) == 98 * (2 * (n - 1));
    DivideExactly(98, n - 1, 2 * (n - 1));
    DivideExactly(0, n - 1, 2 * (n - 1));
  }

  lemma RoundedMonotone(n: nat, r: nat, s: nat)
    requires 1 <= r <= s <= n && n >= 2
    ensures Rounded(n, s) <= Rounded(n, r)
  {
    DivideMonotone(2 * (98 * (n - s)) + (n - 1), 2 * (98 * (n - r)) + (n - 1), 2 * (n - 1));
  }

  /** For two rows or more the clamp never binds, the top rank rates 99, the bottom
      rank 1, and a worse rank never rates higher. */
  lemma RatingScale(n: nat, r: nat, s: nat)
    requires n >= 2 && 1 <= r <= s <= n
    ensures OverallRating(n, r) == Rounded(n, r) + 1 && 1 <= OverallRating(n, r) <= 99
    ensures OverallRating(n, 1) == 99 && OverallRating(n, n) == 1
    ensures OverallRating(n, s) <= OverallRating(n, r)
    ensures PeriodRating(n, r) == OverallRating(n, r)
  {
    RoundedEnds(n);
    RoundedMonotone(n, 1, r);
    RoundedMonotone(n, r, s);
    RoundedMonotone(n, s, n);
  }

  /** With one row the two scales are apart. */
  lemma LoneRowRatings()
    ensures PeriodRating(1, 1) == 1 && OverallRating(1, 1) == 99
  {
  }

  // ---- against the portable calculator ---------------------------------

  /** `_rating_for_rank`: the same quotient rounded half to even. */
  function ReferenceRounded(n: nat, r: nat): nat
    requires 1 <= r <= n && n >= 2
  {
    var q, rest := 98 * (n - r) / (n - 1), 98 * (n - r) % (n - 1);
    if 2 * rest < n - 1 || (2 * rest == n - 1 && q % 2 == 0) then q else q + 1
  }

  function ReferenceRating(n: nat, r: nat): int
    requires 1 <= r <= n
  {
    if n == 1 then 99 else Clamp(ReferenceRounded(n, r) + 1)
  }

  /** The quotient lies half-way above an even number. */
  predicate EvenHalf(n: nat, r: nat)
    requires 1 <= r <= n && n >= 2
  {
    2 * (98 * (n - r) % (n - 1)) == n - 1 && (98 * (n - r) / (n - 1)) % 2 == 0
  }

  lemma RoundedBySplit(n: nat, r: nat)
    requires 1 <= r <= n && n >= 2
    ensures Rounded(n, r) == 98 * (n - r) / (n - 1) + if 2 * (98 * (n - r) % (n - 1)) >= n - 1 then 1 else 0
  {
    var a, b := 98 * (n - r), n - 1;
    var q, rest := a / b, a % b;
    assert a == b * q + rest;
    assert 2 * a + b == q * (2 * b) + (2 * rest + b);
    if 2 * rest >= b {
      assert 2 * a + b == (q + 1) * (2 * b) + (2 * rest - b);
      DivideExactly(q + 1, 2 * rest - b, 2 * b);
    } else {
      DivideExactly(q, 2 * rest + b, 2 * b);
    }
  }

  /** The statement and the portable calculator rate a rank alike exactly when the
      quotient is not half-way above an even number. */
  lemma RatingsAgreeIff(n: nat, r: nat)
    requires 1 <= r <= n
    ensures OverallRating(n, r) == ReferenceRating(n, r) <==> n == 1 || !EvenHalf(n, r)
  {
    if n >= 2 {
      RoundedBySplit(n, r);
      RatingScale(n, r, r);
      var q := 98 * (n - r) / (n - 1);
      QuotientAtMost(n, r);
    }
  }

  lemma QuotientAtMost(n: nat, r: nat)
    requires 1 <= r <= n && n >= 2
    ensures 0 <= ReferenceRounded(n, r) <= 98
  {
    RoundedBySplit(n, r);
    RatingScale(n, r, r);
  }

  lemma RatingsDisagreeExample()
    ensures OverallRating(197, 196) == 2 && ReferenceRating(197, 196) == 1
  {
  }
}
