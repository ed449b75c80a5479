/** Dated provider codes: the half-open intervals of `add_provider_symbol` and the
    rule that one code means one security on any day. */
module ProviderMappings {
  import opened Common
  import opened Sorting

  datatype Status = Matched | OtherStatus(name: nat)

  datatype Mapping = Mapping(id: nat, instrumentId: nat, provider: nat, symbol: nat, status: Status,
                             validFrom: Option<Date>, validTo: Option<Date>)

  datatype Request = Request(instrumentId: nat, provider: nat, symbol: nat, status: Status,
                             validFrom: Option<Date>, validTo: Option<Date>)

  datatype AddResult = Added(id: nat) | InvalidInterval | Overlaps(instrumentId: nat) | DuplicateVersion

  predicate ValidInterval(from: Option<Date>, to: Option<Date>) {
    !(from.Some? && to.Some? && to.value <= from.value)
  }

  /** `_intervals_overlap`. */
  predicate IntervalsOverlap(leftFrom: Option<Date>, leftTo: Option<Date>, rightFrom: Option<Date>,
                             rightTo: Option<Date>)
  {
    && (leftTo.None? || rightFrom.None? || leftTo.value > rightFrom.value)
    && (rightTo.None? || leftFrom.None? || rightTo.value > leftFrom.value)
  }

  /** Day `d` lies in [from, to). */
  predicate Covers(from: Option<Date>, to: Option<Date>, d: Date) {
    && (from.None? || from.value <= d)
    && (to.None? || d < to.value)
  }

  predicate ShareDay(leftFrom: Option<Date>, leftTo: Option<Date>, rightFrom: Option<Date>, rightTo: Option<Date>,
                     d: Date)
  {
    Covers(leftFrom, leftTo, d) && Covers(rightFrom, rightTo, d)
  }

  /** The overlap test never misses a shared day, valid intervals or not. */
  lemma SharedDayOverlaps(leftFrom: Option<Date>, leftTo: Option<Date>, rightFrom: Option<Date>, rightTo: Option<Date>,
                          d: Date)
    requires ShareDay(leftFrom, leftTo, rightFrom, rightTo, d)
    ensures IntervalsOverlap(leftFrom, leftTo, rightFrom, rightTo)
  {
  }

  /** Two open-started intervals, one of which ends on the first day of the calendar and so
      covers no day at all. */
  predicate NothingCovered(leftFrom: Option<Date>, leftTo: Option<Date>, rightFrom: Option<Date>,
                           rightTo: Option<Date>)
  {
    leftFrom.None? && rightFrom.None? && (leftTo == Some(0) || rightTo == Some(0))
  }

  /** On valid intervals the test is exact but in that one case. */
  lemma OverlapIffSharedDay(leftFrom: Option<Date>, leftTo: Option<Date>, rightFrom: Option<Date>,
                            rightTo: Option<Date>)
    requires ValidInterval(leftFrom, leftTo) && ValidInterval(rightFrom, rightTo)
    ensures (IntervalsOverlap(leftFrom, leftTo, rightFrom, rightTo)
             <==> exists d :: ShareDay(leftFrom, leftTo, rightFrom, rightTo, d))
       <==> !NothingCovered(leftFrom, leftTo, rightFrom, rightTo)
  {
    var left := if leftFrom.Some? then leftFrom.value else 0;
    var right := if rightFrom.Some? then rightFrom.value else 0;
    if IntervalsOverlap(leftFrom, leftTo, rightFrom, rightTo) && !NothingCovered(leftFrom, leftTo, rightFrom, rightTo) {
      assert ShareDay(leftFrom, leftTo, rightFrom, rightTo, if left < right then right else left);
    }
  }

  lemma EmptyIntervalOverlaps()
    ensures ValidInterval(None, Some(0)) && IntervalsOverlap(None, Some(0), None, None)
    ensures !exists d :: ShareDay(None, Some(0), None, None, d)
  {
  }

  // ---- the store -------------------------------------------------------

  /** A stored matched row of another instrument that the request's interval overlaps. */
  predicate Clashes(row: Mapping, r: Request) {
    && row.provider == r.provider && row.symbol == r.symbol && row.status == Matched
         && row.instrumentId != r.instrumentId
    && IntervalsOverlap(r.validFrom, r.validTo, row.validFrom, row.validTo)
  }

  /** The unique key (instrument, provider, symbol, valid_from); NULLs differ. */
  predicate SameVersion(row: Mapping, r: Request) {
    && row.instrumentId == r.instrumentId && row.provider == r.provider && row.symbol == r.symbol
    && row.validFrom.Some? && row.validFrom == r.validFrom
  }

  function ClashingWith(r: Request): Mapping -> bool { (row: Mapping) => Clashes(row, r) }

  function RowOf(r: Request, id: nat): Mapping {
    Mapping(id, r.instrumentId, r.provider, r.symbol, r.status, r.validFrom, r.validTo)
  }

  function Add(rows: seq<Mapping>, r: Request): (seq<Mapping>, AddResult) {
    var clashing := Filter(rows, ClashingWith(r));
    if !ValidInterval(r.validFrom, r.validTo) then (rows, InvalidInterval)
    else if clashing != [] then (rows, Overlaps(clashing[0].instrumentId))
    else if exists row :: row in rows && SameVersion(row, r) then (rows, DuplicateVersion)
    else (rows + [RowOf(r, |rows|)], Added(|rows|))
  }

  function AddAll(rows: seq<Mapping>, requests: seq<Request>): seq<Mapping>
    decreases |requests|
  {
    if requests == [] then rows
    else Add(AddAll(rows, requests[..|requests| - 1]), requests[|requests| - 1]).0
  }

  /** `add_provider_symbol` on the table; a row's id is its position. */
  class InstrumentRepository {
    var mappings: seq<Mapping>

    method AddProviderSymbol(r: Request) returns (result: AddResult)
      modifies this
      ensures (mappings, result) == Add(old(mappings), r)
    {
      if r.validFrom.Some? && r.validTo.Some? && r.validTo.value <= r.validFrom.value {
        return InvalidInterval;
      }
      var i := 0;
      while i < |mappings|
        invariant 0 <= i <= |mappings| && mappings == old(mappings)
        invariant Filter(mappings[..i], ClashingWith(r)) == []
      {
        var row := mappings[i];
        assert mappings[..i + 1] == mappings[..i] + [row];
        assert mappings == mappings[..i + 1] + mappings[i + 1..];
        FilterAppend(mappings[..i], [row], ClashingWith(r));
        FilterAppend(mappings[..i + 1], mappings[i + 1..], ClashingWith(r));
        if row.provider == r.provider && row.symbol == r.symbol && row.status == Matched
            && row.instrumentId != r.instrumentId {
          if IntervalsOverlap(r.validFrom, r.validTo, row.validFrom, row.validTo) {
            return Overlaps(row.instrumentId);
          }
        }
        i := i + 1;
      }
      assert mappings[..i] == mappings;
      if exists row :: row in mappings && SameVersion(row, r) {
        return DuplicateVersion;
      }
      result := Added(|mappings|);
      mappings := mappings + [RowOf(r, |mappings|)];
    }
  }

  // ---- exclusivity -----------------------------------------------------

  predicate Means(row: Mapping, provider: nat, symbol: nat, d: Date) {
    row.status == Matched && row.provider == provider && row.symbol == symbol && Covers(row.validFrom, row.validTo, d)
  }

  /** On no day does a matched code name two instruments. */
  ghost predicate Exclusive(rows: seq<Mapping>) {
    forall a, b, provider, symbol, d ::
      a in rows && b in rows && Means(a, provider, symbol, d) && Means(b, provider, symbol, d) ==>
          a.instrumentId == b.instrumentId
  }

  lemma NewRowIsAlone(rows: seq<Mapping>, r: Request, row: Mapping, provider: nat, symbol: nat, d: Date)
    requires Add(rows, r).1.Added? && row in rows
    requires Means(row, provider, symbol, d) && Means(RowOf(r, |rows|), provider, symbol, d)
    ensures row.instrumentId == r.instrumentId
  {
    SharedDayOverlaps(r.validFrom, r.validTo, row.validFrom, row.validTo, d);
    assert row !in Filter(rows, ClashingWith(r));
  }

  lemma AddKeepsExclusive(rows: seq<Mapping>, r: Request)
    requires Exclusive(rows)
    ensures Exclusive(Add(rows, r).0)
  {
    hide Means;
    if Add(rows, r).1.Added? {
      var new' := RowOf(r, |rows|);
      forall row, provider, symbol, d | row in rows && Means(row, provider, symbol, d)
          && Means(new', provider, symbol, d)
        ensures row.instrumentId == new'.instrumentId
      {
        NewRowIsAlone(rows, r, row, provider, symbol, d);
      }
    }
  }

  /** Whatever sequence of requests is made, no day gives one code two meanings. */
  lemma {:induction false} CodesStayExclusive(requests: seq<Request>)
    ensures Exclusive(AddAll([], requests))
    decreases |requests|
  {
    hide Add;
    if requests != [] {
      CodesStayExclusive(requests[..|requests| - 1]);
      AddKeepsExclusive(AddAll([], requests[..|requests| - 1]), requests[|requests| - 1]);
    }
  }

  /** A stored matched code of another instrument with which no day is shared, but which
      the test takes for an overlap. */
  predicate ClashesOnNoDay(row: Mapping, r: Request) {
    && row.provider == r.provider && row.symbol == r.symbol && row.status == Matched
    && row.instrumentId != r.instrumentId && NothingCovered(r.validFrom, r.validTo, row.validFrom, row.validTo)
  }

  /** A well-formed request is turned away for overlap exactly when on some day a matched
      code of another instrument would collide, or when it clashes on no day. */
  lemma OverlapRejectionIff(rows: seq<Mapping>, r: Request)
    requires ValidInterval(r.validFrom, r.validTo)
    requires forall row :: row in rows ==> ValidInterval(row.validFrom, row.validTo)
    ensures Add(rows, r).1.Overlaps?
       <==> || (exists row, d :: row in rows && row.instrumentId != r.instrumentId
                                 && Means(row, r.provider, r.symbol, d) && Covers(r.validFrom, r.validTo, d))
            || (exists row :: row in rows && ClashesOnNoDay(row, r))
  {
    var clashing := Filter(rows, ClashingWith(r));
    if clashing != [] {
      var row := clashing[0];
      assert row in clashing;
      OverlapIffSharedDay(r.validFrom, r.validTo, row.validFrom, row.validTo);
      if !NothingCovered(r.validFrom, r.validTo, row.validFrom, row.validTo) {
        var d :| ShareDay(r.validFrom, r.validTo, row.validFrom, row.validTo, d);
        assert Means(row, r.provider, r.symbol, d) && Covers(r.validFrom, r.validTo, d);
      } else {
        assert ClashesOnNoDay(row, r);
      }
    }
    if row, d :| row in rows && row.instrumentId != r.instrumentId && Means(row, r.provider, r.symbol, d)
                 && Covers(r.validFrom, r.validTo, d) {
      SharedDayOverlaps(r.validFrom, r.validTo, row.validFrom, row.validTo, d);
      assert row in clashing;
    }
    if row :| row in rows && ClashesOnNoDay(row, r) {
      assert row in clashing;
    }
  }

  ghost predicate WellFormed(rows: seq<Mapping>) {
    && (forall k :: 0 <= k < |rows| ==> rows[k].id == k)
    && (forall k :: 0 <= k < |rows| ==> ValidInterval(rows[k].validFrom, rows[k].validTo))
  }

  lemma {:induction false} StoreIsWellFormed(requests: seq<Request>)
    ensures WellFormed(AddAll([], requests))
    decreases |requests|
  {
    if requests != [] {
      var before, r := AddAll([], requests[..|requests| - 1]), requests[|requests| - 1];
      StoreIsWellFormed(requests[..|requests| - 1]);
      assert AddAll([], requests) == Add(before, r).0;
      if Add(before, r).1.Added? {
        assert Add(before, r).0 == before + [RowOf(r, |before|)];
      }
    }
  }

  // ---- the answer, in plain terms --------------------------------------

  /** An interval is over when the other begins. */
  predicate OverBefore(to: Option<Date>, from: Option<Date>) { to.Some? && from.Some? && to.value <= from.value }

  /** The row maps the same code to another instrument, and neither interval is over when
      the other begins. */
  predicate Contradicts(row: Mapping, r: Request) {
    && row.status == Matched && (row.provider, row.symbol) == (r.provider, r.symbol)
    && row.instrumentId != r.instrumentId
    && !OverBefore(row.validTo, r.validFrom) && !OverBefore(r.validTo, row.validFrom)
  }

  /** The same mapping from the same day on. */
  predicate Repeats(row: Mapping, r: Request) {
    && (row.instrumentId, row.provider, row.symbol) == (r.instrumentId, r.provider, r.symbol)
    && row.validFrom.Some? && r.validFrom.Some? && row.validFrom.value == r.validFrom.value
  }

  lemma {:induction false} FirstFiltered<T(!new)>(xs: seq<T>, p: T -> bool) returns (k: nat)
    requires Filter(xs, p) != []
    ensures k < |xs| && xs[k] == Filter(xs, p)[0] && p(xs[k]) && forall j :: 0 <= j < k ==> !p(xs[j])
  {
    if p(xs[0]) {
      k := 0;
    } else {
      var rest := FirstFiltered(xs[1..], p);
      k := rest + 1;
      forall j | 0 <= j < k ensures !p(xs[j]) {
        if j > 0 {
          assert xs[j] == xs[1..][j - 1];
        }
      }
    }
  }

  /** The checks in their order: an empty interval is refused first, then the first
      contradicting row is named, then a repeated mapping is refused; otherwise the request
      becomes the last row. */
  lemma AddMeans(rows: seq<Mapping>, r: Request)
    ensures var (after, result) := Add(rows, r);
      && (result.InvalidInterval? <==> OverBefore(r.validTo, r.validFrom))
      && (result.Overlaps? ==>
            exists k :: 0 <= k < |rows| && Contradicts(rows[k], r) && rows[k].instrumentId == result.instrumentId
                        && forall j :: 0 <= j < k ==> !Contradicts(rows[j], r))
      && (result.DuplicateVersion? <==>
            && !OverBefore(r.validTo, r.validFrom) && (forall row :: row in rows ==> !Contradicts(row, r))
            && exists row :: row in rows && Repeats(row, r))
      && (result.Added? <==>
            && !OverBefore(r.validTo, r.validFrom)
            && forall row :: row in rows ==> !Contradicts(row, r) && !Repeats(row, r))
      && (if result.Added? then
            && result.id == |rows|
            && after == rows + [Mapping(|rows|, r.instrumentId, r.provider, r.symbol, r.status, r.validFrom, r.validTo)]
          else after == rows)
  {
    var clashing := Filter(rows, ClashingWith(r));
    assert forall row: Mapping :: ClashingWith(r)(row) <==> Contradicts(row, r);
    assert forall row: Mapping :: SameVersion(row, r) <==> Repeats(row, r);
    if clashing != [] {
      var k := FirstFiltered(rows, ClashingWith(r));
      assert rows[k] in rows;
    } else {
      assert forall row :: row in rows ==> row !in clashing;
    }
    hide Filter, Contradicts, Repeats, SameVersion, ClashingWith;
  }
}
