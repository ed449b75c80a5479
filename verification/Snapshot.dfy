/** Price rows of a frozen dataset as known at a moment, and their batched copy. */
module Snapshot {
  import opened Common
  import opened Sorting
  import opened PriceTable

  /** An observation with its row id. */
  datatype Numbered = Numbered(id: nat, o: Observation)

  datatype Window = Window(instruments: set<nat>, start: Date, end: Date, asOf: Instant)

  function NumberAll(observations: seq<Observation>): (r: seq<Numbered>)
    ensures |r| == |observations| && forall k :: 0 <= k < |r| ==> r[k] == Numbered(k, observations[k])
  {
    seq(|observations|, k requires 0 <= k < |observations| => Numbered(k, observations[k]))
  }

  function ObservedKey(n: Numbered): Key { (n.o.observedAt, n.id, 0) }

  /** The slot a row competes for. */
  function Slot(n: Numbered): PriceKey { (n.o.symbolId, n.o.tradeDate) }

  /** `owner` maps symbol ids to their instruments. */
  predicate Relevant(n: Numbered, owner: map<nat, nat>, w: Window) {
    && n.o.symbolId in owner && owner[n.o.symbolId] in w.instruments
    && w.start <= n.o.tradeDate <= w.end && n.o.observedAt <= w.asOf
  }

  function Candidates(observations: seq<Observation>, owner: map<nat, nat>, w: Window): seq<Numbered> {
    Filter(NumberAll(observations), (n: Numbered) => Relevant(n, owner, w))
  }

  /** An insertion-ordered dictionary: a known slot keeps its place. */
  function Put(dict: seq<Numbered>, n: Numbered): seq<Numbered> {
    if dict == [] then [n]
    else if Slot(dict[0]) == Slot(n) then [n] + dict[1..]
    else [dict[0]] + Put(dict[1..], n)
  }

  function PutAll(rows: seq<Numbered>): seq<Numbered>
    decreases |rows|
  {
    if rows == [] then [] else Put(PutAll(rows[..|rows| - 1]), rows[|rows| - 1])
  }

  /** `_price_rows` in as-known-at mode. */
  function PriceRows(observations: seq<Observation>, owner: map<nat, nat>, w: Window): seq<Numbered> {
    PutAll(SortBy(Candidates(observations, owner, w), ObservedKey))
  }

  // ---- the latest observation wins -------------------------------------

  ghost predicate DistinctSlots(dict: seq<Numbered>) {
    dict == [] || ((forall o :: o in dict[1..] ==> Slot(o) != Slot(dict[0])) && DistinctSlots(dict[1..]))
  }

  lemma {:induction false} PutMembers(dict: seq<Numbered>, n: Numbered)
    requires DistinctSlots(dict)
    ensures DistinctSlots(Put(dict, n))
    ensures forall o :: o in Put(dict, n) <==> o == n || (o in dict && Slot(o) != Slot(n))
  {
    if dict != [] {
      assert dict == [dict[0]] + dict[1..];
      if Slot(dict[0]) == Slot(n) {
        assert ([n] + dict[1..])[1..] == dict[1..];
      } else {
        PutMembers(dict[1..], n);
        assert ([dict[0]] + Put(dict[1..], n))[1..] == Put(dict[1..], n);
      }
    }
  }

  /** Nothing in `rows` for the same slot was observed later. */
  ghost predicate Newest(rows: seq<Numbered>, n: Numbered) {
    n in rows && forall o :: o in rows && Slot(o) == Slot(n) ==> Le(ObservedKey(o), ObservedKey(n))
  }

  lemma SortedLast(rows: seq<Numbered>, o: Numbered)
    requires rows != [] && SortedBy(rows, ObservedKey) && o in rows
    ensures Le(ObservedKey(o), ObservedKey(rows[|rows| - 1]))
  {
    var j :| 0 <= j < |rows| && rows[j] == o;
    if j < |rows| - 1 {
      SortedAt(rows, ObservedKey, j, |rows| - 1);
    }
  }

  lemma {:induction false} SortedFront<T(!new)>(rows: seq<T>, key: T -> Key, n: nat)
    requires SortedBy(rows, key) && n <= |rows|
    ensures SortedBy(rows[..n], key)
  {
    if n > 0 {
      SortedFront(rows[1..], key, n - 1);
      assert rows[..n][1..] == rows[1..][..n - 1];
      assert rows[..n][0] == rows[0];
    }
  }

  lemma {:induction false} PutAllKeepsNewest(rows: seq<Numbered>)
    requires SortedBy(rows, ObservedKey) && KeyIdentifies(rows, ObservedKey)
    ensures DistinctSlots(PutAll(rows))
    ensures forall n :: n in PutAll(rows) <==> Newest(rows, n)
    decreases |rows|
  {
    if rows != [] {
      var front, last := rows[..|rows| - 1], rows[|rows| - 1];
      assert rows == front + [last];
      SortedFront(rows, ObservedKey, |rows| - 1);
      PutAllKeepsNewest(front);
      PutMembers(PutAll(front), last);
      forall n ensures n in PutAll(rows) <==> Newest(rows, n) {
        NewestNext(front, last, n);
      }
    }
  }

  lemma NewestNext(front: seq<Numbered>, last: Numbered, n: Numbered)
    requires SortedBy(front + [last], ObservedKey) && KeyIdentifies(front + [last], ObservedKey)
    ensures Newest(front + [last], n) <==> n == last || (Newest(front, n) && Slot(n) != Slot(last))
  {
    var rows := front + [last];
    assert last in rows && rows[|rows| - 1] == last;
    forall o | o in rows ensures Le(ObservedKey(o), ObservedKey(last)) {
      SortedLast(rows, o);
    }
    hide SortedBy;
  }

  /** As known at a moment, each (symbol, day) with a relevant observation has
      exactly one row, the one with the greatest (observed_at, id). */
  lemma LatestObservationWins(observations: seq<Observation>, owner: map<nat, nat>, w: Window, n: Numbered)
    ensures n in PriceRows(observations, owner, w) <==> Newest(Candidates(observations, owner, w), n)
    ensures DistinctSlots(PriceRows(observations, owner, w))
  {
    var rows := Candidates(observations, owner, w);
    SortMembers(rows, ObservedKey);
    forall a, b | a in rows && b in rows && ObservedKey(a) == ObservedKey(b) ensures a == b {
    }
    PutAllKeepsNewest(SortBy(rows, ObservedKey));
    hide Candidates, PutAll;
  }

  /** The k-th observation is of a symbol whose instrument is asked for, on a day of the
      window, and was made by the moment. */
  predicate Known(observations: seq<Observation>, owner: map<nat, nat>, w: Window, k: nat) {
    && k < |observations| && observations[k].symbolId in owner && owner[observations[k].symbolId] in w.instruments
    && w.start <= observations[k].tradeDate <= w.end && observations[k].observedAt <= w.asOf
  }

  /** In terms of the observations alone: a row is a known observation such that no other of
      the same symbol and day known by the moment was made later, nor at once with a later id. */
  lemma RowMeans(observations: seq<Observation>, owner: map<nat, nat>, w: Window, n: Numbered)
    ensures n in PriceRows(observations, owner, w) <==>
        && Known(observations, owner, w, n.id) && n.o == observations[n.id]
        && forall k :: 0 <= k < |observations| && observations[k].symbolId == n.o.symbolId
                       && observations[k].tradeDate == n.o.tradeDate && observations[k].observedAt <= w.asOf ==>
             observations[k].observedAt < n.o.observedAt
             || (observations[k].observedAt == n.o.observedAt && k <= n.id)
  {
    hide Candidates, PriceRows;
    LatestObservationWins(observations, owner, w, n);
    forall m ensures m in Candidates(observations, owner, w) <==>
        Known(observations, owner, w, m.id) && m.o == observations[m.id]
    {
      CandidateIff(observations, owner, w, m);
    }
    NewestMeans(observations, owner, w, n);
  }

  lemma CandidateIff(observations: seq<Observation>, owner: map<nat, nat>, w: Window, m: Numbered)
    ensures m in Candidates(observations, owner, w) <==>
        Known(observations, owner, w, m.id) && m.o == observations[m.id]
  {
    if m.id < |observations| && m.o == observations[m.id] {
      assert NumberAll(observations)[m.id] == m;
    }
  }

  lemma NewestMeans(observations: seq<Observation>, owner: map<nat, nat>, w: Window, n: Numbered)
    requires forall m :: m in Candidates(observations, owner, w) <==>
               Known(observations, owner, w, m.id) && m.o == observations[m.id]
    ensures Newest(Candidates(observations, owner, w), n) <==>
        && Known(observations, owner, w, n.id) && n.o == observations[n.id]
        && forall k :: 0 <= k < |observations| && observations[k].symbolId == n.o.symbolId
                       && observations[k].tradeDate == n.o.tradeDate && observations[k].observedAt <= w.asOf ==>
             observations[k].observedAt < n.o.observedAt
             || (observations[k].observedAt == n.o.observedAt && k <= n.id)
  {
    hide Candidates;
    if Newest(Candidates(observations, owner, w), n) {
      forall k | 0 <= k < |observations| && observations[k].symbolId == n.o.symbolId
                 && observations[k].tradeDate == n.o.tradeDate && observations[k].observedAt <= w.asOf
        ensures Le(ObservedKey(Numbered(k, observations[k])), ObservedKey(n))
      {
        assert Numbered(k, observations[k]) in Candidates(observations, owner, w);
      }
    }
  }

  lemma LaterObservationsIrrelevant(observations: seq<Observation>, more: seq<Observation>, owner: map<nat, nat>,
                                    w: Window)
    requires forall o :: o in more ==> o.observedAt > w.asOf
    ensures Candidates(observations + more, owner, w) == Candidates(observations, owner, w)
  {
    hide Filter;
    var all, late := NumberAll(observations + more), NumberAll(observations + more)[|observations|..];
    var relevant := (n: Numbered) => Relevant(n, owner, w);
    assert all == NumberAll(observations) + late;
    FilterAppend(NumberAll(observations), late, relevant);
    forall n | n in late ensures !relevant(n) {
      var k :| 0 <= k < |late| && late[k] == n;
      assert all[|observations| + k] == n && (observations + more)[|observations| + k] == more[k];
    }
    FilterNone(late, relevant);
  }

  /** Time travel: observations made after the moment change no row. */
  lemma LaterObservationsIgnored(observations: seq<Observation>, more: seq<Observation>, owner: map<nat, nat>,
                                 w: Window)
    requires forall o :: o in more ==> o.observedAt > w.asOf
    ensures PriceRows(observations + more, owner, w) == PriceRows(observations, owner, w)
  {
    hide Candidates;
    LaterObservationsIrrelevant(observations, more, owner, w);
  }

  /** The dictionary loop of `_price_rows`. */
  method CollectPriceRows(observations: seq<Observation>, owner: map<nat, nat>, w: Window) returns (rows: seq<Numbered>)
    ensures rows == PriceRows(observations, owner, w)
    ensures forall n :: n in rows <==> Newest(Candidates(observations, owner, w), n)
  {
    var ordered := SortBy(Candidates(observations, owner, w), ObservedKey);
    rows := [];
    var k := 0;
    while k < |ordered|
      invariant 0 <= k <= |ordered|
      invariant rows == PutAll(ordered[..k])
    {
      assert ordered[..k + 1][..k] == ordered[..k];
      rows := Put(rows, ordered[k]);
      k := k + 1;
    }
    assert ordered[..k] == ordered;
    forall n ensures n in rows <==> Newest(Candidates(observations, owner, w), n) {
      LatestObservationWins(observations, owner, w, n);
    }
  }

  // ---- batched copy ----------------------------------------------------

  const BATCH: nat := 10_000

  function Flatten<T>(batches: seq<seq<T>>): seq<T>
    decreases |batches|
  {
    if batches == [] then [] else Flatten(batches[..|batches| - 1]) + batches[|batches| - 1]
  }

  /** A table filled by bulk inserts; `inserts` logs them. */
  class DatasetTable<T> {
    var rows: seq<T>
    ghost var inserts: seq<seq<T>>

    constructor ()
      ensures rows == [] && inserts == []
    {
      rows, inserts := [], [];
    }

    method Execute(batch: seq<T>)
      modifies this
      ensures rows == old(rows) + batch && inserts == old(inserts) + [batch]
    {
      rows, inserts := rows + batch, inserts + [batch];
    }

    /** `_insert_dataset_prices` / `_insert_dataset_memberships`: the rows are
        copied in order, none lost or repeated, in full batches but for the last. */
    method InsertAll(source: seq<T>)
      modifies this
      ensures rows == old(rows) + source
      ensures old(inserts) <= inserts && Flatten(inserts[|old(inserts)|..]) == source
      ensures forall k :: |old(inserts)| <= k < |inserts| ==>
                1 <= |inserts[k]| <= BATCH && (k < |inserts| - 1 ==> |inserts[k]| == BATCH)
    {
      var batch: seq<T> := [];
      ghost var done: seq<seq<T>> := [];
      var i := 0;
      while i < |source|
        invariant 0 <= i <= |source|
        invariant |batch| < BATCH
        invariant inserts == old(inserts) + done && rows + batch == old(rows) + source[..i]
        invariant Flatten(done) + batch == source[..i]
        invariant forall k :: 0 <= k < |done| ==> |done[k]| == BATCH
      {
        assert rows + (batch + [source[i]]) == (rows + batch) + [source[i]];
        batch := batch + [source[i]];
        assert source[..i + 1] == source[..i] + [source[i]];
        if |batch| == BATCH {
          Execute(batch);
          assert (done + [batch])[..|done|] == done;
          done := done + [batch];
          batch := [];
          assert rows + batch == rows;
        }
        i := i + 1;
      }
      assert source[..i] == source;
      if batch != [] {
        Execute(batch);
        assert (done + [batch])[..|done|] == done;
        done := done + [batch];
      }
      assert inserts[|old(inserts)|..] == done;
    }
  }
}
