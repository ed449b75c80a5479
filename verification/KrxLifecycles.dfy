/** Grouping KRX listing rows into lifecycles: one per (code, market, listing
    date), whatever order files and rows are read in. */
module KrxLifecycles {
  import opened Common
  import opened Sorting
  import opened Ascent
  import KeyAscent

  /** One decoded row.  `common` says it is an ordinary share; blank cells are
      None; the file kind has already picked the column of `delistedAt`. */
  datatype CsvRow = CsvRow(common: bool, code: Option<nat>, market: Option<nat>, listedAt: Option<Date>,
                           delistedAt: Option<Date>, name: Option<nat>)

  datatype CsvFile = CsvFile(path: nat, hash: nat, rows: seq<CsvRow>)

  /** A row that can be attributed to a lifecycle, with its file. */
  datatype Sighting = Sighting(code: nat, market: nat, listedAt: Date, delistedAt: Option<Date>, name: Option<nat>,
                               path: nat, hash: nat)

  datatype Lifecycle = Lifecycle(code: nat, market: nat, listedAt: Date, delistedAt: Option<Date>, name: nat,
                                 delistedDates: seq<Date>, sources: seq<Source>)

  datatype Source = Source(path: nat, hash: nat)

  function SightingOf(f: CsvFile, r: CsvRow): seq<Sighting> {
    if r.common && r.code.Some? && r.market.Some? && r.listedAt.Some?
    then [Sighting(r.code.value, r.market.value, r.listedAt.value, r.delistedAt, r.name, f.path, f.hash)]
    else []
  }

  function SightingsIn(f: CsvFile, rows: seq<CsvRow>): seq<Sighting>
    decreases |rows|
  {
    if rows == [] then [] else SightingsIn(f, rows[..|rows| - 1]) + SightingOf(f, rows[|rows| - 1])
  }

  function Sightings(files: seq<CsvFile>): seq<Sighting>
    decreases |files|
  {
    if files == [] then []
    else Sightings(files[..|files| - 1]) + SightingsIn(files[|files| - 1], files[|files| - 1].rows)
  }

  function GroupKey(s: Sighting): Key { (s.code, s.market, s.listedAt) }

  function LifeKey(l: Lifecycle): Key { (l.code, l.market, l.listedAt) }

  function Group(sightings: seq<Sighting>, key: Key): seq<Sighting> {
    Filter(sightings, (s: Sighting) => GroupKey(s) == key)
  }

  function Values(os: seq<Option<nat>>): (r: seq<nat>)
    ensures forall v :: v in r <==> Some(v) in os
  {
    if os == [] then []
    else
      assert os == [os[0]] + os[1..];
      (if os[0].Some? then [os[0].value] else []) + Values(os[1..])
  }

  function DelistedCells(group: seq<Sighting>): (r: seq<Option<Date>>)
    ensures |r| == |group| && forall k :: 0 <= k < |r| ==> r[k] == group[k].delistedAt
  {
    seq(|group|, k requires 0 <= k < |group| => group[k].delistedAt)
  }

  function NameCells(group: seq<Sighting>): (r: seq<Option<nat>>)
    ensures |r| == |group| && forall k :: 0 <= k < |r| ==> r[k] == group[k].name
  {
    seq(|group|, k requires 0 <= k < |group| => group[k].name)
  }

  function SourceCells(group: seq<Sighting>): (r: seq<Source>)
    ensures |r| == |group| && forall k :: 0 <= k < |r| ==> r[k] == Source(group[k].path, group[k].hash)
  {
    seq(|group|, k requires 0 <= k < |group| => Source(group[k].path, group[k].hash))
  }

  function SourceKey(s: Source): Key { (s.path, s.hash, 0) }

  /** The lifecycle a group of sightings describes.  Contradicting delisting
      dates are all kept and none is chosen. */
  function LifecycleOf(key: Key, group: seq<Sighting>): Lifecycle {
    var dates := SortedDistinct(Values(DelistedCells(group)));
    var names := SortedDistinct(Values(NameCells(group)));
    Lifecycle(key.0, key.1, key.2, if |dates| == 1 then Some(dates[0]) else None,
              if names != [] then names[0] else key.0, dates, SortBy(SourceCells(group), SourceKey))
  }

  function GroupKeys(sightings: seq<Sighting>): (r: seq<Key>)
    ensures |r| == |sightings| && forall k :: 0 <= k < |r| ==> r[k] == GroupKey(sightings[k])
  {
    seq(|sightings|, k requires 0 <= k < |sightings| => GroupKey(sightings[k]))
  }

  function LifecyclesFor(sightings: seq<Sighting>, keys: seq<Key>): (r: seq<Lifecycle>)
    ensures |r| == |keys|
    ensures forall k :: 0 <= k < |r| ==> r[k] == LifecycleOf(keys[k], Group(sightings, keys[k]))
  {
    seq(|keys|, k requires 0 <= k < |keys| => LifecycleOf(keys[k], Group(sightings, keys[k])))
  }

  /** `build_krx_lifecycles`. */
  function Lifecycles(files: seq<CsvFile>): seq<Lifecycle> {
    LifecyclesFor(Sightings(files), KeyAscent.SortedDistinct(GroupKeys(Sightings(files))))
  }

  // ---- reading order ---------------------------------------------------

  lemma KeyMembers(sightings: seq<Sighting>, k: Key)
    ensures k in GroupKeys(sightings) <==> exists s :: s in sightings && GroupKey(s) == k
  {
    if s :| s in sightings && GroupKey(s) == k {
      var i :| 0 <= i < |sightings| && sightings[i] == s;
      assert GroupKeys(sightings)[i] == k;
    }
    if k in GroupKeys(sightings) {
      var i :| 0 <= i < |sightings| && GroupKeys(sightings)[i] == k;
      assert sightings[i] in sightings;
    }
  }

  lemma DelistedMembers(group: seq<Sighting>, o: Option<Date>)
    ensures o in DelistedCells(group) <==> exists s :: s in group && s.delistedAt == o
  {
    if s :| s in group && s.delistedAt == o {
      var i :| 0 <= i < |group| && group[i] == s;
      assert DelistedCells(group)[i] == o;
    }
    if o in DelistedCells(group) {
      var i :| 0 <= i < |group| && DelistedCells(group)[i] == o;
      assert group[i] in group;
    }
  }

  lemma NameMembers(group: seq<Sighting>, o: Option<nat>)
    ensures o in NameCells(group) <==> exists s :: s in group && s.name == o
  {
    if s :| s in group && s.name == o {
      var i :| 0 <= i < |group| && group[i] == s;
      assert NameCells(group)[i] == o;
    }
    if o in NameCells(group) {
      var i :| 0 <= i < |group| && NameCells(group)[i] == o;
      assert group[i] in group;
    }
  }

  /** Taking one element out of a reordered list leaves a reordering. */
  lemma TakeOut<T(!new)>(xs: seq<T>, k: nat)
    requires k < |xs|
    ensures multiset(xs[..k] + xs[k + 1..]) == multiset(xs) - multiset{xs[k]}
  {
    assert xs == xs[..k] + ([xs[k]] + xs[k + 1..]);
    assert multiset(xs) == multiset(xs[..k]) + multiset{xs[k]} + multiset(xs[k + 1..]);
  }

  lemma {:induction false} SourcesSplit(a: seq<Sighting>, s: Sighting, b: seq<Sighting>)
    ensures multiset(SourceCells(a + [s] + b)) == multiset(SourceCells(a + b)) + multiset{Source(s.path, s.hash)}
  {
    assert SourceCells(a + [s] + b) == SourceCells(a) + [Source(s.path, s.hash)] + SourceCells(b);
    assert SourceCells(a + b) == SourceCells(a) + SourceCells(b);
  }

  lemma SourcesWithout(xs: seq<Sighting>, k: nat)
    requires k < |xs|
    ensures multiset(SourceCells(xs))
         == multiset(SourceCells(xs[..k] + xs[k + 1..])) + multiset{Source(xs[k].path, xs[k].hash)}
  {
    assert xs == xs[..k] + [xs[k]] + xs[k + 1..];
    SourcesSplit(xs[..k], xs[k], xs[k + 1..]);
  }

  /** Equal multisets: the head of one occurs in the other, and the rests agree. */
  lemma MatchHead<T(!new)>(a: seq<T>, b: seq<T>) returns (k: nat)
    requires multiset(a) == multiset(b) && a != []
    ensures k < |b| && b[k] == a[0]
    ensures multiset(a[..0] + a[1..]) == multiset(b[..k] + b[k + 1..])
    ensures |a| == |b|
  {
    assert a[0] in multiset(b);
    k :| 0 <= k < |b| && b[k] == a[0];
    TakeOut(b, k);
    TakeOut(a, 0);
    assert |multiset(a)| == |a| && |multiset(b)| == |b|;
  }

  lemma SameSize<T>(a: seq<T>, b: seq<T>)
    requires multiset(a) == multiset(b)
    ensures |a| == |b|
  {
    assert |multiset(a)| == |a| && |multiset(b)| == |b|;
  }

  lemma {:induction false} SourcesPermute(a: seq<Sighting>, b: seq<Sighting>)
    requires multiset(a) == multiset(b)
    ensures multiset(SourceCells(a)) == multiset(SourceCells(b))
    decreases |a|
  {
    hide SourceCells;
    if a == [] {
      SameSize(a, b);
      assert b == [];
    } else {
      var k := MatchHead(a, b);
      SourcesPermute(a[..0] + a[1..], b[..k] + b[k + 1..]);
      SourcesWithout(b, k);
      SourcesWithout(a, 0);
    }
  }

  lemma LifecycleOrderFree(key: Key, a: seq<Sighting>, b: seq<Sighting>)
    requires multiset(a) == multiset(b)
    ensures LifecycleOf(key, a) == LifecycleOf(key, b)
  {
    MultisetMembers(a, b);
    forall o ensures o in DelistedCells(a) <==> o in DelistedCells(b) {
      DelistedMembers(a, o);
      DelistedMembers(b, o);
    }
    forall o ensures o in NameCells(a) <==> o in NameCells(b) {
      NameMembers(a, o);
      NameMembers(b, o);
    }
    AscendingUnique(SortedDistinct(Values(DelistedCells(a))), SortedDistinct(Values(DelistedCells(b))));
    AscendingUnique(SortedDistinct(Values(NameCells(a))), SortedDistinct(Values(NameCells(b))));
    SourcesPermute(a, b);
    SortPermutation(SourceCells(a), SourceCells(b), SourceKey);
    hide DelistedCells, NameCells, SourceCells, Ascending;
  }

  /** The same sightings in any order give the same lifecycles. */
  lemma SightingsOrderFree(a: seq<Sighting>, b: seq<Sighting>)
    requires multiset(a) == multiset(b)
    ensures LifecyclesFor(a, KeyAscent.SortedDistinct(GroupKeys(a)))
            == LifecyclesFor(b, KeyAscent.SortedDistinct(GroupKeys(b)))
  {
    MultisetMembers(a, b);
    var keys := KeyAscent.SortedDistinct(GroupKeys(a));
    forall k ensures k in GroupKeys(a) <==> k in GroupKeys(b) {
      KeyMembers(a, k);
      KeyMembers(b, k);
    }
    KeyAscent.AscendingUnique(keys, KeyAscent.SortedDistinct(GroupKeys(b)));
    forall k | 0 <= k < |keys|
      ensures LifecycleOf(keys[k], Group(a, keys[k])) == LifecycleOf(keys[k], Group(b, keys[k]))
    {
      FilterPermutation(a, b, (s: Sighting) => GroupKey(s) == keys[k]);
      LifecycleOrderFree(keys[k], Group(a, keys[k]), Group(b, keys[k]));
    }
    hide LifecycleOf, Group;
  }

  lemma {:induction false} SightingsInAppend(f: CsvFile, a: seq<CsvRow>, b: seq<CsvRow>)
    ensures SightingsIn(f, a + b) == SightingsIn(f, a) + SightingsIn(f, b)
    decreases |b|
  {
    if b == [] {
      assert a + b == a;
    } else {
      hide SightingOf;
      var front, last := b[..|b| - 1], SightingOf(f, b[|b| - 1]);
      assert (a + b)[..|a + b| - 1] == a + front;
      SightingsInAppend(f, a, front);
      assert SightingsIn(f, a + b) == (SightingsIn(f, a) + SightingsIn(f, front)) + last;
    }
  }

  lemma {:induction false} RowsPermute(f: CsvFile, a: seq<CsvRow>, b: seq<CsvRow>)
    requires multiset(a) == multiset(b)
    ensures multiset(SightingsIn(f, a)) == multiset(SightingsIn(f, b))
    decreases |a|
  {
    if a == [] {
      SameSize(a, b);
    } else {
      var k := MatchHead(a, b);
      RowsPermute(f, a[..0] + a[1..], b[..k] + b[k + 1..]);
      SightingsInSplit(f, b, k);
      SightingsInSplit(f, a, 0);
    }
  }

  lemma SightingsInSplit(f: CsvFile, rows: seq<CsvRow>, k: nat)
    requires k < |rows|
    ensures multiset(SightingsIn(f, rows))
         == multiset(SightingsIn(f, rows[..k] + rows[k + 1..])) + multiset(SightingsIn(f, [rows[k]]))
  {
    hide SightingsIn;
    SightingsInAppend(f, rows[..k], rows[k + 1..]);
    SightingsInAppend(f, rows[..k], [rows[k]] + rows[k + 1..]);
    SightingsInAppend(f, [rows[k]], rows[k + 1..]);
    assert rows == rows[..k] + ([rows[k]] + rows[k + 1..]);
  }

  lemma {:induction false} SightingsAppend(a: seq<CsvFile>, b: seq<CsvFile>)
    ensures Sightings(a + b) == Sightings(a) + Sightings(b)
    decreases |b|
  {
    hide SightingsIn;
    if b == [] {
      assert a + b == a;
    } else {
      var front, last := b[..|b| - 1], SightingsIn(b[|b| - 1], b[|b| - 1].rows);
      assert (a + b)[..|a + b| - 1] == a + front && (a + b)[|a + b| - 1] == b[|b| - 1];
      SightingsAppend(a, front);
      assert Sightings(a + b) == (Sightings(a) + Sightings(front)) + last;
    }
  }

  lemma SightingsSplit(files: seq<CsvFile>, k: nat)
    requires k < |files|
    ensures multiset(Sightings(files))
         == multiset(Sightings(files[..k] + files[k + 1..])) + multiset(SightingsIn(files[k], files[k].rows))
  {
    hide Sightings, SightingsIn;
    SightingsAppend(files[..k], files[k + 1..]);
    SightingsAppend(files[..k], [files[k]] + files[k + 1..]);
    SightingsAppend([files[k]], files[k + 1..]);
    assert files == files[..k] + ([files[k]] + files[k + 1..]);
    OneFile(files[k]);
  }

  lemma OneFile(f: CsvFile)
    ensures Sightings([f]) == SightingsIn(f, f.rows)
  {
    assert [f][..0] == [];
  }

  /** `b` has the same files as `a`, possibly in another order, each with the same
      rows, possibly in another order. */
  ghost predicate Reordered(a: seq<CsvFile>, b: seq<CsvFile>)
    decreases |a|
  {
    if a == [] then b == []
    else exists k :: 0 <= k < |b| && b[k].path == a[0].path && b[k].hash == a[0].hash
                     && multiset(b[k].rows) == multiset(a[0].rows)
                     && Reordered(a[1..], b[..k] + b[k + 1..])
  }

  lemma {:induction false} ReorderedSightings(a: seq<CsvFile>, b: seq<CsvFile>)
    requires Reordered(a, b)
    ensures multiset(Sightings(a)) == multiset(Sightings(b))
    decreases |a|
  {
    if a != [] {
      hide Sightings, SightingsIn;
      var k :| 0 <= k < |b| && b[k].path == a[0].path && b[k].hash == a[0].hash
               && multiset(b[k].rows) == multiset(a[0].rows) && Reordered(a[1..], b[..k] + b[k + 1..]);
      ReorderedSightings(a[1..], b[..k] + b[k + 1..]);
      ReorderedStep(a, b, k);
    }
  }

  lemma ReorderedStep(a: seq<CsvFile>, b: seq<CsvFile>, k: nat)
    requires a != [] && k < |b| && b[k].path == a[0].path && b[k].hash == a[0].hash
    requires multiset(b[k].rows) == multiset(a[0].rows)
    requires multiset(Sightings(a[1..])) == multiset(Sightings(b[..k] + b[k + 1..]))
    ensures multiset(Sightings(a)) == multiset(Sightings(b))
  {
    hide Sightings, SightingsIn;
    SightingsSplit(b, k);
    SightingsSplit(a, 0);
    assert a[..0] + a[1..] == a[1..];
    RowsPermute(b[k], b[k].rows, a[0].rows);
    SameFileSameSightings(a[0], b[k], a[0].rows);
  }

  lemma {:induction false} SameFileSameSightings(f: CsvFile, g: CsvFile, rows: seq<CsvRow>)
    requires f.path == g.path && f.hash == g.hash
    ensures SightingsIn(f, rows) == SightingsIn(g, rows)
    decreases |rows|
  {
    if rows != [] {
      SameFileSameSightings(f, g, rows[..|rows| - 1]);
    }
  }

  /** Lifecycles do not depend on the order of files or of rows within files. */
  lemma ReadingOrderFree(a: seq<CsvFile>, b: seq<CsvFile>)
    requires Reordered(a, b)
    ensures Lifecycles(a) == Lifecycles(b)
  {
    ReorderedSightings(a, b);
    SightingsOrderFree(Sightings(a), Sightings(b));
  }

  /** One lifecycle per (code, market, listing date), in that order, and one for
      every date a usable row names. */
  lemma LifecyclesDistinct(files: seq<CsvFile>)
    ensures DistinctKeys(Lifecycles(files), LifeKey)
    ensures forall s :: s in Sightings(files) ==> exists l :: l in Lifecycles(files) && LifeKey(l) == GroupKey(s)
  {
    var sightings := Sightings(files);
    var keys := KeyAscent.SortedDistinct(GroupKeys(sightings));
    DistinctFor(sightings, keys);
    forall s | s in sightings ensures exists l :: l in Lifecycles(files) && LifeKey(l) == GroupKey(s) {
      KeyMembers(sightings, GroupKey(s));
      var k :| 0 <= k < |keys| && keys[k] == GroupKey(s);
      assert Lifecycles(files)[k] in Lifecycles(files);
    }
    hide LifecycleOf;
  }

  lemma {:induction false} DistinctFor(sightings: seq<Sighting>, keys: seq<Key>)
    requires KeyAscent.Ascending(keys)
    ensures DistinctKeys(LifecyclesFor(sightings, keys), LifeKey)
  {
    if keys != [] {
      var rest := LifecyclesFor(sightings, keys[1..]);
      assert LifecyclesFor(sightings, keys)[1..] == rest;
      DistinctFor(sightings, keys[1..]);
      forall l | l in rest ensures LifeKey(l) != keys[0] {
        var k :| 0 <= k < |rest| && rest[k] == l;
        assert keys[1..][k] in keys[1..];
      }
    }
  }

  /** Day `d` is given as delisting date by some sighting of the group. */
  ghost predicate DelistingSeen(group: seq<Sighting>, d: Date) {
    exists s :: s in group && s.delistedAt == Some(d)
  }

  ghost predicate NameSeen(group: seq<Sighting>, name: nat) {
    exists s :: s in group && s.name == Some(name)
  }

  /** A lifecycle is delisted on a day exactly when that day alone is given; all days
      given are kept, in order; the name is the least one given, or else the code; and
      every sighting leaves its source. */
  lemma LifecycleMeaning(key: Key, group: seq<Sighting>, d: Date)
    ensures var l := LifecycleOf(key, group);
      && (l.delistedAt == Some(d) <==> DelistingSeen(group, d) && forall e :: DelistingSeen(group, e) ==> e == d)
      && (d in l.delistedDates <==> DelistingSeen(group, d)) && Ascending(l.delistedDates)
      && (NameSeen(group, l.name) || l.name == l.code == key.0)
      && (forall n :: NameSeen(group, n) ==> l.name <= n)
      && |l.sources| == |group|
  {
    forall e ensures e in SortedDistinct(Values(DelistedCells(group))) <==> DelistingSeen(group, e) {
      DelistedMembers(group, Some(e));
    }
    forall n ensures n in SortedDistinct(Values(NameCells(group))) <==> NameSeen(group, n) {
      NameMembers(group, Some(n));
    }
    SortMembers(SourceCells(group), SourceKey);
    hide DelistedCells, NameCells, SourceCells, Values, SortBy, DelistingSeen, NameSeen;
    SoleMember(SortedDistinct(Values(DelistedCells(group))), d);
    LeastFirst(SortedDistinct(Values(NameCells(group))));
  }

  lemma SoleMember(dates: seq<Date>, d: Date)
    requires Ascending(dates)
    ensures (|dates| == 1 && dates[0] == d) <==> d in dates && forall e :: e in dates ==> e == d
  {
    if d in dates && forall e :: e in dates ==> e == d {
      AscendingUnique(dates, [d]);
    }
  }

  lemma LeastFirst(names: seq<nat>)
    requires Ascending(names)
    ensures names != [] ==> names[0] in names && forall n :: n in names ==> names[0] <= n
  {
    if names != [] {
      assert names == [names[0]] + names[1..];
    }
  }

  // ---- lifecycles and the rows of the files ----------------------------

  /** The row is an ordinary share's, with this code, market and listing day. */
  predicate Lists(r: CsvRow, code: nat, market: nat, listedAt: Date) {
    r.common && (r.code, r.market, r.listedAt) == (Some(code), Some(market), Some(listedAt))
  }

  /** A row of the file shows the sighting. */
  predicate Shows(f: CsvFile, r: CsvRow, s: Sighting) {
    && Lists(r, s.code, s.market, s.listedAt) && s.delistedAt == r.delistedAt && s.name == r.name
    && s.path == f.path && s.hash == f.hash
  }

  lemma {:induction false} SightingsInFile(f: CsvFile, rows: seq<CsvRow>, s: Sighting)
    ensures s in SightingsIn(f, rows) <==> exists r :: r in rows && Shows(f, r, s)
    decreases |rows|
  {
    if rows != [] {
      var front, last := rows[..|rows| - 1], rows[|rows| - 1];
      assert rows == front + [last];
      SightingsInFile(f, front, s);
      assert s in SightingOf(f, last) <==> Shows(f, last, s);
      hide SightingOf, Shows;
    }
  }

  lemma {:induction false} SightingsInFiles(files: seq<CsvFile>, s: Sighting)
    ensures s in Sightings(files) <==> exists f, r :: f in files && r in f.rows && Shows(f, r, s)
    decreases |files|
  {
    if files != [] {
      var front, last := files[..|files| - 1], files[|files| - 1];
      assert files == front + [last];
      SightingsInFiles(front, s);
      SightingsInFile(last, last.rows, s);
      hide SightingsIn, Shows;
    }
  }

  /** A row of the files belongs to the lifecycle. */
  ghost predicate Backs(files: seq<CsvFile>, f: CsvFile, r: CsvRow, l: Lifecycle) {
    f in files && r in f.rows && Lists(r, l.code, l.market, l.listedAt)
  }

  /** The lifecycle of the listing a sighting names. */
  lemma LifecycleAt(files: seq<CsvFile>, l: Lifecycle)
    requires l in Lifecycles(files)
    ensures l == LifecycleOf(LifeKey(l), Group(Sightings(files), LifeKey(l)))
    ensures exists s :: s in Group(Sightings(files), LifeKey(l))
  {
    var sightings := Sightings(files);
    var keys := KeyAscent.SortedDistinct(GroupKeys(sightings));
    var k :| 0 <= k < |keys| && Lifecycles(files)[k] == l;
    assert keys[k] in keys;
    KeyMembers(sightings, keys[k]);
    var s :| s in sightings && GroupKey(s) == keys[k];
    assert s in Group(sightings, keys[k]);
    hide Sightings, Group;
  }

  lemma GroupRows(files: seq<CsvFile>, l: Lifecycle, s: Sighting)
    ensures s in Group(Sightings(files), LifeKey(l))
       <==> GroupKey(s) == LifeKey(l) && exists f, r :: Backs(files, f, r, l) && Shows(f, r, s)
  {
    SightingsInFiles(files, s);
    hide Sightings;
  }

  /** A lifecycle in terms of the rows that belong to it: the delisting days are those the
      rows give, and it has one exactly if they give one; the name is the least they give,
      or the code; the sources are the files that hold such a row. */
  lemma LifecycleReads(files: seq<CsvFile>, l: Lifecycle)
    requires l in Lifecycles(files)
    ensures (exists f, r :: Backs(files, f, r, l)) && Ascending(l.delistedDates)
    ensures forall d :: d in l.delistedDates <==> exists f, r :: Backs(files, f, r, l) && r.delistedAt == Some(d)
    ensures forall d :: l.delistedAt == Some(d) <==> l.delistedDates == [d]
    ensures forall f, r :: Backs(files, f, r, l) && r.name.Some? ==> l.name <= r.name.value
    ensures l.name == l.code || exists f, r :: Backs(files, f, r, l) && r.name == Some(l.name)
    ensures (forall f, r :: Backs(files, f, r, l) ==> r.name.None?) ==> l.name == l.code
    ensures forall c :: c in l.sources <==> exists f, r :: Backs(files, f, r, l) && c == Source(f.path, f.hash)
  {
    hide Lifecycles, LifecycleOf, Group, Sightings, DelistingSeen, NameSeen, Backs;
    var group := Group(Sightings(files), LifeKey(l));
    LifecycleAt(files, l);
    var some :| some in group;
    GroupRows(files, l, some);
    forall d: Date
      ensures DelistingSeen(group, d) <==> exists f, r :: Backs(files, f, r, l) && r.delistedAt == Some(d)
    {
      DelistingRows(files, l, d);
    }
    forall n: nat ensures NameSeen(group, n) <==> exists f, r :: Backs(files, f, r, l) && r.name == Some(n) {
      NameRows(files, l, n);
    }
    forall d: Date ensures d in l.delistedDates <==> DelistingSeen(group, d)
      ensures l.delistedAt == Some(d) <==> l.delistedDates == [d]
    {
      LifecycleMeaning(LifeKey(l), group, d);
      OneDay(LifeKey(l), group, d);
    }
    LifecycleMeaning(LifeKey(l), group, 0);
    forall f, r | Backs(files, f, r, l) && r.name.Some? ensures l.name <= r.name.value {
      assert NameSeen(group, r.name.value);
    }
    forall c ensures c in l.sources <==> exists f, r :: Backs(files, f, r, l) && c == Source(f.path, f.hash) {
      SourceRows(files, l, c);
    }
  }

  lemma OneDay(key: Key, group: seq<Sighting>, d: Date)
    ensures LifecycleOf(key, group).delistedAt == Some(d) <==> LifecycleOf(key, group).delistedDates == [d]
  {
    hide DelistedCells, NameCells, SourceCells, Values, SortBy;
  }

  lemma DelistingRows(files: seq<CsvFile>, l: Lifecycle, d: Date)
    ensures DelistingSeen(Group(Sightings(files), LifeKey(l)), d)
       <==> exists f, r :: Backs(files, f, r, l) && r.delistedAt == Some(d)
  {
    var group := Group(Sightings(files), LifeKey(l));
    if f, r :| Backs(files, f, r, l) && r.delistedAt == Some(d) {
      var s := Sighting(l.code, l.market, l.listedAt, r.delistedAt, r.name, f.path, f.hash);
      assert Shows(f, r, s);
      GroupRows(files, l, s);
    }
    if s :| s in group && s.delistedAt == Some(d) {
      GroupRows(files, l, s);
    }
    hide Sightings, Group;
  }

  lemma NameRows(files: seq<CsvFile>, l: Lifecycle, n: nat)
    ensures NameSeen(Group(Sightings(files), LifeKey(l)), n)
       <==> exists f, r :: Backs(files, f, r, l) && r.name == Some(n)
  {
    var group := Group(Sightings(files), LifeKey(l));
    if f, r :| Backs(files, f, r, l) && r.name == Some(n) {
      var s := Sighting(l.code, l.market, l.listedAt, r.delistedAt, r.name, f.path, f.hash);
      assert Shows(f, r, s);
      GroupRows(files, l, s);
    }
    if s :| s in group && s.name == Some(n) {
      GroupRows(files, l, s);
    }
    hide Sightings, Group;
  }

  lemma SourceRows(files: seq<CsvFile>, l: Lifecycle, c: Source)
    requires l == LifecycleOf(LifeKey(l), Group(Sightings(files), LifeKey(l)))
    ensures c in l.sources <==> exists f, r :: Backs(files, f, r, l) && c == Source(f.path, f.hash)
  {
    var group := Group(Sightings(files), LifeKey(l));
    hide Sightings, Group;
    SortMembers(SourceCells(group), SourceKey);
    if f, r :| Backs(files, f, r, l) && c == Source(f.path, f.hash) {
      var s := Sighting(l.code, l.market, l.listedAt, r.delistedAt, r.name, f.path, f.hash);
      assert Shows(f, r, s);
      GroupRows(files, l, s);
      var k :| 0 <= k < |group| && group[k] == s;
      assert SourceCells(group)[k] == c;
    }
    if c in SourceCells(group) {
      var k :| 0 <= k < |group| && SourceCells(group)[k] == c;
      GroupRows(files, l, group[k]);
    }
    hide DelistedCells, NameCells, Values, SortBy;
  }

  /** Every row of an ordinary share that names its code, market and listing day has its
      lifecycle. */
  lemma EveryRowHasLifecycle(files: seq<CsvFile>, f: CsvFile, r: CsvRow, code: nat, market: nat, listedAt: Date)
    requires f in files && r in f.rows && Lists(r, code, market, listedAt)
    ensures exists l :: l in Lifecycles(files) && l.code == code && l.market == market && l.listedAt == listedAt
  {
    var s := Sighting(code, market, listedAt, r.delistedAt, r.name, f.path, f.hash);
    assert Shows(f, r, s);
    SightingsInFiles(files, s);
    LifecyclesDistinct(files);
    hide Lifecycles, Sightings;
  }

  // ---- the builder -----------------------------------------------------

  lemma GroupSnoc(sightings: seq<Sighting>, s: Sighting, key: Key)
    ensures Group(sightings + [s], key) == Group(sightings, key) + if GroupKey(s) == key then [s] else []
  {
    FilterAppend(sightings, [s], (x: Sighting) => GroupKey(x) == key);
  }

  lemma NoGroup(sightings: seq<Sighting>, key: Key)
    requires key !in GroupKeys(sightings)
    ensures Group(sightings, key) == []
  {
    forall s | s in sightings ensures GroupKey(s) != key {
      KeyMembers(sightings, key);
    }
    FilterNone(sightings, (s: Sighting) => GroupKey(s) == key);
  }

  /** The observation dictionary after reading `sightings`. */
  ghost predicate Holds(sightings: seq<Sighting>, observations: map<Key, seq<Sighting>>, keys: seq<Key>) {
    && (forall k :: k in observations ==> observations[k] == Group(sightings, k))
    && (forall k :: k in keys <==> k in observations)
    && (forall k :: k in observations <==> k in GroupKeys(sightings))
  }

  lemma HoldsNext(sightings: seq<Sighting>, s: Sighting, observations: map<Key, seq<Sighting>>, keys: seq<Key>)
    requires Holds(sightings, observations, keys)
    ensures var k := GroupKey(s);
      Holds(sightings + [s], observations[k := (if k in observations then observations[k] else []) + [s]], keys + [k])
  {
    hide Group;
    var key := GroupKey(s);
    if key !in observations {
      NoGroup(sightings, key);
    }
    forall k ensures Group(sightings + [s], k) == Group(sightings, k) + if k == key then [s] else [] {
      GroupSnoc(sightings, s, k);
    }
    assert GroupKeys(sightings + [s]) == GroupKeys(sightings) + [key];
  }

  /** The reading loop over the rows of one file. */
  method ReadFile(f: CsvFile, ghost before: seq<Sighting>, old': map<Key, seq<Sighting>>, oldKeys: seq<Key>)
    returns (observations: map<Key, seq<Sighting>>, keys: seq<Key>)
    requires Holds(before, old', oldKeys)
    ensures Holds(before + SightingsIn(f, f.rows), observations, keys)
  {
    hide Holds;
    observations, keys := old', oldKeys;
    ghost var sightings := before;
    var i := 0;
    while i < |f.rows|
      invariant 0 <= i <= |f.rows|
      invariant sightings == before + SightingsIn(f, f.rows[..i])
      invariant Holds(sightings, observations, keys)
    {
      var r := f.rows[i];
      assert f.rows[..i + 1][..i] == f.rows[..i];
      if r.common && r.code.Some? && r.market.Some? && r.listedAt.Some? {
        var s := Sighting(r.code.value, r.market.value, r.listedAt.value, r.delistedAt, r.name, f.path, f.hash);
        HoldsNext(sightings, s, observations, keys);
        var key := GroupKey(s);
        observations := observations[key := (if key in observations then observations[key] else []) + [s]];
        keys := keys + [key];
        sightings := sightings + [s];
      }
      i := i + 1;
    }
    assert f.rows[..i] == f.rows;
  }

  method BuildLifecycles(files: seq<CsvFile>) returns (lifecycles: seq<Lifecycle>)
    ensures lifecycles == Lifecycles(files)
  {
    var observations: map<Key, seq<Sighting>>, keys: seq<Key> := map[], [];
    var i := 0;
    assert Holds(Sightings(files[..0]), observations, keys);
    hide Holds;
    while i < |files|
      invariant 0 <= i <= |files|
      invariant Holds(Sightings(files[..i]), observations, keys)
    {
      assert files[..i + 1][..i] == files[..i];
      observations, keys := ReadFile(files[i], Sightings(files[..i]), observations, keys);
      i := i + 1;
    }
    assert files[..i] == files;
    lifecycles := DescribeGroups(Sightings(files), observations, keys);
  }

  /** The second loop: one lifecycle per dictionary item, in key order. */
  method DescribeGroups(ghost sightings: seq<Sighting>, observations: map<Key, seq<Sighting>>, keys: seq<Key>)
    returns (lifecycles: seq<Lifecycle>)
    requires Holds(sightings, observations, keys)
    ensures lifecycles == LifecyclesFor(sightings, KeyAscent.SortedDistinct(GroupKeys(sightings)))
  {
    hide LifecycleOf, Group, KeyAscent.Ascending;
    var sorted := KeyAscent.SortedDistinct(keys);
    KeyAscent.AscendingUnique(sorted, KeyAscent.SortedDistinct(GroupKeys(sightings)));
    lifecycles := [];
    var k := 0;
    while k < |sorted|
      invariant 0 <= k <= |sorted|
      invariant lifecycles == LifecyclesFor(sightings, sorted[..k])
    {
      assert sorted[k] in sorted;
      lifecycles := lifecycles + [LifecycleOf(sorted[k], observations[sorted[k]])];
      k := k + 1;
    }
    assert sorted[..k] == sorted;
  }
}
