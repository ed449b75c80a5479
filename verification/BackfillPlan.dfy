/** Planning a historical backfill from a universe manifest, and the frozen
    document a run is resumed from. */
module BackfillPlan {
  import opened Common
  import opened Sorting
  import opened Ascent
  import KeyAscent
  import opened Universe

  datatype Target = Target(
    instrumentId: nat, providerCode: Option<nat>, symbolId: Option<nat>, market: nat, expectedDates: seq<Date>)

  datatype Plan = Plan(
    start: Date, end: Date, provider: nat, adjustment: nat, baseDate: nat, requestBudget: nat,
    targets: seq<Target>, dryRun: bool)

  /** The stored manifest: the plan with its targets in instrument order.  Its
      hash is the document itself. */
  datatype Document = Document(
    start: Date, end: Date, provider: nat, adjustment: nat, baseDate: nat, requestBudget: nat,
    dryRun: bool, targets: seq<Target>)

  /** A stored dated mapping of an instrument to a provider code. */
  datatype Mapping = Mapping(
    instrumentId: nat, provider: nat, code: nat, matched: bool, validFrom: Option<Date>, validTo: Option<Date>)

  datatype SymbolRow = SymbolRow(id: nat, instrumentId: Option<nat>)

  // ---- storage round trip ----------------------------------------------

  function TargetKey(t: Target): Key { (t.instrumentId, 0, 0) }

  function Serialized(p: Plan): Document {
    Document(p.start, p.end, p.provider, p.adjustment, p.baseDate, p.requestBudget, p.dryRun,
             SortBy(p.targets, TargetKey))
  }

  function Restored(d: Document): Plan {
    Plan(d.start, d.end, d.provider, d.adjustment, d.baseDate, d.requestBudget, d.targets, d.dryRun)
  }

  /** Restoring a stored plan and storing it again gives the same document. */
  lemma StorageRoundTrip(p: Plan)
    ensures Serialized(Restored(Serialized(p))) == Serialized(p)
    ensures multiset(Restored(Serialized(p)).targets) == multiset(p.targets)
    ensures SortedBy(p.targets, TargetKey) ==> Restored(Serialized(p)) == p
  {
    SortOfSorted(SortBy(p.targets, TargetKey), TargetKey);
    if SortedBy(p.targets, TargetKey) {
      SortOfSorted(p.targets, TargetKey);
    }
  }

  // ---- planning --------------------------------------------------------

  function Covers(m: Mapping, d: Date): bool {
    (m.validFrom.None? || m.validFrom.value <= d) && (m.validTo.None? || d < m.validTo.value)
  }

  predicate Usable(m: Mapping, instrumentId: nat, provider: nat, dates: seq<Date>) {
    m.instrumentId == instrumentId && m.provider == provider && m.matched && forall d :: d in dates ==> Covers(m, d)
  }

  function Codes(mappings: seq<Mapping>): (r: seq<nat>)
    ensures |r| == |mappings| && forall k :: 0 <= k < |r| ==> r[k] == mappings[k].code
  {
    seq(|mappings|, k requires 0 <= k < |mappings| => mappings[k].code)
  }

  /** The provider code covering every date, if there is exactly one. */
  function ResolveCode(mappings: seq<Mapping>, instrumentId: nat, provider: nat, dates: seq<Date>): Option<nat> {
    var codes := SortedDistinct(Codes(Filter(mappings, (m: Mapping) => Usable(m, instrumentId, provider, dates))));
    if |codes| == 1 then Some(codes[0]) else None
  }

  function ResolveSymbol(symbols: seq<SymbolRow>, instrumentId: nat): Option<nat> {
    var owners := Filter(symbols, (s: SymbolRow) => s.instrumentId == Some(instrumentId));
    if |owners| == 1 then Some(owners[0].id) else None
  }

  /** A code is resolved only when it alone covers all dates. */
  lemma ResolvedCodeIsUnique(mappings: seq<Mapping>, instrumentId: nat, provider: nat, dates: seq<Date>, code: nat)
    ensures ResolveCode(mappings, instrumentId, provider, dates) == Some(code) <==>
              && (exists m :: m in mappings && Usable(m, instrumentId, provider, dates) && m.code == code)
              && (forall m :: m in mappings && Usable(m, instrumentId, provider, dates) ==> m.code == code)
  {
    var usable := Filter(mappings, (m: Mapping) => Usable(m, instrumentId, provider, dates));
    assert forall m :: m in usable <==> m in mappings && Usable(m, instrumentId, provider, dates);
    var codes := SortedDistinct(Codes(usable));
    forall c ensures c in codes <==> exists m :: m in usable && m.code == c {
      CodeMembers(usable, c);
    }
    SingletonIff(codes, code);
    assert forall m :: m in usable ==> m.code in codes;
  }

  lemma CodeMembers(usable: seq<Mapping>, c: nat)
    ensures c in Codes(usable) <==> exists m :: m in usable && m.code == c
  {
    if m :| m in usable && m.code == c {
      var k :| 0 <= k < |usable| && usable[k] == m;
      assert Codes(usable)[k] == c;
    }
    if c in Codes(usable) {
      var k :| 0 <= k < |usable| && Codes(usable)[k] == c;
      assert usable[k] in usable;
    }
  }

  lemma SingletonIff(codes: seq<nat>, code: nat)
    requires Ascending(codes)
    ensures (|codes| == 1 && codes[0] == code) <==> code in codes && forall c :: c in codes ==> c == code
  {
    if code in codes && forall c :: c in codes ==> c == code {
      AscendingUnique(codes, [code]);
    }
  }

  function GroupKey(e: Entry): Key { (e.instrumentId, e.market, 0) }

  function ExpectedEntries(entries: seq<Entry>): seq<Entry> { Filter(entries, IsExpected) }

  function EntryDates(entries: seq<Entry>): (r: seq<Date>)
    ensures |r| == |entries| && forall k :: 0 <= k < |r| ==> r[k] == entries[k].tradeDate
  {
    seq(|entries|, k requires 0 <= k < |entries| => entries[k].tradeDate)
  }

  function GroupKeys(entries: seq<Entry>): (r: seq<Key>)
    ensures |r| == |entries| && forall k :: 0 <= k < |r| ==> r[k] == GroupKey(entries[k])
  {
    seq(|entries|, k requires 0 <= k < |entries| => GroupKey(entries[k]))
  }

  /** Dates listed under one (instrument, market), in manifest order. */
  function DatesOf(expected: seq<Entry>, key: Key): seq<Date> {
    EntryDates(Filter(expected, (e: Entry) => GroupKey(e) == key))
  }

  function TargetFor(expected: seq<Entry>, key: Key, mappings: seq<Mapping>, symbols: seq<SymbolRow>,
                     provider: nat): Target
  {
    var dates := DatesOf(expected, key);
    Target(key.0, ResolveCode(mappings, key.0, provider, dates), ResolveSymbol(symbols, key.0), key.1,
           SortedDistinct(dates))
  }

  function TargetsFor(expected: seq<Entry>, keys: seq<Key>, mappings: seq<Mapping>, symbols: seq<SymbolRow>,
                      provider: nat): (r: seq<Target>)
    ensures |r| == |keys|
    ensures forall k :: 0 <= k < |r| ==> r[k] == TargetFor(expected, keys[k], mappings, symbols, provider)
  {
    seq(|keys|, k requires 0 <= k < |keys| => TargetFor(expected, keys[k], mappings, symbols, provider))
  }

  function PlannedTargets(entries: seq<Entry>, mappings: seq<Mapping>, symbols: seq<SymbolRow>,
                          provider: nat): seq<Target>
  {
    var expected := ExpectedEntries(entries);
    TargetsFor(expected, KeyAscent.SortedDistinct(GroupKeys(expected)), mappings, symbols, provider)
  }

  // ---- conservation ----------------------------------------------------

  function Sizes(targets: seq<Target>): (r: seq<nat>)
    ensures |r| == |targets| && forall k :: 0 <= k < |r| ==> r[k] == |targets[k].expectedDates|
  {
    seq(|targets|, k requires 0 <= k < |targets| => |targets[k].expectedDates|)
  }

  function GroupSizes(expected: seq<Entry>, keys: seq<Key>): (r: seq<nat>)
    ensures |r| == |keys| && forall k :: 0 <= k < |r| ==> r[k] == |DatesOf(expected, keys[k])|
  {
    seq(|keys|, k requires 0 <= k < |keys| => |DatesOf(expected, keys[k])|)
  }

  lemma {:induction false} SumPlus(a: seq<nat>, b: seq<nat>, c: seq<nat>)
    requires |a| == |b| == |c| && forall k :: 0 <= k < |a| ==> c[k] == a[k] + b[k]
    ensures Sum(c) == Sum(a) + Sum(b)
  {
    if a != [] {
      SumPlus(a[1..], b[1..], c[1..]);
    }
  }

  /** Over a key list that covers them, the groups hold every entry once. */
  lemma {:induction false} GroupsHoldAll(expected: seq<Entry>, keys: seq<Key>)
    requires KeyAscent.Ascending(keys) && forall e :: e in expected ==> GroupKey(e) in keys
    ensures Sum(GroupSizes(expected, keys)) == |expected|
  {
    if expected == [] {
      AllZero(GroupSizes(expected, keys));
    } else {
      var rest := expected[1..];
      assert expected[0] in expected;
      GroupsHoldAll(rest, keys);
      KeyAscent.IndicatorSum(keys, GroupKey(expected[0]));
      SumPlus(KeyAscent.Indicator(keys, GroupKey(expected[0])), GroupSizes(rest, keys), GroupSizes(expected, keys));
    }
  }

  lemma {:induction false} AllZero(xs: seq<nat>)
    requires forall k :: 0 <= k < |xs| ==> xs[k] == 0
    ensures Sum(xs) == 0
  {
    if xs != [] {
      AllZero(xs[1..]);
    }
  }

  /** Distinct (instrument, market, date) triples. */
  function TripleKey(e: Entry): Key { (e.instrumentId, e.market, e.tradeDate) }

  function DateKeyOf(e: Entry): Key { (e.tradeDate, 0, 0) }

  lemma {:induction false} GroupDatesDistinct(expected: seq<Entry>, key: Key)
    requires DistinctKeys(expected, TripleKey)
    ensures DistinctKeys(Filter(expected, (e: Entry) => GroupKey(e) == key), DateKeyOf)
  {
    if expected != [] {
      var p := (e: Entry) => GroupKey(e) == key;
      var rest := Filter(expected[1..], p);
      GroupDatesDistinct(expected[1..], key);
      if p(expected[0]) {
        forall y | y in rest ensures DateKeyOf(y) != DateKeyOf(expected[0]) {
          assert TripleKey(y) != TripleKey(expected[0]);
        }
        assert ([expected[0]] + rest)[1..] == rest;
      } else {
        assert [] + rest == rest;
      }
    }
  }

  /** Distinct dates survive `sorted(set(...))` in number. */
  lemma {:induction false} DistinctDatesKeepNumber(group: seq<Entry>)
    requires DistinctKeys(group, DateKeyOf)
    ensures |SortedDistinct(EntryDates(group))| == |group|
  {
    if group != [] {
      DistinctDatesKeepNumber(group[1..]);
      assert EntryDates(group)[1..] == EntryDates(group[1..]);
      var rest := SortedDistinct(EntryDates(group[1..]));
      forall y | y in rest ensures y != group[0].tradeDate {
        var k :| 0 <= k < |group[1..]| && EntryDates(group[1..])[k] == y;
        assert group[1..][k] in group[1..];
        assert DateKeyOf(group[1..][k]) != DateKeyOf(group[0]);
      }
      InsertNew(group[0].tradeDate, rest);
    }
  }

  lemma {:induction false} InsertNew(x: nat, xs: seq<nat>)
    requires x !in xs
    ensures |Ascent.InsertDistinct(x, xs)| == |xs| + 1
  {
    if xs != [] && x > xs[0] {
      InsertNew(x, xs[1..]);
    }
  }

  lemma KeysCovered(expected: seq<Entry>)
    ensures forall k ::
              k in KeyAscent.SortedDistinct(GroupKeys(expected)) <==> exists e :: e in expected && GroupKey(e) == k
  {
    forall k ensures k in GroupKeys(expected) <==> exists e :: e in expected && GroupKey(e) == k {
      if e :| e in expected && GroupKey(e) == k {
        var i :| 0 <= i < |expected| && expected[i] == e;
        assert GroupKeys(expected)[i] == k;
      }
    }
  }

  /** The expected dates over all targets number the manifest's expected prices. */
  lemma PlanConserves(entries: seq<Entry>, mappings: seq<Mapping>, symbols: seq<SymbolRow>, provider: nat)
    requires DistinctKeys(entries, DayKey)
    ensures Sum(Sizes(PlannedTargets(entries, mappings, symbols, provider))) == |Filter(entries, IsExpected)|
  {
    var expected := ExpectedEntries(entries);
    var keys := KeyAscent.SortedDistinct(GroupKeys(expected));
    FilterDistinct(entries, DayKey, IsExpected);
    DayKeyIsFiner(expected);
    KeysCovered(expected);
    GroupsHoldAll(expected, keys);
    var targets := PlannedTargets(entries, mappings, symbols, provider);
    forall k | 0 <= k < |keys| ensures Sizes(targets)[k] == GroupSizes(expected, keys)[k] {
      GroupDatesDistinct(expected, keys[k]);
      DistinctDatesKeepNumber(Filter(expected, (e: Entry) => GroupKey(e) == keys[k]));
    }
    assert Sizes(targets) == GroupSizes(expected, keys);
  }

  lemma {:induction false} DayKeyIsFiner(entries: seq<Entry>)
    requires DistinctKeys(entries, DayKey)
    ensures DistinctKeys(entries, TripleKey)
  {
    if entries != [] {
      DayKeyIsFiner(entries[1..]);
      forall y | y in entries[1..] ensures TripleKey(y) != TripleKey(entries[0]) {
        assert DayKey(y) != DayKey(entries[0]);
      }
    }
  }

  lemma DatesOfMembers(expected: seq<Entry>, key: Key, d: Date)
    ensures d in DatesOf(expected, key) <==> exists e :: e in expected && GroupKey(e) == key && e.tradeDate == d
  {
    var group := Filter(expected, (e: Entry) => GroupKey(e) == key);
    if e :| e in expected && GroupKey(e) == key && e.tradeDate == d {
      var k :| 0 <= k < |group| && group[k] == e;
      assert EntryDates(group)[k] == d;
    }
    if d in EntryDates(group) {
      var k :| 0 <= k < |group| && EntryDates(group)[k] == d;
      assert group[k] in group;
    }
  }

  /** Targets are one per (instrument, market), in that order, each with its
      dates ascending; an expected (instrument, market, date) is in the one
      target of its pair, and targets hold nothing else. */
  lemma PlanPartitions(entries: seq<Entry>, mappings: seq<Mapping>, symbols: seq<SymbolRow>, provider: nat)
    ensures var targets := PlannedTargets(entries, mappings, symbols, provider);
      && (forall j, k :: 0 <= j < k < |targets| ==>
            KeyAscent.Lt((targets[j].instrumentId, targets[j].market, 0),
                         (targets[k].instrumentId, targets[k].market, 0)))
      && (forall k :: 0 <= k < |targets| ==> Ascending(targets[k].expectedDates))
      && (forall e :: e in entries && IsExpected(e) ==> HeldByOne(targets, e))
      && (forall k, d :: 0 <= k < |targets| && d in targets[k].expectedDates ==>
            exists e :: e in entries && IsExpected(e) && e.instrumentId == targets[k].instrumentId
                        && e.market == targets[k].market && e.tradeDate == d)
  {
    var expected := ExpectedEntries(entries);
    var keys := KeyAscent.SortedDistinct(GroupKeys(expected));
    var targets := PlannedTargets(entries, mappings, symbols, provider);
    TargetsOfKeys(expected, keys, mappings, symbols, provider);
    hide TargetFor, PlannedTargets, HeldByOne, Holds, DatesOf, KeyAscent.Ascending, KeyAscent.Lt, Ascending;
    assert targets == TargetsFor(expected, keys, mappings, symbols, provider)
           by { PlannedIs(entries, mappings, symbols, provider); }
    KeysCovered(expected);
    forall j, k | 0 <= j < k < |targets|
      ensures KeyAscent.Lt((targets[j].instrumentId, targets[j].market, 0),
                           (targets[k].instrumentId, targets[k].market, 0))
    {
      KeyAscent.AscendingAt(keys, j, k);
    }
    forall e | e in entries && IsExpected(e) ensures HeldByOne(targets, e) {
      HeldSomewhere(expected, keys, targets, e);
    }
    forall k, d | 0 <= k < |targets| && d in targets[k].expectedDates
      ensures exists e :: e in entries && IsExpected(e) && e.instrumentId == targets[k].instrumentId
                          && e.market == targets[k].market && e.tradeDate == d
    {
      DatesOfMembers(expected, keys[k], d);
    }
  }

  lemma PlannedIs(entries: seq<Entry>, mappings: seq<Mapping>, symbols: seq<SymbolRow>, provider: nat)
    ensures PlannedTargets(entries, mappings, symbols, provider)
         == TargetsFor(ExpectedEntries(entries), KeyAscent.SortedDistinct(GroupKeys(ExpectedEntries(entries))),
                       mappings, symbols, provider)
  {
  }

  /** Each target is named by its key and lists its key's dates in order. */
  ghost predicate Keyed(expected: seq<Entry>, keys: seq<Key>, targets: seq<Target>) {
    && |keys| == |targets|
    && forall k :: 0 <= k < |keys| ==>
         && keys[k] == (targets[k].instrumentId, targets[k].market, 0)
         && Ascending(targets[k].expectedDates)
         && forall d :: d in targets[k].expectedDates <==> d in DatesOf(expected, keys[k])
  }

  lemma TargetsOfKeys(expected: seq<Entry>, keys: seq<Key>, mappings: seq<Mapping>, symbols: seq<SymbolRow>,
                      provider: nat)
    requires keys == KeyAscent.SortedDistinct(GroupKeys(expected))
    ensures Keyed(expected, keys, TargetsFor(expected, keys, mappings, symbols, provider))
  {
    KeysCovered(expected);
    forall k | 0 <= k < |keys| ensures keys[k].2 == 0 {
      assert keys[k] in keys;
      var e :| e in expected && GroupKey(e) == keys[k];
    }
    hide DatesOf, ResolveCode, ResolveSymbol, KeyAscent.Ascending, Ascending;
  }

  lemma HeldSomewhere(expected: seq<Entry>, keys: seq<Key>, targets: seq<Target>, e: Entry)
    requires KeyAscent.Ascending(keys) && Keyed(expected, keys, targets) && e in expected && GroupKey(e) in keys
    ensures HeldByOne(targets, e)
  {
    hide KeyAscent.Ascending, Ascending;
    var k :| 0 <= k < |keys| && keys[k] == GroupKey(e);
    DatesOfMembers(expected, keys[k], e.tradeDate);
    assert Holds(targets[k], e);
    OthersDiffer(targets, keys, k, e);
  }

  ghost predicate Holds(t: Target, e: Entry) {
    t.instrumentId == e.instrumentId && t.market == e.market && e.tradeDate in t.expectedDates
  }

  ghost predicate HeldByOne(targets: seq<Target>, e: Entry) {
    exists k :: 0 <= k < |targets| && Holds(targets[k], e)
                && forall j :: 0 <= j < |targets| && j != k ==> !Holds(targets[j], e)
  }

  lemma KeysDiffer(keys: seq<Key>, j: nat, k: nat)
    requires KeyAscent.Ascending(keys) && j < |keys| && k < |keys| && j != k
    ensures keys[j] != keys[k]
  {
    if j < k {
      KeyAscent.AscendingAt(keys, j, k);
    } else {
      KeyAscent.AscendingAt(keys, k, j);
    }
  }

  lemma OthersDiffer(targets: seq<Target>, keys: seq<Key>, k: nat, e: Entry)
    requires KeyAscent.Ascending(keys) && |keys| == |targets| && k < |keys| && keys[k] == GroupKey(e)
    requires forall i :: 0 <= i < |keys| ==> keys[i] == (targets[i].instrumentId, targets[i].market, 0)
    requires Holds(targets[k], e)
    ensures HeldByOne(targets, e)
  {
    hide KeyAscent.Ascending;
    forall j | 0 <= j < |targets| && j != k ensures !Holds(targets[j], e) {
      KeysDiffer(keys, j, k);
      assert keys[j] != GroupKey(e);
    }
  }

  // ---- the planner -----------------------------------------------------

  /** The mapping names the instrument at the provider on all the days. */
  predicate NamesThroughout(m: Mapping, instrumentId: nat, provider: nat, dates: seq<Date>) {
    && m.matched && (m.instrumentId, m.provider) == (instrumentId, provider)
    && forall d :: d in dates ==> !(m.validFrom.Some? && d < m.validFrom.value)
                                  && !(m.validTo.Some? && m.validTo.value <= d)
  }

  /** A planned target carries a provider code exactly when that code alone covers all
      its expected dates, and a symbol exactly when one symbol row, at one place, belongs
      to its instrument. */
  lemma PlannedIdentity(entries: seq<Entry>, mappings: seq<Mapping>, symbols: seq<SymbolRow>, provider: nat, k: nat,
                        code: nat, symbol: nat)
    requires k < |PlannedTargets(entries, mappings, symbols, provider)|
    ensures var t := PlannedTargets(entries, mappings, symbols, provider)[k];
      && (t.providerCode == Some(code) <==>
            && (exists m :: m in mappings && NamesThroughout(m, t.instrumentId, provider, t.expectedDates)
                            && m.code == code)
            && (forall m :: m in mappings && NamesThroughout(m, t.instrumentId, provider, t.expectedDates) ==>
                  m.code == code))
      && (t.symbolId == Some(symbol) <==>
            exists j :: 0 <= j < |symbols| && symbols[j] == SymbolRow(symbol, Some(t.instrumentId))
                        && forall i :: 0 <= i < |symbols| && i != j ==> symbols[i].instrumentId != Some(t.instrumentId))
  {
    var t := PlannedTargets(entries, mappings, symbols, provider)[k];
    var expected := ExpectedEntries(entries);
    var key := KeyAscent.SortedDistinct(GroupKeys(expected))[k];
    var dates := DatesOf(expected, key);
    assert t == TargetFor(expected, key, mappings, symbols, provider);
    hide PlannedTargets, DatesOf, ResolveCode, Usable, NamesThroughout;
    ResolvedCodeIsUnique(mappings, key.0, provider, dates, code);
    forall m ensures Usable(m, key.0, provider, dates) <==> NamesThroughout(m, key.0, provider, t.expectedDates) {
      UsableNames(m, key.0, provider, dates, t.expectedDates);
    }
    OneOwner(symbols, key.0, symbol);
    hide ResolveSymbol;
  }

  lemma UsableNames(m: Mapping, instrumentId: nat, provider: nat, a: seq<Date>, b: seq<Date>)
    requires forall d :: d in a <==> d in b
    ensures Usable(m, instrumentId, provider, a) <==> NamesThroughout(m, instrumentId, provider, b)
  {
  }

  lemma OneOwner(symbols: seq<SymbolRow>, instrumentId: nat, symbol: nat)
    ensures ResolveSymbol(symbols, instrumentId) == Some(symbol) <==>
        exists j :: 0 <= j < |symbols| && symbols[j] == SymbolRow(symbol, Some(instrumentId))
                    && forall i :: 0 <= i < |symbols| && i != j ==> symbols[i].instrumentId != Some(instrumentId)
  {
    var owns := (s: SymbolRow) => s.instrumentId == Some(instrumentId);
    OneFilteredAt(symbols, owns, SymbolRow(symbol, Some(instrumentId)));
    var owners := Filter(symbols, owns);
    if |owners| == 1 {
      assert owners[0] in owners && owners == [owners[0]];
    }
    hide Filter;
  }

  /** `plan_from_manifest`. */
  method PlanFromManifest(manifest: Manifest, mappings: seq<Mapping>, symbols: seq<SymbolRow>, provider: nat,
                          adjustment: nat, baseDate: nat, requestBudget: nat, dryRun: bool) returns (plan: Plan)
    ensures plan == Plan(manifest.request.start, manifest.request.end, provider, adjustment, baseDate, requestBudget,
                         PlannedTargets(manifest.entries, mappings, symbols, provider), dryRun)
  {
    var targets := BuildTargets(manifest.entries, mappings, symbols, provider);
    plan := Plan(manifest.request.start, manifest.request.end, provider, adjustment, baseDate, requestBudget, targets,
                 dryRun);
  }

  method BuildTargets(entries: seq<Entry>, mappings: seq<Mapping>, symbols: seq<SymbolRow>, provider: nat)
    returns (targets: seq<Target>)
    ensures targets == PlannedTargets(entries, mappings, symbols, provider)
  {
    hide ResolveCode, ResolveSymbol, DatesOf, ExpectedEntries, KeyAscent.Ascending;
    var dates, keys := GroupDates(entries);
    var sorted := KeyAscent.SortedDistinct(keys);
    ghost var expected := ExpectedEntries(entries);
    KeyAscent.AscendingUnique(sorted, KeyAscent.SortedDistinct(GroupKeys(expected)));
    targets := [];
    var k := 0;
    while k < |sorted|
      invariant 0 <= k <= |sorted|
      invariant targets == TargetsFor(expected, sorted[..k], mappings, symbols, provider)
    {
      var key := sorted[k];
      assert key in sorted;
      var own := dates[key];
      var target := Target(key.0, ResolveCode(mappings, key.0, provider, own), ResolveSymbol(symbols, key.0), key.1,
                           SortedDistinct(own));
      TargetsSnoc(expected, sorted, k, mappings, symbols, provider);
      targets := targets + [target];
      k := k + 1;
    }
    assert sorted[..k] == sorted;
  }

  lemma TargetsSnoc(expected: seq<Entry>, keys: seq<Key>, k: nat, mappings: seq<Mapping>, symbols: seq<SymbolRow>,
                    provider: nat)
    requires k < |keys|
    ensures TargetsFor(expected, keys[..k + 1], mappings, symbols, provider)
         == TargetsFor(expected, keys[..k], mappings, symbols, provider)
             + [TargetFor(expected, keys[k], mappings, symbols, provider)]
  {
  }

  ghost predicate Grouped(expected: seq<Entry>, dates: map<Key, seq<Date>>, keys: seq<Key>) {
    && (forall k :: k in dates ==> dates[k] == DatesOf(expected, k))
    && (forall k :: k in keys <==> k in dates)
    && (forall k :: k in dates <==> k in GroupKeys(expected))
  }

  lemma GroupedSnoc(expected: seq<Entry>, e: Entry, dates: map<Key, seq<Date>>, keys: seq<Key>)
    requires Grouped(expected, dates, keys)
    ensures var k := GroupKey(e);
      Grouped(expected + [e], dates[k := (if k in dates then dates[k] else []) + [e.tradeDate]], keys + [k])
  {
    hide DatesOf;
    var key := GroupKey(e);
    if key !in dates {
      NoDates(expected, key);
    }
    forall k ensures DatesOf(expected + [e], k) == DatesOf(expected, k) + if k == key then [e.tradeDate] else [] {
      DatesSnoc(expected, e, k);
    }
    assert GroupKeys(expected + [e]) == GroupKeys(expected) + [key];
  }

  /** The dictionary of expected dates per (instrument, market). */
  method GroupDates(entries: seq<Entry>) returns (dates: map<Key, seq<Date>>, keys: seq<Key>)
    ensures Grouped(ExpectedEntries(entries), dates, keys)
  {
    dates, keys := map[], [];
    ghost var expected := [];
    var i := 0;
    hide ExpectedEntries, DatesOf;
    assert ExpectedEntries(entries[..0]) == [] by { NothingExpected(); }
    assert Grouped([], dates, keys);
    hide Grouped;
    while i < |entries|
      invariant 0 <= i <= |entries|
      invariant expected == ExpectedEntries(entries[..i])
      invariant Grouped(expected, dates, keys)
    {
      var e := entries[i];
      assert entries[..i + 1] == entries[..i] + [e];
      ExpectedSnoc(entries[..i], e);
      if IsExpected(e) {
        var key := GroupKey(e);
        GroupedSnoc(expected, e, dates, keys);
        expected := expected + [e];
        dates := dates[key := (if key in dates then dates[key] else []) + [e.tradeDate]];
        keys := keys + [key];
      }
      i := i + 1;
    }
    assert entries[..i] == entries;
  }

  lemma NothingExpected()
    ensures ExpectedEntries([]) == []
  {
  }

  lemma ExpectedSnoc(entries: seq<Entry>, e: Entry)
    ensures ExpectedEntries(entries + [e]) == ExpectedEntries(entries) + if IsExpected(e) then [e] else []
  {
    FilterAppend(entries, [e], IsExpected);
  }

  lemma DatesSnoc(expected: seq<Entry>, e: Entry, key: Key)
    ensures DatesOf(expected + [e], key) == DatesOf(expected, key) + if GroupKey(e) == key then [e.tradeDate] else []
  {
    FilterAppend(expected, [e], (x: Entry) => GroupKey(x) == key);
  }

  lemma NoDates(expected: seq<Entry>, key: Key)
    requires key !in GroupKeys(expected)
    ensures DatesOf(expected, key) == []
  {
    forall e | e in expected ensures GroupKey(e) != key {
      var k :| 0 <= k < |expected| && expected[k] == e;
      assert GroupKeys(expected)[k] == GroupKey(e);
    }
    FilterNone(expected, (e: Entry) => GroupKey(e) == key);
  }
}
