/** Dated price targets: one resolved instrument, mapping and exclusion per member
    of a completed listing snapshot. */
module PriceTargets {
  import opened Common
  import opened Sorting
  import opened Gathering
  import opened KrxPlanner
  import opened KrxReconciliation
  import Providers = ProviderMappings

  datatype Member = Member(code: nat, market: nat, securityType: nat, halted: bool)

  datatype Exclusion = Exclusion(id: nat, instrumentId: nat, priceScope: bool, reason: nat, validFrom: Option<Date>,
                                 validTo: Option<Date>)

  datatype Eligibility = Eligible | ExpectedNoTrade | Excluded(reason: nat) | ExcludedByStatus(status: ListingStatus)
                       | InstrumentUnresolved | ProviderSymbolUnavailable

  datatype Target = Target(instrumentId: Option<nat>, code: nat, symbol: Option<nat>, market: nat, securityType: nat,
                           eligibility: Eligibility)

  /** The tables one build reads. */
  datatype Tables = Tables(instruments: seq<Instrument>, mappings: seq<Providers.Mapping>, exclusions: seq<Exclusion>,
                           provider: nat, day: Date)

  // ---- newest applicable row per instrument ----------------------------

  /** The element of the largest key, if any. */
  function Newest<T(!new)>(rows: seq<T>, key: T -> Key): (r: Option<T>)
    ensures r.None? <==> rows == []
    ensures r.Some? ==> r.value in rows && forall x :: x in rows ==> Le(key(x), key(r.value))
  {
    if rows == [] then None
    else
      var rest := Newest(rows[1..], key);
      assert rows == [rows[0]] + rows[1..];
      if rest.None? || Le(key(rest.value), key(rows[0])) then Some(rows[0]) else rest
  }

  lemma NewestUnique<T(!new)>(rows: seq<T>, key: T -> Key, x: T)
    requires KeyIdentifies(rows, key) && x in rows && forall y :: y in rows ==> Le(key(y), key(x))
    ensures Newest(rows, key) == Some(x)
  {
    var n := Newest(rows, key).value;
    assert Le(key(n), key(x)) && Le(key(x), key(n));
  }

  function OwnedBy<T>(owner: T -> nat, i: nat): T -> bool { (x: T) => owner(x) == i }

  function NewestOf<T(!new)>(rows: seq<T>, owner: T -> nat, key: T -> Key, i: nat): Option<T> {
    Newest(Filter(rows, OwnedBy(owner, i)), key)
  }

  function Lookup<T>(m: map<nat, T>, i: nat): Option<T> { if i in m then Some(m[i]) else None }

  /** Rows sorted by (instrument, start, id) descending, first one kept per
      instrument: the selection loops of `_current_mappings` and
      `_current_exclusions`. */
  method SelectNewest<T(!new,==)>(rows: seq<T>, owner: T -> nat, key: T -> Key) returns (selected: map<nat, T>)
    requires KeyIdentifies(rows, key)
    ensures forall i :: Lookup(selected, i) == NewestOf(rows, owner, key, i)
  {
    hide KeyIdentifies, SortedBy, SortBy;
    var sorted := SortBy(rows, key);
    SortMembers(rows, key);
    selected := map[];
    var k := |sorted|;
    while k > 0
      invariant 0 <= k <= |sorted|
      invariant forall i :: i in selected ==> selected[i] in sorted[k..] && owner(selected[i]) == i
      invariant forall x :: x in sorted[k..] ==> owner(x) in selected && Le(key(x), key(selected[owner(x)]))
    {
      k := k - 1;
      var x := sorted[k];
      assert sorted[k..] == [x] + sorted[k + 1..];
      SortedTail(sorted, key, k);
      if owner(x) !in selected {
        selected := selected[owner(x) := x];
      }
    }
    assert sorted[k..] == sorted;
    forall i ensures Lookup(selected, i) == NewestOf(rows, owner, key, i) {
      SelectedIsNewest(rows, owner, key, selected, i);
    }
  }

  lemma SortedTail<T(!new)>(sorted: seq<T>, key: T -> Key, k: nat)
    requires SortedBy(sorted, key) && k < |sorted|
    ensures forall y :: y in sorted[k + 1..] ==> Le(key(sorted[k]), key(y))
  {
    forall y | y in sorted[k + 1..] ensures Le(key(sorted[k]), key(y)) {
      var j :| 0 <= j < |sorted[k + 1..]| && sorted[k + 1..][j] == y;
      SortedAt(sorted, key, k, k + 1 + j);
    }
  }

  lemma SelectedIsNewest<T(!new)>(rows: seq<T>, owner: T -> nat, key: T -> Key, selected: map<nat, T>, i: nat)
    requires KeyIdentifies(rows, key)
    requires forall j :: j in selected ==> selected[j] in rows && owner(selected[j]) == j
    requires forall x :: x in rows ==> owner(x) in selected && Le(key(x), key(selected[owner(x)]))
    ensures Lookup(selected, i) == NewestOf(rows, owner, key, i)
  {
    var mine := Filter(rows, OwnedBy(owner, i));
    if i in selected {
      assert selected[i] in mine;
      NewestUnique(mine, key, selected[i]);
    } else {
      FilterNone(rows, OwnedBy(owner, i));
    }
  }

  // ---- resolving one member --------------------------------------------

  predicate ActiveOn(i: Instrument, day: Date) {
    && i.status != Delisted
    && (i.listedAt.None? || i.listedAt.value <= day)
    && (i.delistedAt.None? || day < i.delistedAt.value)
  }

  function ActiveWithCode(day: Date): nat -> (Instrument -> bool) {
    (code: nat) => (i: Instrument) => i.code == code && ActiveOn(i, day)
  }

  /** `_instruments_active_on`: the one active instrument using the code, never a
      choice among several. */
  function InstrumentFor(t: Tables, code: nat): Option<Instrument> {
    var rows := Filter(t.instruments, ActiveWithCode(t.day)(code));
    if |rows| == 1 then Some(rows[0]) else None
  }

  function StartOf(from: Option<Date>): Date { if from.Some? then from.value else 0 }

  function MappingOwner(m: Providers.Mapping): nat { m.instrumentId }

  function MappingKey(m: Providers.Mapping): Key { (m.instrumentId, StartOf(m.validFrom), m.id) }

  function ExclusionOwner(e: Exclusion): nat { e.instrumentId }

  function ExclusionKey(e: Exclusion): Key { (e.instrumentId, StartOf(e.validFrom), e.id) }

  function CurrentMappingOn(t: Tables): Providers.Mapping -> bool {
    (m: Providers.Mapping) =>
      m.provider == t.provider && m.status == Providers.Matched && Providers.Covers(m.validFrom, m.validTo, t.day)
  }

  function CurrentExclusionOn(t: Tables): Exclusion -> bool {
    (e: Exclusion) => InForce(t, e)
  }

  predicate InForce(t: Tables, e: Exclusion) { e.priceScope && Providers.Covers(e.validFrom, e.validTo, t.day) }

  function MappingFor(t: Tables, instrumentId: nat): Option<Providers.Mapping> {
    NewestOf(Filter(t.mappings, CurrentMappingOn(t)), MappingOwner, MappingKey, instrumentId)
  }

  function ExclusionFor(t: Tables, instrumentId: nat): Option<Exclusion> {
    NewestOf(Filter(t.exclusions, CurrentExclusionOn(t)), ExclusionOwner, ExclusionKey, instrumentId)
  }

  /** `_price_eligibility`. */
  function PriceEligibility(m: Member, i: Option<Instrument>, mapping: Option<Providers.Mapping>,
                            e: Option<Exclusion>): Eligibility
  {
    if i.None? then InstrumentUnresolved
    else if i.value.status != Listed then ExcludedByStatus(i.value.status)
    else if e.Some? then Excluded(e.value.reason)
    else if m.halted then ExpectedNoTrade
    else if mapping.None? then ProviderSymbolUnavailable
    else Eligible
  }

  function TargetFrom(m: Member, i: Option<Instrument>, mapping: Option<Providers.Mapping>,
                      e: Option<Exclusion>): Target
  {
    Target(if i.Some? then Some(i.value.id) else None, m.code,
           if mapping.Some? then Some(mapping.value.symbol) else None, m.market, m.securityType,
           PriceEligibility(m, i, mapping, e))
  }

  function TargetOf(t: Tables, m: Member): Target {
    match InstrumentFor(t, m.code)
    case None => TargetFrom(m, None, None, None)
    case Some(i) => TargetFrom(m, Some(i), MappingFor(t, i.id), ExclusionFor(t, i.id))
  }

  function Targets(t: Tables, members: seq<Member>): (r: seq<Target>)
    ensures |r| == |members| && forall k :: 0 <= k < |r| ==> r[k] == TargetOf(t, members[k])
  {
    seq(|members|, k requires 0 <= k < |members| => TargetOf(t, members[k]))
  }

  // ---- the builder -----------------------------------------------------

  ghost predicate KeyedTables(t: Tables) {
    && KeyIdentifies(t.mappings, MappingKey)
    && KeyIdentifies(t.exclusions, ExclusionKey)
  }

  /** The rows that use the code alone, by code. */
  lemma UniqueFound(byCode: map<nat, seq<Instrument>>, instruments: seq<Instrument>, day: Date,
                    active: map<nat, Instrument>, code: nat)
    requires Indexes(byCode, instruments, ActiveWithCode(day))
    requires active == map c | c in byCode && |byCode[c]| == 1 :: byCode[c][0]
    ensures Lookup(active, code)
         == var rows := Filter(instruments, ActiveWithCode(day)(code)); if |rows| == 1 then Some(rows[0]) else None
  {
    assert At(byCode, code) == Filter(instruments, ActiveWithCode(day)(code));
    hide Filter, Indexes;
  }

  method ActiveInstruments(instruments: seq<Instrument>, day: Date) returns (active: map<nat, Instrument>)
    ensures forall code :: Lookup(active, code)
              == var rows := Filter(instruments, ActiveWithCode(day)(code)); if |rows| == 1 then Some(rows[0]) else None
  {
    hide Indexes, At, Filter, Lookup;
    var byCode: map<nat, seq<Instrument>> := map[];
    NothingIndexed(byCode, ActiveWithCode(day));
    var k := 0;
    assert instruments[..0] == [];
    while k < |instruments|
      invariant 0 <= k <= |instruments|
      invariant Indexes(byCode, instruments[..k], ActiveWithCode(day))
    {
      var i := instruments[k];
      assert instruments[..k + 1] == instruments[..k] + [i];
      if ActiveOn(i, day) {
        IndexesNext(byCode, instruments[..k], ActiveWithCode(day), i, i.code);
        byCode := byCode[i.code := At(byCode, i.code) + [i]];
      } else {
        IndexesSkip(byCode, instruments[..k], ActiveWithCode(day), i);
      }
      k := k + 1;
    }
    assert instruments[..k] == instruments;
    active := map code | code in byCode && |byCode[code]| == 1 :: byCode[code][0];
    forall code
      ensures Lookup(active, code)
           == var rows := Filter(instruments, ActiveWithCode(day)(code)); if |rows| == 1 then Some(rows[0]) else None
    {
      UniqueFound(byCode, instruments, day, active, code);
    }
  }

  /** `build_price_targets` for a completed snapshot. */
  method BuildPriceTargets(t: Tables, members: seq<Member>) returns (targets: seq<Target>)
    requires KeyedTables(t)
    ensures targets == Targets(t, members)
  {
    var instruments := ActiveInstruments(t.instruments, t.day);
    var mappings := SelectNewest(Filter(t.mappings, CurrentMappingOn(t)), MappingOwner, MappingKey);
    var exclusions := SelectNewest(Filter(t.exclusions, CurrentExclusionOn(t)), ExclusionOwner, ExclusionKey);
    targets := [];
    var k := 0;
    while k < |members|
      invariant 0 <= k <= |members|
      invariant targets == Targets(t, members[..k])
    {
      var m := members[k];
      var i := Lookup(instruments, m.code);
      assert i == InstrumentFor(t, m.code);
      var mapping := if i.Some? then Lookup(mappings, i.value.id) else None;
      var exclusion := if i.Some? then Lookup(exclusions, i.value.id) else None;
      hide PriceEligibility, InstrumentFor, NewestOf;
      targets := targets + [TargetFrom(m, i, mapping, exclusion)];
      assert members[..k + 1] == members[..k] + [m];
      k := k + 1;
    }
    assert members[..k] == members;
  }

  // ---- one code, one target --------------------------------------------

  function MemberCode(m: Member): Key { (m.code, 0, 0) }

  lemma ResolvedInstrument(t: Tables, code: nat)
    requires InstrumentFor(t, code).Some?
    ensures InstrumentFor(t, code).value in t.instruments && InstrumentFor(t, code).value.code == code
  {
    var rows := Filter(t.instruments, ActiveWithCode(t.day)(code));
    assert rows[0] in rows;
  }

  lemma ResolvedMapping(t: Tables, id: nat)
    requires MappingFor(t, id).Some?
    ensures var m := MappingFor(t, id).value;
      m in t.mappings && m.instrumentId == id && Providers.Means(m, t.provider, m.symbol, t.day)
  {
    var m := MappingFor(t, id).value;
    assert m in Filter(Filter(t.mappings, CurrentMappingOn(t)), OwnedBy(MappingOwner, id));
  }

  lemma ExclusionFound(t: Tables, e: Exclusion)
    requires e in t.exclusions && InForce(t, e)
    ensures ExclusionFor(t, e.instrumentId).Some?
  {
    var inForce := Filter(t.exclusions, CurrentExclusionOn(t));
    assert e in inForce && OwnedBy(ExclusionOwner, e.instrumentId)(e);
    assert e in Filter(inForce, OwnedBy(ExclusionOwner, e.instrumentId));
  }

  /** An eligible target names a listed, active instrument using the member's code,
      with no exclusion in force, and the code its provider knows it by that day. */
  lemma EligibleMeans(t: Tables, m: Member)
    requires TargetOf(t, m).eligibility == Eligible
    ensures var target := TargetOf(t, m);
      && target.instrumentId.Some? && target.symbol.Some?
      && (exists i :: i in t.instruments && i.id == target.instrumentId.value && i.code == m.code && i.status == Listed
                       && ActiveOn(i, t.day))
      && (exists p :: p in t.mappings && p.instrumentId == target.instrumentId.value
                       && Providers.Means(p, t.provider, target.symbol.value, t.day))
      && !(exists e :: e in t.exclusions && e.instrumentId == target.instrumentId.value && InForce(t, e))
  {
    var i := InstrumentFor(t, m.code).value;
    var rows := Filter(t.instruments, ActiveWithCode(t.day)(m.code));
    assert i in rows;
    ResolvedMapping(t, i.id);
    forall e | e in t.exclusions && InForce(t, e) ensures e.instrumentId != i.id {
      ExclusionFound(t, e);
    }
  }

  /** The eligible targets of one build have pairwise different provider symbols. */
  lemma EligibleSymbolsDistinct(t: Tables, members: seq<Member>, nextId: nat, j: nat, k: nat, symbol: nat)
    requires DistinctKeys(members, MemberCode) && ValidIds(t.instruments, nextId) && Providers.Exclusive(t.mappings)
    requires j < |members| && k < |members|
    requires Targets(t, members)[j].eligibility == Eligible && Targets(t, members)[j].symbol == Some(symbol)
    requires Targets(t, members)[k].eligibility == Eligible && Targets(t, members)[k].symbol == Some(symbol)
    ensures j == k
  {
    var a, b := InstrumentFor(t, members[j].code).value, InstrumentFor(t, members[k].code).value;
    ResolvedInstrument(t, members[j].code);
    ResolvedInstrument(t, members[k].code);
    ResolvedMapping(t, a.id);
    ResolvedMapping(t, b.id);
    hide InstrumentFor, MappingFor;
    SameInstrument(t.instruments, nextId, a, b);
    if j < k {
      DistinctAt(members, MemberCode, j, k);
    } else if k < j {
      DistinctAt(members, MemberCode, k, j);
    }
  }

  lemma SameInstrument(instruments: seq<Instrument>, nextId: nat, a: Instrument, b: Instrument)
    requires ValidIds(instruments, nextId) && a in instruments && b in instruments && a.id == b.id
    ensures a == b
  {
    DistinctIdentifies(instruments, IdKey);
  }

  /** The same, over the store that any sequence of mapping requests has built. */
  lemma EligibleSymbolsDistinctAlways(t: Tables, requests: seq<Providers.Request>, members: seq<Member>, nextId: nat,
                                      j: nat, k: nat, symbol: nat)
    requires DistinctKeys(members, MemberCode) && ValidIds(t.instruments, nextId)
    requires t.mappings == Providers.AddAll([], requests)
    requires j < |members| && k < |members|
    requires Targets(t, members)[j].eligibility == Eligible && Targets(t, members)[j].symbol == Some(symbol)
    requires Targets(t, members)[k].eligibility == Eligible && Targets(t, members)[k].symbol == Some(symbol)
    ensures j == k
  {
    Providers.CodesStayExclusive(requests);
    EligibleSymbolsDistinct(t, members, nextId, j, k, symbol);
  }
}
