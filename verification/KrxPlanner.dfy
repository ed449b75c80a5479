/** `plan_identity_reconciliation`: where every lifecycle goes, given the
    instruments that already exist. */
module KrxPlanner {
  import opened Common
  import opened Sorting
  import opened Gathering
  import opened KrxLifecycles

  datatype ListingStatus = Listed | Delisted | OtherStatus(name: nat)

  datatype Instrument = Instrument(id: nat, code: nat, market: nat, listedAt: Option<Date>, delistedAt: Option<Date>,
                                   status: ListingStatus)

  /** In the alphabetical order of the source's reason strings. */
  datatype Reason =
    | ConflictingDelistedAt
    | DuplicateExistingIdentity
    | ExistingIdentityDateConflict
    | InvalidLifecycleInterval
    | UnmatchedOrAmbiguousOpenLifecycle

  datatype Verdict = Exact | Update(id: nat) | Create | Unresolved(reason: Reason)

  datatype IdentityUpdate = IdentityUpdate(id: nat, listedAt: Date)

  datatype IdentityCreate = IdentityCreate(code: nat, name: nat, market: nat, listedAt: Date, delistedAt: Date)

  /** `dates` is present only on conflicting delisting dates. */
  datatype UnresolvedRow = UnresolvedRow(code: nat, market: nat, listedAt: Date, reason: Reason, dates: seq<Date>)

  datatype Plan = Plan(updates: seq<IdentityUpdate>, creates: seq<IdentityCreate>, unresolved: seq<UnresolvedRow>)

  type Pair = (nat, nat)

  type Identity = (nat, nat, Date, Option<Date>)

  function PairOf(i: Instrument): Pair { (i.code, i.market) }

  function LifePair(l: Lifecycle): Pair { (l.code, l.market) }

  function LifeIdentity(l: Lifecycle): Identity { (l.code, l.market, l.listedAt, l.delistedAt) }

  predicate HasIdentity(i: Instrument, k: Identity) {
    i.code == k.0 && i.market == k.1 && i.listedAt == Some(k.2) && i.delistedAt == k.3
  }

  predicate Conflicting(l: Lifecycle) { |l.delistedDates| > 1 }

  predicate Open(l: Lifecycle) { !Conflicting(l) && l.delistedAt.None? }

  function Matching(k: Identity): Instrument -> bool { (i: Instrument) => HasIdentity(i, k) }

  function InPair(p: Pair): Instrument -> bool { (i: Instrument) => PairOf(i) == p }

  function DatedInPair(p: Pair): Instrument -> bool { (i: Instrument) => PairOf(i) == p && i.listedAt.Some? }

  function OpenIn(p: Pair): Lifecycle -> bool { (l: Lifecycle) => Open(l) && LifePair(l) == p }

  predicate PairConflicts(p: Pair, lifecycles: seq<Lifecycle>) {
    exists l :: l in lifecycles && Conflicting(l) && LifePair(l) == p
  }

  predicate CanUpdate(conflict: bool, candidates: seq<Instrument>, open: nat) {
    && !conflict
    && |candidates| == 1
    && candidates[0].listedAt.None?
    && candidates[0].delistedAt.None?
    && candidates[0].status != Delisted
    && open == 1
  }

  function Classify(l: Lifecycle, lifecycles: seq<Lifecycle>, existing: seq<Instrument>): Verdict {
    if Conflicting(l) then Unresolved(ConflictingDelistedAt)
    else if l.delistedAt.Some? && l.delistedAt.value <= l.listedAt then Unresolved(InvalidLifecycleInterval)
    else
      var exact := Filter(existing, Matching(LifeIdentity(l)));
      var candidates := Filter(existing, InPair(LifePair(l)));
      if |exact| == 1 then Exact
      else if |exact| > 1 then Unresolved(DuplicateExistingIdentity)
      else if l.delistedAt.Some? then
        if Filter(existing, DatedInPair(LifePair(l))) != [] then Unresolved(ExistingIdentityDateConflict) else Create
      else if CanUpdate(PairConflicts(LifePair(l), lifecycles), candidates, |Filter(lifecycles, OpenIn(LifePair(l)))|)
      then Update(candidates[0].id)
      else Unresolved(UnmatchedOrAmbiguousOpenLifecycle)
  }

  // ---- collecting the three lists --------------------------------------

  function Updates(lifecycles: seq<Lifecycle>, existing: seq<Instrument>): Lifecycle -> Option<IdentityUpdate> {
    (l: Lifecycle) => match Classify(l, lifecycles, existing)
      case Update(id) => Some(IdentityUpdate(id, l.listedAt))
      case _ => None
  }

  function Creates(lifecycles: seq<Lifecycle>, existing: seq<Instrument>): Lifecycle -> Option<IdentityCreate> {
    (l: Lifecycle) =>
      if Classify(l, lifecycles, existing).Create? && l.delistedAt.Some?
      then Some(IdentityCreate(l.code, l.name, l.market, l.listedAt, l.delistedAt.value))
      else None
  }

  function Leftovers(lifecycles: seq<Lifecycle>, existing: seq<Instrument>): Lifecycle -> Option<UnresolvedRow> {
    (l: Lifecycle) => match Classify(l, lifecycles, existing)
      case Unresolved(reason) => Some(UnresolvedRowOf(l, reason))
      case _ => None
  }

  function UnresolvedRowOf(l: Lifecycle, reason: Reason): UnresolvedRow {
    UnresolvedRow(l.code, l.market, l.listedAt, reason, if reason == ConflictingDelistedAt then l.delistedDates else [])
  }

  function UpdateKey(u: IdentityUpdate): Key { (u.id, 0, 0) }

  function CreateKey(c: IdentityCreate): Key { (c.code, c.market, c.listedAt) }

  function ReasonRank(r: Reason): (n: nat) {
    match r
    case ConflictingDelistedAt => 0
    case DuplicateExistingIdentity => 1
    case ExistingIdentityDateConflict => 2
    case InvalidLifecycleInterval => 3
    case UnmatchedOrAmbiguousOpenLifecycle => 4
  }

  /** Code, market, then listing date and reason packed in order. */
  function UnresolvedKey(r: UnresolvedRow): Key { (r.code, r.market, 5 * r.listedAt + ReasonRank(r.reason)) }

  function PlanOf(lifecycles: seq<Lifecycle>, existing: seq<Instrument>): Plan {
    Plan(SortBy(Collect(lifecycles, Updates(lifecycles, existing)), UpdateKey),
         SortBy(Collect(lifecycles, Creates(lifecycles, existing)), CreateKey),
         SortBy(Collect(lifecycles, Leftovers(lifecycles, existing)), UnresolvedKey))
  }

  // ---- what a plan holds -----------------------------------------------

  lemma UpdateMembers(lifecycles: seq<Lifecycle>, existing: seq<Instrument>, u: IdentityUpdate)
    ensures u in PlanOf(lifecycles, existing).updates
       <==> exists l :: l in lifecycles && Classify(l, lifecycles, existing) == Update(u.id) && l.listedAt == u.listedAt
  {
    hide Classify;
    var f := Updates(lifecycles, existing);
    SortMembers(Collect(lifecycles, f), UpdateKey);
    CollectMembers(lifecycles, f, u);
    if l :| l in lifecycles && Classify(l, lifecycles, existing) == Update(u.id) && l.listedAt == u.listedAt {
      assert f(l) == Some(u);
    }
  }

  lemma CreateMembers(lifecycles: seq<Lifecycle>, existing: seq<Instrument>, c: IdentityCreate)
    ensures c in PlanOf(lifecycles, existing).creates
       <==> exists l :: l in lifecycles && Creates(lifecycles, existing)(l) == Some(c)
  {
    hide Classify;
    var f := Creates(lifecycles, existing);
    SortMembers(Collect(lifecycles, f), CreateKey);
    CollectMembers(lifecycles, f, c);
  }

  lemma UnresolvedMembers(lifecycles: seq<Lifecycle>, existing: seq<Instrument>, r: UnresolvedRow)
    ensures r in PlanOf(lifecycles, existing).unresolved
       <==> exists l :: l in lifecycles && Classify(l, lifecycles, existing) == Unresolved(r.reason)
                        && r == UnresolvedRowOf(l, r.reason)
  {
    hide Classify;
    var f := Leftovers(lifecycles, existing);
    SortMembers(Collect(lifecycles, f), UnresolvedKey);
    CollectMembers(lifecycles, f, r);
    if l :|
      l in lifecycles && Classify(l, lifecycles, existing) == Unresolved(r.reason) && r == UnresolvedRowOf(l, r.reason)
    {
      assert f(l) == Some(r);
    }
  }

  function IsExact(lifecycles: seq<Lifecycle>, existing: seq<Instrument>): Lifecycle -> bool {
    (l: Lifecycle) => Classify(l, lifecycles, existing).Exact?
  }

  /** Only a lifecycle with a delisting date is created. */
  lemma CreateIsDated(l: Lifecycle, lifecycles: seq<Lifecycle>, existing: seq<Instrument>)
    requires Classify(l, lifecycles, existing).Create?
    ensures l.delistedAt.Some? && l.delistedAt.value > l.listedAt
  {
  }

  function One(b: bool): nat { if b then 1 else 0 }

  lemma OneOfFour(l: Lifecycle, lifecycles: seq<Lifecycle>, existing: seq<Instrument>)
    ensures 1 == One(IsExact(lifecycles, existing)(l)) + One(Updates(lifecycles, existing)(l).Some?)
                 + One(Creates(lifecycles, existing)(l).Some?) + One(Leftovers(lifecycles, existing)(l).Some?)
  {
    if Classify(l, lifecycles, existing).Create? {
      CreateIsDated(l, lifecycles, existing);
    }
    hide Classify;
  }

  lemma CollectLast<T, U>(xs: seq<T>, f: T -> Option<U>)
    requires xs != []
    ensures |Collect(xs, f)| == |Collect(xs[..|xs| - 1], f)| + One(f(xs[|xs| - 1]).Some?)
  {
  }

  lemma FilterLast<T(!new)>(xs: seq<T>, p: T -> bool)
    requires xs != []
    ensures |Filter(xs, p)| == |Filter(xs[..|xs| - 1], p)| + One(p(xs[|xs| - 1]))
  {
    var last := xs[|xs| - 1];
    assert |Filter([last], p)| == One(p(last));
    hide Filter, One;
    assert xs == xs[..|xs| - 1] + [last];
    FilterAppend(xs[..|xs| - 1], [last], p);
  }

  lemma {:induction false} CountedOnce(part: seq<Lifecycle>, lifecycles: seq<Lifecycle>, existing: seq<Instrument>)
    ensures |part| == |Filter(part, IsExact(lifecycles, existing))| + |Collect(part, Updates(lifecycles, existing))|
                      + |Collect(part, Creates(lifecycles, existing))|
                          + |Collect(part, Leftovers(lifecycles, existing))|
    decreases |part|
  {
    if part != [] {
      hide Collect, Filter, IsExact, Updates, Creates, Leftovers;
      CountedOnce(part[..|part| - 1], lifecycles, existing);
      FilterLast(part, IsExact(lifecycles, existing));
      CollectLast(part, Updates(lifecycles, existing));
      CollectLast(part, Creates(lifecycles, existing));
      CollectLast(part, Leftovers(lifecycles, existing));
      OneOfFour(part[|part| - 1], lifecycles, existing);
    }
  }

  /** Every lifecycle ends in exactly one of: already exact, update, create,
      unresolved. */
  lemma PlanPartitions(lifecycles: seq<Lifecycle>, existing: seq<Instrument>)
    ensures var p := PlanOf(lifecycles, existing);
      |lifecycles| == |Filter(lifecycles, IsExact(lifecycles, existing))| + |p.updates| + |p.creates| + |p.unresolved|
  {
    hide Classify;
    CountedOnce(lifecycles, lifecycles, existing);
    SortMembers(Collect(lifecycles, Updates(lifecycles, existing)), UpdateKey);
    SortMembers(Collect(lifecycles, Creates(lifecycles, existing)), CreateKey);
    SortMembers(Collect(lifecycles, Leftovers(lifecycles, existing)), UnresolvedKey);
  }

  // ---- the planner -----------------------------------------------------

  function AddIdentity(byIdentity: map<Identity, seq<Instrument>>, row: Instrument): map<Identity, seq<Instrument>> {
    if row.listedAt.Some? then
      var key: Identity := (row.code, row.market, row.listedAt.value, row.delistedAt);
      byIdentity[key := At(byIdentity, key) + [row]]
    else byIdentity
  }

  lemma IdentityNext(byIdentity: map<Identity, seq<Instrument>>, rows: seq<Instrument>, row: Instrument)
    requires Indexes(byIdentity, rows, Matching)
    ensures Indexes(AddIdentity(byIdentity, row), rows + [row], Matching)
  {
    hide Indexes;
    if row.listedAt.Some? {
      IndexesNext(byIdentity, rows, Matching, row, (row.code, row.market, row.listedAt.value, row.delistedAt));
    } else {
      IndexesSkip(byIdentity, rows, Matching, row);
    }
  }

  method IndexInstruments(existing: seq<Instrument>)
    returns (byPair: map<Pair, seq<Instrument>>, byIdentity: map<Identity, seq<Instrument>>)
    ensures Indexes(byPair, existing, InPair) && Indexes(byIdentity, existing, Matching)
  {
    hide Indexes, At, AddIdentity, Matching, HasIdentity;
    byPair, byIdentity := map[], map[];
    NothingIndexed(byPair, InPair);
    NothingIndexed(byIdentity, Matching);
    var i := 0;
    assert existing[..0] == [];
    while i < |existing|
      invariant 0 <= i <= |existing|
      invariant Indexes(byPair, existing[..i], InPair)
      invariant Indexes(byIdentity, existing[..i], Matching)
    {
      var row := existing[i];
      assert existing[..i + 1] == existing[..i] + [row];
      IndexesNext(byPair, existing[..i], InPair, row, PairOf(row));
      IdentityNext(byIdentity, existing[..i], row);
      byPair := byPair[PairOf(row) := At(byPair, PairOf(row)) + [row]];
      byIdentity := AddIdentity(byIdentity, row);
      i := i + 1;
    }
    assert existing[..i] == existing;
  }

  ghost predicate ConflictsAre(conflicts: set<Pair>, lifecycles: seq<Lifecycle>) {
    forall p :: p in conflicts <==> PairConflicts(p, lifecycles)
  }

  lemma ConflictsNext(conflicts: set<Pair>, lifecycles: seq<Lifecycle>, l: Lifecycle)
    requires ConflictsAre(conflicts, lifecycles)
    ensures ConflictsAre(if Conflicting(l) then conflicts + {LifePair(l)} else conflicts, lifecycles + [l])
  {
    forall p
      ensures PairConflicts(p, lifecycles + [l])
              <==> PairConflicts(p, lifecycles) || (Conflicting(l) && LifePair(l) == p)
    {
      if PairConflicts(p, lifecycles) {
        var x :| x in lifecycles && Conflicting(x) && LifePair(x) == p;
        assert x in lifecycles + [l];
      }
      if Conflicting(l) && LifePair(l) == p {
        assert l in lifecycles + [l];
      }
    }
  }

  method IndexLifecycles(lifecycles: seq<Lifecycle>)
    returns (openByPair: map<Pair, seq<Lifecycle>>, conflicts: set<Pair>)
    ensures Indexes(openByPair, lifecycles, OpenIn) && ConflictsAre(conflicts, lifecycles)
  {
    openByPair, conflicts := map[], {};
    NothingIndexed(openByPair, OpenIn);
    assert lifecycles[..0] == [];
    var i := 0;
    while i < |lifecycles|
      invariant 0 <= i <= |lifecycles|
      invariant Indexes(openByPair, lifecycles[..i], OpenIn)
      invariant ConflictsAre(conflicts, lifecycles[..i])
    {
      hide Indexes, ConflictsAre;
      var l := lifecycles[i];
      assert lifecycles[..i + 1] == lifecycles[..i] + [l];
      ConflictsNext(conflicts, lifecycles[..i], l);
      if |l.delistedDates| > 1 {
        conflicts := conflicts + {LifePair(l)};
        IndexesSkip(openByPair, lifecycles[..i], OpenIn, l);
      } else if l.delistedAt.None? {
        IndexesNext(openByPair, lifecycles[..i], OpenIn, l, LifePair(l));
        openByPair := openByPair[LifePair(l) := At(openByPair, LifePair(l)) + [l]];
      } else {
        IndexesSkip(openByPair, lifecycles[..i], OpenIn, l);
      }
      i := i + 1;
    }
    assert lifecycles[..i] == lifecycles;
  }

  /** `[row for row in candidates if row.listed_at is not None]`. */
  lemma DatedCandidates(existing: seq<Instrument>, p: Pair)
    ensures Filter(Filter(existing, InPair(p)), DatedInPair(p)) == Filter(existing, DatedInPair(p))
  {
    FilterTwice(existing, InPair(p), DatedInPair(p));
  }

  /** The plan with its lists in reading order. */
  function Draft(part: seq<Lifecycle>, lifecycles: seq<Lifecycle>, existing: seq<Instrument>): Plan {
    Plan(Collect(part, Updates(lifecycles, existing)), Collect(part, Creates(lifecycles, existing)),
         Collect(part, Leftovers(lifecycles, existing)))
  }

  function Record(draft: Plan, l: Lifecycle, verdict: Verdict): Plan
    requires verdict.Create? ==> l.delistedAt.Some?
  {
    match verdict
    case Exact => draft
    case Update(id) => draft.(updates := draft.updates + [IdentityUpdate(id, l.listedAt)])
    case Create =>
      draft.(creates := draft.creates + [IdentityCreate(l.code, l.name, l.market, l.listedAt, l.delistedAt.value)])
    case Unresolved(reason) => draft.(unresolved := draft.unresolved + [UnresolvedRowOf(l, reason)])
  }

  lemma DraftNext(lifecycles: seq<Lifecycle>, existing: seq<Instrument>, i: nat)
    requires i < |lifecycles|
    ensures var v := Classify(lifecycles[i], lifecycles, existing);
      && (v.Create? ==> lifecycles[i].delistedAt.Some?)
      && Draft(lifecycles[..i + 1], lifecycles, existing)
           == Record(Draft(lifecycles[..i], lifecycles, existing), lifecycles[i], v)
  {
    if Classify(lifecycles[i], lifecycles, existing).Create? {
      CreateIsDated(lifecycles[i], lifecycles, existing);
    }
    hide Classify, Collect;
    CollectNext(lifecycles, Updates(lifecycles, existing), i);
    CollectNext(lifecycles, Creates(lifecycles, existing), i);
    CollectNext(lifecycles, Leftovers(lifecycles, existing), i);
  }

  method PlanIdentities(lifecycles: seq<Lifecycle>, existing: seq<Instrument>) returns (plan: Plan)
    ensures plan == PlanOf(lifecycles, existing)
  {
    hide Classify, Indexes, ConflictsAre, Record;
    var byPair, byIdentity := IndexInstruments(existing);
    var openByPair, conflicts := IndexLifecycles(lifecycles);
    plan := Plan([], [], []);
    var i := 0;
    while i < |lifecycles|
      invariant 0 <= i <= |lifecycles|
      invariant plan == Draft(lifecycles[..i], lifecycles, existing)
    {
      hide Draft;
      var verdict := Judge(lifecycles[i], lifecycles, existing, byPair, byIdentity, openByPair, conflicts);
      DraftNext(lifecycles, existing, i);
      plan := Record(plan, lifecycles[i], verdict);
      i := i + 1;
    }
    assert lifecycles[..i] == lifecycles;
    plan := Plan(SortBy(plan.updates, UpdateKey), SortBy(plan.creates, CreateKey),
                 SortBy(plan.unresolved, UnresolvedKey));
  }

  /** The body of the planning loop, reading the dictionaries. */
  method Judge(l: Lifecycle, ghost lifecycles: seq<Lifecycle>, ghost existing: seq<Instrument>,
               byPair: map<Pair, seq<Instrument>>, byIdentity: map<Identity, seq<Instrument>>,
               openByPair: map<Pair, seq<Lifecycle>>, conflicts: set<Pair>)
    returns (verdict: Verdict)
    requires Indexes(byPair, existing, InPair) && Indexes(byIdentity, existing, Matching)
    requires Indexes(openByPair, lifecycles, OpenIn) && ConflictsAre(conflicts, lifecycles)
    ensures verdict == Classify(l, lifecycles, existing)
  {
    if |l.delistedDates| > 1 {
      return Unresolved(ConflictingDelistedAt);
    }
    if l.delistedAt.Some? && l.delistedAt.value <= l.listedAt {
      return Unresolved(InvalidLifecycleInterval);
    }
    var exact := At(byIdentity, LifeIdentity(l));
    assert exact == Filter(existing, Matching(LifeIdentity(l)));
    if |exact| == 1 {
      return Exact;
    }
    if |exact| > 1 {
      return Unresolved(DuplicateExistingIdentity);
    }
    var candidates := At(byPair, LifePair(l));
    assert candidates == Filter(existing, InPair(LifePair(l)));
    if l.delistedAt.Some? {
      DatedCandidates(existing, LifePair(l));
      var dated := Filter(candidates, DatedInPair(LifePair(l)));
      return if dated != [] then Unresolved(ExistingIdentityDateConflict) else Create;
    }
    var open := At(openByPair, LifePair(l));
    assert open == Filter(lifecycles, OpenIn(LifePair(l)));
    if CanUpdate(LifePair(l) in conflicts, candidates, |open|) {
      return Update(candidates[0].id);
    }
    return Unresolved(UnmatchedOrAmbiguousOpenLifecycle);
  }
}
