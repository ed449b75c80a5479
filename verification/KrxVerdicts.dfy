/** Which lifecycle goes where, said of the lifecycles and instruments alone. */
module KrxVerdicts {
  import opened Common
  import opened Sorting
  import opened Gathering
  import opened KrxLifecycles
  import opened KrxPlanner

  predicate SamePair(i: Instrument, l: Lifecycle) { i.code == l.code && i.market == l.market }

  /** The instrument is this very lifecycle. */
  predicate Identical(i: Instrument, l: Lifecycle) {
    SamePair(i, l) && i.listedAt == Some(l.listedAt) && i.delistedAt == l.delistedAt
  }

  ghost predicate NoneIdentical(l: Lifecycle, existing: seq<Instrument>) {
    forall i :: i in existing ==> !Identical(i, l)
  }

  ghost predicate TwoIdentical(l: Lifecycle, existing: seq<Instrument>) {
    exists j, k :: 0 <= j < k < |existing| && Identical(existing[j], l) && Identical(existing[k], l)
  }

  /** The files give the lifecycle at most one delisting day, and not one on or before its listing. */
  predicate Sound(l: Lifecycle) {
    |l.delistedDates| <= 1 && (l.delistedAt.Some? ==> l.delistedAt.value > l.listedAt)
  }

  ghost predicate PairUndated(l: Lifecycle, existing: seq<Instrument>) {
    forall i :: i in existing && SamePair(i, l) ==> i.listedAt.None?
  }

  /** An ended lifecycle whose pair has nothing dated. */
  ghost predicate IsNew(l: Lifecycle, existing: seq<Instrument>) {
    Sound(l) && l.delistedAt.Some? && NoneIdentical(l, existing) && PairUndated(l, existing)
  }

  /** `l` is the one open lifecycle of its pair, and none of the pair conflicts. */
  ghost predicate OnlyOpen(l: Lifecycle, lifecycles: seq<Lifecycle>) {
    && l.delistedAt.None?
    && (forall m :: m in lifecycles && m.code == l.code && m.market == l.market ==> |m.delistedDates| <= 1)
    && exists k :: 0 <= k < |lifecycles| && lifecycles[k] == l
                   && forall j :: 0 <= j < |lifecycles| && j != k && lifecycles[j].delistedAt.None? ==>
                                    !(lifecycles[j].code == l.code && lifecycles[j].market == l.market)
  }

  /** `i` is the one instrument of the pair of `l`. */
  ghost predicate OnlyInstrument(i: Instrument, l: Lifecycle, existing: seq<Instrument>) {
    exists k :: 0 <= k < |existing| && existing[k] == i && SamePair(i, l)
                && forall j :: 0 <= j < |existing| && j != k ==> !SamePair(existing[j], l)
  }

  /** The open lifecycle tells when the instrument was listed. */
  ghost predicate Dates(l: Lifecycle, i: Instrument, lifecycles: seq<Lifecycle>, existing: seq<Instrument>) {
    && OnlyOpen(l, lifecycles) && OnlyInstrument(i, l, existing)
    && i.listedAt.None? && i.delistedAt.None? && i.status != Delisted
  }

  ghost predicate Reported(l: Lifecycle, reason: Reason, lifecycles: seq<Lifecycle>, existing: seq<Instrument>) {
    match reason
    case ConflictingDelistedAt => |l.delistedDates| > 1
    case InvalidLifecycleInterval =>
      |l.delistedDates| <= 1 && l.delistedAt.Some? && l.delistedAt.value <= l.listedAt
    case DuplicateExistingIdentity => Sound(l) && TwoIdentical(l, existing)
    case ExistingIdentityDateConflict =>
      Sound(l) && l.delistedAt.Some? && NoneIdentical(l, existing) && !PairUndated(l, existing)
    case UnmatchedOrAmbiguousOpenLifecycle =>
      Sound(l) && l.delistedAt.None? && NoneIdentical(l, existing)
      && forall i :: !Dates(l, i, lifecycles, existing)
  }

  // ---- the verdicts ----------------------------------------------------

  lemma IdenticalCounts(l: Lifecycle, existing: seq<Instrument>)
    ensures |Filter(existing, Matching(LifeIdentity(l)))| == 0 <==> NoneIdentical(l, existing)
    ensures |Filter(existing, Matching(LifeIdentity(l)))| > 1 <==> TwoIdentical(l, existing)
  {
    var p := Matching(LifeIdentity(l));
    assert forall i: Instrument :: p(i) <==> Identical(i, l);
    NoneFiltered(existing, p);
    TwoFiltered(existing, p);
    hide Filter, Matching, Identical, HasIdentity;
  }

  lemma DatedCounts(l: Lifecycle, existing: seq<Instrument>)
    ensures Filter(existing, DatedInPair(LifePair(l))) == [] <==> PairUndated(l, existing)
  {
    NoneFiltered(existing, DatedInPair(LifePair(l)));
    hide Filter;
  }

  lemma CandidateIsOnly(i: Instrument, l: Lifecycle, existing: seq<Instrument>)
    ensures Filter(existing, InPair(LifePair(l))) == [i] <==> OnlyInstrument(i, l, existing)
  {
    var p := InPair(LifePair(l));
    assert forall x: Instrument :: p(x) <==> SamePair(x, l);
    OneFilteredAt(existing, p, i);
    hide Filter, InPair, SamePair;
  }

  lemma OpenIsOnly(l: Lifecycle, lifecycles: seq<Lifecycle>)
    requires l in lifecycles && |l.delistedDates| <= 1 && l.delistedAt.None?
    ensures !PairConflicts(LifePair(l), lifecycles) && |Filter(lifecycles, OpenIn(LifePair(l)))| == 1
       <==> OnlyOpen(l, lifecycles)
  {
    hide OnlyOpen, Alone;
    var f := Filter(lifecycles, OpenIn(LifePair(l)));
    OneFilteredAt(lifecycles, OpenIn(LifePair(l)), l);
    assert l in f;
    assert |f| == 1 <==> f == [l];
    if PairConflicts(LifePair(l), lifecycles) {
      ConflictBlocks(l, lifecycles);
    } else {
      OpenAlone(l, lifecycles);
    }
    hide Filter, OpenIn, PairConflicts;
  }

  lemma ConflictBlocks(l: Lifecycle, lifecycles: seq<Lifecycle>)
    requires PairConflicts(LifePair(l), lifecycles)
    ensures !OnlyOpen(l, lifecycles)
  {
  }

  lemma OpenAlone(l: Lifecycle, lifecycles: seq<Lifecycle>)
    requires l in lifecycles && l.delistedAt.None? && !PairConflicts(LifePair(l), lifecycles)
    ensures Alone(lifecycles, OpenIn(LifePair(l)), l) <==> OnlyOpen(l, lifecycles)
  {
    forall m | m in lifecycles
      ensures OpenIn(LifePair(l))(m) <==> m.delistedAt.None? && m.code == l.code && m.market == l.market
      ensures m.code == l.code && m.market == l.market ==> |m.delistedDates| <= 1
    {
      assert Conflicting(m) ==> LifePair(m) != LifePair(l);
    }
    hide PairConflicts, OpenIn;
  }

  lemma UpdateIff(l: Lifecycle, i: Instrument, lifecycles: seq<Lifecycle>, existing: seq<Instrument>)
    requires l in lifecycles && Sound(l) && l.delistedAt.None?
    ensures var candidates := Filter(existing, InPair(LifePair(l)));
      (candidates == [i]
       && CanUpdate(PairConflicts(LifePair(l), lifecycles), candidates, |Filter(lifecycles, OpenIn(LifePair(l)))|))
      <==> Dates(l, i, lifecycles, existing)
  {
    OpenIsOnly(l, lifecycles);
    CandidateIsOnly(i, l, existing);
    hide Filter, OnlyOpen, OnlyInstrument, PairConflicts, InPair, OpenIn;
  }

  /** An open lifecycle that dates an instrument has no instrument of its own yet. */
  lemma DatesNotIdentical(l: Lifecycle, i: Instrument, lifecycles: seq<Lifecycle>, existing: seq<Instrument>)
    requires Dates(l, i, lifecycles, existing)
    ensures NoneIdentical(l, existing)
  {
    hide OnlyOpen;
    var k :| 0 <= k < |existing| && existing[k] == i && SamePair(i, l)
             && forall j :: 0 <= j < |existing| && j != k ==> !SamePair(existing[j], l);
    forall x | x in existing ensures !Identical(x, l) {
      var j :| 0 <= j < |existing| && existing[j] == x;
    }
  }

  /** The verdict on a lifecycle in terms of what exists. */
  lemma VerdictMeans(l: Lifecycle, lifecycles: seq<Lifecycle>, existing: seq<Instrument>)
    requires l in lifecycles
    ensures var v := Classify(l, lifecycles, existing);
      && (v == Create <==> IsNew(l, existing))
      && (forall id :: v == Update(id) <==> exists i: Instrument ::
                               i.id == id && Sound(l) && Dates(l, i, lifecycles, existing))
      && (forall reason :: v == Unresolved(reason) <==> Reported(l, reason, lifecycles, existing))
  {
    hide Filter, NoneIdentical, TwoIdentical, PairUndated, Dates, CanUpdate;
    IdenticalCounts(l, existing);
    DatedCounts(l, existing);
    if Sound(l) && l.delistedAt.None? {
      OpenVerdict(l, lifecycles, existing);
    } else {
      EndedDatesNothing(l, lifecycles, existing);
    }
  }

  lemma EndedDatesNothing(l: Lifecycle, lifecycles: seq<Lifecycle>, existing: seq<Instrument>)
    requires l.delistedAt.Some? || !Sound(l)
    ensures forall i :: !(Sound(l) && Dates(l, i, lifecycles, existing))
  {
  }

  lemma OpenVerdict(l: Lifecycle, lifecycles: seq<Lifecycle>, existing: seq<Instrument>)
    requires l in lifecycles && Sound(l) && l.delistedAt.None?
    ensures var v := Classify(l, lifecycles, existing);
      && (forall id :: v == Update(id) <==> exists i: Instrument :: i.id == id && Dates(l, i, lifecycles, existing))
      && (v == Unresolved(UnmatchedOrAmbiguousOpenLifecycle) <==>
            NoneIdentical(l, existing) && forall i :: !Dates(l, i, lifecycles, existing))
  {
    hide Filter, NoneIdentical, TwoIdentical, Dates, CanUpdate;
    IdenticalCounts(l, existing);
    var candidates := Filter(existing, InPair(LifePair(l)));
    var free := CanUpdate(PairConflicts(LifePair(l), lifecycles), candidates,
                          |Filter(lifecycles, OpenIn(LifePair(l)))|);
    forall i ensures Dates(l, i, lifecycles, existing) <==> candidates == [i] && free
    {
      UpdateIff(l, i, lifecycles, existing);
    }
    if free {
      OneCandidate(PairConflicts(LifePair(l), lifecycles), candidates, |Filter(lifecycles, OpenIn(LifePair(l)))|);
      DatesNotIdentical(l, candidates[0], lifecycles, existing);
    }
  }

  lemma OneCandidate(conflict: bool, candidates: seq<Instrument>, openCount: nat)
    requires CanUpdate(conflict, candidates, openCount)
    ensures |candidates| == 1 && candidates == [candidates[0]]
  {
  }

  // ---- the plan --------------------------------------------------------

  /** The plan, without the planner: an ended lifecycle is created exactly when nothing
      identical exists and its pair has no dated instrument; an open one dates an
      instrument exactly when both are alone in a pair free of conflicts; every other
      lifecycle that is not there already is reported with the reason that holds. */
  lemma PlanMeans(lifecycles: seq<Lifecycle>, existing: seq<Instrument>)
    ensures var plan := PlanOf(lifecycles, existing);
      && (forall c :: c in plan.creates <==>
            exists l :: l in lifecycles && IsNew(l, existing)
                        && c == IdentityCreate(l.code, l.name, l.market, l.listedAt, l.delistedAt.value))
      && (forall u :: u in plan.updates <==>
            exists l, i :: l in lifecycles && Sound(l) && Dates(l, i, lifecycles, existing)
                           && u == IdentityUpdate(i.id, l.listedAt))
      && (forall r :: r in plan.unresolved <==>
            exists l :: l in lifecycles && Reported(l, r.reason, lifecycles, existing)
                        && r.code == l.code && r.market == l.market && r.listedAt == l.listedAt
                        && r.dates == (if r.reason == ConflictingDelistedAt then l.delistedDates else []))
  {
    hide PlanOf, Dates, Reported, NoneIdentical, PairUndated;
    forall c ensures c in PlanOf(lifecycles, existing).creates <==>
        exists l :: l in lifecycles && IsNew(l, existing)
                    && c == IdentityCreate(l.code, l.name, l.market, l.listedAt, l.delistedAt.value)
    {
      CreateMeans(lifecycles, existing, c);
    }
    forall u ensures u in PlanOf(lifecycles, existing).updates <==>
        exists l, i :: l in lifecycles && Sound(l) && Dates(l, i, lifecycles, existing)
                       && u == IdentityUpdate(i.id, l.listedAt)
    {
      UpdateMeans(lifecycles, existing, u);
    }
    forall r ensures r in PlanOf(lifecycles, existing).unresolved <==>
        exists l :: l in lifecycles && Reported(l, r.reason, lifecycles, existing)
                    && r.code == l.code && r.market == l.market && r.listedAt == l.listedAt
                    && r.dates == (if r.reason == ConflictingDelistedAt then l.delistedDates else [])
    {
      UnresolvedMeans(lifecycles, existing, r);
    }
  }

  lemma CreateMeans(lifecycles: seq<Lifecycle>, existing: seq<Instrument>, c: IdentityCreate)
    ensures c in PlanOf(lifecycles, existing).creates <==>
        exists l :: l in lifecycles && IsNew(l, existing)
                    && c == IdentityCreate(l.code, l.name, l.market, l.listedAt, l.delistedAt.value)
  {
    hide PlanOf, Classify, NoneIdentical, PairUndated, Dates, Reported;
    CreateMembers(lifecycles, existing, c);
    forall l | l in lifecycles ensures Classify(l, lifecycles, existing) == Create <==> IsNew(l, existing) {
      VerdictMeans(l, lifecycles, existing);
    }
  }

  lemma UpdateMeans(lifecycles: seq<Lifecycle>, existing: seq<Instrument>, u: IdentityUpdate)
    ensures u in PlanOf(lifecycles, existing).updates <==>
        exists l, i :: l in lifecycles && Sound(l) && Dates(l, i, lifecycles, existing)
                       && u == IdentityUpdate(i.id, l.listedAt)
  {
    hide PlanOf, Classify, IsNew, Dates, Reported, Sound;
    UpdateMembers(lifecycles, existing, u);
    forall l | l in lifecycles ensures Classify(l, lifecycles, existing) == Update(u.id) <==>
        exists i: Instrument :: i.id == u.id && Sound(l) && Dates(l, i, lifecycles, existing)
    {
      VerdictMeans(l, lifecycles, existing);
    }
  }

  lemma UnresolvedMeans(lifecycles: seq<Lifecycle>, existing: seq<Instrument>, r: UnresolvedRow)
    ensures r in PlanOf(lifecycles, existing).unresolved <==>
        exists l :: l in lifecycles && Reported(l, r.reason, lifecycles, existing)
                    && r.code == l.code && r.market == l.market && r.listedAt == l.listedAt
                    && r.dates == (if r.reason == ConflictingDelistedAt then l.delistedDates else [])
  {
    hide PlanOf, Classify, IsNew, Dates, Reported, Sound;
    UnresolvedMembers(lifecycles, existing, r);
    forall l | l in lifecycles ensures Classify(l, lifecycles, existing) == Unresolved(r.reason) <==>
        Reported(l, r.reason, lifecycles, existing)
    {
      VerdictMeans(l, lifecycles, existing);
    }
  }

  /** The three lists are in the order they are read out: updates by instrument, creates
      by code, market and listing day, unresolved rows by those and then the reason. */
  lemma PlanOrdered(lifecycles: seq<Lifecycle>, existing: seq<Instrument>, j: nat, k: nat)
    requires j < k
    ensures var plan := PlanOf(lifecycles, existing);
      && (k < |plan.updates| ==> plan.updates[j].id <= plan.updates[k].id)
      && (k < |plan.creates| ==> var a, b := plan.creates[j], plan.creates[k];
            a.code < b.code || (a.code == b.code && (a.market < b.market || (a.market == b.market
                                                                             && a.listedAt <= b.listedAt))))
      && (k < |plan.unresolved| ==> var a, b := plan.unresolved[j], plan.unresolved[k];
            a.code < b.code || (a.code == b.code && (a.market < b.market || (a.market == b.market
              && (a.listedAt < b.listedAt || (a.listedAt == b.listedAt
                                              && ReasonRank(a.reason) <= ReasonRank(b.reason)))))))
  {
    hide SortBy, Collect, Updates, Creates, Leftovers;
    var plan := PlanOf(lifecycles, existing);
    if k < |plan.updates| {
      SortedAt(plan.updates, UpdateKey, j, k);
    }
    if k < |plan.creates| {
      SortedAt(plan.creates, CreateKey, j, k);
    }
    if k < |plan.unresolved| {
      SortedAt(plan.unresolved, UnresolvedKey, j, k);
    }
  }
}
