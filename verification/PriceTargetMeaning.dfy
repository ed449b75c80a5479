/** What a dated price target says, in terms of the rows it is resolved from. */
module PriceTargetMeaning {
  import opened Common
  import opened Sorting
  import opened KrxPlanner
  import opened PriceTargets
  import Providers = ProviderMappings

  /** The instrument is listed under the code on the day. */
  predicate Trades(i: Instrument, code: nat, day: Date) {
    && i.code == code && i.status != Delisted
    && !(i.listedAt.Some? && day < i.listedAt.value) && !(i.delistedAt.Some? && i.delistedAt.value <= day)
  }

  /** `i` is the one instrument that trades under the code, at one place of the table. */
  ghost predicate Resolves(t: Tables, code: nat, i: Instrument) {
    exists k :: 0 <= k < |t.instruments| && t.instruments[k] == i && Trades(i, code, t.day)
                && forall j :: 0 <= j < |t.instruments| && j != k ==> !Trades(t.instruments[j], code, t.day)
  }

  predicate Contains(from: Option<Date>, to: Option<Date>, day: Date) {
    !(from.Some? && day < from.value) && !(to.Some? && to.value <= day)
  }

  /** A row from later on, or from the same day on and entered later, comes before. */
  predicate Precedes(from: Option<Date>, id: nat, otherFrom: Option<Date>, otherId: nat) {
    var a, b := if from.Some? then from.value else 0, if otherFrom.Some? then otherFrom.value else 0;
    a < b || (a == b && id <= otherId)
  }

  predicate MapsInstrument(t: Tables, m: Providers.Mapping, id: nat) {
    && m in t.mappings && m.instrumentId == id && m.provider == t.provider && m.status == Providers.Matched
    && Contains(m.validFrom, m.validTo, t.day)
  }

  /** The newest mapping of the instrument at the provider that holds on the day. */
  ghost predicate CurrentMapping(t: Tables, m: Providers.Mapping, id: nat) {
    && MapsInstrument(t, m, id)
    && forall o :: MapsInstrument(t, o, id) ==> Precedes(o.validFrom, o.id, m.validFrom, m.id)
  }

  predicate Excludes(t: Tables, e: Exclusion, id: nat) {
    e in t.exclusions && e.instrumentId == id && e.priceScope && Contains(e.validFrom, e.validTo, t.day)
  }

  ghost predicate CurrentExclusion(t: Tables, e: Exclusion, id: nat) {
    && Excludes(t, e, id)
    && forall o :: Excludes(t, o, id) ==> Precedes(o.validFrom, o.id, e.validFrom, e.id)
  }

  lemma TradesIff(t: Tables, code: nat, i: Instrument)
    ensures ActiveWithCode(t.day)(code)(i) <==> Trades(i, code, t.day)
  {
    assert ActiveWithCode(t.day)(code)(i) <==> i.code == code && ActiveOn(i, t.day);
  }

  lemma MapsIff(t: Tables, m: Providers.Mapping, id: nat)
    ensures m in Filter(Filter(t.mappings, CurrentMappingOn(t)), OwnedBy(MappingOwner, id))
       <==> MapsInstrument(t, m, id)
  {
    assert CurrentMappingOn(t)(m) <==> m.provider == t.provider && m.status == Providers.Matched
                                       && Providers.Covers(m.validFrom, m.validTo, t.day);
    assert OwnedBy(MappingOwner, id)(m) <==> m.instrumentId == id;
  }

  lemma ExcludesIff(t: Tables, e: Exclusion, id: nat)
    ensures e in Filter(Filter(t.exclusions, CurrentExclusionOn(t)), OwnedBy(ExclusionOwner, id))
            <==> Excludes(t, e, id)
  {
    assert CurrentExclusionOn(t)(e) <==> InForce(t, e);
    assert OwnedBy(ExclusionOwner, id)(e) <==> e.instrumentId == id;
  }

  lemma ResolvesIff(t: Tables, code: nat, i: Instrument)
    ensures InstrumentFor(t, code) == Some(i) <==> Resolves(t, code, i)
  {
    var p := ActiveWithCode(t.day)(code);
    OneFilteredAt(t.instruments, p, i);
    forall x: Instrument ensures p(x) <==> Trades(x, code, t.day) {
      TradesIff(t, code, x);
    }
    var rows := Filter(t.instruments, p);
    assert |rows| == 1 ==> rows == [rows[0]];
    hide Filter, ActiveOn, Trades;
  }

  lemma KeysOrder(m: Providers.Mapping, o: Providers.Mapping)
    requires m.instrumentId == o.instrumentId
    ensures Le(MappingKey(o), MappingKey(m)) <==> Precedes(o.validFrom, o.id, m.validFrom, m.id)
  {
  }

  lemma MappingIff(t: Tables, id: nat, m: Providers.Mapping)
    requires KeyIdentifies(t.mappings, MappingKey)
    ensures MappingFor(t, id) == Some(m) <==> CurrentMapping(t, m, id)
  {
    var rows := Filter(Filter(t.mappings, CurrentMappingOn(t)), OwnedBy(MappingOwner, id));
    forall o ensures o in rows <==> MapsInstrument(t, o, id) {
      MapsIff(t, o, id);
    }
    forall o | MapsInstrument(t, o, id) && MapsInstrument(t, m, id)
      ensures Le(MappingKey(o), MappingKey(m)) <==> Precedes(o.validFrom, o.id, m.validFrom, m.id)
    {
      KeysOrder(m, o);
    }
    hide Filter, MapsInstrument, Precedes;
    if CurrentMapping(t, m, id) {
      NewestUnique(rows, MappingKey, m);
    }
  }

  lemma ExclusionsOrder(m: Exclusion, o: Exclusion)
    requires m.instrumentId == o.instrumentId
    ensures Le(ExclusionKey(o), ExclusionKey(m)) <==> Precedes(o.validFrom, o.id, m.validFrom, m.id)
  {
  }

  lemma ExclusionIff(t: Tables, id: nat, e: Exclusion)
    requires KeyIdentifies(t.exclusions, ExclusionKey)
    ensures ExclusionFor(t, id) == Some(e) <==> CurrentExclusion(t, e, id)
  {
    var rows := Filter(Filter(t.exclusions, CurrentExclusionOn(t)), OwnedBy(ExclusionOwner, id));
    forall o ensures o in rows <==> Excludes(t, o, id) {
      ExcludesIff(t, o, id);
    }
    forall o | Excludes(t, o, id) && Excludes(t, e, id)
      ensures Le(ExclusionKey(o), ExclusionKey(e)) <==> Precedes(o.validFrom, o.id, e.validFrom, e.id)
    {
      ExclusionsOrder(e, o);
    }
    hide Filter, Excludes, Precedes;
    if CurrentExclusion(t, e, id) {
      NewestUnique(rows, ExclusionKey, e);
    }
  }

  /** The eligibility of a member whose instrument is resolved. */
  ghost predicate Judged(t: Tables, m: Member, i: Instrument, e: Eligibility) {
    match e
    case ExcludedByStatus(status) => i.status == status != Listed
    case Excluded(reason) => i.status == Listed && exists x :: CurrentExclusion(t, x, i.id) && x.reason == reason
    case ExpectedNoTrade => i.status == Listed && m.halted && forall x :: !Excludes(t, x, i.id)
    case ProviderSymbolUnavailable =>
      i.status == Listed && !m.halted && (forall x :: !Excludes(t, x, i.id)) && forall p :: !MapsInstrument(t, p, i.id)
    case Eligible =>
      i.status == Listed && !m.halted && (forall x :: !Excludes(t, x, i.id)) && exists p :: MapsInstrument(t, p, i.id)
    case InstrumentUnresolved => false
  }

  lemma SomeNewest(t: Tables, id: nat)
    ensures MappingFor(t, id).None? <==> forall p :: !MapsInstrument(t, p, id)
    ensures ExclusionFor(t, id).None? <==> forall x :: !Excludes(t, x, id)
  {
    var rows := Filter(Filter(t.mappings, CurrentMappingOn(t)), OwnedBy(MappingOwner, id));
    var out := Filter(Filter(t.exclusions, CurrentExclusionOn(t)), OwnedBy(ExclusionOwner, id));
    forall p ensures p in rows <==> MapsInstrument(t, p, id) {
      MapsIff(t, p, id);
    }
    forall x ensures x in out <==> Excludes(t, x, id) {
      ExcludesIff(t, x, id);
    }
    hide Filter, MapsInstrument, Excludes;
    assert rows != [] ==> rows[0] in rows;
    assert out != [] ==> out[0] in out;
  }

  /** A target repeats its member's code, market and type; it names an instrument exactly if
      one alone trades under the code that day, and then the provider's code from the newest
      mapping that holds; and the first reason that applies decides its eligibility. */
  lemma TargetMeans(t: Tables, m: Member)
    requires KeyedTables(t)
    ensures var target := TargetOf(t, m);
      && target.code == m.code && target.market == m.market && target.securityType == m.securityType
      && (target.eligibility == InstrumentUnresolved <==> forall i :: !Resolves(t, m.code, i))
      && (target.instrumentId.None? <==> forall i :: !Resolves(t, m.code, i))
      && (forall i :: Resolves(t, m.code, i) ==>
            && target.instrumentId == Some(i.id) && Judged(t, m, i, target.eligibility)
            && (target.symbol.None? <==> forall p :: !MapsInstrument(t, p, i.id))
            && (forall p :: CurrentMapping(t, p, i.id) ==> target.symbol == Some(p.symbol)))
  {
    hide InstrumentFor, MappingFor, ExclusionFor, Resolves, CurrentMapping, CurrentExclusion, MapsInstrument, Excludes;
    forall i ensures InstrumentFor(t, m.code) == Some(i) <==> Resolves(t, m.code, i) {
      ResolvesIff(t, m.code, i);
    }
    if InstrumentFor(t, m.code).Some? {
      var i := InstrumentFor(t, m.code).value;
      SomeNewest(t, i.id);
      forall p ensures MappingFor(t, i.id) == Some(p) <==> CurrentMapping(t, p, i.id) {
        MappingIff(t, i.id, p);
      }
      forall x ensures ExclusionFor(t, i.id) == Some(x) <==> CurrentExclusion(t, x, i.id) {
        ExclusionIff(t, i.id, x);
      }
    }
  }
}
