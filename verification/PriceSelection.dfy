/** `select_price_targets`: which codes are priced, market by market, and which
    canonical target each KRX-selected code is attributed to. */
module PriceSelection {
  import opened Common
  import opened Sorting
  import opened Ascent
  import opened PriceTargets
  import Providers = ProviderMappings
  import KrxReconciliation

  datatype NaverTarget = NaverTarget(code: nat, market: nat, symbolType: nat)

  datatype Authority = Krx | NaverLastCompleted

  datatype Fallback = AuthorityNotEnabled | MarketNotInCanary | SnapshotNotCompleted | MappingRateBelowThreshold
                    | ReconciliationNotApproved | EligibleTargetsMissing

  datatype Decision = Decision(authority: Authority, fallback: Option<Fallback>)

  datatype Settings = Settings(krxEnabled: bool, canaryMarkets: set<nat>, threshold: real)

  /** Everything the selection reads, with the targets of one build. */
  datatype Input = Input(settings: Settings, snapshotCompleted: bool, mappingRate: Option<real>, approved: bool,
                         targets: seq<Target>, naver: seq<NaverTarget>)

  datatype Selection = Selection(codes: set<nat>, lineage: map<nat, Target>, decisions: map<nat, Decision>)

  /** `choose_universe_authority`. */
  function ChooseAuthority(input: Input, market: nat): Decision {
    if !input.settings.krxEnabled then Decision(NaverLastCompleted, Some(AuthorityNotEnabled))
    else if market !in input.settings.canaryMarkets then Decision(NaverLastCompleted, Some(MarketNotInCanary))
    else if !input.snapshotCompleted then Decision(NaverLastCompleted, Some(SnapshotNotCompleted))
    else if input.mappingRate.None? || input.mappingRate.value < input.settings.threshold
    then Decision(NaverLastCompleted, Some(MappingRateBelowThreshold))
    else Decision(Krx, None)
  }

  predicate EligibleInMarket(t: Target, market: nat) { t.eligibility == Eligible && t.market == market }

  function EligibleIn(market: nat): Target -> bool { (t: Target) => EligibleInMarket(t, market) }

  function NaverIn(market: nat): NaverTarget -> bool { (n: NaverTarget) => n.market == market }

  function Decide(input: Input, market: nat): Decision {
    var decision := ChooseAuthority(input, market);
    if decision.authority == Krx && !input.approved then Decision(NaverLastCompleted, Some(ReconciliationNotApproved))
    else if decision.authority == Krx && Filter(input.targets, EligibleIn(market)) == []
    then Decision(NaverLastCompleted, Some(EligibleTargetsMissing))
    else decision
  }

  /** The code a target is looked up by; 0 stands for the empty code. */
  function SymbolOf(t: Target): nat { if t.symbol.Some? then t.symbol.value else 0 }

  /** `{target.code: target for ...}`: a later duplicate wins. */
  function ByCode(navers: seq<NaverTarget>): (m: map<nat, NaverTarget>)
    ensures forall c :: c in m ==> m[c] in navers && m[c].code == c
    ensures forall n :: n in navers ==> n.code in m
    decreases |navers|
  {
    if navers == [] then map[]
    else
      var last := navers[|navers| - 1];
      assert navers == navers[..|navers| - 1] + [last];
      ByCode(navers[..|navers| - 1])[last.code := last]
  }

  /** Target `t` of the market is matched to the screen's code `c`, with the same type. */
  predicate Attributed(input: Input, market: nat, t: Target, c: nat) {
    && t in input.targets && EligibleInMarket(t, market) && SymbolOf(t) == c
    && var byCode := ByCode(Filter(input.naver, NaverIn(market)));
       c in byCode && byCode[c].symbolType == t.securityType
  }

  predicate TypeIsAuthoritative(input: Input, market: nat, securityType: nat) {
    exists t :: t in input.targets && EligibleInMarket(t, market) && t.securityType == securityType
  }

  /** What one market contributes. */
  ghost predicate Selected(input: Input, market: nat, c: nat) {
    if Decide(input, market).authority == Krx then
      || (exists t :: Attributed(input, market, t, c))
      || (exists n :: n in input.naver && Adds(input, market, true, n, c))
    else exists n :: n in input.naver && Adds(input, market, false, n, c)
  }

  predicate HasMarket(input: Input, market: nat) { exists n :: n in input.naver && n.market == market }

  // ---- the per-market loop ---------------------------------------------

  ghost predicate AttributedAmong(input: Input, market: nat, part: seq<Target>, c: nat) {
    exists t :: t in part && Attributed(input, market, t, c)
  }

  lemma AmongNext(input: Input, market: nat, part: seq<Target>, t: Target, c: nat)
    ensures AttributedAmong(input, market, part + [t], c)
       <==> AttributedAmong(input, market, part, c) || Attributed(input, market, t, c)
  {
    hide Attributed;
    assert forall x :: x in part + [t] <==> x in part || x == t;
  }

  lemma AmongEligible(input: Input, market: nat, c: nat)
    ensures AttributedAmong(input, market, Filter(input.targets, EligibleIn(market)), c)
       <==> exists t :: Attributed(input, market, t, c)
  {
    forall t | Attributed(input, market, t, c) ensures t in Filter(input.targets, EligibleIn(market)) {
    }
  }

  lemma NoneAmong(input: Input, market: nat)
    ensures forall c :: !AttributedAmong(input, market, [], c)
  {
  }

  predicate Matches(input: Input, market: nat, t: Target) {
    var byCode := ByCode(Filter(input.naver, NaverIn(market)));
    SymbolOf(t) in byCode && byCode[SymbolOf(t)].symbolType == t.securityType
  }

  lemma AttributedIff(input: Input, market: nat, t: Target, c: nat)
    requires t in Filter(input.targets, EligibleIn(market))
    ensures Attributed(input, market, t, c) <==> Matches(input, market, t) && c == SymbolOf(t)
  {
  }

  /** The sets after attributing the targets of `part`. */
  ghost predicate AfterPart(input: Input, market: nat, codes0: set<nat>, lineage0: map<nat, Target>, part: seq<Target>,
                            codes: set<nat>, lineage: map<nat, Target>)
  {
    && (forall c :: c in codes <==> c in codes0 || AttributedAmong(input, market, part, c))
    && (forall c :: c in lineage <==> c in lineage0 || AttributedAmong(input, market, part, c))
    && (forall c :: c in lineage ==>
          Attributed(input, market, lineage[c], c) || (c in lineage0 && lineage[c] == lineage0[c]))
  }

  lemma AfterNext(input: Input, market: nat, codes0: set<nat>, lineage0: map<nat, Target>, part: seq<Target>,
                  codes: set<nat>, lineage: map<nat, Target>, t: Target)
    requires AfterPart(input, market, codes0, lineage0, part, codes, lineage)
    requires t in Filter(input.targets, EligibleIn(market))
    ensures if Matches(input, market, t)
      then AfterPart(input, market, codes0, lineage0, part + [t], codes + {SymbolOf(t)}, lineage[SymbolOf(t) := t])
      else AfterPart(input, market, codes0, lineage0, part + [t], codes, lineage)
  {
    hide Attributed, AttributedAmong, Matches, SymbolOf, EligibleIn, Filter;
    forall c
      ensures Attributed(input, market, t, c) <==> Matches(input, market, t) && c == SymbolOf(t)
      ensures AttributedAmong(input, market, part + [t], c)
         <==> AttributedAmong(input, market, part, c) || Attributed(input, market, t, c)
    {
      AttributedIff(input, market, t, c);
      AmongNext(input, market, part, t, c);
    }
  }

  lemma BeforeParts(input: Input, market: nat, codes0: set<nat>, lineage0: map<nat, Target>)
    ensures AfterPart(input, market, codes0, lineage0, [], codes0, lineage0)
  {
    NoneAmong(input, market);
    hide AttributedAmong, Attributed;
  }

  lemma AfterAll(input: Input, market: nat, codes0: set<nat>, lineage0: map<nat, Target>, codes: set<nat>,
                 lineage: map<nat, Target>)
    requires AfterPart(input, market, codes0, lineage0, Filter(input.targets, EligibleIn(market)), codes, lineage)
    ensures forall c :: c in codes <==> c in codes0 || exists t :: Attributed(input, market, t, c)
    ensures forall c :: c in lineage <==> c in lineage0 || exists t :: Attributed(input, market, t, c)
    ensures forall c :: c in lineage ==>
              Attributed(input, market, lineage[c], c) || (c in lineage0 && lineage[c] == lineage0[c])
  {
    hide AttributedAmong, Attributed, Filter, EligibleIn;
    var eligible := Filter(input.targets, EligibleIn(market));
    forall c ensures AttributedAmong(input, market, eligible, c) <==> exists t :: Attributed(input, market, t, c) {
      AmongEligible(input, market, c);
    }
  }

  /** The eligible targets of a market, attributed in turn. */
  method AttributeTargets(input: Input, market: nat, codes0: set<nat>, lineage0: map<nat, Target>)
    returns (codes: set<nat>, lineage: map<nat, Target>)
    ensures forall c :: c in codes <==> c in codes0 || exists t :: Attributed(input, market, t, c)
    ensures forall c :: c in lineage <==> c in lineage0 || exists t :: Attributed(input, market, t, c)
    ensures forall c :: c in lineage ==>
            Attributed(input, market, lineage[c], c) || (c in lineage0 && lineage[c] == lineage0[c])
  {
    hide Attributed, Matches, AfterPart, Filter, EligibleIn;
    var eligible := Filter(input.targets, EligibleIn(market));
    codes, lineage := codes0, lineage0;
    BeforeParts(input, market, codes0, lineage0);
    var k := 0;
    assert eligible[..0] == [];
    while k < |eligible|
      invariant 0 <= k <= |eligible|
      invariant AfterPart(input, market, codes0, lineage0, eligible[..k], codes, lineage)
    {
      var t := eligible[k];
      assert eligible[..k + 1] == eligible[..k] + [t];
      AfterNext(input, market, codes0, lineage0, eligible[..k], codes, lineage, t);
      if Matches(input, market, t) {
        codes := codes + {SymbolOf(t)};
        lineage := lineage[SymbolOf(t) := t];
      }
      k := k + 1;
    }
    assert eligible[..k] == eligible;
    AfterAll(input, market, codes0, lineage0, codes, lineage);
  }

  /** A listed code that is added: any, or one of a type the targets do not cover. */
  predicate Adds(input: Input, market: nat, uncoveredOnly: bool, n: NaverTarget, c: nat) {
    n.market == market && n.code == c && !(uncoveredOnly && TypeIsAuthoritative(input, market, n.symbolType))
  }

  method AddListing(input: Input, market: nat, uncoveredOnly: bool, codes0: set<nat>) returns (codes: set<nat>)
    ensures forall c :: c in codes
              <==> c in codes0 || exists n :: n in input.naver && Adds(input, market, uncoveredOnly, n, c)
  {
    codes := codes0;
    var k := 0;
    while k < |input.naver|
      invariant 0 <= k <= |input.naver|
      invariant forall c :: c in codes
                  <==> c in codes0 || exists n :: n in input.naver[..k] && Adds(input, market, uncoveredOnly, n, c)
    {
      var n := input.naver[k];
      assert input.naver[..k + 1] == input.naver[..k] + [n];
      assert forall c :: Adds(input, market, uncoveredOnly, n, c) ==> c == n.code;
      hide Adds;
      if Adds(input, market, uncoveredOnly, n, n.code) {
        codes := codes + {n.code};
      }
      k := k + 1;
    }
    assert input.naver[..k] == input.naver;
  }

  method SelectMarket(input: Input, market: nat, before: Selection) returns (after: Selection)
    ensures forall c :: c in after.codes <==> c in before.codes || Selected(input, market, c)
    ensures forall c :: c in after.lineage <==> c in before.lineage || KrxAttributed(input, market, c)
    ensures forall c :: c in after.lineage ==>
              || (Decide(input, market).authority == Krx && Attributed(input, market, after.lineage[c], c))
              || (c in before.lineage && after.lineage[c] == before.lineage[c])
    ensures after.decisions == before.decisions[market := Decide(input, market)]
  {
    var decision := Decide(input, market);
    hide Decide, Attributed, Adds;
    var codes, lineage := before.codes, before.lineage;
    if decision.authority == Krx {
      codes, lineage := AttributeTargets(input, market, codes, lineage);
    }
    codes := AddListing(input, market, decision.authority == Krx, codes);
    after := Selection(codes, lineage, before.decisions[market := decision]);
  }

  ghost predicate KrxAttributed(input: Input, market: nat, c: nat) {
    Decide(input, market).authority == Krx && exists t :: Attributed(input, market, t, c)
  }

  function Markets(navers: seq<NaverTarget>): (r: seq<nat>)
    ensures forall m :: m in r <==> exists n :: n in navers && n.market == m
  {
    if navers == [] then []
    else
      assert navers == [navers[0]] + navers[1..];
      [navers[0].market] + Markets(navers[1..])
  }

  /** The whole selection: a code is selected, and attributed, exactly when some
      market of the listing selects, and attributes, it. */
  method SelectPriceTargets(input: Input) returns (s: Selection)
    ensures forall c :: c in s.codes <==> exists m :: HasMarket(input, m) && Selected(input, m, c)
    ensures forall c :: c in s.lineage <==> exists m :: HasMarket(input, m) && KrxAttributed(input, m, c)
    ensures forall c :: c in s.lineage ==> exists m :: HasMarket(input, m) && Decide(input, m).authority == Krx
                                                       && Attributed(input, m, s.lineage[c], c)
    ensures forall m :: m in s.decisions <==> HasMarket(input, m)
    ensures forall m :: m in s.decisions ==> s.decisions[m] == Decide(input, m)
  {
    hide Selected, KrxAttributed, Attributed, Decide, Ascending;
    var markets := SortedDistinct(Markets(input.naver));
    assert forall m :: m in markets <==> HasMarket(input, m);
    hide HasMarket;
    s := Selection({}, map[], map[]);
    var k := 0;
    while k < |markets|
      invariant 0 <= k <= |markets|
      invariant forall c :: c in s.codes <==> exists m :: m in markets[..k] && Selected(input, m, c)
      invariant forall c :: c in s.lineage <==> exists m :: m in markets[..k] && KrxAttributed(input, m, c)
      invariant forall c :: c in s.lineage ==> exists m :: m in markets[..k] && Decide(input, m).authority == Krx
                                                           && Attributed(input, m, s.lineage[c], c)
      invariant forall m :: m in s.decisions <==> m in markets[..k]
      invariant forall m :: m in s.decisions ==> s.decisions[m] == Decide(input, m)
    {
      assert markets[..k + 1] == markets[..k] + [markets[k]];
      s := SelectMarket(input, markets[k], s);
      k := k + 1;
    }
    assert markets[..k] == markets;
  }

  // ---- nothing is overwritten ------------------------------------------

  /** Two targets are attributed to one code only if they are the same target. */
  lemma AttributionUnique(t: Tables, members: seq<Member>, nextId: nat, input: Input, m: nat, m': nat, a: Target,
                          b: Target, c: nat)
    requires DistinctKeys(members, MemberCode) && KrxReconciliation.ValidIds(t.instruments, nextId)
    requires Providers.Exclusive(t.mappings) && input.targets == Targets(t, members)
    requires Attributed(input, m, a, c) && Attributed(input, m', b, c)
    ensures a == b && m == m'
  {
    var j :| 0 <= j < |input.targets| && input.targets[j] == a;
    var k :| 0 <= k < |input.targets| && input.targets[k] == b;
    hide Attributed, ByCode;
    EligibleHasSymbol(t, members[j]);
    EligibleHasSymbol(t, members[k]);
    EligibleSymbolsDistinct(t, members, nextId, j, k, c);
  }

  lemma EligibleHasSymbol(t: Tables, m: Member)
    requires TargetOf(t, m).eligibility == Eligible
    ensures TargetOf(t, m).symbol.Some?
  {
    EligibleMeans(t, m);
  }

  /** In the finished selection the entry of every attributed code is the one target
      attributed to it, in whatever market: no entry was overwritten. */
  lemma NothingOverwritten(t: Tables, requests: seq<Providers.Request>, members: seq<Member>, nextId: nat, input: Input,
                           s: Selection, m: nat, a: Target, c: nat)
    requires DistinctKeys(members, MemberCode) && KrxReconciliation.ValidIds(t.instruments, nextId)
    requires t.mappings == Providers.AddAll([], requests) && input.targets == Targets(t, members)
    requires c in s.lineage
    requires exists m' ::
               HasMarket(input, m') && Decide(input, m').authority == Krx && Attributed(input, m', s.lineage[c], c)
    requires Attributed(input, m, a, c)
    ensures s.lineage[c] == a
  {
    hide Attributed, HasMarket, Decide;
    Providers.CodesStayExclusive(requests);
    var m' :| HasMarket(input, m') && Decide(input, m').authority == Krx && Attributed(input, m', s.lineage[c], c);
    AttributionUnique(t, members, nextId, input, m, m', a, s.lineage[c], c);
  }

  predicate IsListed(input: Input, market: nat, c: nat) {
    exists n :: n in input.naver && n.market == market && n.code == c
  }

  /** Only codes of the market's own listing are ever selected, and a market that
      falls back keeps all of them. */
  lemma SelectionWithinListing(input: Input, market: nat, c: nat)
    ensures Selected(input, market, c) ==> IsListed(input, market, c)
    ensures Decide(input, market).authority == NaverLastCompleted ==>
              (Selected(input, market, c) <==> IsListed(input, market, c))
  {
    if Decide(input, market).authority == Krx {
      forall t | Attributed(input, market, t, c) ensures IsListed(input, market, c) {
        var byCode := ByCode(Filter(input.naver, NaverIn(market)));
        assert byCode[c] in Filter(input.naver, NaverIn(market));
      }
    } else if IsListed(input, market, c) {
      var n :| n in input.naver && n.market == market && n.code == c;
      assert Adds(input, market, false, n, c);
    }
  }

  // ---- in plain terms --------------------------------------------------

  /** An eligible target of the market. */
  predicate HasEligible(input: Input, market: nat) {
    exists t :: t in input.targets && t.eligibility == Eligible && t.market == market
  }

  predicate RateSuffices(input: Input) {
    input.mappingRate.Some? && !(input.mappingRate.value < input.settings.threshold)
  }

  /** The KRX snapshot decides a market exactly when all six conditions hold; otherwise the
      screen's last listing does, and the reason is the first condition that fails. */
  lemma DecisionMeans(input: Input, market: nat)
    ensures var d := Decide(input, market);
      var switched, canary := input.settings.krxEnabled, market in input.settings.canaryMarkets;
      var complete, mapped := input.snapshotCompleted, RateSuffices(input);
      && (d.authority == Krx <==>
            switched && canary && complete && mapped && input.approved && HasEligible(input, market))
      && (d.fallback == None <==> d.authority == Krx)
      && (d.fallback == Some(AuthorityNotEnabled) <==> !switched)
      && (d.fallback == Some(MarketNotInCanary) <==> switched && !canary)
      && (d.fallback == Some(SnapshotNotCompleted) <==> switched && canary && !complete)
      && (d.fallback == Some(MappingRateBelowThreshold) <==> switched && canary && complete && !mapped)
      && (d.fallback == Some(ReconciliationNotApproved) <==>
            switched && canary && complete && mapped && !input.approved)
  {
    NoneFiltered(input.targets, EligibleIn(market));
    hide Filter;
  }

  /** The last row of the market's listing with the code. */
  ghost predicate LastListed(navers: seq<NaverTarget>, market: nat, c: nat, n: NaverTarget) {
    exists k :: 0 <= k < |navers| && navers[k] == n && n.market == market && n.code == c
                && forall j :: k < j < |navers| ==> !(navers[j].market == market && navers[j].code == c)
  }

  lemma LastListedNext(navers: seq<NaverTarget>, x: NaverTarget, market: nat, c: nat, n: NaverTarget)
    ensures LastListed(navers + [x], market, c, n)
       <==> if x.market == market && x.code == c then n == x else LastListed(navers, market, c, n)
  {
    var all := navers + [x];
    if LastListed(navers, market, c, n) && !(x.market == market && x.code == c) {
      var k :| 0 <= k < |navers| && navers[k] == n && n.market == market && n.code == c
               && forall j :: k < j < |navers| ==> !(navers[j].market == market && navers[j].code == c);
      assert all[k] == n;
    }
    if x.market == market && x.code == c {
      assert all[|navers|] == x;
    }
    if LastListed(all, market, c, n) {
      var k :| 0 <= k < |all| && all[k] == n && n.market == market && n.code == c
               && forall j :: k < j < |all| ==> !(all[j].market == market && all[j].code == c);
      assert all[|navers|] == x;
      if k < |navers| {
        assert navers[k] == n && forall j :: k < j < |navers| ==> navers[j] == all[j];
      }
    }
  }

  lemma {:induction false} ByCodeIsLast(navers: seq<NaverTarget>, market: nat, c: nat, n: NaverTarget)
    ensures var byCode := ByCode(Filter(navers, NaverIn(market)));
      (c in byCode && byCode[c] == n) <==> LastListed(navers, market, c, n)
    decreases |navers|
  {
    if navers != [] {
      var front, x := navers[..|navers| - 1], navers[|navers| - 1];
      assert navers == front + [x];
      ByCodeIsLast(front, market, c, n);
      LastListedNext(front, x, market, c, n);
      FilterAppend(front, [x], NaverIn(market));
      var rows := Filter(front, NaverIn(market));
      assert (rows + [x])[..|rows|] == rows && rows + [] == rows;
      hide LastListed;
    }
  }

  /** An eligible target of the market that goes by the code; a target without one goes by 0. */
  predicate GoesBy(input: Input, market: nat, t: Target, c: nat) {
    && t in input.targets && t.eligibility == Eligible && t.market == market
    && c == (if t.symbol.Some? then t.symbol.value else 0)
  }

  lemma AttributedMeans(input: Input, market: nat, t: Target, c: nat)
    ensures Attributed(input, market, t, c) <==>
        GoesBy(input, market, t, c)
        && exists n :: LastListed(input.naver, market, c, n) && n.symbolType == t.securityType
  {
    var byCode := ByCode(Filter(input.naver, NaverIn(market)));
    hide LastListed;
    forall n ensures (c in byCode && byCode[c] == n) <==> LastListed(input.naver, market, c, n) {
      ByCodeIsLast(input.naver, market, c, n);
    }
    hide ByCode, Filter;
  }

  /** The codes of a market: decided by the screen, its whole listing; decided by KRX, the
      listed codes an eligible target of the same type goes by, and the listed codes of the
      types no eligible target has. */
  lemma SelectionMeans(input: Input, market: nat, c: nat)
    ensures Selected(input, market, c) <==>
        if Decide(input, market).authority == Krx then
          || (exists t, n :: GoesBy(input, market, t, c) && LastListed(input.naver, market, c, n)
                             && n.symbolType == t.securityType)
          || (exists n :: n in input.naver && n.market == market && n.code == c
                          && forall t :: t in input.targets && t.eligibility == Eligible && t.market == market ==>
                               t.securityType != n.symbolType)
        else exists n :: n in input.naver && n.market == market && n.code == c
  {
    hide Attributed, GoesBy, LastListed, Decide;
    forall t ensures Attributed(input, market, t, c) <==>
        GoesBy(input, market, t, c)
        && exists n :: LastListed(input.naver, market, c, n) && n.symbolType == t.securityType
    {
      AttributedMeans(input, market, t, c);
    }
  }
}
