/** Applying an identity plan, and planning again afterwards. */
module KrxReconciliation {
  import opened Common
  import opened Sorting
  import opened Gathering
  import opened KrxLifecycles
  import opened KrxPlanner

  function IdKey(i: Instrument): Key { (i.id, 0, 0) }

  /** The date an update list gives an instrument; a later entry wins. */
  function DateFor(updates: seq<IdentityUpdate>, id: nat): Option<Date>
    decreases |updates|
  {
    if updates == [] then None
    else if updates[|updates| - 1].id == id then Some(updates[|updates| - 1].listedAt)
    else DateFor(updates[..|updates| - 1], id)
  }

  function Redated(i: Instrument, updates: seq<IdentityUpdate>): Instrument {
    match DateFor(updates, i.id)
    case Some(d) => i.(listedAt := Some(d))
    case None => i
  }

  function Overlay(rows: seq<Instrument>, updates: seq<IdentityUpdate>): (r: seq<Instrument>)
    ensures |r| == |rows| && forall k :: 0 <= k < |r| ==> r[k] == Redated(rows[k], updates)
  {
    seq(|rows|, k requires 0 <= k < |rows| => Redated(rows[k], updates))
  }

  function NewRow(c: IdentityCreate, id: nat): Instrument {
    Instrument(id, c.code, c.market, Some(c.listedAt), Some(c.delistedAt), Delisted)
  }

  function Inserted(creates: seq<IdentityCreate>, nextId: nat): (r: seq<Instrument>)
    ensures |r| == |creates| && forall k :: 0 <= k < |r| ==> r[k] == NewRow(creates[k], nextId + k)
  {
    seq(|creates|, k requires 0 <= k < |creates| => NewRow(creates[k], nextId + k))
  }

  /** The instruments after a plan has been applied. */
  function Applied(rows: seq<Instrument>, plan: Plan, nextId: nat): seq<Instrument> {
    Overlay(rows, plan.updates) + Inserted(plan.creates, nextId)
  }

  predicate Undated(i: Instrument) { i.listedAt.None? && i.delistedAt.None? }

  ghost predicate NamesUndated(rows: seq<Instrument>, u: IdentityUpdate) {
    exists i :: i in rows && i.id == u.id && Undated(i)
  }

  /** The updates the apply step goes through without raising. */
  ghost predicate Applicable(rows: seq<Instrument>, updates: seq<IdentityUpdate>) {
    && DistinctKeys(updates, UpdateKey)
    && forall u :: u in updates ==> NamesUndated(rows, u)
  }

  ghost predicate ValidIds(rows: seq<Instrument>, nextId: nat) {
    && DistinctKeys(rows, IdKey)
    && forall i :: i in rows ==> i.id < nextId
  }

  lemma SameId(rows: seq<Instrument>, nextId: nat, j: nat, k: nat)
    requires ValidIds(rows, nextId) && j < |rows| && k < |rows| && rows[j].id == rows[k].id
    ensures j == k
  {
    if j < k {
      DistinctAt(rows, IdKey, j, k);
    } else if k < j {
      DistinctAt(rows, IdKey, k, j);
    }
  }

  lemma {:induction false} DateForMember(updates: seq<IdentityUpdate>, id: nat, d: Date)
    requires DistinctKeys(updates, UpdateKey)
    ensures DateFor(updates, id) == Some(d) <==> IdentityUpdate(id, d) in updates
    decreases |updates|
  {
    if updates != [] {
      var front, last := updates[..|updates| - 1], updates[|updates| - 1];
      assert updates == front + [last];
      DistinctAppend(front, last, UpdateKey);
      DateForMember(front, id, d);
      assert IdentityUpdate(id, d) in front ==> last.id != id;
    }
  }

  lemma {:induction false} DateForNone(updates: seq<IdentityUpdate>, id: nat)
    ensures DateFor(updates, id).None? <==> forall u :: u in updates ==> u.id != id
    decreases |updates|
  {
    if updates != [] {
      assert updates == updates[..|updates| - 1] + [updates[|updates| - 1]];
      DateForNone(updates[..|updates| - 1], id);
    }
  }

  // ---- the apply step --------------------------------------------------

  lemma OverlayNext(rows: seq<Instrument>, nextId: nat, front: seq<IdentityUpdate>, u: IdentityUpdate, k: nat)
    requires ValidIds(rows, nextId) && k < |rows| && rows[k].id == u.id
    ensures Overlay(rows, front)[k := Overlay(rows, front)[k].(listedAt := Some(u.listedAt))]
            == Overlay(rows, front + [u])
  {
    assert (front + [u])[..|front + [u]| - 1] == front;
    forall j | 0 <= j < |rows| ensures j != k ==> rows[j].id != u.id {
      if rows[j].id == u.id {
        SameId(rows, nextId, j, k);
      }
    }
    hide ValidIds;
  }

  lemma ApplicableNext(rows: seq<Instrument>, nextId: nat, front: seq<IdentityUpdate>, u: IdentityUpdate, k: nat)
    requires ValidIds(rows, nextId) && k < |rows| && rows[k].id == u.id && Applicable(rows, front)
    ensures Applicable(rows, front + [u]) <==> Undated(Overlay(rows, front)[k])
  {
    DistinctAppend(front, u, UpdateKey);
    DateForNone(front, u.id);
    forall i | i in rows && i.id == u.id ensures i == rows[k] {
      var j :| 0 <= j < |rows| && rows[j] == i;
      SameId(rows, nextId, j, k);
    }
    hide ValidIds;
    assert NamesUndated(rows, u) <==> Undated(rows[k]);
    assert forall w :: w in front + [u] <==> w in front || w == u;
    if exists w :: w in front && w.id == u.id {
      assert DateFor(front, u.id).Some?;
    } else {
      assert Overlay(rows, front)[k] == rows[k];
    }
  }

  lemma UnknownNotApplicable(rows: seq<Instrument>, front: seq<IdentityUpdate>, u: IdentityUpdate)
    requires forall i :: i in rows ==> i.id != u.id
    ensures !Applicable(rows, front + [u])
  {
    assert u in front + [u];
  }

  lemma {:induction false} PrefixApplicable(rows: seq<Instrument>, front: seq<IdentityUpdate>,
                                            rest: seq<IdentityUpdate>)
    requires Applicable(rows, front + rest)
    ensures Applicable(rows, front)
    decreases |rest|
  {
    if rest == [] {
      assert front + rest == front;
    } else {
      var shorter := rest[..|rest| - 1];
      assert front + rest == (front + shorter) + [rest[|rest| - 1]];
      DistinctAppend(front + shorter, rest[|rest| - 1], UpdateKey);
      PrefixApplicable(rows, front, shorter);
    }
  }

  class InstrumentTable {
    var rows: seq<Instrument>
    var nextId: nat

    ghost predicate Valid()
      reads this
    {
      ValidIds(rows, nextId)
    }

    /** `session.get(Instrument, id)`. */
    method Get(id: nat) returns (k: nat)
      ensures k <= |rows|
      ensures k < |rows| ==> rows[k].id == id
      ensures k == |rows| ==> forall i :: i in rows ==> i.id != id
    {
      k := 0;
      while k < |rows| && rows[k].id != id
        invariant k <= |rows|
        invariant forall i :: i in rows[..k] ==> i.id != id
      {
        assert rows[..k + 1] == rows[..k] + [rows[k]];
        k := k + 1;
      }
      assert rows[..|rows|] == rows;
    }

    /** The `--apply` block in one session scope: an error leaves the table as it
        was, and none is raised exactly on an applicable plan. */
    method Apply(plan: Plan) returns (ok: bool)
      requires Valid()
      modifies this
      ensures ok <==> Applicable(old(rows), plan.updates)
      ensures ok ==> rows == Applied(old(rows), plan, old(nextId)) && nextId == old(nextId) + |plan.creates|
      ensures !ok ==> rows == old(rows) && nextId == old(nextId)
    {
      hide ValidIds, Applicable;
      ghost var before := rows;
      var saved := rows;
      NothingToDate(rows);
      var i := 0;
      while i < |plan.updates|
        invariant 0 <= i <= |plan.updates| && nextId == old(nextId) && saved == old(rows)
        invariant rows == Overlay(before, plan.updates[..i])
        invariant Applicable(before, plan.updates[..i])
      {
        var u := plan.updates[i];
        assert plan.updates[..i + 1] == plan.updates[..i] + [u];
        assert plan.updates == plan.updates[..i + 1] + plan.updates[i + 1..];
        var k := Get(u.id);
        if k == |rows| {
          assert forall j :: 0 <= j < |before| ==> before[j].id == rows[j].id;
          UnknownNotApplicable(before, plan.updates[..i], u);
        } else {
          ApplicableNext(before, nextId, plan.updates[..i], u, k);
          OverlayNext(before, nextId, plan.updates[..i], u, k);
        }
        if k == |rows| || rows[k].listedAt.Some? || rows[k].delistedAt.Some? {
          if Applicable(before, plan.updates) {
            PrefixApplicable(before, plan.updates[..i + 1], plan.updates[i + 1..]);
          }
          rows := saved;
          return false;
        }
        rows := rows[k := rows[k].(listedAt := Some(u.listedAt))];
        i := i + 1;
      }
      assert plan.updates[..i] == plan.updates;
      Insert(plan.creates);
      ok := true;
    }

    method Insert(creates: seq<IdentityCreate>)
      modifies this
      ensures rows == old(rows) + Inserted(creates, old(nextId)) && nextId == old(nextId) + |creates|
    {
      var i := 0;
      while i < |creates|
        invariant 0 <= i <= |creates| && nextId == old(nextId) + i
        invariant rows == old(rows) + Inserted(creates[..i], old(nextId))
      {
        assert Inserted(creates[..i + 1], old(nextId)) == Inserted(creates[..i], old(nextId))
               + [NewRow(creates[i], nextId)];
        rows := rows + [NewRow(creates[i], nextId)];
        nextId := nextId + 1;
        i := i + 1;
      }
      assert creates[..i] == creates;
    }
  }

  lemma NothingToDate(rows: seq<Instrument>)
    ensures Overlay(rows, []) == rows && Applicable(rows, [])
  {
  }

  /** An instrument named by an update gets the listing day of the last one that names it;
      the others stay; each create becomes a delisted instrument with both its days, under
      the next free ids in the order of the plan. */
  lemma AppliedMeans(rows: seq<Instrument>, plan: Plan, nextId: nat)
    ensures var after := Applied(rows, plan, nextId);
      && |after| == |rows| + |plan.creates|
      && (forall k :: 0 <= k < |rows| ==>
            after[k] == rows[k].(listedAt := after[k].listedAt)
            && ((forall u :: u in plan.updates ==> u.id != rows[k].id) ==> after[k] == rows[k])
            && (forall j :: 0 <= j < |plan.updates| && plan.updates[j].id == rows[k].id
                            && (forall i :: j < i < |plan.updates| ==> plan.updates[i].id != rows[k].id) ==>
                  after[k].listedAt == Some(plan.updates[j].listedAt)))
      && (forall k :: 0 <= k < |plan.creates| ==>
            var c := plan.creates[k];
            after[|rows| + k]
            == Instrument(nextId + k, c.code, c.market, Some(c.listedAt), Some(c.delistedAt), Delisted))
  {
    var after := Applied(rows, plan, nextId);
    forall k | 0 <= k < |rows| && forall u :: u in plan.updates ==> u.id != rows[k].id ensures after[k] == rows[k] {
      DateForNone(plan.updates, rows[k].id);
    }
    forall k, j | 0 <= k < |rows| && 0 <= j < |plan.updates| && plan.updates[j].id == rows[k].id
                  && forall i :: j < i < |plan.updates| ==> plan.updates[i].id != rows[k].id
      ensures after[k].listedAt == Some(plan.updates[j].listedAt)
    {
      DateForLast(plan.updates, rows[k].id, j);
    }
  }

  lemma {:induction false} DateForLast(updates: seq<IdentityUpdate>, id: nat, j: nat)
    requires j < |updates| && updates[j].id == id && forall i :: j < i < |updates| ==> updates[i].id != id
    ensures DateFor(updates, id) == Some(updates[j].listedAt)
    decreases |updates|
  {
    if j < |updates| - 1 {
      DateForLast(updates[..|updates| - 1], id, j);
    }
  }

  // ---- no instrument twice, none already dated -------------------------

  lemma {:induction false} OnlyMember<T(!new)>(xs: seq<T>, p: T -> bool, x: T, y: T)
    requires |Filter(xs, p)| == 1 && x in xs && y in xs && p(x) && p(y)
    ensures x == y
  {
    var f := Filter(xs, p);
    assert x in f && y in f;
    assert f == [f[0]];
  }

  /** An updated instrument is undated, belongs to the pair of the one open
      lifecycle that dates it, and is the pair's only instrument. */
  lemma UpdateFacts(l: Lifecycle, lifecycles: seq<Lifecycle>, rows: seq<Instrument>, nextId: nat, k: nat)
    requires ValidIds(rows, nextId) && k < |rows| && Classify(l, lifecycles, rows) == Update(rows[k].id)
    ensures Open(l) && PairOf(rows[k]) == LifePair(l) && Undated(rows[k])
    ensures |Filter(lifecycles, OpenIn(LifePair(l)))| == 1
  {
    var c := Filter(rows, InPair(LifePair(l)));
    assert c[0] in c;
    var j :| 0 <= j < |rows| && rows[j] == c[0];
    SameId(rows, nextId, j, k);
    hide ValidIds;
  }

  lemma UpdateNamesRow(l: Lifecycle, lifecycles: seq<Lifecycle>, rows: seq<Instrument>) returns (k: nat)
    requires Classify(l, lifecycles, rows).Update?
    ensures k < |rows| && rows[k].id == Classify(l, lifecycles, rows).id
  {
    var c := Filter(rows, InPair(LifePair(l)));
    assert c[0] in c;
    k :| 0 <= k < |rows| && rows[k] == c[0];
  }

  lemma UpdateUnique(l: Lifecycle, m: Lifecycle, lifecycles: seq<Lifecycle>, rows: seq<Instrument>, nextId: nat)
    requires ValidIds(rows, nextId) && l in lifecycles && m in lifecycles
    requires Classify(l, lifecycles, rows).Update? && Classify(m, lifecycles, rows) == Classify(l, lifecycles, rows)
    ensures l == m
  {
    var k := UpdateNamesRow(l, lifecycles, rows);
    UpdateFacts(l, lifecycles, rows, nextId, k);
    UpdateFacts(m, lifecycles, rows, nextId, k);
    hide Classify;
    OnlyMember(lifecycles, OpenIn(LifePair(l)), l, m);
  }

  lemma UpdatesDistinct(lifecycles: seq<Lifecycle>, rows: seq<Instrument>, nextId: nat)
    requires ValidIds(rows, nextId) && DistinctKeys(lifecycles, LifeKey)
    ensures DistinctKeys(PlanOf(lifecycles, rows).updates, UpdateKey)
  {
    hide Classify, ValidIds;
    var f := Updates(lifecycles, rows);
    forall x, y | x in lifecycles && y in lifecycles && f(x).Some? && f(y).Some?
        && UpdateKey(f(x).value) == UpdateKey(f(y).value)
      ensures LifeKey(x) == LifeKey(y)
    {
      UpdateUnique(x, y, lifecycles, rows, nextId);
    }
    CollectDistinct(lifecycles, f, LifeKey, UpdateKey);
    SortDistinct(Collect(lifecycles, f), UpdateKey, UpdateKey);
  }

  lemma CreatesDistinct(lifecycles: seq<Lifecycle>, rows: seq<Instrument>)
    requires DistinctKeys(lifecycles, LifeKey)
    ensures DistinctKeys(PlanOf(lifecycles, rows).creates, CreateKey)
  {
    hide Classify;
    var f := Creates(lifecycles, rows);
    CollectDistinct(lifecycles, f, LifeKey, CreateKey);
    SortDistinct(Collect(lifecycles, f), CreateKey, CreateKey);
  }

  /** A fresh plan always applies: no instrument appears twice in its updates and
      each names an existing instrument without dates. */
  lemma PlanApplies(lifecycles: seq<Lifecycle>, rows: seq<Instrument>, nextId: nat)
    requires ValidIds(rows, nextId) && DistinctKeys(lifecycles, LifeKey)
    ensures Applicable(rows, PlanOf(lifecycles, rows).updates)
  {
    var updates := PlanOf(lifecycles, rows).updates;
    UpdatesDistinct(lifecycles, rows, nextId);
    forall u | u in updates ensures NamesUndated(rows, u) {
      UpdateMembers(lifecycles, rows, u);
      var l :| l in lifecycles && Classify(l, lifecycles, rows) == Update(u.id) && l.listedAt == u.listedAt;
      var k := UpdateNamesRow(l, lifecycles, rows);
      UpdateFacts(l, lifecycles, rows, nextId, k);
      assert rows[k] in rows;
    }
    hide Classify, PlanOf, ValidIds;
  }

  // ---- planning again --------------------------------------------------

  /** What applying the plan did to row `k`. */
  lemma RowAfter(lifecycles: seq<Lifecycle>, rows: seq<Instrument>, nextId: nat, k: nat, d: Date)
    requires ValidIds(rows, nextId) && DistinctKeys(lifecycles, LifeKey) && k < |rows|
    ensures DateFor(PlanOf(lifecycles, rows).updates, rows[k].id) == Some(d)
       <==> exists l :: l in lifecycles && Classify(l, lifecycles, rows) == Update(rows[k].id) && l.listedAt == d
  {
    hide Classify, PlanOf, ValidIds;
    UpdatesDistinct(lifecycles, rows, nextId);
    DateForMember(PlanOf(lifecycles, rows).updates, rows[k].id, d);
    UpdateMembers(lifecycles, rows, IdentityUpdate(rows[k].id, d));
  }

  function After(lifecycles: seq<Lifecycle>, rows: seq<Instrument>): (r: seq<Instrument>)
    ensures |r| == |rows|
  {
    Overlay(rows, PlanOf(lifecycles, rows).updates)
  }

  lemma RowUpdated(l: Lifecycle, lifecycles: seq<Lifecycle>, rows: seq<Instrument>, nextId: nat, k: nat)
    requires ValidIds(rows, nextId) && DistinctKeys(lifecycles, LifeKey) && k < |rows|
    requires l in lifecycles && Classify(l, lifecycles, rows) == Update(rows[k].id)
    ensures After(lifecycles, rows)[k] == rows[k].(listedAt := Some(l.listedAt))
  {
    hide Classify, PlanOf, ValidIds;
    RowAfter(lifecycles, rows, nextId, k, l.listedAt);
  }

  lemma RowKept(lifecycles: seq<Lifecycle>, rows: seq<Instrument>, nextId: nat, k: nat)
    requires ValidIds(rows, nextId) && DistinctKeys(lifecycles, LifeKey) && k < |rows|
    requires forall l :: l in lifecycles ==> Classify(l, lifecycles, rows) != Update(rows[k].id)
    ensures After(lifecycles, rows)[k] == rows[k]
  {
    hide Classify, PlanOf, ValidIds;
    var date := DateFor(PlanOf(lifecycles, rows).updates, rows[k].id);
    if date.Some? {
      RowAfter(lifecycles, rows, nextId, k, date.value);
    }
  }

  /** An existing row comes to match a lifecycle only by that lifecycle's own update. */
  lemma MatchAfter(l: Lifecycle, lifecycles: seq<Lifecycle>, rows: seq<Instrument>, nextId: nat, k: nat)
    requires ValidIds(rows, nextId) && DistinctKeys(lifecycles, LifeKey) && k < |rows| && l in lifecycles
    ensures HasIdentity(After(lifecycles, rows)[k], LifeIdentity(l))
       <==> HasIdentity(rows[k], LifeIdentity(l)) || Classify(l, lifecycles, rows) == Update(rows[k].id)
  {
    hide After;
    if m :| m in lifecycles && Classify(m, lifecycles, rows) == Update(rows[k].id) {
      RowUpdated(m, lifecycles, rows, nextId, k);
      UpdateFacts(m, lifecycles, rows, nextId, k);
      hide Classify, ValidIds;
      DistinctIdentifies(lifecycles, LifeKey);
      if Classify(l, lifecycles, rows) == Update(rows[k].id) {
        UpdateUnique(l, m, lifecycles, rows, nextId);
      }
      assert LifeKey(l) == LifeKey(m) ==> l == m;
    } else {
      hide Classify;
      RowKept(lifecycles, rows, nextId, k);
    }
  }

  lemma {:induction false} CountSame<T(!new)>(xs: seq<T>, ys: seq<T>, p: T -> bool)
    requires |xs| == |ys| && forall k :: 0 <= k < |xs| ==> p(xs[k]) == p(ys[k])
    ensures |Filter(xs, p)| == |Filter(ys, p)|
  {
    if xs != [] {
      assert forall k :: 0 <= k < |xs[1..]| ==> xs[1..][k] == xs[k + 1] && ys[1..][k] == ys[k + 1];
      CountSame(xs[1..], ys[1..], p);
    }
  }

  lemma CountOne<T(!new)>(xs: seq<T>, p: T -> bool, k: nat)
    requires k < |xs| && p(xs[k]) && forall j :: 0 <= j < |xs| && j != k ==> !p(xs[j])
    ensures |Filter(xs, p)| == 1
  {
    assert xs == xs[..k] + ([xs[k]] + xs[k + 1..]);
    FilterAppend(xs[..k], [xs[k]] + xs[k + 1..], p);
    FilterAppend([xs[k]], xs[k + 1..], p);
    FilterNone(xs[..k], p);
    FilterNone(xs[k + 1..], p);
  }

  lemma OldMatches(l: Lifecycle, lifecycles: seq<Lifecycle>, rows: seq<Instrument>, nextId: nat)
    requires ValidIds(rows, nextId) && DistinctKeys(lifecycles, LifeKey) && l in lifecycles
    ensures |Filter(After(lifecycles, rows), Matching(LifeIdentity(l)))|
         == if Classify(l, lifecycles, rows).Update? then 1 else |Filter(rows, Matching(LifeIdentity(l)))|
  {
    var p := Matching(LifeIdentity(l));
    var after := After(lifecycles, rows);
    forall k | 0 <= k < |rows|
      ensures p(after[k]) <==> p(rows[k]) || Classify(l, lifecycles, rows) == Update(rows[k].id)
    {
      MatchAfter(l, lifecycles, rows, nextId, k);
    }
    if Classify(l, lifecycles, rows).Update? {
      var k := UpdateNamesRow(l, lifecycles, rows);
      assert Filter(rows, p) == [];
      hide Classify, After, ValidIds;
      forall j | 0 <= j < |rows| && j != k ensures !p(after[j]) {
        assert rows[j] in rows;
        if rows[j].id == rows[k].id {
          SameId(rows, nextId, j, k);
        }
      }
      CountOne(after, p, k);
    } else {
      hide Classify, After;
      CountSame(after, rows, p);
    }
  }

  lemma NewMatches(l: Lifecycle, lifecycles: seq<Lifecycle>, rows: seq<Instrument>, nextId: nat)
    requires DistinctKeys(lifecycles, LifeKey) && l in lifecycles
    ensures |Filter(Inserted(PlanOf(lifecycles, rows).creates, nextId), Matching(LifeIdentity(l)))|
         == if Classify(l, lifecycles, rows).Create? then 1 else 0
  {
    var creates := PlanOf(lifecycles, rows).creates;
    var fresh' := Inserted(creates, nextId);
    var p := Matching(LifeIdentity(l));
    CreatesDistinct(lifecycles, rows);
    forall k | 0 <= k < |fresh'| ensures p(fresh'[k]) <==> Creates(lifecycles, rows)(l) == Some(creates[k]) {
      CreatedFrom(l, lifecycles, rows, nextId, k);
    }
    if Classify(l, lifecycles, rows).Create? {
      CreateIsDated(l, lifecycles, rows);
      hide Classify, PlanOf;
      var c := Creates(lifecycles, rows)(l).value;
      CreateMembers(lifecycles, rows, c);
      var k :| 0 <= k < |creates| && creates[k] == c;
      forall j | 0 <= j < |creates| && j != k ensures creates[j] != c {
        if j < k { DistinctAt(creates, CreateKey, j, k); } else { DistinctAt(creates, CreateKey, k, j); }
      }
      CountOne(fresh', p, k);
    } else {
      FilterNone(fresh', p);
    }
  }

  /** A created row matches exactly the lifecycle it was created from. */
  lemma CreatedFrom(l: Lifecycle, lifecycles: seq<Lifecycle>, rows: seq<Instrument>, nextId: nat, k: nat)
    requires DistinctKeys(lifecycles, LifeKey) && l in lifecycles
    requires k < |PlanOf(lifecycles, rows).creates|
    ensures HasIdentity(NewRow(PlanOf(lifecycles, rows).creates[k], nextId + k), LifeIdentity(l))
       <==> Creates(lifecycles, rows)(l) == Some(PlanOf(lifecycles, rows).creates[k])
  {
    hide Classify, PlanOf;
    var c := PlanOf(lifecycles, rows).creates[k];
    assert c in PlanOf(lifecycles, rows).creates;
    CreateMembers(lifecycles, rows, c);
    var m :| m in lifecycles && Creates(lifecycles, rows)(m) == Some(c);
    DistinctIdentifies(lifecycles, LifeKey);
    assert LifeKey(l) == LifeKey(m) ==> l == m;
  }

  /** After applying, an exact, updated or created lifecycle has exactly one
      instrument; an unresolved one has as many as before. */
  lemma ExactAfter(l: Lifecycle, lifecycles: seq<Lifecycle>, rows: seq<Instrument>, nextId: nat)
    requires ValidIds(rows, nextId) && DistinctKeys(lifecycles, LifeKey) && l in lifecycles
    ensures |Filter(Applied(rows, PlanOf(lifecycles, rows), nextId), Matching(LifeIdentity(l)))|
         == if Classify(l, lifecycles, rows).Unresolved? then |Filter(rows, Matching(LifeIdentity(l)))| else 1
  {
    hide Classify, PlanOf, ValidIds, Matching, Inserted, Overlay;
    var plan := PlanOf(lifecycles, rows);
    ExactBefore(l, lifecycles, rows);
    OldMatches(l, lifecycles, rows, nextId);
    NewMatches(l, lifecycles, rows, nextId);
    FilterAppend(Overlay(rows, plan.updates), Inserted(plan.creates, nextId), Matching(LifeIdentity(l)));
  }

  lemma ExactBefore(l: Lifecycle, lifecycles: seq<Lifecycle>, rows: seq<Instrument>)
    ensures var n := |Filter(rows, Matching(LifeIdentity(l)))|;
      match Classify(l, lifecycles, rows)
      case Exact => n == 1
      case Update(_) => n == 0
      case Create => n == 0
      case Unresolved(_) => true
  {
  }

  /** A dated instrument is never changed. */
  lemma DatedRowsKept(lifecycles: seq<Lifecycle>, rows: seq<Instrument>, nextId: nat, k: nat)
    requires ValidIds(rows, nextId) && DistinctKeys(lifecycles, LifeKey) && k < |rows|
    requires rows[k].listedAt.Some? || rows[k].delistedAt.Some?
    ensures Applied(rows, PlanOf(lifecycles, rows), nextId)[k] == rows[k]
  {
    hide PlanOf;
    forall l | l in lifecycles ensures Classify(l, lifecycles, rows) != Update(rows[k].id) {
      if Classify(l, lifecycles, rows) == Update(rows[k].id) {
        UpdateFacts(l, lifecycles, rows, nextId, k);
      }
    }
    hide Classify, ValidIds;
    RowKept(lifecycles, rows, nextId, k);
  }

  /** An open lifecycle that could not date an instrument still cannot: applying
      the plan brings no undated instrument into its pair. */
  lemma StillCannotUpdate(l: Lifecycle, lifecycles: seq<Lifecycle>, rows: seq<Instrument>, nextId: nat)
    requires ValidIds(rows, nextId) && DistinctKeys(lifecycles, LifeKey) && l in lifecycles
    requires Classify(l, lifecycles, rows) == Unresolved(UnmatchedOrAmbiguousOpenLifecycle)
    ensures var after := Applied(rows, PlanOf(lifecycles, rows), nextId);
      !CanUpdate(PairConflicts(LifePair(l), lifecycles), Filter(after, InPair(LifePair(l))),
                 |Filter(lifecycles, OpenIn(LifePair(l)))|)
  {
    hide PlanOf, Applied, ValidIds, InPair, OpenIn, PairConflicts;
    var candidates := Filter(Applied(rows, PlanOf(lifecycles, rows), nextId), InPair(LifePair(l)));
    if |candidates| == 1 && Undated(candidates[0]) {
      SameCandidate(LifePair(l), lifecycles, rows, nextId);
    }
  }

  /** A pair whose only instrument is undated after applying had just that one before. */
  lemma SameCandidate(pair: Pair, lifecycles: seq<Lifecycle>, rows: seq<Instrument>, nextId: nat)
    requires ValidIds(rows, nextId) && DistinctKeys(lifecycles, LifeKey)
    requires var candidates := Filter(Applied(rows, PlanOf(lifecycles, rows), nextId), InPair(pair));
      |candidates| == 1 && Undated(candidates[0])
    ensures Filter(rows, InPair(pair)) == Filter(Applied(rows, PlanOf(lifecycles, rows), nextId), InPair(pair))
  {
    hide PlanOf, ValidIds, Filter, Overlay;
    var plan := PlanOf(lifecycles, rows);
    var old', fresh' := Overlay(rows, plan.updates), Inserted(plan.creates, nextId);
    var p := InPair(pair);
    var candidates := Filter(old' + fresh', p);
    assert candidates[0] in candidates;
    var j :| 0 <= j < |old' + fresh'| && (old' + fresh')[j] == candidates[0];
    assert j < |rows| && old'[j] == candidates[0];
    UndatedStays(lifecycles, rows, nextId, j);
    FilterAppend(old', fresh', p);
    CountSame(old', rows, p);
    assert rows[j] in rows && rows[j] in Filter(rows, p);
    Single(candidates, rows[j]);
    Single(Filter(rows, p), rows[j]);
  }

  lemma Single<T>(xs: seq<T>, x: T)
    requires |xs| <= 1 && x in xs
    ensures xs == [x]
  {
  }

  lemma UndatedStays(lifecycles: seq<Lifecycle>, rows: seq<Instrument>, nextId: nat, k: nat)
    requires ValidIds(rows, nextId) && DistinctKeys(lifecycles, LifeKey) && k < |rows|
    requires Undated(Overlay(rows, PlanOf(lifecycles, rows).updates)[k])
    ensures Overlay(rows, PlanOf(lifecycles, rows).updates)[k] == rows[k]
  {
    hide PlanOf, ValidIds;
  }

  lemma StillDated(l: Lifecycle, lifecycles: seq<Lifecycle>, rows: seq<Instrument>, nextId: nat)
    requires ValidIds(rows, nextId) && DistinctKeys(lifecycles, LifeKey)
    requires Filter(rows, DatedInPair(LifePair(l))) != []
    ensures Filter(Applied(rows, PlanOf(lifecycles, rows), nextId), DatedInPair(LifePair(l))) != []
  {
    hide PlanOf;
    var i := Filter(rows, DatedInPair(LifePair(l)))[0];
    assert i in Filter(rows, DatedInPair(LifePair(l)));
    var k :| 0 <= k < |rows| && rows[k] == i;
    DatedRowsKept(lifecycles, rows, nextId, k);
    var after := Applied(rows, PlanOf(lifecycles, rows), nextId);
    assert after[k] in after;
    assert i in Filter(after, DatedInPair(LifePair(l)));
  }

  /** Judging every lifecycle again after the plan was applied: what was exact,
      updated or created is exact, what was unresolved is unresolved for the same
      reason. */
  lemma ReplanVerdict(l: Lifecycle, lifecycles: seq<Lifecycle>, rows: seq<Instrument>, nextId: nat)
    requires ValidIds(rows, nextId) && DistinctKeys(lifecycles, LifeKey) && l in lifecycles
    ensures Classify(l, lifecycles, Applied(rows, PlanOf(lifecycles, rows), nextId))
         == match Classify(l, lifecycles, rows) { case Unresolved(reason) => Unresolved(reason) case _ => Exact }
  {
    hide PlanOf, Applied, ValidIds, Matching, InPair, DatedInPair, OpenIn, PairConflicts;
    ExactAfter(l, lifecycles, rows, nextId);
    if Classify(l, lifecycles, rows) == Unresolved(UnmatchedOrAmbiguousOpenLifecycle) {
      StillCannotUpdate(l, lifecycles, rows, nextId);
    } else if Classify(l, lifecycles, rows) == Unresolved(ExistingIdentityDateConflict) {
      StillDated(l, lifecycles, rows, nextId);
    }
  }

  /** Planning, applying and planning again gives no updates, no creates and the
      same unresolved list. */
  lemma ReplanIsStable(lifecycles: seq<Lifecycle>, rows: seq<Instrument>, nextId: nat)
    requires ValidIds(rows, nextId) && DistinctKeys(lifecycles, LifeKey)
    ensures PlanOf(lifecycles, Applied(rows, PlanOf(lifecycles, rows), nextId))
         == Plan([], [], PlanOf(lifecycles, rows).unresolved)
  {
    var after := Applied(rows, PlanOf(lifecycles, rows), nextId);
    hide Applied, Classify, ValidIds;
    forall l | l in lifecycles
      ensures Updates(lifecycles, after)(l).None? && Creates(lifecycles, after)(l).None?
      ensures Leftovers(lifecycles, after)(l) == Leftovers(lifecycles, rows)(l)
    {
      ReplanVerdict(l, lifecycles, rows, nextId);
    }
    CollectNone(lifecycles, Updates(lifecycles, after));
    CollectNone(lifecycles, Creates(lifecycles, after));
    CollectSame(lifecycles, Leftovers(lifecycles, after), Leftovers(lifecycles, rows));
  }

  /** The same for lifecycles built from files, with the table kept well-formed. */
  lemma ReconcileFilesTwice(files: seq<CsvFile>, rows: seq<Instrument>, nextId: nat)
    requires ValidIds(rows, nextId)
    ensures var lifecycles := Lifecycles(files);
      var plan := PlanOf(lifecycles, rows);
      && Applicable(rows, plan.updates)
      && ValidIds(Applied(rows, plan, nextId), nextId + |plan.creates|)
      && PlanOf(lifecycles, Applied(rows, plan, nextId)) == Plan([], [], plan.unresolved)
  {
    var lifecycles := Lifecycles(files);
    LifecyclesDistinct(files);
    PlanApplies(lifecycles, rows, nextId);
    ReplanIsStable(lifecycles, rows, nextId);
    AppliedKeepsIds(rows, PlanOf(lifecycles, rows), nextId);
    hide Lifecycles, PlanOf, Applied, ValidIds;
  }

  lemma {:induction false} OverlayKeepsIds(rows: seq<Instrument>, updates: seq<IdentityUpdate>)
    requires DistinctKeys(rows, IdKey)
    ensures DistinctKeys(Overlay(rows, updates), IdKey)
  {
    if rows != [] {
      var rest := Overlay(rows[1..], updates);
      assert Overlay(rows, updates)[1..] == rest;
      OverlayKeepsIds(rows[1..], updates);
      forall i | i in rest ensures IdKey(i) != IdKey(rows[0]) {
        var k :| 0 <= k < |rest| && rest[k] == i;
        assert rows[1..][k] in rows[1..];
      }
    }
  }

  lemma {:induction false} InsertedIds(creates: seq<IdentityCreate>, nextId: nat)
    ensures DistinctKeys(Inserted(creates, nextId), IdKey)
    ensures forall i :: i in Inserted(creates, nextId) ==> nextId <= i.id < nextId + |creates|
  {
    if creates != [] {
      assert Inserted(creates, nextId)[1..] == Inserted(creates[1..], nextId + 1);
      InsertedIds(creates[1..], nextId + 1);
    }
  }

  lemma AppliedKeepsIds(rows: seq<Instrument>, plan: Plan, nextId: nat)
    requires ValidIds(rows, nextId)
    ensures ValidIds(Applied(rows, plan, nextId), nextId + |plan.creates|)
  {
    OverlayKeepsIds(rows, plan.updates);
    InsertedIds(plan.creates, nextId);
    var old' := Overlay(rows, plan.updates);
    forall i | i in old' ensures i.id < nextId {
      var k :| 0 <= k < |rows| && old'[k] == i;
      assert rows[k] in rows;
    }
    DistinctConcat(old', Inserted(plan.creates, nextId), IdKey);
  }
}
