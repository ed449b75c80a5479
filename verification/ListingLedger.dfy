/** The append-only ledger of listing evidence: revision chains, replays, and
    the current view as known at a given moment. */
module ListingLedger {
  import opened Common
  import opened Sorting

  datatype EventType = Listed | Delisted | MarketTransferred | TradingHalted | TradingResumed | CodeChanged
                     | UnsupportedEvent
  datatype Evidence = Observed | Inferred | Unknown | UnsupportedEvidence
  datatype TradingStatus = Trading | Suspended | Halted | OtherStatus(name: nat)

  /** One source-backed statement.  Its content hash is the statement itself;
      `details` stands for the fields no decision here looks at. */
  datatype EventInput = EventInput(
    instrumentId: nat, source: Option<nat>, contractVersion: Option<nat>, recordKey: Option<nat>,
    eventType: EventType, effectiveFrom: Date, effectiveTo: Option<Date>, evidence: Evidence,
    market: Option<nat>, marketTo: Option<nat>, tradingStatus: Option<TradingStatus>, details: nat)

  datatype Row = Row(input: EventInput, supersedes: Option<nat>, importedAt: Instant)

  /** A row together with its id, its position in the ledger. */
  datatype Revision = Revision(id: nat, row: Row)

  type RecordId = (Option<nat>, Option<nat>)

  function RecordOf(e: EventInput): RecordId { (e.source, e.recordKey) }

  /** `_validate_event`; a blank source, key or version is None here. */
  predicate ValidEvent(e: EventInput, fileHashValid: bool) {
    && e.eventType != UnsupportedEvent && e.evidence != UnsupportedEvidence
    && e.source.Some? && e.recordKey.Some? && e.contractVersion.Some?
    && (e.effectiveTo.Some? ==> e.effectiveTo.value > e.effectiveFrom)
    && fileHashValid
  }

  function FindContent(ledger: seq<Row>, e: EventInput): (r: Option<nat>)
    ensures r.Some? ==> r.value < |ledger| && ledger[r.value].input == e
    ensures r.None? ==> forall row :: row in ledger ==> row.input != e
  {
    if ledger == [] then None
    else if ledger[|ledger| - 1].input == e then Some(|ledger| - 1)
    else FindContent(ledger[..|ledger| - 1], e)
  }

  /** The newest row of a record. */
  function Prior(ledger: seq<Row>, record: RecordId): (r: Option<nat>)
    ensures r.Some? ==> r.value < |ledger| && RecordOf(ledger[r.value].input) == record
    ensures r.Some? ==> forall k :: r.value < k < |ledger| ==> RecordOf(ledger[k].input) != record
    ensures r.None? ==> forall k :: 0 <= k < |ledger| ==> RecordOf(ledger[k].input) != record
  {
    if ledger == [] then None
    else if RecordOf(ledger[|ledger| - 1].input) == record then Some(|ledger| - 1)
    else Prior(ledger[..|ledger| - 1], record)
  }

  datatype IngestResult = Invalid | Known(id: nat) | Created(id: nat)

  function Ingest(ledger: seq<Row>, e: EventInput, fileHashValid: bool, now: Instant): (seq<Row>, IngestResult) {
    if !ValidEvent(e, fileHashValid) then (ledger, Invalid)
    else
      match FindContent(ledger, e)
      case Some(id) => (ledger, Known(id))
      case None => (ledger + [Row(e, Prior(ledger, RecordOf(e)), now)], Created(|ledger|))
  }

  datatype Arrival = Arrival(event: EventInput, fileHashValid: bool, at: Instant)

  function IngestAll(ledger: seq<Row>, arrivals: seq<Arrival>): seq<Row>
    decreases |arrivals|
  {
    if arrivals == [] then ledger
    else
      var last := arrivals[|arrivals| - 1];
      Ingest(IngestAll(ledger, arrivals[..|arrivals| - 1]), last.event, last.fileHashValid, last.at).0
  }

  // ---- the chain -------------------------------------------------------

  /** Each row supersedes the row of its record created just before it. */
  ghost predicate Chained(ledger: seq<Row>) {
    forall k :: 0 <= k < |ledger| ==> ledger[k].supersedes == Prior(ledger[..k], RecordOf(ledger[k].input))
  }

  ghost predicate NoRepeats(ledger: seq<Row>) {
    forall j, k :: 0 <= j < k < |ledger| ==> ledger[j].input != ledger[k].input
  }

  lemma IngestKeepsChain(ledger: seq<Row>, e: EventInput, fileHashValid: bool, now: Instant)
    requires Chained(ledger) && NoRepeats(ledger)
    ensures Chained(Ingest(ledger, e, fileHashValid, now).0) && NoRepeats(Ingest(ledger, e, fileHashValid, now).0)
  {
    var after := Ingest(ledger, e, fileHashValid, now).0;
    if after != ledger {
      assert after[..|ledger|] == ledger;
      forall k | 0 <= k < |after| ensures after[k].supersedes == Prior(after[..k], RecordOf(after[k].input)) {
        if k < |ledger| {
          assert after[..k] == ledger[..k];
        }
      }
      forall j | 0 <= j < |ledger| ensures ledger[j].input != e {
        assert ledger[j] in ledger;
      }
    }
  }

  /** Every ledger built by ingestion is a set of linear chains, one per record,
      in which no content occurs twice. */
  lemma {:induction false} LedgerIsChained(arrivals: seq<Arrival>)
    ensures Chained(IngestAll([], arrivals)) && NoRepeats(IngestAll([], arrivals))
    decreases |arrivals|
  {
    if arrivals != [] {
      var last := arrivals[|arrivals| - 1];
      LedgerIsChained(arrivals[..|arrivals| - 1]);
      IngestKeepsChain(IngestAll([], arrivals[..|arrivals| - 1]), last.event, last.fileHashValid, last.at);
    }
  }

  /** In a chained ledger no two rows supersede the same row, and a row and the
      one it supersedes are consecutive in their record. */
  lemma ChainIsLinear(ledger: seq<Row>, j: nat, k: nat)
    requires Chained(ledger) && j < k < |ledger|
    ensures ledger[j].supersedes.Some? ==> ledger[j].supersedes != ledger[k].supersedes
    ensures ledger[k].supersedes == Some(j) <==>
              RecordOf(ledger[j].input) == RecordOf(ledger[k].input)
              && forall m :: j < m < k ==> RecordOf(ledger[m].input) != RecordOf(ledger[k].input)
  {
    assert ledger[..k][j] == ledger[j];
    forall m | 0 <= m < k ensures ledger[..k][m] == ledger[m] {
    }
    forall m | 0 <= m < j ensures ledger[..j][m] == ledger[m] {
    }
  }

  /** What has been ingested can be found again. */
  lemma {:induction false} IngestedIsFound(ledger: seq<Row>, arrivals: seq<Arrival>, a: Arrival)
    requires a in arrivals && ValidEvent(a.event, a.fileHashValid)
    ensures FindContent(IngestAll(ledger, arrivals), a.event).Some?
    decreases |arrivals|
  {
    var front, last := arrivals[..|arrivals| - 1], arrivals[|arrivals| - 1];
    assert arrivals == front + [last];
    var before := IngestAll(ledger, front);
    var after := IngestAll(ledger, arrivals);
    if a in front {
      IngestedIsFound(ledger, front, a);
      var row := before[FindContent(before, a.event).value];
      assert row in before && row in after && row.input == a.event;
    } else {
      assert after == before || after[|before|] in after;
    }
  }

  /** Replaying any selection of what was already ingested adds nothing, however
      often and in whatever order. */
  lemma {:induction false} ReplayAddsNothing(ledger: seq<Row>, arrivals: seq<Arrival>, replay: seq<Arrival>)
    requires forall r :: r in replay ==>
             exists a :: a in arrivals && a.event == r.event && (r.fileHashValid ==> a.fileHashValid)
    ensures IngestAll(IngestAll(ledger, arrivals), replay) == IngestAll(ledger, arrivals)
    decreases |replay|
  {
    if replay != [] {
      var front, last := replay[..|replay| - 1], replay[|replay| - 1];
      assert replay == front + [last];
      assert last in replay && forall r :: r in front ==> r in replay;
      ReplayAddsNothing(ledger, arrivals, front);
      if ValidEvent(last.event, last.fileHashValid) {
        var a :| a in arrivals && a.event == last.event && (last.fileHashValid ==> a.fileHashValid);
        IngestedIsFound(ledger, arrivals, a);
      }
    }
  }

  /** After a statement is ingested it is the current revision of its record
      exactly when its content was new, or current already: re-ingesting A after
      B leaves B current. */
  lemma IngestBecomesCurrentIff(ledger: seq<Row>, e: EventInput, now: Instant)
    requires ValidEvent(e, true)
    ensures var after := Ingest(ledger, e, true, now).0; var newest := Prior(after, RecordOf(e));
      && newest.Some?
      && (after[newest.value].input == e <==>
            FindContent(ledger, e).None? || ledger[Prior(ledger, RecordOf(e)).value].input == e)
  {
    if FindContent(ledger, e).None? {
      assert Prior(ledger + [Row(e, Prior(ledger, RecordOf(e)), now)], RecordOf(e)) == Some(|ledger|);
    }
  }

  // ---- the current view ------------------------------------------------

  function Indexed(ledger: seq<Row>): (r: seq<Revision>)
    ensures |r| == |ledger|
    ensures forall k :: 0 <= k < |ledger| ==> r[k] == Revision(k, ledger[k])
  {
    seq(|ledger|, k requires 0 <= k < |ledger| => Revision(k, ledger[k]))
  }

  function ImportKey(r: Revision): Key { (r.row.importedAt, r.id, 0) }

  function ViewKey(r: Revision): Key { (r.row.input.instrumentId, r.row.input.effectiveFrom, r.id) }

  predicate Visible(r: Revision, ids: set<nat>, asOf: Option<Instant>) {
    r.row.input.instrumentId in ids && (asOf.Some? ==> r.row.importedAt <= asOf.value)
  }

  function Eligible(ledger: seq<Row>, ids: set<nat>, asOf: Option<Instant>): seq<Revision> {
    Filter(Indexed(ledger), (r: Revision) => Visible(r, ids, asOf))
  }

  /** No eligible revision of the same record is newer. */
  predicate IsLatest(eligible: seq<Revision>, r: Revision) {
    forall o :: o in eligible && RecordOf(o.row.input) == RecordOf(r.row.input) ==> Le(ImportKey(o), ImportKey(r))
  }

  /** The latest revision of every record, ordered for replay. */
  function View(ledger: seq<Row>, ids: set<nat>, asOf: Option<Instant>): seq<Revision> {
    var eligible := Eligible(ledger, ids, asOf);
    SortBy(Filter(eligible, (r: Revision) => IsLatest(eligible, r)), ViewKey)
  }

  lemma IndexedMembers(ledger: seq<Row>, r: Revision)
    ensures r in Indexed(ledger) <==> r.id < |ledger| && r.row == ledger[r.id]
  {
    if r.id < |ledger| && r.row == ledger[r.id] {
      assert Indexed(ledger)[r.id] == r;
    }
  }

  lemma ViewMembers(ledger: seq<Row>, ids: set<nat>, asOf: Option<Instant>, r: Revision)
    ensures r in View(ledger, ids, asOf) <==>
              r.id < |ledger| && r.row == ledger[r.id] && Visible(r, ids, asOf)
              && IsLatest(Eligible(ledger, ids, asOf), r)
  {
    var eligible := Eligible(ledger, ids, asOf);
    SortMembers(Filter(eligible, (r: Revision) => IsLatest(eligible, r)), ViewKey);
    IndexedMembers(ledger, r);
  }

  lemma LaterRowsIneligible(ledger: seq<Row>, more: seq<Row>, ids: set<nat>, t: Instant)
    requires forall row :: row in more ==> row.importedAt > t
    ensures Eligible(ledger + more, ids, Some(t)) == Eligible(ledger, ids, Some(t))
  {
    hide Filter, Visible;
    var all, late := Indexed(ledger + more), Indexed(ledger + more)[|ledger|..];
    var visible := (r: Revision) => Visible(r, ids, Some(t));
    assert all == Indexed(ledger) + late;
    FilterAppend(Indexed(ledger), late, visible);
    forall r | r in late ensures !visible(r) {
      LateIsInvisible(ledger, more, ids, t, r);
    }
    FilterNone(late, visible);
  }

  lemma LateIsInvisible(ledger: seq<Row>, more: seq<Row>, ids: set<nat>, t: Instant, r: Revision)
    requires (forall row :: row in more ==> row.importedAt > t) && r in Indexed(ledger + more)[|ledger|..]
    ensures !Visible(r, ids, Some(t))
  {
    var late := Indexed(ledger + more)[|ledger|..];
    var k :| 0 <= k < |late| && late[k] == r;
    assert Indexed(ledger + more)[|ledger| + k] == r && (ledger + more)[|ledger| + k] == more[k];
  }

  /** Evidence imported after `t` does not change what was known at `t`. */
  lemma LaterRowsInvisible(ledger: seq<Row>, more: seq<Row>, ids: set<nat>, t: Instant)
    requires forall row :: row in more ==> row.importedAt > t
    ensures View(ledger + more, ids, Some(t)) == View(ledger, ids, Some(t))
  {
    LaterRowsIneligible(ledger, more, ids, t);
    hide Eligible;
  }

  lemma {:induction false} NewRowsCarryTheirTime(ledger: seq<Row>, arrivals: seq<Arrival>, t: Instant)
    requires forall a :: a in arrivals ==> a.at > t
    ensures ledger <= IngestAll(ledger, arrivals)
    ensures forall row :: row in IngestAll(ledger, arrivals)[|ledger|..] ==> row.importedAt > t
    decreases |arrivals|
  {
    if arrivals != [] {
      var front := arrivals[..|arrivals| - 1];
      assert arrivals == front + [arrivals[|arrivals| - 1]];
      assert arrivals[|arrivals| - 1] in arrivals && forall a :: a in front ==> a in arrivals;
      NewRowsCarryTheirTime(ledger, front, t);
    }
  }

  /** Time travel: ingesting any sequence of statements after `t` leaves the view
      as known at `t` unchanged. */
  lemma TimeTravel(ledger: seq<Row>, arrivals: seq<Arrival>, ids: set<nat>, t: Instant)
    requires forall a :: a in arrivals ==> a.at > t
    ensures View(IngestAll(ledger, arrivals), ids, Some(t)) == View(ledger, ids, Some(t))
  {
    NewRowsCarryTheirTime(ledger, arrivals, t);
    var after := IngestAll(ledger, arrivals);
    assert after == ledger + after[|ledger|..];
    LaterRowsInvisible(ledger, after[|ledger|..], ids, t);
  }

  ghost predicate MonotoneClock(ledger: seq<Row>) {
    forall j, k :: 0 <= j < k < |ledger| ==> ledger[j].importedAt <= ledger[k].importedAt
  }

  /** Nothing supersedes the row. */
  ghost predicate IsHead(ledger: seq<Row>, id: nat) {
    id < |ledger| && forall k :: 0 <= k < |ledger| ==> ledger[k].supersedes != Some(id)
  }

  /** A row is its chain's head exactly when no later row has the same record. */
  lemma HeadIff(ledger: seq<Row>, id: nat)
    requires Chained(ledger) && id < |ledger|
    ensures IsHead(ledger, id) <==>
              forall k :: id < k < |ledger| ==> RecordOf(ledger[k].input) != RecordOf(ledger[id].input)
  {
    if exists k :: id < k < |ledger| && RecordOf(ledger[k].input) == RecordOf(ledger[id].input) {
      var k :| id < k < |ledger| && RecordOf(ledger[k].input) == RecordOf(ledger[id].input);
      SuccessorExists(ledger, id, k);
    }
    forall k | 0 <= k < |ledger| && ledger[k].supersedes == Some(id)
      ensures id < k && RecordOf(ledger[k].input) == RecordOf(ledger[id].input)
    {
      assert ledger[..k][id] == ledger[id];
    }
  }

  lemma {:induction false} SuccessorExists(ledger: seq<Row>, id: nat, k: nat)
    requires Chained(ledger) && id < k < |ledger| && RecordOf(ledger[k].input) == RecordOf(ledger[id].input)
    ensures exists m :: 0 <= m < |ledger| && ledger[m].supersedes == Some(id)
    decreases k
  {
    var p := ledger[k].supersedes;
    assert ledger[..k][id] == ledger[id];
    if p != Some(id) {
      assert ledger[..k][p.value] == ledger[p.value];
      SuccessorExists(ledger, id, p.value);
    }
  }

  /** Under a monotone clock the current view over all instruments is exactly the
      set of chain heads. */
  lemma CurrentIsHeads(ledger: seq<Row>, ids: set<nat>, r: Revision)
    requires Chained(ledger) && MonotoneClock(ledger)
    requires forall row :: row in ledger ==> row.input.instrumentId in ids
    ensures r in View(ledger, ids, None) <==> IsHead(ledger, r.id) && r.row == ledger[r.id]
  {
    ViewMembers(ledger, ids, None, r);
    if r.id < |ledger| && r.row == ledger[r.id] {
      HeadIff(ledger, r.id);
      assert ledger[r.id] in ledger;
      LatestIffLast(ledger, ids, r);
    }
  }

  lemma LatestIffLast(ledger: seq<Row>, ids: set<nat>, r: Revision)
    requires MonotoneClock(ledger) && r.id < |ledger| && r.row == ledger[r.id]
    requires forall row :: row in ledger ==> row.input.instrumentId in ids
    ensures IsLatest(Eligible(ledger, ids, None), r) <==>
              forall k :: r.id < k < |ledger| ==> RecordOf(ledger[k].input) != RecordOf(ledger[r.id].input)
  {
    forall o ensures o in Eligible(ledger, ids, None) <==> o.id < |ledger| && o.row == ledger[o.id] {
      IndexedMembers(ledger, o);
      assert o.id < |ledger| ==> ledger[o.id] in ledger;
    }
    if k :| r.id < k < |ledger| && RecordOf(ledger[k].input) == RecordOf(ledger[r.id].input) {
      assert Revision(k, ledger[k]) in Eligible(ledger, ids, None);
    }
  }

  // ---- in plain terms --------------------------------------------------

  /** The statement names its source, record and contract, and is of a known kind with a
      known kind of evidence over a proper interval; the file it came in is intact. */
  predicate Acceptable(e: EventInput, fileHashValid: bool) {
    && fileHashValid && e.source != None && e.recordKey != None && e.contractVersion != None
    && e.eventType in {Listed, Delisted, MarketTransferred, TradingHalted, TradingResumed, CodeChanged}
    && e.evidence in {Observed, Inferred, Unknown}
    && (e.effectiveTo == None || e.effectiveFrom < e.effectiveTo.value)
  }

  predicate SameRecord(a: EventInput, b: EventInput) { a.source == b.source && a.recordKey == b.recordKey }

  /** What ingesting one statement does: it is refused, found, or added at the end, then
      superseding the last statement of its record. */
  lemma IngestMeans(ledger: seq<Row>, e: EventInput, fileHashValid: bool, now: Instant)
    ensures var (after, result) := Ingest(ledger, e, fileHashValid, now);
      && (result.Invalid? <==> !Acceptable(e, fileHashValid))
      && (result.Known? ==> result.id < |ledger| && ledger[result.id].input == e)
      && (result.Created? <==> Acceptable(e, fileHashValid) && forall row :: row in ledger ==> row.input != e)
      && (if result.Created? then
            && result.id == |ledger| && |after| == |ledger| + 1 && after[..|ledger|] == ledger
            && after[|ledger|].input == e && after[|ledger|].importedAt == now
            && (forall j: nat :: after[|ledger|].supersedes == Some(j) <==>
                  j < |ledger| && SameRecord(ledger[j].input, e)
                  && forall k :: j < k < |ledger| ==> !SameRecord(ledger[k].input, e))
          else after == ledger)
  {
    if FindContent(ledger, e).Some? {
      assert ledger[FindContent(ledger, e).value] in ledger;
    }
    assert ValidEvent(e, fileHashValid) <==> Acceptable(e, fileHashValid);
    PriorMeans(ledger, e);
    hide ValidEvent, Acceptable;
  }

  lemma PriorMeans(ledger: seq<Row>, e: EventInput)
    ensures forall j: nat :: Prior(ledger, RecordOf(e)) == Some(j) <==>
        j < |ledger| && SameRecord(ledger[j].input, e)
        && forall k :: j < k < |ledger| ==> !SameRecord(ledger[k].input, e)
  {
    forall j: nat ensures Prior(ledger, RecordOf(e)) == Some(j) <==>
        j < |ledger| && SameRecord(ledger[j].input, e)
        && forall k :: j < k < |ledger| ==> !SameRecord(ledger[k].input, e)
    {
      PriorIs(ledger, e, j);
    }
    hide Prior, RecordOf, SameRecord;
  }

  lemma PriorIs(ledger: seq<Row>, e: EventInput, j: nat)
    ensures Prior(ledger, RecordOf(e)) == Some(j) <==>
        j < |ledger| && SameRecord(ledger[j].input, e)
        && forall k :: j < k < |ledger| ==> !SameRecord(ledger[k].input, e)
  {
    hide Prior;
    var p := Prior(ledger, RecordOf(e));
    if p.Some? {
      if j < p.value {
        assert SameRecord(ledger[p.value].input, e);
      }
    }
  }

  /** A revision visible at the moment: of a requested instrument, imported by then. */
  predicate KnownAt(ledger: seq<Row>, ids: set<nat>, asOf: Option<Instant>, k: nat) {
    && k < |ledger| && ledger[k].input.instrumentId in ids
    && (asOf == None || ledger[k].importedAt <= asOf.value)
  }

  /** The view holds, of each record, the row imported last among those known at the
      moment, and of rows imported at once the last. */
  lemma ViewMeans(ledger: seq<Row>, ids: set<nat>, asOf: Option<Instant>, r: Revision)
    ensures r in View(ledger, ids, asOf) <==>
        && KnownAt(ledger, ids, asOf, r.id) && r.row == ledger[r.id]
        && forall k: nat :: KnownAt(ledger, ids, asOf, k) && SameRecord(ledger[k].input, r.row.input) ==>
             ledger[k].importedAt < r.row.importedAt || (ledger[k].importedAt == r.row.importedAt && k <= r.id)
  {
    ViewMembers(ledger, ids, asOf, r);
    forall o ensures o in Eligible(ledger, ids, asOf) <==> KnownAt(ledger, ids, asOf, o.id) && o.row == ledger[o.id] {
      IndexedMembers(ledger, o);
    }
    hide Eligible;
    if IsLatest(Eligible(ledger, ids, asOf), r) {
      forall k: nat | KnownAt(ledger, ids, asOf, k) && SameRecord(ledger[k].input, r.row.input)
        ensures Le(ImportKey(Revision(k, ledger[k])), ImportKey(r))
      {
        assert Revision(k, ledger[k]) in Eligible(ledger, ids, asOf);
      }
    }
  }

  /** The view is read by instrument, then by the day a statement takes effect, then by row. */
  lemma ViewOrdered(ledger: seq<Row>, ids: set<nat>, asOf: Option<Instant>, j: nat, k: nat)
    requires j < k < |View(ledger, ids, asOf)|
    ensures var a, b := View(ledger, ids, asOf)[j], View(ledger, ids, asOf)[k];
      a.row.input.instrumentId < b.row.input.instrumentId
      || (a.row.input.instrumentId == b.row.input.instrumentId
          && (a.row.input.effectiveFrom < b.row.input.effectiveFrom
              || (a.row.input.effectiveFrom == b.row.input.effectiveFrom && a.id <= b.id)))
  {
    SortedAt(View(ledger, ids, asOf), ViewKey, j, k);
    hide Eligible, SortBy;
  }

  // ---- the repository --------------------------------------------------

  class ListingHistoryRepository {
    var ledger: seq<Row>

    constructor ()
      ensures ledger == []
    {
      ledger := [];
    }

    /** Store an immutable revision unless the same content is already there. */
    method IngestEvent(e: EventInput, fileHashValid: bool, now: Instant) returns (result: IngestResult)
      requires Chained(ledger) && NoRepeats(ledger)
      modifies this
      ensures (ledger, result) == Ingest(old(ledger), e, fileHashValid, now)
      ensures old(ledger) <= ledger && Chained(ledger) && NoRepeats(ledger)
      ensures result.Created? <==> ValidEvent(e, fileHashValid) && forall row :: row in old(ledger) ==> row.input != e
    {
      hide Chained, NoRepeats, ValidEvent, Prior;
      IngestKeepsChain(ledger, e, fileHashValid, now);
      if !ValidEvent(e, fileHashValid) {
        return Invalid;
      }
      var duplicate := FindContent(ledger, e);
      if duplicate.Some? {
        assert ledger[duplicate.value] in ledger;
        return Known(duplicate.value);
      }
      ledger := ledger + [Row(e, Prior(ledger, RecordOf(e)), now)];
      return Created(|ledger| - 1);
    }

    /** The latest visible revision of each record. */
    method ListCurrent(ids: set<nat>, asOf: Option<Instant>) returns (view: seq<Revision>)
      ensures view == View(ledger, ids, asOf)
    {
      var rows := SortBy(Eligible(ledger, ids, asOf), ImportKey);
      var current := LastPerRecord(rows);
      var winners := Filter(rows, (r: Revision) => RecordOf(r.row.input) in current
                            && current[RecordOf(r.row.input)] == r);
      WinnersAreLatest(ledger, ids, asOf, rows, current);
      view := SortBy(winners, ViewKey);
    }
  }

  lemma LastIsLargest(rows: seq<Revision>, i: nat, r: Revision)
    requires SortedBy(rows, ImportKey) && i < |rows| && r in rows[..i]
    ensures Le(ImportKey(r), ImportKey(rows[i]))
  {
    var j :| 0 <= j < i && rows[j] == r;
    SortedAt(rows, ImportKey, j, i);
  }

  /** Rows in import order overwrite one dictionary slot per record. */
  method LastPerRecord(rows: seq<Revision>) returns (current: map<RecordId, Revision>)
    requires SortedBy(rows, ImportKey)
    ensures forall r :: r in rows ==>
              RecordOf(r.row.input) in current && Le(ImportKey(r), ImportKey(current[RecordOf(r.row.input)]))
    ensures forall k :: k in current ==> current[k] in rows && RecordOf(current[k].row.input) == k
  {
    hide SortedBy;
    current := map[];
    var i := 0;
    while i < |rows|
      invariant 0 <= i <= |rows|
      invariant forall r :: r in rows[..i] ==>
                  RecordOf(r.row.input) in current && Le(ImportKey(r), ImportKey(current[RecordOf(r.row.input)]))
      invariant forall k :: k in current ==> current[k] in rows[..i] && RecordOf(current[k].row.input) == k
    {
      var row := rows[i];
      assert rows[..i + 1] == rows[..i] + [row];
      forall r | r in rows[..i] ensures Le(ImportKey(r), ImportKey(row)) {
        LastIsLargest(rows, i, r);
      }
      current := current[RecordOf(row.row.input) := row];
      i := i + 1;
    }
    assert rows[..i] == rows;
  }

  /** The dictionary's values are the latest revisions, whatever order they come in. */
  lemma WinnersAreLatest(ledger: seq<Row>, ids: set<nat>, asOf: Option<Instant>, rows: seq<Revision>,
                         current: map<RecordId, Revision>)
    requires multiset(rows) == multiset(Eligible(ledger, ids, asOf))
    requires forall r :: r in rows ==> RecordOf(r.row.input) in current
    requires forall k :: k in current ==> current[k] in rows && RecordOf(current[k].row.input) == k
    requires forall r :: r in rows ==> Le(ImportKey(r), ImportKey(current[RecordOf(r.row.input)]))
    ensures SortBy(Filter(rows, (r: Revision) => RecordOf(r.row.input) in current
                          && current[RecordOf(r.row.input)] == r), ViewKey)
         == View(ledger, ids, asOf)
  {
    var eligible := Eligible(ledger, ids, asOf);
    var latest := (r: Revision) => IsLatest(eligible, r);
    var chosen := (r: Revision) => RecordOf(r.row.input) in current && current[RecordOf(r.row.input)] == r;
    MultisetMembers(rows, eligible);
    forall r | r in rows ensures chosen(r) == latest(r) {
      var best := current[RecordOf(r.row.input)];
      IndexedMembers(ledger, r);
      IndexedMembers(ledger, best);
    }
    FilterSame(rows, chosen, latest);
    FilterPermutation(rows, eligible, latest);
    forall a, b | a in Filter(rows, chosen) && b in Filter(rows, chosen) && ViewKey(a) == ViewKey(b) ensures a == b {
      IndexedMembers(ledger, a);
      IndexedMembers(ledger, b);
    }
    SortPermutation(Filter(rows, chosen), Filter(eligible, latest), ViewKey);
  }
}
