/** `CallsPerSecondLimiter`: one shared slot counter under a lock.  Times are real
    numbers of seconds. */
module CallLimiter {
  import opened Common
  import opened Intervals

  datatype Created = Ok(limiter: CallsPerSecondLimiter) | InvalidRate

  function Max(a: real, b: real): real { if a >= b then a else b }

  class CallsPerSecondLimiter {
    const interval: real
    var nextAllowedAt: real

    constructor (callsPerSecond: real)
      requires callsPerSecond > 0.0
      ensures interval == 1.0 / callsPerSecond && nextAllowedAt == 0.0
    {
      interval := 1.0 / callsPerSecond;
      nextAllowedAt := 0.0;
    }

    /** The locked section: the caller sleeps `waitFor` after reading `now`. */
    method Wait(now: real) returns (waitFor: real)
      modifies this
      ensures now + waitFor == Slot(old(nextAllowedAt), now) && waitFor >= 0.0
      ensures nextAllowedAt == Slot(old(nextAllowedAt), now) + interval
    {
      waitFor := Max(0.0, nextAllowedAt - now);
      var scheduled := Max(now, nextAllowedAt) + interval;
      nextAllowedAt := scheduled;
    }
  }

  /** `CallsPerSecondLimiter(calls_per_second)`, which refuses a rate that is not positive. */
  method Create(callsPerSecond: real) returns (created: Created)
    ensures created.Ok? <==> callsPerSecond > 0.0
    ensures created.Ok? ==> fresh(created.limiter) && created.limiter.interval == 1.0 / callsPerSecond
                            && created.limiter.nextAllowedAt == 0.0
  {
    if callsPerSecond <= 0.0 {
      return InvalidRate;
    }
    var limiter := new CallsPerSecondLimiter(callsPerSecond);
    return Ok(limiter);
  }

  /** When a caller that entered the lock at `now` is let through. */
  function Slot(next: real, now: real): real { Max(now, next) }

  datatype Entry = Entry(now: real)

  /** The counter after callers entered the lock in this order, whatever their
      clocks read. */
  function NextAfter(entries: seq<Entry>, interval: real): real
    decreases |entries|
  {
    if entries == [] then 0.0
    else Slot(NextAfter(entries[..|entries| - 1], interval), entries[|entries| - 1].now) + interval
  }

  function SlotAt(entries: seq<Entry>, interval: real, i: nat): real
    requires i < |entries|
  {
    Slot(NextAfter(entries[..i], interval), entries[i].now)
  }

  lemma SlotsApart(entries: seq<Entry>, interval: real, i: nat)
    requires i + 1 < |entries|
    ensures SlotAt(entries, interval, i + 1) >= SlotAt(entries, interval, i) + interval
  {
    assert entries[..i + 1][..i] == entries[..i];
  }

  /** Slots are an interval apart for every order in which threads take the lock. */
  lemma {:induction false} SlotsSpread(entries: seq<Entry>, interval: real, i: nat, n: nat)
    requires i + n < |entries|
    ensures SlotAt(entries, interval, i + n) >= SlotAt(entries, interval, i) + Spread(n, interval)
    decreases n
  {
    hide SlotAt;
    if n > 0 {
      SlotsSpread(entries, interval, i, n - 1);
      SlotsApart(entries, interval, i + n - 1);
    }
  }

  /** Any schedule in lock order that respects the clock and the spacing. */
  ghost predicate Feasible(entries: seq<Entry>, interval: real, times: seq<Entry>) {
    && |times| == |entries|
    && (forall i :: 0 <= i < |entries| ==> times[i].now >= entries[i].now && times[i].now >= 0.0)
    && (forall i :: 0 < i < |entries| ==> times[i].now >= times[i - 1].now + interval)
  }

  /** The limiter delays nobody more than the spacing forces. */
  lemma {:induction false} SlotsAreEarliest(entries: seq<Entry>, interval: real, times: seq<Entry>, i: nat)
    requires interval > 0.0 && Feasible(entries, interval, times) && i < |entries|
    ensures SlotAt(entries, interval, i) <= times[i].now
  {
    if i > 0 {
      SlotsAreEarliest(entries, interval, times, i - 1);
      assert entries[..i][..i - 1] == entries[..i - 1];
    }
  }

  /** `releases[i]` is when call `i` really went out: not before its slot, and at
      most `delay` after it. */
  ghost predicate Released(entries: seq<Entry>, interval: real, releases: seq<Entry>, delay: real) {
    && |releases| == |entries|
    && forall i :: 0 <= i < |entries| ==>
         SlotAt(entries, interval, i) <= releases[i].now <= SlotAt(entries, interval, i) + delay
  }

  ghost predicate AllWithin(releases: seq<Entry>, calls: set<nat>, from: real, length: real) {
    forall i :: i in calls ==> i < |releases| && from <= releases[i].now <= from + length
  }

  /** Some element is at least, and some at most, as far as the count allows. */
  lemma {:induction false} SpanOfSet(calls: set<nat>) returns (lo: nat, hi: nat)
    requires calls != {}
    ensures lo in calls && hi in calls && lo <= hi && hi - lo >= |calls| - 1
  {
    lo := Least(calls);
    hi := Greatest(calls);
    assert calls <= Interval(lo, hi + 1);
    SubsetSize(calls, Interval(lo, hi + 1));
  }

  lemma {:induction false} Least(calls: set<nat>) returns (lo: nat)
    requires calls != {}
    ensures lo in calls && forall i :: i in calls ==> lo <= i
    decreases |calls|
  {
    var x :| x in calls;
    if calls == {x} {
      lo := x;
    } else {
      var rest := Least(calls - {x});
      lo := if x < rest then x else rest;
      assert calls == (calls - {x}) + {x};
    }
  }

  lemma {:induction false} Greatest(calls: set<nat>) returns (hi: nat)
    requires calls != {}
    ensures hi in calls && forall i :: i in calls ==> i <= hi
    decreases |calls|
  {
    var x :| x in calls;
    if calls == {x} {
      hi := x;
    } else {
      var rest := Greatest(calls - {x});
      hi := if x > rest then x else rest;
      assert calls == (calls - {x}) + {x};
    }
  }

  /** Calls that sleep no more than `delay` beyond their slot: a window of length T
      sees at most floor((T + delay) / interval) + 1 of them.  With exact sleeps
      the bound is floor(T / interval) + 1. */
  lemma WindowHoldsCalls(entries: seq<Entry>, interval: real, releases: seq<Entry>, delay: real, calls: set<nat>,
                         from: real, length: real)
    requires interval > 0.0 && delay >= 0.0 && length >= 0.0
    requires Released(entries, interval, releases, delay) && AllWithin(releases, calls, from, length)
    ensures |calls| <= ((length + delay) / interval).Floor + 1
  {
    if calls == {} {
      WholeIntervals(0, interval, length + delay);
    } else {
      var lo, hi := SpanOfSet(calls);
      SlotsSpread(entries, interval, lo, hi - lo);
      hide SlotAt, Spread;
      assert releases[hi].now <= from + length && releases[lo].now >= from;
      assert SlotAt(entries, interval, hi) - SlotAt(entries, interval, lo) <= length + delay;
      WholeIntervals(hi - lo, interval, length + delay);
    }
  }

  /** Each call goes out an interval after the one before. */
  ghost predicate Apart(releases: seq<Entry>, interval: real) {
    forall i :: 0 < i < |releases| ==> releases[i].now >= releases[i - 1].now + interval
  }

  /** Whatever the wake-ups, up to `delay` late, releases stay an interval apart
      exactly when the slots leave room for the delay. */
  lemma ReleasesApartIff(entries: seq<Entry>, interval: real, delay: real)
    requires delay >= 0.0
    ensures (forall releases :: Released(entries, interval, releases, delay) ==> Apart(releases, interval))
       <==> forall i :: 0 < i < |entries| ==>
              SlotAt(entries, interval, i) >= SlotAt(entries, interval, i - 1) + interval + delay
  {
    if i :| 0 < i < |entries| && SlotAt(entries, interval, i) < SlotAt(entries, interval, i - 1) + interval + delay {
      var releases := seq(|entries|, k requires 0 <= k < |entries| =>
        Entry(SlotAt(entries, interval, k) + if k == i - 1 then delay else 0.0));
      hide SlotAt;
      assert Released(entries, interval, releases, delay);
      assert releases[i].now < releases[i - 1].now + interval;
    }
    hide SlotAt;
  }

  /** For instance, the second of three callers sleeps a second too long and goes out
      together with the third. */
  lemma LateWakeUpsCollide()
    ensures var entries := [Entry(0.0), Entry(0.0), Entry(0.0)];
      var releases := [Entry(0.0), Entry(2.0), Entry(2.0)];
      Released(entries, 1.0, releases, 1.0) && SlotAt(entries, 1.0, 1) > entries[1].now && !Apart(releases, 1.0)
  {
    var entries := [Entry(0.0), Entry(0.0), Entry(0.0)];
    var releases := [Entry(0.0), Entry(2.0), Entry(2.0)];
    assert entries[..0] == [] && entries[..1] == [Entry(0.0)] && entries[..2] == [Entry(0.0), Entry(0.0)];
    assert entries[..1][..0] == [] && entries[..2][..1] == [Entry(0.0)];
    assert NextAfter(entries[..1], 1.0) == 1.0;
    assert NextAfter(entries[..2], 1.0) == 2.0;
    assert SlotAt(entries, 1.0, 0) == 0.0 && SlotAt(entries, 1.0, 1) == 1.0 && SlotAt(entries, 1.0, 2) == 2.0;
    assert releases[2].now < releases[1].now + 1.0;
  }
}
