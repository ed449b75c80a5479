/** Sliding-window admission of requests.  Times are real numbers of seconds. */
module RateLimits {
  import opened Common

  const WINDOW := 60.0

  /** The client and the path, joined by a colon. */
  type HitKey = string

  datatype Request = Request(client: string, path: string, now: Stamp) {
    function Key(): HitKey { client + ":" + path }
  }

  /** A clock reading. */
  datatype Stamp = Stamp(at: real)

  /** `_match_limit`; the agent limit is a setting. */
  function MatchLimit(path: string, agentLimit: int): int {
    if "/api/v1/agent/v1" <= path then agentLimit
    else if "/api/v1/rankings/rs" <= path then 30
    else if "/api/v1/stocks" <= path then 30
    else 60
  }

  function Newer(cut: real): Stamp -> bool { (t: Stamp) => t.at > cut }

  function HitsOf(hits: map<HitKey, seq<Stamp>>, k: HitKey): seq<Stamp> { if k in hits then hits[k] else [] }

  /** What one dispatch does to the hit lists; the prune happens even on a 429. */
  function Dispatched(hits: map<HitKey, seq<Stamp>>, r: Request, agentLimit: int): (map<HitKey, seq<Stamp>>, bool) {
    var recent := Filter(HitsOf(hits, r.Key()), Newer(r.now.at - WINDOW));
    if |recent| >= MatchLimit(r.path, agentLimit) then (hits[r.Key() := recent], false)
    else (hits[r.Key() := recent + [r.now]], true)
  }

  /** The list comprehension that keeps the hits after `cut`. */
  method Pruned(mine: seq<Stamp>, cut: real) returns (recent: seq<Stamp>)
    ensures recent == Filter(mine, Newer(cut))
  {
    recent := [];
    var i := 0;
    while i < |mine|
      invariant 0 <= i <= |mine|
      invariant recent == Filter(mine[..i], Newer(cut))
    {
      assert mine[..i + 1] == mine[..i] + [mine[i]];
      FilterAppend(mine[..i], [mine[i]], Newer(cut));
      if mine[i].at > cut {
        recent := recent + [mine[i]];
      }
      i := i + 1;
    }
    assert mine[..i] == mine;
  }

  /** Nothing awaits between pruning and appending, so a dispatch is one step. */
  class RateLimitMiddleware {
    var hits: map<HitKey, seq<Stamp>>

    constructor ()
      ensures hits == map[]
    {
      hits := map[];
    }

    method Dispatch(r: Request, agentLimit: int) returns (admitted: bool)
      modifies this
      ensures (hits, admitted) == Dispatched(old(hits), r, agentLimit)
    {
      var limit, key := MatchLimit(r.path, agentLimit), r.Key();
      var windowStart := r.now.at - WINDOW;
      var recent := Pruned(HitsOf(hits, key), windowStart);
      hits := hits[key := recent];
      if |recent| >= limit {
        return false;
      }
      hits := hits[key := hits[key] + [r.now]];
      assert hits == old(hits)[key := recent + [r.now]];
      return true;
    }
  }

  // ---- whole runs ------------------------------------------------------

  function HitsAfter(run: seq<Request>, agentLimit: int): map<HitKey, seq<Stamp>>
    decreases |run|
  {
    if run == [] then map[] else Dispatched(HitsAfter(run[..|run| - 1], agentLimit), run[|run| - 1], agentLimit).0
  }

  predicate Admits(run: seq<Request>, r: Request, agentLimit: int) {
    Dispatched(HitsAfter(run, agentLimit), r, agentLimit).1
  }

  /** The admission times of one key. */
  function AdmittedTimes(run: seq<Request>, agentLimit: int, k: HitKey): seq<Stamp>
    decreases |run|
  {
    if run == [] then []
    else
      var front, last := run[..|run| - 1], run[|run| - 1];
      AdmittedTimes(front, agentLimit, k)
      + if last.Key() == k && Admits(front, last, agentLimit) then [last.now] else []
  }

  /** No request with this key has a larger limit. */
  ghost predicate Limited(run: seq<Request>, agentLimit: int, k: HitKey, limit: int) {
    forall r :: r in run && r.Key() == k ==> MatchLimit(r.path, agentLimit) <= limit
  }

  ghost predicate MonotoneClock(run: seq<Request>) {
    forall i, j :: 0 <= i < j < |run| ==> run[i].now.at <= run[j].now.at
  }

  ghost predicate Ordered(ts: seq<Stamp>) {
    forall i, j :: 0 <= i < j < |ts| ==> ts[i].at <= ts[j].at
  }

  /** Any `limit + 1` consecutive admissions span a whole window. */
  ghost predicate Spaced(ts: seq<Stamp>, limit: int) {
    forall i, j :: 0 <= i < |ts| && 0 <= j < |ts| && j == i + limit ==> ts[j].at - ts[i].at >= WINDOW
  }

  /** Pruning an ordered list drops a prefix. */
  lemma {:induction false} PruneDropsPrefix(ts: seq<Stamp>, cut: real) returns (n: nat)
    requires Ordered(ts)
    ensures n <= |ts| && Filter(ts, Newer(cut)) == ts[n..]
    ensures forall i :: 0 <= i < |ts| ==> (i < n <==> ts[i].at <= cut)
  {
    if ts == [] {
      n := 0;
    } else if ts[0].at <= cut {
      var rest := PruneDropsPrefix(ts[1..], cut);
      n := rest + 1;
      forall i | 0 <= i < |ts| ensures i < n <==> ts[i].at <= cut {
        if i > 0 {
          assert ts[i] == ts[1..][i - 1];
        }
      }
    } else {
      n := 0;
      FilterAll(ts, Newer(cut));
    }
  }

  /** Stored hits are the admissions without a prefix of `n` that lies a whole
      window behind the last clock reading. */
  ghost predicate Tracking(admitted: seq<Stamp>, stored: seq<Stamp>, limit: int, n: nat, clock: Option<Stamp>) {
    && n <= |admitted| && stored == admitted[n..]
    && Ordered(admitted) && Spaced(admitted, limit)
    && (clock.None? ==> admitted == [])
    && (clock.Some? ==> NoLater(admitted, clock.value.at) && NoLater(admitted[..n], clock.value.at - WINDOW))
  }

  ghost predicate NoLater(ts: seq<Stamp>, now: real) { forall i :: 0 <= i < |ts| ==> ts[i].at <= now }

  function ClockOf(run: seq<Request>): Option<Stamp> { if run == [] then None else Some(run[|run| - 1].now) }

  ghost predicate Tracks(run: seq<Request>, agentLimit: int, k: HitKey, limit: int, n: nat) {
    Tracking(AdmittedTimes(run, agentLimit, k), HitsOf(HitsAfter(run, agentLimit), k), limit, n, ClockOf(run))
  }

  lemma {:induction false} TracksAlways(run: seq<Request>, agentLimit: int, k: HitKey, limit: int) returns (n: nat)
    requires MonotoneClock(run) && Limited(run, agentLimit, k, limit)
    ensures Tracks(run, agentLimit, k, limit, n)
    decreases |run|
  {
    if run == [] {
      n := 0;
    } else {
      var front, last := run[..|run| - 1], run[|run| - 1];
      assert run == front + [last];
      FrontIsMonotone(run);
      FrontIsLimited(front, last, agentLimit, k, limit);
      hide Tracks, MonotoneClock, Limited;
      var m := TracksAlways(front, agentLimit, k, limit);
      n := TracksNext(front, last, agentLimit, k, limit, m);
    }
  }

  lemma FrontIsLimited(front: seq<Request>, last: Request, agentLimit: int, k: HitKey, limit: int)
    requires Limited(front + [last], agentLimit, k, limit)
    ensures Limited(front, agentLimit, k, limit)
    ensures last.Key() == k ==> MatchLimit(last.path, agentLimit) <= limit
  {
    assert last in front + [last] && forall r :: r in front ==> r in front + [last];
  }

  lemma FrontIsMonotone(run: seq<Request>)
    requires MonotoneClock(run) && run != []
    ensures MonotoneClock(run[..|run| - 1])
    ensures |run| > 1 ==> run[..|run| - 1][|run| - 2].now.at <= run[|run| - 1].now.at
  {
  }

  lemma LastStep(front: seq<Request>, last: Request, agentLimit: int, k: HitKey)
    ensures HitsAfter(front + [last], agentLimit) == Dispatched(HitsAfter(front, agentLimit), last, agentLimit).0
    ensures AdmittedTimes(front + [last], agentLimit, k)
         == AdmittedTimes(front, agentLimit, k)
            + if last.Key() == k && Admits(front, last, agentLimit) then [last.now] else []
  {
    var run := front + [last];
    assert run[..|run| - 1] == front && run[|run| - 1] == last;
  }

  lemma TracksNext(front: seq<Request>, last: Request, agentLimit: int, k: HitKey, limit: int, m: nat) returns (n: nat)
    requires Tracks(front, agentLimit, k, limit, m)
    requires last.Key() == k ==> MatchLimit(last.path, agentLimit) <= limit
    requires front != [] ==> front[|front| - 1].now.at <= last.now.at
    ensures Tracks(front + [last], agentLimit, k, limit, n)
  {
    LastStep(front, last, agentLimit, k);
    var admitted, stored := AdmittedTimes(front, agentLimit, k), HitsOf(HitsAfter(front, agentLimit), k);
    hide HitsAfter, AdmittedTimes, MatchLimit, Tracking;
    if last.Key() == k {
      n := OwnStep(admitted, stored, limit, MatchLimit(last.path, agentLimit), m, ClockOf(front), last.now);
    } else {
      n := m;
      OtherStep(admitted, stored, limit, m, ClockOf(front), last.now);
    }
    assert admitted + [] == admitted;
    assert ClockOf(front + [last]) == Some(last.now);
  }

  lemma OtherStep(admitted: seq<Stamp>, stored: seq<Stamp>, limit: int, m: nat, clock: Option<Stamp>, now: Stamp)
    requires Tracking(admitted, stored, limit, m, clock) && (clock.Some? ==> clock.value.at <= now.at)
    ensures Tracking(admitted, stored, limit, m, Some(now))
  {
    hide Spaced, Ordered;
  }

  lemma OwnStep(admitted: seq<Stamp>, stored: seq<Stamp>, limit: int, own: int, m: nat, clock: Option<Stamp>,
                now: Stamp)
    returns (n: nat)
    requires Tracking(admitted, stored, limit, m, clock) && (clock.Some? ==> clock.value.at <= now.at) && own <= limit
    ensures var recent := Filter(stored, Newer(now.at - WINDOW));
      if |recent| >= own then Tracking(admitted, recent, limit, n, Some(now))
      else Tracking(admitted + [now], recent + [now], limit, n, Some(now))
  {
    OtherStep(admitted, stored, limit, m, clock, now);
    n := StoredSuffix(admitted, stored, m, now.at - WINDOW);
    var recent := Filter(stored, Newer(now.at - WINDOW));
    hide Spaced, Ordered, Filter;
    if |recent| < own {
      AdmissionIsSpaced(admitted, now, limit, n);
      assert (admitted + [now])[n..] == admitted[n..] + [now];
      assert (admitted + [now])[..n] == admitted[..n];
    }
  }

  lemma StoredSuffix(admitted: seq<Stamp>, stored: seq<Stamp>, m: nat, cut: real) returns (n: nat)
    requires m <= |admitted| && stored == admitted[m..] && Ordered(admitted)
    requires NoLater(admitted[..m], cut)
    ensures n <= |admitted| && Filter(stored, Newer(cut)) == admitted[n..]
    ensures NoLater(admitted[..n], cut)
  {
    var dropped := PruneDropsPrefix(stored, cut);
    n := m + dropped;
    assert stored[dropped..] == admitted[n..];
    forall i | 0 <= i < n ensures admitted[..n][i].at <= cut {
      if i >= m {
        assert admitted[i] == stored[i - m];
      } else {
        assert admitted[i] == admitted[..m][i];
      }
    }
  }

  lemma AdmissionIsSpaced(admitted: seq<Stamp>, now: Stamp, limit: int, n: nat)
    requires Ordered(admitted) && Spaced(admitted, limit) && n <= |admitted| && |admitted| - n < limit
    requires NoLater(admitted, now.at) && NoLater(admitted[..n], now.at - WINDOW)
    ensures Ordered(admitted + [now]) && Spaced(admitted + [now], limit) && NoLater(admitted + [now], now.at)
  {
    var i := |admitted| - limit;
    if i >= 0 {
      assert admitted[..n][i] == admitted[i];
    }
  }

  function InWindow(t: real): Stamp -> bool { (s: Stamp) => t <= s.at < t + WINDOW }

  /** Over any run on a monotone clock, no half-open window of 60 seconds holds more
      of one key's admissions than the largest limit among its requests (none, for a
      limit below one).  So it is a path's own limit unless the key is shared. */
  lemma WindowHoldsLimit(run: seq<Request>, agentLimit: int, k: HitKey, limit: int, t: real)
    requires MonotoneClock(run) && Limited(run, agentLimit, k, limit)
    ensures |Filter(AdmittedTimes(run, agentLimit, k), InWindow(t))| <= if limit > 0 then limit else 0
  {
    var n := TracksAlways(run, agentLimit, k, limit);
    var admitted := AdmittedTimes(run, agentLimit, k);
    if limit <= 0 {
      NothingAdmitted(run, agentLimit, k, limit);
    } else {
      hide MonotoneClock;
      SpacedWindow(admitted, limit, t);
    }
  }

  /** The admissions of a key in a window of 60 seconds, in numbers: 30 if all its paths are
      rankings or stocks paths, 60 if none is an agent path, and else the larger of 60 and
      the agent's own limit. */
  lemma MinuteHolds(run: seq<Request>, agentLimit: int, k: HitKey, t: real)
    requires MonotoneClock(run)
    ensures var inMinute := |Filter(AdmittedTimes(run, agentLimit, k), (s: Stamp) => t <= s.at < t + 60.0)|;
      && ((forall r :: r in run && r.client + ":" + r.path == k ==>
             !("/api/v1/agent/v1" <= r.path) && ("/api/v1/rankings/rs" <= r.path || "/api/v1/stocks" <= r.path)) ==>
            inMinute <= 30)
      && ((forall r :: r in run && r.client + ":" + r.path == k ==> !("/api/v1/agent/v1" <= r.path)) ==>
            inMinute <= 60)
      && ((forall r :: r in run && r.client + ":" + r.path == k ==> "/api/v1/agent/v1" <= r.path) ==>
            inMinute <= if agentLimit > 0 then agentLimit else 0)
      && inMinute <= if agentLimit > 60 then agentLimit else 60
  {
    var admitted := AdmittedTimes(run, agentLimit, k);
    FilterSame(admitted, InWindow(t), (s: Stamp) => t <= s.at < t + 60.0);
    hide MonotoneClock, AdmittedTimes, Filter, InWindow;
    if Limited(run, agentLimit, k, 30) {
      WindowHoldsLimit(run, agentLimit, k, 30, t);
    }
    if Limited(run, agentLimit, k, 60) {
      WindowHoldsLimit(run, agentLimit, k, 60, t);
    }
    if Limited(run, agentLimit, k, agentLimit) {
      WindowHoldsLimit(run, agentLimit, k, agentLimit, t);
    }
  }

  /** A request is admitted exactly when its key has had fewer admissions in the 60 seconds
      before it than its path allows: the agent's own limit, 30 for rankings and stocks, or 60. */
  lemma AdmittedIff(run: seq<Request>, r: Request, agentLimit: int)
    requires MonotoneClock(run + [r])
    ensures Admits(run, r, agentLimit) <==>
        |Filter(AdmittedTimes(run, agentLimit, r.client + ":" + r.path), (s: Stamp) => s.at > r.now.at - 60.0)|
        < if "/api/v1/agent/v1" <= r.path then agentLimit
          else if "/api/v1/rankings/rs" <= r.path || "/api/v1/stocks" <= r.path then 30 else 60
  {
    hide MonotoneClock, Tracking, Limited, AdmittedTimes, HitsAfter, Filter, Newer;
    var k, cut := r.Key(), r.now.at - WINDOW;
    var admitted := AdmittedTimes(run, agentLimit, k);
    LongEnough(run, agentLimit, k);
    ClockBefore(run, r);
    var limit := if agentLimit > 60 then agentLimit else 60;
    var n := TracksAlways(run, agentLimit, k, limit);
    RecentOfStored(admitted, HitsOf(HitsAfter(run, agentLimit), k), limit, n, ClockOf(run), cut);
    RecentIs(admitted, r.now.at);
  }

  lemma RecentIs(admitted: seq<Stamp>, now: real)
    ensures Filter(admitted, Newer(now - WINDOW)) == Filter(admitted, (s: Stamp) => s.at > now - 60.0)
  {
    FilterSame(admitted, Newer(now - WINDOW), (s: Stamp) => s.at > now - 60.0);
  }

  lemma LongEnough(run: seq<Request>, agentLimit: int, k: HitKey)
    ensures Limited(run, agentLimit, k, if agentLimit > 60 then agentLimit else 60)
  {
  }

  lemma ClockBefore(run: seq<Request>, r: Request)
    requires MonotoneClock(run + [r])
    ensures MonotoneClock(run) && (ClockOf(run).Some? ==> ClockOf(run).value.at <= r.now.at)
  {
    FrontIsMonotone(run + [r]);
    assert (run + [r])[..|run|] == run;
    hide MonotoneClock;
  }

  lemma RecentOfStored(admitted: seq<Stamp>, stored: seq<Stamp>, limit: int, n: nat, clock: Option<Stamp>, cut: real)
    requires Tracking(admitted, stored, limit, n, clock) && (clock.Some? ==> clock.value.at - WINDOW <= cut)
    ensures Filter(stored, Newer(cut)) == Filter(admitted, Newer(cut))
  {
    assert admitted == admitted[..n] + admitted[n..];
    FilterAppend(admitted[..n], admitted[n..], Newer(cut));
    forall s | s in admitted[..n] ensures !Newer(cut)(s) {
      var i :| 0 <= i < n && admitted[..n][i] == s;
    }
    FilterNone(admitted[..n], Newer(cut));
    hide Filter, Ordered, Spaced;
  }

  /** Two clients and paths of different limits can have one key, and then one list. */
  lemma KeysCanBeShared(now: Stamp)
    ensures var a, b := Request("10.0.0.1", "/x:/api/v1/stocks", now), Request("10.0.0.1:/x", "/api/v1/stocks", now);
      a.Key() == b.Key() && MatchLimit(a.path, 60) == 60 && MatchLimit(b.path, 60) == 30
  {
    assert MatchLimit("/x:/api/v1/stocks", 60) == 60 by { OddPath(); }
    assert MatchLimit("/api/v1/stocks", 60) == 30 by { StocksPath(); }
    hide MatchLimit;
  }

  lemma OddPath()
    ensures MatchLimit("/x:/api/v1/stocks", 60) == 60
  {
    assert "/x:/api/v1/stocks"[1] == 'x' && "/api/v1/stocks"[1] == 'a';
    assert "/api/v1/agent/v1"[1] == 'a' && "/api/v1/rankings/rs"[1] == 'a';
  }

  lemma StocksPath()
    ensures MatchLimit("/api/v1/stocks", 60) == 30
  {
    assert "/api/v1/stocks"[8] == 's' && "/api/v1/agent/v1"[8] == 'a' && "/api/v1/rankings/rs"[8] == 'r';
  }

  lemma {:induction false} NothingAdmitted(run: seq<Request>, agentLimit: int, k: HitKey, limit: int)
    requires Limited(run, agentLimit, k, limit) && limit <= 0
    ensures AdmittedTimes(run, agentLimit, k) == []
    decreases |run|
  {
    if run != [] {
      var front, last := run[..|run| - 1], run[|run| - 1];
      assert run == front + [last];
      FrontIsLimited(front, last, agentLimit, k, limit);
      NothingAdmitted(front, agentLimit, k, limit);
    }
  }

  lemma {:induction false} SpacedWindow(ts: seq<Stamp>, limit: nat, t: real)
    requires Ordered(ts) && Spaced(ts, limit) && limit > 0
    ensures |Filter(ts, InWindow(t))| <= limit
    decreases |ts|
  {
    if ts != [] {
      var rest := ts[1..];
      assert forall i :: 0 <= i < |rest| ==> rest[i] == ts[i + 1];
      SpacedWindow(rest, limit, t);
      if InWindow(t)(ts[0]) {
        LeadingWindow(ts, limit, t);
      }
    }
  }

  /** From an admission inside the window on, all that fits are the next ones before
      the one `limit` places later. */
  lemma LeadingWindow(ts: seq<Stamp>, limit: nat, t: real)
    requires Ordered(ts) && Spaced(ts, limit) && limit > 0 && ts != [] && InWindow(t)(ts[0])
    ensures |Filter(ts, InWindow(t))| <= limit
  {
    if |ts| > limit {
      var head, tail := ts[..limit], ts[limit..];
      assert ts == head + tail && tail[0] == ts[limit];
      forall s | s in tail ensures !InWindow(t)(s) {
        var i :| 0 <= i < |tail| && tail[i] == s;
        assert ts[limit + i] == s;
      }
      FilterAppend(head, tail, InWindow(t));
      FilterNone(tail, InWindow(t));
    }
  }
}
