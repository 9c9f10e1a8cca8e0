/** The fixed-window rate limiter over Redis counters with expiry. Times are in milliseconds. */
module RateLimit {
  import opened Wrappers
  import opened Sequences

  /** A counter key; `expires` is None while the key has no time to live. */
  datatype Counter = Counter(count: nat, expires: Option<int>)

  datatype Verdict = Verdict(allowed: bool, remaining: nat, resetSeconds: int)

  /** An expired key is gone. */
  function Live(key: Option<Counter>, now: int): Option<Counter> {
    if key.Some? && key.value.expires.Some? && now >= key.value.expires.value then None else key
  }

  function Incremented(key: Option<Counter>, now: int): Counter {
    match Live(key, now)
    case None => Counter(1, None)
    case Some(k) => k.(count := k.count + 1)
  }

  /** The key after one request; the expiry is set by a second command, which a crash can lose. */
  function AfterHit(key: Option<Counter>, windowSeconds: nat, now: int, expireRuns: bool): Counter {
    var k := Incremented(key, now);
    if k.count == 1 && expireRuns then k.(expires := Some(now + 1000 * windowSeconds)) else k
  }

  /** The counters held by Redis. */
  class RedisService {
    var counters: map<string, Counter>

    constructor ()
      ensures counters == map[]
    {
      counters := map[];
    }

    function Key(key: string): Option<Counter>
      reads this
    {
      if key in counters then Some(counters[key]) else None
    }

    method Incr(key: string, now: int) returns (count: nat)
      modifies this
      ensures counters == old(counters)[key := Incremented(old(Key(key)), now)]
      ensures count == counters[key].count
    {
      if key in counters && counters[key].expires.Some? && now >= counters[key].expires.value {
        counters := counters - {key};
      }
      if key !in counters {
        counters := counters[key := Counter(0, None)];
      }
      counters := counters[key := counters[key].(count := counters[key].count + 1)];
      count := counters[key].count;
    }

    method Expire(key: string, seconds: nat, now: int)
      requires key in counters
      modifies this
      ensures counters == old(counters)[key := old(counters)[key].(expires := Some(now + 1000 * seconds))]
    {
      counters := counters[key := counters[key].(expires := Some(now + 1000 * seconds))];
    }

    /** One request that runs to its end: only its own key moves, and the answer is read off the new counter. */
    method RateLimit(key: string, limit: nat, windowSeconds: nat, now: int) returns (verdict: Verdict)
      requires windowSeconds > 0
      modifies this
      ensures counters == old(counters)[key := AfterHit(old(Key(key)), windowSeconds, now, true)]
      ensures verdict.allowed <==> counters[key].count <= limit
      ensures verdict.remaining + counters[key].count == limit
              || (verdict.remaining == 0 && counters[key].count > limit)
      ensures match counters[key].expires
              case None => verdict.resetSeconds == windowSeconds
              case Some(e) => 0 <= verdict.resetSeconds && -500 < 1000 * verdict.resetSeconds - (e - now) <= 500
    {
      var count := Incr(key, now);
      if count == 1 {
        Expire(key, windowSeconds, now);
      }
      var ttl := match counters[key].expires
        case None => -1
        case Some(e) => (e - now + 500) / 1000;
      var remaining := if limit > count then limit - count else 0;
      verdict := Verdict(count <= limit, remaining, if ttl < 0 then windowSeconds else ttl);
    }
  }

  // --- Runs of requests against one key --------------------------------------

  datatype Hit = Hit(at: int, expireRuns: bool)

  /** What happened to one request: the opening time of the window it fell in and its place there. */
  datatype Seen = Seen(at: int, start: int, count: nat, expiring: bool)

  /** A request whose process died between the two commands got no answer. */
  predicate Allowed(s: Seen, limit: nat) {
    s.count <= limit && (s.count == 1 ==> s.expiring)
  }

  function See(trace: seq<Seen>, hit: Hit, window: int): Seen {
    if trace == [] || (Last(trace).expiring && hit.at >= Last(trace).start + window)
    then Seen(hit.at, hit.at, 1, hit.expireRuns)
    else Seen(hit.at, Last(trace).start, Last(trace).count + 1, Last(trace).expiring)
  }

  function Trace(hits: seq<Hit>, window: int): (trace: seq<Seen>)
    ensures |trace| == |hits|
  {
    if hits == [] then []
    else
      var before := Trace(Front(hits), window);
      before + [See(before, Last(hits), window)]
  }

  function KeyAfter(hits: seq<Hit>, windowSeconds: nat): Option<Counter> {
    if hits == [] then None
    else Some(AfterHit(KeyAfter(Front(hits), windowSeconds), windowSeconds, Last(hits).at, Last(hits).expireRuns))
  }

  /** The trace describes exactly the counter the limiter keeps. */
  lemma {:induction false} TraceIsTheCounter(hits: seq<Hit>, windowSeconds: nat)
    ensures var trace := Trace(hits, 1000 * windowSeconds);
            KeyAfter(hits, windowSeconds)
            == if trace == [] then None
               else Some(Counter(Last(trace).count,
                                 if Last(trace).expiring then Some(Last(trace).start + 1000 * windowSeconds) else None))
    ensures forall s :: s in Trace(hits, 1000 * windowSeconds) ==> s.count >= 1
  {
    if hits != [] {
      TraceIsTheCounter(Front(hits), windowSeconds);
    }
  }

  predicate InOrder(hits: seq<Hit>) {
    forall i, j :: 0 <= i < j < |hits| ==> hits[i].at <= hits[j].at
  }

  /** Each request lies in its window, and the first of a window opened it. */
  predicate Placed(s: Seen, window: int) {
    && s.count >= 1 && s.start <= s.at
    && (s.expiring ==> s.at < s.start + window)
    && (s.count == 1 ==> s.at == s.start)
  }

  /** Windows do not overlap, and requests of one window have different places. */
  predicate Ordered(s: Seen, later: Seen, window: int) {
    && s.at <= later.at
    && (s.start == later.start ==> s.count < later.count && s.expiring == later.expiring)
    && (s.start != later.start ==> s.expiring && s.start + window <= later.start && s.at <= later.start)
  }

  ghost predicate WellFormed(trace: seq<Seen>, window: int) {
    && (forall i :: 0 <= i < |trace| ==> Placed(trace[i], window))
    && (forall i, j :: 0 <= i < j < |trace| ==> Ordered(trace[i], trace[j], window))
  }

  lemma {:induction false} TraceIsWellFormed(hits: seq<Hit>, window: int)
    requires InOrder(hits) && window > 0
    ensures WellFormed(Trace(hits, window), window)
    ensures forall i :: 0 <= i < |hits| ==> Trace(hits, window)[i].at == hits[i].at
  {
    if hits != [] {
      var front := Front(hits);
      TraceIsWellFormed(front, window);
      var before, trace := Trace(front, window), Trace(hits, window);
      var next := Last(trace);
      assert next.at == Last(hits).at;
      if before != [] {
        assert Last(before).at == hits[|hits| - 2].at <= next.at;
        assert Ordered(Last(before), next, window);
        forall i | 0 <= i < |before|
          ensures Ordered(before[i], next, window)
        {
          if i < |before| - 1 {
            assert Ordered(before[i], Last(before), window);
          }
        }
      }
    }
  }

  // --- Counting admitted requests --------------------------------------------

  /** The admitted requests of the window that opened at `start`. */
  function AdmittedIn(trace: seq<Seen>, limit: nat, start: int): set<nat> {
    set i: nat | i < |trace| && trace[i].start == start && Allowed(trace[i], limit)
  }

  /** The admitted requests with `from <= at < until`. */
  function AdmittedBetween(trace: seq<Seen>, limit: nat, from: int, until: int): set<nat> {
    set i: nat | i < |trace| && from <= trace[i].at < until && Allowed(trace[i], limit)
  }

  lemma Compare(trace: seq<Seen>, window: int, i: nat, j: nat)
    requires WellFormed(trace, window) && i < |trace| && j < |trace|
    ensures i < j ==> Ordered(trace[i], trace[j], window)
    ensures j < i ==> Ordered(trace[j], trace[i], window)
  {
  }

  /** Requests of one window whose places lie in `low + 1 .. high` are at most `high - low`. */
  lemma {:induction false} DistinctPlaces(trace: seq<Seen>, window: int, start: int, ids: set<nat>, low: nat, high: nat)
    requires WellFormed(trace, window) && low <= high
    requires forall i :: i in ids ==> i < |trace| && trace[i].start == start && low < trace[i].count <= high
    ensures |ids| <= high - low
    decreases high
  {
    if low == high {
      if i :| i in ids {
        assert false;
      }
    } else if i :| i in ids && trace[i].count == high {
      forall j | j in ids - {i}
        ensures trace[j].count <= high - 1
      {
        Compare(trace, window, i, j);
      }
      DistinctPlaces(trace, window, start, ids - {i}, low, high - 1);
    } else {
      DistinctPlaces(trace, window, start, ids, low, high - 1);
    }
  }

  /** No window admits more than `limit` requests. */
  lemma LimitPerWindow(hits: seq<Hit>, limit: nat, windowSeconds: nat, start: int)
    requires InOrder(hits) && windowSeconds > 0
    ensures |AdmittedIn(Trace(hits, 1000 * windowSeconds), limit, start)| <= limit
  {
    var trace := Trace(hits, 1000 * windowSeconds);
    TraceIsWellFormed(hits, 1000 * windowSeconds);
    DistinctPlaces(trace, 1000 * windowSeconds, start, AdmittedIn(trace, limit, start), 0, limit);
  }

  /** Requests at most a window apart fall in at most two windows. */
  lemma TwoWindowsAtMost(trace: seq<Seen>, window: int, from: int, i: nat, j: nat, k: nat)
    requires WellFormed(trace, window) && i < |trace| && j < |trace| && k < |trace|
    requires trace[i].start < trace[j].start < trace[k].start && from <= trace[i].at
    ensures from + window <= trace[k].at
  {
    Compare(trace, window, i, j);
    Compare(trace, window, j, k);
  }

  /** Any half-open stretch of one window's length admits at most twice the limit, less one. */
  lemma LimitPerStretch(hits: seq<Hit>, limit: nat, windowSeconds: nat, from: int)
    requires InOrder(hits) && windowSeconds > 0 && limit > 0
    ensures |AdmittedBetween(Trace(hits, 1000 * windowSeconds), limit, from, from + 1000 * windowSeconds)|
            <= 2 * limit - 1
  {
    var window := 1000 * windowSeconds;
    var trace := Trace(hits, window);
    TraceIsWellFormed(hits, window);
    var ids := AdmittedBetween(trace, limit, from, from + window);
    if ids != {} {
      var i :| i in ids;
      if j :| j in ids && trace[j].start != trace[i].start {
        if trace[i].start < trace[j].start {
          StretchOverTwoWindows(trace, limit, window, from, i, j);
        } else {
          StretchOverTwoWindows(trace, limit, window, from, j, i);
        }
      } else {
        DistinctPlaces(trace, window, trace[i].start, ids, 0, limit);
      }
    }
  }

  lemma StretchOverTwoWindows(trace: seq<Seen>, limit: nat, window: int, from: int, i: nat, j: nat)
    requires WellFormed(trace, window) && limit > 0
    requires var ids := AdmittedBetween(trace, limit, from, from + window);
             i in ids && j in ids && trace[i].start < trace[j].start
    ensures |AdmittedBetween(trace, limit, from, from + window)| <= 2 * limit - 1
  {
    var ids := AdmittedBetween(trace, limit, from, from + window);
    var first := set k | k in ids && trace[k].start == trace[i].start;
    var second := set k | k in ids && trace[k].start == trace[j].start;
    forall k | k in ids
      ensures k in first + second
    {
      if trace[k].start != trace[i].start && trace[k].start != trace[j].start {
        if trace[k].start < trace[i].start {
          TwoWindowsAtMost(trace, window, from, k, i, j);
        } else if trace[k].start < trace[j].start {
          TwoWindowsAtMost(trace, window, from, i, k, j);
        } else {
          TwoWindowsAtMost(trace, window, from, i, j, k);
        }
      }
    }
    assert ids == first + second;
    assert trace[i].start < from by {
      Compare(trace, window, i, j);
      assert Placed(trace[j], window);
    }
    forall k | k in first
      ensures trace[k].count > 1
    {
      assert Placed(trace[k], window);
    }
    DistinctPlaces(trace, window, trace[i].start, first, 1, limit);
    DistinctPlaces(trace, window, trace[j].start, second, 0, limit);
  }

  // --- The bound is sharp ----------------------------------------------------

  function Burst(n: nat, at: int): seq<Hit> {
    seq(n, _ => Hit(at, true))
  }

  /** The whole trace of one request at `first` and `limit` more at each of two later times. */
  lemma {:induction false} BurstTrace(hits: seq<Hit>, n: nat, at: int, window: int)
    requires hits != [] && window > 0
    requires var last := Last(Trace(hits, window)); last.expiring && last.start <= at < last.start + window
    ensures var before, after := Trace(hits, window), Trace(hits + Burst(n, at), window);
            && |after| == |before| + n && after[..|before|] == before
            && forall i :: |before| <= i < |after| ==>
                 after[i] == Seen(at, Last(before).start, Last(before).count + 1 + i - |before|, true)
  {
    if n == 0 {
      assert hits + Burst(0, at) == hits;
    } else {
      BurstTrace(hits, n - 1, at, window);
      var longer := hits + Burst(n, at);
      assert Front(longer) == hits + Burst(n - 1, at) && Last(longer) == Hit(at, true);
    }
  }

  lemma {:induction false} InitialSegment(n: nat, m: nat, s: set<nat>)
    requires n <= m && forall i: nat :: n <= i < m ==> i in s
    ensures |s| >= m - n
    decreases m - n
  {
    if n < m {
      InitialSegment(n, m - 1, s - {m - 1});
    }
  }

  lemma OpeningTrace(window: int)
    ensures Trace([Hit(0, true)], window) == [Seen(0, 0, 1, true)]
  {
    assert Front([Hit(0, true)]) == [];
  }

  /** One early request, then the rest of its allowance just before the window ends. */
  lemma FirstBurst(limit: nat, window: int) returns (hits: seq<Hit>)
    requires limit > 0 && window > 0
    ensures |hits| == limit && InOrder(hits) && forall i :: 0 <= i < limit ==> hits[i].at <= window - 1
    ensures var trace := Trace(hits, window);
            && Last(trace).start == 0 && Last(trace).expiring
            && forall i :: 1 <= i < limit ==> trace[i] == Seen(window - 1, 0, 1 + i, true)
  {
    hide Trace;
    var opening := [Hit(0, true)];
    OpeningTrace(window);
    BurstTrace(opening, limit - 1, window - 1, window);
    hits := opening + Burst(limit - 1, window - 1);
  }

  lemma Reopens(first: seq<Hit>, window: int)
    requires first != [] && Last(Trace(first, window)).start == 0 && Last(Trace(first, window)).expiring
    ensures Trace(first + [Hit(window, true)], window) == Trace(first, window) + [Seen(window, window, 1, true)]
  {
    assert Front(first + [Hit(window, true)]) == first;
  }

  /** A full allowance at the very start of the next window. */
  lemma SecondBurst(first: seq<Hit>, limit: nat, window: int) returns (hits: seq<Hit>)
    requires limit > 0 && window > 0 && |first| == limit && InOrder(first)
    requires forall i :: 0 <= i < limit ==> first[i].at <= window
    requires Last(Trace(first, window)).start == 0 && Last(Trace(first, window)).expiring
    ensures |hits| == 2 * limit && InOrder(hits)
    ensures var trace := Trace(hits, window);
            && trace[..limit] == Trace(first, window)
            && forall i :: limit <= i < 2 * limit ==> trace[i] == Seen(window, window, 1 + i - limit, true)
  {
    hide Trace;
    var reopened := first + [Hit(window, true)];
    Reopens(first, window);
    BurstTrace(reopened, limit - 1, window, window);
    hits := reopened + Burst(limit - 1, window);
    var trace := Trace(hits, window);
    assert trace[..limit] == trace[..limit + 1][..limit];
    assert trace[limit] == trace[..limit + 1][limit];
  }

  /** The bound is reached: limit - 1 requests just before a window ends, limit just after. */
  lemma StretchBoundIsAttained(limit: nat, windowSeconds: nat) returns (hits: seq<Hit>, from: int)
    requires limit > 0 && windowSeconds > 0
    ensures InOrder(hits)
    ensures |AdmittedBetween(Trace(hits, 1000 * windowSeconds), limit, from, from + 1000 * windowSeconds)|
            == 2 * limit - 1
  {
    var window := 1000 * windowSeconds;
    from := window - 1;
    var first := FirstBurst(limit, window);
    hits := SecondBurst(first, limit, window);
    var trace := Trace(hits, window);
    var ids := AdmittedBetween(trace, limit, from, from + window);
    hide Trace;
    forall i: nat | 1 <= i < 2 * limit
      ensures i in ids
    {
      if i < limit {
        assert trace[..limit][i] == trace[i];
      }
    }
    InitialSegment(1, 2 * limit, ids);
    LimitPerStretch(hits, limit, windowSeconds, from);
  }

  // --- Keys that lost their expiry -------------------------------------------

  lemma {:induction false} CountsUpForever(hits: seq<Hit>, later: seq<Hit>, window: int)
    requires hits != [] && !Last(Trace(hits, window)).expiring
    ensures var before, after := Trace(hits, window), Trace(hits + later, window);
            && !Last(after).expiring && Last(after).count == Last(before).count + |later|
            && forall i :: |hits| <= i < |after| ==> after[i].count > Last(before).count
    decreases |later|
  {
    if later == [] {
      assert hits + later == hits;
    } else {
      CountsUpForever(hits, Front(later), window);
      assert Front(hits + later) == hits + Front(later);
    }
  }

  /** Once the limit is used up, waiting helps exactly when the key's expiry was set. */
  lemma LockedOutUnlessExpirySet(hits: seq<Hit>, limit: nat, windowSeconds: nat)
    requires hits != [] && InOrder(hits) && limit > 0 && windowSeconds > 0
    requires Last(Trace(hits, 1000 * windowSeconds)).count >= limit
    ensures Last(Trace(hits, 1000 * windowSeconds)).expiring
            <==> exists later: seq<Hit> ::
                   later != [] && Allowed(Last(Trace(hits + later, 1000 * windowSeconds)), limit)
  {
    var window := 1000 * windowSeconds;
    var last := Last(Trace(hits, window));
    if last.expiring {
      var later := [Hit(last.start + window, true)];
      assert Front(hits + later) == hits;
      assert later != [] && Allowed(Last(Trace(hits + later, window)), limit);
    } else {
      TraceIsTheCounter(hits, windowSeconds);
      forall later: seq<Hit> | later != []
        ensures !Allowed(Last(Trace(hits + later, window)), limit)
      {
        CountsUpForever(hits, later, window);
      }
    }
  }
}
