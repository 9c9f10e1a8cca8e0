/** Driver performance figures computed from the audit log. */
module Analytics {
  import opened Wrappers
  import opened Sequences
  import opened OrderStatus
  import opened Database
  import opened OrderEvents
  import opened Orders
  import opened Commits
  import opened Calls
  import opened SerialRuns
  import Pricing

  // --- The computation --------------------------------------------------------

  /** The time of the first event of this type. */
  function FirstAt(events: seq<Event>, kind: EventType): Option<nat> {
    if events == [] then None
    else if events[0].kind == kind then Some(events[0].createdAt)
    else FirstAt(events[1..], kind)
  }

  /** JavaScript truth: absent and zero both count as no. */
  predicate Truthy(t: Option<nat>) {
    t.Some? && t.value != 0
  }

  predicate DidFail(events: seq<Event>) {
    exists i :: 0 <= i < |events| && events[i].kind == DeliveryFailed
  }

  datatype Span = Span(begin: Option<nat>, end: Option<nat>)

  function SpanOf(events: seq<Event>, first: EventType, second: EventType): Span {
    Span(FirstAt(events, first), FirstAt(events, second))
  }

  /** The durations, in milliseconds, of the orders that have both ends. */
  function Durations(timelines: seq<seq<Event>>, first: EventType, second: EventType): seq<int> {
    if timelines == [] then []
    else
      var s := SpanOf(Last(timelines), first, second);
      Durations(Front(timelines), first, second)
      + if Truthy(s.begin) && Truthy(s.end) then [s.end.value - s.begin.value] else []
  }

  function Completed(timelines: seq<seq<Event>>): nat {
    if timelines == [] then 0
    else Completed(Front(timelines)) + if Truthy(FirstAt(Last(timelines), Delivered)) then 1 else 0
  }

  function FailedCount(timelines: seq<seq<Event>>): nat {
    if timelines == [] then 0
    else FailedCount(Front(timelines)) + if DidFail(Last(timelines)) then 1 else 0
  }

  function Sum(values: seq<int>): int {
    if values == [] then 0 else Sum(Front(values)) + Last(values)
  }

  /** The rounded mean in seconds, or None of nothing. */
  function Average(values: seq<int>): Option<int> {
    if values == [] then None else Some(Pricing.Round(Sum(values) as real / 1000.0 / |values| as real))
  }

  /** The share of completed deliveries among completed and failed ones; 0 of nothing. */
  function SuccessRate(completed: nat, failed: nat): (rate: real)
    ensures 0.0 <= rate <= 1.0
    ensures rate * (completed + failed) as real == completed as real
    ensures completed + failed == 0 ==> rate == 0.0
  {
    if completed + failed == 0 then 0.0
    else
      QuotientInUnitRange(completed as real, (completed + failed) as real);
      completed as real / (completed + failed) as real
  }

  lemma QuotientInUnitRange(x: real, y: real)
    requires 0.0 <= x <= y && y > 0.0
    ensures 0.0 <= x / y <= 1.0 && x / y * y == x
  {
    var q := x / y;
    assert q * y == x;
    assert (1.0 - q) * y == y - x;
  }

  // --- What the figures are ------------------------------------------------------

  /** The first event of this type has this time. */
  ghost predicate FirstIsAt(events: seq<Event>, kind: EventType, t: nat) {
    exists i :: 0 <= i < |events| && events[i].kind == kind && events[i].createdAt == t
                && forall j :: 0 <= j < i ==> events[j].kind != kind
  }

  lemma {:induction false} FirstIndex(events: seq<Event>, kind: EventType) returns (i: nat)
    requires FirstAt(events, kind).Some?
    ensures i < |events| && events[i].kind == kind && FirstAt(events, kind) == Some(events[i].createdAt)
    ensures forall j :: 0 <= j < i ==> events[j].kind != kind
  {
    if events[0].kind == kind {
      i := 0;
    } else {
      var k := FirstIndex(events[1..], kind);
      assert forall j :: 0 < j < k + 1 ==> events[j] == events[1..][j - 1];
      i := k + 1;
    }
  }

  lemma {:induction false} FirstIsFound(events: seq<Event>, kind: EventType, i: nat)
    requires i < |events| && events[i].kind == kind && forall j :: 0 <= j < i ==> events[j].kind != kind
    ensures FirstAt(events, kind) == Some(events[i].createdAt)
  {
    if i > 0 {
      FirstIsFound(events[1..], kind, i - 1);
    }
  }

  lemma FirstAtIs(events: seq<Event>, kind: EventType, t: nat)
    ensures FirstAt(events, kind) == Some(t) <==> FirstIsAt(events, kind, t)
  {
    hide FirstAt;
    if FirstAt(events, kind) == Some(t) {
      var i := FirstIndex(events, kind);
    }
    if FirstIsAt(events, kind, t) {
      var i :| 0 <= i < |events| && events[i].kind == kind && events[i].createdAt == t
               && forall j :: 0 <= j < i ==> events[j].kind != kind;
      FirstIsFound(events, kind, i);
    }
  }

  /** There is an event of this type, and the first has a time other than zero. */
  ghost predicate Timed(events: seq<Event>, kind: EventType) {
    exists t: nat :: t != 0 && FirstIsAt(events, kind, t)
  }

  lemma TimedIsTruthy(events: seq<Event>, kind: EventType)
    ensures Timed(events, kind) <==> Truthy(FirstAt(events, kind))
  {
    if Truthy(FirstAt(events, kind)) {
      FirstAtIs(events, kind, FirstAt(events, kind).value);
    }
    if Timed(events, kind) {
      var t: nat :| t != 0 && FirstIsAt(events, kind, t);
      FirstAtIs(events, kind, t);
    }
  }

  /** The orders with a delivery. */
  ghost function DeliveredOnes(timelines: seq<seq<Event>>): set<nat> {
    set i: nat | i < |timelines| && Timed(timelines[i], Delivered)
  }

  /** The orders with a failed attempt. */
  ghost function FailedOnes(timelines: seq<seq<Event>>): set<nat> {
    set i: nat | i < |timelines| && exists j :: 0 <= j < |timelines[i]| && timelines[i][j].kind == DeliveryFailed
  }

  lemma {:induction false} CompletedCounts(timelines: seq<seq<Event>>)
    ensures Completed(timelines) == |DeliveredOnes(timelines)|
  {
    hide Timed, FirstAt, Truthy;
    if timelines == [] {
      assert DeliveredOnes(timelines) == {};
    } else {
      CompletedCounts(Front(timelines));
      TimedIsTruthy(Last(timelines), Delivered);
      var earlier := DeliveredOnes(Front(timelines));
      assert DeliveredOnes(timelines)
             == if Timed(Last(timelines), Delivered) then earlier + {|timelines| - 1} else earlier;
    }
  }

  lemma {:induction false} FailedCounts(timelines: seq<seq<Event>>)
    ensures FailedCount(timelines) == |FailedOnes(timelines)|
  {
    if timelines == [] {
      assert FailedOnes(timelines) == {};
    } else {
      FailedCounts(Front(timelines));
      var earlier := FailedOnes(Front(timelines));
      assert FailedOnes(timelines) == if DidFail(Last(timelines)) then earlier + {|timelines| - 1} else earlier;
    }
  }

  /** The orders with both ends of a span. */
  ghost function Spanning(timelines: seq<seq<Event>>, first: EventType, second: EventType): set<nat> {
    set i: nat | i < |timelines| && Timed(timelines[i], first) && Timed(timelines[i], second)
  }

  ghost function Earlier(ids: set<nat>, i: nat): set<nat> {
    set j | j in ids && j < i
  }

  lemma SpanningStep(timelines: seq<seq<Event>>, first: EventType, second: EventType)
    requires timelines != []
    ensures var ids', last := Spanning(Front(timelines), first, second), Last(timelines);
            Spanning(timelines, first, second)
            == if Timed(last, first) && Timed(last, second) then ids' + {|timelines| - 1} else ids'
  {
    hide Timed;
  }

  lemma EarlierStep(ids: set<nat>, n: nat, i: nat)
    requires forall j :: j in ids ==> j < n
    ensures Earlier(ids + {n}, n) == ids && Earlier(ids, n) == ids
    ensures i < n ==> Earlier(ids + {n}, i) == Earlier(ids, i)
    ensures i in ids ==> |Earlier(ids, i)| < |ids|
  {
    if i in ids {
      assert i !in Earlier(ids, i) && Earlier(ids, i) <= ids - {i};
      SubsetIsSmaller(Earlier(ids, i), ids - {i});
    }
  }

  /** The duration of this order stands at its rank among the orders with both ends. */
  ghost predicate DurationInPlace(timelines: seq<seq<Event>>, first: EventType, second: EventType, i: nat) {
    forall a: nat, b: nat ::
      i < |timelines| && FirstIsAt(timelines[i], first, a) && FirstIsAt(timelines[i], second, b) && a != 0 && b != 0 ==>
        var rank := |Earlier(Spanning(timelines, first, second), i)|;
        rank < |Durations(timelines, first, second)| && Durations(timelines, first, second)[rank] == b - a
  }

  /** The durations are those of the orders with both ends, each the difference of its two first times, in order. */
  lemma {:induction false} DurationsExactly(timelines: seq<seq<Event>>, first: EventType, second: EventType)
    ensures |Durations(timelines, first, second)| == |Spanning(timelines, first, second)|
    ensures forall i: nat :: DurationInPlace(timelines, first, second, i)
  {
    hide Timed, Truthy, FirstAt, FirstIsAt, DurationInPlace;
    if timelines == [] {
      assert Spanning(timelines, first, second) == {};
      forall i: nat
        ensures DurationInPlace(timelines, first, second, i)
      {
        NothingInPlace(first, second, i);
      }
    } else {
      DurationsExactly(Front(timelines), first, second);
      SpanningStep(timelines, first, second);
      TimedIsTruthy(Last(timelines), first);
      TimedIsTruthy(Last(timelines), second);
      forall i: nat
        ensures DurationInPlace(timelines, first, second, i)
      {
        if i == |timelines| - 1 {
          LastInPlace(timelines, first, second);
        } else {
          StaysInPlace(timelines, first, second, i);
        }
      }
    }
  }

  lemma NothingInPlace(first: EventType, second: EventType, i: nat)
    ensures DurationInPlace([], first, second, i)
  {
  }

  lemma DurationsStep(timelines: seq<seq<Event>>, first: EventType, second: EventType)
    requires timelines != []
    ensures var span := SpanOf(Last(timelines), first, second);
            Durations(timelines, first, second)
            == Durations(Front(timelines), first, second)
               + if Truthy(span.begin) && Truthy(span.end) then [span.end.value - span.begin.value] else []
  {
  }

  lemma RankOfLast(timelines: seq<seq<Event>>, first: EventType, second: EventType)
    requires timelines != []
    ensures Earlier(Spanning(timelines, first, second), |timelines| - 1) == Spanning(Front(timelines), first, second)
  {
    hide Timed;
    SpanningStep(timelines, first, second);
    EarlierStep(Spanning(Front(timelines), first, second), |timelines| - 1, 0);
  }

  lemma LastInPlace(timelines: seq<seq<Event>>, first: EventType, second: EventType)
    requires timelines != []
    requires |Durations(Front(timelines), first, second)| == |Spanning(Front(timelines), first, second)|
    ensures DurationInPlace(timelines, first, second, |timelines| - 1)
  {
    hide FirstIsAt, Spanning, Durations, Earlier;
    var n := |timelines| - 1;
    RankOfLast(timelines, first, second);
    forall a: nat, b: nat | FirstIsAt(timelines[n], first, a) && FirstIsAt(timelines[n], second, b) && a != 0 && b != 0
      ensures Durations(timelines, first, second) == Durations(Front(timelines), first, second) + [b - a]
    {
      LastDuration(timelines, first, second, a, b);
    }
  }

  lemma LastDuration(timelines: seq<seq<Event>>, first: EventType, second: EventType, a: nat, b: nat)
    requires timelines != [] && FirstIsAt(Last(timelines), first, a) && FirstIsAt(Last(timelines), second, b)
    requires a != 0 && b != 0
    ensures Durations(timelines, first, second) == Durations(Front(timelines), first, second) + [b - a]
  {
    hide FirstIsAt, FirstAt;
    FirstAtIs(Last(timelines), first, a);
    FirstAtIs(Last(timelines), second, b);
  }

  lemma RankStays(timelines: seq<seq<Event>>, first: EventType, second: EventType, i: nat)
    requires timelines != [] && i < |timelines| - 1
    ensures Earlier(Spanning(timelines, first, second), i) == Earlier(Spanning(Front(timelines), first, second), i)
  {
    hide Timed;
    SpanningStep(timelines, first, second);
    EarlierStep(Spanning(Front(timelines), first, second), |timelines| - 1, i);
  }

  lemma StaysInPlace(timelines: seq<seq<Event>>, first: EventType, second: EventType, i: nat)
    requires timelines != [] && i != |timelines| - 1 && DurationInPlace(Front(timelines), first, second, i)
    ensures DurationInPlace(timelines, first, second, i)
  {
    hide FirstIsAt, FirstAt, Timed, Spanning, Durations, Earlier, Truthy, SpanOf;
    if i < |timelines| - 1 {
      RankStays(timelines, first, second, i);
      DurationsStep(timelines, first, second);
      assert Front(timelines)[i] == timelines[i];
    }
  }

  lemma {:induction false} SumOfConcat(a: seq<int>, b: seq<int>)
    ensures Sum(a + b) == Sum(a) + Sum(b)
    decreases |b|
  {
    if b == [] {
      assert a + b == a;
    } else {
      assert Front(a + b) == a + Front(b);
      SumOfConcat(a, Front(b));
    }
  }

  lemma SumOfOne(value: int)
    ensures Sum([value]) == value
  {
    assert Front([value]) == [];
  }

  lemma {:induction false} SumBetween(values: seq<int>, low: int, high: int)
    requires forall i :: 0 <= i < |values| ==> low <= values[i] <= high
    ensures low * |values| <= Sum(values) <= high * |values|
  {
    if values != [] {
      SumBetween(Front(values), low, high);
    }
  }

  /** The mean, scaled back up. */
  lemma MeanOf(sum: int, n: nat)
    requires n > 0
    ensures Pricing.Times(sum as real / 1000.0 / n as real, (1000 * n) as real) == sum as real
  {
    var s := sum as real / 1000.0;
    var q := s / n as real;
    assert q * n as real == s;
    assert s * 1000.0 == sum as real;
  }

  lemma Scale(x: real, y: real, m: real)
    requires m > 0.0
    ensures x < y ==> Pricing.Times(x, m) < Pricing.Times(y, m)
    ensures x <= y ==> Pricing.Times(x, m) <= Pricing.Times(y, m)
  {
  }

  lemma CastProduct(m: int, v: int)
    ensures (m * v) as real == Pricing.Times(v as real, m as real)
  {
  }

  lemma RoundingScaled(v: int, q: real, m: int, sum: int)
    requires m > 0 && Pricing.Times(q, m as real) == sum as real && q - 0.5 < v as real <= q + 0.5
    ensures -m < 2 * (m * v - sum) <= m
  {
    hide Pricing.Times;
    var r, p := m as real, m * v;
    Scale(q - 0.5, v as real, r);
    Scale(v as real, q + 0.5, r);
    Pricing.TimesDistributes(q, 0.5, r);
    Pricing.TimesDistributes(q - 0.5, 0.5, r);
    Half(r);
    CastProduct(m, v);
    assert sum as real - 0.5 * r < p as real <= sum as real + 0.5 * r;
  }

  lemma Half(r: real)
    ensures Pricing.Times(0.5, r) == 0.5 * r
  {
  }

  /** The average is the mean in seconds, rounded to the nearest: within half a second either way, the upper of two. */
  lemma AverageIsTheMean(values: seq<int>)
    ensures values == [] <==> Average(values).None?
    ensures values != [] ==>
              -500 * |values| < 1000 * |values| * Average(values).value - Sum(values) <= 500 * |values|
  {
    if values != [] {
      hide Sum, Pricing.Round, Pricing.Times;
      var q := Sum(values) as real / 1000.0 / |values| as real;
      MeanOf(Sum(values), |values|);
      Pricing.RoundIsNear(q);
      RoundingScaled(Average(values).value, q, 1000 * |values|, Sum(values));
    }
  }

  /** So it lies between the roundings of any bounds of the values. */
  lemma AverageIsBetween(values: seq<int>, low: int, high: int)
    requires values != [] && forall i :: 0 <= i < |values| ==> low <= values[i] <= high
    ensures Pricing.Round(low as real / 1000.0) <= Average(values).value <= Pricing.Round(high as real / 1000.0)
  {
    hide Pricing.Times;
    var n := |values|;
    var q := Sum(values) as real / 1000.0 / n as real;
    SumBetween(values, low, high);
    MeanOf(Sum(values), n);
    MeanIsBetween(q, Sum(values), n, low, high);
    Pricing.RoundIsMonotone(low as real / 1000.0, q);
    Pricing.RoundIsMonotone(q, high as real / 1000.0);
  }

  lemma MeanIsBetween(q: real, sum: int, n: nat, low: int, high: int)
    requires n > 0 && Pricing.Times(q, (1000 * n) as real) == sum as real && low * n <= sum <= high * n
    ensures low as real / 1000.0 <= q <= high as real / 1000.0
  {
    hide Pricing.Times;
    MeanOf(low * n, n);
    MeanOf(high * n, n);
    MeanOfEquals(low, n);
    MeanOfEquals(high, n);
    Scale(q, low as real / 1000.0, (1000 * n) as real);
    Scale(high as real / 1000.0, q, (1000 * n) as real);
  }

  lemma MeanOfEquals(x: int, n: nat)
    requires n > 0
    ensures (x * n) as real / 1000.0 / n as real == x as real / 1000.0
  {
    hide Pricing.Times;
    CastProduct(n, x);
    assert (x * n) as real == x as real * n as real by { Unfold(x as real, n as real); }
    assert x as real * n as real / 1000.0 == (x as real / 1000.0) * n as real;
  }

  lemma Unfold(x: real, y: real)
    ensures Pricing.Times(x, y) == x * y
  {
  }

  datatype Performance = Performance(
    completed: nat,
    failed: nat,
    successRate: real,
    avgAcceptSeconds: Option<int>,
    avgPickupSeconds: Option<int>,
    avgDeliverySeconds: Option<int>
  )

  method DriverPerformance(timelines: seq<seq<Event>>) returns (p: Performance)
    ensures p.completed == |DeliveredOnes(timelines)| && p.failed == |FailedOnes(timelines)|
    ensures p.successRate == SuccessRate(p.completed, p.failed)
    ensures p.avgAcceptSeconds == Average(Durations(timelines, Assigned, DriverAccepted))
    ensures p.avgPickupSeconds == Average(Durations(timelines, DriverAccepted, PickedUp))
    ensures p.avgDeliverySeconds == Average(Durations(timelines, PickedUp, Delivered))
  {
    hide FirstAt, DidFail, Average, SuccessRate;
    var completed, failed := 0, 0;
    var acceptDurations, pickupDurations, deliveryDurations: seq<int> := [], [], [];
    for i := 0 to |timelines|
      invariant completed == Completed(timelines[..i]) && failed == FailedCount(timelines[..i])
      invariant acceptDurations == Durations(timelines[..i], Assigned, DriverAccepted)
      invariant pickupDurations == Durations(timelines[..i], DriverAccepted, PickedUp)
      invariant deliveryDurations == Durations(timelines[..i], PickedUp, Delivered)
    {
      var events := timelines[i];
      assert Front(timelines[..i + 1]) == timelines[..i] && Last(timelines[..i + 1]) == events;
      var assignedAt := FirstAt(events, Assigned);
      var acceptedAt := FirstAt(events, DriverAccepted);
      var pickedUpAt := FirstAt(events, PickedUp);
      var deliveredAt := FirstAt(events, Delivered);
      if Truthy(deliveredAt) {
        completed := completed + 1;
      }
      if DidFail(events) {
        failed := failed + 1;
      }
      if Truthy(assignedAt) && Truthy(acceptedAt) {
        acceptDurations := acceptDurations + [acceptedAt.value - assignedAt.value];
      }
      if Truthy(acceptedAt) && Truthy(pickedUpAt) {
        pickupDurations := pickupDurations + [pickedUpAt.value - acceptedAt.value];
      }
      if Truthy(pickedUpAt) && Truthy(deliveredAt) {
        deliveryDurations := deliveryDurations + [deliveredAt.value - pickedUpAt.value];
      }
    }
    assert timelines[..|timelines|] == timelines;
    CompletedCounts(timelines);
    FailedCounts(timelines);
    p := Performance(completed, failed, SuccessRate(completed, failed), Average(acceptDurations),
                     Average(pickupDurations), Average(deliveryDurations));
  }

  // --- What reachable logs say ------------------------------------------------

  /** Types that name a status agree with it, and nothing ever records a driver's acceptance. */
  predicate Sound(e: Event) {
    && e.kind != DriverAccepted
    && (e.kind == PickedUp ==> e.toStatus == Some(PICKED_UP))
    && (e.kind == Delivered ==> e.toStatus == Some(DELIVERED))
  }

  /** The log grew by sound events of this moment. */
  ghost predicate Grows(before: seq<Event>, after: seq<Event>, now: nat) {
    && |after| >= |before| && after[..|before|] == before
    && forall i :: |before| <= i < |after| ==> after[i].createdAt == now && Sound(after[i])
  }

  lemma GrowsFurther(a: seq<Event>, b: seq<Event>, c: seq<Event>, now: nat)
    requires Grows(a, b, now) && Grows(b, c, now)
    ensures Grows(a, c, now)
  {
    assert c[..|a|] == c[..|b|][..|a|];
    forall i | |a| <= i < |c|
      ensures c[i].createdAt == now && Sound(c[i])
    {
      if i < |b| {
        assert c[i] == c[..|b|][i];
      }
    }
  }

  /** An event of its own that the write appends is sound and of this moment. */
  predicate SoundNote(c: Commit, now: nat) {
    c.Note? ==> Sound(c.e) && c.e.createdAt == now
  }

  lemma WriteAppendsSoundEvents(db: Db, c: Commit, now: nat)
    requires SoundNote(c, now)
    ensures Grows(db.log, Apply(db, c, now).log, now)
  {
    hide ApplyAside;
  }

  lemma {:induction false} WritesAppendSoundEvents(db: Db, cs: seq<Commit>, now: nat)
    requires forall i :: 0 <= i < |cs| ==> SoundNote(cs[i], now)
    ensures Grows(db.log, ApplyAll(db, cs, now).log, now)
    decreases |cs|
  {
    hide Apply, SoundNote;
    if cs != [] {
      hide Grows;
      var next := Apply(db, cs[0], now);
      WriteAppendsSoundEvents(db, cs[0], now);
      WritesAppendSoundEvents(next, cs[1..], now);
      GrowsFurther(db.log, next.log, ApplyAll(next, cs[1..], now).log, now);
    }
  }

  lemma NotesAreSound(db: Db, call: Call, now: nat)
    ensures forall i :: 0 <= i < |Writes(db, call, now)| ==> SoundNote(Writes(db, call, now)[i], now)
  {
  }

  lemma CallAppendsSoundEvents(db: Db, call: Call, now: nat)
    ensures Grows(db.log, CallOutcome(db, call, now).db.log, now)
  {
    hide CallOutcome, Writes, ApplyAll, AllUpToDate, SoundNote, Grows;
    CallIsItsWrites(db, call, now);
    NotesAreSound(db, call, now);
    WritesAppendSoundEvents(db, Writes(db, call, now), now);
  }

  predicate ClockRuns(steps: seq<Step>) {
    forall i, j :: 0 <= i < j < |steps| ==> steps[i].now <= steps[j].now
  }

  ghost predicate Chronicle(log: seq<Event>, now: nat) {
    && (forall i :: 0 <= i < |log| ==> Sound(log[i]) && log[i].createdAt <= now)
    && (forall i, j :: 0 <= i < j < |log| ==> log[i].createdAt <= log[j].createdAt)
  }

  lemma {:induction false} LogIsAChronicle(db: Db, steps: seq<Step>, now: nat)
    requires Fresh(db) && ClockRuns(steps) && (forall i :: 0 <= i < |steps| ==> steps[i].now <= now)
    ensures Chronicle(Run(db, steps).log, now)
  {
    hide CallOutcome;
    if steps != [] {
      var last := Last(steps);
      LogIsAChronicle(db, Front(steps), last.now);
      CallAppendsSoundEvents(Run(db, Front(steps)), last.call, last.now);
    }
  }

  // --- Durations are never negative -------------------------------------------

  /** The statuses a timeline names, in order. */
  function StatusesOf(events: seq<Event>): seq<Status> {
    if events == [] then []
    else StatusesOf(Front(events)) + if Last(events).toStatus.Some? then [Last(events).toStatus.value] else []
  }

  lemma {:induction false} TimelineIsHistory(log: seq<Event>, o: OrderId)
    ensures StatusesOf(Timeline(log, o)) == History(log, o)
  {
    if log != [] {
      TimelineIsHistory(Front(log), o);
      if Last(log).orderId == o {
        assert Front(Timeline(log, o)) == Timeline(Front(log), o) && Last(Timeline(log, o)) == Last(log);
      } else {
        assert Timeline(log, o) == Timeline(Front(log), o);
      }
    }
  }

  lemma {:induction false} TimelineIsAChronicle(log: seq<Event>, o: OrderId, now: nat)
    requires Chronicle(log, now)
    ensures Chronicle(Timeline(log, o), now)
  {
    if log != [] {
      var last := Last(log);
      assert Chronicle(Front(log), last.createdAt);
      TimelineIsAChronicle(Front(log), o, last.createdAt);
    }
  }

  /** An event that names a status puts it at the place given by the events before it. */
  lemma {:induction false} PlaceOf(events: seq<Event>, i: nat)
    requires i < |events| && events[i].toStatus.Some?
    ensures var k := |StatusesOf(events[..i])|;
            k < |StatusesOf(events)| && StatusesOf(events)[k] == events[i].toStatus.value
  {
    if i == |events| - 1 {
      assert events[..i] == Front(events);
    } else {
      PlaceOf(Front(events), i);
      assert Front(events)[..i] == events[..i];
    }
  }

  lemma PlacesAreOrdered(events: seq<Event>, i: nat, j: nat)
    requires i < j < |events| && events[i].toStatus.Some?
    ensures |StatusesOf(events[..i])| < |StatusesOf(events[..j])|
  {
    PlaceOf(events[..j], i);
    assert events[..j][..i] == events[..i];
  }

  /** Appending events leaves the first of a kind where it is. */
  lemma {:induction false} FirstOfConcat(a: seq<Event>, b: seq<Event>, kind: EventType)
    ensures FirstAt(a + b, kind) == if FirstAt(a, kind).Some? then FirstAt(a, kind) else FirstAt(b, kind)
  {
    if a == [] {
      assert a + b == b;
    } else {
      assert (a + b)[1..] == a[1..] + b;
      FirstOfConcat(a[1..], b, kind);
    }
  }

  /** The first pickup, if there is one, is no later than the first delivery. */
  predicate InTime(events: seq<Event>) {
    FirstAt(events, PickedUp).Some? && FirstAt(events, Delivered).Some? ==>
      FirstAt(events, PickedUp).value <= FirstAt(events, Delivered).value
  }

  /** On a legal walk no pickup follows the delivery, so a delivery never comes out earlier than its pickup. */
  lemma PickupPrecedesDelivery(events: seq<Event>, now: nat)
    requires Chronicle(events, now) && IsWalk(StatusesOf(events))
    ensures InTime(events)
  {
    hide IsWalk, StatusesOf;
    if FirstAt(events, PickedUp).Some? && FirstAt(events, Delivered).Some? {
      var i := FirstIndex(events, PickedUp);
      var j := FirstIndex(events, Delivered);
      assert Sound(events[i]) && Sound(events[j]);
      if j < i {
        PlaceOf(events, i);
        PlaceOf(events, j);
        PlacesAreOrdered(events, j, i);
        DeliveredOnce(StatusesOf(events), |StatusesOf(events[..j])|, |StatusesOf(events[..i])|);
      }
    }
  }

  // --- Exactly when an order is delivered before it is picked up --------------

  /** A pickup now would be the order's first, and it was delivered before. */
  predicate TooLateToPickUp(events: seq<Event>, now: nat) {
    FirstAt(events, PickedUp).None? && FirstAt(events, Delivered).Some? && FirstAt(events, Delivered).value < now
  }

  ghost predicate LogInTime(log: seq<Event>) {
    forall o :: InTime(Timeline(log, o))
  }

  ghost predicate Past(log: seq<Event>, now: nat) {
    forall i :: 0 <= i < |log| ==> log[i].createdAt <= now
  }

  lemma {:induction false} TimelineIsPast(log: seq<Event>, o: OrderId, now: nat)
    requires Past(log, now)
    ensures Past(Timeline(log, o), now)
  {
    if log != [] {
      TimelineIsPast(Front(log), o, now);
    }
  }

  lemma InTimeAppend(events: seq<Event>, e: Event)
    requires Past(events, e.createdAt)
    ensures InTime(events + [e]) <==> InTime(events) && !(e.kind == PickedUp && TooLateToPickUp(events, e.createdAt))
  {
    FirstOfConcat(events, [e], PickedUp);
    FirstOfConcat(events, [e], Delivered);
    if FirstAt(events, PickedUp).Some? {
      var i := FirstIndex(events, PickedUp);
    }
  }

  lemma TimelineAppend(log: seq<Event>, e: Event, o: OrderId)
    ensures Timeline(log + [e], o) == Timeline(log, o) + if e.orderId == o then [e] else []
  {
    assert Front(log + [e]) == log;
  }

  lemma LogInTimeAppend(log: seq<Event>, e: Event)
    requires Past(log, e.createdAt)
    ensures LogInTime(log + [e])
            <==> LogInTime(log) && !(e.kind == PickedUp && TooLateToPickUp(Timeline(log, e.orderId), e.createdAt))
  {
    hide Timeline, InTime, TooLateToPickUp, Past;
    forall o
      ensures InTime(Timeline(log + [e], o))
              <==> InTime(Timeline(log, o))
                   && !(e.orderId == o && e.kind == PickedUp && TooLateToPickUp(Timeline(log, o), e.createdAt))
    {
      TimelineAppend(log, e, o);
      TimelineIsPast(log, o, e.createdAt);
      InTimeAppend(Timeline(log, o), e);
      assert Timeline(log, o) + [] == Timeline(log, o);
    }
    assert InTime(Timeline(log + [e], e.orderId))
           <==> InTime(Timeline(log, e.orderId))
                && !(e.kind == PickedUp && TooLateToPickUp(Timeline(log, e.orderId), e.createdAt));
  }

  predicate IsPickup(c: Commit) {
    c.Move? && c.to == PICKED_UP
  }

  lemma InsertKeepsInTime(db: Db, c: Commit, now: nat)
    requires Past(db.log, now) && c.Insert?
    ensures LogInTime(Apply(db, c, now).log) <==> LogInTime(db.log)
  {
    hide LogInTime, TooLateToPickUp;
    var creation := Event(c.o, EventType.Created, None, Some(InitialStatus(c.draft)), Plain, now);
    LogInTimeAppend(db.log, creation);
    LogInTimeAppend(db.log + [creation], Event(c.o, Scheduled, None, None, Plain, now));
    assert db.log + [creation] + [] == db.log + [creation];
  }

  lemma HandoverKeepsInTime(db: Db, c: Commit, now: nat)
    requires Past(db.log, now) && (c.Give? || c.Take?)
    ensures LogInTime(Apply(db, c, now).log) <==> LogInTime(db.log)
  {
    hide LogInTime, TooLateToPickUp;
    if Apply(db, c, now).log != db.log {
      LogInTimeAppend(db.log, Last(Apply(db, c, now).log));
    }
  }

  /** A write delivers before pickup exactly when it is such a pickup; what is out of order stays so. */
  lemma WriteKeepsInTime(db: Db, c: Commit, now: nat)
    requires Past(db.log, now) && WellFormed(db, c) && SoundNote(c, now)
    ensures LogInTime(Apply(db, c, now).log)
            <==> LogInTime(db.log) && !(IsPickup(c) && c.o in db.orders && TooLateToPickUp(Timeline(db.log, c.o), now))
  {
    hide LogInTime, TooLateToPickUp, Timeline, ApplyAside, Past;
    match c
    case Insert(_, _, _) => InsertKeepsInTime(db, c, now);
    case Give(_, _, _, _) => HandoverKeepsInTime(db, c, now);
    case Take(_, _, _) => HandoverKeepsInTime(db, c, now);
    case Note(e) => LogInTimeAppend(db.log, e);
    case Move(o, from, to) =>
      if o in db.orders {
        LogInTimeAppend(db.log, Event(o, EventTypeFor(to), Some(from), Some(to), Plain, now));
      }
    case _ =>
  }

  lemma WriteIsOfThisMoment(db: Db, c: Commit, now: nat)
    requires Past(db.log, now) && SoundNote(c, now)
    ensures Past(Apply(db, c, now).log, now)
  {
    hide Apply;
    WriteAppendsSoundEvents(db, c, now);
    var after := Apply(db, c, now).log;
    assert forall i :: 0 <= i < |db.log| ==> after[i] == after[..|db.log|][i];
  }

  lemma {:induction false} WritesKeepInTime(db: Db, cs: seq<Commit>, now: nat)
    requires Past(db.log, now) && AllUpToDate(db, cs, now)
    requires forall i :: 0 <= i < |cs| ==> SoundNote(cs[i], now) && !IsPickup(cs[i])
    ensures LogInTime(ApplyAll(db, cs, now).log) <==> LogInTime(db.log)
    decreases |cs|
  {
    hide Apply, SoundNote, IsPickup, LogInTime, WellFormed, UpToDate, Past;
    if cs != [] {
      WriteKeepsInTime(db, cs[0], now);
      WriteIsOfThisMoment(db, cs[0], now);
      WritesKeepInTime(Apply(db, cs[0], now), cs[1..], now);
    }
  }

  /** A transition to PICKED_UP that goes through, for an order delivered earlier and never picked up. */
  predicate PicksUpLate(db: Db, call: Call, now: nat) {
    && call.Transition? && call.to == PICKED_UP && TransitionError(db, call.o, PICKED_UP).None?
    && TooLateToPickUp(Timeline(db.log, call.o), now)
  }

  lemma OnlyTransitionsPickUp(db: Db, call: Call, now: nat)
    ensures forall i :: 0 <= i < |Writes(db, call, now)| && IsPickup(Writes(db, call, now)[i]) ==>
              call.Transition? && call.to == PICKED_UP
    ensures call.Transition? && TransitionError(db, call.o, call.to).None? ==>
              call.o in db.orders && Writes(db, call, now) == [Move(call.o, db.orders[call.o].status, call.to)]
    ensures call.Transition? && TransitionError(db, call.o, call.to).Some? ==> Writes(db, call, now) == []
  {
  }

  lemma CallKeepsInTimeIff(db: Db, call: Call, now: nat)
    requires Past(db.log, now)
    ensures LogInTime(CallOutcome(db, call, now).db.log) <==> LogInTime(db.log) && !PicksUpLate(db, call, now)
  {
    hide CallOutcome, Writes, ApplyAll, AllUpToDate, SoundNote, LogInTime, TooLateToPickUp, Timeline, Past, Apply;
    hide TransitionError, WellFormed, UpToDate;
    CallIsItsWrites(db, call, now);
    NotesAreSound(db, call, now);
    OnlyTransitionsPickUp(db, call, now);
    if call.Transition? && call.to == PICKED_UP && TransitionError(db, call.o, PICKED_UP).None? {
      var move := Move(call.o, db.orders[call.o].status, PICKED_UP);
      assert Writes(db, call, now)[0] == move;
      ApplyOne(db, move, now);
      WriteKeepsInTime(db, move, now);
    } else {
      WritesKeepInTime(db, Writes(db, call, now), now);
    }
  }

  ghost predicate NeverPicksUpLate(db: Db, steps: seq<Step>) {
    steps == []
    || (NeverPicksUpLate(db, Front(steps)) && !PicksUpLate(Run(db, Front(steps)), Last(steps).call, Last(steps).now))
  }

  /** As long as the clock does not go back, every order's first pickup is no later than its first delivery in exactly
      the runs that never pick up an order delivered earlier. */
  lemma {:induction false} PickupsAreInTimeIff(db: Db, steps: seq<Step>)
    requires Fresh(db) && ClockRuns(steps)
    ensures LogInTime(Run(db, steps).log) <==> NeverPicksUpLate(db, steps)
  {
    hide CallOutcome, PicksUpLate, FirstAt;
    if steps != [] {
      hide LogInTime, Fresh;
      var last := Last(steps);
      PickupsAreInTimeIff(db, Front(steps));
      LogIsAChronicle(db, Front(steps), last.now);
      assert Past(Run(db, Front(steps)).log, last.now);
      CallKeepsInTimeIff(Run(db, Front(steps)), last.call, last.now);
    } else {
      NothingIsInTime();
    }
  }

  lemma NothingIsInTime()
    ensures LogInTime([])
  {
  }

  /** Runs whose unassigns come from ASSIGNED are among them. */
  lemma LegalRunsPickUpInTime(db: Db, steps: seq<Step>)
    requires Fresh(db) && ClockRuns(steps) && AlwaysUnassignsFromAssigned(db, steps)
    ensures NeverPicksUpLate(db, steps)
  {
    hide Run, IsWalk, StatusesOf, Chronicle, Fresh, AlwaysUnassignsFromAssigned, Timeline, InTime;
    var now := if steps == [] then 0 else Last(steps).now;
    var log := Run(db, steps).log;
    LogIsAChronicle(db, steps, now);
    LogIsLegalIff(db, steps);
    forall o
      ensures InTime(Timeline(log, o))
    {
      TimelineIsAChronicle(log, o, now);
      TimelineIsHistory(log, o);
      PickupPrecedesDelivery(Timeline(log, o), now);
    }
    PickupsAreInTimeIff(db, steps);
  }

  // --- The averages ------------------------------------------------------------

  lemma {:induction false} NoAcceptanceTime(events: seq<Event>)
    requires forall i :: 0 <= i < |events| ==> Sound(events[i])
    ensures FirstAt(events, DriverAccepted).None?
  {
    if events != [] {
      NoAcceptanceTime(events[1..]);
    }
  }

  function TimelinesOf(log: seq<Event>, orders: seq<OrderId>): seq<seq<Event>> {
    seq(|orders|, i requires 0 <= i < |orders| => Timeline(log, orders[i]))
  }

  lemma {:induction false} DurationsAreNonNegative(timelines: seq<seq<Event>>)
    requires forall i :: 0 <= i < |timelines| ==> InTime(timelines[i])
    ensures forall k :: 0 <= k < |Durations(timelines, PickedUp, Delivered)| ==>
              Durations(timelines, PickedUp, Delivered)[k] >= 0
  {
    hide FirstAt;
    if timelines != [] {
      DurationsAreNonNegative(Front(timelines));
      assert InTime(Last(timelines));
    }
  }

  ghost predicate AllSound(log: seq<Event>) {
    forall i :: 0 <= i < |log| ==> Sound(log[i])
  }

  lemma {:induction false} NoAcceptanceDurations(timelines: seq<seq<Event>>)
    requires forall i :: 0 <= i < |timelines| ==> AllSound(timelines[i])
    ensures Durations(timelines, Assigned, DriverAccepted) == [] && Durations(timelines, DriverAccepted, PickedUp) == []
  {
    hide FirstAt, Sound;
    if timelines != [] {
      NoAcceptanceDurations(Front(timelines));
      assert AllSound(Last(timelines));
      NoAcceptanceTime(Last(timelines));
    }
  }

  lemma {:induction false} SumIsNonNegative(values: seq<int>)
    requires forall i :: 0 <= i < |values| ==> values[i] >= 0
    ensures Sum(values) >= 0
  {
    if values != [] {
      SumIsNonNegative(Front(values));
    }
  }

  lemma AverageIsNonNegative(values: seq<int>)
    requires forall i :: 0 <= i < |values| ==> values[i] >= 0
    ensures Average(values).None? || Average(values).value >= 0
  {
    SumIsNonNegative(values);
    if values != [] {
      var n := |values| as real;
      assert Sum(values) as real / 1000.0 >= 0.0;
      QuotientIsNonNegative(Sum(values) as real / 1000.0, n);
    }
  }

  lemma QuotientIsNonNegative(x: real, n: real)
    requires x >= 0.0 && n > 0.0
    ensures x / n >= 0.0
  {
  }

  /** Over every run whose clock does not go back and that never picks up an order delivered earlier, the average
      delivery time of any orders is not negative. */
  lemma PerformanceOfReachableLogs(db: Db, steps: seq<Step>, orders: seq<OrderId>)
    requires Fresh(db) && ClockRuns(steps) && NeverPicksUpLate(db, steps)
    ensures var delivery := Average(Durations(TimelinesOf(Run(db, steps).log, orders), PickedUp, Delivered));
            delivery.None? || delivery.value >= 0
  {
    hide Run, Fresh, Timeline, Durations, Average, InTime;
    PickupsAreInTimeIff(db, steps);
    DurationsAreNonNegative(TimelinesOf(Run(db, steps).log, orders));
    AverageIsNonNegative(Durations(TimelinesOf(Run(db, steps).log, orders), PickedUp, Delivered));
  }

  lemma {:induction false} LogIsSound(db: Db, steps: seq<Step>)
    requires Fresh(db)
    ensures AllSound(Run(db, steps).log)
  {
    hide CallOutcome, Sound;
    if steps != [] {
      LogIsSound(db, Front(steps));
      var before := Run(db, Front(steps));
      CallAppendsSoundEvents(before, Last(steps).call, Last(steps).now);
      var after := Run(db, steps).log;
      assert forall i :: 0 <= i < |before.log| ==> after[i] == after[..|before.log|][i];
    }
  }

  lemma {:induction false} TimelineIsSound(log: seq<Event>, o: OrderId)
    requires AllSound(log)
    ensures AllSound(Timeline(log, o))
  {
    hide Sound;
    if log != [] {
      TimelineIsSound(Front(log), o);
    }
  }

  /** In every run at all the accept and pickup averages have no value: nothing records a driver's acceptance. */
  lemma AcceptanceIsNeverAveraged(db: Db, steps: seq<Step>, orders: seq<OrderId>)
    requires Fresh(db)
    ensures var timelines := TimelinesOf(Run(db, steps).log, orders);
            && Average(Durations(timelines, Assigned, DriverAccepted)).None?
            && Average(Durations(timelines, DriverAccepted, PickedUp)).None?
  {
    hide Run, Fresh, Timeline, Durations, Average, Sound;
    LogIsSound(db, steps);
    var timelines := TimelinesOf(Run(db, steps).log, orders);
    forall i | 0 <= i < |timelines|
      ensures AllSound(timelines[i])
    {
      TimelineIsSound(Run(db, steps).log, orders[i]);
    }
    NoAcceptanceDurations(timelines);
    AverageOfNothing();
  }

  lemma AverageOfNothing()
    ensures Average([]).None?
  {
  }

  // --- A delivery time below zero ---------------------------------------------

  /** The status that events of these types announce. */
  predicate Names(kind: EventType, s: Status) {
    (kind == PickedUp && s == PICKED_UP) || (kind == Delivered && s == DELIVERED)
  }

  lemma {:induction false} FirstOfMoves(o: OrderId, w: seq<Status>, now: nat, kind: EventType, s: Status)
    requires Names(kind, s)
    ensures FirstAt(MovesAlong(o, w, now), kind) == if w != [] && s in w[1..] then Some(now) else None
  {
    if |w| > 1 {
      FirstOfMoves(o, Front(w), now, kind, s);
      var last := Event(o, EventTypeFor(Last(w)), Some(Last(Front(w))), Some(Last(w)), Plain, now);
      FirstOfConcat(MovesAlong(o, Front(w), now), [last], kind);
      assert w[1..] == Front(w)[1..] + [Last(w)];
    }
  }

  lemma {:induction false} OwnTimeline(log: seq<Event>, o: OrderId)
    requires forall i :: 0 <= i < |log| ==> log[i].orderId == o
    ensures Timeline(log, o) == log
  {
    if log != [] {
      OwnTimeline(Front(log), o);
    }
  }

  lemma {:induction false} MovesAreOwn(o: OrderId, w: seq<Status>, now: nat)
    ensures forall i :: 0 <= i < |MovesAlong(o, w, now)| ==> MovesAlong(o, w, now)[i].orderId == o
  {
    if |w| > 1 {
      MovesAreOwn(o, Front(w), now);
    }
  }

  /** The order's whole log so far, with the times of its first pickup and its first delivery. */
  ghost predicate Marked(log: seq<Event>, o: OrderId, pickedUp: Option<nat>, delivered: Option<nat>) {
    && (forall i :: 0 <= i < |log| ==> log[i].orderId == o)
    && FirstAt(log, PickedUp) == pickedUp && FirstAt(log, Delivered) == delivered
  }

  lemma MarkedByEvent(log: seq<Event>, o: OrderId, pickedUp: Option<nat>, delivered: Option<nat>, e: Event)
    requires Marked(log, o, pickedUp, delivered) && e.orderId == o && e.kind != PickedUp && e.kind != Delivered
    ensures Marked(log + [e], o, pickedUp, delivered)
  {
    FirstOfConcat(log, [e], PickedUp);
    FirstOfConcat(log, [e], Delivered);
  }

  lemma MarkedByMoves(log: seq<Event>, o: OrderId, pickedUp: Option<nat>, delivered: Option<nat>, w: seq<Status>,
                      now: nat)
    requires Marked(log, o, pickedUp, delivered) && w != []
    ensures Marked(log + MovesAlong(o, w, now), o,
                   if pickedUp.Some? || PICKED_UP !in w[1..] then pickedUp else Some(now),
                   if delivered.Some? || DELIVERED !in w[1..] then delivered else Some(now))
  {
    hide FirstAt, MovesAlong;
    FirstOfConcat(log, MovesAlong(o, w, now), PickedUp);
    FirstOfConcat(log, MovesAlong(o, w, now), Delivered);
    FirstOfMoves(o, w, now, PickedUp, PICKED_UP);
    FirstOfMoves(o, w, now, Delivered, DELIVERED);
    MovesAreOwn(o, w, now);
  }

  const WITHOUT_PICKUP := [ASSIGNED, EN_ROUTE_TO_PICKUP, FAILED, RETRY_SCHEDULED, OUT_FOR_DELIVERY, DELIVERED]
  const TO_PICKUP := [ASSIGNED, EN_ROUTE_TO_PICKUP, PICKED_UP]

  lemma BothAreWalks()
    ensures IsWalk(WITHOUT_PICKUP) && IsWalk(TO_PICKUP)
    ensures PICKED_UP !in WITHOUT_PICKUP[1..] && DELIVERED in WITHOUT_PICKUP[1..]
    ensures PICKED_UP in TO_PICKUP[1..] && DELIVERED !in TO_PICKUP[1..]
  {
    EdgesMakeWalk(WITHOUT_PICKUP);
    EdgesMakeWalk(TO_PICKUP);
    assert WITHOUT_PICKUP[1..][4] == DELIVERED && TO_PICKUP[1..][1] == PICKED_UP;
  }

  lemma AssignedAndUnmarked(db: Db, o: OrderId, d: DriverId, draft: Draft, now: nat) returns (steps: seq<Step>)
    requires Fresh(db) && d in db.drivers && Checkout(db, draft).Ok? && InitialStatus(draft) == PLACED
    ensures At(Run(db, steps), o, d, ASSIGNED, true) && Marked(Run(db, steps).log, o, None, None)
  {
    hide Run, Fresh, Checkout, MovesAlong, At;
    steps := AnAssignedOrder(db, o, d, draft, now);
    var log := [Event(o, EventType.Created, None, Some(PLACED), Plain, now)];
    MarkedByEvent([], o, None, None, log[0]);
    assert [] + [log[0]] == log;
    MarkedByMoves(log, o, None, None, [PLACED, ACCEPTED], now);
    assert [PLACED, ACCEPTED][1..] == [ACCEPTED];
    MarkedByEvent(log + MovesAlong(o, [PLACED, ACCEPTED], now), o, None, None,
                  Event(o, Assigned, None, Some(ASSIGNED), Given(d, None), now));
  }

  /** Delivered without a pickup, then taken back, assigned again and picked up: the pickup comes after the delivery. */
  lemma PickedUpAfterDelivery(db: Db, o: OrderId, d: DriverId, draft: Draft) returns (steps: seq<Step>)
    requires Fresh(db) && d in db.drivers && Checkout(db, draft).Ok? && InitialStatus(draft) == PLACED
    ensures Marked(Run(db, steps).log, o, Some(5000), Some(1000))
  {
    hide Run, Fresh, Checkout, MovesAlong, At, Marked, IsWalk, AlwaysUnassignsFromAssigned;
    BothAreWalks();
    steps := AssignedAndUnmarked(db, o, d, draft, 1000);
    MarkedByMoves(Run(db, steps).log, o, None, None, WITHOUT_PICKUP, 1000);
    steps := WalkOn(db, steps, o, d, true, WITHOUT_PICKUP, 1000);
    MarkedByEvent(Run(db, steps).log, o, None, Some(1000),
                  Event(o, Unassigned, Some(DELIVERED), Some(ACCEPTED), Taken(d), 1000));
    steps := UnassignOn(db, steps, o, d, DELIVERED, 1000);
    MarkedByEvent(Run(db, steps).log, o, None, Some(1000),
                  Event(o, Assigned, None, Some(ASSIGNED), Given(d, None), 1000));
    steps := AssignOn(db, steps, o, d, 1000);
    MarkedByMoves(Run(db, steps).log, o, None, Some(1000), TO_PICKUP, 5000);
    steps := WalkOn(db, steps, o, d, true, TO_PICKUP, 5000);
  }

  /** So after an unassign from DELIVERED the average delivery time can be negative: four seconds before pickup here. */
  lemma DeliveryTimeBelowZero(db: Db, o: OrderId, d: DriverId, draft: Draft) returns (steps: seq<Step>)
    requires Fresh(db) && d in db.drivers && Checkout(db, draft).Ok? && InitialStatus(draft) == PLACED
    ensures Average(Durations(TimelinesOf(Run(db, steps).log, [o]), PickedUp, Delivered)) == Some(-4)
  {
    hide Run, Fresh, Checkout, Timeline, FirstAt, Durations, Average;
    steps := PickedUpAfterDelivery(db, o, d, draft);
    var log := Run(db, steps).log;
    OwnTimeline(log, o);
    assert TimelinesOf(log, [o]) == [log];
    DurationOfOne(log, 5000, 1000);
    AverageOfOne(-4000);
    assert Pricing.Round(-4.0) == -4;
  }

  lemma DurationOfOne(events: seq<Event>, pickedUp: nat, delivered: nat)
    requires FirstAt(events, PickedUp) == Some(pickedUp) && FirstAt(events, Delivered) == Some(delivered)
    requires pickedUp != 0 && delivered != 0
    ensures Durations([events], PickedUp, Delivered) == [delivered - pickedUp]
  {
    hide FirstAt;
    assert Front([events]) == [];
  }

  lemma AverageOfOne(value: int)
    ensures Average([value]) == Some(Pricing.Round(value as real / 1000.0))
  {
    assert Front([value]) == [];
    assert Sum([value]) == value;
  }
}
