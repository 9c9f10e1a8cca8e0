/** The order-status state machine and what it forces on every legal status walk. */
module OrderStatus {
  import opened Sequences

  datatype Status =
    | DRAFT | SCHEDULED | PLACED | ACCEPTED | ASSIGNED
    | EN_ROUTE_TO_PICKUP | PICKED_UP | OUT_FOR_DELIVERY | DELIVERED
    | FAILED | RETRY_SCHEDULED | RETURNED | CANCELLED | REFUNDED

  function Next(from: Status): seq<Status> {
    match from
    case DRAFT => [PLACED, SCHEDULED, CANCELLED]
    case SCHEDULED => [PLACED, CANCELLED]
    case PLACED => [ACCEPTED, CANCELLED]
    case ACCEPTED => [ASSIGNED, CANCELLED]
    case ASSIGNED => [EN_ROUTE_TO_PICKUP, ACCEPTED, CANCELLED]
    case EN_ROUTE_TO_PICKUP => [PICKED_UP, FAILED, CANCELLED]
    case PICKED_UP => [OUT_FOR_DELIVERY, FAILED]
    case OUT_FOR_DELIVERY => [DELIVERED, FAILED]
    case FAILED => [RETRY_SCHEDULED, RETURNED, CANCELLED]
    case RETRY_SCHEDULED => [OUT_FOR_DELIVERY, ASSIGNED, RETURNED]
    case DELIVERED => [REFUNDED]
    case RETURNED => [REFUNDED]
    case CANCELLED => [REFUNDED]
    case REFUNDED => []
  }

  predicate CanTransition(from: Status, to: Status) {
    to in Next(from)
  }

  predicate IsTerminal(s: Status) {
    s in [DELIVERED, RETURNED, CANCELLED, REFUNDED]
  }

  /** The statuses an order can be created in. */
  predicate IsInitial(s: Status) {
    s == DRAFT || s == SCHEDULED || s == PLACED
  }

  /** A sequence of statuses whose consecutive pairs are all edges of the table. */
  predicate IsWalk(w: seq<Status>) {
    |w| <= 1 || (IsWalk(Front(w)) && CanTransition(Last(Front(w)), Last(w)))
  }

  lemma {:induction false} WalkPrefix(w: seq<Status>, n: nat)
    requires IsWalk(w) && n <= |w|
    ensures IsWalk(w[..n])
    decreases |w|
  {
    if n == |w| {
      assert w[..n] == w;
    } else if |w| > 1 {
      WalkPrefix(Front(w), n);
      assert Front(w)[..n] == w[..n];
    }
  }

  /** When appending a status keeps a walk a walk. */
  lemma WalkAppend(w: seq<Status>, s: Status)
    ensures IsWalk(w + [s]) <==> IsWalk(w) && (w == [] || CanTransition(Last(w), s))
  {
    assert Front(w + [s]) == w;
  }

  lemma {:induction false} WalkEdge(w: seq<Status>, i: nat)
    requires IsWalk(w) && i + 1 < |w|
    ensures CanTransition(w[i], w[i + 1])
  {
    WalkPrefix(w, i + 2);
    assert w[..i + 2][i] == w[i] && w[..i + 2][i + 1] == w[i + 1];
    assert Last(Front(w[..i + 2])) == w[i];
  }

  /** Conversely a sequence of edges is a walk. */
  lemma {:induction false} EdgesMakeWalk(w: seq<Status>)
    requires forall i :: 0 <= i < |w| - 1 ==> CanTransition(w[i], w[i + 1])
    ensures IsWalk(w)
  {
    if |w| > 1 {
      assert CanTransition(w[|w| - 2], w[|w| - 2 + 1]);
      EdgesMakeWalk(Front(w));
    }
  }

  /** The table read backwards: from where each status can be entered. */
  lemma EnteredFrom(from: Status, to: Status)
    ensures CanTransition(from, to) <==>
            match to
            case DRAFT => false
            case SCHEDULED => from == DRAFT
            case PLACED => from == DRAFT || from == SCHEDULED
            case ACCEPTED => from == PLACED || from == ASSIGNED
            case ASSIGNED => from == ACCEPTED || from == RETRY_SCHEDULED
            case EN_ROUTE_TO_PICKUP => from == ASSIGNED
            case PICKED_UP => from == EN_ROUTE_TO_PICKUP
            case OUT_FOR_DELIVERY => from == PICKED_UP || from == RETRY_SCHEDULED
            case DELIVERED => from == OUT_FOR_DELIVERY
            case FAILED => from == EN_ROUTE_TO_PICKUP || from == PICKED_UP || from == OUT_FOR_DELIVERY
            case RETRY_SCHEDULED => from == FAILED
            case RETURNED => from == FAILED || from == RETRY_SCHEDULED
            case CANCELLED =>
              || from == DRAFT || from == SCHEDULED || from == PLACED || from == ACCEPTED || from == ASSIGNED
              || from == EN_ROUTE_TO_PICKUP || from == FAILED
            case REFUNDED => from == DELIVERED || from == RETURNED || from == CANCELLED
  {
  }

  /** The terminal statuses are exactly those that lead nowhere but to a refund. */
  lemma TerminalLeadsToRefund(s: Status)
    ensures IsTerminal(s) <==> forall to :: CanTransition(s, to) ==> to == REFUNDED
  {
    if !IsTerminal(s) {
      assert Next(s)[0] in Next(s);
      assert CanTransition(s, Next(s)[0]);
    }
  }

  // --- How long a walk can be ------------------------------------------------

  /** Longest walk from `s` that neither unassigns nor retries. */
  function Rank(s: Status): nat {
    match s
    case DRAFT => 11
    case SCHEDULED => 10
    case PLACED => 9
    case ACCEPTED => 8
    case ASSIGNED => 7
    case EN_ROUTE_TO_PICKUP => 6
    case PICKED_UP => 5
    case OUT_FOR_DELIVERY => 4
    case FAILED => 3
    case RETRY_SCHEDULED => 2
    case DELIVERED | RETURNED | CANCELLED => 1
    case REFUNDED => 0
  }

  /** The edges that lead back up the table: unassignment and the two ways out for a retry. */
  datatype Loops = Loops(unassigned: nat, direct: nat, reassigned: nat) {
    function Then(from: Status, to: Status): Loops {
      if from == ASSIGNED && to == ACCEPTED then this.(unassigned := unassigned + 1)
      else if from == RETRY_SCHEDULED && to == OUT_FOR_DELIVERY then this.(direct := direct + 1)
      else if from == RETRY_SCHEDULED && to == ASSIGNED then this.(reassigned := reassigned + 1)
      else this
    }

    /** How many transitions these loops add to the longest walk. */
    function Allowance(): nat {
      2 * unassigned + 3 * direct + 6 * reassigned
    }
  }

  function LoopsOf(w: seq<Status>): Loops {
    if |w| <= 1 then Loops(0, 0, 0) else LoopsOf(Front(w)).Then(Last(Front(w)), Last(w))
  }

  /** Every edge steps down in rank, or is a loop that pays for its climb. */
  lemma EdgePaysForItself(from: Status, to: Status, loops: Loops)
    requires CanTransition(from, to)
    ensures 1 + Rank(to) + loops.Allowance() <= Rank(from) + loops.Then(from, to).Allowance()
  {
  }

  lemma {:induction false} WalkLengthBound(w: seq<Status>)
    requires IsWalk(w) && w != []
    ensures |w| - 1 + Rank(Last(w)) <= Rank(w[0]) + LoopsOf(w).Allowance()
  {
    if |w| > 1 {
      WalkLengthBound(Front(w));
      EdgePaysForItself(Last(Front(w)), Last(w), LoopsOf(Front(w)));
    }
  }

  /** The bound in one line: 11 transitions, 2 more an unassignment, at most 6 more a retry. */
  lemma {:induction false} BoundedRetries(w: seq<Status>)
    requires IsWalk(w) && w != []
    ensures |w| - 1 <= 11 + 2 * LoopsOf(w).unassigned + 6 * (LoopsOf(w).direct + LoopsOf(w).reassigned)
  {
    WalkLengthBound(w);
  }

  /** One legal move at the end of a walk. */
  lemma Extend(w: seq<Status>, s: Status) returns (longer: seq<Status>)
    requires w != [] && IsWalk(w) && CanTransition(Last(w), s)
    ensures longer == w + [s] && IsWalk(longer) && |longer| == |w| + 1 && longer[0] == w[0] && Last(longer) == s
    ensures LoopsOf(longer) == LoopsOf(w).Then(Last(w), s)
    ensures forall x :: x in longer <==> x in w || x == s
  {
    longer := w + [s];
    assert Front(longer) == w;
  }

  /** Some walk from DRAFT to `end` has exactly these loops and this many transitions. */
  ghost predicate Attains(end: Status, transitions: nat, loops: Loops) {
    exists w :: IsWalk(w) && |w| == transitions + 1 && w[0] == DRAFT && Last(w) == end && LoopsOf(w) == loops
  }

  lemma Grow(end: Status, transitions: nat, loops: Loops, s: Status)
    requires Attains(end, transitions, loops) && CanTransition(end, s)
    ensures Attains(s, transitions + 1, loops.Then(end, s))
  {
    var w :| IsWalk(w) && |w| == transitions + 1 && w[0] == DRAFT && Last(w) == end && LoopsOf(w) == loops;
    var longer := Extend(w, s);
  }

  lemma StartOfTrail()
    ensures Attains(DRAFT, 0, Loops(0, 0, 0))
  {
    assert IsWalk([DRAFT]) && LoopsOf([DRAFT]) == Loops(0, 0, 0);
  }

  lemma {:induction false} LongestOpening(u: nat)
    ensures Attains(ASSIGNED, 4 + 2 * u, Loops(u, 0, 0))
  {
    hide Attains;
    if u == 0 {
      StartOfTrail();
      Grow(DRAFT, 0, Loops(0, 0, 0), SCHEDULED);
      Grow(SCHEDULED, 1, Loops(0, 0, 0), PLACED);
      Grow(PLACED, 2, Loops(0, 0, 0), ACCEPTED);
      Grow(ACCEPTED, 3, Loops(0, 0, 0), ASSIGNED);
    } else {
      LongestOpening(u - 1);
      Grow(ASSIGNED, 2 + 2 * u, Loops(u - 1, 0, 0), ACCEPTED);
      Grow(ACCEPTED, 3 + 2 * u, Loops(u, 0, 0), ASSIGNED);
    }
  }

  lemma {:induction false} LongestMiddle(loops: Loops)
    ensures Attains(RETRY_SCHEDULED, 9 + loops.Allowance(), loops)
    decreases loops.direct + loops.reassigned
  {
    hide Attains;
    var n := 9 + loops.Allowance();
    if loops.direct > 0 {
      LongestMiddle(loops.(direct := loops.direct - 1));
      Grow(RETRY_SCHEDULED, n - 3, loops.(direct := loops.direct - 1), OUT_FOR_DELIVERY);
    } else {
      if loops.reassigned > 0 {
        LongestMiddle(loops.(reassigned := loops.reassigned - 1));
        Grow(RETRY_SCHEDULED, n - 6, loops.(reassigned := loops.reassigned - 1), ASSIGNED);
      } else {
        LongestOpening(loops.unassigned);
      }
      Grow(ASSIGNED, n - 5, loops, EN_ROUTE_TO_PICKUP);
      Grow(EN_ROUTE_TO_PICKUP, n - 4, loops, PICKED_UP);
      Grow(PICKED_UP, n - 3, loops, OUT_FOR_DELIVERY);
    }
    Grow(OUT_FOR_DELIVERY, n - 2, loops, FAILED);
    Grow(FAILED, n - 1, loops, RETRY_SCHEDULED);
  }

  /** The bound is attained for every number of unassignments and of both kinds of retry. */
  lemma BoundIsAttained(loops: Loops)
    ensures Attains(REFUNDED, 11 + loops.Allowance(), loops)
  {
    hide Attains;
    LongestMiddle(loops);
    Grow(RETRY_SCHEDULED, 9 + loops.Allowance(), loops, RETURNED);
    Grow(RETURNED, 10 + loops.Allowance(), loops, REFUNDED);
  }

  // --- Where a walk must have been -------------------------------------------

  /** The five statuses that a delivery cannot skip, in their order. */
  function Milestone(x: Status): nat {
    match x
    case PLACED => 1
    case ACCEPTED => 2
    case ASSIGNED => 3
    case EN_ROUTE_TO_PICKUP => 4
    case OUT_FOR_DELIVERY => 5
    case _ => 0
  }

  predicate IsMilestone(x: Status) {
    Milestone(x) > 0
  }

  /** `s` can be reached from an initial status without passing through milestone `x`. */
  predicate ReachableBefore(x: Status, s: Status) {
    match s
    case DRAFT | SCHEDULED | CANCELLED | REFUNDED => true
    case PICKED_UP | FAILED | RETRY_SCHEDULED | RETURNED => x == OUT_FOR_DELIVERY
    case DELIVERED => false
    case _ => Milestone(s) < Milestone(x)
  }

  lemma ReachableBeforeIsClosed(x: Status, a: Status, b: Status)
    requires IsMilestone(x) && ReachableBefore(x, a) && CanTransition(a, b) && b != x
    ensures ReachableBefore(x, b)
  {
  }

  lemma {:induction false} Confined(w: seq<Status>, x: Status)
    requires IsWalk(w) && w != [] && IsInitial(w[0]) && IsMilestone(x) && x !in w
    ensures ReachableBefore(x, Last(w))
  {
    if |w| == 1 {
      assert w[0] in w;
    } else {
      assert Front(w)[0] == w[0] && Last(w) in w;
      Confined(Front(w), x);
      ReachableBeforeIsClosed(x, Last(Front(w)), Last(w));
    }
  }

  /** A walk that gets past milestone `x` has visited `x` on the way. */
  lemma VisitBefore(w: seq<Status>, x: Status, k: nat) returns (j: nat)
    requires IsWalk(w) && k < |w| && IsInitial(w[0])
    requires IsMilestone(x) && w[k] != x && !ReachableBefore(x, w[k])
    ensures j < k && w[j] == x
  {
    hide IsWalk, ReachableBefore, IsMilestone, IsInitial;
    WalkPrefix(w, k + 1);
    var prefix := w[..k + 1];
    assert Last(prefix) == w[k] && prefix[0] == w[0];
    if x !in prefix {
      Confined(prefix, x);
    }
    j :| 0 <= j <= k && prefix[j] == x;
  }

  /** The five statuses that cannot be skipped, in order, before position `d`. */
  ghost predicate PassedThrough(w: seq<Status>, d: nat)
    requires d < |w|
  {
    exists p, a, s, e, o | 0 <= p < a < s < e < o < d ::
      w[p] == PLACED && w[a] == ACCEPTED && w[s] == ASSIGNED && w[e] == EN_ROUTE_TO_PICKUP && w[o] == OUT_FOR_DELIVERY
  }

  /** Before DELIVERED every walk visits, in this order, the five statuses that cannot be skipped. */
  lemma DeliveredPassedThrough(w: seq<Status>, d: nat)
    requires IsWalk(w) && d < |w| && IsInitial(w[0]) && w[d] == DELIVERED
    ensures PassedThrough(w, d)
  {
    hide IsWalk;
    var o := VisitBefore(w, OUT_FOR_DELIVERY, d);
    var e := VisitBefore(w, EN_ROUTE_TO_PICKUP, o);
    var s := VisitBefore(w, ASSIGNED, e);
    var a := VisitBefore(w, ACCEPTED, s);
    var p := VisitBefore(w, PLACED, a);
    assert 0 <= p < a < s < e < o < d;
  }

  ghost predicate Delivers(w: seq<Status>) {
    IsWalk(w) && w != [] && w[0] == DRAFT && Last(w) == DELIVERED
  }

  lemma StartOfDelivery() returns (w: seq<Status>)
    ensures IsWalk(w) && w != [] && w[0] == DRAFT && Last(w) == EN_ROUTE_TO_PICKUP
    ensures forall x :: x in w <==> x == DRAFT || (IsMilestone(x) && x != OUT_FOR_DELIVERY)
  {
    w := [DRAFT];
    w := Extend(w, PLACED);
    w := Extend(w, ACCEPTED);
    w := Extend(w, ASSIGNED);
    w := Extend(w, EN_ROUTE_TO_PICKUP);
  }

  lemma DirectDelivery() returns (w: seq<Status>)
    ensures Delivers(w)
    ensures forall x :: x in w <==> x == DRAFT || x == PICKED_UP || x == DELIVERED || IsMilestone(x)
  {
    w := StartOfDelivery();
    hide IsWalk, LoopsOf;
    w := Extend(w, PICKED_UP);
    w := Extend(w, OUT_FOR_DELIVERY);
    w := Extend(w, DELIVERED);
  }

  /** A legal delivery whose order was never picked up. */
  lemma DeliveryWithoutPickup() returns (w: seq<Status>)
    ensures Delivers(w) && PICKED_UP !in w
  {
    w := StartOfDelivery();
    hide IsWalk, LoopsOf;
    w := Extend(w, FAILED);
    w := Extend(w, RETRY_SCHEDULED);
    w := Extend(w, OUT_FOR_DELIVERY);
    w := Extend(w, DELIVERED);
  }

  /** Some position before `k` is at `x`. */
  ghost predicate SeenBefore(w: seq<Status>, x: Status, k: nat) {
    exists j :: 0 <= j < k && j < |w| && w[j] == x
  }

  /** The order goes out for delivery at position `i`. */
  predicate GoesOut(w: seq<Status>, i: nat) {
    i < |w| && w[i] == OUT_FOR_DELIVERY
  }

  /** It does so straight from a retry. */
  predicate GoesStraightOut(w: seq<Status>, i: nat) {
    GoesOut(w, i) && i > 0 && w[i - 1] == RETRY_SCHEDULED
  }

  /** Every time out for delivery follows a pickup exactly when no retry goes straight out before the first pickup. */
  lemma PickedUpBeforeEveryDelivery(w: seq<Status>)
    requires IsWalk(w) && w != [] && IsInitial(w[0])
    ensures (forall i: nat :: GoesOut(w, i) ==> SeenBefore(w, PICKED_UP, i))
            <==> (forall i: nat :: GoesStraightOut(w, i) ==> SeenBefore(w, PICKED_UP, i))
  {
    hide IsWalk;
    forall i: nat | GoesOut(w, i) && !GoesStraightOut(w, i)
      ensures SeenBefore(w, PICKED_UP, i)
    {
      EntryToDelivery(w, i);
    }
  }

  lemma EntryToDelivery(w: seq<Status>, i: nat)
    requires GoesOut(w, i) && IsWalk(w) && IsInitial(w[0])
    ensures 0 < i && (w[i - 1] == PICKED_UP || w[i - 1] == RETRY_SCHEDULED)
  {
    assert i > 0;
    WalkEdge(w, i - 1);
  }

  /** Exactly which statuses a delivered draft is certain to have visited; PICKED_UP is not one. */
  lemma UnavoidableForDelivery(x: Status)
    ensures (forall w | Delivers(w) :: x in w) <==> (IsMilestone(x) || x == DRAFT || x == DELIVERED)
  {
    if IsMilestone(x) {
      forall w | Delivers(w)
        ensures x in w
      {
        var j := VisitBefore(w, x, |w| - 1);
      }
    } else if x == DRAFT || x == DELIVERED {
      forall w | Delivers(w)
        ensures x in w
      {
        assert w[0] in w && Last(w) in w;
      }
    } else if x == PICKED_UP {
      var w := DeliveryWithoutPickup();
    } else {
      var w := DirectDelivery();
    }
  }

  /** After a terminal status a walk makes at most one more move, to REFUNDED, where it ends. */
  lemma {:induction false} TerminalIsAlmostFinal(w: seq<Status>, i: nat)
    requires IsWalk(w) && i < |w| && IsTerminal(w[i])
    ensures |w| <= i + 2
    ensures i + 1 < |w| ==> w[i] != REFUNDED && w[i + 1] == REFUNDED
  {
    if i + 1 < |w| {
      WalkEdge(w, i);
    }
    if i + 2 < |w| {
      WalkEdge(w, i + 1);
    }
  }

  /** A walk is at DELIVERED at most once, and never at PICKED_UP afterwards. */
  lemma {:induction false} DeliveredOnce(w: seq<Status>, d: nat, j: nat)
    requires IsWalk(w) && d < j < |w| && w[d] == DELIVERED
    ensures w[j] == REFUNDED
  {
    TerminalIsAlmostFinal(w, d);
  }

  /** No status can follow itself: repeating a transition request is always refused. */
  lemma NoSelfLoop(from: Status, to: Status)
    requires CanTransition(from, to)
    ensures from != to && !CanTransition(to, to)
  {
  }
}
