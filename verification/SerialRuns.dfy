/** Whole runs of service calls, one at a time: what every reachable state has in common. */
module SerialRuns {
  import opened Wrappers
  import opened Sequences
  import opened OrderStatus
  import opened Database
  import opened OrderEvents
  import opened Orders
  import opened Assignment
  import opened Delivery
  import opened Commits
  import opened Calls

  datatype Step = Step(call: Call, now: nat)

  function Run(db: Db, steps: seq<Step>): Db {
    if steps == [] then db
    else CallOutcome(Run(db, Front(steps)), Last(steps).call, Last(steps).now).db
  }

  lemma RunSnoc(db: Db, steps: seq<Step>, step: Step)
    ensures Run(db, steps + [step]) == CallOutcome(Run(db, steps), step.call, step.now).db
  {
    assert Front(steps + [step]) == steps;
  }

  lemma RunNothing(db: Db)
    ensures Run(db, []) == db && AlwaysUnassignsFromAssigned(db, [])
  {
  }

  /** Before the first order: idle drivers, no jobs, nothing logged. */
  ghost predicate Fresh(db: Db) {
    && db.orders == map[] && db.log == [] && db.attempts == [] && db.jobs == {}
    && db.payments == map[] && db.processed == {} && db.proofs == map[]
    && forall d :: d in db.drivers ==> db.drivers[d].activeOrderId.None?
  }

  // --- The event log and the agreement ---------------------------------------

  lemma FreshIsReplayable(db: Db)
    requires Fresh(db)
    ensures Replayable(db) && Agreement(db) && Tracked(db) && LegalLog(db.log)
  {
    assert ViewOf(db) == View(map[], map[], map[]) by {
      assert ViewOf(db).status == map[] && ViewOf(db).driverOf == map[] && ViewOf(db).activeOrderOf == map[];
    }
  }

  /** Event sourcing: in every reachable state the order and driver tables are the fold of the log. */
  lemma {:induction false} TablesAreTheFoldOfTheLog(db: Db, steps: seq<Step>)
    requires Fresh(db)
    ensures Replay(Run(db, steps).log) == ViewOf(Run(db, steps))
  {
    hide CallOutcome, Fresh, Writes, ApplyAll, AllUpToDate;
    if steps == [] {
      FreshIsReplayable(db);
    } else {
      TablesAreTheFoldOfTheLog(db, Front(steps));
      var before, last := Run(db, Front(steps)), Last(steps);
      CallIsItsWrites(before, last.call, last.now);
      RunKeepsReplayable(before, Writes(before, last.call, last.now), last.now);
    }
  }

  /** In every reachable state an order's driver and a driver's active order point at each other. */
  lemma {:induction false} OrdersAndDriversAgree(db: Db, steps: seq<Step>)
    requires Fresh(db)
    ensures Agreement(Run(db, steps))
  {
    hide CallOutcome, Fresh, Writes, ApplyAll, AllUpToDate, Agreement;
    if steps == [] {
      FreshIsReplayable(db);
    } else {
      OrdersAndDriversAgree(db, Front(steps));
      var before, last := Run(db, Front(steps)), Last(steps);
      CallIsItsWrites(before, last.call, last.now);
      RunKeepsAgreement(before, Writes(before, last.call, last.now), last.now);
    }
  }

  /** So no driver ever holds two orders, and no order two drivers. */
  lemma NobodyHoldsTwo(db: Db, steps: seq<Step>)
    requires Fresh(db)
    ensures var s := Run(db, steps);
            && (forall o, p | o in s.orders && p in s.orders && s.orders[o].driverId.Some? ::
                  s.orders[o].driverId == s.orders[p].driverId ==> o == p)
            && (forall d, e | d in s.drivers && e in s.drivers && s.drivers[d].activeOrderId.Some? ::
                  s.drivers[d].activeOrderId == s.drivers[e].activeOrderId ==> d == e)
  {
    hide Run, Fresh, Agreement;
    OrdersAndDriversAgree(db, steps);
    AgreementIsExclusive(Run(db, steps));
  }

  /** In every reachable state the log is truthful: each event's from-status and previous driver are what the events
      before it left, and REASSIGNED marks exactly the assignments that replace a driver. */
  lemma {:induction false} LogIsTruthful(db: Db, steps: seq<Step>)
    requires Fresh(db)
    ensures Truthful(Run(db, steps).log)
  {
    hide CallOutcome, Writes, ApplyAll, AllUpToDate;
    if steps != [] {
      hide Fresh, Truthful;
      LogIsTruthful(db, Front(steps));
      TablesAreTheFoldOfTheLog(db, Front(steps));
      var before, last := Run(db, Front(steps)), Last(steps);
      CallIsItsWrites(before, last.call, last.now);
      RunKeepsTruthful(before, Writes(before, last.call, last.now), last.now);
    }
  }

  lemma WritesSetNoDriverStatus(db: Db, call: Call, now: nat)
    requires !call.ChangeDriverStatus?
    ensures forall i :: 0 <= i < |Writes(db, call, now)| ==> !Writes(db, call, now)[i].SetDriverStatus?
  {
  }

  /** A status set by hand says whether the driver has an order; every other call is free. */
  predicate SetsHonestStatus(db: Db, call: Call) {
    call.ChangeDriverStatus? ==> HonestStatus(db, Commit.SetDriverStatus(call.d, call.driverStatus))
  }

  ghost predicate AlwaysSetsHonestStatus(db: Db, steps: seq<Step>) {
    steps == []
    || (AlwaysSetsHonestStatus(db, Front(steps)) && SetsHonestStatus(Run(db, Front(steps)), Last(steps).call))
  }

  ghost predicate BusyThroughout(db: Db, steps: seq<Step>) {
    BusyWithOrder(Run(db, steps)) && (steps == [] || BusyThroughout(db, Front(steps)))
  }

  lemma CallKeepsBusyIff(db: Db, call: Call, now: nat)
    requires BusyWithOrder(db)
    ensures BusyWithOrder(CallOutcome(db, call, now).db) <==> SetsHonestStatus(db, call)
  {
    hide CallOutcome, ApplyAll, AllUpToDate, BusyWithOrder, Apply, HonestStatus;
    CallIsItsWrites(db, call, now);
    if call.ChangeDriverStatus? {
      var c := Commit.SetDriverStatus(call.d, call.driverStatus);
      assert Writes(db, call, now) == [c];
      ApplyOne(db, c, now);
      KeepsBusyWithOrder(db, c, now);
    } else {
      WritesSetNoDriverStatus(db, call, now);
      RunKeepsBusyWithOrder(db, Writes(db, call, now), now);
    }
  }

  /** The busy drivers are exactly those with an order, all the way through, in exactly the runs in which every driver
      status set by hand agrees with whether the driver has one. */
  lemma {:induction false} BusyDriversHaveOrders(db: Db, steps: seq<Step>)
    requires Fresh(db) && (forall d :: d in db.drivers ==> db.drivers[d].status != BUSY)
    ensures BusyThroughout(db, steps) <==> AlwaysSetsHonestStatus(db, steps)
  {
    hide CallOutcome, SetsHonestStatus;
    if steps != [] {
      hide Fresh, BusyWithOrder;
      BusyDriversHaveOrders(db, Front(steps));
      if AlwaysSetsHonestStatus(db, Front(steps)) {
        CallKeepsBusyIff(Run(db, Front(steps)), Last(steps).call, Last(steps).now);
      }
    }
  }

  lemma {:induction false} StatusIsLastInLog(db: Db, steps: seq<Step>)
    requires Fresh(db)
    ensures Tracked(Run(db, steps))
  {
    hide CallOutcome, Fresh, Writes, ApplyAll, AllUpToDate, Tracked;
    if steps == [] {
      FreshIsReplayable(db);
    } else {
      StatusIsLastInLog(db, Front(steps));
      var before, last := Run(db, Front(steps)), Last(steps);
      CallIsItsWrites(before, last.call, last.now);
      RunKeepsTracked(before, Writes(before, last.call, last.now), last.now);
    }
  }

  /** Failed attempts of an order are numbered 1..n without gap or repeat. */
  lemma {:induction false} AttemptsAreNumbered(db: Db, steps: seq<Step>)
    requires Fresh(db)
    ensures Numbered(Run(db, steps))
  {
    hide CallOutcome, Writes, ApplyAll, AllUpToDate;
    if steps != [] {
      hide Numbered;
      AttemptsAreNumbered(db, Front(steps));
      var before, last := Run(db, Front(steps)), Last(steps);
      CallIsItsWrites(before, last.call, last.now);
      RunKeepsNumbered(before, Writes(before, last.call, last.now), last.now);
    }
  }

  // --- Which runs leave legal walks in the log -------------------------------

  /** The statuses that only an accepted order can be in. */
  predicate PastAcceptance(s: Status) {
    !IsInitial(s) && s != CANCELLED && s != REFUNDED
  }

  /** An order with a driver, or in such a status, has been accepted. */
  predicate AcceptedFirst(db: Db, o: OrderId) {
    o in db.orders ==>
      && (db.orders[o].driverId.Some? ==> !IsInitial(db.orders[o].status) && ACCEPTED in History(db.log, o))
      && (PastAcceptance(db.orders[o].status) ==> ACCEPTED in History(db.log, o))
  }

  ghost predicate HeldOnlyOnceAccepted(db: Db) {
    forall o :: o in db.orders ==> AcceptedFirst(db, o)
  }

  /** An order that has a driver had it before the write, or was ready to be assigned. */
  lemma DriverAfter(db: Db, c: Commit, now: nat, o: OrderId)
    requires WellFormed(db, c) && o in Apply(db, c, now).orders && Apply(db, c, now).orders[o].driverId.Some?
    ensures o in db.orders
    ensures db.orders[o].driverId.Some? || (c.Give? && c.o == o)
    ensures c.Take? ==> c.o != o || CommitUnassign(db, c.o, c.previousDriver, c.from, now).Threw?
  {
    hide ApplyAside;
  }

  lemma KeepsAcceptedFirst(db: Db, c: Commit, now: nat, o: OrderId)
    requires AcceptedFirst(db, o) && WellFormed(db, c)
    requires (c.Move? || c.Give?) ==> UpToDate(db, c)
    ensures AcceptedFirst(Apply(db, c, now), o)
  {
    hide Apply, History, CommitAssignment, CommitUnassign, CommitTransition, NumbersOf;
    HistoriesAfter(db, c, now, o);
    StatusesAfter(db, c, now, o);
    TargetExists(db, c, now);
    var after := Apply(db, c, now);
    if o in after.orders && after.orders[o].driverId.Some? {
      DriverAfter(db, c, now, o);
    }
  }

  lemma KeepsHeldOnlyOnceAccepted(db: Db, c: Commit, now: nat)
    requires HeldOnlyOnceAccepted(db) && WellFormed(db, c)
    requires (c.Move? || c.Give?) ==> UpToDate(db, c)
    ensures HeldOnlyOnceAccepted(Apply(db, c, now))
  {
    hide Apply, History, UpToDate, WellFormed, PastAcceptance;
    forall o
      ensures AcceptedFirst(Apply(db, c, now), o)
    {
      KeepsAcceptedFirst(db, c, now, o);
    }
  }

  lemma {:induction false} RunKeepsHeldOnlyOnceAccepted(db: Db, cs: seq<Commit>, now: nat)
    requires HeldOnlyOnceAccepted(db) && AllUpToDate(db, cs, now)
    ensures HeldOnlyOnceAccepted(ApplyAll(db, cs, now))
    decreases |cs|
  {
    hide HeldOnlyOnceAccepted, Apply, UpToDate;
    if cs != [] {
      KeepsHeldOnlyOnceAccepted(db, cs[0], now);
      RunKeepsHeldOnlyOnceAccepted(Apply(db, cs[0], now), cs[1..], now);
    }
  }

  lemma {:induction false} DriversComeAfterAcceptance(db: Db, steps: seq<Step>)
    requires Fresh(db)
    ensures HeldOnlyOnceAccepted(Run(db, steps))
  {
    hide CallOutcome, Writes, ApplyAll, AllUpToDate;
    if steps != [] {
      DriversComeAfterAcceptance(db, Front(steps));
      var before, last := Run(db, Front(steps)), Last(steps);
      CallIsItsWrites(before, last.call, last.now);
      RunKeepsHeldOnlyOnceAccepted(before, Writes(before, last.call, last.now), last.now);
    }
  }

  /** An unassign that goes through finds its order ASSIGNED; every other call is free. */
  predicate UnassignsFromAssigned(db: Db, call: Call) {
    call.Unassign? && UnassignError(db, call.o).None? ==> db.orders[call.o].status == ASSIGNED
  }

  ghost predicate AlwaysUnassignsFromAssigned(db: Db, steps: seq<Step>) {
    steps == []
    || (AlwaysUnassignsFromAssigned(db, Front(steps)) && UnassignsFromAssigned(Run(db, Front(steps)), Last(steps).call))
  }

  lemma OneWriteIsLegal(db: Db, c: Commit, now: nat)
    requires WellFormed(db, c) && UpToDate(db, c) && !c.Take?
    ensures LegalNow(db, c, now)
  {
  }

  /** With a driver in hand, an unassign is a legal move only from ASSIGNED. */
  lemma TakeIsLegalFromAssigned(db: Db, c: Commit, now: nat)
    requires Agreement(db) && HeldOnlyOnceAccepted(db) && c.Take? && UpToDate(db, c)
    ensures LegalNow(db, c, now) <==> db.orders[c.o].status == ASSIGNED
  {
  }

  /** Every call but a stray unassign moves its order along edges of the table. */
  lemma CallIsLegalUnlessStrayUnassign(db: Db, call: Call, now: nat)
    requires Agreement(db) && HeldOnlyOnceAccepted(db)
    ensures AllLegal(db, Writes(db, call, now), now) <==> UnassignsFromAssigned(db, call)
  {
    if call.Unassign? {
      UnassignIsLegalIff(db, call, now);
    } else {
      hide Agreement, HeldOnlyOnceAccepted, Writes, AllLegal;
      CallIsItsWrites(db, call, now);
      NoOtherCallTakes(db, call, now);
      CurrentWritesAreLegal(db, Writes(db, call, now), now);
    }
  }

  lemma UnassignIsLegalIff(db: Db, call: Call, now: nat)
    requires Agreement(db) && HeldOnlyOnceAccepted(db) && call.Unassign?
    ensures AllLegal(db, Writes(db, call, now), now) <==> UnassignsFromAssigned(db, call)
  {
    hide ApplyAll, AllUpToDate, AllLegal, LegalNow, Agreement, HeldOnlyOnceAccepted;
    ApplyNil(db, now);
    if UnassignError(db, call.o).None? {
      var take := Take(call.o, db.orders[call.o].driverId.value, db.orders[call.o].status);
      ApplyOne(db, take, now);
      TakeIsLegalFromAssigned(db, take, now);
    }
  }

  lemma NoOtherCallTakes(db: Db, call: Call, now: nat)
    requires !call.Unassign?
    ensures forall i :: 0 <= i < |Writes(db, call, now)| ==> !Writes(db, call, now)[i].Take?
  {
  }

  lemma {:induction false} CurrentWritesAreLegal(db: Db, cs: seq<Commit>, now: nat)
    requires AllUpToDate(db, cs, now) && forall i :: 0 <= i < |cs| ==> !cs[i].Take?
    ensures AllLegal(db, cs, now)
    decreases |cs|
  {
    hide Apply, WellFormed, UpToDate, LegalNow;
    if cs != [] {
      OneWriteIsLegal(db, cs[0], now);
      CurrentWritesAreLegal(Apply(db, cs[0], now), cs[1..], now);
    }
  }

  /** Every order's log is a legal status walk exactly in the runs whose unassigns all came from ASSIGNED. */
  lemma {:induction false} LogIsLegalIff(db: Db, steps: seq<Step>)
    requires Fresh(db)
    ensures LegalLog(Run(db, steps).log) <==> AlwaysUnassignsFromAssigned(db, steps)
  {
    hide CallOutcome, Writes, ApplyAll, AllUpToDate, AllLegal, Tracked, Agreement, LegalLog, Fresh;
    hide UnassignsFromAssigned, HeldOnlyOnceAccepted;
    if steps == [] {
      FreshIsReplayable(db);
    } else {
      LogIsLegalIff(db, Front(steps));
      var before, last := Run(db, Front(steps)), Last(steps);
      StatusIsLastInLog(db, Front(steps));
      OrdersAndDriversAgree(db, Front(steps));
      DriversComeAfterAcceptance(db, Front(steps));
      CallIsItsWrites(before, last.call, last.now);
      RunKeepsLegalLog(before, Writes(before, last.call, last.now), last.now);
      CallIsLegalUnlessStrayUnassign(before, last.call, last.now);
    }
  }

  /** What a delivered order's log must show, and how long any order's log can be. */
  lemma DeliveredOrderHistory(db: Db, steps: seq<Step>, o: OrderId)
    requires Fresh(db) && AlwaysUnassignsFromAssigned(db, steps)
    requires o in Run(db, steps).orders
    ensures var h := History(Run(db, steps).log, o);
            && h != [] && Last(h) == Run(db, steps).orders[o].status
            && |h| - 1 <= 11 + LoopsOf(h).Allowance()
            && (Last(h) == DELIVERED ==> PassedThrough(h, |h| - 1))
  {
    hide CallOutcome, Fresh, Run, History, IsWalk, LoopsOf, PassedThrough;
    LogIsLegalIff(db, steps);
    StatusIsLastInLog(db, steps);
    var h := History(Run(db, steps).log, o);
    WalkLengthBound(h);
    if Last(h) == DELIVERED {
      DeliveredPassedThrough(h, |h| - 1);
    }
  }

  // --- Every legal walk happens ----------------------------------------------

  /** Conversely every legal walk from a status orders are created in is some order's log: the bound and the
      unavoidable statuses describe the system itself and not only its table. */
  lemma {:induction false} EveryWalkHappens(db: Db, o: OrderId, draft: Draft, w: seq<Status>) returns (steps: seq<Step>)
    requires Fresh(db) && Checkout(db, draft).Ok?
    requires IsWalk(w) && w != [] && w[0] == InitialStatus(draft)
    ensures History(Run(db, steps).log, o) == w && AlwaysUnassignsFromAssigned(db, steps)
    ensures o in Run(db, steps).orders && Run(db, steps).orders[o].status == Last(w) && Run(db, steps).jobs == {}
    decreases |w|
  {
    hide AlwaysUnassignsFromAssigned, UnassignsFromAssigned, History, CallOutcome, IsWalk, Fresh, Run;
    if |w| == 1 {
      steps := [Step(CreateOrder(o, draft), 0)];
      CreateStartsHistory(db, o, draft);
      RunSnoc(db, [], steps[0]);
      RunNothing(db);
      assert [] + [steps[0]] == steps;
      OneMoreStep(db, [], steps[0]);
    } else {
      assert w == Front(w) + [Last(w)];
      WalkAppend(Front(w), Last(w));
      var before := EveryWalkHappens(db, o, draft, Front(w));
      var step := Step(Transition(o, Last(w)), 0);
      steps := before + [step];
      RunSnoc(db, before, step);
      TransitionExtendsHistory(Run(db, before), o, Last(w));
      OneMoreStep(db, before, step);
    }
  }

  lemma OneMoreStep(db: Db, steps: seq<Step>, step: Step)
    requires steps == [] || AlwaysUnassignsFromAssigned(db, steps)
    requires !step.call.Unassign?
    ensures AlwaysUnassignsFromAssigned(db, steps + [step])
  {
    assert Front(steps + [step]) == steps;
  }

  lemma CreateStartsHistory(db: Db, o: OrderId, draft: Draft)
    requires Fresh(db) && Checkout(db, draft).Ok?
    ensures var after := CallOutcome(db, CreateOrder(o, draft), 0).db;
            && o in after.orders && after.orders[o].status == InitialStatus(draft) && after.jobs == {}
            && History(after.log, o) == [InitialStatus(draft)]
  {
    var bill := Checkout(db, draft).value;
    HistoriesAfter(db, Insert(o, draft, bill), 0, o);
    assert History(db.log, o) == [];
  }

  lemma TransitionExtendsHistory(db: Db, o: OrderId, to: Status)
    requires o in db.orders && CanTransition(db.orders[o].status, to)
    ensures var after := CallOutcome(db, Transition(o, to), 0).db;
            && o in after.orders && after.orders[o].status == to && after.jobs == db.jobs
            && History(after.log, o) == History(db.log, o) + [to]
  {
    HistoriesAfter(db, Move(o, db.orders[o].status, to), 0, o);
  }

  // --- Scripted runs ---------------------------------------------------------

  /** The order has this status, and this driver holds it or is free. */
  predicate At(s: Db, o: OrderId, d: DriverId, status: Status, held: bool) {
    && o in s.orders && d in s.drivers && s.orders[o].status == status
    && s.orders[o].driverId == (if held then Some(d) else None)
    && (held || s.drivers[d].activeOrderId.None?)
  }

  lemma Created(db: Db, o: OrderId, d: DriverId, draft: Draft, now: nat) returns (steps: seq<Step>)
    requires Fresh(db) && Checkout(db, draft).Ok? && d in db.drivers && InitialStatus(draft) == PLACED
    ensures At(Run(db, steps), o, d, PLACED, false)
    ensures Run(db, steps).log == [Event(o, EventType.Created, None, Some(PLACED), Plain, now)]
    ensures Run(db, steps).drivers == db.drivers
  {
    hide Run, CallOutcome, Checkout, Fresh, At;
    steps := [Step(CreateOrder(o, draft), now)];
    RunSnoc(db, [], steps[0]);
    assert [] + [steps[0]] == steps;
    RunNothing(db);
    CreateSets(db, o, d, draft, now);
  }

  lemma CreateSets(db: Db, o: OrderId, d: DriverId, draft: Draft, now: nat)
    requires Fresh(db) && Checkout(db, draft).Ok? && d in db.drivers && InitialStatus(draft) == PLACED
    ensures var after := CallOutcome(db, CreateOrder(o, draft), now).db;
            && At(after, o, d, PLACED, false) && after.drivers == db.drivers
            && after.log == [Event(o, EventType.Created, None, Some(PLACED), Plain, now)]
  {
    hide Checkout;
  }

  /** The events of transitions along a walk, all at one time. */
  function MovesAlong(o: OrderId, w: seq<Status>, now: nat): seq<Event> {
    if |w| <= 1 then []
    else
      MovesAlong(o, Front(w), now)
      + [Event(o, EventTypeFor(Last(w)), Some(Last(Front(w))), Some(Last(w)), Plain, now)]
  }

  lemma NoMoves(o: OrderId, w: seq<Status>, now: nat)
    requires |w| <= 1
    ensures MovesAlong(o, w, now) == []
  {
  }

  lemma LastMove(o: OrderId, w: seq<Status>, now: nat)
    requires |w| > 1
    ensures MovesAlong(o, w, now)
            == MovesAlong(o, Front(w), now)
               + [Event(o, EventTypeFor(Last(w)), Some(Last(Front(w))), Some(Last(w)), Plain, now)]
  {
  }

  /** Transitions take an order along any legal walk and leave its driver alone. */
  lemma {:induction false} WalkOn(db: Db, steps: seq<Step>, o: OrderId, d: DriverId, held: bool, w: seq<Status>,
                                now: nat)
    returns (longer: seq<Step>)
    requires IsWalk(w) && w != [] && At(Run(db, steps), o, d, w[0], held)
    ensures At(Run(db, longer), o, d, Last(w), held)
    ensures Run(db, longer).log == Run(db, steps).log + MovesAlong(o, w, now)
    ensures Run(db, longer).drivers == Run(db, steps).drivers
    decreases |w|
  {
    hide Run, CallOutcome, At, IsWalk, MovesAlong;
    if |w| == 1 {
      longer := steps;
      NoMoves(o, w, now);
      assert Run(db, steps).log + [] == Run(db, steps).log;
    } else {
      assert w == Front(w) + [Last(w)];
      WalkAppend(Front(w), Last(w));
      LastMove(o, w, now);
      var before := WalkOn(db, steps, o, d, held, Front(w), now);
      var step := Step(Transition(o, Last(w)), now);
      longer := before + [step];
      RunSnoc(db, before, step);
      StepOn(Run(db, before), o, d, held, Last(Front(w)), Last(w), now);
    }
  }

  lemma StepOn(s: Db, o: OrderId, d: DriverId, held: bool, from: Status, to: Status, now: nat)
    requires At(s, o, d, from, held) && CanTransition(from, to)
    ensures var after := CallOutcome(s, Transition(o, to), now).db;
            && At(after, o, d, to, held) && after.drivers == s.drivers
            && after.log == s.log + [Event(o, EventTypeFor(to), Some(from), Some(to), Plain, now)]
  {
    hide TransitionOutcome;
    TransitionSucceeds(s, o, to, now);
  }

  lemma AssignOn(db: Db, steps: seq<Step>, o: OrderId, d: DriverId, now: nat) returns (longer: seq<Step>)
    requires At(Run(db, steps), o, d, ACCEPTED, false)
    ensures At(Run(db, longer), o, d, ASSIGNED, true)
    ensures Run(db, longer).log == Run(db, steps).log + [Event(o, Assigned, None, Some(ASSIGNED), Given(d, None), now)]
    ensures Run(db, longer).drivers == Run(db, steps).drivers[d := Driver(BUSY, Some(o))]
  {
    hide Run;
    longer := steps + [Step(Assign(o, Some(d), MANUAL, None), now)];
    RunSnoc(db, steps, Last(longer));
  }

  /** Unassign asks only for a driver: it reopens an order from any status, a delivered one included. */
  lemma UnassignOn(db: Db, steps: seq<Step>, o: OrderId, d: DriverId, from: Status, now: nat)
    returns (longer: seq<Step>)
    requires At(Run(db, steps), o, d, from, true)
    ensures longer == steps + [Step(Unassign(o), now)]
    ensures At(Run(db, longer), o, d, ACCEPTED, false)
    ensures Run(db, longer).log
            == Run(db, steps).log + [Event(o, Unassigned, Some(from), Some(ACCEPTED), Taken(d), now)]
    ensures from != ASSIGNED ==> !AlwaysUnassignsFromAssigned(db, longer)
  {
    hide Run;
    longer := steps + [Step(Unassign(o), now)];
    RunSnoc(db, steps, Last(longer));
    assert Front(longer) == steps;
  }

  lemma AnAssignedOrder(db: Db, o: OrderId, d: DriverId, draft: Draft, now: nat) returns (steps: seq<Step>)
    requires Fresh(db) && d in db.drivers && Checkout(db, draft).Ok? && InitialStatus(draft) == PLACED
    ensures At(Run(db, steps), o, d, ASSIGNED, true)
    ensures Run(db, steps).log
            == [Event(o, EventType.Created, None, Some(PLACED), Plain, now)] + MovesAlong(o, [PLACED, ACCEPTED], now)
               + [Event(o, Assigned, None, Some(ASSIGNED), Given(d, None), now)]
    ensures Run(db, steps).drivers == db.drivers[d := Driver(BUSY, Some(o))]
  {
    hide Run, Fresh, Checkout, MovesAlong, At;
    steps := Created(db, o, d, draft, now);
    steps := WalkOn(db, steps, o, d, false, [PLACED, ACCEPTED], now);
    steps := AssignOn(db, steps, o, d, now);
  }

  /** A run that assigns an order and then sets its driver's status by hand: the driver counts as available, and still
      has the order. */
  lemma BusyDriverSetFree(db: Db, o: OrderId, d: DriverId, draft: Draft) returns (steps: seq<Step>)
    requires Fresh(db) && d in db.drivers && Checkout(db, draft).Ok? && InitialStatus(draft) == PLACED
    ensures var s := Run(db, steps);
            && d in s.drivers && s.drivers[d].status == AVAILABLE && s.drivers[d].activeOrderId == Some(o)
            && !BusyWithOrder(s)
  {
    hide Run, Fresh, Checkout;
    var before := AnAssignedOrder(db, o, d, draft, 0);
    OrdersAndDriversAgree(db, before);
    var move := Step(ChangeDriverStatus(d, AVAILABLE), 0);
    RunSnoc(db, before, move);
    steps := before + [move];
  }

  /** A run in which a delivery fails and its order goes to a second driver: the first is released, the log says so. */
  lemma ReassignedAfterFailure(db: Db, o: OrderId, d: DriverId, e: DriverId, draft: Draft) returns (steps: seq<Step>)
    requires Fresh(db) && d in db.drivers && e in db.drivers && d != e
    requires Checkout(db, draft).Ok? && InitialStatus(draft) == PLACED
    ensures var s := Run(db, steps);
            && o in s.orders && s.orders[o].status == ASSIGNED && s.orders[o].driverId == Some(e)
            && s.drivers == db.drivers[d := Driver(AVAILABLE, None)][e := Driver(BUSY, Some(o))]
            && s.log != [] && Last(s.log) == Event(o, Reassigned, None, Some(ASSIGNED), Given(e, Some(d)), 1)
            && RetryDelivery(o, 3600000) in s.jobs
  {
    hide Run, Checkout, MovesAlong, IsWalk, CallOutcome;
    EdgesMakeWalk([ASSIGNED, EN_ROUTE_TO_PICKUP]);
    steps := AnAssignedOrder(db, o, d, draft, 0);
    steps := WalkOn(db, steps, o, d, true, [ASSIGNED, EN_ROUTE_TO_PICKUP], 0);
    var s0 := Run(db, steps);
    RunSnoc(db, steps, Step(RecordFailure(o, Retry, None), 0));
    steps := steps + [Step(RecordFailure(o, Retry, None), 0)];
    var s1 := Run(db, steps);
    FailedForRetry(s0, o);
    RunSnoc(db, steps, Step(Assign(o, Some(e), MANUAL, None), 1));
    steps := steps + [Step(Assign(o, Some(e), MANUAL, None), 1)];
    GivenToAnother(s1, o, d, e);
    assert Run(db, steps).drivers == db.drivers[d := Driver(AVAILABLE, None)][e := Driver(BUSY, Some(o))];
  }

  lemma FailedForRetry(s: Db, o: OrderId)
    requires o in s.orders && s.orders[o].status == EN_ROUTE_TO_PICKUP
    ensures var after := CallOutcome(s, RecordFailure(o, Retry, None), 0).db;
            && after.orders == s.orders[o := s.orders[o].(status := RETRY_SCHEDULED)]
            && after.drivers == s.drivers && RetryDelivery(o, 3600000) in after.jobs
  {
    hide FailureOutcome;
    FailsExactly(s, o, Retry, None, 0);
  }

  lemma GivenToAnother(s: Db, o: OrderId, d: DriverId, e: DriverId)
    requires o in s.orders && s.orders[o].status == RETRY_SCHEDULED && s.orders[o].driverId == Some(d)
    requires d in s.drivers && e in s.drivers && d != e && s.drivers[e].activeOrderId.None?
    ensures var after := CallOutcome(s, Assign(o, Some(e), MANUAL, None), 1).db;
            && o in after.orders && after.orders[o].status == ASSIGNED && after.orders[o].driverId == Some(e)
            && after.drivers == s.drivers[d := Driver(AVAILABLE, None)][e := Driver(BUSY, Some(o))]
            && after.log == s.log + [Event(o, Reassigned, None, Some(ASSIGNED), Given(e, Some(d)), 1)]
            && after.jobs == s.jobs
  {
    hide AssignOutcome;
    assert CanTake(s, o, e);
    AssignsExactly(s, o, Some(e), MANUAL, None, 1);
    AssignmentLeaves(s, o, Some(e), MANUAL, None, 1);
    var after := CallOutcome(s, Assign(o, Some(e), MANUAL, None), 1).db;
    assert after.drivers == s.drivers[d := Driver(AVAILABLE, None)][e := Driver(BUSY, Some(o))];
  }

  const THE_USUAL_WAY := [ASSIGNED, EN_ROUTE_TO_PICKUP, PICKED_UP, OUT_FOR_DELIVERY, DELIVERED]

  lemma UsualWayIsAWalk()
    ensures IsWalk(THE_USUAL_WAY) && IsWalk([PLACED, ACCEPTED])
  {
    EdgesMakeWalk([PLACED, ACCEPTED]);
    EdgesMakeWalk(THE_USUAL_WAY);
  }

  /** A run that assigns one order to one driver and delivers it; the driver still holds it. */
  lemma ScriptedDelivery(db: Db, o: OrderId, d: DriverId, draft: Draft) returns (steps: seq<Step>)
    requires Fresh(db) && d in db.drivers && Checkout(db, draft).Ok? && InitialStatus(draft) == PLACED
    ensures At(Run(db, steps), o, d, DELIVERED, true)
  {
    hide Run, Fresh, Checkout, MovesAlong, At, IsWalk;
    UsualWayIsAWalk();
    steps := AnAssignedOrder(db, o, d, draft, 0);
    steps := WalkOn(db, steps, o, d, true, THE_USUAL_WAY, 0);
  }

  /** A run that delivers an order and then puts it back in the pool; its log is not a legal walk. */
  lemma DeliveredOrderReopened(db: Db, o: OrderId, d: DriverId, draft: Draft) returns (steps: seq<Step>)
    requires Fresh(db) && d in db.drivers && Checkout(db, draft).Ok? && InitialStatus(draft) == PLACED
    ensures At(Run(db, steps), o, d, DELIVERED, true)
    ensures var reopened := Run(db, steps + [Step(Unassign(o), 7)]);
            At(reopened, o, d, ACCEPTED, false) && !LegalLog(reopened.log)
  {
    hide LegalLog, Run, Fresh, AlwaysUnassignsFromAssigned, Checkout;
    steps := ScriptedDelivery(db, o, d, draft);
    var longer := UnassignOn(db, steps, o, d, DELIVERED, 7);
    LogIsLegalIff(db, longer);
  }

  // --- Proof of delivery -----------------------------------------------------

  /** A stored proof belongs to an order that was delivered. */
  ghost predicate ProvenOnce(db: Db) {
    forall o :: o in db.proofs ==> o in db.orders && DELIVERED in History(db.log, o)
  }

  /** Appending to the log and keeping the orders keeps it, unless a proof is added. */
  lemma WriteKeepsProven(db: Db, c: Commit, now: nat)
    requires ProvenOnce(db) && WellFormed(db, c) && !c.SetProof?
    ensures ProvenOnce(Apply(db, c, now))
  {
    hide History, Appended, Apply;
    KeepsProofsAndOrders(db, c, now);
    forall o | o in Apply(db, c, now).proofs
      ensures DELIVERED in History(Apply(db, c, now).log, o)
    {
      HistoriesAfter(db, c, now, o);
    }
  }

  lemma KeepsProofsAndOrders(db: Db, c: Commit, now: nat)
    requires !c.SetProof?
    ensures Apply(db, c, now).proofs == db.proofs && forall o :: o in db.orders ==> o in Apply(db, c, now).orders
  {
    assert ApplyAside(db, c).proofs == db.proofs;
  }

  lemma {:induction false} WritesKeepProven(db: Db, cs: seq<Commit>, now: nat)
    requires ProvenOnce(db) && AllUpToDate(db, cs, now) && forall i :: 0 <= i < |cs| ==> !cs[i].SetProof?
    ensures ProvenOnce(ApplyAll(db, cs, now))
    decreases |cs|
  {
    hide Apply, ProvenOnce;
    if cs != [] {
      WriteKeepsProven(db, cs[0], now);
      WritesKeepProven(Apply(db, cs[0], now), cs[1..], now);
    }
  }

  lemma OnlyProofsAreProven(db: Db, call: Call, now: nat)
    requires !call.SubmitProof?
    ensures forall i :: 0 <= i < |Writes(db, call, now)| ==> !Writes(db, call, now)[i].SetProof?
  {
  }

  /** An accepted proof uses up its code, stores its row and delivers its order; a refused one changes nothing. */
  lemma ProofDelivers(db: Db, o: OrderId, proof: Proof, now: nat)
    ensures var r := CallOutcome(db, SubmitProof(o, proof), now);
            && (r.Threw? ==> r.db == db)
            && (r.Done? ==>
                  && o in db.orders && r.db.orders == db.orders[o := db.orders[o].(status := DELIVERED)]
                  && r.db.proofs == db.proofs[o := ProofFor(db, o, proof)] && (proof.evidence.Otp? ==> o !in r.db.otps)
                  && r.db.log == db.log + [Event(o, Delivered, Some(OUT_FOR_DELIVERY), Some(DELIVERED), Plain, now)])
  {
    hide TransitionOutcome;
    if o in db.orders && db.orders[o].status == OUT_FOR_DELIVERY && ProofAccepted(db, o, proof) {
      assert CanTransition(OUT_FOR_DELIVERY, DELIVERED);
      TransitionSucceeds(Proven(db, o, proof), o, DELIVERED, now);
    }
  }

  lemma ProofKeepsProven(db: Db, o: OrderId, proof: Proof, now: nat)
    requires ProvenOnce(db)
    ensures ProvenOnce(CallOutcome(db, SubmitProof(o, proof), now).db)
  {
    hide CallOutcome, History;
    ProofDelivers(db, o, proof, now);
    var r := CallOutcome(db, SubmitProof(o, proof), now);
    if r.Done? {
      forall p | p in r.db.proofs
        ensures p in r.db.orders && DELIVERED in History(r.db.log, p)
      {
        HistoryAppend(db.log, Event(o, Delivered, Some(OUT_FOR_DELIVERY), Some(DELIVERED), Plain, now), p);
      }
    }
  }

  /** In every reachable state a stored proof belongs to an order whose log shows its delivery. */
  lemma {:induction false} ProofsAreOfDeliveries(db: Db, steps: seq<Step>)
    requires Fresh(db)
    ensures ProvenOnce(Run(db, steps))
  {
    hide CallOutcome, Writes, ApplyAll, AllUpToDate;
    if steps != [] {
      hide Fresh, ProvenOnce;
      ProofsAreOfDeliveries(db, Front(steps));
      var before, last := Run(db, Front(steps)), Last(steps);
      if last.call.SubmitProof? {
        ProofKeepsProven(before, last.call.o, last.call.proof, last.now);
      } else {
        CallIsItsWrites(before, last.call, last.now);
        OnlyProofsAreProven(before, last.call, last.now);
        WritesKeepProven(before, Writes(before, last.call, last.now), last.now);
      }
    }
  }

  // --- One-time codes --------------------------------------------------------

  /** The order has no code but perhaps this one. */
  predicate OnlyCode(db: Db, o: OrderId, code: Option<string>) {
    o in db.otps ==> Some(db.otps[o]) == code
  }

  predicate IssuesFor(c: Commit, o: OrderId) {
    c.SetOtp? && c.o == o
  }

  lemma WriteKeepsOnlyCode(db: Db, c: Commit, now: nat, o: OrderId, code: Option<string>)
    requires OnlyCode(db, o, code) && !IssuesFor(c, o)
    ensures OnlyCode(Apply(db, c, now), o, code)
  {
    if !c.SetOtp? && !c.DropOtp? {
      assert ApplyAside(db, c).otps == db.otps;
      hide ApplyAside;
    } else {
      hide CommitAssignment, CommitUnassign, CommitTransition, WithOrder;
    }
  }

  lemma {:induction false} WritesKeepOnlyCode(db: Db, cs: seq<Commit>, now: nat, o: OrderId, code: Option<string>)
    requires OnlyCode(db, o, code) && forall i :: 0 <= i < |cs| ==> !IssuesFor(cs[i], o)
    ensures OnlyCode(ApplyAll(db, cs, now), o, code)
    decreases |cs|
  {
    hide Apply, IssuesFor, OnlyCode;
    if cs != [] {
      WriteKeepsOnlyCode(db, cs[0], now, o, code);
      WritesKeepOnlyCode(Apply(db, cs[0], now), cs[1..], now, o, code);
    }
  }

  lemma OnlyIssuingIssues(db: Db, call: Call, now: nat, o: OrderId)
    requires !(call.IssueOtp? && call.o == o)
    ensures forall i :: 0 <= i < |Writes(db, call, now)| ==> !IssuesFor(Writes(db, call, now)[i], o)
  {
  }

  predicate NoneIssued(steps: seq<Step>, o: OrderId) {
    forall i :: 0 <= i < |steps| ==> !(steps[i].call.IssueOtp? && steps[i].call.o == o)
  }

  lemma {:induction false} OnlyCodeStays(db: Db, steps: seq<Step>, o: OrderId, code: Option<string>)
    requires OnlyCode(db, o, code) && NoneIssued(steps, o)
    ensures OnlyCode(Run(db, steps), o, code)
  {
    hide CallOutcome, Writes, ApplyAll, AllUpToDate, OnlyCode;
    if steps != [] {
      OnlyCodeStays(db, Front(steps), o, code);
      var before, last := Run(db, Front(steps)), Last(steps);
      CallIsItsWrites(before, last.call, last.now);
      OnlyIssuingIssues(before, last.call, last.now, o);
      WritesKeepOnlyCode(before, Writes(before, last.call, last.now), last.now, o, code);
    }
  }

  /** After a code was issued and whatever else was called, only that code delivers: any other changes no row. */
  lemma OnlyTheLastCodeDelivers(db: Db, steps: seq<Step>, o: OrderId, code: string, proof: Proof, now: nat)
    requires NoneIssued(steps, o) && proof.evidence.Otp? && proof.evidence.code != code
    ensures var s := Run(CallOutcome(db, IssueOtp(o, code), 0).db, steps);
            var r := CallOutcome(s, SubmitProof(o, proof), now);
            r.Threw? && r.db == s
  {
    hide Run, ProofOutcome, NoneIssued;
    var issued := CallOutcome(db, IssueOtp(o, code), 0).db;
    OnlyCodeStays(issued, steps, o, Some(code));
    ProvesExactly(Run(issued, steps), o, proof, now);
  }

  /** A code delivers once: after it did, and until a new one is issued, no code does. */
  lemma CodeIsUsedUp(db: Db, steps: seq<Step>, o: OrderId, first: Proof, second: Proof, then': nat, now: nat)
    requires NoneIssued(steps, o) && first.evidence.Otp? && second.evidence.Otp?
    requires CallOutcome(db, SubmitProof(o, first), then').Done?
    ensures var s := Run(CallOutcome(db, SubmitProof(o, first), then').db, steps);
            var r := CallOutcome(s, SubmitProof(o, second), now);
            r.Threw? && r.db == s
  {
    hide Run, ProofOutcome, NoneIssued;
    ProvesExactly(db, o, first, then');
    var used := CallOutcome(db, SubmitProof(o, first), then').db;
    OnlyCodeStays(used, steps, o, None);
    ProvesExactly(Run(used, steps), o, second, now);
  }
}
