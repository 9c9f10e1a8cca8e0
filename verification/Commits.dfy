/** The atomic writes every service call is made of, and what each of them does to the log. */
module Commits {
  import opened Wrappers
  import opened Sequences
  import opened OrderStatus
  import opened Database
  import opened OrderEvents
  import opened Orders
  import opened Assignment
  import Pricing

  datatype Commit =
    | Insert(o: OrderId, draft: Draft, bill: Bill)
    | Move(o: OrderId, from: Status, to: Status)
    | Give(o: OrderId, d: DriverId, mode: AssignmentMode, previous: Option<DriverId>)
    | Take(o: OrderId, previousDriver: DriverId, from: Status)
    | Note(e: Event)
    | AddAttempt(attempt: Attempt)
    | AddJob(job: Job)
    | DropJob(job: Job)
    | SetDriverStatus(d: DriverId, driverStatus: DriverStatus)
    | SetProduct(p: ProductId, product: Product)
    | SetRule(z: ZoneId, rule: Pricing.Rule)
    | SetPayment(o: OrderId, payment: Payment)
    | MarkProcessed(w: WebhookId)
    | SetProof(o: OrderId, proof: ProofRow)
    | SetOtp(o: OrderId, code: string)
    | DropOtp(o: OrderId)

  function Apply(db: Db, c: Commit, now: nat): Db {
    match c
    case Insert(o, draft, bill) => WithOrder(db, o, draft, bill, now)
    case Move(o, from, to) => CommitTransition(db, o, from, to, now).db
    case Give(o, d, mode, previous) => CommitAssignment(db, o, d, mode, previous, now).db
    case Take(o, previous, from) => CommitUnassign(db, o, previous, from, now).db
    case Note(e) => WithEvent(db, e)
    case AddAttempt(a) => db.(attempts := db.attempts + [a])
    case SetDriverStatus(d, s) =>
      if d in db.drivers then db.(drivers := db.drivers[d := db.drivers[d].(status := s)]) else db
    case _ => ApplyAside(db, c)
  }

  /** Writes to the other tables, which say nothing about orders, drivers, attempts or events. */
  function ApplyAside(db: Db, c: Commit): (after: Db)
    ensures after.orders == db.orders && after.drivers == db.drivers && after.log == db.log
            && after.attempts == db.attempts
  {
    match c
    case AddJob(j) => db.(jobs := db.jobs + {j})
    case DropJob(j) => db.(jobs := db.jobs - {j})
    case SetProduct(p, product) => db.(products := db.products[p := product])
    case SetRule(z, rule) => db.(rules := db.rules[z := rule])
    case SetPayment(o, row) => db.(payments := db.payments[o := row])
    case MarkProcessed(w) => db.(processed := db.processed + {w})
    case SetProof(o, row) => db.(proofs := db.proofs[o := row])
    case SetOtp(o, code) => db.(otps := db.otps[o := code])
    case DropOtp(o) => db.(otps := db.otps - {o})
    case _ => db
  }

  function ApplyAll(db: Db, cs: seq<Commit>, now: nat): Db
    decreases |cs|
  {
    if cs == [] then db else ApplyAll(Apply(db, cs[0], now), cs[1..], now)
  }

  /** An event that names no status and moves no driver. */
  predicate Inert(e: Event) {
    e.fromStatus.None? && e.toStatus.None? && !e.detail.Given? && !e.detail.Taken?
  }

  /** What the code guarantees of every write, however stale the reads behind it. */
  predicate WellFormed(db: Db, c: Commit) {
    && (c.Insert? ==> c.o !in db.orders)
    && (c.Move? ==> CanTransition(c.from, c.to))
    && (c.Note? ==> Inert(c.e))
  }

  /** The write rests on rows that still say what they said when they were read. */
  predicate UpToDate(db: Db, c: Commit) {
    match c
    case Move(o, from, _) => o in db.orders && db.orders[o].status == from
    case Give(o, _, _, previous) =>
      o in db.orders && db.orders[o].driverId == previous && Assignable(db.orders[o].status)
    case Take(o, previous, from) =>
      o in db.orders && db.orders[o].driverId == Some(previous) && db.orders[o].status == from
    case AddAttempt(a) => a.number == |NumbersOf(db.attempts, a.orderId)| + 1
    case _ => true
  }

  // --- The log determines the store ------------------------------------------

  /** What a reader of the log can reconstruct. */
  datatype View = View(
    status: map<OrderId, Status>,
    driverOf: map<OrderId, DriverId>,
    activeOrderOf: map<DriverId, OrderId>
  )

  function Observe(v: View, e: Event): View {
    var status := if e.toStatus.Some? then v.status[e.orderId := e.toStatus.value] else v.status;
    match e.detail
    case Given(d, previous) =>
      var released := if Releases(previous, d) then v.activeOrderOf - {previous.value} else v.activeOrderOf;
      View(status, v.driverOf[e.orderId := d], released[d := e.orderId])
    case Taken(previous) => View(status, v.driverOf - {e.orderId}, v.activeOrderOf - {previous})
    case _ => v.(status := status)
  }

  function Replay(log: seq<Event>): View {
    if log == [] then View(map[], map[], map[]) else Observe(Replay(Front(log)), Last(log))
  }

  function ViewOfRows(orders: map<OrderId, Order>, drivers: map<DriverId, Driver>): View {
    View(
      map o | o in orders :: orders[o].status,
      map o | o in orders && orders[o].driverId.Some? :: orders[o].driverId.value,
      map d | d in drivers && drivers[d].activeOrderId.Some? :: drivers[d].activeOrderId.value)
  }

  function ViewOf(db: Db): View {
    ViewOfRows(db.orders, db.drivers)
  }

  predicate Replayable(db: Db) {
    Replay(db.log) == ViewOf(db)
  }

  lemma ReplayAppend(log: seq<Event>, e: Event)
    ensures Replay(log + [e]) == Observe(Replay(log), e)
  {
    assert Front(log + [e]) == log;
  }

  lemma InsertKeepsReplayable(db: Db, c: Commit, now: nat)
    requires Replayable(db) && c.Insert? && c.o !in db.orders
    ensures Replayable(Apply(db, c, now))
  {
    hide Replay;
    var after := Apply(db, c, now);
    var status := InitialStatus(c.draft);
    var creation := Event(c.o, EventType.Created, None, Some(status), Plain, now);
    ReplayAppend(db.log, creation);
    ReplayAppend(db.log + [creation], Event(c.o, Scheduled, None, None, Plain, now));
    assert db.log + [creation] + [] == db.log + [creation];
    assert ViewOf(after).status == ViewOf(db).status[c.o := status];
    assert ViewOf(after).driverOf == ViewOf(db).driverOf;
    assert ViewOf(after).activeOrderOf == ViewOf(db).activeOrderOf;
  }

  lemma MoveKeepsReplayable(db: Db, c: Commit, now: nat)
    requires Replayable(db) && c.Move?
    ensures Replayable(Apply(db, c, now))
  {
    hide Replay;
    if c.o in db.orders {
      var after := Apply(db, c, now);
      ReplayAppend(db.log, Event(c.o, EventTypeFor(c.to), Some(c.from), Some(c.to), Plain, now));
      assert ViewOf(after).status == ViewOf(db).status[c.o := c.to];
      assert ViewOf(after).driverOf == ViewOf(db).driverOf;
      assert ViewOf(after).activeOrderOf == ViewOf(db).activeOrderOf;
    }
  }

  lemma ViewAfterGive(db: Db, o: OrderId, d: DriverId, mode: AssignmentMode, previous: Option<DriverId>)
    requires o in db.orders && (Releases(previous, d) ==> previous.value in db.drivers)
    ensures var v := ViewOf(db);
            var released := if Releases(previous, d) then ReleasedDrivers(db.drivers, previous.value) else db.drivers;
            var order := db.orders[o].(driverId := Some(d), mode := Some(mode), status := ASSIGNED);
            var w := ViewOfRows(db.orders[o := order], released[d := Driver(BUSY, Some(o))]);
            && w.status == v.status[o := ASSIGNED] && w.driverOf == v.driverOf[o := d]
            && var left := if Releases(previous, d) then v.activeOrderOf - {previous.value} else v.activeOrderOf;
               w.activeOrderOf == left[d := o]
  {
  }

  lemma GiveKeepsReplayable(db: Db, c: Commit, now: nat)
    requires Replayable(db) && c.Give?
    ensures Replayable(Apply(db, c, now))
  {
    hide Replay, ViewOfRows;
    if CommitAssignment(db, c.o, c.d, c.mode, c.previous, now).Done? {
      var kind := if Releases(c.previous, c.d) then Reassigned else Assigned;
      ReplayAppend(db.log, Event(c.o, kind, None, Some(ASSIGNED), Given(c.d, c.previous), now));
      ViewAfterGive(db, c.o, c.d, c.mode, c.previous);
    }
  }

  lemma ViewAfterTake(db: Db, o: OrderId, previous: DriverId)
    requires o in db.orders && previous in db.drivers
    ensures var v := ViewOf(db);
            var w := ViewOfRows(db.orders[o := db.orders[o].(driverId := None, mode := None, status := ACCEPTED)],
                                db.drivers[previous := Driver(AVAILABLE, None)]);
            && w.status == v.status[o := ACCEPTED] && w.driverOf == v.driverOf - {o}
            && w.activeOrderOf == v.activeOrderOf - {previous}
  {
  }

  lemma TakeKeepsReplayable(db: Db, c: Commit, now: nat)
    requires Replayable(db) && c.Take?
    ensures Replayable(Apply(db, c, now))
  {
    hide Replay, ViewOfRows;
    if CommitUnassign(db, c.o, c.previousDriver, c.from, now).Done? {
      ReplayAppend(db.log, Event(c.o, Unassigned, Some(c.from), Some(ACCEPTED), Taken(c.previousDriver), now));
      ViewAfterTake(db, c.o, c.previousDriver);
    }
  }

  /** The write touches no order and no driver, except perhaps a driver's own status. */
  predicate Bystander(c: Commit) {
    !c.Insert? && !c.Move? && !c.Give? && !c.Take?
  }

  lemma DriverStatusIsNotInView(db: Db, d: DriverId, s: DriverStatus)
    requires d in db.drivers
    ensures ViewOfRows(db.orders, db.drivers[d := db.drivers[d].(status := s)]) == ViewOf(db)
  {
    assert ViewOfRows(db.orders, db.drivers[d := db.drivers[d].(status := s)]).activeOrderOf
           == ViewOf(db).activeOrderOf;
  }

  lemma BystanderKeepsReplayable(db: Db, c: Commit, now: nat)
    requires Replayable(db) && WellFormed(db, c) && Bystander(c)
    ensures Replayable(Apply(db, c, now))
  {
    hide Replay, ApplyAside, ViewOfRows;
    if c.Note? {
      ReplayAppend(db.log, c.e);
    } else if c.SetDriverStatus? && c.d in db.drivers {
      DriverStatusIsNotInView(db, c.d, c.driverStatus);
    }
  }

  /** No write, stale or not, separates the tables from the fold over the log. */
  lemma KeepsReplayable(db: Db, c: Commit, now: nat)
    requires Replayable(db) && WellFormed(db, c)
    ensures Replayable(Apply(db, c, now))
  {
    hide Replayable, Apply;
    match c
    case Insert(_, _, _) => InsertKeepsReplayable(db, c, now);
    case Move(_, _, _) => MoveKeepsReplayable(db, c, now);
    case Give(_, _, _, _) => GiveKeepsReplayable(db, c, now);
    case Take(_, _, _) => TakeKeepsReplayable(db, c, now);
    case _ => BystanderKeepsReplayable(db, c, now);
  }

  // --- The log tells the truth -----------------------------------------------

  function HolderIn(v: View, o: OrderId): Option<DriverId> {
    if o in v.driverOf then Some(v.driverOf[o]) else None
  }

  /** The event says of the past only what the log before it says: the status it leaves, the driver it replaces. */
  predicate TruthfulEvent(v: View, e: Event) {
    && (e.fromStatus.Some? ==> e.orderId in v.status && v.status[e.orderId] == e.fromStatus.value)
    && (match e.detail
        case Given(d, previous) =>
          previous == HolderIn(v, e.orderId) && (e.kind == Reassigned <==> Releases(previous, d))
        case Taken(previous) => HolderIn(v, e.orderId) == Some(previous)
        case _ => true)
  }

  predicate Truthful(log: seq<Event>) {
    log == [] || (Truthful(Front(log)) && TruthfulEvent(Replay(Front(log)), Last(log)))
  }

  lemma TruthfulAppend(log: seq<Event>, e: Event)
    ensures Truthful(log + [e]) <==> Truthful(log) && TruthfulEvent(Replay(log), e)
  {
    assert Front(log + [e]) == log;
  }

  /** The from-status and the previous driver that the write records are what the rows say now. An assignment records no
      from-status, so a status that changed since it was read does not show. */
  predicate TellsTruth(db: Db, c: Commit, now: nat) {
    Target(db, c, now).Some? && c.o in db.orders ==>
      match c
      case Move(o, from, _) => db.orders[o].status == from
      case Give(o, _, _, previous) => db.orders[o].driverId == previous
      case Take(o, previous, from) => db.orders[o].driverId == Some(previous) && db.orders[o].status == from
      case _ => true
  }

  lemma HolderInView(db: Db, o: OrderId)
    requires o in db.orders
    ensures HolderIn(ViewOf(db), o) == db.orders[o].driverId && ViewOf(db).status[o] == db.orders[o].status
  {
  }

  lemma QuietKeepsTruthful(log: seq<Event>, e: Event)
    requires e.fromStatus.None? && !e.detail.Given? && !e.detail.Taken?
    ensures Truthful(log + [e]) <==> Truthful(log)
  {
    TruthfulAppend(log, e);
  }

  lemma InsertKeepsTruthful(db: Db, c: Commit, now: nat)
    requires c.Insert?
    ensures Truthful(Apply(db, c, now).log) <==> Truthful(db.log)
  {
    hide Truthful;
    var creation := Event(c.o, EventType.Created, None, Some(InitialStatus(c.draft)), Plain, now);
    QuietKeepsTruthful(db.log, creation);
    QuietKeepsTruthful(db.log + [creation], Event(c.o, Scheduled, None, None, Plain, now));
    assert db.log + [creation] + [] == db.log + [creation];
  }

  lemma HandoverKeepsTruthful(db: Db, c: Commit, now: nat)
    requires Replayable(db) && (c.Give? || c.Take?)
    ensures Truthful(Apply(db, c, now).log) <==> Truthful(db.log) && TellsTruth(db, c, now)
  {
    hide Truthful, Replay, ViewOf;
    if c.Give? && CommitAssignment(db, c.o, c.d, c.mode, c.previous, now).Done? {
      var kind := if Releases(c.previous, c.d) then Reassigned else Assigned;
      TruthfulAppend(db.log, Event(c.o, kind, None, Some(ASSIGNED), Given(c.d, c.previous), now));
      HolderInView(db, c.o);
    } else if c.Take? && CommitUnassign(db, c.o, c.previousDriver, c.from, now).Done? {
      TruthfulAppend(db.log, Event(c.o, Unassigned, Some(c.from), Some(ACCEPTED), Taken(c.previousDriver), now));
      HolderInView(db, c.o);
      StatusInView(db, c.o);
    }
  }

  /** A write keeps the log truthful exactly when the from-status and the previous driver it records are current. */
  lemma KeepsTruthful(db: Db, c: Commit, now: nat)
    requires Replayable(db) && WellFormed(db, c)
    ensures Truthful(Apply(db, c, now).log) <==> Truthful(db.log) && TellsTruth(db, c, now)
  {
    hide ApplyAside, Truthful, Replay, ViewOf;
    match c
    case Insert(_, _, _) => InsertKeepsTruthful(db, c, now);
    case Note(e) => QuietKeepsTruthful(db.log, e);
    case Move(o, from, to) =>
      if o in db.orders {
        TruthfulAppend(db.log, Event(o, EventTypeFor(to), Some(from), Some(to), Plain, now));
        HolderInView(db, o);
        StatusInView(db, o);
      }
    case Give(_, _, _, _) => HandoverKeepsTruthful(db, c, now);
    case Take(_, _, _) => HandoverKeepsTruthful(db, c, now);
    case _ =>
  }

  lemma StatusInView(db: Db, o: OrderId)
    requires o in db.orders
    ensures o in ViewOf(db).status
  {
  }

  // --- Orders and drivers agree ----------------------------------------------

  /** An order's driver and a driver's active order point at each other. */
  ghost predicate Agreement(db: Db) {
    && (forall o :: o in db.orders && db.orders[o].driverId.Some? ==>
          db.orders[o].driverId.value in db.drivers
          && db.drivers[db.orders[o].driverId.value].activeOrderId == Some(o))
    && (forall d :: d in db.drivers && db.drivers[d].activeOrderId.Some? ==>
          db.drivers[d].activeOrderId.value in db.orders
          && db.orders[db.drivers[d].activeOrderId.value].driverId == Some(d))
  }

  /** So a driver has at most one order, and an order at most one driver. */
  lemma AgreementIsExclusive(db: Db)
    requires Agreement(db)
    ensures forall o, p | o in db.orders && p in db.orders && db.orders[o].driverId.Some? ::
              db.orders[o].driverId == db.orders[p].driverId ==> o == p
    ensures forall d, e | d in db.drivers && e in db.drivers && db.drivers[d].activeOrderId.Some? ::
              db.drivers[d].activeOrderId == db.drivers[e].activeOrderId ==> d == e
  {
  }

  /** The order's driver is the one being given, the one being released, or nobody; and the one released holds nothing
      else. */
  predicate ReleasesTheHolder(db: Db, o: OrderId, d: DriverId, previous: Option<DriverId>)
    requires o in db.orders
  {
    var holder := db.orders[o].driverId;
    && (holder.None? || holder == Some(d) || holder == previous)
    && (Releases(previous, d) && previous.value in db.drivers ==>
          db.drivers[previous.value].activeOrderId.None? || db.drivers[previous.value].activeOrderId == Some(o))
  }

  /** Exactly when an assignment's transaction keeps the agreement. */
  lemma GiveKeepsAgreement(db: Db, o: OrderId, d: DriverId, mode: AssignmentMode, previous: Option<DriverId>, now: nat)
    requires Agreement(db) && CommitAssignment(db, o, d, mode, previous, now).Done?
    ensures Agreement(CommitAssignment(db, o, d, mode, previous, now).db) <==> ReleasesTheHolder(db, o, d, previous)
  {
    var after := CommitAssignment(db, o, d, mode, previous, now).db;
    assert after.drivers[d].activeOrderId == Some(o) && after.orders[o].driverId == Some(d);
    var holder := db.orders[o].driverId;
    if holder.Some? && holder != Some(d) && holder != previous {
      assert after.drivers[holder.value].activeOrderId == Some(o);
      assert !Agreement(after);
    }
    if Releases(previous, d) && db.drivers[previous.value].activeOrderId.Some?
       && db.drivers[previous.value].activeOrderId != Some(o) {
      var other := db.drivers[previous.value].activeOrderId.value;
      assert after.orders[other].driverId == previous && after.drivers[previous.value].activeOrderId == None;
      assert !Agreement(after);
    }
  }

  /** Exactly when an unassignment's transaction keeps it. */
  lemma TakeKeepsAgreement(db: Db, o: OrderId, previous: DriverId, from: Status, now: nat)
    requires Agreement(db) && CommitUnassign(db, o, previous, from, now).Done?
    ensures Agreement(CommitUnassign(db, o, previous, from, now).db)
            <==> (db.orders[o].driverId.None? || db.orders[o].driverId == Some(previous))
                 && (db.drivers[previous].activeOrderId.None? || db.drivers[previous].activeOrderId == Some(o))
  {
    var after := CommitUnassign(db, o, previous, from, now).db;
    var holder := db.orders[o].driverId;
    if holder.Some? && holder != Some(previous) {
      assert after.drivers[holder.value].activeOrderId == Some(o) && after.orders[o].driverId == None;
      assert !Agreement(after);
    }
    if db.drivers[previous].activeOrderId.Some? && db.drivers[previous].activeOrderId != Some(o) {
      var other := db.drivers[previous].activeOrderId.value;
      assert after.orders[other].driverId == Some(previous);
      assert !Agreement(after);
    }
  }

  /** The check on drivers the transaction could make but does not. */
  predicate Releasing(db: Db, c: Commit, now: nat) {
    match c
    case Give(o, d, mode, previous) =>
      CommitAssignment(db, o, d, mode, previous, now).Done? ==> ReleasesTheHolder(db, o, d, previous)
    case Take(o, previous, from) =>
      CommitUnassign(db, o, previous, from, now).Done? ==>
        && (db.orders[o].driverId.None? || db.orders[o].driverId == Some(previous))
        && (db.drivers[previous].activeOrderId.None? || db.drivers[previous].activeOrderId == Some(o))
    case _ => true
  }

  lemma InsertKeepsAgreement(db: Db, c: Commit, now: nat)
    requires Agreement(db) && c.Insert? && c.o !in db.orders
    ensures Agreement(Apply(db, c, now))
  {
  }

  lemma OthersKeepAgreement(db: Db, c: Commit, now: nat)
    requires Agreement(db) && WellFormed(db, c) && !c.Give? && !c.Take?
    ensures Agreement(Apply(db, c, now))
  {
    if c.Insert? {
      hide Agreement, Apply;
      InsertKeepsAgreement(db, c, now);
    } else {
      hide ApplyAside;
    }
  }

  /** Exactly which writes, stale or not, keep the agreement. */
  lemma KeepsAgreementIff(db: Db, c: Commit, now: nat)
    requires Agreement(db) && WellFormed(db, c)
    ensures Agreement(Apply(db, c, now)) <==> Releasing(db, c, now)
  {
    hide ReleasesTheHolder, Agreement, ApplyAside, CommitAssignment, CommitUnassign;
    match c
    case Give(o, d, mode, previous) =>
      if CommitAssignment(db, o, d, mode, previous, now).Done? {
        GiveKeepsAgreement(db, o, d, mode, previous, now);
      } else {
        ThrowingWritesNothing(db, c, now);
      }
    case Take(o, previous, from) =>
      if CommitUnassign(db, o, previous, from, now).Done? {
        TakeKeepsAgreement(db, o, previous, from, now);
      } else {
        ThrowingWritesNothing(db, c, now);
      }
    case _ => OthersKeepAgreement(db, c, now);
  }

  lemma ThrowingWritesNothing(db: Db, c: Commit, now: nat)
    requires c.Give? ==> CommitAssignment(db, c.o, c.d, c.mode, c.previous, now).Threw?
    requires c.Take? ==> CommitUnassign(db, c.o, c.previousDriver, c.from, now).Threw?
    requires c.Give? || c.Take?
    ensures Apply(db, c, now) == db
  {
  }

  lemma CurrentIsReleasing(db: Db, c: Commit, now: nat)
    requires Agreement(db) && UpToDate(db, c)
    ensures Releasing(db, c, now)
  {
  }

  lemma KeepsAgreement(db: Db, c: Commit, now: nat)
    requires Agreement(db) && WellFormed(db, c) && UpToDate(db, c)
    ensures Agreement(Apply(db, c, now))
  {
    hide Agreement, Apply, WellFormed, UpToDate, Releasing;
    KeepsAgreementIff(db, c, now);
    CurrentIsReleasing(db, c, now);
  }

  /** An order has an assignment mode just when it has a driver; a driver is busy just when it has an order. */
  predicate BusyWithOrder(db: Db) {
    && (forall o :: o in db.orders ==> (db.orders[o].mode.Some? <==> db.orders[o].driverId.Some?))
    && (forall d :: d in db.drivers ==> (db.drivers[d].status == BUSY <==> db.drivers[d].activeOrderId.Some?))
  }

  /** A driver status set by hand says whether the driver has an order. */
  predicate HonestStatus(db: Db, c: Commit) {
    c.SetDriverStatus? && c.d in db.drivers ==> (c.driverStatus == BUSY <==> db.drivers[c.d].activeOrderId.Some?)
  }

  lemma HandoverKeepsBusy(db: Db, c: Commit, now: nat)
    requires BusyWithOrder(db) && (c.Give? || c.Take?)
    ensures BusyWithOrder(Apply(db, c, now))
  {
  }

  /** Exactly which writes keep the busy drivers those with an order: all but a wrong status set by hand. */
  lemma KeepsBusyWithOrder(db: Db, c: Commit, now: nat)
    requires BusyWithOrder(db)
    ensures BusyWithOrder(Apply(db, c, now)) <==> HonestStatus(db, c)
  {
    if c.Give? || c.Take? {
      hide BusyWithOrder, Apply;
      HandoverKeepsBusy(db, c, now);
    } else {
      hide ApplyAside, CommitAssignment, CommitUnassign;
      if c.SetDriverStatus? && c.d in db.drivers {
        assert Apply(db, c, now).drivers[c.d] == db.drivers[c.d].(status := c.driverStatus);
      }
    }
  }

  // --- The log is a status walk ----------------------------------------------

  /** Every order's status is the last its history names, and histories begin where orders are created. */
  ghost predicate Tracked(db: Db) {
    && (forall o :: o in db.orders ==>
          && History(db.log, o) != [] && Last(History(db.log, o)) == db.orders[o].status
          && IsInitial(History(db.log, o)[0]))
    && (forall o :: o !in db.orders ==> History(db.log, o) == [])
  }

  ghost predicate LegalLog(log: seq<Event>) {
    forall o :: IsWalk(History(log, o))
  }

  /** The status a write would give its order, if it goes through. */
  function Target(db: Db, c: Commit, now: nat): Option<Status> {
    match c
    case Move(o, from, to) => if CommitTransition(db, o, from, to, now).Done? then Some(to) else None
    case Give(o, d, mode, previous) =>
      if CommitAssignment(db, o, d, mode, previous, now).Done? then Some(ASSIGNED) else None
    case Take(o, previous, from) => if CommitUnassign(db, o, previous, from, now).Done? then Some(ACCEPTED) else None
    case _ => None
  }

  /** The check the transaction could make but does not: the move is legal from the status it finds. */
  predicate LegalNow(db: Db, c: Commit, now: nat) {
    Target(db, c, now).Some? ==> c.o in db.orders && CanTransition(db.orders[c.o].status, Target(db, c, now).value)
  }

  /** The statuses one write appends to the history of `o`. */
  function Appended(db: Db, c: Commit, now: nat, o: OrderId): seq<Status> {
    if c.Insert? && c.o == o then [InitialStatus(c.draft)]
    else if Target(db, c, now).Some? && c.o == o then [Target(db, c, now).value]
    else []
  }

  lemma HistoryAfterInsert(db: Db, c: Commit, now: nat, o: OrderId)
    requires c.Insert?
    ensures History(Apply(db, c, now).log, o) == History(db.log, o) + Appended(db, c, now, o)
  {
    hide History;
    var creation := Event(c.o, EventType.Created, None, Some(InitialStatus(c.draft)), Plain, now);
    HistoryAppend(db.log, creation, o);
    HistoryAppend(db.log + [creation], Event(c.o, Scheduled, None, None, Plain, now), o);
    assert db.log + [creation] + [] == db.log + [creation];
  }

  lemma HistoryAfterHandover(db: Db, c: Commit, now: nat, o: OrderId)
    requires c.Give? || c.Take?
    ensures History(Apply(db, c, now).log, o) == History(db.log, o) + Appended(db, c, now, o)
  {
    hide History;
    if c.Give? {
      var kind := if Releases(c.previous, c.d) then Reassigned else Assigned;
      HistoryAppend(db.log, Event(c.o, kind, None, Some(ASSIGNED), Given(c.d, c.previous), now), o);
    } else {
      HistoryAppend(db.log, Event(c.o, Unassigned, Some(c.from), Some(ACCEPTED), Taken(c.previousDriver), now), o);
    }
  }

  /** What one write appends to each order's history. */
  lemma HistoriesAfter(db: Db, c: Commit, now: nat, o: OrderId)
    requires WellFormed(db, c)
    ensures History(Apply(db, c, now).log, o) == History(db.log, o) + Appended(db, c, now, o)
  {
    hide History, ApplyAside;
    match c
    case Insert(_, _, _) => HistoryAfterInsert(db, c, now, o);
    case Note(e) => HistoryAppend(db.log, e, o);
    case Move(p, from, to) => HistoryAppend(db.log, Event(p, EventTypeFor(to), Some(from), Some(to), Plain, now), o);
    case Give(_, _, _, _) => HistoryAfterHandover(db, c, now, o);
    case Take(_, _, _) => HistoryAfterHandover(db, c, now, o);
    case _ =>
  }

  /** One write sets the status of its own order to what it appends, and leaves the others alone. */
  ghost predicate StatusFollows(db: Db, c: Commit, now: nat, o: OrderId) {
    var after, appended := Apply(db, c, now), Appended(db, c, now, o);
    && (o in after.orders <==> o in db.orders || (c.Insert? && c.o == o))
    && (o in after.orders ==> after.orders[o].status == if appended == [] then db.orders[o].status else appended[0])
  }

  lemma StatusAfterMove(db: Db, c: Commit, now: nat, o: OrderId)
    requires c.Insert? || c.Move?
    requires WellFormed(db, c)
    ensures StatusFollows(db, c, now, o)
  {
  }

  lemma StatusAfterHandover(db: Db, c: Commit, now: nat, o: OrderId)
    requires c.Give? || c.Take?
    ensures StatusFollows(db, c, now, o)
  {
  }

  lemma StatusAfterBystander(db: Db, c: Commit, now: nat, o: OrderId)
    requires Bystander(c)
    ensures StatusFollows(db, c, now, o)
  {
    hide ApplyAside;
  }

  lemma StatusesAfter(db: Db, c: Commit, now: nat, o: OrderId)
    requires WellFormed(db, c)
    ensures StatusFollows(db, c, now, o)
  {
    hide StatusFollows, WellFormed;
    match c
    case Insert(_, _, _) => StatusAfterMove(db, c, now, o);
    case Move(_, _, _) => StatusAfterMove(db, c, now, o);
    case Give(_, _, _, _) => StatusAfterHandover(db, c, now, o);
    case Take(_, _, _) => StatusAfterHandover(db, c, now, o);
    case _ => StatusAfterBystander(db, c, now, o);
  }

  lemma KeepsTracked(db: Db, c: Commit, now: nat)
    requires Tracked(db) && WellFormed(db, c)
    ensures Tracked(Apply(db, c, now))
  {
    hide History, Apply, Target;
    var after := Apply(db, c, now);
    forall o
      ensures o in after.orders ==> History(after.log, o) != [] && Last(History(after.log, o)) == after.orders[o].status
                                    && IsInitial(History(after.log, o)[0])
      ensures o !in after.orders ==> History(after.log, o) == []
    {
      HistoriesAfter(db, c, now, o);
      StatusesAfter(db, c, now, o);
      TargetExists(db, c, now);
    }
  }

  lemma TargetExists(db: Db, c: Commit, now: nat)
    ensures Target(db, c, now).Some? ==> (c.Move? || c.Give? || c.Take?) && c.o in db.orders
  {
  }

  lemma HistoryStaysWalk(db: Db, c: Commit, now: nat, o: OrderId)
    requires Tracked(db) && WellFormed(db, c)
    ensures IsWalk(History(Apply(db, c, now).log, o))
            <==> IsWalk(History(db.log, o)) && (Target(db, c, now).Some? && c.o == o ==> LegalNow(db, c, now))
  {
    hide History, Apply, Target, IsWalk;
    HistoriesAfter(db, c, now, o);
    TargetExists(db, c, now);
    var before, appended := History(db.log, o), Appended(db, c, now, o);
    if appended == [] {
      assert before + appended == before;
    } else {
      WalkAppend(before, appended[0]);
    }
  }

  /** A write keeps the log legal exactly when its move is legal from the status it finds. */
  lemma KeepsLegalLog(db: Db, c: Commit, now: nat)
    requires Tracked(db) && WellFormed(db, c)
    ensures LegalLog(Apply(db, c, now).log) <==> LegalLog(db.log) && LegalNow(db, c, now)
  {
    hide History, Apply, Target, IsWalk;
    TargetExists(db, c, now);
    forall o
      ensures IsWalk(History(Apply(db, c, now).log, o))
              <==> IsWalk(History(db.log, o)) && (Target(db, c, now).Some? && c.o == o ==> LegalNow(db, c, now))
    {
      HistoryStaysWalk(db, c, now, o);
    }
    if Target(db, c, now).Some? {
      assert IsWalk(History(Apply(db, c, now).log, c.o)) ==> LegalNow(db, c, now);
    }
  }

  /** Each event a transition records carries an edge of the table, whatever happened between read and write. */
  ghost predicate EdgesInLog(log: seq<Event>) {
    forall i :: 0 <= i < |log| && log[i].fromStatus.Some? && log[i].kind != Unassigned ==>
      log[i].toStatus.Some? && CanTransition(log[i].fromStatus.value, log[i].toStatus.value)
  }

  lemma KeepsEdgesInLog(db: Db, c: Commit, now: nat)
    requires EdgesInLog(db.log) && WellFormed(db, c)
    ensures EdgesInLog(Apply(db, c, now).log)
  {
    hide ApplyAside;
  }

  // --- Attempt numbers -------------------------------------------------------

  /** The attempts of each order are numbered 1, 2, 3 and so on, in order. */
  ghost predicate Numbered(db: Db) {
    forall o, i | 0 <= i < |NumbersOf(db.attempts, o)| :: NumbersOf(db.attempts, o)[i] == i + 1
  }

  lemma NumbersAppend(attempts: seq<Attempt>, a: Attempt, o: OrderId)
    ensures NumbersOf(attempts + [a], o) == NumbersOf(attempts, o) + if a.orderId == o then [a.number] else []
  {
    assert Front(attempts + [a]) == attempts;
  }

  /** A write keeps the numbering exactly when the count of earlier attempts behind it is current; a numbering once
      broken stays broken. */
  lemma KeepsNumbered(db: Db, c: Commit, now: nat)
    ensures Numbered(Apply(db, c, now)) <==> Numbered(db) && (c.AddAttempt? ==> UpToDate(db, c))
  {
    hide NumbersOf, ApplyAside;
    var after := Apply(db, c, now);
    if c.AddAttempt? {
      forall o
        ensures NumbersOf(after.attempts, o)
                == NumbersOf(db.attempts, o) + if c.attempt.orderId == o then [c.attempt.number] else []
      {
        NumbersAppend(db.attempts, c.attempt, o);
      }
      var mine := NumbersOf(after.attempts, c.attempt.orderId);
      assert mine[|mine| - 1] == c.attempt.number;
      forall o, i | Numbered(after) && 0 <= i < |NumbersOf(db.attempts, o)|
        ensures NumbersOf(db.attempts, o)[i] == i + 1
      {
        assert NumbersOf(after.attempts, o)[i] == i + 1;
      }
    } else {
      assert after.attempts == db.attempts;
    }
  }

  lemma {:induction false} RunKeepsNumbered(db: Db, cs: seq<Commit>, now: nat)
    requires Numbered(db) && AllUpToDate(db, cs, now)
    ensures Numbered(ApplyAll(db, cs, now))
    decreases |cs|
  {
    hide Numbered, Apply;
    if cs != [] {
      KeepsNumbered(db, cs[0], now);
      RunKeepsNumbered(Apply(db, cs[0], now), cs[1..], now);
    }
  }

  // --- Runs of writes --------------------------------------------------------

  /** Every write of the sequence, when its turn comes, is well formed and rests on current rows. */
  ghost predicate AllUpToDate(db: Db, cs: seq<Commit>, now: nat)
    decreases |cs|
  {
    cs == [] || (WellFormed(db, cs[0]) && UpToDate(db, cs[0]) && AllUpToDate(Apply(db, cs[0], now), cs[1..], now))
  }

  lemma {:induction false} RunKeepsReplayable(db: Db, cs: seq<Commit>, now: nat)
    requires Replayable(db) && AllUpToDate(db, cs, now)
    ensures Replayable(ApplyAll(db, cs, now))
    decreases |cs|
  {
    hide Replayable, Apply;
    if cs != [] {
      KeepsReplayable(db, cs[0], now);
      RunKeepsReplayable(Apply(db, cs[0], now), cs[1..], now);
    }
  }

  lemma {:induction false} RunKeepsTruthful(db: Db, cs: seq<Commit>, now: nat)
    requires Replayable(db) && Truthful(db.log) && AllUpToDate(db, cs, now)
    ensures Truthful(ApplyAll(db, cs, now).log)
    decreases |cs|
  {
    hide Replayable, Truthful, Apply;
    if cs != [] {
      KeepsReplayable(db, cs[0], now);
      KeepsTruthful(db, cs[0], now);
      RunKeepsTruthful(Apply(db, cs[0], now), cs[1..], now);
    }
  }

  lemma {:induction false} RunKeepsBusyWithOrder(db: Db, cs: seq<Commit>, now: nat)
    requires BusyWithOrder(db) && forall i :: 0 <= i < |cs| ==> !cs[i].SetDriverStatus?
    ensures BusyWithOrder(ApplyAll(db, cs, now))
    decreases |cs|
  {
    hide BusyWithOrder, Apply;
    if cs != [] {
      KeepsBusyWithOrder(db, cs[0], now);
      RunKeepsBusyWithOrder(Apply(db, cs[0], now), cs[1..], now);
    }
  }

  lemma {:induction false} RunKeepsAgreement(db: Db, cs: seq<Commit>, now: nat)
    requires Agreement(db) && AllUpToDate(db, cs, now)
    ensures Agreement(ApplyAll(db, cs, now))
    decreases |cs|
  {
    hide Agreement, Apply;
    if cs != [] {
      KeepsAgreement(db, cs[0], now);
      RunKeepsAgreement(Apply(db, cs[0], now), cs[1..], now);
    }
  }

  lemma {:induction false} RunKeepsTracked(db: Db, cs: seq<Commit>, now: nat)
    requires Tracked(db) && AllUpToDate(db, cs, now)
    ensures Tracked(ApplyAll(db, cs, now))
    decreases |cs|
  {
    hide Tracked, Apply;
    if cs != [] {
      KeepsTracked(db, cs[0], now);
      RunKeepsTracked(Apply(db, cs[0], now), cs[1..], now);
    }
  }

  /** The first illegal move of a run of writes makes the log illegal for good. */
  ghost predicate AllLegal(db: Db, cs: seq<Commit>, now: nat)
    decreases |cs|
  {
    cs == [] || (LegalNow(db, cs[0], now) && AllLegal(Apply(db, cs[0], now), cs[1..], now))
  }

  lemma {:induction false} RunKeepsLegalLog(db: Db, cs: seq<Commit>, now: nat)
    requires Tracked(db) && AllUpToDate(db, cs, now)
    ensures LegalLog(ApplyAll(db, cs, now).log) <==> LegalLog(db.log) && AllLegal(db, cs, now)
    decreases |cs|
  {
    hide Tracked, Apply, LegalLog, LegalNow;
    if cs != [] {
      KeepsTracked(db, cs[0], now);
      KeepsLegalLog(db, cs[0], now);
      RunKeepsLegalLog(Apply(db, cs[0], now), cs[1..], now);
    }
  }
}
