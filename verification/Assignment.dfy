/** Assigning an order to a driver, releasing the previous one, and returning an order to the pool. */
module Assignment {
  import opened Wrappers
  import opened OrderStatus
  import opened Database
  import opened OrderEvents

  predicate Assignable(s: Status) {
    s == ACCEPTED || s == RETRY_SCHEDULED
  }

  /** The driver an `assign` request ends up with; `nearest` is the answer of the spatial query. */
  function ChosenDriver(wanted: Option<DriverId>, mode: AssignmentMode, nearest: Option<DriverId>): Option<DriverId> {
    if mode == AUTO_NEAREST || wanted.None? then nearest else wanted
  }

  /** The previous driver when there is one to release. */
  predicate Releases(previous: Option<DriverId>, d: DriverId) {
    previous.Some? && previous.value != d
  }

  function ReleasedDrivers(drivers: map<DriverId, Driver>, p: DriverId): map<DriverId, Driver>
    requires p in drivers
  {
    drivers[p := Driver(AVAILABLE, None)]
  }

  /** The transaction of an assignment; `previous` was read from the order row before it began. */
  function CommitAssignment(db: Db, o: OrderId, d: DriverId, mode: AssignmentMode, previous: Option<DriverId>,
                            now: nat): Outcome {
    if d !in db.drivers then Threw(db, NotFound)
    else if db.drivers[d].activeOrderId.Some? && db.drivers[d].activeOrderId.value != o then Threw(db, Conflict)
    else if Releases(previous, d) && previous.value !in db.drivers then Threw(db, RecordMissing)
    else if o !in db.orders then Threw(db, RecordMissing)
    else
      var released := if Releases(previous, d) then ReleasedDrivers(db.drivers, previous.value) else db.drivers;
      Done(db.(orders := db.orders[o := db.orders[o].(driverId := Some(d), mode := Some(mode), status := ASSIGNED)],
               drivers := released[d := Driver(BUSY, Some(o))],
               log := db.log + [Event(o, if Releases(previous, d) then Reassigned else Assigned, None, Some(ASSIGNED),
                                      Given(d, previous), now)]))
  }

  /** The read and the checks before the transaction. */
  function AssignError(db: Db, o: OrderId, chosen: Option<DriverId>): Option<Error> {
    if o !in db.orders then Some(NotFound)
    else if !Assignable(db.orders[o].status) then Some(BadRequest)
    else if chosen.None? then Some(Conflict)
    else None
  }

  function AssignOutcome(db: Db, o: OrderId, wanted: Option<DriverId>, mode: AssignmentMode, nearest: Option<DriverId>,
                         now: nat): Outcome {
    var chosen := ChosenDriver(wanted, mode, nearest);
    match AssignError(db, o, chosen)
    case Some(e) => Threw(db, e)
    case None => CommitAssignment(db, o, chosen.value, mode, db.orders[o].driverId, now)
  }

  /** The transaction of an unassignment; `previous` and `from` were read before it began. */
  function CommitUnassign(db: Db, o: OrderId, previous: DriverId, from: Status, now: nat): Outcome {
    if previous !in db.drivers || o !in db.orders then Threw(db, RecordMissing)
    else Done(db.(drivers := ReleasedDrivers(db.drivers, previous),
                  orders := db.orders[o := db.orders[o].(driverId := None, mode := None, status := ACCEPTED)],
                  log := db.log + [Event(o, Unassigned, Some(from), Some(ACCEPTED), Taken(previous), now)]))
  }

  function UnassignError(db: Db, o: OrderId): Option<Error> {
    if o !in db.orders || db.orders[o].driverId.None? then Some(BadRequest) else None
  }

  /** Note that the order's status is not consulted. */
  function UnassignOutcome(db: Db, o: OrderId, now: nat): Outcome {
    match UnassignError(db, o)
    case Some(e) => Threw(db, e)
    case None => CommitUnassign(db, o, db.orders[o].driverId.value, db.orders[o].status, now)
  }

  /** The driver an assignment takes, given by hand or the nearest, can be put on the order. */
  predicate CanTake(db: Db, o: OrderId, d: DriverId) {
    && d in db.drivers
    && (db.drivers[d].activeOrderId.None? || db.drivers[d].activeOrderId == Some(o))
    && (o in db.orders && db.orders[o].driverId.Some? && db.orders[o].driverId != Some(d) ==>
          db.orders[o].driverId.value in db.drivers)
  }

  /** Which assignments go through, and what each refusal is. */
  lemma AssignsExactly(db: Db, o: OrderId, wanted: Option<DriverId>, mode: AssignmentMode, nearest: Option<DriverId>,
                       now: nat)
    ensures var r := AssignOutcome(db, o, wanted, mode, nearest, now);
            var taken := if mode == MANUAL && wanted.Some? then wanted else nearest;
            var ready := o in db.orders && (db.orders[o].status == ACCEPTED || db.orders[o].status == RETRY_SCHEDULED);
            && (r.Done? <==> ready && taken.Some? && CanTake(db, o, taken.value))
            && (r.Threw? ==>
                  r == Threw(db, if o !in db.orders then NotFound
                                 else if !ready then BadRequest
                                 else if taken.None? then Conflict
                                 else if taken.value !in db.drivers then NotFound
                                 else if db.drivers[taken.value].activeOrderId.Some?
                                         && db.drivers[taken.value].activeOrderId != Some(o) then Conflict
                                 else RecordMissing))
  {
  }

  /** The rows and the event an assignment leaves. */
  lemma AssignmentLeaves(db: Db, o: OrderId, wanted: Option<DriverId>, mode: AssignmentMode, nearest: Option<DriverId>,
                         now: nat)
    requires AssignOutcome(db, o, wanted, mode, nearest, now).Done?
    ensures var r := AssignOutcome(db, o, wanted, mode, nearest, now);
            var taken := if mode == MANUAL && wanted.Some? then wanted else nearest;
            && taken.Some? && o in db.orders
            && var d, previous := taken.value, db.orders[o].driverId;
               var replacing := previous.Some? && previous != taken;
               && r.db.orders
                  == db.orders[o := Order(db.orders[o].clientId, ASSIGNED, taken, Some(mode), db.orders[o].bill)]
               && (replacing ==> previous.value in db.drivers)
               && (replacing ==>
                     r.db.drivers == db.drivers[previous.value := Driver(AVAILABLE, None)][d := Driver(BUSY, Some(o))])
               && (!replacing ==> r.db.drivers == db.drivers[d := Driver(BUSY, Some(o))])
               && r.db == db.(orders := r.db.orders, drivers := r.db.drivers, log := r.db.log)
               && r.db.log == db.log + [Event(o, if replacing then Reassigned else Assigned, None, Some(ASSIGNED),
                                              Given(d, previous), now)]
  {
  }

  /** Every order with a driver can be unassigned, in any status; what that leaves. */
  lemma UnassignsExactly(db: Db, o: OrderId, now: nat)
    ensures var r := UnassignOutcome(db, o, now);
            if o !in db.orders || db.orders[o].driverId.None? then r == Threw(db, BadRequest)
            else
              var d := db.orders[o].driverId.value;
              if d !in db.drivers then r == Threw(db, RecordMissing)
              else r == Done(db.(
                orders := db.orders[o := Order(db.orders[o].clientId, ACCEPTED, None, None, db.orders[o].bill)],
                drivers := db.drivers[d := Driver(AVAILABLE, None)],
                log := db.log + [Event(o, Unassigned, Some(db.orders[o].status), Some(ACCEPTED), Taken(d), now)]))
  {
  }

  class AssignmentService {
    const store: Store
    const events: OrderEventsService

    constructor (store: Store, events: OrderEventsService)
      ensures this.store == store && this.events == events
    {
      this.store, this.events := store, events;
    }

    predicate Wired() {
      events.store == store
    }

    method Assign(o: OrderId, wanted: Option<DriverId>, mode: AssignmentMode, nearest: Option<DriverId>, now: nat)
      returns (error: Option<Error>)
      requires Wired()
      modifies store
      ensures Ended(store.Rows(), error) == AssignOutcome(old(store.Rows()), o, wanted, mode, nearest, now)
    {
      if o !in store.orders {
        return Some(NotFound);
      }
      var order := store.orders[o];
      if order.status != ACCEPTED && order.status != RETRY_SCHEDULED {
        return Some(BadRequest);
      }
      var driverId := wanted;
      if mode == AUTO_NEAREST || driverId.None? {
        driverId := nearest;
        if driverId.None? {
          return Some(Conflict);
        }
      }
      error := Commit(o, driverId.value, mode, order.driverId, now);
    }

    /** Row by row, with the rows put back when a later write finds nothing to update. */
    method Commit(o: OrderId, d: DriverId, mode: AssignmentMode, previous: Option<DriverId>, now: nat)
      returns (error: Option<Error>)
      requires Wired()
      modifies store
      ensures Ended(store.Rows(), error) == CommitAssignment(old(store.Rows()), o, d, mode, previous, now)
    {
      var isReassign := previous.Some? && previous.value != d;
      if d !in store.drivers {
        return Some(NotFound);
      }
      if store.drivers[d].activeOrderId.Some? && store.drivers[d].activeOrderId.value != o {
        return Some(Conflict);
      }
      var before := store.drivers;
      if isReassign {
        if previous.value !in store.drivers {
          return Some(RecordMissing);
        }
        store.drivers := store.drivers[previous.value := Driver(AVAILABLE, None)];
      }
      if o !in store.orders {
        store.drivers := before;
        return Some(RecordMissing);
      }
      store.orders := store.orders[o := store.orders[o].(driverId := Some(d), mode := Some(mode), status := ASSIGNED)];
      store.drivers := store.drivers[d := Driver(BUSY, Some(o))];
      var kind := if isReassign then Reassigned else Assigned;
      events.Record(Event(o, kind, None, Some(ASSIGNED), Given(d, previous), now));
      return None;
    }

    method Unassign(o: OrderId, now: nat) returns (error: Option<Error>)
      requires Wired()
      modifies store
      ensures Ended(store.Rows(), error) == UnassignOutcome(old(store.Rows()), o, now)
    {
      if o !in store.orders || store.orders[o].driverId.None? {
        return Some(BadRequest);
      }
      var order := store.orders[o];
      if order.driverId.value !in store.drivers {
        return Some(RecordMissing);
      }
      store.drivers := store.drivers[order.driverId.value := Driver(AVAILABLE, None)];
      store.orders := store.orders[o := store.orders[o].(driverId := None, mode := None, status := ACCEPTED)];
      events.Record(Event(o, Unassigned, Some(order.status), Some(ACCEPTED), Taken(order.driverId.value), now));
      return None;
    }
  }
}
