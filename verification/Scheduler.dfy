/** Delayed jobs: a set keyed by job id, and the worker that handles a due job. */
module Scheduler {
  import opened Wrappers
  import opened OrderStatus
  import opened Database
  import opened Orders

  /** `queue.add`: adding a job whose id is already queued changes nothing. */
  function Enqueued(db: Db, job: Job): Db {
    db.(jobs := db.jobs + {job})
  }

  /** Where a due job sends its order, if anywhere. */
  function JobTarget(order: Order, job: Job): Option<Status> {
    if job.PlaceScheduled? && order.status == SCHEDULED then Some(PLACED)
    else if job.RetryDelivery? && order.status == RETRY_SCHEDULED then
      Some(if order.driverId.Some? then OUT_FOR_DELIVERY else ASSIGNED)
    else None
  }

  function ProcessOutcome(db: Db, job: Job, now: nat): Outcome {
    if job.orderId !in db.orders then Done(db)
    else
      match JobTarget(db.orders[job.orderId], job)
      case None => Done(db)
      case Some(to) => TransitionOutcome(db, job.orderId, to, now)
  }

  /** The queue delivers a queued job; it is removed on completion unless the worker stalled first. */
  function RunJobOutcome(db: Db, job: Job, stalls: bool, now: nat): Outcome {
    if job !in db.jobs then Done(db)
    else
      var r := ProcessOutcome(db, job, now);
      if r.Done? && !stalls then Done(r.db.(jobs := r.db.jobs - {job})) else r
  }

  /** Which orders a due job moves, and where; it never throws, and all it leaves is the status and its event. */
  lemma ProcessesExactly(db: Db, job: Job, now: nat)
    ensures var r := ProcessOutcome(db, job, now);
            var places := job.PlaceScheduled? && job.orderId in db.orders && db.orders[job.orderId].status == SCHEDULED;
            var retries := job.RetryDelivery? && job.orderId in db.orders
                           && db.orders[job.orderId].status == RETRY_SCHEDULED;
            && r.Done?
            && (!places && !retries ==> r.db == db)
            && (places ==> r.db.orders == db.orders[job.orderId := db.orders[job.orderId].(status := PLACED)])
            && (retries && db.orders[job.orderId].driverId.Some? ==>
                  r.db.orders == db.orders[job.orderId := db.orders[job.orderId].(status := OUT_FOR_DELIVERY)])
            && (retries && db.orders[job.orderId].driverId.None? ==>
                  r.db.orders == db.orders[job.orderId := db.orders[job.orderId].(status := ASSIGNED)])
            && r.db == db.(orders := r.db.orders, log := r.db.log)
            && (places || retries ==> |r.db.log| == |db.log| + 1)
  {
    hide TransitionOutcome;
    if job.orderId in db.orders && JobTarget(db.orders[job.orderId], job).Some? {
      EnteredFrom(db.orders[job.orderId].status, JobTarget(db.orders[job.orderId], job).value);
      TransitionSucceeds(db, job.orderId, JobTarget(db.orders[job.orderId], job).value, now);
    }
  }

  /** A queued job that completes leaves the queue; one that is not queued does nothing. */
  lemma RunsExactly(db: Db, job: Job, stalls: bool, now: nat)
    ensures var r := RunJobOutcome(db, job, stalls, now);
            && r.Done?
            && (job !in db.jobs ==> r.db == db)
            && (job in db.jobs ==>
                  r.db == ProcessOutcome(db, job, now).db.(jobs := if stalls then db.jobs else db.jobs - {job}))
  {
    hide ProcessOutcome;
    ProcessesExactly(db, job, now);
  }

  class SchedulerService {
    const store: Store
    const orders: OrdersService

    constructor (store: Store, orders: OrdersService)
      ensures this.store == store && this.orders == orders
    {
      this.store, this.orders := store, orders;
    }

    predicate Wired() {
      orders.store == store && orders.Wired()
    }

    method SchedulePlacement(o: OrderId)
      modifies store
      ensures store.Rows() == old(store.Rows()).(jobs := old(store.jobs) + {PlaceScheduled(o)})
    {
      store.jobs := store.jobs + {PlaceScheduled(o)};
    }

    method ScheduleRetry(o: OrderId, runAt: nat)
      modifies store
      ensures store.Rows() == old(store.Rows()).(jobs := old(store.jobs) + {RetryDelivery(o, runAt)})
    {
      store.jobs := store.jobs + {RetryDelivery(o, runAt)};
    }

    method Process(job: Job, now: nat) returns (error: Option<Error>)
      requires Wired()
      modifies store
      ensures Ended(store.Rows(), error) == ProcessOutcome(old(store.Rows()), job, now)
    {
      error := None;
      if job.orderId !in store.orders {
        return None;
      }
      var order := store.orders[job.orderId];
      if job.PlaceScheduled? && order.status == SCHEDULED {
        error := orders.Transition(job.orderId, PLACED, now);
        if error.Some? {
          return;
        }
      }
      if job.RetryDelivery? && order.status == RETRY_SCHEDULED {
        var to := if order.driverId.Some? then OUT_FOR_DELIVERY else ASSIGNED;
        error := orders.Transition(job.orderId, to, now);
      }
    }
  }
}
