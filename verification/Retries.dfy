/** Every order waiting for a retry has a retry job in the queue, and every job that runs moves its order on. */
module Retries {
  import opened Wrappers
  import opened Sequences
  import opened OrderStatus
  import opened Database
  import opened Orders
  import opened Scheduler
  import opened Delivery
  import opened Commits
  import opened Calls
  import opened SerialRuns

  ghost predicate RetryQueued(db: Db, o: OrderId) {
    exists runAt :: RetryDelivery(o, runAt) in db.jobs
  }

  ghost predicate NoForgottenRetry(db: Db) {
    forall o :: o in db.orders && db.orders[o].status == RETRY_SCHEDULED ==> RetryQueued(db, o)
  }

  /** The generic transition endpoint sends the order to RETRY_SCHEDULED with nothing queued to bring it back. */
  ghost predicate ForgetsRetry(db: Db, call: Call) {
    && call.Transition? && call.to == RETRY_SCHEDULED
    && TransitionError(db, call.o, RETRY_SCHEDULED).None? && !RetryQueued(db, call.o)
  }

  predicate MovesToRetry(c: Commit, o: OrderId) {
    c.Move? && c.o == o && c.to == RETRY_SCHEDULED
  }

  lemma WriteEntersRetry(db: Db, c: Commit, now: nat, o: OrderId)
    requires var after := Apply(db, c, now); o in after.orders && after.orders[o].status == RETRY_SCHEDULED
    ensures (o in db.orders && db.orders[o].status == RETRY_SCHEDULED) || MovesToRetry(c, o)
  {
    hide ApplyAside;
  }

  lemma {:induction false} WritesEnterRetry(db: Db, cs: seq<Commit>, now: nat, o: OrderId)
    requires var after := ApplyAll(db, cs, now); o in after.orders && after.orders[o].status == RETRY_SCHEDULED
    requires forall i :: 0 <= i < |cs| ==> !MovesToRetry(cs[i], o)
    ensures o in db.orders && db.orders[o].status == RETRY_SCHEDULED
    decreases |cs|
  {
    hide Apply, MovesToRetry;
    if cs != [] {
      WritesEnterRetry(Apply(db, cs[0], now), cs[1..], now, o);
      WriteEntersRetry(db, cs[0], now, o);
    }
  }

  lemma RetriesAreEnteredBy(db: Db, call: Call, now: nat, o: OrderId)
    requires exists i :: 0 <= i < |Writes(db, call, now)| && MovesToRetry(Writes(db, call, now)[i], o)
    ensures || (call.Transition? && call.o == o && call.to == RETRY_SCHEDULED
                && TransitionError(db, o, RETRY_SCHEDULED).None?)
            || (call.RecordFailure? && call.o == o && o in db.orders && Failable(db.orders[o].status)
                && (call.resolution.Retry? || call.resolution.Reschedule?))
  {
  }

  lemma FailureQueuesRetry(db: Db, call: Call, now: nat)
    requires call.RecordFailure? && call.o in db.orders && Failable(db.orders[call.o].status)
    requires call.resolution.Retry? || call.resolution.Reschedule?
    ensures RetryQueued(CallOutcome(db, call, now).db, call.o)
  {
    hide FailureOutcome;
    FailureWorkflow(db, call.o, call.resolution, call.rescheduleFor, now);
    assert RetryDelivery(call.o, RetryTime(call.rescheduleFor, now)) in CallOutcome(db, call, now).db.jobs;
  }

  /** The only call that can put an order of its own choice at RETRY_SCHEDULED, besides the transition endpoint. */
  lemma CallEntersRetry(db: Db, call: Call, now: nat, o: OrderId)
    requires var after := CallOutcome(db, call, now).db;
             o in after.orders && after.orders[o].status == RETRY_SCHEDULED
    ensures || (o in db.orders && db.orders[o].status == RETRY_SCHEDULED)
            || (call.Transition? && call.o == o && call.to == RETRY_SCHEDULED
                && TransitionError(db, o, RETRY_SCHEDULED).None?)
            || (call.RecordFailure? && call.o == o && RetryQueued(CallOutcome(db, call, now).db, o))
  {
    hide CallOutcome, Writes, ApplyAll, AllUpToDate, TransitionError, RetryQueued, MovesToRetry;
    CallIsItsWrites(db, call, now);
    if !(o in db.orders && db.orders[o].status == RETRY_SCHEDULED) {
      if forall i :: 0 <= i < |Writes(db, call, now)| ==> !MovesToRetry(Writes(db, call, now)[i], o) {
        WritesEnterRetry(db, Writes(db, call, now), now, o);
      }
      RetriesAreEnteredBy(db, call, now, o);
      if call.RecordFailure? {
        FailureQueuesRetry(db, call, now);
      }
    }
  }

  lemma WriteKeepsJob(db: Db, c: Commit, now: nat, job: Job)
    requires job in db.jobs && !c.DropJob?
    ensures job in Apply(db, c, now).jobs
  {
  }

  lemma {:induction false} WritesKeepJob(db: Db, cs: seq<Commit>, now: nat, job: Job)
    requires job in db.jobs && forall i :: 0 <= i < |cs| ==> !cs[i].DropJob?
    ensures job in ApplyAll(db, cs, now).jobs
    decreases |cs|
  {
    hide Apply;
    if cs != [] {
      WriteKeepsJob(db, cs[0], now, job);
      WritesKeepJob(Apply(db, cs[0], now), cs[1..], now, job);
    }
  }

  lemma OnlyRunsDropJobs(db: Db, call: Call, now: nat)
    requires !call.RunJob?
    ensures forall i :: 0 <= i < |Writes(db, call, now)| ==> !Writes(db, call, now)[i].DropJob?
  {
  }

  lemma RunDropsRetryJob(db: Db, job: Job, stalls: bool, now: nat, o: OrderId, runAt: nat)
    requires RetryDelivery(o, runAt) in db.jobs
    ensures var after := RunJobOutcome(db, job, stalls, now).db;
            RetryDelivery(o, runAt) in after.jobs || (o in after.orders ==> after.orders[o].status != RETRY_SCHEDULED)
  {
  }

  /** A job leaves the queue only by running, and then its order is no longer waiting. */
  lemma CallDropsRetryJob(db: Db, call: Call, now: nat, o: OrderId)
    requires RetryQueued(db, o)
    ensures var after := CallOutcome(db, call, now).db;
            RetryQueued(after, o) || (o in after.orders ==> after.orders[o].status != RETRY_SCHEDULED)
  {
    var runAt :| RetryDelivery(o, runAt) in db.jobs;
    if call.RunJob? {
      hide RunJobOutcome;
      RunDropsRetryJob(db, call.job, call.stalls, now, o, runAt);
    } else {
      hide CallOutcome, Writes, ApplyAll, AllUpToDate;
      CallIsItsWrites(db, call, now);
      OnlyRunsDropJobs(db, call, now);
      WritesKeepJob(db, Writes(db, call, now), now, RetryDelivery(o, runAt));
    }
  }

  /** A call forgets a retry exactly when it is such a transition. */
  lemma KeepsRetriesIff(db: Db, call: Call, now: nat)
    requires NoForgottenRetry(db)
    ensures NoForgottenRetry(CallOutcome(db, call, now).db) <==> !ForgetsRetry(db, call)
  {
    var after := CallOutcome(db, call, now).db;
    if ForgetsRetry(db, call) {
      assert after.orders[call.o].status == RETRY_SCHEDULED && after.jobs == db.jobs;
      assert !RetryQueued(after, call.o);
    } else {
      hide CallOutcome, ForgetsRetry;
      forall o | o in after.orders && after.orders[o].status == RETRY_SCHEDULED
        ensures RetryQueued(after, o)
      {
        CallEntersRetry(db, call, now, o);
        if RetryQueued(db, o) {
          CallDropsRetryJob(db, call, now, o);
        } else {
          NotForgetful(db, call, o);
        }
      }
    }
  }

  lemma NotForgetful(db: Db, call: Call, o: OrderId)
    requires !ForgetsRetry(db, call) && !RetryQueued(db, o)
    ensures !(call.Transition? && call.o == o && call.to == RETRY_SCHEDULED
              && TransitionError(db, o, RETRY_SCHEDULED).None?)
  {
  }

  ghost predicate NeverForgets(db: Db, steps: seq<Step>) {
    steps == [] || (NeverForgets(db, Front(steps)) && !ForgetsRetry(Run(db, Front(steps)), Last(steps).call))
  }

  ghost predicate RetriesThroughout(db: Db, steps: seq<Step>) {
    NoForgottenRetry(Run(db, steps)) && (steps == [] || RetriesThroughout(db, Front(steps)))
  }

  /** Every waiting order has its job at every moment of exactly the runs without such a transition. */
  lemma {:induction false} RetriesThroughoutIff(db: Db, steps: seq<Step>)
    requires Fresh(db)
    ensures RetriesThroughout(db, steps) <==> NeverForgets(db, steps)
  {
    hide CallOutcome, ForgetsRetry;
    if steps != [] {
      hide Fresh, NoForgottenRetry;
      RetriesThroughoutIff(db, Front(steps));
      if NeverForgets(db, Front(steps)) {
        KeepsRetriesIff(Run(db, Front(steps)), Last(steps).call, Last(steps).now);
      }
    }
  }

  predicate NeverByHand(steps: seq<Step>) {
    forall i :: 0 <= i < |steps| ==> !(steps[i].call.Transition? && steps[i].call.to == RETRY_SCHEDULED)
  }

  lemma {:induction false} NeverByHandNeverForgets(db: Db, steps: seq<Step>)
    requires NeverByHand(steps)
    ensures NeverForgets(db, steps)
  {
    hide Run, RetryQueued;
    if steps != [] {
      NeverByHandNeverForgets(db, Front(steps));
    }
  }

  /** When only the failure workflow schedules retries, none is forgotten: at every moment each waiting order has its
      job, and whichever job runs, late, twice or stale, never asks for an illegal transition. */
  lemma NoRetryIsForgotten(db: Db, steps: seq<Step>)
    requires Fresh(db) && NeverByHand(steps)
    ensures NoForgottenRetry(Run(db, steps))
    ensures forall job, stalls, now :: RunJobOutcome(Run(db, steps), job, stalls, now).Done?
  {
    hide Run, Fresh, NoForgottenRetry, NeverByHand;
    NeverByHandNeverForgets(db, steps);
    RetriesThroughoutIff(db, steps);
  }

  /** Running a waiting order's job, however late, sends it out again with its driver or back to assignment without
      one. */
  lemma RetryJobMovesOn(db: Db, o: OrderId, runAt: nat, stalls: bool, now: nat)
    requires o in db.orders && db.orders[o].status == RETRY_SCHEDULED && RetryDelivery(o, runAt) in db.jobs
    ensures var r := RunJobOutcome(db, RetryDelivery(o, runAt), stalls, now);
            && r.Done?
            && r.db.orders[o].status == (if db.orders[o].driverId.Some? then OUT_FOR_DELIVERY else ASSIGNED)
            && r.db.orders[o].driverId == db.orders[o].driverId
            && RunJobOutcome(r.db, RetryDelivery(o, runAt), stalls, now).db.orders == r.db.orders
  {
    hide TransitionOutcome, OrderStatus.Next;
    RetryEdges();
    var job := RetryDelivery(o, runAt);
    TransitionSucceeds(db, o, JobTarget(db.orders[o], job).value, now);
    var r := RunJobOutcome(db, job, stalls, now);
    assert JobTarget(r.db.orders[o], job).None?;
  }

  lemma RetryEdges()
    ensures CanTransition(RETRY_SCHEDULED, OUT_FOR_DELIVERY) && CanTransition(RETRY_SCHEDULED, ASSIGNED)
  {
  }

  // --- Two ways to forget one ------------------------------------------------

  /** A run that schedules a retry by hand: the order waits and nothing will bring it back. */
  lemma RetryForgottenByHand(db: Db, o: OrderId, draft: Draft) returns (steps: seq<Step>)
    requires Fresh(db) && Checkout(db, draft).Ok? && InitialStatus(draft) == PLACED
    ensures !NoForgottenRetry(Run(db, steps))
  {
    hide Run, Checkout;
    var w := [PLACED, ACCEPTED, ASSIGNED, EN_ROUTE_TO_PICKUP, FAILED, RETRY_SCHEDULED];
    EdgesMakeWalk(w);
    steps := EveryWalkHappens(db, o, draft, w);
    assert !RetryQueued(Run(db, steps), o);
  }

  /** A move forgets a retry just when it sends an order there that has no job. */
  lemma MoveForgetsRetry(db: Db, c: Commit, now: nat)
    requires NoForgottenRetry(db) && c.Move? && c.o in db.orders
    ensures NoForgottenRetry(Apply(db, c, now)) <==> !(c.to == RETRY_SCHEDULED && !RetryQueued(db, c.o))
  {
    hide RetryQueued;
    var after := Apply(db, c, now);
    assert forall o :: RetryQueued(after, o) <==> RetryQueued(db, o) by { SameJobsSameQueue(db, after); }
    assert after.orders[c.o].status == c.to;
  }

  lemma SameJobsSameQueue(a: Db, b: Db)
    requires a.jobs == b.jobs
    ensures forall o :: RetryQueued(b, o) <==> RetryQueued(a, o)
  {
    forall o
      ensures RetryQueued(b, o) <==> RetryQueued(a, o)
    {
      if RetryQueued(a, o) {
        var runAt :| RetryDelivery(o, runAt) in a.jobs;
        assert RetryDelivery(o, runAt) in b.jobs;
      }
      if RetryQueued(b, o) {
        var runAt :| RetryDelivery(o, runAt) in b.jobs;
        assert RetryDelivery(o, runAt) in a.jobs;
      }
    }
  }

  /** Recording a failure, up to the move to FAILED, forgets no retry at any point. */
  lemma FailedWritesForgetNothing(db: Db, o: OrderId, k: nat, now: nat)
    requires NoForgottenRetry(db) && o in db.orders && Failable(db.orders[o].status) && k <= 3
    ensures NoForgottenRetry(ApplyAll(db, FailedWrites(db, o, now)[..k], now))
  {
    hide ApplyAll, AllUpToDate, AllLegal, RetryQueued, NumbersOf;
    var ws := FailedWrites(db, o, now);
    var db1 := Apply(db, ws[0], now);
    var db2 := Apply(db1, ws[1], now);
    SameJobsSameQueue(db, db1);
    SameJobsSameQueue(db, db2);
    if k == 0 {
      ApplyNil(db, now);
    } else if k == 1 {
      ApplyOne(db, ws[0], now);
      assert ws[..1] == [ws[0]];
    } else if k == 2 {
      ApplyTwo(db, ws[0], ws[1], now);
      assert ws[..2] == [ws[0], ws[1]];
    } else {
      ApplyThree(db, ws[0], ws[1], ws[2], now);
      assert ws[..3] == [ws[0], ws[1], ws[2]];
      MoveForgetsRetry(db2, ws[2], now);
    }
  }

  /** A server that stops inside the failure workflow, after any number of its writes, forgets a retry exactly when it
      stops between the last transition and the queueing, and no earlier job is there for the order. */
  lemma CrashForgetsRetry(db: Db, o: OrderId, resolution: Resolution, rescheduleFor: Option<nat>, k: nat, now: nat)
    requires NoForgottenRetry(db) && o in db.orders && Failable(db.orders[o].status)
    requires k <= |FailureWrites(db, o, resolution, rescheduleFor, now)|
    ensures var ws := FailureWrites(db, o, resolution, rescheduleFor, now);
            NoForgottenRetry(ApplyAll(db, ws[..k], now))
            <==> !(k == 4 && (resolution.Retry? || resolution.Reschedule?) && !RetryQueued(db, o))
  {
    hide ApplyAll, AllUpToDate, AllLegal, FailedWrites, NoForgottenRetry, RetryQueued, NumbersOf, TransitionOutcome;
    var ws := FailureWrites(db, o, resolution, rescheduleFor, now);
    var first, second := FailedWrites(db, o, now), ResolutionWrites(o, resolution, rescheduleFor, now);
    assert |first| == 3 by { ThreeFailedWrites(db, o, now); }
    if k <= 3 {
      assert ws[..k] == first[..k];
      FailedWritesForgetNothing(db, o, k, now);
    } else {
      assert ws[..k] == first + second[..k - 3] && first[..3] == first;
      FailedWritesForgetNothing(db, o, 3, now);
      ApplyConcat(db, first, second[..k - 3], now);
      FailureEdges(db.orders[o].status);
      TransitionSucceeds(AttemptRecorded(db, o, now), o, FAILED, now);
      FailedIsItsWrites(db, o, now);
      ResolutionForgets(ApplyAll(db, first, now), o, resolution, rescheduleFor, k - 3, now);
      SameJobsSameQueue(db, ApplyAll(db, first, now));
    }
  }

  lemma ThreeFailedWrites(db: Db, o: OrderId, now: nat)
    requires o in db.orders
    ensures |FailedWrites(db, o, now)| == 3
  {
  }

  lemma ResolutionForgets(db: Db, o: OrderId, resolution: Resolution, rescheduleFor: Option<nat>, k: nat, now: nat)
    requires NoForgottenRetry(db) && o in db.orders
    requires 0 < k <= |ResolutionWrites(o, resolution, rescheduleFor, now)|
    ensures NoForgottenRetry(ApplyAll(db, ResolutionWrites(o, resolution, rescheduleFor, now)[..k], now))
            <==> !(k == 1 && (resolution.Retry? || resolution.Reschedule?) && !RetryQueued(db, o))
  {
    hide ApplyAll, AllUpToDate, AllLegal, RetryQueued;
    var ws := ResolutionWrites(o, resolution, rescheduleFor, now);
    if k == 1 {
      assert ws[..1] == [ws[0]];
      ApplyOne(db, ws[0], now);
      MoveForgetsRetry(db, ws[0], now);
    } else {
      assert ws[..2] == [ws[0], ws[1]];
      ApplyTwo(db, ws[0], ws[1], now);
      MoveThenJob(db, o, ws[1].job.runAt, now);
    }
  }

  lemma MoveThenJob(db: Db, o: OrderId, runAt: nat, now: nat)
    requires NoForgottenRetry(db) && o in db.orders
    ensures var moved := Apply(db, Move(o, FAILED, RETRY_SCHEDULED), now);
            NoForgottenRetry(Apply(moved, AddJob(RetryDelivery(o, runAt)), now))
  {
    var after := Apply(Apply(db, Move(o, FAILED, RETRY_SCHEDULED), now), AddJob(RetryDelivery(o, runAt)), now);
    assert RetryDelivery(o, runAt) in after.jobs;
    forall p | RetryQueued(db, p)
      ensures RetryQueued(after, p)
    {
      var at :| RetryDelivery(p, at) in db.jobs;
      assert RetryDelivery(p, at) in after.jobs;
    }
  }
}
