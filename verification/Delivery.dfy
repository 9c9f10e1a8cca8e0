/** Failed deliveries with their retries and returns, and proof of delivery. */
module Delivery {
  import opened Wrappers
  import opened OrderStatus
  import opened Database
  import opened OrderEvents
  import opened Orders
  import opened Scheduler

  /** What the driver asks to happen next; the last constructor is any value the switch does not know. */
  datatype Resolution = Retry | Reschedule | Return | Unknown

  /** Pictures are given by the links that storage makes of their keys. */
  datatype Evidence = Photo(url: string) | Signature(url: string) | Otp(code: string)

  datatype Proof = Proof(evidence: Evidence, lng: real, lat: real, capturedAt: nat)

  const HOUR_MS := 60 * 60 * 1000

  predicate Failable(s: Status) {
    s == OUT_FOR_DELIVERY || s == EN_ROUTE_TO_PICKUP
  }

  /** The attempt row and its event, written before the status moves. */
  function AttemptRecorded(db: Db, o: OrderId, now: nat): Db {
    var number := |NumbersOf(db.attempts, o)| + 1;
    WithEvent(db.(attempts := db.attempts + [Attempt(o, number)]),
              Event(o, DeliveryFailed, None, None, Attempted(number), now))
  }

  function RetryTime(rescheduleFor: Option<nat>, now: nat): nat {
    if rescheduleFor.Some? then rescheduleFor.value else now + HOUR_MS
  }

  /** What happens once the order is FAILED. */
  function Resolved(db: Db, o: OrderId, resolution: Resolution, rescheduleFor: Option<nat>, now: nat): Outcome {
    match resolution
    case Unknown => Threw(db, BadRequest)
    case Return => TransitionOutcome(db, o, RETURNED, now)
    case _ =>
      var r := TransitionOutcome(db, o, RETRY_SCHEDULED, now);
      if r.Threw? then r else Done(Enqueued(r.db, RetryDelivery(o, RetryTime(rescheduleFor, now))))
  }

  function FailureOutcome(db: Db, o: OrderId, resolution: Resolution, rescheduleFor: Option<nat>, now: nat): Outcome {
    if o !in db.orders then Threw(db, NotFound)
    else if !Failable(db.orders[o].status) then Threw(db, BadRequest)
    else
      var r := TransitionOutcome(AttemptRecorded(db, o, now), o, FAILED, now);
      if r.Threw? then r else Resolved(r.db, o, resolution, rescheduleFor, now)
  }

  /** Past its first guard the workflow never stops half way, and this is the whole of what it does. */
  lemma FailureWorkflow(db: Db, o: OrderId, resolution: Resolution, rescheduleFor: Option<nat>, now: nat)
    requires o in db.orders && Failable(db.orders[o].status) && resolution != Unknown
    ensures var from := db.orders[o].status;
            var to := if resolution == Return then RETURNED else RETRY_SCHEDULED;
            var kind := if to == RETURNED then EventType.Returned else StatusChanged;
            var number := |NumbersOf(db.attempts, o)| + 1;
            FailureOutcome(db, o, resolution, rescheduleFor, now) == Done(db.(
              orders := db.orders[o := db.orders[o].(status := to)],
              attempts := db.attempts + [Attempt(o, number)],
              log := db.log + [Event(o, DeliveryFailed, None, None, Attempted(number), now),
                               Event(o, StatusChanged, Some(from), Some(FAILED), Plain, now),
                               Event(o, kind, Some(FAILED), Some(to), Plain, now)],
              jobs := db.jobs + if to == RETURNED then {} else {RetryDelivery(o, RetryTime(rescheduleFor, now))}))
  {
    hide TransitionOutcome, OrderStatus.Next, NumbersOf;
    FailureEdges(db.orders[o].status);
    var recorded := AttemptRecorded(db, o, now);
    TransitionSucceeds(recorded, o, FAILED, now);
    var failed := TransitionOutcome(recorded, o, FAILED, now).db;
    var to := if resolution == Return then RETURNED else RETRY_SCHEDULED;
    TransitionSucceeds(failed, o, to, now);
    var moved := TransitionOutcome(failed, o, to, now).db;
    assert FailureOutcome(db, o, resolution, rescheduleFor, now) == Resolved(failed, o, resolution, rescheduleFor, now);
    assert moved.orders == db.orders[o := db.orders[o].(status := to)];
  }

  /** Which failures are accepted, at what time a retry is due, and what stays when the resolution is not known. */
  lemma FailsExactly(db: Db, o: OrderId, resolution: Resolution, rescheduleFor: Option<nat>, now: nat)
    ensures var r := FailureOutcome(db, o, resolution, rescheduleFor, now);
            if o !in db.orders then r == Threw(db, NotFound)
            else if db.orders[o].status != OUT_FOR_DELIVERY && db.orders[o].status != EN_ROUTE_TO_PICKUP
            then r == Threw(db, BadRequest)
            else
              && (r.Threw? <==> resolution == Unknown) && (r.Threw? ==> r.error == BadRequest)
              && (var to := if resolution == Unknown then FAILED
                            else if resolution == Return then RETURNED else RETRY_SCHEDULED;
                 r.db.orders == db.orders[o := db.orders[o].(status := to)])
              && r.db.attempts == db.attempts + [Attempt(o, |NumbersOf(db.attempts, o)| + 1)]
              && r.db.jobs == db.jobs + (if resolution != Retry && resolution != Reschedule then {}
                                         else match rescheduleFor
                                              case Some(t) => {RetryDelivery(o, t)}
                                              case None => {RetryDelivery(o, now + 3600000)})
              && |r.db.log| == |db.log| + (if resolution == Unknown then 2 else 3)
              && r.db == db.(orders := r.db.orders, attempts := r.db.attempts, jobs := r.db.jobs, log := r.db.log)
  {
    if o in db.orders && Failable(db.orders[o].status) {
      hide FailureOutcome, NumbersOf;
      if resolution == Unknown {
        UnknownResolution(db, o, rescheduleFor, now);
      } else {
        FailureWorkflow(db, o, resolution, rescheduleFor, now);
      }
    }
  }

  /** An unknown resolution is refused only after the failure was recorded: the order stays FAILED. */
  lemma UnknownResolution(db: Db, o: OrderId, rescheduleFor: Option<nat>, now: nat)
    requires o in db.orders && Failable(db.orders[o].status)
    ensures var number := |NumbersOf(db.attempts, o)| + 1;
            var failed := db.(
              orders := db.orders[o := db.orders[o].(status := FAILED)],
              attempts := db.attempts + [Attempt(o, number)],
              log := db.log + [Event(o, DeliveryFailed, None, None, Attempted(number), now),
                               Event(o, StatusChanged, Some(db.orders[o].status), Some(FAILED), Plain, now)]);
            FailureOutcome(db, o, Unknown, rescheduleFor, now) == Threw(failed, BadRequest)
  {
    hide TransitionOutcome, OrderStatus.Next, NumbersOf;
    FailureEdges(db.orders[o].status);
    TransitionSucceeds(AttemptRecorded(db, o, now), o, FAILED, now);
  }

  lemma FailureEdges(from: Status)
    requires Failable(from)
    ensures CanTransition(from, FAILED) && CanTransition(FAILED, RETURNED) && CanTransition(FAILED, RETRY_SCHEDULED)
  {
  }

  /** A code must match the one that was issued and has not expired. */
  predicate ProofAccepted(db: Db, o: OrderId, proof: Proof) {
    proof.evidence.Otp? ==> o in db.otps && db.otps[o] != "" && db.otps[o] == proof.evidence.code
  }

  /** The stored row; one that replaces another keeps the time of the first. */
  function ProofFor(db: Db, o: OrderId, proof: Proof): ProofRow {
    var capturedAt := if o in db.proofs then db.proofs[o].capturedAt else proof.capturedAt;
    match proof.evidence
    case Photo(url) => ProofRow(PHOTO, Some(url), None, None, proof.lng, proof.lat, capturedAt)
    case Signature(url) => ProofRow(SIGNATURE, None, Some(url), None, proof.lng, proof.lat, capturedAt)
    case Otp(_) => ProofRow(OTP_CODE, None, None, Some(true), proof.lng, proof.lat, capturedAt)
  }

  /** The code is used up and the proof stored before the order moves. */
  function Proven(db: Db, o: OrderId, proof: Proof): Db {
    db.(otps := if proof.evidence.Otp? then db.otps - {o} else db.otps,
        proofs := db.proofs[o := ProofFor(db, o, proof)])
  }

  function OtpIssued(db: Db, o: OrderId, code: string): Db {
    db.(otps := db.otps[o := code])
  }

  function ProofOutcome(db: Db, o: OrderId, proof: Proof, now: nat): Outcome {
    if o !in db.orders then Threw(db, NotFound)
    else if db.orders[o].status != OUT_FOR_DELIVERY then Threw(db, BadRequest)
    else if !ProofAccepted(db, o, proof) then Threw(db, BadRequest)
    else TransitionOutcome(Proven(db, o, proof), o, DELIVERED, now)
  }

  /** Which proofs deliver, what each refusal is, and the row an accepted proof leaves, field by field. */
  lemma ProvesExactly(db: Db, o: OrderId, proof: Proof, now: nat)
    ensures var r := ProofOutcome(db, o, proof, now);
            var matches := match proof.evidence
                           case Otp(c) => o in db.otps && db.otps[o] == c && c != ""
                           case _ => true;
            && (r.Done? <==> o in db.orders && db.orders[o].status == OUT_FOR_DELIVERY && matches)
            && (r.Threw? ==> r == Threw(db, if o !in db.orders then NotFound else BadRequest))
            && (r.Done? ==>
                  && r.db.orders == db.orders[o := db.orders[o].(status := DELIVERED)]
                  && r.db.log == db.log + [Event(o, Delivered, Some(OUT_FOR_DELIVERY), Some(DELIVERED), Plain, now)]
                  && r.db.otps == (if proof.evidence.Otp? then db.otps - {o} else db.otps)
                  && o in r.db.proofs && r.db.proofs == db.proofs[o := r.db.proofs[o]]
                  && (var row := r.db.proofs[o];
                     && row.type' == (match proof.evidence
                                      case Photo(_) => PHOTO
                                      case Signature(_) => SIGNATURE
                                      case Otp(_) => OTP_CODE)
                     && row.photoUrl == (if proof.evidence.Photo? then Some(proof.evidence.url) else None)
                     && row.signatureUrl == (if proof.evidence.Signature? then Some(proof.evidence.url) else None)
                     && row.otpVerified == (if proof.evidence.Otp? then Some(true) else None)
                     && row.lng == proof.lng && row.lat == proof.lat
                     && row.capturedAt == (if o in db.proofs then db.proofs[o].capturedAt else proof.capturedAt))
                  && r.db == db.(orders := r.db.orders, log := r.db.log, otps := r.db.otps, proofs := r.db.proofs))
  {
    hide TransitionOutcome;
    if o in db.orders && db.orders[o].status == OUT_FOR_DELIVERY && ProofAccepted(db, o, proof) {
      assert CanTransition(OUT_FOR_DELIVERY, DELIVERED);
      TransitionSucceeds(Proven(db, o, proof), o, DELIVERED, now);
    }
  }

  lemma TransitionKeepsProofs(db: Db, o: OrderId, to: Status, now: nat)
    ensures TransitionOutcome(db, o, to, now).db.proofs == db.proofs
  {
  }

  class DeliveryService {
    const store: Store
    const orders: OrdersService
    const events: OrderEventsService
    const scheduler: SchedulerService

    constructor (store: Store, orders: OrdersService, events: OrderEventsService, scheduler: SchedulerService)
      ensures this.store == store && this.orders == orders && this.events == events && this.scheduler == scheduler
    {
      this.store, this.orders, this.events, this.scheduler := store, orders, events, scheduler;
    }

    predicate Wired() {
      orders.store == store && orders.Wired() && events.store == store && scheduler.store == store
    }

    method RecordFailure(o: OrderId, resolution: Resolution, rescheduleFor: Option<nat>, now: nat)
      returns (error: Option<Error>)
      requires Wired()
      modifies store
      ensures Ended(store.Rows(), error) == FailureOutcome(old(store.Rows()), o, resolution, rescheduleFor, now)
    {
      hide TransitionOutcome, NumbersOf, CanTransition;
      if o !in store.orders {
        return Some(NotFound);
      }
      var status := store.orders[o].status;
      if status != OUT_FOR_DELIVERY && status != EN_ROUTE_TO_PICKUP {
        return Some(BadRequest);
      }
      var priorAttempts := |NumbersOf(store.attempts, o)|;
      store.attempts := store.attempts + [Attempt(o, priorAttempts + 1)];
      events.Record(Event(o, DeliveryFailed, None, None, Attempted(priorAttempts + 1), now));
      error := orders.Transition(o, FAILED, now);
      if error.Some? {
        return;
      }
      ghost var failed := store.Rows();
      assert FailureOutcome(old(store.Rows()), o, resolution, rescheduleFor, now)
             == Resolved(failed, o, resolution, rescheduleFor, now);
      hide FailureOutcome;
      match resolution {
        case Unknown =>
          return Some(BadRequest);
        case Return =>
          error := orders.Transition(o, RETURNED, now);
        case _ =>
          var runAt := if rescheduleFor.Some? then rescheduleFor.value else now + HOUR_MS;
          error := orders.Transition(o, RETRY_SCHEDULED, now);
          if error.None? {
            scheduler.ScheduleRetry(o, runAt);
          }
      }
    }

    /** Any code may be issued for any order, existing or not. */
    method IssueOtp(o: OrderId, code: string)
      modifies store
      ensures store.Rows() == old(store.Rows()).(otps := old(store.otps)[o := code])
    {
      store.otps := store.otps[o := code];
    }

    method SubmitProof(o: OrderId, proof: Proof, now: nat) returns (error: Option<Error>, row: Option<ProofRow>)
      requires Wired()
      modifies store
      ensures Ended(store.Rows(), error) == ProofOutcome(old(store.Rows()), o, proof, now)
      ensures row == if error.None? && o in store.proofs then Some(store.proofs[o]) else None
    {
      hide TransitionOutcome, CanTransition;
      row := None;
      if o !in store.orders {
        return Some(NotFound), None;
      }
      if store.orders[o].status != OUT_FOR_DELIVERY {
        return Some(BadRequest), None;
      }
      var type', photoUrl, signatureUrl, otpVerified := PHOTO, None, None, None;
      match proof.evidence {
        case Otp(code) =>
          var verified := o in store.otps && store.otps[o] != "" && store.otps[o] == code;
          if !verified {
            return Some(BadRequest), None;
          }
          store.otps := store.otps - {o};
          type', otpVerified := OTP_CODE, Some(verified);
        case Photo(url) =>
          photoUrl := Some(url);
        case Signature(url) =>
          type', signatureUrl := SIGNATURE, Some(url);
      }
      var stored: ProofRow;
      if o in store.proofs {
        var old' := store.proofs[o];
        stored := old'.(type' := type', photoUrl := photoUrl, signatureUrl := signatureUrl, otpVerified := otpVerified,
                        lng := proof.lng, lat := proof.lat);
      } else {
        stored := ProofRow(type', photoUrl, signatureUrl, otpVerified, proof.lng, proof.lat, proof.capturedAt);
      }
      store.proofs := store.proofs[o := stored];
      TransitionKeepsProofs(store.Rows(), o, DELIVERED, now);
      error := orders.Transition(o, DELIVERED, now);
      row := if error.None? then Some(stored) else None;
    }
  }
}
