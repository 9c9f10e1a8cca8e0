/** Service calls, and their decomposition into atomic writes that rest on current rows. */
module Calls {
  import opened Wrappers
  import opened OrderStatus
  import opened Database
  import opened Orders
  import opened Assignment
  import opened Scheduler
  import opened Delivery
  import opened Payments
  import opened Commits
  import Pricing

  datatype Call =
    | CreateOrder(o: OrderId, draft: Draft)
    | Transition(o: OrderId, to: Status)
    | Place(o: OrderId)
    | Assign(o: OrderId, wanted: Option<DriverId>, mode: AssignmentMode, nearest: Option<DriverId>)
    | Unassign(o: OrderId)
    | RecordFailure(o: OrderId, resolution: Resolution, rescheduleFor: Option<nat>)
    | IssueOtp(o: OrderId, code: string)
    | OtpExpires(o: OrderId)
    | SubmitProof(o: OrderId, proof: Proof)
    | SchedulePlacement(o: OrderId)
    | RunJob(job: Job, stalls: bool)
    | ChangeDriverStatus(d: DriverId, driverStatus: DriverStatus)
    | EditProduct(p: ProductId, product: Product)
    | EditRule(z: ZoneId, rule: Pricing.Rule)
    | CreatePaymentIntent(o: OrderId, userId: ClientId, intent: Option<Intent>)
    | ConfirmCash(o: OrderId, collectedMinor: int)
    | HandleWebhook(w: Webhook)

  /** One service call, run alone from start to end. */
  function CallOutcome(db: Db, call: Call, now: nat): Outcome {
    match call
    case CreateOrder(o, draft) => CreateOutcome(db, o, draft, now)
    case Transition(o, to) => TransitionOutcome(db, o, to, now)
    case Place(o) => PlaceOutcome(db, o, now)
    case Assign(o, wanted, mode, nearest) => AssignOutcome(db, o, wanted, mode, nearest, now)
    case Unassign(o) => UnassignOutcome(db, o, now)
    case RecordFailure(o, resolution, rescheduleFor) => FailureOutcome(db, o, resolution, rescheduleFor, now)
    case IssueOtp(o, code) => Done(OtpIssued(db, o, code))
    case OtpExpires(o) => Done(db.(otps := db.otps - {o}))
    case SubmitProof(o, proof) => ProofOutcome(db, o, proof, now)
    case SchedulePlacement(o) => Done(Enqueued(db, PlaceScheduled(o)))
    case RunJob(job, stalls) => RunJobOutcome(db, job, stalls, now)
    case ChangeDriverStatus(d, s) =>
      if d !in db.drivers then Threw(db, NotFound)
      else Done(db.(drivers := db.drivers[d := db.drivers[d].(status := s)]))
    case EditProduct(p, product) => Done(db.(products := db.products[p := product]))
    case EditRule(z, rule) => Done(db.(rules := db.rules[z := rule]))
    case CreatePaymentIntent(o, userId, intent) => IntentOutcome(db, o, userId, intent, now)
    case ConfirmCash(o, collected) => CashOutcome(db, o, collected, now)
    case HandleWebhook(w) => WebhookOutcome(db, w, now)
  }

  /** The event a payment step appends; it names no status. */
  function PaymentNote(o: OrderId, kind: EventType, now: nat): Commit {
    Note(Event(o, kind, None, None, Plain, now))
  }

  /** What the failure workflow writes before it looks at the resolution. */
  function FailedWrites(db: Db, o: OrderId, now: nat): seq<Commit>
    requires o in db.orders
  {
    var number := |NumbersOf(db.attempts, o)| + 1;
    [AddAttempt(Attempt(o, number)),
     Note(Event(o, DeliveryFailed, None, None, Attempted(number), now)),
     Move(o, db.orders[o].status, FAILED)]
  }

  function ResolutionWrites(o: OrderId, resolution: Resolution, rescheduleFor: Option<nat>, now: nat): seq<Commit> {
    match resolution
    case Unknown => []
    case Return => [Move(o, FAILED, RETURNED)]
    case _ => [Move(o, FAILED, RETRY_SCHEDULED), AddJob(RetryDelivery(o, RetryTime(rescheduleFor, now)))]
  }

  function FailureWrites(db: Db, o: OrderId, resolution: Resolution, rescheduleFor: Option<nat>, now: nat): seq<Commit>
    requires o in db.orders
  {
    FailedWrites(db, o, now) + ResolutionWrites(o, resolution, rescheduleFor, now)
  }

  function ProvenWrites(db: Db, o: OrderId, proof: Proof): seq<Commit> {
    (if proof.evidence.Otp? then [DropOtp(o)] else []) + [SetProof(o, ProofFor(db, o, proof))]
  }

  function HandlerWrites(db: Db, w: Webhook, now: nat): seq<Commit> {
    if w.kind == OtherKind || w.orderId.None? then []
    else
      var o := w.orderId.value;
      (if o in db.payments then [SetPayment(o, Settled(db.payments[o], w.kind))] else [])
      + (if o in db.orders then [PaymentNote(o, EventTypeOf(w.kind), now)] else [])
  }

  /** The atomic writes the call makes when it runs alone. */
  function Writes(db: Db, call: Call, now: nat): seq<Commit> {
    match call
    case CreateOrder(o, draft) =>
      var bill := Checkout(db, draft);
      if bill.Ok? && o !in db.orders then [Insert(o, draft, bill.value)] else []
    case Transition(o, to) => if TransitionError(db, o, to).None? then [Move(o, db.orders[o].status, to)] else []
    case Place(o) => if o in db.orders && db.orders[o].status == DRAFT then [Move(o, DRAFT, PLACED)] else []
    case Assign(o, wanted, mode, nearest) =>
      var chosen := ChosenDriver(wanted, mode, nearest);
      if AssignError(db, o, chosen).None? then [Give(o, chosen.value, mode, db.orders[o].driverId)] else []
    case Unassign(o) =>
      if UnassignError(db, o).None? then [Take(o, db.orders[o].driverId.value, db.orders[o].status)] else []
    case RecordFailure(o, resolution, rescheduleFor) =>
      if o in db.orders && Failable(db.orders[o].status)
      then FailureWrites(db, o, resolution, rescheduleFor, now) else []
    case SubmitProof(o, proof) =>
      if o in db.orders && db.orders[o].status == OUT_FOR_DELIVERY && ProofAccepted(db, o, proof) 
      then ProvenWrites(db, o, proof) + [Move(o, OUT_FOR_DELIVERY, DELIVERED)] else []
    case IssueOtp(o, code) => [SetOtp(o, code)]
    case OtpExpires(o) => [DropOtp(o)]
    case SchedulePlacement(o) => [AddJob(PlaceScheduled(o))]
    case RunJob(job, stalls) =>
      if job !in db.jobs then []
      else
        (if job.orderId in db.orders && JobTarget(db.orders[job.orderId], job).Some?
         then [Move(job.orderId, db.orders[job.orderId].status, JobTarget(db.orders[job.orderId], job).value)] else [])
        + if stalls then [] else [DropJob(job)]
    case ChangeDriverStatus(d, s) => [Commit.SetDriverStatus(d, s)]
    case EditProduct(p, product) => [SetProduct(p, product)]
    case EditRule(z, rule) => [SetRule(z, rule)]
    case CreatePaymentIntent(o, userId, intent) =>
      if o in db.orders && db.orders[o].clientId == userId && db.orders[o].bill.paymentMethod == CARD
         && !HasIntent(db, o) && intent.Some?
      then [SetPayment(o, IntentOutcome(db, o, userId, intent, now).db.payments[o]),
            PaymentNote(o, PaymentInitiated, now)] else []
    case ConfirmCash(o, collected) =>
      if o in db.orders && db.orders[o].bill.paymentMethod == CASH_ON_DELIVERY
      then [SetPayment(o, CashOutcome(db, o, collected, now).db.payments[o]), PaymentNote(o, PaymentSucceeded, now)]
      else []
    case HandleWebhook(w) => if w.id in db.processed then [] else HandlerWrites(db, w, now) + [MarkProcessed(w.id)]
  }

  lemma ApplyNil(db: Db, now: nat)
    ensures ApplyAll(db, [], now) == db && AllUpToDate(db, [], now) && AllLegal(db, [], now)
  {
  }

  lemma ApplyCons(db: Db, c: Commit, cs: seq<Commit>, now: nat)
    ensures ApplyAll(db, [c] + cs, now) == ApplyAll(Apply(db, c, now), cs, now)
    ensures AllUpToDate(db, [c] + cs, now)
            <==> WellFormed(db, c) && UpToDate(db, c) && AllUpToDate(Apply(db, c, now), cs, now)
    ensures AllLegal(db, [c] + cs, now) <==> LegalNow(db, c, now) && AllLegal(Apply(db, c, now), cs, now)
  {
    assert ([c] + cs)[1..] == cs;
  }

  lemma ApplyOne(db: Db, c: Commit, now: nat)
    ensures ApplyAll(db, [c], now) == Apply(db, c, now)
    ensures AllUpToDate(db, [c], now) <==> WellFormed(db, c) && UpToDate(db, c)
    ensures AllLegal(db, [c], now) <==> LegalNow(db, c, now)
  {
    hide Apply;
    ApplyCons(db, c, [], now);
    assert [c] + [] == [c];
  }

  lemma ApplyTwo(db: Db, c: Commit, d: Commit, now: nat)
    ensures var db1 := Apply(db, c, now);
            && ApplyAll(db, [c, d], now) == Apply(db1, d, now)
            && (AllUpToDate(db, [c, d], now)
                <==> WellFormed(db, c) && UpToDate(db, c) && WellFormed(db1, d) && UpToDate(db1, d))
  {
    hide Apply, ApplyAll, AllUpToDate, AllLegal, WellFormed, UpToDate, LegalNow;
    assert [c, d] == [c] + [d];
    ApplyCons(db, c, [d], now);
    ApplyOne(Apply(db, c, now), d, now);
  }

  lemma ApplyThree(db: Db, c: Commit, d: Commit, e: Commit, now: nat)
    ensures var db1 := Apply(db, c, now);
            var db2 := Apply(db1, d, now);
            && ApplyAll(db, [c, d, e], now) == Apply(db2, e, now)
            && (AllUpToDate(db, [c, d, e], now)
                <==> WellFormed(db, c) && UpToDate(db, c) && WellFormed(db1, d) && UpToDate(db1, d)
                     && WellFormed(db2, e) && UpToDate(db2, e))
  {
    hide Apply, ApplyAll, AllUpToDate, AllLegal, WellFormed, UpToDate, LegalNow;
    assert [c, d, e] == [c] + [d, e];
    ApplyCons(db, c, [d, e], now);
    ApplyTwo(Apply(db, c, now), d, e, now);
  }

  lemma {:induction false} ApplyConcat(db: Db, a: seq<Commit>, b: seq<Commit>, now: nat)
    ensures var mid := ApplyAll(db, a, now);
            && ApplyAll(db, a + b, now) == ApplyAll(mid, b, now)
            && (AllUpToDate(db, a + b, now) <==> AllUpToDate(db, a, now) && AllUpToDate(mid, b, now))
    decreases |a|
  {
    hide Apply, WellFormed, UpToDate, LegalNow;
    if a == [] {
      assert a + b == b;
    } else {
      assert a + b == [a[0]] + (a[1..] + b);
      ApplyCons(db, a[0], a[1..] + b, now);
      ApplyConcat(Apply(db, a[0], now), a[1..], b, now);
    }
  }

  /** What the theorem below says of one call. */
  ghost predicate IsItsWrites(db: Db, call: Call, now: nat) {
    && ApplyAll(db, Writes(db, call, now), now) == CallOutcome(db, call, now).db
    && AllUpToDate(db, Writes(db, call, now), now)
  }

  /** A call run alone does exactly these writes, each resting on rows that are current when it is made. */
  lemma CallIsItsWrites(db: Db, call: Call, now: nat)
    ensures ApplyAll(db, Writes(db, call, now), now) == CallOutcome(db, call, now).db
    ensures AllUpToDate(db, Writes(db, call, now), now)
  {
    assert IsItsWrites(db, call, now) by {
      hide IsItsWrites;
      match call
      case CreateOrder(_, _) => CreateIsItsWrites(db, call, now);
      case Transition(_, _) => MoveIsItsWrites(db, call, now);
      case Place(_) => MoveIsItsWrites(db, call, now);
      case Assign(_, _, _, _) => AssignIsItsWrites(db, call, now);
      case Unassign(_) => UnassignIsItsWrites(db, call, now);
      case RecordFailure(_, _, _) => FailureCallIsItsWrites(db, call, now);
      case SubmitProof(_, _) => ProofIsItsWrites(db, call, now);
      case HandleWebhook(_) => WebhookIsItsWrites(db, call, now);
      case RunJob(_, _) => RunJobIsItsWrites(db, call, now);
      case CreatePaymentIntent(_, _, _) => IntentIsItsWrites(db, call, now);
      case ConfirmCash(_, _) => CashIsItsWrites(db, call, now);
      case _ => EditIsItsWrites(db, call, now);
    }
  }

  lemma CreateIsItsWrites(db: Db, call: Call, now: nat)
    requires call.CreateOrder?
    ensures IsItsWrites(db, call, now)
  {
    hide ApplyAll, AllUpToDate, AllLegal, Checkout, WithOrder;
    ApplyNil(db, now);
    if Writes(db, call, now) != [] {
      ApplyOne(db, Writes(db, call, now)[0], now);
    }
  }

  lemma MoveIsItsWrites(db: Db, call: Call, now: nat)
    requires call.Transition? || call.Place?
    ensures IsItsWrites(db, call, now)
  {
    hide ApplyAll, AllUpToDate, AllLegal;
    ApplyNil(db, now);
    if Writes(db, call, now) != [] {
      ApplyOne(db, Writes(db, call, now)[0], now);
    }
  }

  lemma AssignIsItsWrites(db: Db, call: Call, now: nat)
    requires call.Assign?
    ensures IsItsWrites(db, call, now)
  {
    hide ApplyAll, AllUpToDate, AllLegal, CommitAssignment;
    ApplyNil(db, now);
    if Writes(db, call, now) != [] {
      ApplyOne(db, Writes(db, call, now)[0], now);
    }
  }

  lemma UnassignIsItsWrites(db: Db, call: Call, now: nat)
    requires call.Unassign?
    ensures IsItsWrites(db, call, now)
  {
    hide ApplyAll, AllUpToDate, AllLegal, CommitUnassign;
    ApplyNil(db, now);
    if Writes(db, call, now) != [] {
      ApplyOne(db, Writes(db, call, now)[0], now);
    }
  }

  /** Calls that each edit one row. */
  predicate IsEdit(call: Call) {
    || call.SchedulePlacement? || call.ChangeDriverStatus? || call.EditProduct? || call.EditRule?
    || call.IssueOtp? || call.OtpExpires?
  }

  lemma EditIsItsWrites(db: Db, call: Call, now: nat)
    requires IsEdit(call)
    ensures IsItsWrites(db, call, now)
  {
    hide ApplyAll, AllUpToDate, AllLegal;
    ApplyOne(db, Writes(db, call, now)[0], now);
  }

  lemma ProvenIsItsWrites(db: Db, o: OrderId, proof: Proof, now: nat)
    ensures var ws := ProvenWrites(db, o, proof);
            && ApplyAll(db, ws, now) == Proven(db, o, proof)
            && AllUpToDate(db, ws, now)
  {
    hide ApplyAll, AllUpToDate, AllLegal;
    var ws := ProvenWrites(db, o, proof);
    if |ws| == 1 {
      assert ws == [ws[0]];
      ApplyOne(db, ws[0], now);
    } else {
      assert ws == [ws[0], ws[1]];
      ApplyTwo(db, ws[0], ws[1], now);
    }
  }

  lemma ProofIsItsWrites(db: Db, call: Call, now: nat)
    requires call.SubmitProof?
    ensures IsItsWrites(db, call, now)
  {
    hide ApplyAll, AllUpToDate, AllLegal, ProvenWrites;
    ApplyNil(db, now);
    if Writes(db, call, now) != [] {
      var move := Move(call.o, OUT_FOR_DELIVERY, DELIVERED);
      var proven := Proven(db, call.o, call.proof);
      ProvenIsItsWrites(db, call.o, call.proof, now);
      ApplyConcat(db, ProvenWrites(db, call.o, call.proof), [move], now);
      ApplyOne(proven, move, now);
      assert CanTransition(OUT_FOR_DELIVERY, DELIVERED);
      TransitionSucceeds(proven, call.o, DELIVERED, now);
    }
  }

  lemma FailureCallIsItsWrites(db: Db, call: Call, now: nat)
    requires call.RecordFailure?
    ensures IsItsWrites(db, call, now)
  {
    hide ApplyAll, AllUpToDate, AllLegal, FailureWrites;
    ApplyNil(db, now);
    if call.o in db.orders && Failable(db.orders[call.o].status) {
      FailureIsItsWrites(db, call.o, call.resolution, call.rescheduleFor, now);
    }
  }

  /** The order is FAILED, and nothing it did so far was out of date. */
  lemma FailedIsItsWrites(db: Db, o: OrderId, now: nat)
    requires o in db.orders && Failable(db.orders[o].status)
    ensures ApplyAll(db, FailedWrites(db, o, now), now)
            == TransitionOutcome(AttemptRecorded(db, o, now), o, FAILED, now).db
    ensures AllUpToDate(db, FailedWrites(db, o, now), now)
  {
    hide ApplyAll, AllUpToDate, AllLegal, NumbersOf;
    var ws := FailedWrites(db, o, now);
    ApplyThree(db, ws[0], ws[1], ws[2], now);
    assert Apply(Apply(db, ws[0], now), ws[1], now) == AttemptRecorded(db, o, now);
  }

  lemma ResolutionIsItsWrites(db: Db, o: OrderId, resolution: Resolution, rescheduleFor: Option<nat>, now: nat)
    requires o in db.orders && db.orders[o].status == FAILED
    ensures var ws := ResolutionWrites(o, resolution, rescheduleFor, now);
            && ApplyAll(db, ws, now) == Resolved(db, o, resolution, rescheduleFor, now).db
            && AllUpToDate(db, ws, now)
  {
    hide ApplyAll, AllUpToDate, AllLegal;
    var ws := ResolutionWrites(o, resolution, rescheduleFor, now);
    if ws == [] {
      ApplyNil(db, now);
    } else if |ws| == 1 {
      ApplyOne(db, ws[0], now);
    } else {
      ApplyTwo(db, ws[0], ws[1], now);
    }
  }

  lemma FailureIsItsWrites(db: Db, o: OrderId, resolution: Resolution, rescheduleFor: Option<nat>, now: nat)
    requires o in db.orders && Failable(db.orders[o].status)
    ensures var ws := FailureWrites(db, o, resolution, rescheduleFor, now);
            && ApplyAll(db, ws, now) == FailureOutcome(db, o, resolution, rescheduleFor, now).db
            && AllUpToDate(db, ws, now)
  {
    hide ApplyAll, AllUpToDate, AllLegal, FailedWrites, ResolutionWrites, Resolved, TransitionOutcome, NumbersOf;
    var recorded := AttemptRecorded(db, o, now);
    FailureEdges(db.orders[o].status);
    TransitionSucceeds(recorded, o, FAILED, now);
    FailedIsItsWrites(db, o, now);
    ResolutionIsItsWrites(TransitionOutcome(recorded, o, FAILED, now).db, o, resolution, rescheduleFor, now);
    ApplyConcat(db, FailedWrites(db, o, now), ResolutionWrites(o, resolution, rescheduleFor, now), now);
  }

  lemma RunJobIsItsWrites(db: Db, call: Call, now: nat)
    requires call.RunJob?
    ensures IsItsWrites(db, call, now)
  {
    hide ApplyAll, AllUpToDate, AllLegal;
    ApplyNil(db, now);
    var ws := Writes(db, call, now);
    if |ws| == 2 {
      assert ws == [ws[0], ws[1]];
      ApplyTwo(db, ws[0], ws[1], now);
    } else if |ws| == 1 {
      assert ws == [ws[0]];
      ApplyOne(db, ws[0], now);
    }
  }

  lemma IntentIsItsWrites(db: Db, call: Call, now: nat)
    requires call.CreatePaymentIntent?
    ensures IsItsWrites(db, call, now)
  {
    hide ApplyAll, AllUpToDate, AllLegal;
    ApplyNil(db, now);
    var ws := Writes(db, call, now);
    if |ws| == 2 {
      assert ws == [ws[0], ws[1]];
      ApplyTwo(db, ws[0], ws[1], now);
    }
  }

  lemma CashIsItsWrites(db: Db, call: Call, now: nat)
    requires call.ConfirmCash?
    ensures IsItsWrites(db, call, now)
  {
    hide ApplyAll, AllUpToDate, AllLegal;
    ApplyNil(db, now);
    var ws := Writes(db, call, now);
    if |ws| == 2 {
      assert ws == [ws[0], ws[1]];
      ApplyTwo(db, ws[0], ws[1], now);
    }
  }

  lemma HandlerIsItsWrites(db: Db, w: Webhook, now: nat)
    ensures var ws := HandlerWrites(db, w, now);
            ApplyAll(db, ws, now) == HandlerOutcome(db, w, now).db && AllUpToDate(db, ws, now)
  {
    hide ApplyAll, AllUpToDate, AllLegal, Settled, EventTypeOf;
    var ws := HandlerWrites(db, w, now);
    if ws == [] {
      ApplyNil(db, now);
    } else if |ws| == 1 {
      assert ws == [ws[0]];
      ApplyOne(db, ws[0], now);
    } else {
      assert ws == [ws[0], ws[1]];
      ApplyTwo(db, ws[0], ws[1], now);
    }
  }

  lemma WebhookIsItsWrites(db: Db, call: Call, now: nat)
    requires call.HandleWebhook?
    ensures IsItsWrites(db, call, now)
  {
    hide ApplyAll, AllUpToDate, AllLegal, HandlerWrites, HandlerOutcome;
    ApplyNil(db, now);
    if Writes(db, call, now) != [] {
      var mark := MarkProcessed(call.w.id);
      HandlerIsItsWrites(db, call.w, now);
      ApplyConcat(db, HandlerWrites(db, call.w, now), [mark], now);
      ApplyOne(HandlerOutcome(db, call.w, now).db, mark, now);
    }
  }
}
