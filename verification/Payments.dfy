/** Card intents, cash confirmation, and webhook handling with deduplication. */
module Payments {
  import opened Wrappers
  import opened Database
  import opened OrderEvents

  predicate HasIntent(db: Db, o: OrderId) {
    o in db.payments && db.payments[o].intent.Some?
  }

  /** What the payment provider returns. */
  datatype Intent = Intent(id: IntentId, clientSecret: string)

  /** The client secret is not stored: only the call that made the intent can give it. */
  datatype IntentReply = IntentReply(
    clientSecret: Option<string>,
    status: PaymentStatus,
    amountMinor: int,
    currency: string
  )

  /** A payment for exactly what the order costs, not yet made. */
  function PaymentFor(bill: Bill): Payment {
    Payment(bill.paymentMethod, Pending, bill.totalMinor, bill.currency, None, None, 0)
  }

  /** `intent` is what the payment provider returned, or None when its call threw. */
  function IntentOutcome(db: Db, o: OrderId, userId: ClientId, intent: Option<Intent>, now: nat): Outcome {
    if o !in db.orders then Threw(db, NotFound)
    else if db.orders[o].clientId != userId then Threw(db, BadRequest)
    else if db.orders[o].bill.paymentMethod != CARD then Threw(db, BadRequest)
    else if HasIntent(db, o) then Done(db)
    else if intent.None? then Threw(db, UpstreamFailed)
    else
      var row := if o in db.payments then db.payments[o] else PaymentFor(db.orders[o].bill);
      var pending := row.(intent := Some(intent.value.id), status := Pending);
      Done(WithEvent(db.(payments := db.payments[o := pending]), Event(o, PaymentInitiated, None, None, Plain, now)))
  }

  function CashOutcome(db: Db, o: OrderId, collectedMinor: int, now: nat): Outcome {
    if o !in db.orders then Threw(db, NotFound)
    else if db.orders[o].bill.paymentMethod != CASH_ON_DELIVERY then Threw(db, BadRequest)
    else
      var row := if o in db.payments then db.payments[o] else PaymentFor(db.orders[o].bill);
      var captured := row.(status := Captured, collectedMinor := Some(collectedMinor));
      Done(WithEvent(db.(payments := db.payments[o := captured]), Event(o, PaymentSucceeded, None, None, Plain, now)))
  }

  // --- Webhooks --------------------------------------------------------------

  datatype WebhookKind = IntentSucceeded | IntentFailed | ChargeRefunded(amountMinor: int) | OtherKind

  /** `orderId` is None when the provider's object carries no order in its metadata. */
  datatype Webhook = Webhook(id: WebhookId, kind: WebhookKind, orderId: Option<OrderId>)

  function Settled(p: Payment, kind: WebhookKind): Payment {
    match kind
    case IntentSucceeded => p.(status := Captured)
    case IntentFailed => p.(status := Failed)
    case ChargeRefunded(amount) => p.(status := Refunded, refundedMinor := amount)
    case OtherKind => p
  }

  function EventTypeOf(kind: WebhookKind): EventType {
    match kind
    case IntentFailed => PaymentFailed
    case ChargeRefunded(_) => PaymentRefunded
    case _ => PaymentSucceeded
  }

  /** The handler of one kind; recording an event for an order that does not exist breaks a foreign key and throws. */
  function HandlerOutcome(db: Db, w: Webhook, now: nat): Outcome {
    if w.kind == OtherKind || w.orderId.None? then Done(db)
    else
      var o := w.orderId.value;
      var paid := if o in db.payments then db.(payments := db.payments[o := Settled(db.payments[o], w.kind)]) else db;
      if o !in db.orders then Threw(paid, ConstraintFailed)
      else Done(WithEvent(paid, Event(o, EventTypeOf(w.kind), None, None, Plain, now)))
  }

  /** The id is marked processed whether or not the handler threw. */
  function WebhookOutcome(db: Db, w: Webhook, now: nat): Outcome {
    if w.id in db.processed then Done(db)
    else
      var r := HandlerOutcome(db, w, now);
      var marked := r.db.(processed := r.db.processed + {w.id});
      match r
      case Done(_) => Done(marked)
      case Threw(_, e) => Threw(marked, e)
  }

  /** When an intent is made, and the payment it leaves. */
  lemma IntentsExactly(db: Db, o: OrderId, userId: ClientId, intent: Option<Intent>, now: nat)
    ensures var r := IntentOutcome(db, o, userId, intent, now);
            if o !in db.orders then r == Threw(db, NotFound)
            else if db.orders[o].clientId != userId || db.orders[o].bill.paymentMethod != CARD
            then r == Threw(db, BadRequest)
            else if o in db.payments && db.payments[o].intent.Some? then r == Done(db)
            else if intent.None? then r == Threw(db, UpstreamFailed)
            else
              && r.Done? && o in r.db.payments
              && var p := r.db.payments[o];
                 && p.status == Pending && p.intent == Some(intent.value.id)
                 && (o !in db.payments ==>
                       && p.method' == CARD && p.amountMinor == db.orders[o].bill.totalMinor
                       && p.currency == db.orders[o].bill.currency && p.collectedMinor.None? && p.refundedMinor == 0)
                 && (o in db.payments ==> p == db.payments[o].(status := p.status, intent := p.intent))
                 && r.db == db.(payments := db.payments[o := p],
                                log := db.log + [Event(o, PaymentInitiated, None, None, Plain, now)])
  {
  }

  /** When cash is confirmed, and the payment it leaves. */
  lemma CollectsExactly(db: Db, o: OrderId, collectedMinor: int, now: nat)
    ensures var r := CashOutcome(db, o, collectedMinor, now);
            if o !in db.orders then r == Threw(db, NotFound)
            else if db.orders[o].bill.paymentMethod != CASH_ON_DELIVERY then r == Threw(db, BadRequest)
            else
              && r.Done? && o in r.db.payments
              && var p := r.db.payments[o];
                 && p.status == Captured && p.collectedMinor == Some(collectedMinor)
                 && (o !in db.payments ==>
                       && p.method' == CASH_ON_DELIVERY && p.amountMinor == db.orders[o].bill.totalMinor
                       && p.currency == db.orders[o].bill.currency && p.intent.None? && p.refundedMinor == 0)
                 && (o in db.payments ==>
                       p == db.payments[o].(status := p.status, collectedMinor := p.collectedMinor))
                 && r.db == db.(payments := db.payments[o := p],
                                log := db.log + [Event(o, PaymentSucceeded, None, None, Plain, now)])
  {
  }

  /** What each kind of webhook does to the payment and to the log, the first time it is delivered. */
  lemma WebhooksExactly(db: Db, w: Webhook, now: nat)
    requires w.id !in db.processed
    ensures var r := WebhookOutcome(db, w, now);
            && r.db == db.(payments := r.db.payments, log := r.db.log, processed := db.processed + {w.id})
            && (w.kind.OtherKind? || w.orderId.None? ==>
                  r.Done? && r.db.payments == db.payments && r.db.log == db.log)
            && (!w.kind.OtherKind? && w.orderId.Some? ==>
                  var o := w.orderId.value;
                  && (r.Done? <==> o in db.orders) && (r.Threw? ==> r.error == ConstraintFailed && r.db.log == db.log)
                  && (o !in db.payments ==> r.db.payments == db.payments)
                  && (o in db.payments ==>
                        && (w.kind.IntentSucceeded? ==>
                              r.db.payments == db.payments[o := db.payments[o].(status := Captured)])
                        && (w.kind.IntentFailed? ==>
                              r.db.payments == db.payments[o := db.payments[o].(status := PaymentStatus.Failed)])
                        && (w.kind.ChargeRefunded? ==>
                              r.db.payments == db.payments[o := db.payments[o].(status := Refunded,
                                                                                refundedMinor := w.kind.amountMinor)]))
                  && (r.Done? ==>
                        && (w.kind.IntentSucceeded? ==>
                              r.db.log == db.log + [Event(o, PaymentSucceeded, None, None, Plain, now)])
                        && (w.kind.IntentFailed? ==>
                              r.db.log == db.log + [Event(o, EventType.PaymentFailed, None, None, Plain, now)])
                        && (w.kind.ChargeRefunded? ==>
                              r.db.log == db.log + [Event(o, PaymentRefunded, None, None, Plain, now)])))
  {
  }

  class PaymentsService {
    const store: Store
    const events: OrderEventsService

    constructor (store: Store, events: OrderEventsService)
      ensures this.store == store && this.events == events
    {
      this.store, this.events := store, events;
    }

    predicate Wired() {
      events.store == store
    }

    /** The reply describes the order's payment; it carries the client secret only when the intent is new. */
    method CreatePaymentIntent(o: OrderId, userId: ClientId, intent: Option<Intent>, now: nat)
      returns (error: Option<Error>, reply: Option<IntentReply>)
      requires Wired()
      modifies store
      ensures Ended(store.Rows(), error) == IntentOutcome(old(store.Rows()), o, userId, intent, now)
      ensures reply.Some? && !HasIntent(old(store.Rows()), o) ==> intent.Some?
      ensures error.Some? <==> reply.None?
      ensures reply.Some? ==>
                && o in store.payments && reply.value.status == store.payments[o].status
                && var reused := HasIntent(old(store.Rows()), o);
                   var paid, bill := store.payments[o], store.orders[o].bill;
                   && reply.value.amountMinor == (if reused then paid.amountMinor else bill.totalMinor)
                   && reply.value.currency == (if reused then paid.currency else bill.currency)
                   && reply.value.clientSecret == (if reused then None else Some(intent.value.clientSecret))
    {
      if o !in store.orders {
        return Some(NotFound), None;
      }
      var order := store.orders[o];
      if order.clientId != userId {
        return Some(BadRequest), None;
      }
      if order.bill.paymentMethod != CARD {
        return Some(BadRequest), None;
      }
      if o in store.payments && store.payments[o].intent.Some? {
        var paid := store.payments[o];
        return None, Some(IntentReply(None, paid.status, paid.amountMinor, paid.currency));
      }
      if intent.None? {
        return Some(UpstreamFailed), None;
      }
      if o in store.payments {
        var row := store.payments[o].(intent := Some(intent.value.id), status := Pending);
        store.payments := store.payments[o := row];
      } else {
        var row := Payment(CARD, Pending, order.bill.totalMinor, order.bill.currency, Some(intent.value.id), None, 0);
        store.payments := store.payments[o := row];
      }
      events.Record(Event(o, PaymentInitiated, None, None, Plain, now));
      var secret := Some(intent.value.clientSecret);
      return None, Some(IntentReply(secret, Pending, order.bill.totalMinor, order.bill.currency));
    }

    method ConfirmCash(o: OrderId, collectedMinor: int, now: nat) returns (error: Option<Error>)
      requires Wired()
      modifies store
      ensures Ended(store.Rows(), error) == CashOutcome(old(store.Rows()), o, collectedMinor, now)
    {
      if o !in store.orders {
        return Some(NotFound);
      }
      var order := store.orders[o];
      if order.bill.paymentMethod != CASH_ON_DELIVERY {
        return Some(BadRequest);
      }
      if o in store.payments {
        var row := store.payments[o].(status := Captured, collectedMinor := Some(collectedMinor));
        store.payments := store.payments[o := row];
      } else {
        var row := Payment(CASH_ON_DELIVERY, Captured, order.bill.totalMinor, order.bill.currency, None,
                           Some(collectedMinor), 0);
        store.payments := store.payments[o := row];
      }
      events.Record(Event(o, PaymentSucceeded, None, None, Plain, now));
      return None;
    }

    method HandleWebhookEvent(w: Webhook, now: nat) returns (error: Option<Error>, handled: bool)
      requires Wired()
      modifies store
      ensures Ended(store.Rows(), error) == WebhookOutcome(old(store.Rows()), w, now)
      ensures handled <==> error.None? && w.id !in old(store.processed)
    {
      if w.id in store.processed {
        return None, false;
      }
      error := Handle(w, now);
      store.processed := store.processed + {w.id};
      handled := error.None?;
    }

    method Handle(w: Webhook, now: nat) returns (error: Option<Error>)
      requires Wired()
      modifies store
      ensures Ended(store.Rows(), error) == HandlerOutcome(old(store.Rows()), w, now)
    {
      if w.kind == OtherKind || w.orderId.None? {
        return None;
      }
      var o := w.orderId.value;
      if o in store.payments {
        store.payments := store.payments[o := Settled(store.payments[o], w.kind)];
      }
      if o !in store.orders {
        return Some(ConstraintFailed);
      }
      events.Record(Event(o, EventTypeOf(w.kind), None, None, Plain, now));
      return None;
    }
  }
}
