/** What an order costs never changes after checkout, and payments are for exactly that. */
module Money {
  import opened Wrappers
  import opened Sequences
  import opened Database
  import opened Orders
  import opened Payments
  import opened Commits
  import opened Calls
  import opened SerialRuns

  /** Every line at quantity times unit price, their sum as subtotal, and the total adding the delivery fee. */
  ghost predicate BillAddsUp(bill: Bill) {
    && (forall i :: 0 <= i < |bill.items| ==>
          bill.items[i].lineTotalMinor == bill.items[i].unitPriceMinor * bill.items[i].quantity)
    && bill.subtotalMinor == Subtotal(bill.items)
    && bill.totalMinor == bill.subtotalMinor + bill.pricing.deliveryFeeMinor
  }

  /** Checkout charges each requested line at the price the product had then. */
  lemma CheckoutAddsUp(db: Db, draft: Draft)
    requires Checkout(db, draft).Ok?
    ensures var bill := Checkout(db, draft).value;
            && BillAddsUp(bill) && |bill.items| == |draft.lines|
            && forall i :: 0 <= i < |draft.lines| ==>
                 && bill.items[i].productId == draft.lines[i].productId
                 && bill.items[i].quantity == draft.lines[i].quantity
                 && draft.lines[i].productId in db.products
                 && bill.items[i].unitPriceMinor == db.products[draft.lines[i].productId].priceMinor
  {
    SizeCheckResolvesEveryLine(db.products, draft.lines);
    assert forall i :: 0 <= i < |draft.lines| ==> Resolves(db.products, draft.lines[i]);
  }

  /** The payment is for what the order costs, in its currency. */
  predicate Charges(p: Payment, bill: Bill) {
    p.amountMinor == bill.totalMinor && p.currency == bill.currency
  }

  ghost predicate Billed(db: Db) {
    && (forall o :: o in db.orders ==> BillAddsUp(db.orders[o].bill))
    && (forall o :: o in db.payments ==> o in db.orders && Charges(db.payments[o], db.orders[o].bill))
  }

  lemma WriteKeepsBill(db: Db, c: Commit, now: nat, o: OrderId)
    requires o in db.orders && WellFormed(db, c)
    ensures o in Apply(db, c, now).orders && Apply(db, c, now).orders[o].bill == db.orders[o].bill
  {
    hide ApplyAside;
  }

  lemma {:induction false} WritesKeepBill(db: Db, cs: seq<Commit>, now: nat, o: OrderId)
    requires o in db.orders && AllUpToDate(db, cs, now)
    ensures o in ApplyAll(db, cs, now).orders && ApplyAll(db, cs, now).orders[o].bill == db.orders[o].bill
    decreases |cs|
  {
    hide Apply, UpToDate;
    if cs != [] {
      WriteKeepsBill(db, cs[0], now, o);
      WritesKeepBill(Apply(db, cs[0], now), cs[1..], now, o);
    }
  }

  /** No call touches the bill of an order that exists. */
  lemma CallKeepsBills(db: Db, call: Call, now: nat, o: OrderId)
    requires o in db.orders
    ensures var after := CallOutcome(db, call, now).db;
            o in after.orders && after.orders[o].bill == db.orders[o].bill
  {
    hide CallOutcome, Writes, ApplyAll, AllUpToDate;
    CallIsItsWrites(db, call, now);
    WritesKeepBill(db, Writes(db, call, now), now, o);
  }

  /** Only creation inserts an order, at the bill of its checkout. */
  lemma {:induction false} OrdersAreInserted(db: Db, cs: seq<Commit>, now: nat, o: OrderId) returns (i: nat)
    requires AllUpToDate(db, cs, now) && o !in db.orders && o in ApplyAll(db, cs, now).orders
    ensures i < |cs| && cs[i].Insert? && cs[i].o == o && ApplyAll(db, cs, now).orders[o].bill == cs[i].bill
    decreases |cs|
  {
    hide UpToDate;
    var next := Apply(db, cs[0], now);
    if o in next.orders {
      OnlyInsertAdds(db, cs[0], now, o);
      i := 0;
      WritesKeepBill(next, cs[1..], now, o);
    } else {
      var k := OrdersAreInserted(next, cs[1..], now, o);
      i := k + 1;
    }
  }

  lemma OnlyInsertAdds(db: Db, c: Commit, now: nat, o: OrderId)
    requires o !in db.orders && o in Apply(db, c, now).orders
    ensures c.Insert? && c.o == o && Apply(db, c, now).orders[o].bill == c.bill
  {
    hide ApplyAside;
  }

  lemma InsertsAreCheckedOut(db: Db, call: Call, now: nat)
    ensures forall i :: 0 <= i < |Writes(db, call, now)| && Writes(db, call, now)[i].Insert? ==>
              call.CreateOrder? && Checkout(db, call.draft) == Ok(Writes(db, call, now)[i].bill)
  {
    hide Checkout;
  }

  /** An order that is new after a call carries the bill of that call's checkout. */
  lemma NewOrderIsCheckedOut(db: Db, call: Call, now: nat, o: OrderId)
    requires var after := CallOutcome(db, call, now).db;
             o in after.orders && o !in db.orders
    ensures call.CreateOrder? && Checkout(db, call.draft).Ok?
            && CallOutcome(db, call, now).db.orders[o].bill == Checkout(db, call.draft).value
  {
    hide CallOutcome, Writes, ApplyAll, AllUpToDate, Checkout;
    CallIsItsWrites(db, call, now);
    InsertsAreCheckedOut(db, call, now);
    var i := OrdersAreInserted(db, Writes(db, call, now), now, o);
  }

  predicate IsPaymentCall(call: Call) {
    call.CreatePaymentIntent? || call.ConfirmCash? || call.HandleWebhook?
  }

  /** The write concerns no payment: no payment row, no processed id, no payment event. */
  predicate AboutNoPayment(c: Commit) {
    !c.SetPayment? && !c.MarkProcessed? && (c.Note? ==> Announces(c.e.kind).None?)
  }

  lemma WriteKeepsPayments(db: Db, c: Commit, now: nat)
    requires AboutNoPayment(c)
    ensures Apply(db, c, now).payments == db.payments && Apply(db, c, now).processed == db.processed
  {
    assert ApplyAside(db, c).payments == db.payments && ApplyAside(db, c).processed == db.processed;
    hide ApplyAside;
  }

  lemma {:induction false} WritesKeepPayments(db: Db, cs: seq<Commit>, now: nat)
    requires forall i :: 0 <= i < |cs| ==> AboutNoPayment(cs[i])
    ensures ApplyAll(db, cs, now).payments == db.payments && ApplyAll(db, cs, now).processed == db.processed
    decreases |cs|
  {
    hide Apply, AboutNoPayment;
    if cs != [] {
      WriteKeepsPayments(db, cs[0], now);
      WritesKeepPayments(Apply(db, cs[0], now), cs[1..], now);
    }
  }

  lemma OtherCallsAreNotAboutPayment(db: Db, call: Call, now: nat)
    requires !IsPaymentCall(call)
    ensures forall i :: 0 <= i < |Writes(db, call, now)| ==> AboutNoPayment(Writes(db, call, now)[i])
  {
  }

  lemma OtherCallsKeepPayments(db: Db, call: Call, now: nat)
    requires !IsPaymentCall(call)
    ensures var after := CallOutcome(db, call, now).db;
            after.payments == db.payments && after.processed == db.processed
  {
    hide CallOutcome, Writes, ApplyAll, AllUpToDate, AboutNoPayment;
    CallIsItsWrites(db, call, now);
    OtherCallsAreNotAboutPayment(db, call, now);
    WritesKeepPayments(db, Writes(db, call, now), now);
  }

  /** The payment of an order is for what it was for, or is new and for what the order costs. */
  predicate AmountKept(db: Db, after: Db, o: OrderId) {
    o in after.payments ==>
      || (o in db.payments && after.payments[o].amountMinor == db.payments[o].amountMinor
          && after.payments[o].currency == db.payments[o].currency)
      || (o !in db.payments && o in db.orders && Charges(after.payments[o], db.orders[o].bill))
  }

  lemma IntentKeepsAmounts(db: Db, o: OrderId, userId: ClientId, intent: Option<Intent>, now: nat, p: OrderId)
    ensures AmountKept(db, IntentOutcome(db, o, userId, intent, now).db, p)
  {
  }

  lemma CashKeepsAmounts(db: Db, o: OrderId, collectedMinor: int, now: nat, p: OrderId)
    ensures AmountKept(db, CashOutcome(db, o, collectedMinor, now).db, p)
  {
  }

  lemma WebhookKeepsAmounts(db: Db, w: Webhook, now: nat, p: OrderId)
    ensures AmountKept(db, WebhookOutcome(db, w, now).db, p)
  {
    hide EventTypeOf;
  }

  /** A payment is created at its order's total, and later steps keep its amount. */
  lemma CallKeepsAmounts(db: Db, call: Call, now: nat, o: OrderId)
    ensures AmountKept(db, CallOutcome(db, call, now).db, o)
  {
    if IsPaymentCall(call) {
      hide IntentOutcome, CashOutcome, WebhookOutcome;
      match call
      case CreatePaymentIntent(p, userId, intent) => IntentKeepsAmounts(db, p, userId, intent, now, o);
      case ConfirmCash(p, collected) => CashKeepsAmounts(db, p, collected, now, o);
      case HandleWebhook(w) => WebhookKeepsAmounts(db, w, now, o);
    } else {
      hide CallOutcome;
      OtherCallsKeepPayments(db, call, now);
    }
  }

  lemma KeepsBilled(db: Db, call: Call, now: nat)
    requires Billed(db)
    ensures Billed(CallOutcome(db, call, now).db)
  {
    hide CallOutcome, Checkout, BillAddsUp;
    var after := CallOutcome(db, call, now).db;
    forall o | o in after.orders
      ensures BillAddsUp(after.orders[o].bill)
    {
      if o in db.orders {
        CallKeepsBills(db, call, now, o);
      } else {
        NewOrderIsCheckedOut(db, call, now, o);
        CheckoutAddsUp(db, call.draft);
      }
    }
    forall o | o in after.payments
      ensures o in after.orders && Charges(after.payments[o], after.orders[o].bill)
    {
      CallKeepsAmounts(db, call, now, o);
      CallKeepsBills(db, call, now, o);
    }
  }

  /** In every reachable state each bill adds up and each payment is for its order's total. */
  lemma {:induction false} MoneyIsConserved(db: Db, steps: seq<Step>)
    requires Fresh(db)
    ensures Billed(Run(db, steps))
  {
    hide CallOutcome;
    if steps != [] {
      hide Billed;
      MoneyIsConserved(db, Front(steps));
      KeepsBilled(Run(db, Front(steps)), Last(steps).call, Last(steps).now);
    }
  }

  /** The call that created the order: it was acceptable then, and the bill is for the basket's cost then. */
  ghost predicate CreatedBy(before: Db, call: Call, o: OrderId, bill: Bill) {
    && call.CreateOrder? && call.o == o
    && AllAvailable(before.products, call.draft.lines)
    && MeetsMinimum(before.rules, call.draft.zoneId, BasketCost(before.products, call.draft.lines))
    && bill.subtotalMinor == BasketCost(before.products, call.draft.lines)
    && bill.paymentMethod == call.draft.paymentMethod
  }

  lemma NewOrderIsCreatedBy(db: Db, call: Call, now: nat, o: OrderId)
    requires var after := CallOutcome(db, call, now).db; o in after.orders && o !in db.orders
    ensures CreatedBy(db, call, o, CallOutcome(db, call, now).db.orders[o].bill)
  {
    NewOrderIsCheckedOut(db, call, now, o);
    hide BasketCost, AllAvailable, MeetsMinimum, Checkout, CreateOutcome;
    CreatesExactly(db, call.o, call.draft, now);
  }

  /** Every order of every reachable state was created by some call of the run, from available products, and its basket
      met the minimum then in force in its zone. */
  lemma {:induction false} BasketsMetTheMinimum(db: Db, steps: seq<Step>, o: OrderId) returns (k: nat)
    requires Fresh(db) && o in Run(db, steps).orders
    ensures k < |steps| && CreatedBy(Run(db, steps[..k]), steps[k].call, o, Run(db, steps).orders[o].bill)
  {
    hide CallOutcome, CreatedBy;
    if steps == [] {
      assert false;
    } else {
      hide Fresh;
      var before, last := Run(db, Front(steps)), Last(steps);
      if o in before.orders {
        k := BasketsMetTheMinimum(db, Front(steps), o);
        CallKeepsBills(before, last.call, last.now, o);
        assert Front(steps)[..k] == steps[..k];
      } else {
        k := |steps| - 1;
        NewOrderIsCreatedBy(before, last.call, last.now, o);
        assert steps[..k] == Front(steps);
      }
    }
  }

  /** Whatever happens later, to products and pricing rules too, an order keeps the bill it was created with. */
  lemma {:induction false} BillIsFrozen(db: Db, steps: seq<Step>, o: OrderId)
    requires o in db.orders
    ensures o in Run(db, steps).orders && Run(db, steps).orders[o].bill == db.orders[o].bill
  {
    hide CallOutcome;
    if steps != [] {
      BillIsFrozen(db, Front(steps), o);
      CallKeepsBills(Run(db, Front(steps)), Last(steps).call, Last(steps).now, o);
    }
  }

  // --- Payments follow the log -----------------------------------------------

  /** The payment status an event announces. */
  function Announces(kind: EventType): Option<PaymentStatus> {
    match kind
    case PaymentInitiated => Some(Pending)
    case PaymentSucceeded => Some(Captured)
    case PaymentFailed => Some(PaymentStatus.Failed)
    case PaymentRefunded => Some(Refunded)
    case _ => None
  }

  /** The last payment status an order's events announce. */
  function LastAnnounced(log: seq<Event>, o: OrderId): Option<PaymentStatus> {
    if log == [] then None
    else if Last(log).orderId == o && Announces(Last(log).kind).Some? then Announces(Last(log).kind)
    else LastAnnounced(Front(log), o)
  }

  lemma AnnouncedAppend(log: seq<Event>, e: Event, o: OrderId)
    ensures LastAnnounced(log + [e], o)
            == if e.orderId == o && Announces(e.kind).Some? then Announces(e.kind) else LastAnnounced(log, o)
  {
    assert Front(log + [e]) == log;
  }

  ghost predicate PaidAsLogged(db: Db) {
    forall o :: o in db.payments ==> LastAnnounced(db.log, o) == Some(db.payments[o].status)
  }

  lemma WriteAnnouncesNothing(db: Db, c: Commit, now: nat, p: OrderId)
    requires AboutNoPayment(c)
    ensures LastAnnounced(Apply(db, c, now).log, p) == LastAnnounced(db.log, p)
  {
    hide LastAnnounced, ApplyAside;
    match c
    case Insert(o, draft, bill) =>
      var creation := Event(o, EventType.Created, None, Some(InitialStatus(draft)), Plain, now);
      AnnouncedAppend(db.log, creation, p);
      AnnouncedAppend(db.log + [creation], Event(o, Scheduled, None, None, Plain, now), p);
      assert db.log + [creation] + [] == db.log + [creation];
    case Note(e) => AnnouncedAppend(db.log, e, p);
    case Move(o, from, to) => AnnouncedAppend(db.log, Event(o, EventTypeFor(to), Some(from), Some(to), Plain, now), p);
    case Give(_, _, _, _) => HandoverAnnouncesNothing(db, c, now, p);
    case Take(_, _, _) => HandoverAnnouncesNothing(db, c, now, p);
    case _ =>
  }

  lemma HandoverAnnouncesNothing(db: Db, c: Commit, now: nat, p: OrderId)
    requires c.Give? || c.Take?
    ensures LastAnnounced(Apply(db, c, now).log, p) == LastAnnounced(db.log, p)
  {
    hide LastAnnounced;
    if Apply(db, c, now).log != db.log {
      AnnouncedAppend(db.log, Last(Apply(db, c, now).log), p);
    }
  }

  lemma {:induction false} WritesAnnounceNothing(db: Db, cs: seq<Commit>, now: nat, p: OrderId)
    requires forall i :: 0 <= i < |cs| ==> AboutNoPayment(cs[i])
    ensures LastAnnounced(ApplyAll(db, cs, now).log, p) == LastAnnounced(db.log, p)
    decreases |cs|
  {
    hide Apply, AboutNoPayment, LastAnnounced;
    if cs != [] {
      WriteAnnouncesNothing(db, cs[0], now, p);
      WritesAnnounceNothing(Apply(db, cs[0], now), cs[1..], now, p);
    }
  }

  /** Calls that are not about payment announce nothing and change no payment. */
  lemma OthersAnnounceNothing(db: Db, call: Call, now: nat, p: OrderId)
    requires !IsPaymentCall(call)
    ensures LastAnnounced(CallOutcome(db, call, now).db.log, p) == LastAnnounced(db.log, p)
  {
    hide CallOutcome, Writes, ApplyAll, AllUpToDate, AboutNoPayment, LastAnnounced;
    CallIsItsWrites(db, call, now);
    OtherCallsAreNotAboutPayment(db, call, now);
    WritesAnnounceNothing(db, Writes(db, call, now), now, p);
  }

  /** The step announces the status it leaves the payment in. */
  ghost predicate Announced(after: Db, p: OrderId) {
    p in after.payments ==> LastAnnounced(after.log, p) == Some(after.payments[p].status)
  }

  lemma IntentAnnounces(db: Db, o: OrderId, userId: ClientId, intent: Option<Intent>, now: nat, p: OrderId)
    requires Announced(db, p)
    ensures Announced(IntentOutcome(db, o, userId, intent, now).db, p)
  {
    hide LastAnnounced;
    AnnouncedAppend(db.log, Event(o, PaymentInitiated, None, None, Plain, now), p);
  }

  lemma CashAnnounces(db: Db, o: OrderId, collectedMinor: int, now: nat, p: OrderId)
    requires Announced(db, p)
    ensures Announced(CashOutcome(db, o, collectedMinor, now).db, p)
  {
    hide LastAnnounced;
    AnnouncedAppend(db.log, Event(o, PaymentSucceeded, None, None, Plain, now), p);
  }

  lemma WebhookAnnounces(db: Db, w: Webhook, now: nat, p: OrderId)
    requires Announced(db, p) && (forall o :: o in db.payments ==> o in db.orders)
    ensures Announced(WebhookOutcome(db, w, now).db, p)
  {
    hide LastAnnounced;
    if w.orderId.Some? {
      AnnouncedAppend(db.log, Event(w.orderId.value, EventTypeOf(w.kind), None, None, Plain, now), p);
    }
  }

  /** A payment step announces the status it leaves the payment in, and touches no other order's. */
  lemma PaymentsAnnounce(db: Db, call: Call, now: nat, p: OrderId)
    requires Billed(db) && PaidAsLogged(db) && IsPaymentCall(call)
    ensures Announced(CallOutcome(db, call, now).db, p)
  {
    hide LastAnnounced, BillAddsUp, IntentOutcome, CashOutcome, WebhookOutcome;
    match call
    case CreatePaymentIntent(o, userId, intent) => IntentAnnounces(db, o, userId, intent, now, p);
    case ConfirmCash(o, collected) => CashAnnounces(db, o, collected, now, p);
    case HandleWebhook(w) => WebhookAnnounces(db, w, now, p);
  }

  lemma KeepsPaidAsLogged(db: Db, call: Call, now: nat)
    requires Billed(db) && PaidAsLogged(db)
    ensures PaidAsLogged(CallOutcome(db, call, now).db)
  {
    hide CallOutcome, Billed, LastAnnounced;
    var after := CallOutcome(db, call, now).db;
    forall p | p in after.payments
      ensures LastAnnounced(after.log, p) == Some(after.payments[p].status)
    {
      if IsPaymentCall(call) {
        PaymentsAnnounce(db, call, now, p);
      } else {
        OtherCallsKeepPayments(db, call, now);
        OthersAnnounceNothing(db, call, now, p);
      }
    }
  }

  /** In every reachable state each payment's status is the last one its order's events announced: payments, too, can
      be read off the log. */
  lemma {:induction false} PaymentsFollowTheLog(db: Db, steps: seq<Step>)
    requires Fresh(db)
    ensures PaidAsLogged(Run(db, steps))
  {
    hide CallOutcome, Billed;
    if steps != [] {
      hide PaidAsLogged, Fresh;
      PaymentsFollowTheLog(db, Front(steps));
      MoneyIsConserved(db, Front(steps));
      KeepsPaidAsLogged(Run(db, Front(steps)), Last(steps).call, Last(steps).now);
    }
  }

  // --- Repeated webhook deliveries -------------------------------------------

  function WebhookIds(steps: seq<Step>): set<WebhookId> {
    if steps == [] then {}
    else WebhookIds(Front(steps)) + if Last(steps).call.HandleWebhook? then {Last(steps).call.w.id} else {}
  }

  /** The same run with every delivery but the first of each webhook id left out. */
  function FirstDeliveries(steps: seq<Step>): seq<Step> {
    if steps == [] then []
    else
      var earlier := FirstDeliveries(Front(steps));
      if Last(steps).call.HandleWebhook? && Last(steps).call.w.id in WebhookIds(Front(steps)) then earlier
      else earlier + [Last(steps)]
  }

  lemma CallMarksProcessed(db: Db, call: Call, now: nat)
    ensures CallOutcome(db, call, now).db.processed
            == db.processed + if call.HandleWebhook? then {call.w.id} else {}
  {
    if !IsPaymentCall(call) {
      hide CallOutcome;
      OtherCallsKeepPayments(db, call, now);
    }
  }

  lemma {:induction false} ProcessedAreDelivered(db: Db, steps: seq<Step>)
    ensures Run(db, steps).processed == db.processed + WebhookIds(steps)
  {
    hide CallOutcome;
    if steps != [] {
      ProcessedAreDelivered(db, Front(steps));
      CallMarksProcessed(Run(db, Front(steps)), Last(steps).call, Last(steps).now);
    }
  }

  lemma RepeatIsIgnored(db: Db, w: Webhook, now: nat)
    requires w.id in db.processed
    ensures CallOutcome(db, HandleWebhook(w), now) == Done(db)
  {
  }

  /** Repeated deliveries, in any mix with other calls and whether or not the handler threw, change nothing. */
  lemma {:induction false} RepeatedDeliveriesChangeNothing(db: Db, steps: seq<Step>)
    ensures Run(db, steps) == Run(db, FirstDeliveries(steps))
  {
    hide CallOutcome;
    if steps != [] {
      RepeatedDeliveriesChangeNothing(db, Front(steps));
      ProcessedAreDelivered(db, Front(steps));
      var last := Last(steps);
      if last.call.HandleWebhook? && last.call.w.id in WebhookIds(Front(steps)) {
        RepeatIsIgnored(Run(db, Front(steps)), last.call.w, last.now);
      } else {
        RunSnoc(db, FirstDeliveries(Front(steps)), last);
      }
    }
  }
}
