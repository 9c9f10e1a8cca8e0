/** Order creation with frozen pricing, and the guarded status transition. */
module Orders {
  import opened Wrappers
  import opened Sequences
  import opened OrderStatus
  import opened Database
  import opened OrderEvents
  import Pricing

  // --- Checkout --------------------------------------------------------------

  datatype Line = Line(productId: ProductId, quantity: nat)

  /** The request body, with the zone, the distance and the local time of the quote, and the currency of the first
      product row found. */
  datatype Draft = Draft(
    clientId: ClientId,
    currency: string,
    lines: seq<Line>,
    paymentMethod: PaymentMethod,
    zoneId: Option<ZoneId>,
    distanceKm: real,
    day: int,
    clock: string,
    scheduledAhead: bool,
    placeNow: bool
  )

  function ProductIds(lines: seq<Line>): set<ProductId> {
    set l | l in lines :: l.productId
  }

  /** `findMany`: the rows with a wanted id that are available. */
  function FoundProducts(products: map<ProductId, Product>, ids: set<ProductId>): set<ProductId> {
    set p | p in ids && p in products && products[p].isAvailable
  }

  predicate Resolves(products: map<ProductId, Product>, l: Line) {
    l.productId in products && products[l.productId].isAvailable
  }

  /** As many products found as ids asked for: exactly then every line has an available product. */
  lemma SizeCheckResolvesEveryLine(products: map<ProductId, Product>, lines: seq<Line>)
    ensures |FoundProducts(products, ProductIds(lines))| == |ProductIds(lines)|
            <==> forall l :: l in lines ==> Resolves(products, l)
  {
    var ids := ProductIds(lines);
    var found := FoundProducts(products, ids);
    assert found <= ids;
    if forall l :: l in lines ==> Resolves(products, l) {
      assert found == ids;
    } else {
      var l :| l in lines && !Resolves(products, l);
      assert l.productId in ids && l.productId !in found;
      assert found <= ids - {l.productId};
      SubsetIsSmaller(found, ids - {l.productId});
    }
  }

  lemma {:induction false} SubsetIsSmaller<T>(a: set<T>, b: set<T>)
    requires a <= b
    ensures |a| <= |b|
    decreases |a|
  {
    if x :| x in a {
      SubsetIsSmaller(a - {x}, b - {x});
    }
  }

  function PricedItems(products: map<ProductId, Product>, lines: seq<Line>): (items: seq<Item>)
    requires forall l :: l in lines ==> Resolves(products, l)
    ensures |items| == |lines|
  {
    seq(|lines|, i requires 0 <= i < |lines| =>
      assert Resolves(products, lines[i]);
      var price := products[lines[i].productId].priceMinor;
      Item(lines[i].productId, price, lines[i].quantity, price * lines[i].quantity))
  }

  function Subtotal(items: seq<Item>): int {
    if items == [] then 0 else Subtotal(Front(items)) + Last(items).lineTotalMinor
  }

  /** The rule in force for the quote's zone. */
  function RuleFor(db: Db, zoneId: Option<ZoneId>): Option<Pricing.Rule> {
    if zoneId.Some? && zoneId.value in db.rules then Some(db.rules[zoneId.value]) else None
  }

  function InitialStatus(draft: Draft): Status {
    if !draft.placeNow then DRAFT else if draft.scheduledAhead then SCHEDULED else PLACED
  }

  function WithOrder(db: Db, o: OrderId, draft: Draft, bill: Bill, now: nat): Db {
    var status := InitialStatus(draft);
    var creation := Event(o, EventType.Created, None, Some(status), Plain, now);
    var scheduling := Event(o, Scheduled, None, None, Plain, now);
    db.(orders := db.orders[o := Order(draft.clientId, status, None, None, bill)],
        log := db.log + [creation] + if status == SCHEDULED then [scheduling] else [])
  }

  /** The bill of an acceptable request: every line priced, the minimum met. */
  function Checkout(db: Db, draft: Draft): Result<Bill> {
    SizeCheckResolvesEveryLine(db.products, draft.lines);
    if |FoundProducts(db.products, ProductIds(draft.lines))| != |ProductIds(draft.lines)| then Err(BadRequest)
    else
      var items := PricedItems(db.products, draft.lines);
      var subtotal := Subtotal(items);
      var rule := RuleFor(db, draft.zoneId);
      var snapshot := Pricing.ComputePricing(rule, subtotal, draft.distanceKm, draft.day, draft.clock);
      if !snapshot.minOrderMet then Err(BadRequest)
      else Ok(Bill(draft.paymentMethod, draft.zoneId, items, snapshot, subtotal, snapshot.totalMinor, draft.currency))
  }

  function CreateOutcome(db: Db, o: OrderId, draft: Draft, now: nat): Outcome {
    match Checkout(db, draft)
    case Err(e) => Threw(db, e)
    case Ok(bill) => if o in db.orders then Threw(db, ConstraintFailed) else Done(WithOrder(db, o, draft, bill, now))
  }

  /** What the requested lines cost at the products' present prices. */
  function BasketCost(products: map<ProductId, Product>, lines: seq<Line>): int {
    if lines == [] then 0
    else
      var last := Last(lines);
      BasketCost(products, Front(lines))
      + if last.productId in products then products[last.productId].priceMinor * last.quantity else 0
  }

  lemma {:induction false} SubtotalIsBasketCost(products: map<ProductId, Product>, lines: seq<Line>)
    requires forall l :: l in lines ==> Resolves(products, l)
    ensures Subtotal(PricedItems(products, lines)) == BasketCost(products, lines)
  {
    if lines != [] {
      assert Resolves(products, Last(lines));
      assert forall l :: l in Front(lines) ==> l in lines;
      SubtotalIsBasketCost(products, Front(lines));
      assert Front(PricedItems(products, lines)) == PricedItems(products, Front(lines));
    }
  }

  predicate AllAvailable(products: map<ProductId, Product>, lines: seq<Line>) {
    forall l :: l in lines ==> l.productId in products && products[l.productId].isAvailable
  }

  /** The zone asks for no minimum, or this much meets it. */
  predicate MeetsMinimum(rules: map<ZoneId, Pricing.Rule>, zoneId: Option<ZoneId>, costMinor: int) {
    zoneId.Some? && zoneId.value in rules ==> costMinor >= rules[zoneId.value].minOrderMinor
  }

  lemma CheckoutExactly(db: Db, draft: Draft)
    ensures var cost := BasketCost(db.products, draft.lines);
            var r := Checkout(db, draft);
            && (r.Ok? <==> AllAvailable(db.products, draft.lines) && MeetsMinimum(db.rules, draft.zoneId, cost))
            && (r.Err? ==> r.error == BadRequest)
            && (r.Ok? ==>
                  && r.value.paymentMethod == draft.paymentMethod && r.value.zoneId == draft.zoneId
                  && r.value.currency == draft.currency && r.value.subtotalMinor == cost
                  && (draft.zoneId.None? || draft.zoneId.value !in db.rules ==> r.value.totalMinor == cost))
  {
    SizeCheckResolvesEveryLine(db.products, draft.lines);
    if AllAvailable(db.products, draft.lines) {
      assert forall l :: l in draft.lines ==> Resolves(db.products, l);
      hide Pricing.ComputePricing, Subtotal, BasketCost;
      var cost := BasketCost(db.products, draft.lines);
      SubtotalIsBasketCost(db.products, draft.lines);
      Pricing.QuoteWithoutRule(cost, draft.distanceKm, draft.day, draft.clock);
      if draft.zoneId.Some? && draft.zoneId.value in db.rules {
        Pricing.QuoteInFull(db.rules[draft.zoneId.value], cost, draft.distanceKm, draft.day, draft.clock);
      }
    } else {
      assert !(forall l :: l in draft.lines ==> Resolves(db.products, l));
    }
  }

  /** Which requests become orders, what each refusal is, and the whole of what a creation leaves. */
  lemma CreatesExactly(db: Db, o: OrderId, draft: Draft, now: nat)
    ensures var r := CreateOutcome(db, o, draft, now);
            var cost := BasketCost(db.products, draft.lines);
            var acceptable := AllAvailable(db.products, draft.lines) && MeetsMinimum(db.rules, draft.zoneId, cost);
            && (r.Done? <==> acceptable && o !in db.orders)
            && (r.Threw? ==> r.db == db && r.error == if acceptable then ConstraintFailed else BadRequest)
            && (r.Done? ==>
                  && o in r.db.orders
                  && var order := r.db.orders[o];
                     var scheduled := draft.placeNow && draft.scheduledAhead;
                     && order.status == (if !draft.placeNow then DRAFT else if scheduled then SCHEDULED else PLACED)
                     && order.clientId == draft.clientId && order.driverId.None? && order.mode.None?
                     && order.bill.paymentMethod == draft.paymentMethod && order.bill.zoneId == draft.zoneId
                     && order.bill.currency == draft.currency && order.bill.subtotalMinor == cost
                     && (draft.zoneId.None? || draft.zoneId.value !in db.rules ==> order.bill.totalMinor == cost)
                     && r.db == db.(orders := db.orders[o := order],
                                    log := db.log + [Event(o, EventType.Created, None, Some(order.status), Plain, now)]
                                           + if scheduled then [Event(o, Scheduled, None, None, Plain, now)] else []))
  {
    hide Checkout, BasketCost;
    CheckoutExactly(db, draft);
  }

  // --- Transitions -----------------------------------------------------------

  function EventTypeFor(to: Status): EventType {
    match to
    case PICKED_UP => PickedUp
    case OUT_FOR_DELIVERY => OutForDelivery
    case DELIVERED => Delivered
    case RETURNED => Returned
    case CANCELLED => Cancelled
    case _ => StatusChanged
  }

  /** The transaction of `transition`: status and event together, with no second look at the row. */
  function CommitTransition(db: Db, o: OrderId, from: Status, to: Status, now: nat): Outcome {
    if o !in db.orders then Threw(db, RecordMissing)
    else Done(db.(orders := db.orders[o := db.orders[o].(status := to)],
                  log := db.log + [Event(o, EventTypeFor(to), Some(from), Some(to), Plain, now)]))
  }

  /** The read and the check before that transaction. */
  function TransitionError(db: Db, o: OrderId, to: Status): Option<Error> {
    if o !in db.orders then Some(NotFound)
    else if !CanTransition(db.orders[o].status, to) then Some(BadRequest)
    else None
  }

  /** A transition the table allows changes one status and appends one event, and nothing else. */
  lemma TransitionSucceeds(db: Db, o: OrderId, to: Status, now: nat)
    requires o in db.orders && CanTransition(db.orders[o].status, to)
    ensures TransitionOutcome(db, o, to, now)
            == Done(db.(orders := db.orders[o := db.orders[o].(status := to)],
                        log := db.log + [Event(o, EventTypeFor(to), Some(db.orders[o].status), Some(to), Plain, now)]))
  {
  }

  function TransitionOutcome(db: Db, o: OrderId, to: Status, now: nat): Outcome {
    match TransitionError(db, o, to)
    case Some(e) => Threw(db, e)
    case None => CommitTransition(db, o, db.orders[o].status, to, now)
  }

  function PlaceOutcome(db: Db, o: OrderId, now: nat): Outcome {
    if o !in db.orders then Threw(db, NotFound)
    else if db.orders[o].status != DRAFT then Threw(db, BadRequest)
    else TransitionOutcome(db, o, PLACED, now)
  }

  /** Which transitions go through, what each refusal is, and the event each target leaves. */
  lemma TransitionsExactly(db: Db, o: OrderId, to: Status, now: nat)
    ensures var r := TransitionOutcome(db, o, to, now);
            if o !in db.orders then r == Threw(db, NotFound)
            else if !CanTransition(db.orders[o].status, to) then r == Threw(db, BadRequest)
            else
              && r.Done? && r.db.log != [] && Front(r.db.log) == db.log
              && var e := Last(r.db.log);
                 && r.db == db.(orders := db.orders[o := db.orders[o].(status := to)], log := db.log + [e])
                 && e == Event(o, e.kind, Some(db.orders[o].status), Some(to), Plain, now)
                 && (e.kind == PickedUp <==> to == PICKED_UP)
                 && (e.kind == OutForDelivery <==> to == OUT_FOR_DELIVERY)
                 && (e.kind == Delivered <==> to == DELIVERED)
                 && (e.kind == EventType.Returned <==> to == RETURNED)
                 && (e.kind == EventType.Cancelled <==> to == CANCELLED)
                 && (e.kind == StatusChanged <==>
                     to !in [PICKED_UP, OUT_FOR_DELIVERY, DELIVERED, RETURNED, CANCELLED])
  {
    hide OrderStatus.Next;
    if o in db.orders && CanTransition(db.orders[o].status, to) {
      hide TransitionOutcome, CanTransition, EventTypeFor;
      TransitionSucceeds(db, o, to, now);
      EventKinds(to);
      assert Front(TransitionOutcome(db, o, to, now).db.log) == db.log;
    }
  }

  lemma EventKinds(to: Status)
    ensures EventTypeFor(to) == PickedUp <==> to == PICKED_UP
    ensures EventTypeFor(to) == OutForDelivery <==> to == OUT_FOR_DELIVERY
    ensures EventTypeFor(to) == Delivered <==> to == DELIVERED
    ensures EventTypeFor(to) == EventType.Returned <==> to == RETURNED
    ensures EventTypeFor(to) == EventType.Cancelled <==> to == CANCELLED
    ensures EventTypeFor(to) == StatusChanged <==>
            to !in [PICKED_UP, OUT_FOR_DELIVERY, DELIVERED, RETURNED, CANCELLED]
  {
  }

  /** Placing is for drafts alone, though the table would also let a scheduled order be placed. */
  lemma PlacesExactly(db: Db, o: OrderId, now: nat)
    ensures var r := PlaceOutcome(db, o, now);
            if o !in db.orders then r == Threw(db, NotFound)
            else if db.orders[o].status != DRAFT then r == Threw(db, BadRequest)
            else r == Done(db.(orders := db.orders[o := db.orders[o].(status := PLACED)],
                               log := db.log + [Event(o, StatusChanged, Some(DRAFT), Some(PLACED), Plain, now)]))
  {
    assert CanTransition(DRAFT, PLACED);
  }

  class OrdersService {
    const store: Store
    const events: OrderEventsService

    constructor (store: Store, events: OrderEventsService)
      ensures this.store == store && this.events == events
    {
      this.store, this.events := store, events;
    }

    predicate Wired() {
      events.store == store
    }

    method Create(o: OrderId, draft: Draft, now: nat) returns (error: Option<Error>)
      requires Wired()
      modifies store
      ensures Ended(store.Rows(), error) == CreateOutcome(old(store.Rows()), o, draft, now)
    {
      var ids := ProductIds(draft.lines);
      var products := FoundProducts(store.products, ids);
      if |products| != |ids| {
        return Some(BadRequest);
      }
      SizeCheckResolvesEveryLine(store.products, draft.lines);
      var items := PricedItems(store.products, draft.lines);
      var subtotal := Subtotal(items);
      var rule := RuleFor(store.Rows(), draft.zoneId);
      var snapshot := Pricing.ComputePricing(rule, subtotal, draft.distanceKm, draft.day, draft.clock);
      if !snapshot.minOrderMet {
        return Some(BadRequest);
      }
      if o in store.orders {
        return Some(ConstraintFailed);
      }
      var status := InitialStatus(draft);
      var bill := Bill(draft.paymentMethod, draft.zoneId, items, snapshot, subtotal, snapshot.totalMinor,
                       draft.currency);
      store.orders := store.orders[o := Order(draft.clientId, status, None, None, bill)];
      events.Record(Event(o, EventType.Created, None, Some(status), Plain, now));
      if status == SCHEDULED {
        events.Record(Event(o, Scheduled, None, None, Plain, now));
      }
      return None;
    }

    method Transition(o: OrderId, to: Status, now: nat) returns (error: Option<Error>)
      requires Wired()
      modifies store
      ensures Ended(store.Rows(), error) == TransitionOutcome(old(store.Rows()), o, to, now)
    {
      if o !in store.orders {
        return Some(NotFound);
      }
      var from := store.orders[o].status;
      if !CanTransition(from, to) {
        return Some(BadRequest);
      }
      store.orders := store.orders[o := store.orders[o].(status := to)];
      events.Record(Event(o, EventTypeFor(to), Some(from), Some(to), Plain, now));
      return None;
    }

    method Place(o: OrderId, now: nat) returns (error: Option<Error>)
      requires Wired()
      modifies store
      ensures Ended(store.Rows(), error) == PlaceOutcome(old(store.Rows()), o, now)
    {
      if o !in store.orders {
        return Some(NotFound);
      }
      if store.orders[o].status != DRAFT {
        return Some(BadRequest);
      }
      error := Transition(o, PLACED, now);
    }
  }
}
