/** The rows the services share: orders, drivers, the audit log, attempts, jobs, prices and payments. */
module Database {
  import opened Wrappers
  import opened Sequences
  import opened OrderStatus
  import Pricing

  // Identifiers are opaque keys: only equality on them is used.
  type OrderId = nat
  type DriverId = nat
  type ClientId = nat
  type ProductId = nat
  type ZoneId = nat
  type WebhookId = nat
  type IntentId = nat

  datatype AssignmentMode = MANUAL | AUTO_NEAREST
  datatype DriverStatus = OFFLINE | AVAILABLE | BUSY | ON_BREAK
  datatype PaymentMethod = CARD | CASH_ON_DELIVERY
  datatype PaymentStatus = Pending | Captured | Failed | Refunded

  datatype Item = Item(productId: ProductId, unitPriceMinor: int, quantity: nat, lineTotalMinor: int)

  /** What checkout freezes onto an order. */
  datatype Bill = Bill(
    paymentMethod: PaymentMethod,
    zoneId: Option<ZoneId>,
    items: seq<Item>,
    pricing: Pricing.Snapshot,
    subtotalMinor: int,
    totalMinor: int,
    currency: string
  )

  datatype Order = Order(clientId: ClientId, status: Status, driverId: Option<DriverId>, mode: Option<AssignmentMode>,
                         bill: Bill)

  datatype Driver = Driver(status: DriverStatus, activeOrderId: Option<OrderId>)

  datatype EventType =
    | Created | StatusChanged | Scheduled
    | PaymentInitiated | PaymentSucceeded | PaymentFailed | PaymentRefunded
    | Assigned | Reassigned | Unassigned | DriverAccepted
    | PickedUp | OutForDelivery | DeliveryFailed | Delivered | Returned | Cancelled

  /** The part of an event's metadata that says what moved. */
  datatype Detail =
    | Plain
    | Given(driverId: DriverId, previousDriverId: Option<DriverId>)
    | Taken(previousDriverId': DriverId)
    | Attempted(number: nat)

  datatype Event = Event(
    orderId: OrderId,
    kind: EventType,
    fromStatus: Option<Status>,
    toStatus: Option<Status>,
    detail: Detail,
    createdAt: nat
  )

  datatype Attempt = Attempt(orderId: OrderId, number: nat)

  /** A queued job is identified by its kind, its order and, for retries, its due time. */
  datatype Job = PlaceScheduled(orderId: OrderId) | RetryDelivery(orderId: OrderId, runAt: nat)

  datatype ProofType = PHOTO | SIGNATURE | OTP_CODE

  datatype ProofRow = ProofRow(
    type': ProofType,
    photoUrl: Option<string>,
    signatureUrl: Option<string>,
    otpVerified: Option<bool>,
    lng: real,
    lat: real,
    capturedAt: nat
  )

  datatype Product = Product(priceMinor: int, isAvailable: bool)

  datatype Payment = Payment(
    method': PaymentMethod,
    status: PaymentStatus,
    amountMinor: int,
    currency: string,
    intent: Option<IntentId>,
    collectedMinor: Option<int>,
    refundedMinor: int
  )

  datatype Db = Db(
    orders: map<OrderId, Order>,
    drivers: map<DriverId, Driver>,
    log: seq<Event>,
    attempts: seq<Attempt>,
    jobs: set<Job>,
    products: map<ProductId, Product>,
    rules: map<ZoneId, Pricing.Rule>,
    payments: map<OrderId, Payment>,
    processed: set<WebhookId>,
    proofs: map<OrderId, ProofRow>,
    otps: map<OrderId, string> // one-time codes that have not expired, held by Redis
  )

  /** A service call returns or throws; either way the database may have moved. */
  datatype Outcome = Done(db: Db) | Threw(db: Db, error: Error)

  function Ended(db: Db, error: Option<Error>): Outcome {
    match error
    case None => Done(db)
    case Some(e) => Threw(db, e)
  }

  function WithEvent(db: Db, e: Event): Db {
    db.(log := db.log + [e])
  }

  /** The attempt numbers recorded for one order, in order of insertion. */
  function NumbersOf(attempts: seq<Attempt>, o: OrderId): seq<nat> {
    if attempts == [] then []
    else NumbersOf(Front(attempts), o) + if Last(attempts).orderId == o then [Last(attempts).number] else []
  }

  /** The connection the services hold; its fields are the tables. */
  class Store {
    var orders: map<OrderId, Order>
    var drivers: map<DriverId, Driver>
    var log: seq<Event>
    var attempts: seq<Attempt>
    var jobs: set<Job>
    var products: map<ProductId, Product>
    var rules: map<ZoneId, Pricing.Rule>
    var payments: map<OrderId, Payment>
    var processed: set<WebhookId>
    var proofs: map<OrderId, ProofRow>
    var otps: map<OrderId, string>

    constructor (db: Db)
      ensures Rows() == db
    {
      orders, drivers, log, attempts, jobs := db.orders, db.drivers, db.log, db.attempts, db.jobs;
      products, rules, payments, processed := db.products, db.rules, db.payments, db.processed;
      proofs, otps := db.proofs, db.otps;
    }

    function Rows(): Db
      reads this
    {
      Db(orders, drivers, log, attempts, jobs, products, rules, payments, processed, proofs, otps)
    }
  }
}
