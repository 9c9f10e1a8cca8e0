/** Webhook deliveries in flight together: each looks its id up first, then runs its handler, then inserts the id. */
module WebhookRaces {
  import opened Wrappers
  import opened Sequences
  import opened Database
  import opened Payments
  import opened Commits
  import opened Calls
  import SerialRuns

  /** A delivery whose lookup found nothing, before or after its handler. */
  datatype Delivery = Delivery(w: Webhook, handled: bool)

  /** The rows, the deliveries in flight, and the ids whose handler was begun or has run. */
  datatype State = State(db: Db, deliveries: map<nat, Delivery>, begun: seq<WebhookId>, handled: set<WebhookId>)

  datatype Action =
    | Lookup(d: nat, w: Webhook)
    | Handle(d: nat)
    | Insert(d: nat)    // the id; a second insert of it throws and changes nothing
    | Stop(d: nat)      // the server stops, and this delivery writes no more
    | Whole(call: Call) // any call that is not a webhook delivery

  datatype Step = Step(action: Action, now: nat)

  /** The lookup goes on to the handler. */
  predicate Passes(s: State, d: nat, w: Webhook) {
    d !in s.deliveries && w.id !in s.db.processed
  }

  function Next(s: State, step: Step): State {
    match step.action
    case Lookup(d, w) =>
      if Passes(s, d, w) then s.(deliveries := s.deliveries[d := Delivery(w, false)], begun := s.begun + [w.id]) else s
    case Handle(d) =>
      if d !in s.deliveries || s.deliveries[d].handled then s
      else
        var w := s.deliveries[d].w;
        s.(db := HandlerOutcome(s.db, w, step.now).db,
           deliveries := s.deliveries[d := Delivery(w, true)],
           handled := s.handled + {w.id})
    case Insert(d) =>
      if d !in s.deliveries || !s.deliveries[d].handled then s
      else s.(db := s.db.(processed := s.db.processed + {s.deliveries[d].w.id}), deliveries := s.deliveries - {d})
    case Stop(d) => s.(deliveries := s.deliveries - {d})
    case Whole(call) => if call.HandleWebhook? then s else s.(db := CallOutcome(s.db, call, step.now).db)
  }

  function Run(s: State, steps: seq<Step>): State {
    if steps == [] then s else Next(Run(s, Front(steps)), Last(steps))
  }

  lemma RunSnoc(s: State, steps: seq<Step>, step: Step)
    ensures Run(s, steps + [step]) == Next(Run(s, steps), step)
  {
    assert Front(steps + [step]) == steps;
  }

  function Start(db: Db): State {
    State(db, map[], [], {})
  }

  /** The three steps of a delivery taken without interference do what the call does; an id already marked stops the
      first of them. */
  lemma DeliveryAlone(s: State, d: nat, w: Webhook, now: nat)
    requires d !in s.deliveries
    ensures var t := Next(Next(Next(s, Step(Lookup(d, w), now)), Step(Handle(d), now)), Step(Action.Insert(d), now));
            && t.db == WebhookOutcome(s.db, w, now).db && t.deliveries == s.deliveries
            && (w.id in s.db.processed ==> t == s)
  {
    hide HandlerOutcome, CallOutcome;
    HandlerMarksNothing(s.db, w, now);
  }

  // --- When a handler is begun once -------------------------------------------

  predicate Distinct(ids: seq<WebhookId>) {
    ids == [] || (Distinct(Front(ids)) && Last(ids) !in Front(ids))
  }

  lemma DistinctAppend(ids: seq<WebhookId>, id: WebhookId)
    ensures Distinct(ids + [id]) <==> Distinct(ids) && id !in ids
  {
    assert Front(ids + [id]) == ids;
  }

  /** A lookup of an id that was begun before comes after the insert of that id. */
  predicate Waits(s: State, step: Step) {
    step.action.Lookup? && step.action.w.id in s.begun && step.action.d !in s.deliveries ==>
      step.action.w.id in s.db.processed
  }

  ghost predicate AlwaysWaits(s: State, steps: seq<Step>) {
    steps == [] || (AlwaysWaits(s, Front(steps)) && Waits(Run(s, Front(steps)), Last(steps)))
  }

  /** No id's handler is begun twice exactly when no delivery looks its id up between the lookup and the insert of an
      earlier delivery of it; a server that stops in between never inserts. */
  lemma {:induction false} BegunOnceIff(db: Db, steps: seq<Step>)
    ensures Distinct(Run(Start(db), steps).begun) <==> AlwaysWaits(Start(db), steps)
  {
    hide CallOutcome, HandlerOutcome;
    if steps != [] {
      var before, action := Run(Start(db), Front(steps)), Last(steps).action;
      BegunOnceIff(db, Front(steps));
      if action.Lookup? && Passes(before, action.d, action.w) {
        DistinctAppend(before.begun, action.w.id);
      }
    }
  }

  // --- Then the run is serial ---------------------------------------------------

  /** Deliveries that have not run their handler are the only ones of their ids, and nobody has run it. */
  ghost predicate Alone(s: State) {
    && s.db.processed <= s.handled
    && (forall id :: id in s.handled ==> id in s.begun)
    && (forall d :: d in s.deliveries ==> s.deliveries[d].w.id in s.begun)
    && (forall d :: d in s.deliveries ==> (s.deliveries[d].handled <==> s.deliveries[d].w.id in s.handled))
    && (forall d, e :: d in s.deliveries && e in s.deliveries && s.deliveries[d].w.id == s.deliveries[e].w.id ==>
          d == e)
  }

  lemma StepKeepsAlone(s: State, step: Step)
    requires Alone(s) && Waits(s, step)
    ensures Alone(Next(s, step))
  {
    hide CallOutcome, HandlerOutcome;
    match step.action
    case Handle(d) =>
      if d in s.deliveries {
        HandlerMarksNothing(s.db, s.deliveries[d].w, step.now);
      }
    case Whole(call) =>
      if !call.HandleWebhook? {
        CallMarksNothing(s.db, call, step.now);
      }
    case _ =>
  }

  lemma HandlerMarksNothing(db: Db, w: Webhook, now: nat)
    ensures HandlerOutcome(db, w, now).db.processed == db.processed
  {
  }

  /** The rows but for which ids are marked processed. */
  function Marked(db: Db, ids: set<WebhookId>): Db {
    db.(processed := ids)
  }

  /** What a handler changes, in one place. */
  lemma HandlerChanges(db: Db, w: Webhook, now: nat)
    ensures HandlerOutcome(db, w, now).db == db.(payments := PaidBy(db, w), log := db.log + RecordedBy(db, w, now))
  {
    hide Settled, EventTypeOf;
    assert db.log + [] == db.log;
  }

  function PaidBy(db: Db, w: Webhook): map<OrderId, Payment> {
    if w.kind == OtherKind || w.orderId.None? || w.orderId.value !in db.payments then db.payments
    else db.payments[w.orderId.value := Settled(db.payments[w.orderId.value], w.kind)]
  }

  function RecordedBy(db: Db, w: Webhook, now: nat): seq<Event> {
    if w.kind == OtherKind || w.orderId.None? || w.orderId.value !in db.orders then []
    else [Event(w.orderId.value, EventTypeOf(w.kind), None, None, Plain, now)]
  }

  lemma HandlerIgnoresMarks(db: Db, w: Webhook, ids: set<WebhookId>, now: nat)
    ensures HandlerOutcome(Marked(db, ids), w, now).db == Marked(HandlerOutcome(db, w, now).db, ids)
  {
    hide HandlerOutcome, Settled, EventTypeOf;
    HandlerChanges(db, w, now);
    HandlerChanges(Marked(db, ids), w, now);
  }

  lemma AsideIgnoresMarks(db: Db, c: Commit, ids: set<WebhookId>)
    requires !c.MarkProcessed?
    ensures ApplyAside(Marked(db, ids), c) == Marked(ApplyAside(db, c), ids)
    ensures ApplyAside(db, c).processed == db.processed
  {
  }

  lemma InsertIgnoresMarks(db: Db, c: Commit, ids: set<WebhookId>, now: nat)
    requires c.Insert?
    ensures IgnoresMarks(db, c, ids, now)
  {
  }

  lemma GiveIgnoresMarks(db: Db, c: Commit, ids: set<WebhookId>, now: nat)
    requires c.Give?
    ensures IgnoresMarks(db, c, ids, now)
  {
  }

  lemma TakeIgnoresMarks(db: Db, c: Commit, ids: set<WebhookId>, now: nat)
    requires c.Take?
    ensures IgnoresMarks(db, c, ids, now)
  {
  }

  lemma MoveIgnoresMarks(db: Db, c: Commit, ids: set<WebhookId>, now: nat)
    requires c.Move? || c.Note? || c.AddAttempt? || c.SetDriverStatus?
    ensures IgnoresMarks(db, c, ids, now)
  {
  }

  ghost predicate IgnoresMarks(db: Db, c: Commit, ids: set<WebhookId>, now: nat) {
    && Apply(Marked(db, ids), c, now) == Marked(Apply(db, c, now), ids)
    && Apply(db, c, now).processed == db.processed
  }

  lemma WriteIgnoresMarks(db: Db, c: Commit, ids: set<WebhookId>, now: nat)
    requires !c.MarkProcessed?
    ensures IgnoresMarks(db, c, ids, now)
  {
    if c.Insert? || c.Give? || c.Take? || c.Move? || c.Note? || c.AddAttempt? || c.SetDriverStatus? {
      hide IgnoresMarks;
      match c
      case Insert(_, _, _) => InsertIgnoresMarks(db, c, ids, now);
      case Give(_, _, _, _) => GiveIgnoresMarks(db, c, ids, now);
      case Take(_, _, _) => TakeIgnoresMarks(db, c, ids, now);
      case _ => MoveIgnoresMarks(db, c, ids, now);
    } else {
      hide ApplyAside, Marked;
      AsideIgnoresMarks(db, c, ids);
    }
  }

  lemma {:induction false} WritesIgnoreMarks(db: Db, cs: seq<Commit>, ids: set<WebhookId>, now: nat)
    requires forall i :: 0 <= i < |cs| ==> !cs[i].MarkProcessed?
    ensures ApplyAll(Marked(db, ids), cs, now) == Marked(ApplyAll(db, cs, now), ids)
    ensures ApplyAll(db, cs, now).processed == db.processed
    decreases |cs|
  {
    hide Apply, Marked;
    if cs != [] {
      WriteIgnoresMarks(db, cs[0], ids, now);
      WritesIgnoreMarks(Apply(db, cs[0], now), cs[1..], ids, now);
    }
  }

  lemma OtherCallsMarkNothing(db: Db, call: Call, now: nat)
    requires !call.HandleWebhook?
    ensures forall i :: 0 <= i < |Writes(db, call, now)| ==> !Writes(db, call, now)[i].MarkProcessed?
  {
  }

  lemma WritesDoNotReadMarks(db: Db, call: Call, ids: set<WebhookId>, now: nat)
    requires !call.HandleWebhook?
    ensures Writes(Marked(db, ids), call, now) == Writes(db, call, now)
  {
  }

  lemma CallMarksNothing(db: Db, call: Call, now: nat)
    requires !call.HandleWebhook?
    ensures CallOutcome(db, call, now).db.processed == db.processed
  {
    hide CallOutcome, Writes, ApplyAll, AllUpToDate;
    CallIsItsWrites(db, call, now);
    OtherCallsMarkNothing(db, call, now);
    WritesIgnoreMarks(db, Writes(db, call, now), {}, now);
  }

  lemma CallIgnoresMarks(db: Db, call: Call, ids: set<WebhookId>, now: nat)
    requires !call.HandleWebhook?
    ensures CallOutcome(Marked(db, ids), call, now).db == Marked(CallOutcome(db, call, now).db, ids)
  {
    hide CallOutcome, Writes, ApplyAll, AllUpToDate, Marked;
    CallIsItsWrites(db, call, now);
    CallIsItsWrites(Marked(db, ids), call, now);
    OtherCallsMarkNothing(db, call, now);
    WritesDoNotReadMarks(db, call, ids, now);
    WritesIgnoreMarks(db, Writes(db, call, now), ids, now);
  }

  /** The calls in the order in which they took effect: a delivery does so when its handler runs. */
  function Linearized(s: State, steps: seq<Step>): seq<SerialRuns.Step> {
    if steps == [] then []
    else
      var earlier, before, last := Linearized(s, Front(steps)), Run(s, Front(steps)), Last(steps);
      match last.action
      case Handle(d) =>
        if d in before.deliveries && !before.deliveries[d].handled
        then earlier + [SerialRuns.Step(HandleWebhook(before.deliveries[d].w), last.now)] else earlier
      case Whole(call) => if call.HandleWebhook? then earlier else earlier + [SerialRuns.Step(call, last.now)]
      case _ => earlier
  }

  /** A first delivery handled at once, on rows that are the same but for the marks. */
  lemma HandleIsTheCall(db: Db, w: Webhook, ids: set<WebhookId>, now: nat)
    requires w.id !in ids
    ensures CallOutcome(Marked(db, ids), HandleWebhook(w), now).db
            == Marked(HandlerOutcome(db, w, now).db, ids + {w.id})
  {
    hide HandlerOutcome;
    HandlerIgnoresMarks(db, w, ids, now);
  }

  /** When no lookup falls between another's lookup and its insert, the rows are those of a serial run that delivers
      each webhook once, whole, at the moment its handler ran. */
  lemma {:induction false} WaitingRunsAreSerial(db: Db, steps: seq<Step>)
    requires SerialRuns.Fresh(db) && AlwaysWaits(Start(db), steps)
    ensures var s := Run(Start(db), steps);
            && Alone(s)
            && SerialRuns.Run(db, Linearized(Start(db), steps)) == Marked(s.db, s.handled)
  {
    hide CallOutcome, HandlerOutcome, Alone, Waits;
    if steps == [] {
      NothingIsAlone(db);
    } else {
      WaitingRunsAreSerial(db, Front(steps));
      var before, last, earlier := Run(Start(db), Front(steps)), Last(steps), Linearized(Start(db), Front(steps));
      StepKeepsAlone(before, last);
      match last.action
      case Handle(d) =>
        if d in before.deliveries && !before.deliveries[d].handled {
          var w := before.deliveries[d].w;
          UnhandledIsNew(before, d);
          HandleIsTheCall(before.db, w, before.handled, last.now);
          SerialRuns.RunSnoc(db, earlier, SerialRuns.Step(HandleWebhook(w), last.now));
        }
      case Whole(call) =>
        if !call.HandleWebhook? {
          CallIgnoresMarks(before.db, call, before.handled, last.now);
          SerialRuns.RunSnoc(db, earlier, SerialRuns.Step(call, last.now));
        }
      case _ =>
    }
  }

  lemma NothingIsAlone(db: Db)
    requires SerialRuns.Fresh(db)
    ensures Alone(Start(db)) && Marked(db, {}) == db
  {
  }

  lemma UnhandledIsNew(s: State, d: nat)
    requires Alone(s) && d in s.deliveries && !s.deliveries[d].handled
    ensures s.deliveries[d].w.id !in s.handled
  {
  }

  // --- What a race does ---------------------------------------------------------

  /** Two deliveries of one webhook both look it up before either inserts it. */
  function Race(w: Webhook): seq<Step> {
    [Step(Lookup(0, w), 1)] + [Step(Lookup(1, w), 2)] + [Step(Handle(0), 3)] + [Step(Handle(1), 4)]
  }

  lemma RunRace(s: State, w: Webhook)
    ensures Run(s, Race(w))
            == Next(Next(Next(Next(s, Step(Lookup(0, w), 1)), Step(Lookup(1, w), 2)), Step(Handle(0), 3)),
                    Step(Handle(1), 4))
  {
    hide Next;
    var a, b, c, d := [Step(Lookup(0, w), 1)], [Step(Lookup(1, w), 2)], [Step(Handle(0), 3)], [Step(Handle(1), 4)];
    RunSnoc(s, [], a[0]);
    assert [] + a == a;
    RunSnoc(s, a, b[0]);
    RunSnoc(s, a + b, c[0]);
    RunSnoc(s, a + b + c, d[0]);
    assert Run(s, []) == s;
  }

  lemma RaceHandlesTwice(db: Db, w: Webhook)
    requires w.id !in db.processed
    ensures var s := Run(Start(db), Race(w));
            && s.db == HandlerOutcome(HandlerOutcome(db, w, 3).db, w, 4).db
            && s.begun == [w.id, w.id]
  {
    hide Run, Race, HandlerOutcome, CallOutcome;
    RunRace(Start(db), w);
  }

  lemma RepeatIsRecordedOnce(db: Db, w: Webhook)
    requires w.id !in db.processed
    ensures CallOutcome(CallOutcome(db, HandleWebhook(w), 3).db, HandleWebhook(w), 4).db.log
            == HandlerOutcome(db, w, 3).db.log
  {
    hide HandlerOutcome;
  }

  /** Both run the handler, and the success is recorded twice; delivered one after the other it is recorded once. */
  lemma RacingDeliveriesRecordTwice(db: Db, o: OrderId, id: WebhookId)
    requires o in db.orders && id !in db.processed
    ensures var w := Webhook(id, IntentSucceeded, Some(o));
            var once := Event(o, PaymentSucceeded, None, None, Plain, 3);
            var s := Run(Start(db), Race(w));
            && s.db.log == db.log + [once, once.(createdAt := 4)] && !Distinct(s.begun)
            && CallOutcome(CallOutcome(db, HandleWebhook(w), 3).db, HandleWebhook(w), 4).db.log == db.log + [once]
  {
    hide Run, Race, CallOutcome, HandlerOutcome;
    var w := Webhook(id, IntentSucceeded, Some(o));
    RaceHandlesTwice(db, w);
    RepeatIsRecordedOnce(db, w);
    BothHandle(db, w, o);
    DistinctAppend([id], id);
    assert [id] + [id] == [id, id];
  }

  lemma BothHandle(db: Db, w: Webhook, o: OrderId)
    requires o in db.orders && w.orderId == Some(o) && w.kind == IntentSucceeded
    ensures var first := HandlerOutcome(db, w, 3).db;
            var once := Event(o, PaymentSucceeded, None, None, Plain, 3);
            && first.log == db.log + [once] && first.processed == db.processed
            && HandlerOutcome(first, w, 4).db.log == db.log + [once, once.(createdAt := 4)]
  {
  }
}
