/** The driver's offline outbox, and the outbox composed with the guarded server over a lossy network. */
module Outbox {
  import opened Wrappers
  import opened Sequences
  import opened OrderStatus
  import opened Database
  import Orders
  import Delivery
  import Payments

  const MAX_ATTEMPTS: nat := 8
  const BATCH: nat := 50

  datatype Action =
    | OrderTransition(o: OrderId, to: Status)
    | DeliveryFailure(o: OrderId, asReturn: bool) // resolved by a return, or by a retry
    | ProofOfDelivery(o: OrderId)
    | CashConfirm(o: OrderId, collectedMinor: int)
    | LocationPing

  datatype RowStatus = PENDING | SENT | DEAD

  /** A row's id is its position: ids and creation times grow together. */
  datatype Row = Row(action: Action, attempts: nat, status: RowStatus)

  // --- The server, as far as the outbox can move it ---------------------------

  /** Order statuses, the orders paid in cash on delivery, and the cash confirmed so far. */
  datatype Server = Server(status: map<OrderId, Status>, cashOrders: set<OrderId>, cash: map<OrderId, int>)

  /** The statuses from which a request moves its order, and where to. */
  function MovesTo(from: Status, a: Action): Option<Status> {
    match a
    case OrderTransition(_, to) => if CanTransition(from, to) then Some(to) else None
    case DeliveryFailure(_, asReturn) =>
      if Delivery.Failable(from) then Some(if asReturn then RETURNED else RETRY_SCHEDULED) else None
    case ProofOfDelivery(_) => if from == OUT_FOR_DELIVERY then Some(DELIVERED) else None
    case _ => None
  }

  predicate IsMove(a: Action) {
    a.OrderTransition? || a.DeliveryFailure? || a.ProofOfDelivery?
  }

  /** The server accepts the request. */
  predicate Accepts(s: Server, a: Action) {
    match a
    case CashConfirm(o, _) => o in s.status && o in s.cashOrders
    case LocationPing => true
    case _ => a.o in s.status && MovesTo(s.status[a.o], a).Some?
  }

  function Accepted(s: Server, a: Action): Server
    requires Accepts(s, a)
  {
    match a
    case CashConfirm(o, collected) => s.(cash := s.cash[o := collected])
    case LocationPing => s
    case _ => s.(status := s.status[a.o := MovesTo(s.status[a.o], a).value])
  }

  function StatusView(db: Db): map<OrderId, Status> {
    map o | o in db.orders :: db.orders[o].status
  }

  function ServerView(db: Db): Server {
    Server(StatusView(db),
           set o | o in db.orders && db.orders[o].bill.paymentMethod == CASH_ON_DELIVERY,
           map o | o in db.payments && db.payments[o].collectedMinor.Some? :: db.payments[o].collectedMinor.value)
  }

  /** The service call a request reaches. */
  function ServiceOutcome(db: Db, a: Action, proof: Delivery.Proof, rescheduleFor: Option<nat>, now: nat): Outcome
    requires IsMove(a)
  {
    match a
    case OrderTransition(o, to) => Orders.TransitionOutcome(db, o, to, now)
    case DeliveryFailure(o, asReturn) =>
      Delivery.FailureOutcome(db, o, if asReturn then Delivery.Return else Delivery.Retry, rescheduleFor, now)
    case ProofOfDelivery(o) => Delivery.ProofOutcome(db, o, proof, now)
  }

  /** The service succeeds just when the request moves its order, and then sets that status and touches no other
      order. */
  ghost predicate Moves(db: Db, a: Action, r: Outcome)
    requires IsMove(a)
  {
    && (r.Done? <==> a.o in db.orders && MovesTo(db.orders[a.o].status, a).Some?)
    && (r.Threw? ==> r.db.orders == db.orders)
    && (r.Done? ==> r.db.orders == db.orders[a.o := db.orders[a.o].(status := MovesTo(db.orders[a.o].status, a).value)])
  }

  lemma TransitionMoves(db: Db, a: Action, proof: Delivery.Proof, rescheduleFor: Option<nat>, now: nat)
    requires a.OrderTransition?
    ensures Moves(db, a, ServiceOutcome(db, a, proof, rescheduleFor, now))
  {
  }

  lemma FailureMoves(db: Db, a: Action, proof: Delivery.Proof, rescheduleFor: Option<nat>, now: nat)
    requires a.DeliveryFailure?
    ensures Moves(db, a, ServiceOutcome(db, a, proof, rescheduleFor, now))
  {
    if a.o in db.orders && Delivery.Failable(db.orders[a.o].status) {
      hide Delivery.FailureOutcome;
      Delivery.FailureWorkflow(db, a.o, if a.asReturn then Delivery.Return else Delivery.Retry, rescheduleFor, now);
    }
  }

  lemma ProofMoves(db: Db, a: Action, proof: Delivery.Proof, rescheduleFor: Option<nat>, now: nat)
    requires a.ProofOfDelivery? && Delivery.ProofAccepted(db, a.o, proof)
    ensures Moves(db, a, ServiceOutcome(db, a, proof, rescheduleFor, now))
  {
    hide Orders.TransitionOutcome;
    if a.o in db.orders && db.orders[a.o].status == OUT_FOR_DELIVERY {
      assert CanTransition(OUT_FOR_DELIVERY, DELIVERED);
      Orders.TransitionSucceeds(Delivery.Proven(db, a.o, proof), a.o, DELIVERED, now);
    }
  }

  /** A service that succeeds sets its order's status to where the request moves it, and no other. */
  lemma ServiceMoves(db: Db, a: Action, proof: Delivery.Proof, rescheduleFor: Option<nat>, now: nat)
    requires IsMove(a) && (a.ProofOfDelivery? ==> Delivery.ProofAccepted(db, a.o, proof))
    ensures Moves(db, a, ServiceOutcome(db, a, proof, rescheduleFor, now))
  {
    hide ServiceOutcome, Moves;
    match a
    case OrderTransition(_, _) => TransitionMoves(db, a, proof, rescheduleFor, now);
    case DeliveryFailure(_, _) => FailureMoves(db, a, proof, rescheduleFor, now);
    case ProofOfDelivery(_) => ProofMoves(db, a, proof, rescheduleFor, now);
  }

  /** The outbox's server is the status side of the services its requests reach. */
  lemma ServerIsTheServices(db: Db, a: Action, proof: Delivery.Proof, rescheduleFor: Option<nat>, now: nat)
    requires IsMove(a) && (a.ProofOfDelivery? ==> Delivery.ProofAccepted(db, a.o, proof))
    ensures var r := ServiceOutcome(db, a, proof, rescheduleFor, now);
            var s := ServerView(db);
            && (r.Done? <==> Accepts(s, a))
            && StatusView(r.db) == if Accepts(s, a) then Accepted(s, a).status else s.status
  {
    hide ServiceOutcome, MovesTo;
    ServiceMoves(db, a, proof, rescheduleFor, now);
    var r := ServiceOutcome(db, a, proof, rescheduleFor, now);
    if r.Done? {
      assert StatusView(r.db) == StatusView(db)[a.o := MovesTo(db.orders[a.o].status, a).value];
    }
  }

  /** The same of a cash confirmation, which may be accepted again and again. */
  lemma CashIsTheService(db: Db, o: OrderId, collectedMinor: int, now: nat)
    ensures var r := Payments.CashOutcome(db, o, collectedMinor, now);
            var s, a := ServerView(db), CashConfirm(o, collectedMinor);
            && (r.Done? <==> Accepts(s, a))
            && ServerView(r.db) == (if Accepts(s, a) then Accepted(s, a) else s)
            && (Accepts(s, a) ==> Accepts(Accepted(s, a), a))
  {
    var r := Payments.CashOutcome(db, o, collectedMinor, now);
    if r.Done? {
      assert ServerView(r.db).cash == ServerView(db).cash[o := collectedMinor];
    }
  }

  /** A request that moved its order is refused when it comes again: no status follows itself. */
  lemma AcceptedMoveIsRefusedNext(s: Server, a: Action)
    requires IsMove(a) && Accepts(s, a)
    ensures !Accepts(Accepted(s, a), a)
  {
    match a
    case OrderTransition(o, to) => NoSelfLoop(s.status[o], to);
    case _ =>
  }

  // --- The queue ----------------------------------------------------------------

  /** What the network does to one request; a request refused before any effect counts as lost. */
  datatype Net = RequestLost | ReplyLost | Delivered

  /** The server's history: requests it accepted, by row and with whether the reply arrived, and moves by other
      actors. */
  datatype Entry = ByRow(row: nat, action: Action, answered: bool) | ByOther(order: OrderId, status: Status)

  datatype World = World(rows: seq<Row>, server: Server, history: seq<Entry>)

  predicate Reaches(w: World, k: nat, net: Net)
    requires k < |w.rows|
  {
    !net.RequestLost? && Accepts(w.server, w.rows[k].action)
  }

  /** The row after one request: resolved if the reply arrives, otherwise one attempt closer to being given up. */
  function Tried(row: Row, succeeded: bool): Row {
    if succeeded then row.(status := SENT)
    else row.(attempts := row.attempts + 1, status := if row.attempts + 1 >= MAX_ATTEMPTS then DEAD else PENDING)
  }

  function Send(w: World, k: nat, net: Net): (next: World)
    requires k < |w.rows|
    ensures |next.rows| == |w.rows|
  {
    var row := w.rows[k];
    var rows := w.rows[k := Tried(row, Reaches(w, k, net) && net.Delivered?)];
    if Reaches(w, k, net)
    then World(rows, Accepted(w.server, row.action), w.history + [ByRow(k, row.action, net.Delivered?)])
    else w.(rows := rows)
  }

  /** The first pending row, or the number of rows. */
  function Head(rows: seq<Row>): (k: nat)
    ensures k <= |rows|
    ensures forall i :: 0 <= i < k ==> rows[i].status != PENDING
    ensures k < |rows| ==> rows[k].status == PENDING
  {
    if rows == [] || rows[0].status == PENDING then 0 else 1 + Head(rows[1..])
  }

  // --- Runs, one request at a time ----------------------------------------------

  /** The app sends its first pending row, or adds a row, or somebody else moves an order. */
  datatype Step = Request(net: Net) | Enqueue(action: Action) | Other(o: OrderId, status: Status)

  /** What happens between a request's effect on the server and the update of its row commutes with that update, since
      only the reply decides it: the two are one step. */
  function Next(w: World, step: Step): World {
    match step
    case Request(net) => if Head(w.rows) < |w.rows| then Send(w, Head(w.rows), net) else w
    case Enqueue(a) => w.(rows := w.rows + [Row(a, 0, PENDING)])
    case Other(o, status) =>
      w.(server := w.server.(status := w.server.status[o := status]), history := w.history + [ByOther(o, status)])
  }

  function Run(w: World, steps: seq<Step>): World {
    if steps == [] then w else Next(Run(w, Front(steps)), Last(steps))
  }

  lemma RunSnoc(w: World, steps: seq<Step>, step: Step)
    ensures Run(w, steps + [step]) == Next(Run(w, steps), step)
  {
    assert Front(steps + [step]) == steps;
  }

  lemma {:induction false} RunConcat(w: World, a: seq<Step>, b: seq<Step>)
    ensures Run(w, a + b) == Run(Run(w, a), b)
    decreases |b|
  {
    hide Next;
    if b == [] {
      assert a + b == a;
    } else {
      assert Front(a + b) == a + Front(b);
      RunConcat(w, a, Front(b));
    }
  }

  // --- One flush ------------------------------------------------------------------

  /** What becomes of one request of a flush, and all that happens before the flush goes on to the next. */
  datatype Turn = Turn(net: Net, meanwhile: seq<Step>)

  function TurnAt(turns: seq<Turn>, i: nat): Turn {
    if i < |turns| then turns[i] else Turn(RequestLost, [])
  }

  datatype Flush = Flush(world: World, sent: nat, failed: nat)

  /** Sends the first pending row, then the next, while they go through and the batch lasts. */
  function Flushed(w: World, turns: seq<Turn>, left: nat, sent: nat): Flush
    decreases left
  {
    var k := Head(w.rows);
    if left == 0 || k == |w.rows| then Flush(w, sent, 0)
    else
      var turn := TurnAt(turns, sent);
      var next := Send(w, k, turn.net);
      var after := Run(next, turn.meanwhile);
      if next.rows[k].status == SENT then Flushed(after, turns, left - 1, sent + 1) else Flush(after, sent, 1)
  }

  function BatchSize(rows: seq<Row>): nat {
    if |rows| - Head(rows) > BATCH then BATCH else |rows| - Head(rows)
  }

  function FlushOnce(w: World, turns: seq<Turn>): Flush {
    Flushed(w, turns, BatchSize(w.rows), 0)
  }

  /** A flush, whatever happens between its requests, is a run of requests. */
  lemma {:induction false} FlushIsARun(w: World, turns: seq<Turn>, left: nat, sent: nat) returns (steps: seq<Step>)
    ensures Flushed(w, turns, left, sent).world == Run(w, steps)
    decreases left
  {
    hide Send;
    var k := Head(w.rows);
    steps := [];
    if left > 0 && k < |w.rows| {
      var turn := TurnAt(turns, sent);
      var request := [Request(turn.net)];
      RunSnoc(w, [], Request(turn.net));
      assert [] + request == request;
      RunConcat(w, request, turn.meanwhile);
      steps := request + turn.meanwhile;
      if Send(w, k, turn.net).rows[k].status == SENT {
        var more := FlushIsARun(Run(w, steps), turns, left - 1, sent + 1);
        RunConcat(w, steps, more);
        steps := steps + more;
      }
    }
  }

  /** Some time passes, then the outbox is flushed. */
  datatype Round = Round(before: seq<Step>, turns: seq<Turn>)

  function FlushAll(w: World, rounds: seq<Round>): World {
    if rounds == [] then w
    else FlushOnce(Run(FlushAll(w, Front(rounds)), Last(rounds).before), Last(rounds).turns).world
  }

  /** So every theorem about runs of requests is one about runs of flushes. */
  lemma {:induction false} RoundsAreARun(w: World, rounds: seq<Round>) returns (steps: seq<Step>)
    ensures FlushAll(w, rounds) == Run(w, steps)
  {
    hide Flushed, Next;
    steps := [];
    if rounds != [] {
      var earlier := RoundsAreARun(w, Front(rounds));
      RunConcat(w, earlier, Last(rounds).before);
      steps := earlier + Last(rounds).before;
      var start := Run(w, steps);
      var flush := FlushIsARun(start, Last(rounds).turns, BatchSize(start.rows), 0);
      RunConcat(w, steps, flush);
      steps := steps + flush;
    }
  }

  // --- The shape of the queue ----------------------------------------------------

  /** Resolved rows, then pending ones; only the first pending row has been tried; DEAD means eight attempts. */
  predicate Shape(rows: seq<Row>) {
    && (forall i :: 0 <= i < |rows| && rows[i].status == DEAD ==> rows[i].attempts == 8)
    && (forall i :: 0 <= i < |rows| && rows[i].status != DEAD ==> rows[i].attempts < 8)
    && (forall i :: Head(rows) < i < |rows| ==> rows[i].status == PENDING && rows[i].attempts == 0)
  }

  lemma {:induction false} HeadIs(rows: seq<Row>, k: nat)
    requires k <= |rows| && (forall i :: 0 <= i < k ==> rows[i].status != PENDING)
    requires k < |rows| ==> rows[k].status == PENDING
    ensures Head(rows) == k
  {
  }

  /** A request moves the head by one, or not at all, and keeps the shape. */
  lemma SendKeepsShape(w: World, net: Net)
    requires Shape(w.rows) && Head(w.rows) < |w.rows|
    ensures var k := Head(w.rows);
            var next := Send(w, k, net);
            && Shape(next.rows) && |next.rows| == |w.rows|
            && Head(next.rows) == (if next.rows[k].status == PENDING then k else k + 1)
            && (next.rows[k].status == SENT <==> Reaches(w, k, net) && net.Delivered?)
  {
    var k := Head(w.rows);
    var next := Send(w, k, net);
    HeadIs(next.rows, if next.rows[k].status == PENDING then k else k + 1);
  }

  lemma EnqueueKeepsShape(rows: seq<Row>, action: Action)
    requires Shape(rows)
    ensures Shape(rows + [Row(action, 0, PENDING)]) && Head(rows + [Row(action, 0, PENDING)]) == Head(rows)
  {
    HeadIs(rows + [Row(action, 0, PENDING)], Head(rows));
  }

  lemma NextKeepsShape(w: World, step: Step)
    requires Shape(w.rows)
    ensures Shape(Next(w, step).rows) && |Next(w, step).rows| >= |w.rows|
  {
    hide Shape, Send;
    match step
    case Request(net) =>
      if Head(w.rows) < |w.rows| {
        SendKeepsShape(w, net);
      }
    case Enqueue(a) => EnqueueKeepsShape(w.rows, a);
    case _ =>
  }

  /** Whatever the network and other actors do, the rows keep their shape. */
  lemma {:induction false} RunKeepsShape(w: World, steps: seq<Step>)
    requires Shape(w.rows)
    ensures Shape(Run(w, steps).rows) && |Run(w, steps).rows| >= |w.rows|
  {
    if steps != [] {
      hide Shape, Next;
      RunKeepsShape(w, Front(steps));
      NextKeepsShape(Run(w, Front(steps)), Last(steps));
    }
  }

  // --- The driver app's database ----------------------------------------------

  /** The `SELECT ... WHERE status = 'PENDING' ORDER BY created_at`. */
  function PendingIds(rows: seq<Row>, from: nat): seq<nat>
    requires from <= |rows|
    decreases |rows| - from
  {
    if from == |rows| then []
    else (if rows[from].status == PENDING then [from] else []) + PendingIds(rows, from + 1)
  }

  lemma {:induction false} PendingIdsOfShape(rows: seq<Row>, from: nat)
    requires Shape(rows) && from <= |rows|
    ensures var k := if from < Head(rows) then Head(rows) else from;
            |PendingIds(rows, from)| == |rows| - k
            && forall i :: 0 <= i < |rows| - k ==> PendingIds(rows, from)[i] == k + i
    decreases |rows| - from
  {
    hide Shape;
    if from < |rows| {
      PendingIdsOfShape(rows, from + 1);
      PendingFromHead(rows, from);
    }
  }

  /** The rows one flush selects. */
  function Batch(rows: seq<Row>): seq<nat> {
    var pending := PendingIds(rows, 0);
    if |pending| > BATCH then pending[..BATCH] else pending
  }

  lemma BatchStartsAtHead(rows: seq<Row>)
    requires Shape(rows)
    ensures |Batch(rows)| == BatchSize(rows) <= |rows| - Head(rows)
    ensures forall i :: 0 <= i < |Batch(rows)| ==> Batch(rows)[i] == Head(rows) + i
  {
    hide Shape, PendingIds;
    PendingIdsOfShape(rows, 0);
  }

  lemma PendingFromHead(rows: seq<Row>, i: nat)
    requires Shape(rows) && i < |rows|
    ensures rows[i].status == PENDING <==> i >= Head(rows)
  {
  }

  /** Nobody else sends: one flush runs at a time. */
  predicate Quiet(steps: seq<Step>) {
    forall i :: 0 <= i < |steps| ==> !steps[i].Request?
  }

  lemma {:induction false} QuietKeepsRows(w: World, steps: seq<Step>)
    requires Shape(w.rows) && Quiet(steps)
    ensures var v := Run(w, steps);
            && Shape(v.rows) && |v.rows| >= |w.rows| && Head(v.rows) == Head(w.rows)
            && forall i :: 0 <= i < |w.rows| ==> v.rows[i] == w.rows[i]
  {
    hide Shape, Head;
    if steps != [] {
      QuietKeepsRows(w, Front(steps));
      if Last(steps).Enqueue? {
        EnqueueKeepsShape(Run(w, Front(steps)).rows, Last(steps).action);
      }
    }
  }

  /** One turn of a flush: where it leaves the rows, and the rest of the flush. */
  lemma FlushedTurn(w: World, turns: seq<Turn>, left: nat, sent: nat)
    requires Shape(w.rows) && Head(w.rows) < |w.rows| && left > 0 && Quiet(TurnAt(turns, sent).meanwhile)
    ensures var k, turn := Head(w.rows), TurnAt(turns, sent);
            var next := Send(w, k, turn.net);
            var after := Run(next, turn.meanwhile);
            && Shape(after.rows) && |after.rows| >= |w.rows|
            && (forall i :: k < i < |w.rows| ==> after.rows[i] == w.rows[i])
            && (next.rows[k].status == SENT <==> Reaches(w, k, turn.net) && turn.net.Delivered?)
            && (if next.rows[k].status == SENT
                then Head(after.rows) == k + 1
                    && Flushed(w, turns, left, sent) == Flushed(after, turns, left - 1, sent + 1)
                else Flushed(w, turns, left, sent) == Flush(after, sent, 1))
  {
    hide Shape, Head, Run, Quiet, Accepts, Accepted;
    SendKeepsShape(w, TurnAt(turns, sent).net);
    QuietKeepsRows(Send(w, Head(w.rows), TurnAt(turns, sent).net), TurnAt(turns, sent).meanwhile);
  }

  /** A flush sends at most what is left of its batch, and all of it unless one request fails. */
  lemma {:induction false} FlushCounts(w: World, turns: seq<Turn>, left: nat, sent: nat)
    requires Shape(w.rows) && Head(w.rows) + left <= |w.rows|
    requires forall i :: 0 <= i < |turns| ==> Quiet(turns[i].meanwhile)
    ensures var f := Flushed(w, turns, left, sent);
            && f.failed <= 1 && sent <= f.sent && f.sent + f.failed <= sent + left
            && (f.failed == 0 ==> f.sent == sent + left)
    decreases left
  {
    hide Shape, Head, Run, Quiet, Flushed, Send;
    if left == 0 {
      FlushedEnd(w, turns, sent);
    } else {
      assert Quiet(TurnAt(turns, sent).meanwhile) by { NothingIsQuiet(); }
      FlushedTurn(w, turns, left, sent);
      var next := Send(w, Head(w.rows), TurnAt(turns, sent).net);
      if next.rows[Head(w.rows)].status == SENT {
        FlushCounts(Run(next, TurnAt(turns, sent).meanwhile), turns, left - 1, sent + 1);
      }
    }
  }

  /** One flush makes at most fifty requests, and if none fails it makes one for each pending row up to fifty. */
  lemma FlushMakesFiftyRequests(w: World, turns: seq<Turn>)
    requires Shape(w.rows) && forall i :: 0 <= i < |turns| ==> Quiet(turns[i].meanwhile)
    ensures var f, pending := FlushOnce(w, turns), |w.rows| - Head(w.rows);
            && f.sent + f.failed <= 50 && f.failed <= 1
            && (f.failed == 0 ==> f.sent == if pending > 50 then 50 else pending)
  {
    hide Shape, Head, Flushed, Quiet;
    FlushCounts(w, turns, BatchSize(w.rows), 0);
  }

  lemma FlushedEnd(w: World, turns: seq<Turn>, sent: nat)
    ensures Flushed(w, turns, 0, sent) == Flush(w, sent, 0)
  {
  }

  class OutboxDb {
    var rows: seq<Row>

    predicate Valid()
      reads this
    {
      Shape(rows)
    }

    constructor ()
      ensures Valid() && rows == []
    {
      rows := [];
    }

    method Enqueue(action: Action)
      requires Valid()
      modifies this
      ensures Valid() && rows == old(rows) + [Row(action, 0, PENDING)]
    {
      EnqueueKeepsShape(rows, action);
      rows := rows + [Row(action, 0, PENDING)];
    }

    /** The loop over the batch it selected first. The server and its history are threaded through, and while a
        request is on its way rows may be enqueued and orders moved. */
    method FlushOutbox(server: Server, history: seq<Entry>, turns: seq<Turn>)
      returns (after: Server, after': seq<Entry>, sent: nat, failed: nat)
      requires Valid() && forall i :: 0 <= i < |turns| ==> Quiet(turns[i].meanwhile)
      modifies this
      ensures Valid()
      ensures Flush(World(rows, after, after'), sent, failed) == FlushOnce(World(old(rows), server, history), turns)
    {
      hide Shape, Head, Batch, BatchSize, Run, Quiet, Flushed, Accepts, Accepted;
      after, after', sent, failed := server, history, 0, 0;
      var selected := rows;
      var batch := Batch(selected);
      BatchStartsAtHead(selected);
      ghost var first := Head(selected);
      for i := 0 to |batch|
        invariant sent == i && failed == 0
        invariant Shape(rows) && |rows| >= |selected| && Head(rows) == first + i
        invariant forall k :: first + i <= k < |selected| ==> rows[k] == selected[k]
        invariant FlushOnce(World(old(rows), server, history), turns)
                  == Flushed(World(rows, after, after'), turns, |batch| - i, i)
      {
        var id := batch[i];
        ghost var w := World(rows, after, after');
        var turn := TurnAt(turns, i);
        assert Quiet(turn.meanwhile) by { NothingIsQuiet(); }
        FlushedTurn(w, turns, |batch| - i, i);
        var row := selected[id];
        var reached := !turn.net.RequestLost? && Accepts(after, row.action);
        if reached {
          after, after' := Accepted(after, row.action), after' + [ByRow(id, row.action, turn.net.Delivered?)];
        }
        if reached && turn.net.Delivered? {
          rows := rows[id := row.(status := SENT)];
          sent := sent + 1;
        } else {
          var attempts := row.attempts + 1;
          rows := rows[id := row.(attempts := attempts, status := if attempts >= MAX_ATTEMPTS then DEAD else PENDING)];
          failed := failed + 1;
        }
        assert World(rows, after, after') == Send(w, id, turn.net);
        var others := Run(World(rows, after, after'), turn.meanwhile);
        rows, after, after' := others.rows, others.server, others.history;
        if failed > 0 {
          return;
        }
      }
      FlushedEnd(World(rows, after, after'), turns, sent);
    }
  }

  lemma NothingIsQuiet()
    ensures Quiet([])
  {
  }

  // --- The server is the fold of its history ----------------------------------

  function Observed(s: Server, e: Entry): Server {
    match e
    case ByRow(_, a, _) => if Accepts(s, a) then Accepted(s, a) else s
    case ByOther(o, status) => s.(status := s.status[o := status])
  }

  /** The server's state from its history alone. */
  function Replayed(s: Server, history: seq<Entry>): Server {
    if history == [] then s else Observed(Replayed(s, Front(history)), Last(history))
  }

  lemma ReplayedAppend(s: Server, history: seq<Entry>, e: Entry)
    ensures Replayed(s, history + [e]) == Observed(Replayed(s, history), e)
  {
    assert Front(history + [e]) == history;
  }

  /** In every run the server is the fold of its history. */
  lemma {:induction false} RunIsReplayed(server: Server, steps: seq<Step>)
    ensures var w := Run(World([], server, []), steps); w.server == Replayed(server, w.history)
  {
    if steps != [] {
      hide Replayed, Head, Accepts, Accepted;
      RunIsReplayed(server, Front(steps));
      var w := Run(World([], server, []), Front(steps));
      match Last(steps)
      case Request(net) =>
        var k := Head(w.rows);
        if k < |w.rows| {
          ReplayedAppend(server, w.history, ByRow(k, w.rows[k].action, net.Delivered?));
        }
      case Other(o, status) => ReplayedAppend(server, w.history, ByOther(o, status));
      case _ =>
    } else {
      assert Replayed(server, []) == server;
    }
  }

  // --- What is recorded --------------------------------------------------------

  predicate IsMoveEntry(e: Entry) {
    e.ByRow? && IsMove(e.action)
  }

  /** Applied moves appear in the order their rows were enqueued, each at most once. */
  predicate InEnqueueOrder(history: seq<Entry>) {
    forall i, j :: 0 <= i < j < |history| && IsMoveEntry(history[i]) && IsMoveEntry(history[j]) ==>
      history[i].row < history[j].row
  }

  predicate Applied(history: seq<Entry>, k: nat) {
    exists i :: 0 <= i < |history| && history[i].ByRow? && history[i].row == k
  }

  /** The reply to some accepted request of this row arrived. */
  predicate Answered(history: seq<Entry>, k: nat) {
    exists i :: 0 <= i < |history| && history[i].ByRow? && history[i].row == k && history[i].answered
  }

  /** Entries are about rows up to the head, and only a tried head can already be applied. */
  ghost predicate Placed(w: World) {
    forall i :: 0 <= i < |w.history| && w.history[i].ByRow? ==>
      var k := w.history[i].row;
      k <= Head(w.rows) && k < |w.rows| && w.history[i].action == w.rows[k].action
      && (k == Head(w.rows) ==> w.rows[k].attempts > 0)
  }

  /** A row is SENT exactly when the reply to an accepted request of it arrived. */
  ghost predicate SentIffAnswered(w: World) {
    forall k :: 0 <= k < |w.rows| ==> (w.rows[k].status == SENT <==> Answered(w.history, k))
  }

  /** What every run keeps, disturbed or not. */
  ghost predicate Recorded(w: World) {
    Shape(w.rows) && Placed(w) && SentIffAnswered(w)
  }

  /** A move that waits for its retry after being applied. */
  ghost predicate HeadApplied(w: World) {
    var k := Head(w.rows);
    k < |w.rows| && Applied(w.history, k) && IsMove(w.rows[k].action)
  }

  lemma AnsweredAppend(history: seq<Entry>, e: Entry, k: nat)
    ensures Answered(history + [e], k) <==> Answered(history, k) || (e.ByRow? && e.row == k && e.answered)
  {
    if Answered(history, k) {
      var i :| 0 <= i < |history| && history[i].ByRow? && history[i].row == k && history[i].answered;
      assert (history + [e])[i] == history[i];
    }
    if e.ByRow? && e.row == k && e.answered {
      assert (history + [e])[|history|] == e;
    }
  }

  lemma SendKeepsPlaced(w: World, net: Net)
    requires Shape(w.rows) && Placed(w) && Head(w.rows) < |w.rows|
    ensures var k := Head(w.rows);
            var next := Send(w, k, net);
            Placed(next) && (next.rows[k].status == SENT ==> !HeadApplied(next))
  {
    SendKeepsShape(w, net);
  }

  lemma SendKeepsSentIffAnswered(w: World, net: Net)
    requires SentIffAnswered(w) && Head(w.rows) < |w.rows|
    ensures SentIffAnswered(Send(w, Head(w.rows), net))
  {
    hide Answered, Accepts, Accepted;
    var k := Head(w.rows);
    var next := Send(w, k, net);
    forall i | 0 <= i < |next.rows|
      ensures next.rows[i].status == SENT <==> Answered(next.history, i)
    {
      AnsweredAppend(w.history, ByRow(k, w.rows[k].action, net.Delivered?), i);
    }
  }

  lemma OrderAfter(w: World, k: nat, answered: bool)
    requires Shape(w.rows) && Placed(w) && k == Head(w.rows) < |w.rows|
    ensures InEnqueueOrder(w.history + [ByRow(k, w.rows[k].action, answered)])
            <==> InEnqueueOrder(w.history) && !HeadApplied(w)
  {
    var longer := w.history + [ByRow(k, w.rows[k].action, answered)];
    assert forall i :: 0 <= i < |w.history| ==> longer[i] == w.history[i];
    if HeadApplied(w) {
      var i :| 0 <= i < |w.history| && w.history[i].ByRow? && w.history[i].row == k;
      assert IsMoveEntry(longer[i]) && IsMoveEntry(longer[|w.history|]);
    }
  }

  /** One request keeps the record; it breaks the order of moves exactly when it applies a move a second time. */
  lemma SendKeepsRecorded(w: World, net: Net)
    requires Recorded(w) && Head(w.rows) < |w.rows|
    ensures var k := Head(w.rows);
            var next := Send(w, k, net);
            && Recorded(next)
            && (InEnqueueOrder(next.history) <==> InEnqueueOrder(w.history) && (HeadApplied(w) ==> !Reaches(w, k, net)))
            && (next.rows[k].status == SENT ==> !HeadApplied(next))
  {
    hide Shape, Placed, SentIffAnswered, HeadApplied, InEnqueueOrder, Head;
    SendKeepsShape(w, net);
    SendKeepsPlaced(w, net);
    SendKeepsSentIffAnswered(w, net);
    OrderAfter(w, Head(w.rows), net.Delivered?);
  }

  lemma EnqueueKeepsRecorded(w: World, a: Action)
    requires Recorded(w)
    ensures Recorded(Next(w, Enqueue(a))) && (HeadApplied(Next(w, Enqueue(a))) <==> HeadApplied(w))
  {
    hide Answered;
    EnqueueKeepsShape(w.rows, a);
    var next := Next(w, Enqueue(a));
    assert !Answered(w.history, |w.rows|) by {
      UnheardOf(w, |w.rows|);
    }
  }

  lemma UnheardOf(w: World, k: nat)
    requires Placed(w) && k >= |w.rows|
    ensures !Answered(w.history, k) && !Applied(w.history, k)
  {
  }

  lemma OtherKeepsRecorded(w: World, o: OrderId, status: Status)
    requires Recorded(w)
    ensures var next := Next(w, Other(o, status));
            && Recorded(next) && (InEnqueueOrder(next.history) <==> InEnqueueOrder(w.history))
            && (HeadApplied(next) <==> HeadApplied(w))
  {
    hide Answered, Shape, Head;
    var next := Next(w, Other(o, status));
    assert forall i :: 0 <= i < |w.history| ==> next.history[i] == w.history[i];
    forall k | 0 <= k < |w.rows|
      ensures Answered(next.history, k) <==> Answered(w.history, k)
    {
      AnsweredAppend(w.history, ByOther(o, status), k);
    }
    if Head(w.rows) < |w.rows| && Applied(w.history, Head(w.rows)) {
      var i :| 0 <= i < |w.history| && w.history[i].ByRow? && w.history[i].row == Head(w.rows);
      assert next.history[i] == w.history[i];
    }
  }

  // --- Exactly when each move is applied at most once --------------------------

  /** A retry of an applied move that gets through finds the server refusing it. */
  ghost predicate RetryIsRefused(w: World, step: Step) {
    step.Request? && HeadApplied(w) && !step.net.RequestLost? ==> !Accepts(w.server, w.rows[Head(w.rows)].action)
  }

  ghost predicate RetriesAreRefused(w: World, steps: seq<Step>) {
    steps == [] || (RetriesAreRefused(w, Front(steps)) && RetryIsRefused(Run(w, Front(steps)), Last(steps)))
  }

  lemma RequestKeepsRecorded(w: World, net: Net)
    requires Recorded(w)
    ensures var next := Next(w, Request(net));
            && Recorded(next)
            && (InEnqueueOrder(next.history) <==> InEnqueueOrder(w.history) && RetryIsRefused(w, Request(net)))
  {
    hide Recorded, InEnqueueOrder, Applied, Accepts, Accepted, Head;
    if Head(w.rows) < |w.rows| {
      SendKeepsRecorded(w, net);
    }
  }

  lemma StepKeepsRecorded(w: World, step: Step)
    requires Recorded(w)
    ensures Recorded(Next(w, step))
    ensures InEnqueueOrder(Next(w, step).history) <==> InEnqueueOrder(w.history) && RetryIsRefused(w, step)
  {
    hide Recorded, InEnqueueOrder, Applied, Accepts, Accepted, Head, Send;
    match step
    case Request(net) => RequestKeepsRecorded(w, net);
    case Enqueue(a) => EnqueueKeepsRecorded(w, a);
    case Other(o, status) => OtherKeepsRecorded(w, o, status);
  }

  lemma NothingIsRecorded(server: Server)
    ensures Recorded(World([], server, [])) && InEnqueueOrder([]) && !HeadApplied(World([], server, []))
  {
  }

  /** Over every run of requests, whatever other actors do between any two of them: moves are applied in enqueue order
      and each at most once exactly when the server refused every retry of a move it had applied. The key sent with the
      request plays no part. */
  lemma {:induction false} AtMostOnceIffRetriesRefused(server: Server, steps: seq<Step>)
    ensures Recorded(Run(World([], server, []), steps))
    ensures InEnqueueOrder(Run(World([], server, []), steps).history)
            <==> RetriesAreRefused(World([], server, []), steps)
  {
    hide Next, Recorded, InEnqueueOrder, RetryIsRefused, HeadApplied;
    if steps == [] {
      NothingIsRecorded(server);
    } else {
      AtMostOnceIffRetriesRefused(server, Front(steps));
      StepKeepsRecorded(Run(World([], server, []), Front(steps)), Last(steps));
    }
  }

  /** The same of flushes, with anything happening between them and between the requests of one. */
  lemma FlushesApplyAtMostOnce(server: Server, rounds: seq<Round>) returns (steps: seq<Step>)
    ensures var w := FlushAll(World([], server, []), rounds);
            && w == Run(World([], server, []), steps) && Recorded(w)
            && (InEnqueueOrder(w.history) <==> RetriesAreRefused(World([], server, []), steps))
  {
    hide Recorded, InEnqueueOrder, Run, FlushAll;
    steps := RoundsAreARun(World([], server, []), rounds);
    AtMostOnceIffRetriesRefused(server, steps);
  }

  // --- When nobody moves an order between the tries ----------------------------

  /** Other actors leave an order alone between the tries of a request that moves it. */
  predicate Undisturbed(w: World, step: Step) {
    step.Other? ==> !AwaitsRetry(w, step.o)
  }

  /** The order of a move that has been tried and not resolved yet. */
  predicate AwaitsRetry(w: World, o: OrderId) {
    var k := Head(w.rows);
    k < |w.rows| && w.rows[k].attempts > 0 && IsMove(w.rows[k].action) && w.rows[k].action.o == o
  }

  ghost predicate AlwaysUndisturbed(w: World, steps: seq<Step>) {
    steps == [] || (AlwaysUndisturbed(w, Front(steps)) && Undisturbed(Run(w, Front(steps)), Last(steps)))
  }

  /** A move that waits for its retry after being applied is refused from now on. */
  ghost predicate HeadRefused(w: World) {
    HeadApplied(w) ==> !Accepts(w.server, w.rows[Head(w.rows)].action)
  }

  lemma RequestKeepsRefused(w: World, net: Net)
    requires Recorded(w) && HeadRefused(w)
    ensures HeadRefused(Next(w, Request(net)))
  {
    hide Accepts, Accepted, Shape, SentIffAnswered;
    var k := Head(w.rows);
    if k < |w.rows| {
      SendKeepsShape(w, net);
      SendKeepsPlaced(w, net);
      if Reaches(w, k, net) && IsMove(w.rows[k].action) {
        AcceptedMoveIsRefusedNext(w.server, w.rows[k].action);
      }
    }
  }

  lemma EnqueueKeepsRefused(w: World, a: Action)
    requires Recorded(w) && HeadRefused(w)
    ensures HeadRefused(Next(w, Enqueue(a)))
  {
    hide Accepts, Shape, SentIffAnswered, Placed, Recorded, Applied;
    EnqueueKeepsRecorded(w, a);
    assert Recorded(w) ==> Shape(w.rows) by { RecordedShape(w); }
    EnqueueKeepsShape(w.rows, a);
  }

  lemma RecordedShape(w: World)
    requires Recorded(w)
    ensures Shape(w.rows) && Placed(w)
  {
  }

  lemma OtherKeepsRefused(w: World, o: OrderId, status: Status)
    requires Recorded(w) && HeadRefused(w) && Undisturbed(w, Other(o, status))
    ensures HeadRefused(Next(w, Other(o, status)))
  {
    hide Shape, SentIffAnswered;
    OtherKeepsRecorded(w, o, status);
  }

  lemma StepKeepsRefused(w: World, step: Step)
    requires Recorded(w) && HeadRefused(w) && Undisturbed(w, step)
    ensures HeadRefused(Next(w, step)) && RetryIsRefused(w, step)
  {
    hide Recorded, Next, HeadApplied, Accepts;
    match step
    case Request(net) => RequestKeepsRefused(w, net);
    case Enqueue(a) => EnqueueKeepsRefused(w, a);
    case Other(o, status) => OtherKeepsRefused(w, o, status);
  }

  lemma {:induction false} UndisturbedRetriesAreRefused(server: Server, steps: seq<Step>)
    requires AlwaysUndisturbed(World([], server, []), steps)
    ensures RetriesAreRefused(World([], server, []), steps) && HeadRefused(Run(World([], server, []), steps))
  {
    hide Next, Recorded, HeadRefused, RetryIsRefused, InEnqueueOrder, Undisturbed;
    if steps == [] {
      NothingIsRefused(server);
    } else {
      UndisturbedRetriesAreRefused(server, Front(steps));
      AtMostOnceIffRetriesRefused(server, Front(steps));
      StepKeepsRefused(Run(World([], server, []), Front(steps)), Last(steps));
    }
  }

  lemma NothingIsRefused(server: Server)
    ensures HeadRefused(World([], server, []))
  {
  }

  /** With requests and replies lost arbitrarily: each move is applied at most once, in enqueue order, a row is SENT
      exactly when the reply to an accepted request of it arrived, and the server is the fold of what was applied. */
  lemma MovesApplyAtMostOnce(server: Server, steps: seq<Step>)
    requires AlwaysUndisturbed(World([], server, []), steps)
    ensures var w := Run(World([], server, []), steps);
            && InEnqueueOrder(w.history)
            && (forall i :: 0 <= i < |w.history| && w.history[i].ByRow? ==>
                  w.history[i].row < |w.rows| && w.history[i].action == w.rows[w.history[i].row].action)
            && (forall k :: 0 <= k < |w.rows| ==> (w.rows[k].status == SENT <==> Answered(w.history, k)))
            && w.server == Replayed(server, w.history)
  {
    hide Run, Shape, InEnqueueOrder, Answered, RetriesAreRefused;
    UndisturbedRetriesAreRefused(server, steps);
    AtMostOnceIffRetriesRefused(server, steps);
    RunIsReplayed(server, steps);
  }

  // --- A lost reply ------------------------------------------------------------

  /** As long as retries are refused, a move that was applied is SENT exactly when the reply to that one request
      arrived. If it was lost, the row waits at the head to be refused again, or is DEAD; it is never reported as
      sent. */
  lemma AppliedWithoutReplyIsNeverSent(server: Server, steps: seq<Step>, i: nat)
    requires RetriesAreRefused(World([], server, []), steps)
    requires var w := Run(World([], server, []), steps); i < |w.history| && IsMoveEntry(w.history[i])
    ensures var w := Run(World([], server, []), steps);
            var e := w.history[i];
            && e.row < |w.rows| && (w.rows[e.row].status == SENT <==> e.answered)
            && (!e.answered ==>
                  w.rows[e.row].status == DEAD || (w.rows[e.row].status == PENDING && e.row == Head(w.rows)))
  {
    hide Run, Shape, RetriesAreRefused;
    AtMostOnceIffRetriesRefused(server, steps);
    var w := Run(World([], server, []), steps);
    var k := w.history[i].row;
    if Answered(w.history, k) {
      var j :| 0 <= j < |w.history| && w.history[j].ByRow? && w.history[j].row == k && w.history[j].answered;
      assert IsMoveEntry(w.history[j]);
    }
  }

  /** When another actor does move the order between the tries, one row can be applied twice. */
  lemma DisturbedMoveAppliesTwice(server: Server, o: OrderId)
    requires o in server.status && server.status[o] == ASSIGNED
    ensures var move := OrderTransition(o, ACCEPTED);
            var steps := [Enqueue(move)] + [Request(ReplyLost)] + [Other(o, ASSIGNED)] + [Request(ReplyLost)];
            Run(World([], server, []), steps).history
            == [ByRow(0, move, false), ByOther(o, ASSIGNED), ByRow(0, move, false)]
  {
    var move := OrderTransition(o, ACCEPTED);
    var w0 := World([], server, []);
    var w1 := Next(w0, Enqueue(move));
    var w2 := Next(w1, Request(ReplyLost));
    var w3 := Next(w2, Other(o, ASSIGNED));
    assert Run(w0, [Enqueue(move)] + [Request(ReplyLost)] + [Other(o, ASSIGNED)] + [Request(ReplyLost)])
           == Next(w3, Request(ReplyLost)) by {
      hide Next;
      RunSnoc(w0, [], Enqueue(move));
      assert [] + [Enqueue(move)] == [Enqueue(move)];
      RunSnoc(w0, [Enqueue(move)], Request(ReplyLost));
      RunSnoc(w0, [Enqueue(move)] + [Request(ReplyLost)], Other(o, ASSIGNED));
      RunSnoc(w0, [Enqueue(move)] + [Request(ReplyLost)] + [Other(o, ASSIGNED)], Request(ReplyLost));
    }
    hide Run;
    assert CanTransition(ASSIGNED, ACCEPTED);
    HeadIs(w1.rows, 0);
    HeadIs(w2.rows, 0);
  }

  // --- The outbox drains -------------------------------------------------------

  function Weight(row: Row): nat {
    if row.status == PENDING && row.attempts < MAX_ATTEMPTS then MAX_ATTEMPTS - row.attempts else 0
  }

  /** The attempts the pending rows still have. */
  function Remaining(rows: seq<Row>): nat {
    if rows == [] then 0 else Remaining(Front(rows)) + Weight(Last(rows))
  }

  lemma {:induction false} RemainingUpdate(rows: seq<Row>, k: nat, row: Row)
    requires k < |rows|
    ensures Remaining(rows[k := row]) + Weight(rows[k]) == Remaining(rows) + Weight(row)
  {
    var updated := rows[k := row];
    if k == |rows| - 1 {
      assert Front(updated) == Front(rows);
    } else {
      RemainingUpdate(Front(rows), k, row);
      assert Front(updated) == Front(rows)[k := row];
    }
  }

  lemma {:induction false} RemainingIsZeroIff(rows: seq<Row>)
    requires forall i :: 0 <= i < |rows| && rows[i].status == PENDING ==> rows[i].attempts < MAX_ATTEMPTS
    ensures Remaining(rows) == 0 <==> forall i :: 0 <= i < |rows| ==> rows[i].status != PENDING
    ensures Remaining(rows) <= MAX_ATTEMPTS * |rows|
  {
    if rows != [] {
      RemainingIsZeroIff(Front(rows));
      if Remaining(rows) != 0 && Weight(Last(rows)) == 0 {
        var i :| 0 <= i < |rows| - 1 && Front(rows)[i].status == PENDING;
        assert rows[i].status == PENDING;
      }
    }
  }

  /** The first `n` rows have attempts left just when the head is one of them. */
  lemma HeadAndRemaining(rows: seq<Row>, n: nat)
    requires Shape(rows) && n <= |rows|
    ensures Remaining(rows[..n]) == 0 <==> Head(rows) >= n
    ensures Remaining(rows[..n]) <= MAX_ATTEMPTS * n
  {
    RemainingIsZeroIff(rows[..n]);
    if Head(rows) < n {
      assert rows[..n][Head(rows)].status == PENDING;
    }
  }

  lemma HeadWeight(rows: seq<Row>)
    requires Shape(rows) && Head(rows) < |rows|
    ensures var row := rows[Head(rows)]; row.status == PENDING && row.attempts < MAX_ATTEMPTS
  {
  }

  /** No step gives the first `n` rows more attempts, and a request with its row among them uses up one or all of
      its. */
  lemma NextUsesAttempts(w: World, step: Step, n: nat)
    requires Shape(w.rows) && n <= |w.rows|
    ensures var v := Next(w, step);
            && n <= |v.rows| && Remaining(v.rows[..n]) <= Remaining(w.rows[..n])
            && (step.Request? && Head(w.rows) < n ==> Remaining(v.rows[..n]) < Remaining(w.rows[..n]))
  {
    hide Shape, Remaining, Head, Accepts, Accepted;
    var k := Head(w.rows);
    if step.Request? && k < n {
      var row := Tried(w.rows[k], Reaches(w, k, step.net) && step.net.Delivered?);
      HeadWeight(w.rows);
      RemainingUpdate(w.rows[..n], k, row);
      assert Next(w, step).rows[..n] == w.rows[..n][k := row];
    } else {
      assert Next(w, step).rows[..n] == w.rows[..n];
    }
  }

  lemma {:induction false} RunUsesAttempts(w: World, steps: seq<Step>, n: nat)
    requires Shape(w.rows) && n <= |w.rows|
    ensures n <= |Run(w, steps).rows| && Remaining(Run(w, steps).rows[..n]) <= Remaining(w.rows[..n])
  {
    if steps != [] {
      hide Shape, Remaining, Next;
      RunUsesAttempts(w, Front(steps), n);
      RunKeepsShape(w, Front(steps));
      NextUsesAttempts(Run(w, Front(steps)), Last(steps), n);
    }
  }

  /** A flush that finds one of the first `n` rows pending uses up at least one of their attempts. */
  lemma FlushUsesAttempts(w: World, turns: seq<Turn>, n: nat)
    requires Shape(w.rows) && n <= |w.rows|
    ensures var v := FlushOnce(w, turns).world;
            && Shape(v.rows) && n <= |v.rows| && Remaining(v.rows[..n]) <= Remaining(w.rows[..n])
            && (Head(w.rows) < n ==> Remaining(v.rows[..n]) < Remaining(w.rows[..n]))
  {
    hide Shape, Remaining, Head, Send, Run, Flushed;
    var left, turn := BatchSize(w.rows), TurnAt(turns, 0);
    var all := FlushIsARun(w, turns, left, 0);
    RunKeepsShape(w, all);
    RunUsesAttempts(w, all, n);
    if Head(w.rows) < n {
      var next := Next(w, Request(turn.net));
      NextKeepsShape(w, Request(turn.net));
      NextUsesAttempts(w, Request(turn.net), n);
      RunKeepsShape(next, turn.meanwhile);
      RunUsesAttempts(next, turn.meanwhile, n);
      var after := Run(next, turn.meanwhile);
      var rest := FlushIsARun(after, turns, left - 1, 1);
      RunUsesAttempts(after, rest, n);
      FlushStartsWithARequest(w, turns, left);
    }
  }

  lemma FlushStartsWithARequest(w: World, turns: seq<Turn>, left: nat)
    requires left > 0 && Head(w.rows) < |w.rows|
    ensures var after := Run(Next(w, Request(TurnAt(turns, 0).net)), TurnAt(turns, 0).meanwhile);
            var v := Flushed(w, turns, left, 0).world;
            v == after || v == Flushed(after, turns, left - 1, 1).world
  {
  }

  lemma {:induction false} FlushesUseAttempts(w: World, rounds: seq<Round>, n: nat)
    requires Shape(w.rows) && n <= |w.rows|
    ensures var v := FlushAll(w, rounds);
            && Shape(v.rows) && n <= |v.rows|
            && (Remaining(v.rows[..n]) == 0 || Remaining(v.rows[..n]) + |rounds| <= Remaining(w.rows[..n]))
  {
    if rounds != [] {
      hide Shape, Remaining, FlushOnce, Run, Head;
      FlushesUseAttempts(w, Front(rounds), n);
      var v := FlushAll(w, Front(rounds));
      RunKeepsShape(v, Last(rounds).before);
      RunUsesAttempts(v, Last(rounds).before, n);
      var u := Run(v, Last(rounds).before);
      FlushUsesAttempts(u, Last(rounds).turns, n);
      HeadAndRemaining(u.rows, n);
    }
  }

  /** On any network, and whatever is enqueued or moved in the meantime, eight flushes a row resolve the first `n` rows:
      each ends SENT, or DEAD after exactly eight attempts. */
  lemma OutboxDrains(w: World, rounds: seq<Round>, n: nat)
    requires Shape(w.rows) && n <= |w.rows| && |rounds| >= 8 * n
    ensures n <= |FlushAll(w, rounds).rows|
    ensures forall i :: 0 <= i < n ==>
              var row := FlushAll(w, rounds).rows[i];
              || (row.status == SENT && row.attempts < 8)
              || (row.status == DEAD && row.attempts == 8)
  {
    hide FlushAll, Remaining;
    FlushesUseAttempts(w, rounds, n);
    HeadAndRemaining(w.rows, n);
    HeadAndRemaining(FlushAll(w, rounds).rows, n);
  }

  /** Flushes with no network at all, and nothing else happening. */
  function Offline(n: nat): seq<Round> {
    seq(n, _ => Round([], []))
  }

  lemma OfflineFlush(w: World)
    requires Shape(w.rows) && Head(w.rows) < |w.rows|
    ensures FlushOnce(w, []).world == w.(rows := w.rows[Head(w.rows) := Tried(w.rows[Head(w.rows)], false)])
  {
    hide Head;
    HeadWeight(w.rows);
  }

  /** Each of them uses exactly one attempt, so no smaller number of flushes is enough for fresh rows. */
  lemma {:induction false} OfflineFlushes(w: World, n: nat)
    requires Shape(w.rows) && n <= Remaining(w.rows)
    ensures var v := FlushAll(w, Offline(n));
            && Shape(v.rows) && |v.rows| == |w.rows| && Remaining(v.rows) == Remaining(w.rows) - n
    decreases n
  {
    if n > 0 {
      hide Shape, Remaining, Head, FlushOnce;
      OfflineFlushes(w, n - 1);
      var v := FlushAll(w, Offline(n - 1));
      assert Front(Offline(n)) == Offline(n - 1);
      assert Run(v, []) == v;
      assert v.rows[..|v.rows|] == v.rows;
      HeadAndRemaining(v.rows, |v.rows|);
      HeadWeight(v.rows);
      RemainingUpdate(v.rows, Head(v.rows), Tried(v.rows[Head(v.rows)], false));
      FlushUsesAttempts(v, [], |v.rows|);
      OfflineFlush(v);
    }
  }

  lemma {:induction false} FreshRows(rows: seq<Row>)
    requires forall i :: 0 <= i < |rows| ==> rows[i].status == PENDING && rows[i].attempts == 0
    ensures Remaining(rows) == MAX_ATTEMPTS * |rows|
  {
    if rows != [] {
      FreshRows(Front(rows));
    }
  }

  lemma DrainBoundIsAttained(rows: seq<Row>, server: Server, n: nat)
    requires rows != [] && n < 8 * |rows|
    requires forall i :: 0 <= i < |rows| ==> rows[i].status == PENDING && rows[i].attempts == 0
    ensures var v := FlushAll(World(rows, server, []), Offline(n));
            |v.rows| == |rows| && Head(v.rows) < |rows| && v.rows[Head(v.rows)].status == PENDING
  {
    hide FlushAll, Remaining, Offline;
    var w := World(rows, server, []);
    FreshRows(rows);
    HeadIs(rows, 0);
    OfflineFlushes(w, n);
    var v := FlushAll(w, Offline(n));
    assert v.rows[..|rows|] == v.rows;
    HeadAndRemaining(v.rows, |rows|);
  }
}
