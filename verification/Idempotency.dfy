/** The idempotency interceptor for one (key, method, path): lookup, lock, unique row, handler, late persist. */
module Idempotency {
  import opened Wrappers
  import opened Sequences

  type RequestId = nat
  type Hash = nat // digest of the request body; only equality is used
  type Body = nat

  /** What the handler answered; a body of null or undefined is None. */
  datatype Response = Response(status: nat, body: Option<Body>)

  datatype Row = Row(hash: Hash, statusCode: Option<nat>, body: Option<Body>)

  /** What `prepare` decides. */
  datatype Prepared = Replay(status: nat, replayed: Body) | Proceed

  function OrElse(value: Option<nat>, default: nat): nat {
    if value.Some? then value.value else default
  }

  /** `statusCode || 201`. */
  function StoredStatus(status: nat): nat {
    if status == 0 then 201 else status
  }

  /** The stored row and the lock of one key, and the two operations that touch them. */
  class IdempotencyInterceptor {
    var row: Option<Row>
    var locked: bool

    constructor ()
      ensures row == None && !locked
    {
      row, locked := None, false;
    }

    /** Without interference: replay a finished run, refuse an unfinished or different one, claim a fresh key. */
    method Prepare(hash: Hash) returns (r: Result<Prepared>)
      modifies this
      ensures old(row).Some? ==> row == old(row) && locked == old(locked)
      ensures r.Ok? && r.value.Replay?
              <==> old(row).Some? && old(row).value.hash == hash && old(row).value.body.Some?
      ensures r.Ok? && r.value.Replay? ==>
                r.value == Replay(OrElse(old(row).value.statusCode, 200), old(row).value.body.value)
      ensures r == Ok(Proceed) <==> old(row).None? && !old(locked)
      ensures r == Ok(Proceed) ==> row == Some(Row(hash, None, None)) && locked
      ensures r.Err? ==> r.error == Conflict && row == old(row) && locked == old(locked)
    {
      if row.Some? {
        var existing := row.value;
        if existing.hash != hash {
          return Err(Conflict);
        }
        if existing.body.Some? {
          return Ok(Replay(OrElse(existing.statusCode, 200), existing.body.value));
        }
        return Err(Conflict);
      }
      var acquired := SetNx();
      if !acquired {
        return Err(Conflict);
      }
      row := Some(Row(hash, None, None));
      return Ok(Proceed);
    }

    method SetNx() returns (acquired: bool)
      modifies this`locked
      ensures locked && acquired == !old(locked)
    {
      acquired := !locked;
      locked := true;
    }

    method Persist(response: Response)
      requires row.Some?
      modifies this`row
      ensures row.Some? && row.value.hash == old(row).value.hash && row.value.body == response.body
      ensures row.value.statusCode == Some(if response.status == 0 then 201 else response.status)
    {
      row := Some(row.value.(statusCode := Some(StoredStatus(response.status)), body := response.body));
    }
  }

  // --- The protocol under interleaving ---------------------------------------

  datatype Phase =
    | Looking               // about to look the key up
    | Locking               // found no row
    | Creating              // holds, or held, the lock
    | Starting              // created the row
    | Running               // the handler has started
    | Persisting(response: Response) // answered; the row is still to be completed
    | Over                  // finished, refused, failed or crashed

  datatype Request = Request(hash: Hash, phase: Phase)

  datatype Answer = Answer(to: RequestId, hash: Hash, response: Response)

  /** The shared row and lock, the requests, and the history: who created the row, handler starts, answers. */
  datatype World = World(
    row: Option<Row>,
    locked: bool,
    requests: map<RequestId, Request>,
    owner: Option<RequestId>,
    starts: seq<RequestId>,
    answers: seq<Answer>
  )

  datatype Step =
    | Arrive(r: RequestId, hash: Hash)
    | Lookup(r: RequestId)
    | Lock(r: RequestId)
    | Create(r: RequestId)
    | Start(r: RequestId)
    | Return(r: RequestId, response: Response)
    | HandlerThrows(r: RequestId)
    | Persist(r: RequestId)
    | Crash(r: RequestId)
    | LockExpires
    | LockTaken // by another key that maps to the same lock name

  function Initial(): World {
    World(None, false, map[], None, [], [])
  }

  predicate InPhase(w: World, r: RequestId, phase: Phase) {
    r in w.requests && w.requests[r].phase == phase
  }

  function To(w: World, r: RequestId, phase: Phase): World
    requires r in w.requests
  {
    w.(requests := w.requests[r := w.requests[r].(phase := phase)])
  }

  function AfterLookup(w: World, r: RequestId): World
    requires InPhase(w, r, Looking)
  {
    var hash := w.requests[r].hash;
    if w.row.None? then To(w, r, Locking)
    else if w.row.value.hash == hash && w.row.value.body.Some? then
      var replayed := Response(OrElse(w.row.value.statusCode, 200), w.row.value.body);
      To(w, r, Over).(answers := w.answers + [Answer(r, hash, replayed)])
    else To(w, r, Over)
  }

  /** One step of one request or of the environment; a step whose moment has not come changes nothing. */
  function Next(w: World, step: Step): World {
    match step
    case Arrive(r, hash) => if r in w.requests then w else w.(requests := w.requests[r := Request(hash, Looking)])
    case Lookup(r) => if InPhase(w, r, Looking) then AfterLookup(w, r) else w
    case Lock(r) =>
      if !InPhase(w, r, Locking) then w
      else if w.locked then To(w, r, Over)
      else To(w, r, Creating).(locked := true)
    case Create(r) =>
      if !InPhase(w, r, Creating) then w
      else if w.row.Some? then To(w, r, Over)
      else To(w, r, Starting).(row := Some(Row(w.requests[r].hash, None, None)), owner := Some(r))
    case Start(r) => if InPhase(w, r, Starting) then To(w, r, Running).(starts := w.starts + [r]) else w
    case Return(r, response) =>
      if InPhase(w, r, Running) && response.status > 0
      then To(w, r, Persisting(response)).(answers := w.answers + [Answer(r, w.requests[r].hash, response)]) else w
    case HandlerThrows(r) => if InPhase(w, r, Running) then To(w, r, Over) else w
    case Persist(r) =>
      if r in w.requests && w.requests[r].phase.Persisting? && w.row.Some?
      then
        var response := w.requests[r].phase.response;
        var completed := w.row.value.(statusCode := Some(StoredStatus(response.status)), body := response.body);
        To(w, r, Over).(row := Some(completed))
      else w
    case Crash(r) => if r in w.requests then To(w, r, Over) else w
    case LockExpires => w.(locked := false)
    case LockTaken => w.(locked := true)
  }

  function Run(w: World, steps: seq<Step>): World {
    if steps == [] then w else Next(Run(w, Front(steps)), Last(steps))
  }

  lemma RunOne(w: World, step: Step)
    ensures Run(w, [step]) == Next(w, step)
  {
    assert Front([step]) == [];
    assert Last([step]) == step;
  }

  lemma RunSnoc(w: World, steps: seq<Step>, step: Step)
    ensures Run(w, steps + [step]) == Next(Run(w, steps), step)
  {
    assert Front(steps + [step]) == steps;
  }

  /** The four steps of `prepare` taken without interference do what the method does. */
  lemma PrepareAlone(w: World, r: RequestId, hash: Hash)
    requires r !in w.requests
    ensures var v := Next(Next(Next(Next(w, Arrive(r, hash)), Lookup(r)), Lock(r)), Create(r));
            && (w.row.Some? ==> v.row == w.row && v.locked == w.locked)
            && (v.answers != w.answers <==> w.row.Some? && w.row.value.hash == hash && w.row.value.body.Some?)
            && (v.answers != w.answers ==>
                  v.answers
                  == w.answers + [Answer(r, hash, Response(OrElse(w.row.value.statusCode, 200), w.row.value.body))])
            && (InPhase(v, r, Starting) <==> w.row.None? && !w.locked)
            && (InPhase(v, r, Starting) ==> v.row == Some(Row(hash, None, None)) && v.locked)
  {
    if w.row.Some? && w.row.value.hash == hash && w.row.value.body.Some? {
      var a := Answer(r, hash, Response(OrElse(w.row.value.statusCode, 200), w.row.value.body));
      assert |w.answers + [a]| != |w.answers|;
    }
  }

  // --- At most one run, and every answer is its answer -----------------------

  predicate Active(phase: Phase) {
    phase.Starting? || phase.Running? || phase.Persisting?
  }

  /** The row belongs to one request: only it is ever past `Creating`, and it alone has started the handler. */
  ghost predicate SingleOwner(w: World) {
    && (w.row.None? <==> w.owner.None?)
    && (w.owner.Some? ==> w.owner.value in w.requests && w.row.value.hash == w.requests[w.owner.value].hash)
    && (forall r :: r in w.requests && Active(w.requests[r].phase) ==>
          w.owner == Some(r) && w.starts == if w.requests[r].phase.Starting? then [] else [r])
    && (w.starts == [] || (w.owner.Some? && w.starts == [w.owner.value]))
  }

  /** Answers are equal, and go only to requests with the hash the row was created with. */
  ghost predicate AnswersAgree(w: World) {
    && (w.answers != [] ==> w.starts != [] && w.answers[0].to == w.starts[0] && w.answers[0].response.status > 0)
    && (forall i :: 0 <= i < |w.answers| ==>
          w.answers[i].response == w.answers[0].response && w.row.Some? && w.answers[i].hash == w.row.value.hash)
  }

  /** The row stores that answer, and none is out before the handler returned. */
  ghost predicate RowHoldsAnswer(w: World) {
    && (forall r :: r in w.requests && (w.requests[r].phase.Starting? || w.requests[r].phase.Running?) ==>
          w.answers == [] && w.row.Some? && w.row.value.body.None?)
    && (forall r :: r in w.requests && w.requests[r].phase.Persisting? ==>
          w.answers != [] && w.answers[0].response == w.requests[r].phase.response && w.row.Some?
          && w.row.value.body.None?)
    && (w.row.Some? && w.row.value.body.Some? ==>
          w.answers != [] && w.answers[0].response == Response(OrElse(w.row.value.statusCode, 200), w.row.value.body))
  }

  ghost predicate SingleAnswer(w: World) {
    AnswersAgree(w) && RowHoldsAnswer(w)
  }

  lemma NextKeepsSingleOwner(w: World, step: Step)
    requires SingleOwner(w)
    ensures SingleOwner(Next(w, step))
  {
  }

  lemma NextKeepsAnswersAgree(w: World, step: Step)
    requires SingleOwner(w) && SingleAnswer(w)
    ensures AnswersAgree(Next(w, step))
  {
  }

  lemma AnsweringKeepsRowHoldsAnswer(w: World, step: Step)
    requires SingleOwner(w) && SingleAnswer(w) && (step.Lookup? || step.Return?)
    ensures RowHoldsAnswer(Next(w, step))
  {
  }

  lemma StoringKeepsRowHoldsAnswer(w: World, step: Step)
    requires SingleOwner(w) && SingleAnswer(w) && (step.Create? || step.Persist?)
    ensures RowHoldsAnswer(Next(w, step))
  {
  }

  lemma NextKeepsRowHoldsAnswer(w: World, step: Step)
    requires SingleOwner(w) && SingleAnswer(w)
    ensures RowHoldsAnswer(Next(w, step))
  {
    if step.Lookup? || step.Return? {
      hide SingleOwner, SingleAnswer, RowHoldsAnswer, Next;
      AnsweringKeepsRowHoldsAnswer(w, step);
    } else if step.Create? || step.Persist? {
      hide SingleOwner, SingleAnswer, RowHoldsAnswer, Next;
      StoringKeepsRowHoldsAnswer(w, step);
    } else {
      hide SingleOwner, AnswersAgree;
    }
  }

  lemma {:induction false} ProtocolInvariant(steps: seq<Step>)
    ensures SingleOwner(Run(Initial(), steps)) && SingleAnswer(Run(Initial(), steps))
  {
    if steps != [] {
      hide Next, SingleOwner, AnswersAgree, RowHoldsAnswer;
      ProtocolInvariant(Front(steps));
      NextKeepsSingleOwner(Run(Initial(), Front(steps)), Last(steps));
      NextKeepsAnswersAgree(Run(Initial(), Front(steps)), Last(steps));
      NextKeepsRowHoldsAnswer(Run(Initial(), Front(steps)), Last(steps));
    }
  }

  /** Over every interleaving, with locks lost or stolen and requests crashing anywhere: the handler starts at most
      once, and every successful answer carries that run's status and body, to requests with that run's body hash. */
  lemma HandlerRunsAtMostOnce(steps: seq<Step>)
    ensures var w := Run(Initial(), steps);
            && |w.starts| <= 1
            && (w.answers != [] ==> w.starts != [] && w.answers[0].to == w.starts[0] && w.starts[0] in w.requests)
            && forall i :: 0 <= i < |w.answers| ==>
                 && w.answers[i].response == w.answers[0].response
                 && w.answers[i].hash == w.requests[w.starts[0]].hash
  {
    hide Next, Run;
    ProtocolInvariant(steps);
  }

  // --- When a key can still be answered --------------------------------------

  /** The row was claimed, holds no body, and nobody is left who will give it one. */
  ghost predicate DeadKey(w: World) {
    && w.row.Some? && w.row.value.body.None?
    && forall r :: r in w.requests && Active(w.requests[r].phase) ==>
         w.requests[r].phase.Persisting? && w.requests[r].phase.response.body.None?
  }

  lemma NextKeepsDeadKey(w: World, step: Step)
    requires DeadKey(w)
    ensures DeadKey(Next(w, step)) && Next(w, step).answers == w.answers
  {
  }

  lemma {:induction false} DeadKeyStaysSilent(w: World, steps: seq<Step>)
    requires DeadKey(w)
    ensures DeadKey(Run(w, steps)) && Run(w, steps).answers == w.answers
  {
    if steps != [] {
      hide Next;
      DeadKeyStaysSilent(w, Front(steps));
      NextKeepsDeadKey(Run(w, Front(steps)), Last(steps));
    }
  }

  lemma {:induction false} FreshRequest(w: World) returns (r: RequestId)
    ensures r !in w.requests
  {
    r := 0;
    var seen: set<RequestId> := {};
    while r in w.requests
      invariant seen <= w.requests.Keys && forall k :: k in seen ==> k < r
      decreases w.requests.Keys - seen
    {
      seen := seen + {r};
      r := r + 1;
    }
  }

  lemma {:induction false} RunConcat(w: World, a: seq<Step>, b: seq<Step>)
    ensures Run(w, a + b) == Run(Run(w, a), b)
    decreases |b|
  {
    hide Next;
    if b == [] {
      assert a + b == a;
    } else {
      assert Front(a + b) == a + Front(b);
      RunConcat(w, a, Front(b));
    }
  }

  /** A world in which a request with the stored hash would be replayed. */
  lemma ReplayArrives(w: World) returns (steps: seq<Step>)
    requires w.row.Some? && w.row.value.body.Some?
    ensures |Run(w, steps).answers| > |w.answers|
  {
    hide Run;
    var r := FreshRequest(w);
    steps := [Arrive(r, w.row.value.hash)] + [Lookup(r)];
    RunOne(w, Arrive(r, w.row.value.hash));
    RunSnoc(w, [Arrive(r, w.row.value.hash)], Lookup(r));
  }

  lemma RunningReturns(w: World, r: RequestId) returns (steps: seq<Step>)
    requires InPhase(w, r, Running)
    ensures |Run(w, steps).answers| > |w.answers|
  {
    hide Run;
    steps := [Return(r, Response(200, None))];
    RunOne(w, Return(r, Response(200, None)));
  }

  lemma StartingReturns(w: World, r: RequestId) returns (steps: seq<Step>)
    requires InPhase(w, r, Starting)
    ensures |Run(w, steps).answers| > |w.answers|
  {
    hide Run;
    RunOne(w, Start(r));
    var more := RunningReturns(Run(w, [Start(r)]), r);
    RunConcat(w, [Start(r)], more);
    steps := [Start(r)] + more;
  }

  lemma FreshKeyRuns(w: World) returns (steps: seq<Step>)
    requires w.row.None?
    ensures |Run(w, steps).answers| > |w.answers|
  {
    hide Run;
    var r := FreshRequest(w);
    var s1 := [Arrive(r, 0)];
    var s2 := s1 + [Lookup(r)];
    var s3 := s2 + [LockExpires];
    var s4 := s3 + [Lock(r)];
    var s5 := s4 + [Create(r)];
    RunOne(w, Arrive(r, 0));
    RunSnoc(w, s1, Lookup(r));
    RunSnoc(w, s2, LockExpires);
    RunSnoc(w, s3, Lock(r));
    RunSnoc(w, s4, Create(r));
    var more := StartingReturns(Run(w, s5), r);
    RunConcat(w, s5, more);
    steps := s5 + more;
  }

  lemma PersistingReplays(w: World, r: RequestId) returns (steps: seq<Step>)
    requires r in w.requests && w.requests[r].phase.Persisting? && w.requests[r].phase.response.body.Some?
             && w.row.Some?
    ensures |Run(w, steps).answers| > |w.answers|
  {
    hide Run;
    RunOne(w, Persist(r));
    var more := ReplayArrives(Run(w, [Persist(r)]));
    RunConcat(w, [Persist(r)], more);
    steps := [Persist(r)] + more;
  }

  /** A key can still be answered exactly when it is not dead. In particular a handler that threw, a crash before the
      row was completed, or an empty body make every later use of the key fail: none is retryable under that key. */
  lemma AnswerableIff(prefix: seq<Step>)
    ensures var w := Run(Initial(), prefix);
            (exists steps :: |Run(w, steps).answers| > |w.answers|) <==> !DeadKey(w)
  {
    var w := Run(Initial(), prefix);
    ProtocolInvariant(prefix);
    hide Next;
    if DeadKey(w) {
      forall steps
        ensures Run(w, steps).answers == w.answers
      {
        DeadKeyStaysSilent(w, steps);
      }
    } else if w.row.None? {
      var steps := FreshKeyRuns(w);
    } else if w.row.value.body.Some? {
      var steps := ReplayArrives(w);
    } else {
      var r :| r in w.requests && Active(w.requests[r].phase)
               && !(w.requests[r].phase.Persisting? && w.requests[r].phase.response.body.None?);
      if w.requests[r].phase.Starting? {
        var steps := StartingReturns(w, r);
      } else if w.requests[r].phase.Running? {
        var steps := RunningReturns(w, r);
      } else {
        var steps := PersistingReplays(w, r);
      }
    }
  }

  /** A throwing handler is one way to a dead key. */
  lemma FailedHandlerKillsKey(prefix: seq<Step>, r: RequestId)
    requires InPhase(Run(Initial(), prefix), r, Running)
    ensures DeadKey(Run(Initial(), prefix + [HandlerThrows(r)]))
  {
    ProtocolInvariant(prefix);
    RunSnoc(Initial(), prefix, HandlerThrows(r));
  }
}
