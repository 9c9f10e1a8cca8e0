/** Calls in flight together: each reads and checks first, and commits its transaction at some later moment. */
module TwoPhase {
  import opened Wrappers
  import opened Sequences
  import opened OrderStatus
  import opened Database
  import opened Orders
  import opened Assignment
  import opened Delivery
  import opened Commits
  import opened Calls
  import SerialRuns

  datatype Intent =
    | ToStatus(to: Status)
    | GiveTo(d: DriverId, mode: AssignmentMode)
    | TakeFrom(driver: DriverId)

  /** A call between its check and its transaction, holding the order row it read. */
  datatype InFlight = InFlight(o: OrderId, row: Order, intent: Intent)

  datatype State = State(db: Db, calls: map<nat, InFlight>)

  datatype Action =
    | ReadTransition(id: nat, o: OrderId, to: Status)
    | ReadAssign(id: nat, o: OrderId, wanted: Option<DriverId>, mode: AssignmentMode, nearest: Option<DriverId>)
    | ReadUnassign(id: nat, o: OrderId)
    | CommitCall(id: nat)
    | Whole(call: Call)  // a call nobody interfered with
    | Piece(c: Commit)   // one write of a longer workflow, such as an attempt row, a job or a payment

  datatype Step = Step(action: Action, now: nat)

  /** The writes that workflows make one by one outside any transaction. */
  predicate IsPiece(db: Db, c: Commit) {
    WellFormed(db, c) && !c.Insert? && !c.Move? && !c.Give? && !c.Take?
  }

  function CommitOf(p: InFlight): Commit {
    match p.intent
    case ToStatus(to) => Move(p.o, p.row.status, to)
    case GiveTo(d, mode) => Give(p.o, d, mode, p.row.driverId)
    case TakeFrom(driver) => Take(p.o, driver, p.row.status)
  }

  function WithCall(s: State, id: nat, o: OrderId, intent: Intent): State
    requires o in s.db.orders
  {
    if id in s.calls then s else s.(calls := s.calls[id := InFlight(o, s.db.orders[o], intent)])
  }

  function Next(s: State, step: Step): State {
    match step.action
    case ReadTransition(id, o, to) =>
      if TransitionError(s.db, o, to).Some? then s else WithCall(s, id, o, ToStatus(to))
    case ReadAssign(id, o, wanted, mode, nearest) =>
      var chosen := ChosenDriver(wanted, mode, nearest);
      if AssignError(s.db, o, chosen).Some? then s else WithCall(s, id, o, GiveTo(chosen.value, mode))
    case ReadUnassign(id, o) =>
      if UnassignError(s.db, o).Some? then s else WithCall(s, id, o, TakeFrom(s.db.orders[o].driverId.value))
    case CommitCall(id) =>
      if id !in s.calls then s
      else State(Apply(s.db, CommitOf(s.calls[id]), step.now), s.calls - {id})
    case Whole(call) => s.(db := CallOutcome(s.db, call, step.now).db)
    case Piece(c) => if IsPiece(s.db, c) then s.(db := Apply(s.db, c, step.now)) else s
  }

  function Run(s: State, steps: seq<Step>): State {
    if steps == [] then s else Next(Run(s, Front(steps)), Last(steps))
  }

  /** What the check established about the row it read. */
  predicate Checked(p: InFlight) {
    match p.intent
    case ToStatus(to) => CanTransition(p.row.status, to)
    case GiveTo(_, _) => Assignable(p.row.status)
    case TakeFrom(driver) => p.row.driverId == Some(driver)
  }

  predicate AllChecked(s: State) {
    forall id :: id in s.calls ==> Checked(s.calls[id])
  }

  lemma {:induction false} ChecksHold(db: Db, steps: seq<Step>)
    ensures AllChecked(Run(State(db, map[]), steps))
  {
    if steps != [] {
      ChecksHold(db, Front(steps));
    }
  }

  // --- What every interleaving keeps -----------------------------------------

  /** The tables are the fold of the log, statuses are the last logged, and transition events carry edges. */
  ghost predicate Sourced(db: Db) {
    Replayable(db) && Tracked(db) && EdgesInLog(db.log)
  }

  lemma CommitKeepsSourced(db: Db, c: Commit, now: nat)
    requires Sourced(db) && WellFormed(db, c)
    ensures Sourced(Apply(db, c, now))
  {
    hide Replayable, Tracked, EdgesInLog, Apply;
    KeepsReplayable(db, c, now);
    KeepsTracked(db, c, now);
    KeepsEdgesInLog(db, c, now);
  }

  lemma {:induction false} WritesKeepSourced(db: Db, cs: seq<Commit>, now: nat)
    requires Sourced(db) && AllUpToDate(db, cs, now)
    ensures Sourced(ApplyAll(db, cs, now))
    decreases |cs|
  {
    hide Sourced, Apply;
    if cs != [] {
      CommitKeepsSourced(db, cs[0], now);
      WritesKeepSourced(Apply(db, cs[0], now), cs[1..], now);
    }
  }

  lemma StepKeepsSourced(s: State, step: Step)
    requires Sourced(s.db) && AllChecked(s)
    ensures Sourced(Next(s, step).db)
  {
    hide Sourced, Apply, CallOutcome, Writes, AllUpToDate, ApplyAll;
    match step.action
    case CommitCall(id) =>
      if id in s.calls {
        assert Checked(s.calls[id]);
        CommitKeepsSourced(s.db, CommitOf(s.calls[id]), step.now);
      }
    case Whole(call) =>
      CallIsItsWrites(s.db, call, step.now);
      WritesKeepSourced(s.db, Writes(s.db, call, step.now), step.now);
    case Piece(c) =>
      if IsPiece(s.db, c) {
        CommitKeepsSourced(s.db, c, step.now);
      }
    case _ =>
  }

  /** Over every interleaving, stale commits included, the log still determines statuses, drivers and active orders. */
  lemma {:induction false} LogSourcesEveryInterleaving(db: Db, steps: seq<Step>)
    requires SerialRuns.Fresh(db)
    ensures Sourced(Run(State(db, map[]), steps).db)
  {
    hide Sourced, Next;
    if steps == [] {
      FreshIsSourced(db);
    } else {
      LogSourcesEveryInterleaving(db, Front(steps));
      ChecksHold(db, Front(steps));
      StepKeepsSourced(Run(State(db, map[]), Front(steps)), Last(steps));
    }
  }

  lemma FreshIsSourced(db: Db)
    requires SerialRuns.Fresh(db)
    ensures Sourced(db)
  {
    SerialRuns.FreshIsReplayable(db);
  }

  // --- Exactly when the log is a legal walk ----------------------------------

  /** The step moves its order, if at all, along an edge from the status it finds at commit time. */
  ghost predicate StepIsLegal(s: State, step: Step) {
    match step.action
    case CommitCall(id) => id in s.calls ==> LegalNow(s.db, CommitOf(s.calls[id]), step.now)
    case Whole(call) => AllLegal(s.db, Writes(s.db, call, step.now), step.now)
    case _ => true
  }

  ghost predicate RunIsLegal(s: State, steps: seq<Step>) {
    steps == [] || (RunIsLegal(s, Front(steps)) && StepIsLegal(Run(s, Front(steps)), Last(steps)))
  }

  lemma StepKeepsLegalLog(s: State, step: Step)
    requires Tracked(s.db) && AllChecked(s)
    ensures LegalLog(Next(s, step).db.log) <==> LegalLog(s.db.log) && StepIsLegal(s, step)
  {
    hide LegalLog, Tracked, Apply, CallOutcome, Writes, AllUpToDate, AllLegal, ApplyAll, LegalNow;
    match step.action
    case CommitCall(id) =>
      if id in s.calls {
        assert Checked(s.calls[id]);
        KeepsLegalLog(s.db, CommitOf(s.calls[id]), step.now);
      }
    case Whole(call) =>
      CallIsItsWrites(s.db, call, step.now);
      RunKeepsLegalLog(s.db, Writes(s.db, call, step.now), step.now);
    case Piece(c) =>
      if IsPiece(s.db, c) {
        KeepsLegalLog(s.db, c, step.now);
        PieceIsLegal(s.db, c, step.now);
      }
    case _ =>
  }

  lemma PieceIsLegal(db: Db, c: Commit, now: nat)
    requires IsPiece(db, c)
    ensures LegalNow(db, c, now)
  {
  }

  /** Over every interleaving the logs are legal walks exactly when each commit was legal from the status it found. */
  lemma {:induction false} LogIsLegalIffCommitsAre(db: Db, steps: seq<Step>)
    requires SerialRuns.Fresh(db)
    ensures LegalLog(Run(State(db, map[]), steps).db.log) <==> RunIsLegal(State(db, map[]), steps)
  {
    hide LegalLog, Sourced, Next, StepIsLegal;
    if steps == [] {
      SerialRuns.FreshIsReplayable(db);
    } else {
      LogIsLegalIffCommitsAre(db, Front(steps));
      ChecksHold(db, Front(steps));
      LogSourcesEveryInterleaving(db, Front(steps));
      SourcedIsTracked(Run(State(db, map[]), Front(steps)).db);
      StepKeepsLegalLog(Run(State(db, map[]), Front(steps)), Last(steps));
    }
  }

  lemma SourcedIsTracked(db: Db)
    requires Sourced(db)
    ensures Tracked(db) && Replayable(db)
  {
  }

  // --- Exactly when the log is truthful --------------------------------------

  ghost predicate StepTellsTruth(s: State, step: Step) {
    step.action.CommitCall? && step.action.id in s.calls ==>
      TellsTruth(s.db, CommitOf(s.calls[step.action.id]), step.now)
  }

  ghost predicate RunTellsTruth(s: State, steps: seq<Step>) {
    steps == [] || (RunTellsTruth(s, Front(steps)) && StepTellsTruth(Run(s, Front(steps)), Last(steps)))
  }

  lemma PieceTellsTruth(db: Db, c: Commit, now: nat)
    requires IsPiece(db, c)
    ensures TellsTruth(db, c, now)
  {
  }

  lemma {:induction false} WritesTellTruth(db: Db, cs: seq<Commit>, now: nat)
    requires Replayable(db) && AllUpToDate(db, cs, now)
    ensures Truthful(ApplyAll(db, cs, now).log) <==> Truthful(db.log)
    decreases |cs|
  {
    hide Replayable, Truthful, Apply;
    if cs != [] {
      KeepsReplayable(db, cs[0], now);
      KeepsTruthful(db, cs[0], now);
      WritesTellTruth(Apply(db, cs[0], now), cs[1..], now);
    }
  }

  lemma StepKeepsTruthful(s: State, step: Step)
    requires Replayable(s.db) && AllChecked(s)
    ensures Truthful(Next(s, step).db.log) <==> Truthful(s.db.log) && StepTellsTruth(s, step)
  {
    hide Replayable, Truthful, Apply, CallOutcome, Writes, AllUpToDate, ApplyAll, TellsTruth;
    match step.action
    case CommitCall(id) =>
      if id in s.calls {
        assert Checked(s.calls[id]);
        KeepsTruthful(s.db, CommitOf(s.calls[id]), step.now);
      }
    case Whole(call) =>
      CallIsItsWrites(s.db, call, step.now);
      WritesTellTruth(s.db, Writes(s.db, call, step.now), step.now);
    case Piece(c) =>
      if IsPiece(s.db, c) {
        KeepsTruthful(s.db, c, step.now);
        PieceTellsTruth(s.db, c, step.now);
      }
    case _ =>
  }

  /** Over every interleaving the log misstates the past exactly when some commit recorded a from-status or a previous
      driver that was no longer current. */
  lemma {:induction false} LogIsTruthfulIffRecordedPastWasCurrent(db: Db, steps: seq<Step>)
    requires SerialRuns.Fresh(db)
    ensures Truthful(Run(State(db, map[]), steps).db.log) <==> RunTellsTruth(State(db, map[]), steps)
  {
    hide Sourced, Next, StepTellsTruth;
    if steps == [] {
      assert Run(State(db, map[]), steps).db.log == [];
    } else {
      hide Truthful;
      LogIsTruthfulIffRecordedPastWasCurrent(db, Front(steps));
      ChecksHold(db, Front(steps));
      LogSourcesEveryInterleaving(db, Front(steps));
      SourcedIsTracked(Run(State(db, map[]), Front(steps)).db);
      StepKeepsTruthful(Run(State(db, map[]), Front(steps)), Last(steps));
    }
  }

  // --- Exactly when orders and drivers agree ---------------------------------

  /** The commit releases the driver the order has when it comes, not the one it had when it was read. */
  ghost predicate StepReleases(s: State, step: Step) {
    step.action.CommitCall? && step.action.id in s.calls ==>
      Releasing(s.db, CommitOf(s.calls[step.action.id]), step.now)
  }

  ghost predicate RunReleases(s: State, steps: seq<Step>) {
    steps == [] || (RunReleases(s, Front(steps)) && StepReleases(Run(s, Front(steps)), Last(steps)))
  }

  ghost predicate AgreesThroughout(s: State, steps: seq<Step>) {
    Agreement(Run(s, steps).db) && (steps == [] || AgreesThroughout(s, Front(steps)))
  }

  lemma PieceReleases(db: Db, c: Commit, now: nat)
    requires IsPiece(db, c)
    ensures Releasing(db, c, now)
  {
  }

  lemma StepKeepsAgreementIff(s: State, step: Step)
    requires Agreement(s.db) && AllChecked(s)
    ensures Agreement(Next(s, step).db) <==> StepReleases(s, step)
  {
    hide Agreement, Apply, CallOutcome, Writes, AllUpToDate, ApplyAll, Releasing;
    match step.action
    case CommitCall(id) =>
      if id in s.calls {
        assert Checked(s.calls[id]);
        KeepsAgreementIff(s.db, CommitOf(s.calls[id]), step.now);
      }
    case Whole(call) =>
      CallIsItsWrites(s.db, call, step.now);
      RunKeepsAgreement(s.db, Writes(s.db, call, step.now), step.now);
    case Piece(c) =>
      if IsPiece(s.db, c) {
        KeepsAgreementIff(s.db, c, step.now);
        PieceReleases(s.db, c, step.now);
      }
    case _ =>
  }

  /** Over every interleaving: orders and drivers agree all the way through exactly when each assignment and
      unassignment released the driver its order had at commit time. */
  lemma {:induction false} DriversAgreeIffCommitsRelease(db: Db, steps: seq<Step>)
    requires SerialRuns.Fresh(db)
    ensures AgreesThroughout(State(db, map[]), steps) <==> RunReleases(State(db, map[]), steps)
    ensures RunReleases(State(db, map[]), steps) ==> Agreement(Run(State(db, map[]), steps).db)
  {
    hide Agreement, Next, StepReleases;
    if steps == [] {
      SerialRuns.FreshIsReplayable(db);
    } else {
      DriversAgreeIffCommitsRelease(db, Front(steps));
      ChecksHold(db, Front(steps));
      if RunReleases(State(db, map[]), Front(steps)) {
        StepKeepsAgreementIff(Run(State(db, map[]), Front(steps)), Last(steps));
      }
    }
  }

  // --- Runs whose reads stay current -----------------------------------------

  /** At its commit a call finds what it read: its order's status, its order's driver, or both, as its writes use
      them. */
  predicate ReadsAreCurrent(s: State, step: Step) {
    step.action.CommitCall? && step.action.id in s.calls ==> UpToDate(s.db, CommitOf(s.calls[step.action.id]))
  }

  ghost predicate AlwaysCurrent(s: State, steps: seq<Step>) {
    steps == [] || (AlwaysCurrent(s, Front(steps)) && ReadsAreCurrent(Run(s, Front(steps)), Last(steps)))
  }

  /** The commit goes through: its rows exist and its driver is free. */
  predicate GoesThrough(s: State, step: Step) {
    && step.action.CommitCall? && step.action.id in s.calls
    && Target(s.db, CommitOf(s.calls[step.action.id]), step.now).Some?
  }

  /** What staleness the log shows and what it hides: a commit's reads are current exactly when what it records of the
      past is, and an assignment's order can still be assigned. */
  lemma CurrentIffTruthfulAndAssignable(s: State, step: Step)
    requires AllChecked(s) && GoesThrough(s, step)
    ensures var p := s.calls[step.action.id];
            ReadsAreCurrent(s, step)
            <==> StepTellsTruth(s, step) && (p.intent.GiveTo? ==> Assignable(s.db.orders[p.o].status))
  {
    assert Checked(s.calls[step.action.id]);
  }

  /** An unassign, whole or committing now, finds its order ASSIGNED. */
  predicate UnassignsFromAssigned(s: State, step: Step) {
    match step.action
    case CommitCall(id) => id in s.calls && s.calls[id].intent.TakeFrom? ==> s.calls[id].row.status == ASSIGNED
    case Whole(call) => SerialRuns.UnassignsFromAssigned(s.db, call)
    case _ => true
  }

  ghost predicate AlwaysUnassignsFromAssigned(s: State, steps: seq<Step>) {
    steps == []
    || (AlwaysUnassignsFromAssigned(s, Front(steps)) && UnassignsFromAssigned(Run(s, Front(steps)), Last(steps)))
  }

  lemma CurrentStepKeepsHeld(s: State, step: Step)
    requires SerialRuns.HeldOnlyOnceAccepted(s.db) && AllChecked(s) && ReadsAreCurrent(s, step)
    ensures SerialRuns.HeldOnlyOnceAccepted(Next(s, step).db)
  {
    hide SerialRuns.HeldOnlyOnceAccepted, Apply, CallOutcome, Writes, AllUpToDate, ApplyAll, UpToDate;
    match step.action
    case CommitCall(id) =>
      if id in s.calls {
        assert Checked(s.calls[id]);
        SerialRuns.KeepsHeldOnlyOnceAccepted(s.db, CommitOf(s.calls[id]), step.now);
      }
    case Whole(call) =>
      CallIsItsWrites(s.db, call, step.now);
      SerialRuns.RunKeepsHeldOnlyOnceAccepted(s.db, Writes(s.db, call, step.now), step.now);
    case Piece(c) =>
      if IsPiece(s.db, c) {
        SerialRuns.KeepsHeldOnlyOnceAccepted(s.db, c, step.now);
      }
    case _ =>
  }

  lemma CurrentStepReleases(s: State, step: Step)
    requires Agreement(s.db) && AllChecked(s) && ReadsAreCurrent(s, step)
    ensures Agreement(Next(s, step).db)
  {
    hide Agreement, Next, Releasing, UpToDate;
    StepKeepsAgreementIff(s, step);
    if step.action.CommitCall? && step.action.id in s.calls {
      CurrentIsReleasing(s.db, CommitOf(s.calls[step.action.id]), step.now);
    }
  }

  lemma CurrentStepIsLegalIff(s: State, step: Step)
    requires Agreement(s.db) && SerialRuns.HeldOnlyOnceAccepted(s.db) && AllChecked(s) && ReadsAreCurrent(s, step)
    ensures StepIsLegal(s, step) <==> UnassignsFromAssigned(s, step)
  {
    hide Agreement, SerialRuns.HeldOnlyOnceAccepted, SerialRuns.UnassignsFromAssigned, LegalNow, AllLegal, Writes;
    match step.action
    case CommitCall(id) =>
      if id in s.calls {
        assert Checked(s.calls[id]);
        var c := CommitOf(s.calls[id]);
        if c.Take? {
          SerialRuns.TakeIsLegalFromAssigned(s.db, c, step.now);
        } else {
          SerialRuns.OneWriteIsLegal(s.db, c, step.now);
        }
      }
    case Whole(call) => SerialRuns.CallIsLegalUnlessStrayUnassign(s.db, call, step.now);
    case _ =>
  }

  /** Over every interleaving in which no commit used a stale read, single writes of longer workflows falling anywhere:
      orders and drivers agree, and the logs are legal walks exactly when unassigns came from ASSIGNED. */
  lemma {:induction false} CurrentRunsAgree(db: Db, steps: seq<Step>)
    requires SerialRuns.Fresh(db) && AlwaysCurrent(State(db, map[]), steps)
    ensures var s := Run(State(db, map[]), steps);
            && Agreement(s.db) && SerialRuns.HeldOnlyOnceAccepted(s.db)
            && (LegalLog(s.db.log) <==> AlwaysUnassignsFromAssigned(State(db, map[]), steps))
  {
    hide Agreement, LegalLog, Next, StepIsLegal, UnassignsFromAssigned, ReadsAreCurrent, Sourced;
    if steps == [] {
      SerialRuns.FreshIsReplayable(db);
    } else {
      hide SerialRuns.HeldOnlyOnceAccepted;
      var before := Run(State(db, map[]), Front(steps));
      CurrentRunsAgree(db, Front(steps));
      ChecksHold(db, Front(steps));
      CurrentStepKeepsHeld(before, Last(steps));
      CurrentStepReleases(before, Last(steps));
      LogSourcesEveryInterleaving(db, Front(steps));
      SourcedIsTracked(before.db);
      StepKeepsLegalLog(before, Last(steps));
      CurrentStepIsLegalIff(before, Last(steps));
    }
  }

  // --- Runs of whole calls ---------------------------------------------------

  /** No workflow is taken apart: a single write of one has no service call of its own. */
  predicate WorkflowsRunWhole(steps: seq<Step>) {
    forall i :: 0 <= i < |steps| ==> !steps[i].action.Piece?
  }

  /** The service call a commit amounts to when its reads are current. */
  function AsCall(p: InFlight): Call {
    match p.intent
    case ToStatus(to) => Transition(p.o, to)
    case GiveTo(d, mode) => Assign(p.o, Some(d), mode, Some(d))
    case TakeFrom(_) => Unassign(p.o)
  }

  /** The calls in the order of their commits. */
  function Linearized(s: State, steps: seq<Step>): seq<SerialRuns.Step> {
    if steps == [] then []
    else
      var earlier, before, last := Linearized(s, Front(steps)), Run(s, Front(steps)), Last(steps);
      match last.action
      case CommitCall(id) =>
        if id in before.calls then earlier + [SerialRuns.Step(AsCall(before.calls[id]), last.now)] else earlier
      case Whole(call) => earlier + [SerialRuns.Step(call, last.now)]
      case _ => earlier
  }

  lemma CurrentCommitIsTheCall(db: Db, p: InFlight, now: nat)
    requires Checked(p) && UpToDate(db, CommitOf(p))
    ensures Apply(db, CommitOf(p), now) == CallOutcome(db, AsCall(p), now).db
  {
  }

  /** Linearizability: when no commit used a stale read and workflows run whole, the run leaves what the calls leave one
      at a time in commit order. */
  lemma {:induction false} CurrentRunsAreSerial(db: Db, steps: seq<Step>)
    requires AlwaysCurrent(State(db, map[]), steps) && WorkflowsRunWhole(steps)
    ensures Run(State(db, map[]), steps).db == SerialRuns.Run(db, Linearized(State(db, map[]), steps))
  {
    hide CallOutcome, Apply, Checked, UpToDate;
    if steps != [] {
      var s := State(db, map[]);
      CurrentRunsAreSerial(db, Front(steps));
      ChecksHold(db, Front(steps));
      var before, last, earlier := Run(s, Front(steps)), Last(steps), Linearized(s, Front(steps));
      match last.action
      case CommitCall(id) =>
        if id in before.calls {
          CurrentCommitIsTheCall(before.db, before.calls[id], last.now);
          SerialRuns.RunSnoc(db, earlier, SerialRuns.Step(AsCall(before.calls[id]), last.now));
        }
      case Whole(call) =>
        SerialRuns.RunSnoc(db, earlier, SerialRuns.Step(call, last.now));
      case _ =>
    }
  }

  // --- Attempt numbers -------------------------------------------------------

  /** A new attempt is numbered by a count that is still current when its row is written. */
  predicate CountIsCurrent(s: State, step: Step) {
    step.action.Piece? && step.action.c.AddAttempt? ==> UpToDate(s.db, step.action.c)
  }

  ghost predicate CountsAreCurrent(s: State, steps: seq<Step>) {
    steps == [] || (CountsAreCurrent(s, Front(steps)) && CountIsCurrent(Run(s, Front(steps)), Last(steps)))
  }

  lemma {:induction false} WritesKeepNumbered(db: Db, cs: seq<Commit>, now: nat)
    requires AllUpToDate(db, cs, now)
    ensures Numbered(ApplyAll(db, cs, now)) <==> Numbered(db)
    decreases |cs|
  {
    hide Apply, Numbered, UpToDate;
    if cs != [] {
      KeepsNumbered(db, cs[0], now);
      WritesKeepNumbered(Apply(db, cs[0], now), cs[1..], now);
    }
  }

  lemma StepKeepsNumbered(s: State, step: Step)
    ensures Numbered(Next(s, step).db) <==> Numbered(s.db) && CountIsCurrent(s, step)
  {
    hide Numbered, Apply, CallOutcome, Writes, AllUpToDate, ApplyAll, UpToDate;
    match step.action
    case CommitCall(id) =>
      if id in s.calls {
        KeepsNumbered(s.db, CommitOf(s.calls[id]), step.now);
      }
    case Whole(call) =>
      CallIsItsWrites(s.db, call, step.now);
      WritesKeepNumbered(s.db, Writes(s.db, call, step.now), step.now);
    case Piece(c) =>
      KeepsNumbered(s.db, c, step.now);
    case _ =>
  }

  /** Over every interleaving each order's attempts are numbered 1..n exactly when every count was current. */
  lemma {:induction false} NumberedIffCountsWereCurrent(db: Db, steps: seq<Step>)
    requires SerialRuns.Fresh(db)
    ensures Numbered(Run(State(db, map[]), steps).db) <==> CountsAreCurrent(State(db, map[]), steps)
  {
    hide Next, CountIsCurrent;
    if steps != [] {
      hide Numbered, SerialRuns.Fresh;
      NumberedIffCountsWereCurrent(db, Front(steps));
      StepKeepsNumbered(Run(State(db, map[]), Front(steps)), Last(steps));
    }
  }

  // --- What stale reads break ------------------------------------------------

  lemma RunSnoc(s: State, steps: seq<Step>, step: Step)
    ensures Run(s, steps + [step]) == Next(Run(s, steps), step)
  {
    assert Front(steps + [step]) == steps;
  }

  /** Two calls read the same order and then commit one after the other. */
  function Race(first: Action, second: Action): seq<Step> {
    [Step(first, 2)] + [Step(second, 3)] + [Step(CommitCall(1), 4)] + [Step(CommitCall(0), 5)]
  }

  lemma RunRace(s: State, first: Action, second: Action)
    ensures Run(s, Race(first, second))
            == Next(Next(Next(Next(s, Step(first, 2)), Step(second, 3)), Step(CommitCall(1), 4)),
                    Step(CommitCall(0), 5))
  {
    hide Next;
    var a, b, c, d := [Step(first, 2)], [Step(second, 3)], [Step(CommitCall(1), 4)], [Step(CommitCall(0), 5)];
    RunSnoc(s, [], Step(first, 2));
    assert [] + a == a;
    RunSnoc(s, a, Step(second, 3));
    RunSnoc(s, a + b, Step(CommitCall(1), 4));
    RunSnoc(s, a + b + c, Step(CommitCall(0), 5));
    assert Run(s, []) == s;
  }

  /** What the two reads have in hand, and what the commits then do with it. */
  lemma RaceCommits(db: Db, first: Action, second: Action, p: InFlight, q: InFlight)
    requires Next(State(db, map[]), Step(first, 2)) == State(db, map[0 := p])
    requires Next(State(db, map[0 := p]), Step(second, 3)) == State(db, map[0 := p, 1 := q])
    ensures Run(State(db, map[]), Race(first, second)).db == Apply(Apply(db, CommitOf(q), 4), CommitOf(p), 5)
  {
    hide Run, Race, Apply, Next;
    RunRace(State(db, map[]), first, second);
    var both := State(db, map[0 := p, 1 := q]);
    CommitIsApplied(both, 1, 4);
    CommitIsApplied(Next(both, Step(CommitCall(1), 4)), 0, 5);
  }

  lemma CommitIsApplied(s: State, id: nat, now: nat)
    requires id in s.calls
    ensures Next(s, Step(CommitCall(id), now)) == State(Apply(s.db, CommitOf(s.calls[id]), now), s.calls - {id})
  {
  }

  lemma TransitionsAreRead(db: Db, o: OrderId)
    requires o in db.orders && db.orders[o].status == PLACED
    ensures var p, q := InFlight(o, db.orders[o], ToStatus(ACCEPTED)), InFlight(o, db.orders[o], ToStatus(CANCELLED));
            && Next(State(db, map[]), Step(ReadTransition(0, o, ACCEPTED), 2)) == State(db, map[0 := p])
            && Next(State(db, map[0 := p]), Step(ReadTransition(1, o, CANCELLED), 3)) == State(db, map[0 := p, 1 := q])
  {
    assert CanTransition(PLACED, ACCEPTED) && CanTransition(PLACED, CANCELLED);
  }

  lemma CancelledThenAccepted(db: Db, o: OrderId)
    requires o in db.orders && db.orders[o].status == PLACED
    ensures var s := Run(State(db, map[]), Race(ReadTransition(0, o, ACCEPTED), ReadTransition(1, o, CANCELLED)));
            && s.db == Apply(Apply(db, Move(o, PLACED, CANCELLED), 4), Move(o, PLACED, ACCEPTED), 5)
            && o in s.db.orders && s.db.orders[o].status == ACCEPTED
            && s.db.log == db.log + [Event(o, EventType.Cancelled, Some(PLACED), Some(CANCELLED), Plain, 4),
                                     Event(o, StatusChanged, Some(PLACED), Some(ACCEPTED), Plain, 5)]
  {
    hide Run, Race, Next;
    TransitionsAreRead(db, o);
    RaceCommits(db, ReadTransition(0, o, ACCEPTED), ReadTransition(1, o, CANCELLED),
                InFlight(o, db.orders[o], ToStatus(ACCEPTED)), InFlight(o, db.orders[o], ToStatus(CANCELLED)));
  }

  /** A cancellation and an acceptance race: the cancelled order comes back to life, and the log shows it. */
  lemma CancelledOrderRevived(db: Db, o: OrderId)
    requires Tracked(db) && o in db.orders && db.orders[o].status == PLACED
    ensures var s := Run(State(db, map[]), Race(ReadTransition(0, o, ACCEPTED), ReadTransition(1, o, CANCELLED)));
            && o in s.db.orders && s.db.orders[o].status == ACCEPTED
            && s.db.log == db.log + [Event(o, EventType.Cancelled, Some(PLACED), Some(CANCELLED), Plain, 4),
                                     Event(o, StatusChanged, Some(PLACED), Some(ACCEPTED), Plain, 5)]
            && !LegalLog(s.db.log)
  {
    hide Run, LegalLog, Tracked, Race;
    CancelledThenAccepted(db, o);
    assert CanTransition(PLACED, CANCELLED) && CanTransition(PLACED, ACCEPTED) && !CanTransition(CANCELLED, ACCEPTED);
    var cancelled := Apply(db, Move(o, PLACED, CANCELLED), 4);
    KeepsTracked(db, Move(o, PLACED, CANCELLED), 4);
    KeepsLegalLog(cancelled, Move(o, PLACED, ACCEPTED), 5);
  }

  lemma AssignmentsAreRead(db: Db, o: OrderId, d: DriverId, e: DriverId)
    requires o in db.orders && db.orders[o].status == ACCEPTED
    ensures var p, q := InFlight(o, db.orders[o], GiveTo(d, MANUAL)), InFlight(o, db.orders[o], GiveTo(e, MANUAL));
            && Next(State(db, map[]), Step(ReadAssign(0, o, Some(d), MANUAL, None), 2)) == State(db, map[0 := p])
            && Next(State(db, map[0 := p]), Step(ReadAssign(1, o, Some(e), MANUAL, None), 3))
               == State(db, map[0 := p, 1 := q])
  {
  }

  /** Two dispatchers assign one order: both drivers end up with it as their active order. */
  lemma TwoDriversHoldOneOrder(db: Db, o: OrderId, d: DriverId, e: DriverId)
    requires o in db.orders && db.orders[o].status == ACCEPTED && db.orders[o].driverId.None?
    requires d != e && d in db.drivers && e in db.drivers
    requires db.drivers[d].activeOrderId.None? && db.drivers[e].activeOrderId.None?
    ensures var s := Run(State(db, map[]),
                         Race(ReadAssign(0, o, Some(d), MANUAL, None), ReadAssign(1, o, Some(e), MANUAL, None)));
            && o in s.db.orders && s.db.orders[o].driverId == Some(d)
            && d in s.db.drivers && e in s.db.drivers
            && s.db.drivers[d].activeOrderId == s.db.drivers[e].activeOrderId == Some(o)
            && !Agreement(s.db)
  {
    hide Run, Race, Next;
    var s0 := State(db, map[]);
    AssignmentsAreRead(db, o, d, e);
    RaceCommits(db, ReadAssign(0, o, Some(d), MANUAL, None), ReadAssign(1, o, Some(e), MANUAL, None),
                InFlight(o, db.orders[o], GiveTo(d, MANUAL)), InFlight(o, db.orders[o], GiveTo(e, MANUAL)));
    var s := Run(s0, Race(ReadAssign(0, o, Some(d), MANUAL, None), ReadAssign(1, o, Some(e), MANUAL, None)));
    assert s.db.drivers[e].activeOrderId == Some(o) && s.db.orders[o].driverId == Some(d);
  }

  /** An assignment is read, and then a cancellation goes through before it commits. */
  function Overtaking(o: OrderId, d: DriverId): seq<Step> {
    [Step(ReadAssign(0, o, Some(d), MANUAL, None), 2)] + [Step(Whole(Transition(o, CANCELLED)), 3)]
  }

  lemma CancellationOvertakes(db: Db, o: OrderId, d: DriverId)
    requires o in db.orders && db.orders[o].status == ACCEPTED && db.orders[o].driverId.None?
    ensures var p := InFlight(o, db.orders[o], GiveTo(d, MANUAL));
            var move := Move(o, ACCEPTED, CANCELLED);
            && WellFormed(db, move)
            && Next(State(db, map[]), Step(ReadAssign(0, o, Some(d), MANUAL, None), 2)) == State(db, map[0 := p])
            && Next(State(db, map[0 := p]), Step(Whole(Transition(o, CANCELLED)), 3))
               == State(Apply(db, move, 3), map[0 := p])
  {
    assert CanTransition(ACCEPTED, CANCELLED);
  }

  lemma OvertakenRun(db: Db, o: OrderId, d: DriverId)
    requires o in db.orders && db.orders[o].status == ACCEPTED && db.orders[o].driverId.None?
    ensures var p := InFlight(o, db.orders[o], GiveTo(d, MANUAL));
            var cancelled := Apply(db, Move(o, ACCEPTED, CANCELLED), 3);
            && Run(State(db, map[]), Overtaking(o, d)) == State(cancelled, map[0 := p])
            && Run(State(db, map[]), Overtaking(o, d) + [Step(CommitCall(0), 4)]).db
               == Apply(cancelled, Give(o, d, MANUAL, None), 4)
  {
    hide Next, Apply;
    var s0, first, second := State(db, map[]), Overtaking(o, d)[0], Overtaking(o, d)[1];
    CancellationOvertakes(db, o, d);
    RunSnoc(s0, [], first);
    assert [] + [first] == [first];
    RunSnoc(s0, [first], second);
    RunSnoc(s0, Overtaking(o, d), Step(CommitCall(0), 4));
    CommitIsApplied(Run(s0, Overtaking(o, d)), 0, 4);
  }

  /** The rows the two writes leave, and the reads of the second. */
  lemma GivenWhileCancelled(db: Db, o: OrderId, d: DriverId)
    requires o in db.orders && d in db.drivers
    requires db.orders[o].status == ACCEPTED && db.orders[o].driverId.None? && db.drivers[d].activeOrderId.None?
    ensures var give := Give(o, d, MANUAL, None);
            var s := Apply(db, Move(o, ACCEPTED, CANCELLED), 3);
            var t := Apply(s, give, 4);
            && o in s.orders && s.orders[o].status == CANCELLED
            && o in t.orders && t.orders[o].status == ASSIGNED && t.orders[o].driverId == Some(d)
            && Target(s, give, 4) == Some(ASSIGNED) && !UpToDate(s, give) && TellsTruth(s, give, 4)
            && TellsTruth(db, Move(o, ACCEPTED, CANCELLED), 3)
  {
  }

  /** An assignment and a cancellation race: the cancelled order ends up ASSIGNED by a commit that read a status no
      longer there, and nothing in the log is untrue. Only the status walk gives it away. */
  lemma CancelledOrderAssigned(db: Db, o: OrderId, d: DriverId)
    requires Replayable(db) && Tracked(db) && o in db.orders && d in db.drivers
    requires db.orders[o].status == ACCEPTED && db.orders[o].driverId.None? && db.drivers[d].activeOrderId.None?
    ensures var commit := Step(CommitCall(0), 4);
            var s := Run(State(db, map[]), Overtaking(o, d));
            var t := Run(State(db, map[]), Overtaking(o, d) + [commit]);
            && !ReadsAreCurrent(s, commit) && StepTellsTruth(s, commit)
            && o in t.db.orders && t.db.orders[o].status == ASSIGNED && t.db.orders[o].driverId == Some(d)
            && (Truthful(t.db.log) <==> Truthful(db.log)) && !LegalLog(t.db.log)
  {
    hide Next, Run, Overtaking, Apply, UpToDate, TellsTruth, Target, Truthful, Replayable, Tracked, LegalLog;
    OvertakenRun(db, o, d);
    GivenWhileCancelled(db, o, d);
    var move, give := Move(o, ACCEPTED, CANCELLED), Give(o, d, MANUAL, None);
    var cancelled := Apply(db, move, 3);
    assert CanTransition(ACCEPTED, CANCELLED) && !CanTransition(CANCELLED, ASSIGNED);
    KeepsReplayable(db, move, 3);
    KeepsTruthful(db, move, 3);
    KeepsTracked(db, move, 3);
    KeepsTruthful(cancelled, give, 4);
    KeepsLegalLog(cancelled, give, 4);
  }

  /** Two failures reported at once count the same earlier attempts and write the same number. */
  lemma RacingFailuresShareANumber(db: Db, o: OrderId, now: nat)
    requires o in db.orders && Failable(db.orders[o].status)
    ensures var attempt := FailedWrites(db, o, now)[0];
            var s := Run(State(db, map[]), [Step(Piece(attempt), now)] + [Step(Piece(attempt), now)]);
            !Numbered(s.db)
  {
    hide Next, Numbered, NumbersOf;
    var attempt := FailedWrites(db, o, now)[0];
    var s0, step := State(db, map[]), Step(Piece(attempt), now);
    assert [] + [step] == [step];
    RunSnoc(s0, [], step);
    RunSnoc(s0, [step], step);
    StepKeepsNumbered(Next(s0, step), step);
    NumbersAppend(db.attempts, attempt.attempt, o);
    AttemptIsWritten(s0, step);
  }

  lemma AttemptIsWritten(s: State, step: Step)
    requires step.action.Piece? && step.action.c.AddAttempt?
    ensures Next(s, step).db.attempts == s.db.attempts + [step.action.c.attempt]
  {
  }
}
