/**
 A run of the control plane that ends with an endpoint whose reclaims block every sweep: an endpoint is
 started, falls silent, and is reclaimed once, in vain.

 Each step is a lemma that gives the next world from the one before, so that none is computed twice.
 */
module BlockedReclaim {
  import opened Wrappers
  import opened ControlPlane
  import opened ControlPlaneInvariant
  import opened ControlPlaneRuns
  import opened ControlPlaneHistory
  import opened ControlPlaneSafety

  const ENROLLED := Node(NapCat, 0, None, None, false, false, None)
  const CONNECTED := Node(NapCat, 1, Some("session"), Some(3), false, false, None)
  const CREATED := Endpoint(Some(0), NapCat, 0, StoppedState, false)
  const STARTED := Endpoint(Some(0), NapCat, 1, RunningState, false)
  const START := Operation(0, 1, Start, UserKey("start"), Request(Start, 0, ""), Queued, None, 0, Some(WAITING), None,
                           4)
  const RECLAIM := Operation(0, 1, ReadContainerLogs, ReclaimKey(1),
                             Request(ReadContainerLogs, 1, "stale-telemetry-reclaim"), Queued, None, 0, Some(WAITING),
                             None, 8)
  const SEEN := Observation(7, Some(0), 1, "running")

  function Sent(op: Operation): Operation {
    op.(status := Running, node := Some(0), epoch := 1, progress := Some(DISPATCHING))
  }

  function Ended(op: Operation, status: OperationStatus): Operation { Sent(op).(status := status, progress := None) }

  function Waits(o: Id, action: Action, now: Time): Command {
    Command(o, 0, 0, 1, 1, action, Pending, 0, None, None, now)
  }

  function Held(c: Command, now: Time): Command { c.(status := Leased, attempts := 1, lease := Some(now + LEASE)) }

  function Answered(c: Command, status: CommandStatus, now: Time): Command {
    c.(status := status, resultAt := Some(now))
  }

  function Event(processed: bool, at: Time): OutboxEvent { OutboxEvent(processed, at, at) }

  /** The world is reachable at this time, with these tables, and only commands below `next` were issued. */
  ghost predicate At(w: World, now: Time, t: Tables, next: Id) {
    Reachable(w) && w.clock == now && w.tables == t && forall i :: i in w.log.issued ==> i.id < next
  }

  lemma GoesOn(w: World, now: Time, step: Step)
    requires Reachable(w) && Legal(w, now, step)
    ensures Reachable(Next(w, now, step)) && Next(w, now, step).clock == now
    ensures Next(w, now, step).tables == After(w, now, step)
  {
    ReachableStep(w, now, step);
  }

  /** A step that leaves the commands alone issues none. */
  lemma IssuesNone(w: World, now: Time, step: Step, next: Id)
    requires Reachable(w) && Legal(w, now, step) && forall i :: i in w.log.issued ==> i.id < next
    requires forall o :: o in After(w, now, step).commands ==> After(w, now, step).commands[o].id < next
    ensures forall i :: i in Next(w, now, step).log.issued ==> i.id < next
  {
    ReachableIsGood(w);
    LogIssues(w, now, step);
  }

  /** The tables once the node is connected; what else they hold is given. */
  function With(ep: Endpoint, operations: map<Id, Operation>, commands: map<Id, Command>, outbox: map<Id, OutboxEvent>,
      rows: map<Id, set<Observation>>): Tables
  {
    Tables(map[0 := CONNECTED], {}, map[0 := ep], operations, commands, outbox, rows)
  }

  lemma Created() returns (w: World)
    ensures At(w, 2, Tables(map[0 := ENROLLED], {}, map[0 := CREATED], map[], map[], map[], map[]), 0)
  {
    assert LegalRun(EMPTY, []) && Final(EMPTY, []) == EMPTY;
    var enroll, create := DoEnroll(0, NapCat), DoCreate(0, Some(0), NapCat);
    GoesOn(EMPTY, 1, enroll);
    var v := Next(EMPTY, 1, enroll);
    IssuesNone(EMPTY, 1, enroll, 0);
    GoesOn(v, 2, create);
    w := Next(v, 2, create);
    IssuesNone(v, 2, create, 0);
  }

  lemma Connected() returns (w: World)
    ensures At(w, 3, With(CREATED, map[], map[], map[], map[]), 0)
  {
    var v := Created();
    var step := DoHeartbeat(0, "session", [], map[]);
    GoesOn(v, 3, step);
    w := Next(v, 3, step);
    IssuesNone(v, 3, step, 0);
  }

  function StartAsked(): Tables { With(STARTED, map[0 := START], map[], map[0 := Event(false, 4)], map[]) }

  lemma Asked() returns (w: World)
    ensures At(w, 4, StartAsked(), 0)
  {
    var v := Connected();
    var m := Mutation(0, Start, 0, "start", "");
    var step := DoMutate(m, 0);
    GoesOn(v, 4, step);
    assert KeyMatches(v.tables, 0, UserKey("start")) == {} && LiveOperations(v.tables, 0) == {};
    w := Next(v, 4, step);
    IssuesNone(v, 4, step, 0);
  }

  function StartWaits(): Tables {
    With(STARTED, map[0 := Sent(START)], map[0 := Waits(0, Start, 5)], map[0 := Event(true, 4)], map[])
  }

  lemma StartDispatched()
    ensures Visible(StartAsked(), 0, 5) && Process(StartAsked(), Some(0), 0, 5).tables == StartWaits()
  {
  }

  /** A command waits on the node. */
  lemma Dispatched() returns (w: World)
    ensures At(w, 5, StartWaits(), 1)
  {
    var v := Asked();
    var step := DoProcess(Some(0), 0);
    GoesOn(v, 5, step);
    StartDispatched();
    w := Next(v, 5, step);
    IssuesNone(v, 5, step, 1);
  }

  function StartHeld(): Tables {
    With(STARTED, map[0 := Sent(START)], map[0 := Held(Waits(0, Start, 5), 6)], map[0 := Event(true, 4)], map[])
  }

  lemma StartLeased()
    ensures Claim(StartWaits(), 0, "session", false, None, Some(0), 6).tables == StartHeld()
  {
  }

  lemma Claimed() returns (w: World)
    ensures At(w, 6, StartHeld(), 1)
  {
    var v := Dispatched();
    var step := DoClaim(0, "session", false, None, Some(0));
    GoesOn(v, 6, step);
    StartLeased();
    w := Next(v, 6, step);
    IssuesNone(v, 6, step, 1);
  }

  function FirstCommand(): Command { Answered(Held(Waits(0, Start, 5), 6), Done, 7) }

  lemma Runs() returns (w: World)
    ensures At(w, 7, StartDone(), 1)
  {
    var v := Claimed();
    var step := DoResult(0, STARTS, OutcomeSucceeded, "running");
    GoesOn(v, 7, step);
    StartAnswered();
    w := Next(v, 7, step);
    IssuesNone(v, 7, step, 1);
  }

  const STARTS := Evidence(0, "session", 0, 0, 1, 1, 1)

  function StartDone(): Tables {
    With(STARTED, map[0 := Ended(START, Succeeded)], map[0 := FirstCommand()], map[0 := Event(true, 4)],
         map[0 := {SEEN}])
  }

  lemma StartAnswered()
    ensures RecordResult(StartHeld(), 0, STARTS, OutcomeSucceeded, "running", 7).tables == StartDone()
  {
    var s := StartHeld();
    assert Row(s, 0, 0, 0) && ResultFence(s, 0, 0, STARTS) && !(exists o :: o != 0 && Row(s, 0, 0, o));
    StartAccepted();
  }

  lemma StartAccepted()
    requires ResultFence(StartHeld(), 0, 0, STARTS)
    ensures AcceptResult(StartHeld(), 0, 0, STARTS, OutcomeSucceeded, "running", 7) == StartDone()
  {
    assert ObservationsOf(StartHeld(), 0) + {SEEN} == {SEEN};
    assert Observe(StartHeld(), 0, SEEN).observations == StartDone().observations;
  }

  function Operations(reclaim: Operation): map<Id, Operation> { map[0 := Ended(START, Succeeded), 1 := reclaim] }
  function Commands(reclaim: Command): map<Id, Command> { map[0 := FirstCommand(), 1 := reclaim] }
  function Events(processed: bool): map<Id, OutboxEvent> { map[0 := Event(true, 4), 1 := Event(processed, 8)] }

  function Reclaimed(): Tables {
    With(STARTED, Operations(RECLAIM), map[0 := FirstCommand()], Events(false), map[0 := {SEEN}])
  }

  lemma ReclaimIsDue()
    ensures ReclaimCandidate(StartDone(), 0, 45_000, 8) && Reclaim(StartDone(), 0, 1, 8).tables == Reclaimed()
  {
    var s := StartDone();
    assert LiveOperations(s, 0) == {} && ReclaimHistory(s, 0) == {} && KeyMatches(s, 0, ReclaimKey(1)) == {};
  }

  lemma Reclaiming() returns (w: World)
    ensures At(w, 8, Reclaimed(), 1)
  {
    var v := Runs();
    var step := DoReclaim(0, 45_000, 1);
    ReclaimIsDue();
    GoesOn(v, 8, step);
    w := Next(v, 8, step);
    IssuesNone(v, 8, step, 1);
  }

  function ReclaimWaits(): Tables {
    With(STARTED, Operations(Sent(RECLAIM)), Commands(Waits(1, ReadContainerLogs, 9)), Events(true), map[0 := {SEEN}])
  }

  lemma ReclaimDispatched()
    ensures Visible(Reclaimed(), 1, 9) && Process(Reclaimed(), Some(1), 1, 9).tables == ReclaimWaits()
  {
  }

  lemma ReclaimSent() returns (w: World)
    ensures At(w, 9, ReclaimWaits(), 2)
  {
    var v := Reclaiming();
    var step := DoProcess(Some(1), 1);
    GoesOn(v, 9, step);
    ReclaimDispatched();
    w := Next(v, 9, step);
    IssuesNone(v, 9, step, 2);
  }

  function ReclaimHeld(): Tables {
    With(STARTED, Operations(Sent(RECLAIM)), Commands(Held(Waits(1, ReadContainerLogs, 9), 10)), Events(true),
         map[0 := {SEEN}])
  }

  lemma ReclaimLeased()
    ensures Claim(ReclaimWaits(), 0, "session", false, None, Some(1), 10).tables == ReclaimHeld()
  {
  }

  lemma ReclaimClaimed() returns (w: World)
    ensures At(w, 10, ReclaimHeld(), 2)
  {
    var v := ReclaimSent();
    var step := DoClaim(0, "session", false, None, Some(1));
    GoesOn(v, 10, step);
    ReclaimLeased();
    w := Next(v, 10, step);
    IssuesNone(v, 10, step, 2);
  }

  function FailedReclaim(): Tables {
    With(STARTED, Operations(Ended(RECLAIM, Failed)),
         Commands(Answered(Held(Waits(1, ReadContainerLogs, 9), 10), Broken, 11)), Events(true), map[0 := {SEEN}])
  }

  const FAILS := Evidence(1, "session", 1, 0, 1, 1, 1)

  lemma ReclaimAnswered()
    ensures RecordResult(ReclaimHeld(), 0, FAILS, OutcomeFailed, "failed", 11).tables == FailedReclaim()
  {
    var s := ReclaimHeld();
    assert Row(s, 0, 1, 1) && ResultFence(s, 0, 1, FAILS) && !(exists o :: o != 1 && Row(s, 0, 1, o));
    ReclaimAccepted();
  }

  lemma ReclaimAccepted()
    requires ResultFence(ReclaimHeld(), 0, 1, FAILS)
    ensures AcceptResult(ReclaimHeld(), 0, 1, FAILS, OutcomeFailed, "failed", 11) == FailedReclaim()
  {
  }

  lemma ReclaimFails() returns (w: World)
    ensures At(w, 11, FailedReclaim(), 2)
  {
    var v := ReclaimClaimed();
    var step := DoResult(0, FAILS, OutcomeFailed, "failed");
    GoesOn(v, 11, step);
    ReclaimAnswered();
    w := Next(v, 11, step);
    IssuesNone(v, 11, step, 2);
  }

  /** One failed reclaim stops a sweep that a reachable state calls for. */
  lemma FailedReclaimStopsSweeps() returns (w: World)
    ensures Reachable(w) && w.clock == 11 && ReclaimsBlocked(w.tables, 0) && ReclaimCandidate(w.tables, 0, 45_000, 12)
    ensures ReclaimAll(w.tables, [0], [2], 12) == Refuse(w.tables, ConstraintViolation)
  {
    w := ReclaimFails();
    var s := w.tables;
    assert ReclaimHistory(s, 0) == {1} && 1 in KeyMatches(s, 0, ReclaimKey(1)) && LiveOperations(s, 0) == {};
  }

  /** A command waits on a node in a reachable state; revoking the node strands it. */
  lemma RevocationStrandsACommand() returns (w: World)
    ensures Reachable(w) && Waiting(w.tables, 0, 0) && !Inv(RevokePool(w.tables, 0, 6))
  {
    w := Dispatched();
    ReachableIsGood(w);
    PoolRevocationKeeps(w.tables, 0, 6);
  }
}
