/**
 Runs and reachability, and what one step does to rows of operations and endpoints.

 A world is reachable if some run of legal steps leads to it from empty tables. A step never removes a row
 of an operation or an endpoint, never writes the row of an ended operation again, and never lowers a
 generation; a completed delete leaves its endpoint deleted, and its terminal identity names a command that
 was issued for it.
 */
module ControlPlaneHistory {
  import opened Wrappers
  import opened ControlPlane
  import opened ControlPlaneInvariant
  import opened Observations
  import opened ControlPlaneRuns

  datatype Event = At(now: Time, step: Step)

  ghost predicate LegalRun(w: World, run: seq<Event>)
    decreases |run|
  {
    run == [] || (Legal(w, run[0].now, run[0].step) && LegalRun(Next(w, run[0].now, run[0].step), run[1..]))
  }

  ghost function Final(w: World, run: seq<Event>): World
    requires LegalRun(w, run)
    decreases |run|
  {
    if run == [] then w else Final(Next(w, run[0].now, run[0].step), run[1..])
  }

  /** A world some run leads to from empty tables. */
  ghost predicate Reachable(w: World) {
    exists run :: LegalRun(EMPTY, run) && Final(EMPTY, run) == w
  }

  // --- what one step does to operation and endpoint rows ---

  /** Rows of operations are never removed; those of ended operations are never written again. */
  predicate OperationMoves(s: Tables, t: Tables, o: Id) {
    o in s.operations ==>
      && o in t.operations
      && t.operations[o].endpoint == s.operations[o].endpoint && t.operations[o].action == s.operations[o].action
      && t.operations[o].generation == s.operations[o].generation
      && t.operations[o].key == s.operations[o].key && t.operations[o].request == s.operations[o].request
      && (!Live(s.operations[o]) ==> t.operations[o] == s.operations[o])
  }

  /**
   An operation that ends as a completed delete leaves its endpoint deleted; a terminal identity is written
   only then.
   */
  predicate Ends(s: Tables, t: Tables, o: Id) {
    o in t.operations ==>
      && (o !in s.operations ==> t.operations[o].status == Queued && t.operations[o].terminal.None?)
      && (o in s.operations && Live(s.operations[o]) ==>
            var op := t.operations[o];
            && (op.status == Succeeded && op.action == Delete ==>
                  op.endpoint in t.endpoints && t.endpoints[op.endpoint].deleted)
            && (op.terminal == s.operations[o].terminal
                || (op.status == Succeeded && op.action == Delete && op.terminal.Some? && o in s.commands
                    && Names(op.terminal.value, o, op)
                    && op.terminal.value.command == s.commands[o].id && op.terminal.value.node == s.commands[o].node
                    && op.terminal.value.epoch == s.commands[o].epoch)))
  }

  /** The terminal identity agrees with the operation row it is stored on. */
  predicate Names(x: Terminal, o: Id, op: Operation) {
    x.operation == o && x.endpoint == op.endpoint && x.generation == op.generation && x.epoch == op.epoch
        && op.node == Some(x.node)
  }

  /** Endpoint rows are never removed, their generation never falls, and a deleted one stays deleted. */
  predicate EndpointMoves(s: Tables, t: Tables, e: Id) {
    e in s.endpoints ==>
      && e in t.endpoints && s.endpoints[e].generation <= t.endpoints[e].generation
      && (s.endpoints[e].deleted ==> t.endpoints[e].deleted)
  }

  predicate RowMoves(s: Tables, t: Tables, o: Id) {
    OperationMoves(s, t, o) && Ends(s, t, o)
  }

  lemma MutateMovesOperations(s: Tables, m: Mutation, newId: Id, now: Time, o: Id)
    requires newId !in s.operations
    ensures RowMoves(s, Mutate(s, m, newId, now).tables, o)
  {
  }

  lemma ExpireMovesOperations(s: Tables, e: Id, action: Action, newId: Id, now: Time, o: Id)
    requires newId !in s.operations && (action == Stop || action == Delete)
    ensures RowMoves(s, Expire(s, e, action, newId, now).tables, o)
  {
  }

  lemma CompleteMovesOperations(s: Tables, p: Id, now: Time, o: Id)
    requires p in s.operations && p in s.outbox && s.operations[p].endpoint in s.endpoints
             && s.operations[p].status == Queued
    ensures RowMoves(s, CompleteUnassigned(s, p, now), o)
  {
  }

  lemma SettleMovesOperations(s: Tables, p: Id, commandId: Id, now: Time, o: Id)
    requires p in s.operations && p in s.outbox && s.operations[p].endpoint in s.endpoints
             && s.operations[p].status == Queued
    requires var ep := s.endpoints[s.operations[p].endpoint]; ep.node.Some? ==> ep.node.value in s.nodes
    ensures RowMoves(s, Settle(s, p, commandId, now).tables, o)
  {
    if s.endpoints[s.operations[p].endpoint].node.None? { CompleteMovesOperations(s, p, now, o); }
  }

  lemma ProcessMovesOperations(s: Tables, pick: Option<Id>, commandId: Id, now: Time, o: Id)
    requires Inv(s) && PickIsWired(s, pick) && NextEvent(s, pick, now)
    ensures RowMoves(s, Process(s, pick, commandId, now).tables, o)
  {
    if pick.Some? {
      ProcessSettles(s, pick.value, commandId, now);
      SettleMovesOperations(s, pick.value, commandId, now, o);
    }
  }

  lemma TakeoverMovesOperations(s: Tables, n: Id, reissue: map<Id, Id>, now: Time, o: Id)
    requires n in s.nodes && s.nodes[n].session.Some? && s.commands.Keys <= reissue.Keys
    ensures RowMoves(s, Takeover(s, n, reissue, now), o)
  {
  }

  lemma ConnectMovesOperations(s: Tables, n: Id, session: Session, reissue: map<Id, Id>, now: Time, o: Id)
    requires n in s.nodes && s.commands.Keys <= reissue.Keys
    ensures RowMoves(s, Connect(s, n, session, reissue, now), o)
  {
    if TakesOver(s, n, session) { TakeoverMovesOperations(s, n, reissue, now, o); }
  }

  lemma HeartbeatMovesOperations(s: Tables, n: Id, session: Session, runtimes: seq<RuntimeReport>,
      reissue: map<Id, Id>, now: Time, o: Id)
    requires s.commands.Keys <= reissue.Keys
    ensures RowMoves(s, Heartbeat(s, n, session, runtimes, reissue, now).tables, o)
  {
    if n in s.nodes && !s.nodes[n].revoked && !SessionRefused(s, n, session, now) {
      ConnectMovesOperations(s, n, session, reissue, now, o);
      ReportAllFrame(Connect(s, n, session, reissue, now), n, runtimes, now);
    }
  }

  lemma ExhaustMovesOperations(s: Tables, p: Id, now: Time, o: Id)
    requires p in s.commands
    ensures RowMoves(s, Exhaust(s, p, now), o)
  {
  }

  lemma ClaimMovesOperations(s: Tables, n: Id, session: Session, routing: bool, artifact: Option<string>,
      pick: Option<Id>, now: Time, o: Id)
    requires pick.Some? ==> pick.value in s.commands
    ensures RowMoves(s, Claim(s, n, session, routing, artifact, pick, now).tables, o)
  {
    if pick.Some? && n in s.nodes { ExhaustMovesOperations(Advertise(s, n, routing, artifact), pick.value, now, o); }
  }

  lemma DeleteMovesOperations(s: Tables, n: Id, p: Id, m: Evidence, now: Time, o: Id)
    requires Row(s, n, m.command, p) && ResultFence(s, n, p, m) && Sound(s, p) && s.commands[p].action == Delete
    ensures RowMoves(s, Finalize(DeleteDone(s, n, p, m, now), s.commands[p].endpoint), o)
  {
  }

  lemma AcceptMovesOperations(s: Tables, n: Id, p: Id, m: Evidence, outcome: Outcome, state: string, now: Time, o: Id)
    requires Row(s, n, m.command, p) && ResultFence(s, n, p, m) && Sound(s, p)
    ensures RowMoves(s, AcceptResult(s, n, p, m, outcome, state, now), o)
  {
    if outcome == OutcomeSucceeded && s.commands[p].action == Delete { DeleteMovesOperations(s, n, p, m, now, o); }
  }

  lemma ResultMovesOperations(s: Tables, n: Id, m: Evidence, outcome: Outcome, state: string, now: Time, o: Id)
    requires Inv(s)
    ensures RowMoves(s, RecordResult(s, n, m, outcome, state, now).tables, o)
  {
    ResultShape(s, n, m, outcome, state, now);
    if RecordResult(s, n, m, outcome, state, now).tables != s {
      assert Sound(s, m.operation);
      AcceptMovesOperations(s, n, m.operation, m, outcome, state, now, o);
    }
  }

  lemma ProgressMovesOperations(s: Tables, n: Id, m: Evidence, sequence: nat, phase: string, percent: nat, now: Time,
      o: Id)
    ensures RowMoves(s, RecordProgress(s, n, m, sequence, phase, percent, now).tables, o)
  {
  }

  lemma ReclaimMovesOperations(s: Tables, e: Id, newId: Id, now: Time, o: Id)
    requires newId !in s.operations
    ensures RowMoves(s, Reclaim(s, e, newId, now).tables, o)
  {
  }

  /** The steps of agents. */
  predicate ByAgent(step: Step) { step.DoHeartbeat? || step.DoClaim? || step.DoProgress? || step.DoResult? }

  lemma AgentMovesOperations(w: World, now: Time, step: Step, o: Id)
    requires Inv(w.tables) && Legal(w, now, step) && ByAgent(step)
    ensures RowMoves(w.tables, After(w, now, step), o)
  {
    var s := w.tables;
    if step.DoHeartbeat? {
      HeartbeatMovesOperations(s, step.node, step.session, step.runtimes, step.reissue, now, o);
    } else if step.DoClaim? {
      ClaimMovesOperations(s, step.node, step.session, step.routing, step.artifact, step.pick, now, o);
    } else if step.DoProgress? {
      ProgressMovesOperations(s, step.node, step.evidence, step.sequence, step.phase, step.percent, now, o);
    } else {
      ResultMovesOperations(s, step.node, step.evidence, step.outcome, step.state, now, o);
    }
  }

  /** The steps that enqueue an operation. */
  predicate Enqueues(step: Step) { step.DoMutate? || step.DoExpire? || step.DoReclaim? }

  lemma ClientMovesOperations(w: World, now: Time, step: Step, o: Id)
    requires Inv(w.tables) && Legal(w, now, step) && Enqueues(step)
    ensures RowMoves(w.tables, After(w, now, step), o)
  {
    var s := w.tables;
    if step.DoMutate? { MutateMovesOperations(s, step.mutation, step.newId, now, o); }
    else if step.DoExpire? { ExpireMovesOperations(s, step.endpoint, step.action, step.newId, now, o); }
    else { ReclaimMovesOperations(s, step.endpoint, step.newId, now, o); }
  }

  lemma StepMovesOperations(w: World, now: Time, step: Step, o: Id)
    requires Inv(w.tables) && Legal(w, now, step)
    ensures RowMoves(w.tables, After(w, now, step), o)
  {
    if ByAgent(step) {
      AgentMovesOperations(w, now, step, o);
    } else if Enqueues(step) {
      ClientMovesOperations(w, now, step, o);
    } else if step.DoProcess? {
      assert PickIsWired(w.tables, step.pick);
      ProcessMovesOperations(w.tables, step.pick, step.commandId, now, o);
    } else {
      OthersKeepOperations(w, now, step);
    }
  }

  lemma OthersKeepOperations(w: World, now: Time, step: Step)
    requires Inv(w.tables) && Legal(w, now, step) && !ByAgent(step) && !Enqueues(step) && !step.DoProcess?
    ensures After(w, now, step).operations == w.tables.operations
  {
  }

  lemma ResultMovesEndpoints(s: Tables, n: Id, m: Evidence, outcome: Outcome, state: string, now: Time, e: Id)
    ensures EndpointMoves(s, RecordResult(s, n, m, outcome, state, now).tables, e)
  {
    ResultShape(s, n, m, outcome, state, now);
  }

  lemma MutateMovesEndpoints(s: Tables, m: Mutation, newId: Id, now: Time, e: Id)
    ensures EndpointMoves(s, Mutate(s, m, newId, now).tables, e)
  {
  }

  lemma ProcessMovesEndpoints(s: Tables, pick: Option<Id>, commandId: Id, now: Time, e: Id)
    requires Inv(s) && PickIsWired(s, pick) && NextEvent(s, pick, now)
    ensures EndpointMoves(s, Process(s, pick, commandId, now).tables, e)
  {
    if pick.Some? { ProcessSettles(s, pick.value, commandId, now); }
  }

  lemma HeartbeatMovesEndpoints(s: Tables, n: Id, session: Session, runtimes: seq<RuntimeReport>, reissue: map<Id, Id>,
      now: Time)
    requires s.commands.Keys <= reissue.Keys
    ensures Heartbeat(s, n, session, runtimes, reissue, now).tables.endpoints == s.endpoints
  {
    if n in s.nodes && !s.nodes[n].revoked && !SessionRefused(s, n, session, now) {
      ReportAllFrame(Connect(s, n, session, reissue, now), n, runtimes, now);
    }
  }

  lemma ExpireMovesEndpoints(s: Tables, e: Id, action: Action, newId: Id, now: Time, f: Id)
    requires action == Stop || action == Delete
    ensures EndpointMoves(s, Expire(s, e, action, newId, now).tables, f)
  {
  }

  lemma ClaimKeepsEndpoints(s: Tables, n: Id, session: Session, routing: bool, artifact: Option<string>,
      pick: Option<Id>, now: Time)
    requires pick.Some? ==> pick.value in s.commands
    ensures Claim(s, n, session, routing, artifact, pick, now).tables.endpoints == s.endpoints
  {
  }

  lemma StepMovesEndpoints(w: World, now: Time, step: Step, e: Id)
    requires Inv(w.tables) && Legal(w, now, step)
    ensures EndpointMoves(w.tables, After(w, now, step), e)
  {
    var s := w.tables;
    match step
    case DoMutate(m, newId) => MutateMovesEndpoints(s, m, newId, now, e);
    case DoExpire(f, action, newId) => ExpireMovesEndpoints(s, f, action, newId, now, e);
    case DoClaim(n, session, routing, artifact, pick) => ClaimKeepsEndpoints(s, n, session, routing, artifact, pick,
                                                         now);
    case DoProcess(pick, commandId) =>
      assert PickIsWired(s, pick);
      ProcessMovesEndpoints(s, pick, commandId, now, e);
    case DoHeartbeat(n, session, runtimes, reissue) => HeartbeatMovesEndpoints(s, n, session, runtimes, reissue, now);
    case DoResult(n, m, outcome, state) => ResultMovesEndpoints(s, n, m, outcome, state, now, e);
    case _ =>
  }

  // --- which operations a step adds ---

  predicate NoneAdded(s: Tables, t: Tables) { t.operations.Keys <= s.operations.Keys }

  lemma HeartbeatAddsNone(s: Tables, n: Id, session: Session, runtimes: seq<RuntimeReport>, reissue: map<Id, Id>,
      now: Time)
    requires s.commands.Keys <= reissue.Keys
    ensures NoneAdded(s, Heartbeat(s, n, session, runtimes, reissue, now).tables)
  {
    if n in s.nodes && !s.nodes[n].revoked && !SessionRefused(s, n, session, now) {
      ConnectSameCount(s, n, session, reissue, now);
      ReportAllFrame(Connect(s, n, session, reissue, now), n, runtimes, now);
    }
  }

  lemma ClaimAddsNone(s: Tables, n: Id, session: Session, routing: bool, artifact: Option<string>, pick: Option<Id>,
      now: Time)
    requires pick.Some? ==> pick.value in s.commands
    ensures NoneAdded(s, Claim(s, n, session, routing, artifact, pick, now).tables)
  {
  }

  lemma ResultAddsNone(s: Tables, n: Id, m: Evidence, outcome: Outcome, state: string, now: Time)
    ensures NoneAdded(s, RecordResult(s, n, m, outcome, state, now).tables)
  {
    ResultShape(s, n, m, outcome, state, now);
  }

  lemma ProgressAddsNone(s: Tables, n: Id, m: Evidence, sequence: nat, phase: string, percent: nat, now: Time)
    ensures NoneAdded(s, RecordProgress(s, n, m, sequence, phase, percent, now).tables)
  {
  }

  lemma AgentAddsNone(w: World, now: Time, step: Step)
    requires Inv(w.tables) && Legal(w, now, step) && ByAgent(step)
    ensures NoneAdded(w.tables, After(w, now, step))
  {
    var s := w.tables;
    if step.DoHeartbeat? {
      HeartbeatAddsNone(s, step.node, step.session, step.runtimes, step.reissue, now);
    } else if step.DoClaim? {
      ClaimAddsNone(s, step.node, step.session, step.routing, step.artifact, step.pick, now);
    } else if step.DoProgress? {
      ProgressAddsNone(s, step.node, step.evidence, step.sequence, step.phase, step.percent, now);
    } else {
      ResultAddsNone(s, step.node, step.evidence, step.outcome, step.state, now);
    }
  }

  lemma ProcessAddsNone(w: World, now: Time, step: Step)
    requires Inv(w.tables) && Legal(w, now, step) && step.DoProcess?
    ensures NoneAdded(w.tables, After(w, now, step))
  {
    if step.pick.Some? { ProcessSettles(w.tables, step.pick.value, step.commandId, now); }
  }

  /** A new reclaim comes from a sweep that found none recorded at the endpoint's generation. */
  predicate ReclaimAdded(s: Tables, step: Step, t: Tables, o: Id) {
    o in t.operations && o !in s.operations && t.operations[o].key.ReclaimKey? ==>
      step.DoReclaim? && t.operations[o].endpoint == step.endpoint && !Collides(s, step.endpoint)
  }

  lemma MutateAdds(s: Tables, m: Mutation, newId: Id, now: Time, o: Id)
    ensures var t := Mutate(s, m, newId, now).tables;
            o in t.operations && o !in s.operations ==> t.operations[o].key.UserKey?
  {
  }

  lemma ExpireAdds(s: Tables, e: Id, action: Action, newId: Id, now: Time, o: Id)
    requires action == Stop || action == Delete
    ensures var t := Expire(s, e, action, newId, now).tables;
            o in t.operations && o !in s.operations ==> t.operations[o].key.ExpiryKey?
  {
  }

  lemma ReclaimAdds(s: Tables, e: Id, newId: Id, now: Time, o: Id)
    ensures var t := Reclaim(s, e, newId, now).tables;
            o in t.operations && o !in s.operations ==> t.operations[o].endpoint == e && !Collides(s, e)
  {
  }

  lemma StepAddsReclaims(w: World, now: Time, step: Step, o: Id)
    requires Inv(w.tables) && Legal(w, now, step)
    ensures ReclaimAdded(w.tables, step, After(w, now, step), o)
  {
    if ByAgent(step) { AgentAddsNone(w, now, step); }
    else if step.DoProcess? { ProcessAddsNone(w, now, step); }
    else if step.DoMutate? { MutateAdds(w.tables, step.mutation, step.newId, now, o); }
    else if step.DoExpire? { ExpireAdds(w.tables, step.endpoint, step.action, step.newId, now, o); }
    else if step.DoReclaim? { ReclaimAdds(w.tables, step.endpoint, step.newId, now, o); }
    else { OthersKeepOperations(w, now, step); }
  }

  // --- completed deletes ---

  /**
   A completed delete leaves its endpoint deleted, and its terminal identity names an issued command of the
   operation.
   */
  ghost predicate GraveAt(w: World, o: Id)
    requires o in w.tables.operations
  {
    var s := w.tables;
    var op := s.operations[o];
    && (op.status == Succeeded && op.action == Delete ==>
          op.endpoint in s.endpoints && s.endpoints[op.endpoint].deleted)
    && (op.terminal.Some? ==>
          var x := op.terminal.value;
          && op.status == Succeeded && op.action == Delete && Names(x, o, op)
          && Issue(x.command, o, x.node, x.endpoint, x.generation, x.epoch, Delete) in w.log.issued)
  }

  ghost predicate Graves(w: World) {
    forall o {:trigger GraveAt(w, o)} :: o in w.tables.operations ==> GraveAt(w, o)
  }

  lemma GraveMoves(w: World, v: World, o: Id)
    requires o in w.tables.operations && GraveAt(w, o) && RowMoves(w.tables, v.tables, o)
    requires EndpointMoves(w.tables, v.tables, w.tables.operations[o].endpoint)
    requires w.log.issued <= v.log.issued
    requires o in w.tables.commands ==> IssuedAt(w, o) && Sound(w.tables, o)
    ensures GraveAt(v, o)
  {
  }

  lemma GraveStep(w: World, now: Time, step: Step, o: Id)
    requires Inv(w.tables) && Issued(w) && Graves(w) && Legal(w, now, step) && o in After(w, now, step).operations
    ensures GraveAt(Next(w, now, step), o)
  {
    StepMovesOperations(w, now, step, o);
    if o in w.tables.operations {
      LogIssues(w, now, step);
      StepMovesEndpoints(w, now, step, w.tables.operations[o].endpoint);
      assert GraveAt(w, o);
      if o in w.tables.commands { assert IssuedAt(w, o); assert Sound(w.tables, o); }
      GraveMoves(w, Next(w, now, step), o);
    }
  }

  // --- runs ---

  ghost predicate Good(w: World) { WorldInv(w) && Graves(w) }

  lemma StepKeepsGood(w: World, now: Time, step: Step)
    requires Good(w) && Legal(w, now, step)
    ensures Good(Next(w, now, step))
  {
    StepKeepsWorld(w, now, step);
    forall o | o in After(w, now, step).operations ensures GraveAt(Next(w, now, step), o) {
      GraveStep(w, now, step, o);
    }
  }

  lemma {:induction false} RunKeepsGood(w: World, run: seq<Event>)
    requires Good(w) && LegalRun(w, run)
    ensures Good(Final(w, run))
    decreases |run|
  {
    if run != [] {
      StepKeepsGood(w, run[0].now, run[0].step);
      RunKeepsGood(Next(w, run[0].now, run[0].step), run[1..]);
    }
  }

  /** Every reachable world satisfies the joint invariant. */
  lemma ReachableIsGood(w: World)
    requires Reachable(w)
    ensures Good(w)
  {
    EmptyWorld();
    var run :| LegalRun(EMPTY, run) && Final(EMPTY, run) == w;
    RunKeepsGood(EMPTY, run);
  }
}
