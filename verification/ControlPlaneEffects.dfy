/** What each transaction does in a reachable world, by rows and numbers alone: when, and every row it leaves. */
module ControlPlaneEffects {
  import opened Wrappers
  import opened ControlPlane
  import opened ControlPlaneInvariant
  import opened Observations
  import opened ControlPlaneRuns
  import opened ControlPlaneHistory
  import opened ControlPlaneSafety
  import opened ControlPlaneTimes

  // --- results ---

  /**
   The evidence is of the lease a command row holds, from the session that owns its node, of an endpoint still
   there.
   */
  predicate HoldsLease(s: Tables, n: Id, m: Evidence) {
    && n in s.nodes && !s.nodes[n].revoked && s.nodes[n].session == Some(m.session) && s.nodes[n].epoch == m.epoch
    && m.operation in s.commands
    && (var c := s.commands[m.operation];
        && c.id == m.command && c.node == n && c.status == Leased && c.endpoint == m.endpoint
        && c.generation == m.generation && c.epoch == m.epoch && c.attempts == m.attempt)
    && m.endpoint in s.endpoints && s.endpoints[m.endpoint].node == Some(n)
  }

  /** The rows after a delete is completed: the endpoint is a tombstone, and of its rows only operations are left. */
  ghost predicate Buried(s: Tables, t: Tables, e: Id, o: Id, ended: Operation) {
    && e in s.endpoints && o in s.operations
    && t.nodes == s.nodes && t.retired == s.retired
    && t.endpoints == s.endpoints[e := s.endpoints[e].(deleted := true, desired := StoppedState)]
    && t.operations == s.operations[o := ended] && t.observations == s.observations - {e}
    && (forall p :: p in t.commands <==> p in s.commands && s.commands[p].endpoint != e)
    && (forall p :: p in t.commands ==> t.commands[p] == s.commands[p])
    && (forall p :: p in t.outbox <==> p in s.outbox && (p in s.operations ==> s.operations[p].endpoint != e))
    && (forall p :: p in t.outbox ==> t.outbox[p] == s.outbox[p])
  }

  /** What an accepted result leaves. */
  ghost predicate ResultLeaves(s: Tables, t: Tables, n: Id, m: Evidence, outcome: Outcome, state: string, now: Time)
    requires m.operation in s.commands && m.operation in s.operations && m.endpoint in s.endpoints
  {
    var o, c, op := m.operation, s.commands[m.operation], s.operations[m.operation];
    match outcome
    case OutcomeUnknown =>
      t == s.(commands := s.commands[o := c.(lease := Some(now))],
              operations := s.operations[o := op.(progress := None)])
    case _ =>
      if c.action == Delete && outcome == OutcomeSucceeded then
        Buried(s, t, m.endpoint, o, op.(status := Succeeded, progress := None,
                                        terminal := Some(Terminal(m.command, n, m.session, o, m.endpoint, m.generation,
                                                                  m.epoch, m.attempt))))
      else
        var rows := if m.endpoint in s.observations then s.observations[m.endpoint] else {};
        var ok := outcome == OutcomeSucceeded;
        t == s.(commands := s.commands[o := c.(status := if ok then Done else Broken, resultAt := Some(now))],
                operations := s.operations[o := op.(status := if ok then Succeeded else Failed, progress := None)],
                observations := if c.action == ReadContainerLogs then s.observations
                                else s.observations[m.endpoint :=
                                                    rows + {Observation(now, Some(o), m.generation, state)}])
  }

  lemma LeaseIsCurrent(w: World, n: Id, m: Evidence)
    requires Reachable(w)
    ensures HoldsLease(w.tables, n, m) <==>
              FromCurrentLease(w, n, m) && m.endpoint in w.tables.endpoints
              && w.tables.endpoints[m.endpoint].node == Some(n)
  {
  }

  lemma AcceptedLeaves(s: Tables, n: Id, m: Evidence, outcome: Outcome, state: string, now: Time)
    requires m.operation in s.commands && ResultFence(s, n, m.operation, m) && s.commands[m.operation].id == m.command
    ensures ResultLeaves(s, AcceptResult(s, n, m.operation, m, outcome, state, now), n, m, outcome, state, now)
  {
    var t := AcceptResult(s, n, m.operation, m, outcome, state, now);
    if s.commands[m.operation].action == Delete && outcome == OutcomeSucceeded {
      forall p ensures p in t.outbox <==>
          p in s.outbox && (p in s.operations ==> s.operations[p].endpoint != m.endpoint) {
        assert p in EndpointOperations(DeleteDone(s, n, m.operation, m, now), m.endpoint) <==>
          p in s.operations && s.operations[p].endpoint == m.endpoint;
      }
    }
  }

  /** The operation is a delete on the node that has succeeded and buried its endpoint. */
  predicate Completed(s: Tables, n: Id, m: Evidence) {
    && m.operation in s.operations && m.endpoint in s.endpoints && s.endpoints[m.endpoint].deleted
    && var op := s.operations[m.operation];
    op.endpoint == m.endpoint && op.node == Some(n) && op.action == Delete && op.status == Succeeded
  }

  lemma ResultAnswers(s: Tables, n: Id, m: Evidence, outcome: Outcome, state: string, now: Time)
    ensures var reply := RecordResult(s, n, m, outcome, state, now).reply;
            && (reply == Err(NotFound) <==>
                  && n in s.nodes && !s.nodes[n].revoked && s.nodes[n].session == Some(m.session)
                  && s.nodes[n].epoch == m.epoch && !Completed(s, n, m)
                  && forall o :: o in s.commands ==> s.commands[o].id != m.command || s.commands[o].node != n)
            && (reply.Ok? && !(exists o :: Row(s, n, m.command, o)) ==>
                  Completed(s, n, m) && outcome == OutcomeSucceeded)
  {
    assert (exists o :: Row(s, n, m.command, o)) <==>
        exists o :: o in s.commands && s.commands[o].id == m.command && s.commands[o].node == n by {
      if o: Id :| Row(s, n, m.command, o) { assert o in s.commands; }
      if o: Id :| o in s.commands && s.commands[o].id == m.command && s.commands[o].node == n {
        assert Row(s, n, m.command, o);
      }
    }
  }

  /**
   A result of a lease that its row holds is taken: an unknown one gives the lease up, so that the command is due
   again; a completed delete buries its endpoint; any other ends command and operation with the outcome, and is
   the endpoint's newest observation unless it only read logs. A result without such a lease changes nothing.
   */
  lemma ResultsDecide(w: World, n: Id, m: Evidence, outcome: Outcome, state: string, now: Time)
    requires Reachable(w) && m.attempt >= 1 && now > w.clock
    ensures var s, tx := w.tables, RecordResult(w.tables, n, m, outcome, state, now);
            if HoldsLease(s, n, m) then
              && m.operation in s.operations && s.operations[m.operation].status == Running
              && tx.reply.Ok? && ResultLeaves(s, tx.tables, n, m, outcome, state, now)
              && (outcome == OutcomeUnknown ==>
                    forall later: Time :: later > now ==> Due(tx.tables, n, m.operation, later))
              && (outcome != OutcomeUnknown && s.commands[m.operation].action !in {Delete, ReadContainerLogs} ==>
                    m.endpoint in tx.tables.observations
                    && Newest(tx.tables.observations[m.endpoint],
                              Observation(now, Some(m.operation), m.generation, state)))
            else
              && tx.tables == s
              && (tx.reply == Err(NotFound) <==>
                    && n in s.nodes && !s.nodes[n].revoked && s.nodes[n].session == Some(m.session)
                    && s.nodes[n].epoch == m.epoch && !Completed(s, n, m)
                    && forall o :: o in s.commands ==> s.commands[o].id != m.command || s.commands[o].node != n)
              && (tx.reply.Ok? ==> Completed(s, n, m) && outcome == OutcomeSucceeded)
  {
    ReachableIsGood(w);
    ResultAnswers(w.tables, n, m, outcome, state, now);
    LeaseIsCurrent(w, n, m);
    ResultsAreFenced(w, n, m, outcome, state, now);
    if HoldsLease(w.tables, n, m) {
      CurrentLeaseRuns(w, n, m);
      AcceptedLeaves(w.tables, n, m, outcome, state, now);
      assert OrderedAt(w.tables, m.endpoint, w.clock);
    }
  }

  // --- progress ---

  /** The evidence is of the lease a command row holds, from the session that owns its node. */
  predicate HoldsRow(s: Tables, n: Id, m: Evidence) {
    && n in s.nodes && !s.nodes[n].revoked && s.nodes[n].session == Some(m.session) && s.nodes[n].epoch == m.epoch
    && m.operation in s.commands && m.operation in s.operations
    && var c := s.commands[m.operation];
    && c.id == m.command && c.node == n && c.status == Leased && c.endpoint == m.endpoint
    && c.generation == m.generation && c.epoch == m.epoch && c.attempts == m.attempt
  }

  /** Progress the operation shows for that lease. */
  predicate Shows(op: Operation, m: Evidence) {
    op.progress.Some? && op.progress.value.command == Some(m.command) && op.progress.value.attempt == m.attempt
  }

  /**
   Progress of a lease that its row holds is taken exactly if it goes beyond what is shown for that lease; it is
   then shown, renews the lease for 30 s and counts as a sign of life of the node. Other progress changes nothing.
   */
  lemma ProgressDecides(w: World, n: Id, m: Evidence, sequence: nat, phase: string, percent: nat, now: Time)
    requires Reachable(w) && m.attempt >= 1
    ensures var s, tx := w.tables, RecordProgress(w.tables, n, m, sequence, phase, percent, now);
            if HoldsRow(s, n, m) && (Shows(s.operations[m.operation], m) ==>
                                       s.operations[m.operation].progress.value.sequence < sequence) then
              var o := m.operation;
              && tx.reply.Ok?
              && tx.tables == s.(
                   operations := s.operations[o := s.operations[o].(progress := Some(
                     Progress(Some(m.command), m.attempt, sequence, phase, percent)))],
                   commands := s.commands[o := s.commands[o].(lease := Some(now + 30_000))],
                   nodes := s.nodes[n := s.nodes[n].(heartbeatAt := Some(now))])
            else tx.reply.Err? && tx.tables == s
  {
    ReachableIsGood(w);
    ProgressIsFenced(w, n, m, sequence, phase, percent, now);
    RowsAreRows(w.tables, n, m);
    if RecordProgress(w.tables, n, m, sequence, phase, percent, now).reply.Ok? {
      forall o | Row(w.tables, n, m.command, o) ensures o == m.operation {
        RowIsUnique(w.tables, n, m.command, o, m.operation);
      }
    }
  }

  lemma RowsAreRows(s: Tables, n: Id, m: Evidence)
    requires AllSound(s)
    ensures HoldsRow(s, n, m) <==> SessionFence(s, n, m) && Row(s, n, m.command, m.operation)
                                   && s.commands[m.operation].status == Leased
                                   && CommandFence(m.operation, s.commands[m.operation], m)
  {
  }

  // --- mutations, expiries and reclaims ---

  /** A queued or running operation of the endpoint. */
  predicate LiveRow(s: Tables, o: Id, e: Id) {
    o in s.operations && s.operations[o].endpoint == e && s.operations[o].status in {Queued, Running}
  }

  /** What was live on an endpoint is superseded, with its command and its event. */
  ghost predicate Cleared(s: Tables, t: Tables, e: Id, now: Time) {
    && t == s.(operations := t.operations, outbox := t.outbox, commands := t.commands)
    && t.operations.Keys == s.operations.Keys && t.outbox.Keys == s.outbox.Keys && t.commands.Keys == s.commands.Keys
    && (forall p :: p in s.operations ==>
          t.operations[p] == if LiveRow(s, p, e) then s.operations[p].(status := Stale) else s.operations[p])
    && (forall p :: p in s.outbox ==>
          t.outbox[p] == if LiveRow(s, p, e) then s.outbox[p].(processed := true) else s.outbox[p])
    && (forall p :: p in s.commands ==>
          t.commands[p] == if LiveRow(s, p, e) && s.commands[p].status in {Pending, Leased}
                           then s.commands[p].(status := Superseded, lease := None, resultAt := Some(now))
                           else s.commands[p])
  }

  /**
   An operation is enqueued in place of what was live on its endpoint: it waits with an event, and the endpoint
   is at its generation.
   */
  ghost predicate Enqueued(s: Tables, t: Tables, o: Id, op: Operation, desired: Desired, now: Time) {
    && op.endpoint in s.endpoints && o !in s.operations && o !in s.outbox
    && exists c :: Cleared(s, c, op.endpoint, now) && EnqueuedIn(c, t, o, op, desired, now)
  }

  predicate EnqueuedIn(c: Tables, t: Tables, o: Id, op: Operation, desired: Desired, now: Time) {
    && op.endpoint in c.endpoints
    && t == c.(endpoints := c.endpoints[op.endpoint := c.endpoints[op.endpoint].(generation := op.generation,
                                                                                 desired := desired)],
               operations := c.operations[o := op], outbox := c.outbox[o := OutboxEvent(false, now, now)])
  }

  /** An operation as it is enqueued. */
  function Fresh(e: Id, generation: nat, action: Action, key: Key, request: Request, now: Time): Operation {
    Operation(e, generation, action, key, request, Queued, None, 0, Some(Progress(None, 0, 0, "queued", 5)), None, now)
  }

  lemma SupersedeClears(s: Tables, e: Id, now: Time)
    requires AllSound(s)
    ensures Cleared(s, Supersede(s, e, now), e, now)
  {
    forall p | p in s.commands
      ensures s.commands[p].endpoint == e && Open(s.commands[p]) <==>
                LiveRow(s, p, e) && s.commands[p].status in {Pending, Leased}
    {
      assert Sound(s, p);
    }
  }

  lemma EnqueueLeaves(s: Tables, c: Tables, o: Id, e: Id, generation: nat, action: Action, desired: Desired, key: Key,
      request: Request, now: Time)
    requires o !in s.operations && o !in s.outbox && e in s.endpoints && Cleared(s, c, e, now)
    ensures Enqueued(s, Enqueue(c, o, e, generation, action, desired, key, request, now), o,
                     Fresh(e, generation, action, key, request, now), desired, now)
  {
    var t := Enqueue(c, o, e, generation, action, desired, key, request, now);
    assert EnqueuedIn(c, t, o, Fresh(e, generation, action, key, request, now), desired, now);
  }

  /** A mutation may go ahead. */
  predicate MayMutate(s: Tables, m: Mutation) {
    && m.endpoint in s.endpoints && !s.endpoints[m.endpoint].deleted
    && s.endpoints[m.endpoint].generation == m.expectedGeneration
    && (m.action == RefreshLoginQr ==> s.endpoints[m.endpoint].provider == NapCat)
    && m.action != UpdateEndpointProxy
    && forall o :: o in s.operations && LiveRow(s, o, m.endpoint) ==>
         m.action == ForceRestart && s.operations[o].action != Delete
  }

  function NextGeneration(s: Tables, m: Mutation): nat
    requires m.endpoint in s.endpoints
  {
    s.endpoints[m.endpoint].generation + if m.action in {Start, Stop, Restart, ForceRestart, Delete} then 1 else 0
  }

  function NextDesired(s: Tables, m: Mutation): Desired
    requires m.endpoint in s.endpoints
  {
    if m.action == Stop then StoppedState
    else if m.action in {Start, Restart, ForceRestart} then RunningState
    else s.endpoints[m.endpoint].desired
  }

  /**
   A mutation with a new key goes ahead exactly if its endpoint is there at the expected generation and nothing
   is live on it, or it is a forced restart of something other than a delete. Starts, stops, restarts and deletes
   move the endpoint to its next generation, and all but deletes say what it should do.
   */
  lemma MutationsDecide(w: World, m: Mutation, newId: Id, now: Time)
    requires Reachable(w) && newId !in w.tables.operations
    requires forall o :: o in w.tables.operations ==> !HasKey(w.tables, o, m.endpoint, UserKey(m.key))
    ensures var s, tx := w.tables, Mutate(w.tables, m, newId, now);
            if MayMutate(s, m) then
              && tx.reply == Ok((newId, false))
              && Enqueued(s, tx.tables, newId,
                          Fresh(m.endpoint, NextGeneration(s, m), m.action, UserKey(m.key),
                                Request(m.action, m.expectedGeneration, m.metadata), now), NextDesired(s, m), now)
            else
              && tx.tables == s && tx.reply.Err?
              && (tx.reply.error == NotFound <==> m.endpoint !in s.endpoints || s.endpoints[m.endpoint].deleted)
              && (tx.reply.error in {NotFound, Conflict, ConstraintViolation})
  {
    TablesAreSound(w);
    var s := w.tables;
    NewKey(s, m);
    if MayMutate(s, m) {
      MutationTaken(s, m, newId, now);
      TakenLeaves(s, m, newId, now);
    } else {
      MutationRefused(s, m, newId, now);
    }
  }

  /** The tables after a mutation that goes ahead. */
  function Taken(s: Tables, m: Mutation, newId: Id, now: Time): Tables
    requires m.endpoint in s.endpoints
  {
    var c := if m.action == ForceRestart then Supersede(s, m.endpoint, now) else s;
    Enqueue(c, newId, m.endpoint, NextGeneration(s, m), m.action, NextDesired(s, m), UserKey(m.key),
            Request(m.action, m.expectedGeneration, m.metadata), now)
  }

  lemma TakenLeaves(s: Tables, m: Mutation, newId: Id, now: Time)
    requires AllSound(s) && m.endpoint in s.endpoints && newId !in s.operations
    requires m.action != ForceRestart ==> forall o :: !LiveRow(s, o, m.endpoint)
    ensures Enqueued(s, Taken(s, m, newId, now), newId,
                     Fresh(m.endpoint, NextGeneration(s, m), m.action, UserKey(m.key),
                           Request(m.action, m.expectedGeneration, m.metadata), now), NextDesired(s, m), now)
  {
    SupersedeClears(s, m.endpoint, now);
    var c := if m.action == ForceRestart then Supersede(s, m.endpoint, now) else s;
    EnqueueLeaves(s, c, newId, m.endpoint, NextGeneration(s, m), m.action, NextDesired(s, m), UserKey(m.key),
                  Request(m.action, m.expectedGeneration, m.metadata), now);
  }

  lemma NewKey(s: Tables, m: Mutation)
    requires forall o :: o in s.operations ==> !HasKey(s, o, m.endpoint, UserKey(m.key))
    ensures KeyMatches(s, m.endpoint, UserKey(m.key)) == {}
  {
    forall o | o in s.operations ensures o !in KeyMatches(s, m.endpoint, UserKey(m.key)) {
      assert !HasKey(s, o, m.endpoint, UserKey(m.key));
    }
  }

  lemma MutationTaken(s: Tables, m: Mutation, newId: Id, now: Time)
    requires KeyMatches(s, m.endpoint, UserKey(m.key)) == {} && MayMutate(s, m)
    ensures m.action != ForceRestart ==> forall o :: !LiveRow(s, o, m.endpoint)
    ensures Mutate(s, m, newId, now) == Tx(Taken(s, m, newId, now), Ok((newId, false)))
  {
    LiveRowsAreLive(s, m.endpoint);
  }

  lemma MutationRefused(s: Tables, m: Mutation, newId: Id, now: Time)
    requires KeyMatches(s, m.endpoint, UserKey(m.key)) == {} && !MayMutate(s, m)
    ensures var tx := Mutate(s, m, newId, now);
            && tx.tables == s && tx.reply.Err?
            && (tx.reply.error == NotFound <==> m.endpoint !in s.endpoints || s.endpoints[m.endpoint].deleted)
            && (tx.reply.error in {NotFound, Conflict, ConstraintViolation})
  {
    LiveRowsAreLive(s, m.endpoint);
  }

  lemma LiveRowsAreLive(s: Tables, e: Id)
    ensures forall o :: LiveRow(s, o, e) <==> o in LiveOperations(s, e)
  {
  }

  function Expiries(s: Tables, e: Id, action: Action): set<Id> {
    set o | o in s.operations && s.operations[o].endpoint == e && s.operations[o].key.ExpiryKey?
        && s.operations[o].key.action == action
  }

  /** An expiry is due: of a stop, when nothing is live; of a delete, unless one is live or five have been tried. */
  predicate MayExpire(s: Tables, e: Id, action: Action) {
    && e in s.endpoints && !s.endpoints[e].deleted
    && (forall o :: o in s.operations && LiveRow(s, o, e) ==> action == Delete && s.operations[o].action != Delete)
    && (forall o :: o in Expiries(s, e, action) ==> s.operations[o].status != Succeeded)
    && (action == Delete ==> |Expiries(s, e, action)| < 5)
  }

  /** An expiry enqueues its operation exactly if it is due, under the number after those recorded. */
  lemma ExpiriesDecide(w: World, e: Id, action: Action, newId: Id, now: Time)
    requires Reachable(w) && newId !in w.tables.operations && action in {Stop, Delete}
    ensures var s, tx := w.tables, Expire(w.tables, e, action, newId, now);
            if MayExpire(s, e, action) then
              var ep := s.endpoints[e];
              && tx.reply == Ok(1)
              && Enqueued(s, tx.tables, newId,
                          Fresh(e, ep.generation + 1, action, ExpiryKey(action, |Expiries(s, e, action)| + 1),
                                Request(action, ep.generation, "workspace_expiry"), now),
                          if action == Stop then StoppedState else ep.desired, now)
            else tx == Tx(s, Ok(0))
  {
    TablesAreSound(w);
    var s := w.tables;
    ExpiryTaken(s, e, action, newId, now);
    if MayExpire(s, e, action) { ExpiredLeaves(s, e, action, newId, now); }
  }

  /** The tables after an expiry that is due. */
  function Expiring(s: Tables, e: Id, action: Action, newId: Id, now: Time): Tables
    requires e in s.endpoints
  {
    var ep := s.endpoints[e];
    Enqueue(if LiveOperations(s, e) != {} then Supersede(s, e, now) else s, newId, e, ep.generation + 1, action,
            if action == Stop then StoppedState else ep.desired, ExpiryKey(action, |Expiries(s, e, action)| + 1),
            Request(action, ep.generation, "workspace_expiry"), now)
  }

  lemma ExpiryTaken(s: Tables, e: Id, action: Action, newId: Id, now: Time)
    requires action in {Stop, Delete}
    ensures Expire(s, e, action, newId, now)
         == if MayExpire(s, e, action) then Tx(Expiring(s, e, action, newId, now), Ok(1)) else Tx(s, Ok(0))
  {
    LiveRowsAreLive(s, e);
    assert Expiries(s, e, action) == ExpiryHistory(s, e, action);
  }

  lemma ClearsLive(s: Tables, e: Id, now: Time)
    requires AllSound(s)
    ensures Cleared(s, if LiveOperations(s, e) != {} then Supersede(s, e, now) else s, e, now)
  {
    SupersedeClears(s, e, now);
    LiveRowsAreLive(s, e);
    if LiveOperations(s, e) == {} { NothingToClear(s, e, now); }
  }

  lemma TablesAreSound(w: World)
    requires Reachable(w)
    ensures AllSound(w.tables)
  {
    ReachableIsGood(w);
  }

  lemma ExpiredLeaves(s: Tables, e: Id, action: Action, newId: Id, now: Time)
    requires AllSound(s) && e in s.endpoints && newId !in s.operations
    ensures var ep := s.endpoints[e];
            Enqueued(s, Expiring(s, e, action, newId, now), newId,
                     Fresh(e, ep.generation + 1, action, ExpiryKey(action, |Expiries(s, e, action)| + 1),
                           Request(action, ep.generation, "workspace_expiry"), now),
                     if action == Stop then StoppedState else ep.desired, now)
  {
    ClearsLive(s, e, now);
    var ep := s.endpoints[e];
    EnqueueLeaves(s, if LiveOperations(s, e) != {} then Supersede(s, e, now)
                  else s, newId, e, ep.generation + 1, action,
                  if action == Stop then StoppedState else ep.desired, ExpiryKey(action, |Expiries(s, e, action)| + 1),
                  Request(action, ep.generation, "workspace_expiry"), now);
  }

  /** Once an expiry has succeeded no other of its kind is enqueued, in any run. */
  lemma ExpirySucceedsOnce(w: World, run: seq<Event>, o: Id, newId: Id, now: Time)
    requires Reachable(w) && LegalRun(w, run) && o in w.tables.operations
    requires var op := w.tables.operations[o];
             op.status == Succeeded && op.key.ExpiryKey? && op.key.action in {Stop, Delete}
    ensures var op, t := w.tables.operations[o], Final(w, run).tables;
            Expire(t, op.endpoint, op.key.action, newId, now) == Tx(t, Ok(0))
  {
    ReachableIsGood(w);
    EndedOperationsAreFrozen(w, run, o);
    var op, t := w.tables.operations[o], Final(w, run).tables;
    assert o in ExpiryHistory(t, op.endpoint, op.key.action);
  }

  /** The reclaims of an endpoint, and whether one of the three newest has succeeded. */
  function Reclaims(s: Tables, e: Id): set<Id> {
    set o | o in s.operations && s.operations[o].endpoint == e && s.operations[o].key.ReclaimKey?
  }

  predicate Reclaimed(s: Tables, e: Id) {
    exists o :: o in Reclaims(s, e) && s.operations[o].status == Succeeded
                && |set p | p in Reclaims(s, e) && s.operations[p].createdAt > s.operations[o].createdAt| < 3
  }

  /**
   An endpoint of a reporting provider that should run on a node heard from, with nothing live, and that is
   silent.
   */
  predicate SilentEndpoint(s: Tables, e: Id, staleAfter: Time, now: Time) {
    && e in s.endpoints && !s.endpoints[e].deleted && s.endpoints[e].desired == RunningState
    && s.endpoints[e].provider in {NapCat, SnowLuma, LLBot}
    && s.endpoints[e].node.Some? && s.endpoints[e].node.value in s.nodes
    && (var node := s.nodes[s.endpoints[e].node.value];
        !node.revoked && node.heartbeatAt.Some? && node.heartbeatAt.value + 120_000 > now)
    && (forall o :: o in s.operations ==> !LiveRow(s, o, e))
    && (e in s.observations ==> forall r :: r in s.observations[e] && r.operation.None? ==>
          r.createdAt + staleAfter < now)
  }

  lemma CandidatesAreSilent(s: Tables, e: Id, staleAfter: Time, now: Time)
    ensures ReclaimCandidate(s, e, staleAfter, now) <==> SilentEndpoint(s, e, staleAfter, now)
  {
    LiveRowsAreLive(s, e);
  }

  /**
   A reclaim of a silent endpoint reads its logs at its generation, unless one of its three newest reclaims has
   succeeded; the table refuses it if one is recorded at that generation.
   */
  lemma ReclaimsDecide(w: World, e: Id, staleAfter: Time, newId: Id, now: Time)
    requires Reachable(w) && newId !in w.tables.operations && SilentEndpoint(w.tables, e, staleAfter, now)
    ensures Legal(w, now, DoReclaim(e, staleAfter, newId)) <==> now > w.clock
    ensures var s, tx := w.tables, Reclaim(w.tables, e, newId, now);
            var ep := s.endpoints[e];
            if Reclaimed(s, e) then tx == Tx(s, Ok(0))
            else if exists o :: HasKey(s, o, e, ReclaimKey(ep.generation)) then tx == Tx(s, Err(ConstraintViolation))
            else
              && tx.reply == Ok(1)
              && Enqueued(s, tx.tables, newId,
                          Fresh(e, ep.generation, ReadContainerLogs, ReclaimKey(ep.generation),
                                Request(ReadContainerLogs, ep.generation, "stale-telemetry-reclaim"), now),
                          ep.desired, now)
  {
    TablesAreSound(w);
    var s := w.tables;
    CandidatesAreSilent(s, e, staleAfter, now);
    LiveRowsAreLive(s, e);
    assert Reclaims(s, e) == ReclaimHistory(s, e);
    RecordedReclaims(s, e);
    ReclaimLeaves(s, newId, e, now);
  }

  lemma ReclaimLeaves(s: Tables, newId: Id, e: Id, now: Time)
    requires AllSound(s) && newId !in s.operations && e in s.endpoints
             && forall o :: o in s.operations ==> !LiveRow(s, o, e)
    ensures var ep := s.endpoints[e];
            var key, request := ReclaimKey(ep.generation),
                                Request(ReadContainerLogs, ep.generation, "stale-telemetry-reclaim");
            Enqueued(s, Enqueue(s, newId, e, ep.generation, ReadContainerLogs, ep.desired, key, request, now), newId,
                     Fresh(e, ep.generation, ReadContainerLogs, key, request, now), ep.desired, now)
  {
    var ep := s.endpoints[e];
    NothingToClear(s, e, now);
    EnqueueLeaves(s, s, newId, e, ep.generation, ReadContainerLogs, ep.desired, ReclaimKey(ep.generation),
                  Request(ReadContainerLogs, ep.generation, "stale-telemetry-reclaim"), now);
  }

  lemma NothingToClear(s: Tables, e: Id, now: Time)
    requires forall o :: o in s.operations ==> !LiveRow(s, o, e)
    ensures Cleared(s, s, e, now)
  {
  }

  lemma RecordedReclaims(s: Tables, e: Id)
    requires e in s.endpoints
    ensures ReclaimRecorded(s, e) <==> exists o :: HasKey(s, o, e, ReclaimKey(s.endpoints[e].generation))
  {
    var key := ReclaimKey(s.endpoints[e].generation);
    if o: Id :| HasKey(s, o, e, key) { assert o in KeyMatches(s, e, key); }
    if o: Id :| o in KeyMatches(s, e, key) { assert HasKey(s, o, e, key); }
  }

  // --- the worker ---

  /** An unprocessed event whose time has come. */
  predicate Awaits(s: Tables, o: Id, now: Time) {
    o in s.outbox && !s.outbox[o].processed && s.outbox[o].availableAt <= now
  }

  /** The operation ends without a command, and its event with it. */
  predicate EndsAtOnce(s: Tables, t: Tables, o: Id, status: OperationStatus, e: Id, rows: set<Observation>) {
    && o in s.operations && o in s.outbox
    && t == s.(operations := s.operations[o := s.operations[o].(status := status, progress := None)],
               outbox := s.outbox[o := s.outbox[o].(processed := true)],
               observations := if rows == {} then s.observations else s.observations[e := rows])
  }

  /** A command for the operation waits on its endpoint's node, in that node's epoch. */
  predicate Dispatched(s: Tables, t: Tables, o: Id, n: Id, commandId: Id, now: Time) {
    && o in s.operations && o in s.outbox && n in s.nodes
    && var op, epoch := s.operations[o], s.nodes[n].epoch;
    t == s.(commands := s.commands[o := Command(commandId, n, op.endpoint, op.generation, epoch, op.action, Pending, 0,
                                                None, None, now)],
            operations := s.operations[o := op.(status := Running, node := Some(n), epoch := epoch,
                                                progress := Some(Progress(None, 0, 0, "dispatching", 10)))],
            outbox := s.outbox[o := s.outbox[o].(processed := true)])
  }

  /** The operation waits another 30 s for its node to be upgraded. */
  predicate Postponed(s: Tables, t: Tables, o: Id, now: Time) {
    && o in s.operations && o in s.outbox
    && t == s.(operations := s.operations[o := s.operations[o].(progress := Some(Progress(None, 0, 0, "retrying", 5)))],
               outbox := s.outbox[o := s.outbox[o].(availableAt := now + 30_000)])
  }

  lemma AwaitingIsVisible(s: Tables, o: Id, now: Time)
    requires AllSound(s)
    ensures Awaits(s, o, now) <==> Visible(s, o, now)
  {
  }

  /**
   The worker takes the oldest event whose time has come, and none only if there is none. The operation of an
   endpoint without a node is done at once; one for a SnowLuma node that lacks the pinned artifact waits; one for
   a node of another provider that does not route fails; any other is dispatched.
   */
  lemma EventsAreSettled(w: World, pick: Option<Id>, commandId: Id, now: Time)
    requires Reachable(w) && Legal(w, now, DoProcess(pick, commandId))
    ensures var s := w.tables;
            var t := After(w, now, DoProcess(pick, commandId));
            if pick.None? then t == s && forall o :: !Awaits(s, o, now)
            else
              var o := pick.value;
              && Awaits(s, o, now)
              && (forall p :: Awaits(s, p, now) ==> s.outbox[o].createdAt <= s.outbox[p].createdAt)
              && o in s.operations && s.operations[o].status == Queued
              && var op := s.operations[o];
              && op.endpoint in s.endpoints && !s.endpoints[op.endpoint].deleted
              && op.generation == s.endpoints[op.endpoint].generation
              && SettledAs(s, t, o, commandId, now)
  {
    ReachableIsGood(w);
    var s := w.tables;
    forall o ensures Awaits(s, o, now) <==> Visible(s, o, now) { AwaitingIsVisible(s, o, now); }
    assert PickIsWired(s, pick);
    if pick.Some? {
      ProcessSettles(s, pick.value, commandId, now);
      SettledRows(s, pick.value, commandId, now);
    }
  }

  const PINNED_ARTIFACT :=
      "artifact:snowluma:motricseven7.snowluma.sha256.72d9d31597df0741e84747282e979642405d1afb6c2f83b53add601bafdb4a99"

  ghost predicate SettledAs(s: Tables, t: Tables, o: Id, commandId: Id, now: Time)
    requires o in s.operations && s.operations[o].endpoint in s.endpoints
  {
    var op := s.operations[o];
    var ep := s.endpoints[op.endpoint];
    if ep.node.None? then
      if op.action == Delete then Buried(s, t, op.endpoint, o, op.(status := Succeeded, progress := None))
      else
        EndsAtOnce(s, t, o, Succeeded, op.endpoint,
                   (if op.endpoint in s.observations then s.observations[op.endpoint] else {})
                   + {Observation(now, Some(o), op.generation, if op.action == Stop then "stopped" else "running")})
    else
      && ep.node.value in s.nodes
      && var node := s.nodes[ep.node.value];
      if ep.provider == SnowLuma && node.artifact != Some(PINNED_ARTIFACT) then Postponed(s, t, o, now)
      else if ep.provider != node.provider && !node.providerRouting then EndsAtOnce(s, t, o, Failed, op.endpoint, {})
      else Dispatched(s, t, o, ep.node.value, commandId, now)
  }

  lemma SettledRows(s: Tables, o: Id, commandId: Id, now: Time)
    requires o in s.operations && o in s.outbox && o !in s.commands && s.operations[o].endpoint in s.endpoints
    requires var ep := s.endpoints[s.operations[o].endpoint]; ep.node.Some? ==> ep.node.value in s.nodes
    ensures SettledAs(s, Settle(s, o, commandId, now).tables, o, commandId, now)
  {
    var op := s.operations[o];
    if s.endpoints[op.endpoint].node.None? && op.action == Delete { BuriedRows(s, o); }
  }

  lemma BuriedRows(s: Tables, o: Id)
    requires o in s.operations && s.operations[o].endpoint in s.endpoints
    ensures var op := s.operations[o];
            Buried(s, Finalize(SetStatus(s, o, Succeeded), op.endpoint), op.endpoint, o,
                   op.(status := Succeeded, progress := None))
  {
    var op, u := s.operations[o], SetStatus(s, o, Succeeded);
    forall p ensures p in EndpointOperations(u, op.endpoint) <==>
        p in s.operations && s.operations[p].endpoint == op.endpoint {
    }
  }

  // --- heartbeats ---

  /** The report is about an endpoint of the node at its present generation. */
  predicate Fitting(s: Tables, n: Id, r: RuntimeReport, e: Id) {
    && r.endpoint == e && e in s.endpoints && s.endpoints[e].node == Some(n) && !s.endpoints[e].deleted
    && s.endpoints[e].generation == r.generation
  }

  predicate LastFitting(s: Tables, n: Id, runtimes: seq<RuntimeReport>, e: Id, k: nat) {
    k < |runtimes| && Fitting(s, n, runtimes[k], e) && forall j :: k < j < |runtimes| ==> !Fitting(s, n, runtimes[j], e)
  }

  /** One snapshot row stands for the report: in place of the newest one before it, or beside none. */
  predicate Snapped(before: set<Observation>, after: set<Observation>, row: Observation) {
    && row in after
    && (forall q :: q in after ==> q == row || q in before)
    && (forall q :: q in before && q.operation.Some? ==> q in after)
    && (forall q :: q in before && q.operation.None? ==>
          (q !in after <==> forall p :: p in before && p.operation.None? ==> p.createdAt <= q.createdAt))
  }

  lemma SnapshotOnce(rows: set<Observation>, generation: nat, state: string, clock: Time, now: Time, g: nat)
    requires Chronicle(rows, g, clock) && clock < now
    ensures Snapped(rows, Snapshot(rows, generation, state, now), Observation(now, None, generation, state))
  {
    if r: Observation :| LatestSnapshot(rows, r) {
      assert forall q :: LatestSnapshot(rows, q) ==> q == r;
    } else {
      NoSnapshots(rows);
    }
  }

  lemma NoSnapshots(rows: set<Observation>)
    requires forall r :: !LatestSnapshot(rows, r)
    ensures forall r :: r in rows ==> r.operation.Some?
  {
    var snapshots := set r | r in rows && r.operation.None?;
    assert forall r :: r in rows && r.operation.None? ==> r in snapshots;
    if snapshots != {} {
      var top := MaxExists(snapshots);
      forall q | q in rows && q.operation.None? ensures q.createdAt <= top.createdAt { assert q in snapshots; }
      assert LatestSnapshot(rows, top);
    }
  }

  /** A second report of the same endpoint replaces the first. */
  lemma SnapshotAgain(before: set<Observation>, rows: set<Observation>, row: Observation, generation: nat,
      state: string,
      clock: Time, now: Time, g: nat)
    requires Chronicle(before, g, clock) && clock < now && Snapped(before, rows, row)
    requires row.operation.None? && row.createdAt == now
    ensures Snapped(before, Snapshot(rows, generation, state, now), Observation(now, None, generation, state))
  {
    OnlyLatest(before, rows, row, clock, now, g);
    var next := Observation(now, None, generation, state);
    assert LatestSnapshot(rows, row);
    assert Snapshot(rows, generation, state, now) == rows - {row} + {next};
    Renewed(before, rows, row, next);
  }

  lemma OnlyLatest(before: set<Observation>, rows: set<Observation>, row: Observation, clock: Time, now: Time, g: nat)
    requires Chronicle(before, g, clock) && clock < now && Snapped(before, rows, row)
    requires row.operation.None? && row.createdAt == now
    ensures LatestSnapshot(rows, row) && forall q :: LatestSnapshot(rows, q) ==> q == row
  {
  }

  lemma Renewed(before: set<Observation>, rows: set<Observation>, row: Observation, next: Observation)
    requires Snapped(before, rows, row) && row !in before && next !in before
    ensures Snapped(before, rows - {row} + {next}, next)
  {
    var after := rows - {row} + {next};
    assert forall q :: q in before ==> (q in after <==> q in rows || q == next);
  }

  lemma {:induction false} ReportsSnap(s: Tables, n: Id, runtimes: seq<RuntimeReport>, clock: Time, now: Time, e: Id)
    requires e in s.endpoints && OrderedAt(s, e, clock) && clock < now
    ensures var rows := ObservationsOf(ReportAll(s, n, runtimes, now), e);
            && ((forall j :: 0 <= j < |runtimes| ==> !Fitting(s, n, runtimes[j], e)) ==> rows == ObservationsOf(s, e))
            && (forall k: nat :: LastFitting(s, n, runtimes, e, k) ==>
                  Snapped(ObservationsOf(s, e), rows, Observation(now, None, runtimes[k].generation,
                                                                  runtimes[k].state)))
  {
    if runtimes != [] {
      var m := |runtimes| - 1;
      var rest, last := runtimes[..m], runtimes[m];
      ReportsSnap(s, n, rest, clock, now, e);
      ReportAllFrame(s, n, rest, now);
      var u := ReportAll(s, n, rest, now);
      if Fitting(s, n, last, e) {
        forall k: nat | LastFitting(s, n, runtimes, e, k) ensures k == m { assert Fitting(s, n, runtimes[m], e); }
        if k: nat :| LastFitting(s, n, rest, e, k) {
          SnapshotAgain(ObservationsOf(s, e), ObservationsOf(u, e),
                        Observation(now, None, rest[k].generation, rest[k].state), last.generation, last.state, clock,
                            now,
                        s.endpoints[e].generation);
        } else {
          NoneFits(s, n, rest, e);
          SnapshotOnce(ObservationsOf(s, e), last.generation, last.state, clock, now, s.endpoints[e].generation);
        }
      } else {
        forall k: nat | LastFitting(s, n, runtimes, e, k) ensures LastFitting(s, n, rest, e, k) {
          forall j | k < j < |rest| ensures !Fitting(s, n, rest[j], e) { assert rest[j] == runtimes[j]; }
        }
        forall j | 0 <= j < |rest| ensures rest[j] == runtimes[j] {}
      }
    }
  }

  lemma NoneFits(s: Tables, n: Id, runtimes: seq<RuntimeReport>, e: Id)
    requires forall k :: !LastFitting(s, n, runtimes, e, k)
    ensures forall j :: 0 <= j < |runtimes| ==> !Fitting(s, n, runtimes[j], e)
  {
    var m := |runtimes|;
    while m > 0
      invariant 0 <= m <= |runtimes| && forall j :: m <= j < |runtimes| ==> !Fitting(s, n, runtimes[j], e)
    {
      assert !LastFitting(s, n, runtimes, e, m - 1);
      m := m - 1;
    }
  }

  /** What a takeover makes of a command row: what was open in the node's epoch ends, but deletes are issued anew. */
  function TakenOver(s: Tables, n: Id, o: Id, id: Id, now: Time): Command
    requires n in s.nodes && o in s.commands
  {
    var c, epoch := s.commands[o], s.nodes[n].epoch;
    if c.node != n || c.epoch != epoch || c.status !in {Pending, Leased} then c
    else if c.action == Delete then
      c.(id := id, epoch := epoch + 1, status := Pending, attempts := 0, lease := None, resultAt := None)
    else c.(status := Superseded, resultAt := Some(now))
  }

  /** And of an operation row. */
  function CarriedOver(s: Tables, n: Id, o: Id): Operation
    requires n in s.nodes && o in s.operations
  {
    var op, epoch := s.operations[o], s.nodes[n].epoch;
    if op.node != Some(n) || op.epoch != epoch || op.status != Running then op
    else if op.action == Delete then op.(epoch := epoch + 1, progress := None)
    else op.(status := Failed, progress := None)
  }

  /** The rows after a heartbeat of the session is accepted, but for observations. */
  ghost predicate Connected(s: Tables, t: Tables, n: Id, session: Session, reissue: map<Id, Id>, now: Time)
    requires s.commands.Keys <= reissue.Keys
  {
    && n in s.nodes
    && var node := s.nodes[n];
    var same := node.session == Some(session);
    var takes := node.session.Some? && !same;
    && t.nodes == s.nodes[n := node.(heartbeatAt := Some(now), session := Some(session),
                                     epoch := node.epoch + if same then 0 else 1)]
    && t.retired == s.retired + (if takes then {(n, node.session.value)} else {})
    && t.endpoints == s.endpoints && t.outbox == s.outbox
    && t.commands.Keys == s.commands.Keys && t.operations.Keys == s.operations.Keys
    && (forall o :: o in s.commands ==>
          t.commands[o] == if takes then TakenOver(s, n, o, reissue[o], now) else s.commands[o])
    && (forall o :: o in s.operations ==>
          t.operations[o] == if takes then CarriedOver(s, n, o) else s.operations[o])
  }

  lemma TakeoverCommands(s: Tables, n: Id, reissue: map<Id, Id>, now: Time, o: Id)
    requires n in s.nodes && s.nodes[n].session.Some? && s.commands.Keys <= reissue.Keys
    requires o in s.commands && o in s.operations && Sound(s, o)
    ensures Takeover(s, n, reissue, now).commands[o] == TakenOver(s, n, o, reissue[o], now)
  {
  }

  lemma TakeoverOperations(s: Tables, n: Id, reissue: map<Id, Id>, now: Time, o: Id)
    requires n in s.nodes && s.nodes[n].session.Some? && s.commands.Keys <= reissue.Keys
    requires o in s.operations && Sound(s, o)
    ensures Takeover(s, n, reissue, now).operations[o] == CarriedOver(s, n, o)
  {
  }

  lemma TakeoverLeaves(s: Tables, n: Id, reissue: map<Id, Id>, now: Time)
    requires AllSound(s) && n in s.nodes && s.nodes[n].session.Some? && s.commands.Keys <= reissue.Keys
    ensures var t := Takeover(s, n, reissue, now);
            && t.commands.Keys == s.commands.Keys && t.operations.Keys == s.operations.Keys
            && t == s.(retired := s.retired + {(n, s.nodes[n].session.value)}, commands := t.commands,
                       operations := t.operations)
            && (forall o :: o in s.commands ==> t.commands[o] == TakenOver(s, n, o, reissue[o], now))
            && (forall o :: o in s.operations ==> t.operations[o] == CarriedOver(s, n, o))
  {
    var t := Takeover(s, n, reissue, now);
    forall o | o in s.commands ensures t.commands[o] == TakenOver(s, n, o, reissue[o], now) {
      assert Sound(s, o);
      TakeoverCommands(s, n, reissue, now, o);
    }
    forall o | o in s.operations ensures t.operations[o] == CarriedOver(s, n, o) {
      assert Sound(s, o);
      TakeoverOperations(s, n, reissue, now, o);
    }
  }

  /** The node row after the tables of other kinds. */
  lemma ConnectedNodes(s: Tables, u: Tables, n: Id, session: Session, reissue: map<Id, Id>, now: Time)
    requires n in s.nodes && s.commands.Keys <= reissue.Keys
    requires u == if TakesOver(s, n, session) then Takeover(s, n, reissue, now) else s
    ensures Connect(s, n, session, reissue, now)
         == u.(nodes := s.nodes[n := s.nodes[n].(heartbeatAt := Some(now), session := Some(session),
                                                 epoch := s.nodes[n].epoch
                                                          + if s.nodes[n].session == Some(session) then 0 else 1)])
  {
  }

  lemma ConnectLeaves(s: Tables, n: Id, session: Session, reissue: map<Id, Id>, now: Time)
    requires AllSound(s) && n in s.nodes && s.commands.Keys <= reissue.Keys
    ensures Connected(s, Connect(s, n, session, reissue, now), n, session, reissue, now)
  {
    if TakesOver(s, n, session) {
      TakeoverLeaves(s, n, reissue, now);
      ConnectedNodes(s, Takeover(s, n, reissue, now), n, session, reissue, now);
    } else {
      ConnectedNodes(s, s, n, session, reissue, now);
    }
  }

  lemma ConnectReports(s: Tables, c: Tables, n: Id, runtimes: seq<RuntimeReport>, clock: Time, now: Time, e: Id)
    requires e in s.endpoints && OrderedAt(s, e, clock) && clock < now
    requires c.endpoints == s.endpoints && c.observations == s.observations
    ensures var rows := ObservationsOf(ReportAll(c, n, runtimes, now), e);
            && ((forall j :: 0 <= j < |runtimes| ==> !Fitting(s, n, runtimes[j], e)) ==> rows == ObservationsOf(s, e))
            && (forall k: nat :: LastFitting(s, n, runtimes, e, k) ==>
                  Snapped(ObservationsOf(s, e), rows, Observation(now, None, runtimes[k].generation,
                                                                  runtimes[k].state)))
  {
    ReportsSnap(c, n, runtimes, clock, now, e);
    forall k: nat | k < |runtimes| ensures Fitting(c, n, runtimes[k], e) <==> Fitting(s, n, runtimes[k], e) {}
    forall k: nat ensures LastFitting(c, n, runtimes, e, k) <==> LastFitting(s, n, runtimes, e, k) {}
  }

  lemma AcceptedHeartbeat(s: Tables, n: Id, session: Session, runtimes: seq<RuntimeReport>, reissue: map<Id, Id>,
      now: Time)
    requires s.commands.Keys <= reissue.Keys && Heartbeat(s, n, session, runtimes, reissue, now).reply.Ok?
    ensures n in s.nodes
    ensures var tx, c := Heartbeat(s, n, session, runtimes, reissue, now), Connect(s, n, session, reissue, now);
            && tx.tables == ReportAll(c, n, runtimes, now) && tx.reply.value == c.nodes[n].epoch
            && tx.tables == c.(observations := tx.tables.observations)
            && c.endpoints == s.endpoints && c.observations == s.observations
  {
    ReportAllFrame(Connect(s, n, session, reissue, now), n, runtimes, now);
  }

  /**
   An accepted heartbeat makes its session the node's; if it replaces another, the node's epoch grows, deletes of
   the old epoch are issued anew in the next and everything else running in it fails. Every endpoint of the node
   reported at its generation has the last such report as its newest snapshot; no other observation changes.
   */
  lemma HeartbeatsConnect(w: World, now: Time, n: Id, session: Session, runtimes: seq<RuntimeReport>,
      reissue: map<Id, Id>, e: Id)
    requires Reachable(w) && Legal(w, now, DoHeartbeat(n, session, runtimes, reissue)) && e in w.tables.endpoints
    requires Heartbeat(w.tables, n, session, runtimes, reissue, now).reply.Ok?
    ensures var s, tx := w.tables, Heartbeat(w.tables, n, session, runtimes, reissue, now);
            && Connected(s, tx.tables, n, session, reissue, now) && tx.reply.value == tx.tables.nodes[n].epoch
            && ((forall j :: 0 <= j < |runtimes| ==> !Fitting(s, n, runtimes[j], e)) ==>
                  ObservationsOf(tx.tables, e) == ObservationsOf(s, e))
            && (forall k: nat :: LastFitting(s, n, runtimes, e, k) ==>
                  Snapped(ObservationsOf(s, e), ObservationsOf(tx.tables, e),
                          Observation(now, None, runtimes[k].generation, runtimes[k].state)))
  {
    ReachableIsGood(w);
    var s := w.tables;
    AcceptedHeartbeat(s, n, session, runtimes, reissue, now);
    ConnectLeaves(s, n, session, reissue, now);
    assert OrderedAt(s, e, w.clock);
    ConnectReports(s, Connect(s, n, session, reissue, now), n, runtimes, w.clock, now, e);
  }

  // --- retention ---

  /**
   A row may be deleted exactly if it is more than a day old, or thirty days if an operation left it, is not the
   endpoint's newest, and is not its newest snapshot.
   */
  lemma OldRowsExpire(rows: set<Observation>, now: Time, r: Observation)
    ensures r in ExpiredRows(rows, now) <==>
              && r in rows && r.createdAt + 86_400_000 < now
              && (r.operation.Some? ==> r.createdAt + 2_592_000_000 < now)
              && (exists q :: q in rows && r.createdAt < q.createdAt)
              && (r.operation.None? ==> exists q :: q in rows && q.operation.None? && r.createdAt < q.createdAt)
  {
  }

  // --- revocation ---

  /**
   Revoking a shared node leaves no endpoint on it, no operation running on it and no lease of it in force;
   endpoints and rows of other nodes stay as they are.
   */
  lemma RevocationClears(s: Tables, n: Id, now: Time)
    ensures var t := RevokePool(s, n, now);
            && t.endpoints.Keys == s.endpoints.Keys && t.operations.Keys == s.operations.Keys
            && t.commands.Keys == s.commands.Keys
            && (forall e :: e in s.endpoints ==>
                  t.endpoints[e].node != Some(n)
                  && (s.endpoints[e].node != Some(n) ==> t.endpoints[e] == s.endpoints[e]))
            && (forall o :: o in s.operations ==>
                  !(t.operations[o].node == Some(n) && t.operations[o].status == Running)
                  && (s.operations[o].node != Some(n) ==> t.operations[o] == s.operations[o]))
            && (forall o :: o in s.commands ==>
                  !(t.commands[o].node == n && t.commands[o].status == Leased)
                  && (s.commands[o].node != n ==> t.commands[o] == s.commands[o]))
  {
  }
}
