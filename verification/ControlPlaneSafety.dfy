/**
 The promises of the control plane, for every reachable world and every run from one.
 */
module ControlPlaneSafety {
  import opened Wrappers
  import opened ControlPlane
  import opened ControlPlaneInvariant
  import opened Observations
  import opened ControlPlaneRuns
  import opened ControlPlaneHistory

  // --- coupling of the three tables ---

  /**
   In every reachable world an operation runs exactly while it has an open command, which then carries
   its node, endpoint, generation and epoch, and waits exactly while it has an unprocessed outbox event.
   */
  lemma OperationsAreCoupled(w: World, o: Id)
    requires Reachable(w) && o in w.tables.operations
    ensures var s := w.tables;
            var op := s.operations[o];
            && (op.status == Running <==> o in s.commands && Open(s.commands[o]))
            && (op.status == Queued <==> o in s.outbox && !s.outbox[o].processed)
            && (o in s.commands ==> Describes(s.commands[o], op) && (Live(op) <==> Open(s.commands[o])))
  {
    ReachableIsGood(w);
    assert Sound(w.tables, o);
  }

  /** So the repair sweep never inserts an event, and the worker never takes the generation fence. */
  lemma SweepAndFenceAreIdle(w: World, o: Id, now: Time)
    requires Reachable(w)
    ensures Repair(w.tables, now) == Tx(w.tables, Ok(0))
    ensures Visible(w.tables, o, now) ==>
              var op := w.tables.operations[o];
              op.status == Queued && op.endpoint in w.tables.endpoints
              && !w.tables.endpoints[op.endpoint].deleted && w.tables.endpoints[op.endpoint].generation == op.generation
  {
    ReachableIsGood(w);
    RepairIsIdle(w.tables, now);
    if Visible(w.tables, o, now) { GenerationFenceNeverFires(w.tables, o, now); }
  }

  // --- generations ---

  /** An endpoint has at most one live operation, at its own generation, and none once deleted. */
  lemma OneLiveOperation(w: World, e: Id)
    requires Reachable(w) && e in w.tables.endpoints
    ensures |LiveOperations(w.tables, e)| <= 1
    ensures forall o :: o in LiveOperations(w.tables, e) ==>
              !w.tables.endpoints[e].deleted && w.tables.operations[o].generation == w.tables.endpoints[e].generation
  {
    ReachableIsGood(w);
    var live := LiveOperations(w.tables, e);
    forall o | o in live
      ensures live == {o} && !w.tables.endpoints[e].deleted
              && w.tables.operations[o].generation == w.tables.endpoints[e].generation
    {
      assert LiveAt(w.tables, o) && Sound(w.tables, o);
      OnlyLive(w.tables, o);
    }
  }

  lemma {:induction false} FullRange(gs: set<nat>, n: nat)
    requires |gs| == n && forall g :: g in gs ==> 1 <= g <= n
    ensures forall g :: 1 <= g <= n ==> g in gs
  {
    if n > 0 {
      if n !in gs {
        RangeBound(gs, n - 1);
      }
      var rest := gs - {n};
      FullRange(rest, n - 1);
    }
  }

  lemma {:induction false} RangeBound(gs: set<nat>, n: nat)
    requires forall g :: g in gs ==> 1 <= g <= n
    ensures |gs| <= n
  {
    if n == 0 {
      assert gs == {};
    } else {
      RangeBound(gs - {n}, n - 1);
    }
  }

  lemma {:induction false} ImageSize(s: Tables, ops: set<Id>)
    requires ops <= s.operations.Keys
    requires forall o, p :: o in ops && p in ops && s.operations[o].generation == s.operations[p].generation ==> o == p
    ensures |set o | o in ops :: s.operations[o].generation| == |ops|
    decreases ops
  {
    if ops != {} {
      var o :| o in ops;
      ImageSize(s, ops - {o});
      assert (set p | p in ops :: s.operations[p].generation)
          == (set p | p in ops - {o} :: s.operations[p].generation) + {s.operations[o].generation};
    }
  }

  ghost predicate BumpedTo(s: Tables, e: Id, g: nat) {
    exists o :: o in Bumps(s, e) && s.operations[o].generation == g
  }

  /**
   An endpoint's generation counts the operations ever created that change it, and those carry the
   generations 1 to n, one each.
   */
  lemma GenerationsAreCounted(w: World, e: Id)
    requires Reachable(w) && e in w.tables.endpoints
    ensures |Bumps(w.tables, e)| == w.tables.endpoints[e].generation
    ensures forall g :: 1 <= g <= w.tables.endpoints[e].generation ==> BumpedTo(w.tables, e, g)
    ensures forall o, p :: o in Bumps(w.tables, e) && p in Bumps(w.tables, e) && o != p ==>
              w.tables.operations[o].generation != w.tables.operations[p].generation
  {
    ReachableIsGood(w);
    var s := w.tables;
    assert CountedAt(s, e);
    forall o, p | o in Bumps(s, e) && p in Bumps(s, e) && s.operations[o].generation == s.operations[p].generation
        ensures o == p {
      assert BumpAt(s, o, e, s.operations[o].generation) && BumpAt(s, p, e, s.operations[o].generation);
    }
    forall o | o in Bumps(s, e) ensures 1 <= s.operations[o].generation <= s.endpoints[e].generation {
      assert Within(s, o, e);
    }
    var gs := set o | o in Bumps(s, e) :: s.operations[o].generation;
    ImageSize(s, Bumps(s, e));
    FullRange(gs, s.endpoints[e].generation);
    forall g | 1 <= g <= s.endpoints[e].generation ensures BumpedTo(s, e, g) {
      assert g in gs;
    }
  }

  // --- leases ---

  /**
   A (command, attempt) pair names one lease of the whole history, and a command id one operation on one node
   at one epoch.
   */
  lemma LeaseNamesAreUnique(w: World, j: nat, k: nat)
    requires Reachable(w) && j < k < |w.log.leases|
    requires w.log.leases[j].granted.command == w.log.leases[k].granted.command
    ensures w.log.leases[j].granted.attempt < w.log.leases[k].granted.attempt
    ensures IssueOfGrant(w.log.leases[j]) == IssueOfGrant(w.log.leases[k])
  {
    ReachableIsGood(w);
    assert IsIssue(w.log, IssueOfGrant(w.log.leases[j])) && IsIssue(w.log, IssueOfGrant(w.log.leases[k]));
  }

  /** No command id is selected by a claim more than six times: five leases and one exhaustion. */
  lemma SelectionsAreBounded(w: World, id: Id)
    requires Reachable(w)
    ensures w.log.selected[id] <= 6
  {
    ReachableIsGood(w);
  }

  /** The evidence names the lease its command row holds now, from the session that owns the node now. */
  ghost predicate FromCurrentLease(w: World, n: Id, m: Evidence) {
    var s := w.tables;
    && SessionFence(s, n, m) && Row(s, n, m.command, m.operation)
    && s.commands[m.operation].status == Leased && CommandFence(m.operation, s.commands[m.operation], m)
  }

  /** Such a lease is logged for that node and session, and no later lease of the command is. */
  lemma CurrentLeaseIsLatest(w: World, n: Id, m: Evidence)
    requires Reachable(w) && FromCurrentLease(w, n, m)
    ensures exists k :: && 0 <= k < |w.log.leases|
                        && w.log.leases[k].node == n && w.log.leases[k].session == m.session
                        && w.log.leases[k].granted.command == m.command && w.log.leases[k].granted.attempt == m.attempt
                        && forall j :: 0 <= j < |w.log.leases| && w.log.leases[j].granted.command == m.command ==>
                             w.log.leases[j].granted.attempt <= m.attempt
  {
    ReachableIsGood(w);
    assert LeaseLoggedAt(w, m.operation) && BoundedAt(w, m.operation);
    var k :| 0 <= k < |w.log.leases|
             && w.log.leases[k] == Lease(n, m.session, GrantOf(m.operation, w.tables.commands[m.operation]));
  }

  lemma CurrentLeaseRuns(w: World, n: Id, m: Evidence)
    requires Good(w) && FromCurrentLease(w, n, m)
    ensures var s := w.tables;
            && m.operation in s.operations && s.operations[m.operation].status == Running
                && s.operations[m.operation].endpoint == m.endpoint
            && s.operations[m.operation].generation == m.generation && s.operations[m.operation].epoch == m.epoch
            && s.operations[m.operation].node == Some(n) && s.commands[m.operation].resultAt.None?
            && m.endpoint in s.endpoints && !s.endpoints[m.endpoint].deleted
                && s.endpoints[m.endpoint].generation == m.generation
  {
    assert Sound(w.tables, m.operation);
  }

  lemma RowIsUnique(s: Tables, n: Id, id: Id, o: Id, p: Id)
    requires DistinctIds(s) && Row(s, n, id, o) && Row(s, n, id, p)
    ensures o == p
  {
    assert HasId(s, o, id) && HasId(s, p, id);
  }

  /**
   Progress is accepted exactly from the current lease, with a sequence beyond the one shown; anything
   else, however delayed, duplicated or reordered, changes nothing.
   */
  lemma ProgressIsFenced(w: World, n: Id, m: Evidence, sequence: nat, phase: string, percent: nat, now: Time)
    requires Reachable(w) && m.attempt >= 1
    ensures var tx := RecordProgress(w.tables, n, m, sequence, phase, percent, now);
            && (tx.reply.Ok? <==> FromCurrentLease(w, n, m) && m.operation in w.tables.operations
                                  && !Regressed(w.tables.operations[m.operation].progress, m, sequence))
            && (tx.reply.Err? ==> tx.tables == w.tables)
  {
    ReachableIsGood(w);
    if FromCurrentLease(w, n, m) {
      CurrentLeaseRuns(w, n, m);
      forall o | Row(w.tables, n, m.command, o) ensures o == m.operation {
        RowIsUnique(w.tables, n, m.command, o, m.operation);
      }
    }
  }

  /**
   The result repeats the completion that the operation remembers: same session, node, command, attempt and
   fences.
   */
  ghost predicate RepeatsWinningDelete(w: World, n: Id, m: Evidence, outcome: Outcome) {
    SessionFence(w.tables, n, m) && outcome == OutcomeSucceeded && CompletedDelete(w.tables, n, m)
        && WinningDelete(w.tables, n, m)
  }

  lemma WinnerHasNoRow(w: World, n: Id, m: Evidence, outcome: Outcome, o: Id)
    requires Good(w) && RepeatsWinningDelete(w, n, m, outcome)
    ensures !Row(w.tables, n, m.command, o)
  {
    assert GraveAt(w, m.operation) && Sound(w.tables, m.operation);
    assert IsIssue(w.log, Issue(m.command, m.operation, n, m.endpoint, m.generation, m.epoch, Delete));
    if o in w.tables.commands {
      assert IssuedAt(w, o);
      assert IsIssue(w.log, IssueOf(o, w.tables.commands[o]));
    }
  }

  /**
   A result changes the tables exactly when it comes from the current lease of an endpoint still on the
   node. The only other result not refused repeats a completed delete, and changes nothing. So acceptance
   implies a leased command, although the transaction never tests the command's status.
   */
  lemma ResultsAreFenced(w: World, n: Id, m: Evidence, outcome: Outcome, state: string, now: Time)
    requires Reachable(w) && m.attempt >= 1
    ensures var tx := RecordResult(w.tables, n, m, outcome, state, now);
            var current := FromCurrentLease(w, n, m) && m.endpoint in w.tables.endpoints
                && w.tables.endpoints[m.endpoint].node == Some(n);
            && (tx.reply.Ok? <==> current || RepeatsWinningDelete(w, n, m, outcome))
            && (!current ==> tx.tables == w.tables)
            && (current ==> ResultFence(w.tables, n, m.operation, m)
                            && tx.tables == AcceptResult(w.tables, n, m.operation, m, outcome, state, now))
  {
    ReachableIsGood(w);
    var s := w.tables;
    if FromCurrentLease(w, n, m) {
      CurrentLeaseRuns(w, n, m);
      forall o | Row(s, n, m.command, o) ensures o == m.operation { RowIsUnique(s, n, m.command, o, m.operation); }
    }
    if RepeatsWinningDelete(w, n, m, outcome) {
      forall o ensures !Row(s, n, m.command, o) { WinnerHasNoRow(w, n, m, outcome, o); }
    }
    forall o | SessionFence(s, n, m) && Row(s, n, m.command, o) && ResultFence(s, n, o, m)
      ensures FromCurrentLease(w, n, m) && s.commands[o].resultAt.None?
    {
      ResultFenceIsLeased(s, n, o, m);
    }
  }

  // --- idempotency keys ---

  /** An operation keeps its key and request for ever. */
  lemma {:induction false} OperationsKeepTheirKeys(w: World, run: seq<Event>, o: Id)
    requires Good(w) && LegalRun(w, run) && o in w.tables.operations
    ensures o in Final(w, run).tables.operations
    ensures var op, later := w.tables.operations[o], Final(w, run).tables.operations[o];
            later.endpoint == op.endpoint && later.key == op.key && later.request == op.request
    decreases |run|
  {
    if run != [] {
      StepMovesOperations(w, run[0].now, run[0].step, o);
      StepKeepsGood(w, run[0].now, run[0].step);
      OperationsKeepTheirKeys(Next(w, run[0].now, run[0].step), run[1..], o);
    }
  }

  lemma KeyNamesOperation(s: Tables, m: Mutation, o: Id, newId: Id, now: Time)
    requires KeysUnique(s) && o in s.operations && s.operations[o].endpoint == m.endpoint
             && s.operations[o].key == UserKey(m.key)
    ensures Mutate(s, m, newId, now)
         == if s.operations[o].request == RequestOf(m) then Tx(s, Ok((o, true))) else Tx(s, Err(IdempotencyMismatch))
  {
    assert o in KeyMatches(s, m.endpoint, UserKey(m.key));
    forall p | p in KeyMatches(s, m.endpoint, UserKey(m.key)) ensures p == o {
      assert HasKey(s, p, m.endpoint, UserKey(m.key)) && HasKey(s, o, m.endpoint, UserKey(m.key));
    }
  }

  /**
   Once a mutation is accepted, a request with its key on that endpoint never changes anything again:
   it is answered with the same operation if it asks the same, and refused if it does not.
   */
  lemma MutationsAreIdempotent(w: World, m: Mutation, newId: Id, now: Time, run: seq<Event>, m': Mutation, newId': Id,
      now': Time)
    requires Reachable(w) && Legal(w, now, DoMutate(m, newId)) && Mutate(w.tables, m, newId, now).reply.Ok?
    requires LegalRun(Next(w, now, DoMutate(m, newId)), run) && m'.endpoint == m.endpoint && m'.key == m.key
    ensures var s := Final(Next(w, now, DoMutate(m, newId)), run).tables;
            Mutate(s, m', newId', now') == if RequestOf(m') == RequestOf(m)
                                           then Tx(s, Ok((Mutate(w.tables, m, newId, now).reply.value.0, true)))
                                           else Tx(s, Err(IdempotencyMismatch))
  {
    ReachableIsGood(w);
    var u := Next(w, now, DoMutate(m, newId));
    var o := Mutate(w.tables, m, newId, now).reply.value.0;
    StepKeepsGood(w, now, DoMutate(m, newId));
    assert o in u.tables.operations && u.tables.operations[o].endpoint == m.endpoint
           && u.tables.operations[o].key == UserKey(m.key) && u.tables.operations[o].request == RequestOf(m);
    OperationsKeepTheirKeys(u, run, o);
    RunKeepsGood(u, run);
    KeyNamesOperation(Final(u, run).tables, m', o, newId', now');
  }

  // --- reclaims ---

  /** Every reclaim of the endpoint has ended, and one is recorded at its generation although none counts as recent. */
  predicate ReclaimsBlocked(s: Tables, e: Id) {
    Collides(s, e) && forall o :: o in ReclaimHistory(s, e) ==> !Live(s.operations[o])
  }

  lemma SameReclaims(s: Tables, t: Tables, e: Id)
    requires ReclaimsBlocked(s, e) && e in t.endpoints && t.endpoints[e].generation == s.endpoints[e].generation
    requires ReclaimHistory(t, e) == ReclaimHistory(s, e)
    requires forall o :: o in ReclaimHistory(s, e) ==> o in t.operations && t.operations[o] == s.operations[o]
    ensures ReclaimsBlocked(t, e)
  {
    var key, history := ReclaimKey(s.endpoints[e].generation), ReclaimHistory(s, e);
    assert KeyMatches(t, e, key) == KeyMatches(s, e, key) by {
      assert KeyMatches(t, e, key) <= history && KeyMatches(s, e, key) <= history;
    }
    forall o | o in history
      ensures (set p | p in history && t.operations[p].createdAt > t.operations[o].createdAt)
           == (set p | p in history && s.operations[p].createdAt > s.operations[o].createdAt)
    {
    }
  }

  /** Over a step that adds no reclaim of the endpoint its reclaims stay what they are. */
  lemma BlockedRows(s: Tables, step: Step, t: Tables, e: Id)
    requires ReclaimsBlocked(s, e) && e in t.endpoints && t.endpoints[e].generation == s.endpoints[e].generation
    requires forall o {:trigger OperationMoves(s, t, o)} :: OperationMoves(s, t, o)
    requires forall o {:trigger ReclaimAdded(s, step, t, o)} :: ReclaimAdded(s, step, t, o)
    ensures ReclaimsBlocked(t, e)
  {
    var history := ReclaimHistory(s, e);
    forall o | o in history ensures o in t.operations && t.operations[o] == s.operations[o] {
      assert OperationMoves(s, t, o);
    }
    forall o | o in ReclaimHistory(t, e) ensures o in history {
      assert OperationMoves(s, t, o) && ReclaimAdded(s, step, t, o);
    }
    assert ReclaimHistory(t, e) == history;
    SameReclaims(s, t, e);
  }

  lemma BlockedStep(w: World, now: Time, step: Step, e: Id)
    requires Good(w) && Legal(w, now, step) && ReclaimsBlocked(w.tables, e)
    ensures var t := After(w, now, step);
            && e in t.endpoints && w.tables.endpoints[e].generation <= t.endpoints[e].generation
            && (t.endpoints[e].generation == w.tables.endpoints[e].generation ==> ReclaimsBlocked(t, e))
  {
    var s, t := w.tables, After(w, now, step);
    StepMovesEndpoints(w, now, step, e);
    forall o ensures OperationMoves(s, t, o) { StepMovesOperations(w, now, step, o); }
    forall o ensures ReclaimAdded(s, step, t, o) { StepAddsReclaims(w, now, step, o); }
    if t.endpoints[e].generation == s.endpoints[e].generation { BlockedRows(s, step, t, e); }
  }

  lemma {:induction false} GenerationsNeverFall(w: World, run: seq<Event>, e: Id)
    requires Good(w) && LegalRun(w, run) && e in w.tables.endpoints
    ensures e in Final(w, run).tables.endpoints
    ensures w.tables.endpoints[e].generation <= Final(w, run).tables.endpoints[e].generation
    decreases |run|
  {
    if run != [] {
      StepMovesEndpoints(w, run[0].now, run[0].step, e);
      StepKeepsGood(w, run[0].now, run[0].step);
      GenerationsNeverFall(Next(w, run[0].now, run[0].step), run[1..], e);
    }
  }

  /**
   Once all reclaims of an endpoint have ended, none of them counted as recent, and one at its present
   generation, the unique key refuses every sweep that comes to it for as long as its generation stays.
   */
  lemma {:induction false} BlockedUntilMoved(w: World, run: seq<Event>, e: Id)
    requires Reachable(w) && LegalRun(w, run) && ReclaimsBlocked(w.tables, e)
    ensures var t := Final(w, run).tables;
            && e in t.endpoints && w.tables.endpoints[e].generation <= t.endpoints[e].generation
            && (t.endpoints[e].generation == w.tables.endpoints[e].generation ==> ReclaimsBlocked(t, e))
    decreases |run|
  {
    if run != [] {
      var u := Next(w, run[0].now, run[0].step);
      ReachableIsGood(w);
      BlockedStep(w, run[0].now, run[0].step, e);
      ReachableStep(w, run[0].now, run[0].step);
      ReachableIsGood(u);
      GenerationsNeverFall(u, run[1..], e);
      if u.tables.endpoints[e].generation == w.tables.endpoints[e].generation { BlockedUntilMoved(u, run[1..], e); }
    }
  }

  // --- ended operations ---

  /** The row of an ended operation never changes again. */
  lemma {:induction false} EndedOperationsAreFrozen(w: World, run: seq<Event>, o: Id)
    requires Good(w) && LegalRun(w, run) && o in w.tables.operations && !Live(w.tables.operations[o])
    ensures o in Final(w, run).tables.operations && Final(w, run).tables.operations[o] == w.tables.operations[o]
    decreases |run|
  {
    if run != [] {
      StepMovesOperations(w, run[0].now, run[0].step, o);
      StepKeepsGood(w, run[0].now, run[0].step);
      EndedOperationsAreFrozen(Next(w, run[0].now, run[0].step), run[1..], o);
    }
  }

  lemma ConclusiveResultEnds(w: World, n: Id, m: Evidence, outcome: Outcome, state: string, now: Time)
    requires Good(w) && FromCurrentLease(w, n, m) && ResultFence(w.tables, n, m.operation, m)
             && outcome != OutcomeUnknown
    ensures var t := AcceptResult(w.tables, n, m.operation, m, outcome, state, now);
            m.operation in t.operations && t.operations[m.operation].status == if outcome == OutcomeSucceeded
                then Succeeded else Failed
  {
    assert Sound(w.tables, m.operation);
  }

  /**
   A conclusive result decides its operation: no later result naming the operation changes anything, and the
   status stays.
   */
  lemma FirstResultDecides(w: World, run: seq<Event>, n: Id, m: Evidence, outcome: Outcome, state: string, now: Time,
                           k: Id, m': Evidence, outcome': Outcome, state': string, now': Time)
    requires Reachable(w) && m.attempt >= 1 && FromCurrentLease(w, n, m) && outcome != OutcomeUnknown && now > w.clock
    requires m.endpoint in w.tables.endpoints && w.tables.endpoints[m.endpoint].node == Some(n)
    requires LegalRun(Next(w, now, DoResult(n, m, outcome, state)), run) && m'.operation == m.operation
             && m'.attempt >= 1
    ensures var t := Final(Next(w, now, DoResult(n, m, outcome, state)), run).tables;
            && m.operation in t.operations
            && t.operations[m.operation].status == (if outcome == OutcomeSucceeded then Succeeded else Failed)
            && RecordResult(t, k, m', outcome', state', now').tables == t
  {
    ReachableIsGood(w);
    var step := DoResult(n, m, outcome, state);
    var u := Next(w, now, step);
    StepKeepsGood(w, now, step);
    ReachableStep(w, now, step);
    ResultsAreFenced(w, n, m, outcome, state, now);
    ConclusiveResultEnds(w, n, m, outcome, state, now);
    EndedOperationsAreFrozen(u, run, m.operation);
    ReachableRun(u, run);
    EndedIgnoresResults(Final(u, run), k, m', outcome', state', now');
  }

  /** No result that names an ended operation changes anything. */
  lemma EndedIgnoresResults(w: World, n: Id, m: Evidence, outcome: Outcome, state: string, now: Time)
    requires Reachable(w) && m.attempt >= 1
    requires m.operation in w.tables.operations && !Live(w.tables.operations[m.operation])
    ensures RecordResult(w.tables, n, m, outcome, state, now).tables == w.tables
  {
    ReachableIsGood(w);
    ResultsAreFenced(w, n, m, outcome, state, now);
    if FromCurrentLease(w, n, m) { CurrentLeaseRuns(w, n, m); }
  }

  predicate EndedBy(s: Tables, n: Id, m: Evidence) {
    && m.operation in s.operations && s.operations[m.operation].status == Succeeded
    && s.operations[m.operation].terminal == Some(Terminal(m.command, n, m.session, m.operation, m.endpoint,
                                                           m.generation, m.epoch, m.attempt))
  }

  lemma AcceptedDeleteEnds(w: World, n: Id, m: Evidence, state: string, now: Time)
    requires Good(w) && FromCurrentLease(w, n, m) && w.tables.commands[m.operation].action == Delete
    requires ResultFence(w.tables, n, m.operation, m)
    ensures EndedBy(AcceptResult(w.tables, n, m.operation, m, OutcomeSucceeded, state, now), n, m)
  {
    assert Sound(w.tables, m.operation);
  }

  lemma EndedDeleteAnswers(v: World, n: Id, m: Evidence, k: Id, m': Evidence, outcome: Outcome, state: string,
      now: Time)
    requires Reachable(v) && EndedBy(v.tables, n, m) && m'.operation == m.operation && m'.attempt >= 1
    ensures var tx := RecordResult(v.tables, k, m', outcome, state, now);
            && tx.tables == v.tables
            && (tx.reply.Ok? <==> SessionFence(v.tables, n, m) && k == n && m' == m && outcome == OutcomeSucceeded)
  {
    ReachableIsGood(v);
    assert GraveAt(v, m.operation) && Sound(v.tables, m.operation);
    ResultsAreFenced(v, k, m', outcome, state, now);
  }

  /**
   After an accepted delete result, the same result from the same session is answered without effect and
   any other result naming that operation is refused, for ever.
   */
  lemma WinningDeleteReplays(w: World, run: seq<Event>, n: Id, m: Evidence, state: string, now: Time,
                             k: Id, m': Evidence, outcome': Outcome, state': string, now': Time)
    requires Reachable(w) && m.attempt >= 1 && FromCurrentLease(w, n, m)
             && w.tables.commands[m.operation].action == Delete
    requires m.endpoint in w.tables.endpoints && w.tables.endpoints[m.endpoint].node == Some(n) && now > w.clock
    requires LegalRun(Next(w, now, DoResult(n, m, OutcomeSucceeded, state)), run)
    requires m'.operation == m.operation && m'.attempt >= 1
    ensures var v := Final(Next(w, now, DoResult(n, m, OutcomeSucceeded, state)), run);
            var tx := RecordResult(v.tables, k, m', outcome', state', now');
            && tx.tables == v.tables
            && (tx.reply.Ok? <==> SessionFence(v.tables, n, m) && k == n && m' == m && outcome' == OutcomeSucceeded)
  {
    var step := DoResult(n, m, OutcomeSucceeded, state);
    var u := Next(w, now, step);
    ReachableIsGood(w);
    StepKeepsGood(w, now, step);
    ReachableStep(w, now, step);
    ResultsAreFenced(w, n, m, OutcomeSucceeded, state, now);
    CurrentLeaseRuns(w, n, m);
    var o := m.operation;
    AcceptedDeleteEnds(w, n, m, state, now);
    EndedOperationsAreFrozen(u, run, o);
    RunKeepsGood(u, run);
    var v := Final(u, run);
    ReachableRun(u, run);
    EndedDeleteAnswers(v, n, m, k, m', outcome', state', now');
  }

  lemma {:induction false} RunSnoc(w: World, run: seq<Event>, e: Event)
    requires LegalRun(w, run) && Legal(Final(w, run), e.now, e.step)
    ensures LegalRun(w, run + [e]) && Final(w, run + [e]) == Next(Final(w, run), e.now, e.step)
    decreases |run|
  {
    if run == [] {
      assert (run + [e])[1..] == [];
    } else {
      RunSnoc(Next(w, run[0].now, run[0].step), run[1..], e);
      assert (run + [e])[1..] == run[1..] + [e];
    }
  }

  lemma ReachableStep(w: World, now: Time, step: Step)
    requires Reachable(w) && Legal(w, now, step)
    ensures Reachable(Next(w, now, step))
  {
    var run :| LegalRun(EMPTY, run) && Final(EMPTY, run) == w;
    RunSnoc(EMPTY, run, At(now, step));
  }

  lemma {:induction false} ReachableRun(w: World, run: seq<Event>)
    requires Reachable(w) && LegalRun(w, run)
    ensures Reachable(Final(w, run))
    decreases |run|
  {
    if run != [] {
      ReachableStep(w, run[0].now, run[0].step);
      ReachableRun(Next(w, run[0].now, run[0].step), run[1..]);
    }
  }

  // --- sessions ---

  /** A node's epoch grows by one exactly when its session changes, and never otherwise. */
  lemma EpochFollowsSession(w: World, now: Time, step: Step, n: Id)
    requires Reachable(w) && Legal(w, now, step) && n in w.tables.nodes
    ensures var t := After(w, now, step);
            && n in t.nodes
            && var changed := t.nodes[n].session != w.tables.nodes[n].session;
            t.nodes[n].epoch == w.tables.nodes[n].epoch + if changed then 1 else 0
  {
    ReachableIsGood(w);
    StepMovesNodes(w, now, step, n);
  }

  /**
   Leased commands carry the node's epoch; waiting ones do too unless they were dispatched before the first
   heartbeat.
   */
  lemma OpenCommandsCarryTheEpoch(w: World, o: Id)
    requires Reachable(w) && o in w.tables.commands && Open(w.tables.commands[o])
    ensures var c := w.tables.commands[o];
            && c.node in w.tables.nodes
            && (c.epoch == w.tables.nodes[c.node].epoch || (c.epoch == 0 && c.status == Pending))
  {
    ReachableIsGood(w);
    assert Sound(w.tables, o);
  }

  lemma SessionsStepGrow(w: World, now: Time, step: Step, n: Id)
    requires Inv(w.tables) && Legal(w, now, step) && n in w.tables.nodes
    ensures n in Next(w, now, step).tables.nodes && SessionsOf(w.log, n) <= SessionsOf(Next(w, now, step).log, n)
  {
    LogSessions(w, now, step);
    NodesOnlyGrowByEnrolment(w, now, step);
  }

  lemma {:induction false} SessionsGrow(w: World, run: seq<Event>, n: Id)
    requires Good(w) && LegalRun(w, run) && n in w.tables.nodes
    ensures n in Final(w, run).tables.nodes && SessionsOf(w.log, n) <= SessionsOf(Final(w, run).log, n)
    decreases |run|
  {
    if run != [] {
      SessionsStepGrow(w, run[0].now, run[0].step, n);
      StepKeepsGood(w, run[0].now, run[0].step);
      SessionsGrow(Next(w, run[0].now, run[0].step), run[1..], n);
    }
  }

  lemma SessionStays(w: World, v: World, n: Id, x: Session)
    requires Sessions(w) && Sessions(v) && n in w.tables.nodes && n in v.tables.nodes
    requires SessionsOf(w.log, n) <= SessionsOf(v.log, n) && x in SessionsOf(w.log, n)
             && v.tables.nodes[n].session == Some(x)
    ensures w.tables.nodes[n].session == Some(x) && w.tables.nodes[n].epoch == v.tables.nodes[n].epoch
  {
    assert SessionsAt(w, n) && SessionsAt(v, n);
  }

  /**
   A session that was replaced never owns its node again, and a session that owns its node at two times
   had it in between, at one epoch.
   */
  lemma SessionsNeverReturn(w: World, run: seq<Event>, n: Id, x: Session)
    requires Reachable(w) && LegalRun(w, run) && n in w.tables.nodes && x in SessionsOf(w.log, n)
    ensures n in Final(w, run).tables.nodes
    ensures Final(w, run).tables.nodes[n].session == Some(x) ==>
              w.tables.nodes[n].session == Some(x) && w.tables.nodes[n].epoch == Final(w, run).tables.nodes[n].epoch
  {
    ReachableIsGood(w);
    SessionsGrow(w, run, n);
    RunKeepsGood(w, run);
    if Final(w, run).tables.nodes[n].session == Some(x) { SessionStays(w, Final(w, run), n, x); }
  }

  // --- deletes ---

  predicate RunsDelete(s: Tables, o: Id) {
    o in s.operations && s.operations[o].status == Running && s.operations[o].action == Delete
  }

  /**
   When a new session takes a node over, every running delete of the old epoch goes on with a fresh
   waiting command that the new session can claim at once; every other running operation of it fails.
   */
  lemma TakeoverSparesDeletes(w: World, now: Time, n: Id, session: Session, runtimes: seq<RuntimeReport>,
      reissue: map<Id, Id>, o: Id, later: Time)
    requires Reachable(w) && Legal(w, now, DoHeartbeat(n, session, runtimes, reissue))
    requires n in w.tables.nodes && w.tables.nodes[n].session.Some?
    requires var t := After(w, now, DoHeartbeat(n, session, runtimes, reissue));
             n in t.nodes ==> t.nodes[n].session != w.tables.nodes[n].session
    requires o in w.tables.operations && w.tables.operations[o].status == Running
    requires w.tables.operations[o].node == Some(n) && w.tables.operations[o].epoch == w.tables.nodes[n].epoch
    ensures var t := After(w, now, DoHeartbeat(n, session, runtimes, reissue));
            && o in t.operations && o in t.commands
            && if w.tables.operations[o].action == Delete then
                 && t.operations[o].status == Running && t.operations[o].epoch == w.tables.operations[o].epoch + 1
                 && t.commands[o].status == Pending && t.commands[o].attempts == 0
                 && NeverIssued(w.log, t.commands[o].id) && Claimable(t, n, o, later)
               else
                 t.operations[o].status == Failed && !Open(t.commands[o])
  {
    ReachableIsGood(w);
    assert Sound(w.tables, o);
    StepMovesNodes(w, now, DoHeartbeat(n, session, runtimes, reissue), n);
    ConnectSparesDeletes(w.tables, n, session, reissue, now, o);
    ReportAllFrame(Connect(w.tables, n, session, reissue, now), n, runtimes, now);
  }

  lemma ConnectSparesDeletes(s: Tables, n: Id, session: Session, reissue: map<Id, Id>, now: Time, o: Id)
    requires n in s.nodes && s.commands.Keys <= reissue.Keys && TakesOver(s, n, session)
    requires o in s.operations && Sound(s, o) && s.operations[o].status == Running
    requires s.operations[o].node == Some(n) && s.operations[o].epoch == s.nodes[n].epoch
    ensures var t := Connect(s, n, session, reissue, now);
            && o in t.operations && o in t.commands && o in s.commands
            && if s.operations[o].action == Delete then
                 && t.operations[o] == s.operations[o].(epoch := s.operations[o].epoch + 1, progress := None)
                 && t.commands[o].status == Pending && t.commands[o].attempts == 0 && t.commands[o].id == reissue[o]
                 && Current(t, n, t.commands[o])
               else
                 t.operations[o].status == Failed && !Open(t.commands[o])
  {
  }

  lemma HeartbeatKeepsDelete(s: Tables, n: Id, session: Session, runtimes: seq<RuntimeReport>, reissue: map<Id, Id>,
      now: Time, o: Id)
    requires s.commands.Keys <= reissue.Keys && RunsDelete(s, o)
    ensures RunsDelete(Heartbeat(s, n, session, runtimes, reissue, now).tables, o)
  {
    if n in s.nodes && !s.nodes[n].revoked && !SessionRefused(s, n, session, now) {
      ReportAllFrame(Connect(s, n, session, reissue, now), n, runtimes, now);
    }
  }

  lemma MutateKeepsDelete(s: Tables, m: Mutation, newId: Id, now: Time, o: Id)
    requires RunsDelete(s, o) && newId !in s.operations
    ensures RunsDelete(Mutate(s, m, newId, now).tables, o)
  {
    if s.operations[o].endpoint == m.endpoint { assert o in LiveOperations(s, m.endpoint); }
  }

  lemma ExpireKeepsDelete(s: Tables, e: Id, action: Action, newId: Id, now: Time, o: Id)
    requires RunsDelete(s, o) && newId !in s.operations && (action == Stop || action == Delete)
    ensures RunsDelete(Expire(s, e, action, newId, now).tables, o)
  {
    if s.operations[o].endpoint == e { assert o in LiveOperations(s, e); }
  }

  lemma SettleKeepsDelete(s: Tables, pick: Option<Id>, commandId: Id, now: Time, o: Id)
    requires Inv(s) && PickIsWired(s, pick) && NextEvent(s, pick, now) && RunsDelete(s, o)
    ensures RunsDelete(Process(s, pick, commandId, now).tables, o)
  {
    if pick.Some? { ProcessSettles(s, pick.value, commandId, now); }
  }

  lemma ClaimKeepsDelete(s: Tables, n: Id, session: Session, routing: bool, artifact: Option<string>, pick: Option<Id>,
      now: Time, o: Id)
    requires RunsDelete(s, o) && (pick.Some? ==> pick.value in s.commands)
    requires pick == Some(o) ==> s.commands[o].attempts < MAX_COMMAND_ATTEMPTS
    ensures RunsDelete(Claim(s, n, session, routing, artifact, pick, now).tables, o)
  {
  }

  lemma AcceptKeepsDelete(s: Tables, n: Id, p: Id, m: Evidence, outcome: Outcome, state: string, now: Time, o: Id)
    requires p in s.commands && ResultFence(s, n, p, m) && RunsDelete(s, o) && (p != o || outcome == OutcomeUnknown)
    ensures RunsDelete(AcceptResult(s, n, p, m, outcome, state, now), o)
  {
  }

  /**
   The two ways a running delete ends: a conclusive result of its current lease, or the exhaustion of its
   attempts.
   */
  ghost predicate EndsDelete(w: World, step: Step, o: Id) {
    || (step.DoResult? && step.evidence.operation == o && step.outcome != OutcomeUnknown
        && FromCurrentLease(w, step.node, step.evidence))
    || (step.DoClaim? && step.pick == Some(o) && o in w.tables.commands
        && w.tables.commands[o].attempts >= MAX_COMMAND_ATTEMPTS)
  }

  /**
   No other step of a run does: no takeover, restart, expiry or late message, and not the loss of the
   endpoint's node. Revoking a shared node's grant, which marks running deletes stale, is not a step of runs.
   */
  lemma DeleteEndsOnlyOnEvidence(w: World, now: Time, step: Step, o: Id)
    requires Reachable(w) && Legal(w, now, step) && RunsDelete(w.tables, o) && !EndsDelete(w, step, o)
    ensures RunsDelete(After(w, now, step), o)
  {
    ReachableIsGood(w);
    var s := w.tables;
    match step
    case DoMutate(m, newId) => MutateKeepsDelete(s, m, newId, now, o);
    case DoExpire(e, action, newId) => ExpireKeepsDelete(s, e, action, newId, now, o);
    case DoProcess(pick, commandId) =>
      assert PickIsWired(s, pick);
      SettleKeepsDelete(s, pick, commandId, now, o);
    case DoHeartbeat(n, session, runtimes, reissue) => HeartbeatKeepsDelete(s, n, session, runtimes, reissue, now, o);
    case DoResult(n, m, outcome, state) =>
      ResultsAreFenced(w, n, m, outcome, state, now);
      if After(w, now, step) != s { AcceptKeepsDelete(s, n, m.operation, m, outcome, state, now, o); }
    case DoClaim(n, session, routing, artifact, pick) => ClaimKeepsDelete(s, n, session, routing, artifact, pick, now,
                                                         o);
    case _ =>
  }

  ghost predicate NoEvidence(w: World, run: seq<Event>, o: Id)
    requires LegalRun(w, run)
    decreases |run|
  {
    run == [] || (!EndsDelete(w, run[0].step, o) && NoEvidence(Next(w, run[0].now, run[0].step), run[1..], o))
  }

  /**
   Over any run without such evidence, under any number of takeovers, the delete keeps running and keeps an
   open command.
   */
  lemma {:induction false} DeleteIntentSurvives(w: World, run: seq<Event>, o: Id)
    requires Reachable(w) && LegalRun(w, run) && RunsDelete(w.tables, o) && NoEvidence(w, run, o)
    ensures var t := Final(w, run).tables; RunsDelete(t, o) && o in t.commands && Open(t.commands[o])
    decreases |run|
  {
    if run == [] {
      OperationsAreCoupled(w, o);
    } else {
      DeleteEndsOnlyOnEvidence(w, run[0].now, run[0].step, o);
      ReachableStep(w, run[0].now, run[0].step);
      DeleteIntentSurvives(Next(w, run[0].now, run[0].step), run[1..], o);
    }
  }

  // --- retention ---

  /**
   Any run of retention batches leaves every endpoint's newest row, newest row at its generation and newest
   snapshot unchanged.
   */
  lemma {:induction false} RetentionIsInvisible(w: World, run: seq<Event>, e: Id, r: Observation)
    requires Reachable(w) && LegalRun(w, run) && e in w.tables.endpoints
    requires forall k :: 0 <= k < |run| ==> run[k].step.DoPrune?
    ensures var t := Final(w, run).tables;
            && t.endpoints == w.tables.endpoints
            && (Newest(ObservationsOf(t, e), r) <==> Newest(ObservationsOf(w.tables, e), r))
            && (NewestAt(ObservationsOf(t, e), t.endpoints[e].generation, r) <==>
                NewestAt(ObservationsOf(w.tables, e), t.endpoints[e].generation, r))
            && (LatestSnapshot(ObservationsOf(t, e), r) <==> LatestSnapshot(ObservationsOf(w.tables, e), r))
    decreases |run|
  {
    if run != [] {
      ReachableIsGood(w);
      var step := run[0].step;
      PruneKeepsOrder(w.tables, step.endpoint, step.removed, w.clock, run[0].now);
      ReachableStep(w, run[0].now, step);
      RetentionIsInvisible(Next(w, run[0].now, step), run[1..], e, r);
    }
  }
}
