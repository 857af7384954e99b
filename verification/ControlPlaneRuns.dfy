/**
 Runs of the control plane: any sequence of its transactions, in any order, at strictly increasing
 times, each given whatever request a client, worker or agent may send.

 A log records what no table keeps: every command row ever issued, every lease granted, every
 selection by a claim, and the sessions each node has had. A world is the tables, the clock and the
 log.

 `WorldInv` ties the log to the tables, and `StepKeepsWorld` is the induction step that every safety
 statement over runs rests on; the lemmas before it say which rows each transaction may move.
 */
module ControlPlaneRuns {
  import opened Wrappers
  import opened ControlPlane
  import opened ControlPlaneInvariant
  import opened Observations

  /** The identity of a command row. */
  datatype Issue = Issue(id: Id, operation: Id, node: Id, endpoint: Id, generation: nat, epoch: nat, action: Action)

  function IssueOf(o: Id, c: Command): Issue {
    Issue(c.id, o, c.node, c.endpoint, c.generation, c.epoch, c.action)
  }

  datatype Lease = Lease(node: Id, session: Session, granted: Grant)

  datatype Log = Log(issued: set<Issue>, leases: seq<Lease>, selected: multiset<Id>, sessions: map<Id, seq<Session>>)
  datatype World = World(tables: Tables, clock: Time, log: Log)

  datatype Step =
    | DoEnroll(node: Id, provider: Provider)
    | DoCreate(endpoint: Id, target: Option<Id>, provider: Provider)
    | DoUnassign(endpoint: Id)
    | DoRevoke(node: Id)
    | DoMutate(mutation: Mutation, newId: Id)
    | DoExpire(endpoint: Id, action: Action, newId: Id)
    | DoReclaim(endpoint: Id, staleAfter: Time, newId: Id)
    | DoRepair
    | DoProcess(pick: Option<Id>, commandId: Id)
    | DoHeartbeat(node: Id, session: Session, runtimes: seq<RuntimeReport>, reissue: map<Id, Id>)
    | DoClaim(node: Id, session: Session, routing: bool, artifact: Option<string>, pick: Option<Id>)
    | DoProgress(node: Id, evidence: Evidence, sequence: nat, phase: string, percent: nat)
    | DoResult(node: Id, evidence: Evidence, outcome: Outcome, state: string)
    | DoPrune(endpoint: Id, removed: set<Observation>)

  ghost predicate NeverIssued(log: Log, id: Id) {
    forall i :: i in log.issued ==> i.id != id
  }

  /**
   Ids drawn for new rows are fresh, the worker and the claim take the oldest row, retention deletes only
   expired rows.
   */
  ghost predicate Legal(w: World, now: Time, step: Step) {
    var s := w.tables;
    && now > w.clock
    && match step
       case DoEnroll(n, _) => n !in s.nodes
       case DoCreate(e, target, _) => e !in s.endpoints && (target.Some? ==> target.value in s.nodes)
       case DoUnassign(_) => true
       case DoRevoke(_) => true
       case DoMutate(_, newId) => newId !in s.operations
       case DoExpire(_, action, newId) => newId !in s.operations && (action == Stop || action == Delete)
       case DoReclaim(e, staleAfter, newId) => newId !in s.operations && ReclaimCandidate(s, e, staleAfter, now)
       case DoRepair => true
       case DoProcess(pick, commandId) => NextEvent(s, pick, now) && NeverIssued(w.log, commandId)
       case DoHeartbeat(_, _, _, reissue) =>
         && s.commands.Keys <= reissue.Keys
         && (forall o, p :: o in reissue && p in reissue && reissue[o] == reissue[p] ==> o == p)
         && (forall o :: o in reissue ==> NeverIssued(w.log, reissue[o]))
       case DoClaim(n, _, _, _, pick) => NextCommand(s, n, pick, now)
       case DoProgress(_, m, _, _, _) => m.attempt >= 1
       case DoResult(_, m, _, _) => m.attempt >= 1
       case DoPrune(e, removed) => removed <= ExpiredRows(ObservationsOf(s, e), now)
  }

  /** An endpoint's node exists: a foreign key. */
  ghost predicate PickIsWired(s: Tables, pick: Option<Id>) {
    pick.Some? && pick.value in s.operations && s.operations[pick.value].endpoint in s.endpoints
    && s.endpoints[s.operations[pick.value].endpoint].node.Some?
    ==> s.endpoints[s.operations[pick.value].endpoint].node.value in s.nodes
  }

  ghost function After(w: World, now: Time, step: Step): Tables
    requires Legal(w, now, step)
  {
    var s := w.tables;
    match step
    case DoEnroll(n, provider) => s.(nodes := s.nodes[n := Node(provider, 0, None, None, false, false, None)])
    case DoCreate(e, target, provider) =>
      s.(endpoints := s.endpoints[e := Endpoint(target, provider, 0, StoppedState, false)])
    case DoUnassign(e) =>
      if e in s.endpoints then s.(endpoints := s.endpoints[e := s.endpoints[e].(node := None)]) else s
    case DoRevoke(n) => if n in s.nodes then s.(nodes := s.nodes[n := s.nodes[n].(revoked := true)]) else s
    case DoMutate(m, newId) => Mutate(s, m, newId, now).tables
    case DoExpire(e, action, newId) => Expire(s, e, action, newId, now).tables
    case DoReclaim(e, _, newId) => Reclaim(s, e, newId, now).tables
    case DoRepair => Repair(s, now).tables
    case DoProcess(pick, commandId) => if PickIsWired(s, pick) then Process(s, pick, commandId, now).tables else s
    case DoHeartbeat(n, session, runtimes, reissue) => Heartbeat(s, n, session, runtimes, reissue, now).tables
    case DoClaim(n, session, routing, artifact, pick) => Claim(s, n, session, routing, artifact, pick, now).tables
    case DoProgress(n, m, sequence, phase, percent) => RecordProgress(s, n, m, sequence, phase, percent, now).tables
    case DoResult(n, m, outcome, state) => RecordResult(s, n, m, outcome, state, now).tables
    case DoPrune(e, removed) => Prune(s, e, removed)
  }

  /** A heartbeat that makes `session` the node's session. */
  ghost predicate Replaces(s: Tables, now: Time, n: Id, session: Session) {
    n in s.nodes && !s.nodes[n].revoked && !SessionRefused(s, n, session, now) && s.nodes[n].session != Some(session)
  }

  ghost predicate Selects(s: Tables, n: Id, session: Session, pick: Option<Id>) {
    n in s.nodes && !s.nodes[n].revoked && s.nodes[n].session == Some(session) && pick.Some? && pick.value in s.commands
  }

  ghost function SessionsOf(log: Log, n: Id): seq<Session> {
    if n in log.sessions then log.sessions[n] else []
  }

  ghost function Record(log: Log, s: Tables, now: Time, step: Step, t: Tables): Log {
    var issued := log.issued + set o | o in t.commands :: IssueOf(o, t.commands[o]);
    match step
    case DoHeartbeat(n, session, _, _) =>
      if Replaces(s, now, n, session) then
        log.(issued := issued, sessions := log.sessions[n := SessionsOf(log, n) + [session]])
      else log.(issued := issued)
    case DoClaim(n, session, _, _, pick) =>
      if Selects(s, n, session, pick) then
        var o := pick.value;
        log.(issued := issued, selected := log.selected + multiset{s.commands[o].id},
             leases := if s.commands[o].attempts >= MAX_COMMAND_ATTEMPTS || o !in t.commands then log.leases
                       else log.leases + [Lease(n, session, GrantOf(o, t.commands[o]))])
      else log.(issued := issued)
    case _ => log.(issued := issued)
  }

  ghost function Next(w: World, now: Time, step: Step): World
    requires Legal(w, now, step)
  {
    var t := After(w, now, step);
    World(t, now, Record(w.log, w.tables, now, step, t))
  }

  // --- the invariant of worlds ---

  ghost predicate IssuedAt(w: World, o: Id)
    requires o in w.tables.commands
  {
    IssueOf(o, w.tables.commands[o]) in w.log.issued
  }

  predicate IsIssue(log: Log, i: Issue) { i in log.issued }

  ghost predicate Issued(w: World) {
    && (forall o {:trigger IssuedAt(w, o)} :: o in w.tables.commands ==> IssuedAt(w, o))
    && (forall i, j {:trigger IsIssue(w.log, i), IsIssue(w.log, j)} ::
          IsIssue(w.log, i) && IsIssue(w.log, j) && i.id == j.id ==> i == j)
  }

  function IssueOfGrant(l: Lease): Issue {
    Issue(l.granted.command, l.granted.operation, l.node, l.granted.endpoint, l.granted.generation, l.granted.epoch,
          l.granted.action)
  }

  /**
   Leases come from issued rows, no (command, attempt) pair is granted twice, and a row's attempts bound its
   leases.
   */
  ghost predicate LeasesUnique(log: Log) {
    && (forall k :: 0 <= k < |log.leases| ==> IssueOfGrant(log.leases[k]) in log.issued)
    && (forall j, k :: 0 <= j < k < |log.leases| && log.leases[j].granted.command == log.leases[k].granted.command ==>
          log.leases[j].granted.attempt < log.leases[k].granted.attempt)
  }

  ghost predicate BoundedAt(w: World, o: Id)
    requires o in w.tables.commands
  {
    forall k :: 0 <= k < |w.log.leases| && w.log.leases[k].granted.command == w.tables.commands[o].id ==>
      w.log.leases[k].granted.attempt <= w.tables.commands[o].attempts
  }

  /** The row's current lease is logged, with the session that still owns the node. */
  ghost predicate LeaseLoggedAt(w: World, o: Id)
    requires o in w.tables.commands
  {
    var c := w.tables.commands[o];
    c.status == Leased ==>
      && c.node in w.tables.nodes && w.tables.nodes[c.node].session.Some?
      && Lease(c.node, w.tables.nodes[c.node].session.value, GrantOf(o, c)) in w.log.leases
  }

  ghost predicate SelectionsAt(w: World, o: Id)
    requires o in w.tables.commands
  {
    var c := w.tables.commands[o];
    Open(c) ==> w.log.selected[c.id] == c.attempts
  }

  ghost predicate Leases(w: World) {
    && LeasesUnique(w.log)
    && (forall o {:trigger BoundedAt(w, o)} :: o in w.tables.commands ==> BoundedAt(w, o))
    && (forall o {:trigger LeaseLoggedAt(w, o)} :: o in w.tables.commands ==> LeaseLoggedAt(w, o))
  }

  ghost predicate Selections(w: World) {
    && (forall id :: w.log.selected[id] <= MAX_COMMAND_ATTEMPTS + 1)
    && (forall id {:trigger NeverIssued(w.log, id)} :: NeverIssued(w.log, id) ==> w.log.selected[id] == 0)
    && (forall o {:trigger SelectionsAt(w, o)} :: o in w.tables.commands ==> SelectionsAt(w, o))
  }

  /** A node's epoch counts its sessions; they are distinct, the last is current and the others are retired. */
  ghost predicate SessionsAt(w: World, n: Id)
    requires n in w.tables.nodes
  {
    var log := SessionsOf(w.log, n);
    && |log| == w.tables.nodes[n].epoch
    && (w.tables.nodes[n].session == if log == [] then None else Some(log[|log| - 1]))
    && (forall j, k :: 0 <= j < k < |log| ==> log[j] != log[k])
    && (forall k :: 0 <= k < |log| - 1 ==> (n, log[k]) in w.tables.retired)
  }

  ghost predicate Sessions(w: World) {
    && (forall n {:trigger SessionsAt(w, n)} :: n in w.tables.nodes ==> SessionsAt(w, n))
    && w.log.sessions.Keys <= w.tables.nodes.Keys
  }

  ghost predicate WorldInv(w: World) {
    Inv(w.tables) && Ordered(w.tables, w.clock) && Issued(w) && Leases(w) && Selections(w) && Sessions(w)
  }

  const EMPTY := World(Tables(map[], {}, map[], map[], map[], map[], map[]), 0, Log({}, [], multiset{}, map[]))

  lemma EmptyWorld()
    ensures WorldInv(EMPTY)
  {
  }

  // --- tables ---

  lemma StepKeepsTables(w: World, now: Time, step: Step)
    requires WorldInv(w) && Legal(w, now, step)
    ensures Inv(After(w, now, step))
  {
    var s := w.tables;
    match step
    case DoEnroll(n, _) => EnrollKeeps(s, After(w, now, step), n);
    case DoCreate(e, _, _) => CreateKeeps(s, After(w, now, step), e);
    case DoUnassign(e) => UnassignKeeps(s, After(w, now, step), e);
    case DoRevoke(_) => NodeColumnsKeep(s, After(w, now, step));
    case DoMutate(m, newId) => MutateKeeps(s, m, newId, now);
    case DoExpire(e, action, newId) => ExpireKeeps(s, e, action, newId, now);
    case DoReclaim(e, _, newId) => ReclaimKeeps(s, e, newId, now);
    case DoRepair => RepairIsIdle(s, now);
    case DoProcess(pick, commandId) =>
      NeverIssuedIsUnused(w, commandId);
      ProcessKeeps(s, pick, commandId, now);
    case DoHeartbeat(n, session, runtimes, reissue) =>
      FreshBatchFromLog(w, reissue);
      HeartbeatKeeps(s, n, session, runtimes, reissue, now);
    case DoClaim(n, session, routing, artifact, pick) => ClaimKeeps(s, n, session, routing, artifact, pick, now);
    case DoProgress(n, m, sequence, phase, percent) => ProgressKeeps(s, n, m, sequence, phase, percent, now);
    case DoResult(n, m, outcome, state) => ResultKeeps(s, n, m, outcome, state, now);
    case DoPrune(_, _) => InvIgnoresObservations(s, After(w, now, step));
  }

  lemma NeverIssuedIsUnused(w: World, id: Id)
    requires Issued(w) && NeverIssued(w.log, id)
    ensures forall o :: o in w.tables.commands ==> w.tables.commands[o].id != id
  {
    forall o | o in w.tables.commands ensures w.tables.commands[o].id != id { assert IssuedAt(w, o); }
  }

  lemma FreshBatchFromLog(w: World, reissue: map<Id, Id>)
    requires Issued(w) && w.tables.commands.Keys <= reissue.Keys
    requires forall o, p :: o in reissue && p in reissue && reissue[o] == reissue[p] ==> o == p
    requires forall o :: o in reissue ==> NeverIssued(w.log, reissue[o])
    ensures FreshBatch(w.tables, reissue)
  {
    forall o, p | o in reissue && p in w.tables.commands ensures reissue[o] != w.tables.commands[p].id {
      NeverIssuedIsUnused(w, reissue[o]);
    }
  }

  lemma EnrollKeeps(s: Tables, t: Tables, n: Id)
    requires Inv(s) && n !in s.nodes && t == s.(nodes := t.nodes) && t.nodes.Keys == s.nodes.Keys + {n}
    requires t.nodes[n].session.None? && t.nodes[n].epoch == 0
    requires forall m :: m in s.nodes ==> t.nodes[m] == s.nodes[m]
    ensures Inv(t)
  {
    forall p | p in t.operations ensures Sound(t, p) { assert Sound(s, p); }
    Assemble(s, t);
  }

  lemma CreateKeeps(s: Tables, t: Tables, e: Id)
    requires Inv(s) && e !in s.endpoints && t == s.(endpoints := t.endpoints)
             && t.endpoints.Keys == s.endpoints.Keys + {e}
    requires t.endpoints[e].generation == 0 && (t.endpoints[e].node.Some? ==> t.endpoints[e].node.value in s.nodes)
    requires forall f :: f in s.endpoints ==> t.endpoints[f] == s.endpoints[f]
    ensures Inv(t)
  {
    forall p | p in t.operations ensures Sound(t, p) && t.operations[p].endpoint != e { assert Sound(s, p); }
    forall p, q | LiveAt(t, p) && LiveAt(t, q) && t.operations[p].endpoint == t.operations[q].endpoint ensures p == q {
      assert LiveAt(s, p) && LiveAt(s, q);
    }
    forall p, q, id | HasId(t, p, id) && HasId(t, q, id) ensures p == q { assert HasId(s, p, id) && HasId(s, q, id); }
    SameKeys(s, t);
    forall f | f in t.endpoints ensures CountedAt(t, f) {
      if f == e { assert Bumps(t, e) == {}; }
      else {
        assert CountedAt(s, f) && Bumps(t, f) == Bumps(s, f);
        forall p ensures Within(t, p, f) { assert Within(s, p, f); }
        forall p, q, g | BumpAt(t, p, f, g) && BumpAt(t, q, f, g) ensures p == q {
          assert BumpAt(s, p, f, g) && BumpAt(s, q, f, g);
        }
      }
    }
  }

  lemma UnassignKeeps(s: Tables, t: Tables, e: Id)
    requires Inv(s) && t == s.(endpoints := t.endpoints)
    requires t.endpoints == if e in s.endpoints then s.endpoints[e := s.endpoints[e].(node := None)] else s.endpoints
    ensures Inv(t)
  {
    forall p | p in t.operations ensures Sound(t, p) { assert Sound(s, p); }
    Assemble(s, t);
  }

  // --- what one step does to nodes and command rows ---

  predicate SameIdentity(c: Command, d: Command) {
    d.id == c.id && d.node == c.node && d.endpoint == c.endpoint && d.generation == c.generation && d.epoch == c.epoch
        && d.action == c.action
  }

  /** The row is untouched as far as leases go, or closed. */
  predicate Kept(c: Command, d: Command) {
    SameIdentity(c, d) && d.attempts == c.attempts && (Open(d) ==> d.status == c.status)
  }

  predicate Advanced(c: Command, d: Command) {
    SameIdentity(c, d) && c.attempts < MAX_COMMAND_ATTEMPTS && d.attempts == c.attempts + 1 && d.status == Leased
  }

  ghost predicate Newborn(log: Log, d: Command) {
    NeverIssued(log, d.id) && d.status == Pending && d.attempts == 0
  }

  ghost predicate CommandMoves(w: World, step: Step, t: Tables, o: Id) {
    var s := w.tables;
    o in t.commands ==>
      || (o in s.commands && Kept(s.commands[o], t.commands[o]))
      || Newborn(w.log, t.commands[o])
      || (step.DoClaim? && step.pick == Some(o) && Selects(s, step.node, step.session, step.pick)
          && Advanced(s.commands[o], t.commands[o]))
  }

  lemma HeartbeatMoves(w: World, now: Time, step: Step, o: Id)
    requires Inv(w.tables) && Legal(w, now, step) && step.DoHeartbeat?
    ensures CommandMoves(w, step, After(w, now, step), o)
  {
    var s := w.tables;
    var n, session := step.node, step.session;
    if n in s.nodes && !s.nodes[n].revoked && !SessionRefused(s, n, session, now) {
      ReportAllFrame(Connect(s, n, session, step.reissue, now), n, step.runtimes, now);
    }
  }

  lemma SettleMoves(s: Tables, p: Id, commandId: Id, now: Time, o: Id)
    requires p in s.operations && p in s.outbox && p !in s.commands && s.operations[p].endpoint in s.endpoints
    requires var ep := s.endpoints[s.operations[p].endpoint]; ep.node.Some? ==> ep.node.value in s.nodes
    ensures var t := Settle(s, p, commandId, now).tables;
            o in t.commands ==>
              || (o in s.commands && t.commands[o] == s.commands[o])
              || (t.commands[o].id == commandId && t.commands[o].status == Pending && t.commands[o].attempts == 0)
  {
  }

  lemma ProcessMoves(w: World, now: Time, step: Step, o: Id)
    requires Inv(w.tables) && Legal(w, now, step) && step.DoProcess?
    ensures CommandMoves(w, step, After(w, now, step), o)
  {
    if step.pick.Some? {
      ProcessSettles(w.tables, step.pick.value, step.commandId, now);
      SettleMoves(w.tables, step.pick.value, step.commandId, now, o);
    }
  }

  lemma AcceptMoves(s: Tables, n: Id, p: Id, m: Evidence, outcome: Outcome, state: string, now: Time, o: Id)
    requires Row(s, n, m.command, p) && ResultFence(s, n, p, m)
    ensures var t := AcceptResult(s, n, p, m, outcome, state, now);
            o in t.commands ==> o in s.commands && Kept(s.commands[o], t.commands[o])
  {
  }

  lemma ResultMoves(s: Tables, n: Id, m: Evidence, outcome: Outcome, state: string, now: Time, o: Id)
    ensures var t := RecordResult(s, n, m, outcome, state, now).tables;
            o in t.commands ==> o in s.commands && Kept(s.commands[o], t.commands[o])
  {
    ResultShape(s, n, m, outcome, state, now);
    if RecordResult(s, n, m, outcome, state, now).tables != s {
      AcceptMoves(s, n, m.operation, m, outcome, state, now, o);
    }
  }

  lemma ProgressMoves(s: Tables, n: Id, m: Evidence, sequence: nat, phase: string, percent: nat, now: Time, o: Id)
    ensures var t := RecordProgress(s, n, m, sequence, phase, percent, now).tables;
            o in t.commands ==> o in s.commands && Kept(s.commands[o], t.commands[o])
  {
  }

  lemma ExhaustRows(s: Tables, p: Id, now: Time, o: Id)
    requires p in s.commands && o in s.commands
    ensures o in Exhaust(s, p, now).commands && Kept(s.commands[o], Exhaust(s, p, now).commands[o])
  {
  }

  lemma ClaimRows(s: Tables, n: Id, session: Session, routing: bool, artifact: Option<string>, pick: Option<Id>,
      now: Time, o: Id)
    requires NextCommand(s, n, pick, now)
    ensures var t := Claim(s, n, session, routing, artifact, pick, now).tables;
            o in t.commands ==>
              && o in s.commands
              && (Kept(s.commands[o], t.commands[o])
                  || (pick == Some(o) && Selects(s, n, session, pick) && Advanced(s.commands[o], t.commands[o])))
  {
    if n in s.nodes && pick.Some? && o in s.commands {
      ExhaustRows(Advertise(s, n, routing, artifact), pick.value, now, o);
    }
  }

  lemma ClaimMoves(w: World, now: Time, step: Step, o: Id)
    requires Inv(w.tables) && Legal(w, now, step) && step.DoClaim?
    ensures CommandMoves(w, step, After(w, now, step), o)
  {
    ClaimRows(w.tables, step.node, step.session, step.routing, step.artifact, step.pick, now, o);
  }

  predicate RowsKept(s: Tables, t: Tables, o: Id) {
    o in t.commands ==> o in s.commands && Kept(s.commands[o], t.commands[o])
  }

  lemma MutateKeepsRows(s: Tables, m: Mutation, newId: Id, now: Time, o: Id)
    ensures RowsKept(s, Mutate(s, m, newId, now).tables, o)
  {
  }

  lemma ExpireKeepsRows(s: Tables, e: Id, action: Action, newId: Id, now: Time, o: Id)
    requires action == Stop || action == Delete
    ensures RowsKept(s, Expire(s, e, action, newId, now).tables, o)
  {
  }

  lemma ClientMoves(w: World, now: Time, step: Step, o: Id)
    requires Legal(w, now, step) && (step.DoMutate? || step.DoExpire? || step.DoReclaim?)
    ensures CommandMoves(w, step, After(w, now, step), o)
  {
    match step
    case DoMutate(m, newId) => MutateKeepsRows(w.tables, m, newId, now, o);
    case DoExpire(e, action, newId) => ExpireKeepsRows(w.tables, e, action, newId, now, o);
    case _ =>
  }

  lemma StepMovesCommands(w: World, now: Time, step: Step, o: Id)
    requires WorldInv(w) && Legal(w, now, step)
    ensures CommandMoves(w, step, After(w, now, step), o)
  {
    if step.DoProcess? { ProcessMoves(w, now, step, o); }
    else if step.DoHeartbeat? { HeartbeatMoves(w, now, step, o); }
    else if step.DoClaim? { ClaimMoves(w, now, step, o); }
    else if step.DoProgress? {
      ProgressMoves(w.tables, step.node, step.evidence, step.sequence, step.phase, step.percent, now, o);
    } else if step.DoResult? { ResultMoves(w.tables, step.node, step.evidence, step.outcome, step.state, now, o); }
    else if step.DoMutate? || step.DoExpire? || step.DoReclaim? { ClientMoves(w, now, step, o); }
    else { assert After(w, now, step).commands == w.tables.commands; }
  }

  /**
   Only an accepted heartbeat changes a node's epoch or session; it raises the epoch exactly when it replaces
   the session.
   */
  predicate EpochMoves(s: Tables, now: Time, step: Step, t: Tables, n: Id) {
    n in s.nodes ==>
      && n in t.nodes
      && if step.DoHeartbeat? && step.node == n && !s.nodes[n].revoked && !SessionRefused(s, n, step.session, now) then
           && t.nodes[n].session == Some(step.session)
           && t.nodes[n].epoch == s.nodes[n].epoch + if s.nodes[n].session == Some(step.session) then 0 else 1
         else t.nodes[n].session == s.nodes[n].session && t.nodes[n].epoch == s.nodes[n].epoch
  }

  lemma ResultKeepsNodes(s: Tables, n: Id, m: Evidence, outcome: Outcome, state: string, now: Time)
    ensures var t := RecordResult(s, n, m, outcome, state, now).tables; t.nodes == s.nodes && t.retired == s.retired
  {
  }

  lemma MutateKeepsNodes(s: Tables, m: Mutation, newId: Id, now: Time)
    ensures var t := Mutate(s, m, newId, now).tables; t.nodes == s.nodes && t.retired == s.retired
  {
  }

  lemma ProcessKeepsNodes(w: World, now: Time, step: Step)
    requires Inv(w.tables) && Legal(w, now, step) && step.DoProcess?
    ensures After(w, now, step).nodes == w.tables.nodes && After(w, now, step).retired == w.tables.retired
  {
    if step.pick.Some? { ProcessSettles(w.tables, step.pick.value, step.commandId, now); }
  }

  /** Only enrolment, revocation, heartbeats, claims and progress write node rows. */
  lemma StepKeepsNodes(w: World, now: Time, step: Step)
    requires Inv(w.tables) && Legal(w, now, step)
    requires !step.DoEnroll? && !step.DoRevoke? && !step.DoHeartbeat? && !step.DoClaim? && !step.DoProgress?
    ensures After(w, now, step).nodes == w.tables.nodes && After(w, now, step).retired == w.tables.retired
  {
    match step
    case DoResult(n, m, outcome, state) => ResultKeepsNodes(w.tables, n, m, outcome, state, now);
    case DoMutate(m, newId) => MutateKeepsNodes(w.tables, m, newId, now);
    case DoProcess(_, _) => ProcessKeepsNodes(w, now, step);
    case _ =>
  }

  predicate SameEpochs(s: Tables, t: Tables) {
    && t.retired == s.retired && t.nodes.Keys == s.nodes.Keys
    && forall n :: n in s.nodes ==> t.nodes[n].session == s.nodes[n].session && t.nodes[n].epoch == s.nodes[n].epoch
  }

  lemma AdvertiseKeepsEpochs(s: Tables, n: Id, routing: bool, artifact: Option<string>)
    requires n in s.nodes
    ensures SameEpochs(s, Advertise(s, n, routing, artifact))
  {
  }

  lemma ExhaustKeepsNodes(s: Tables, o: Id, now: Time)
    requires o in s.commands
    ensures Exhaust(s, o, now).nodes == s.nodes && Exhaust(s, o, now).retired == s.retired
  {
  }

  /** Claims and progress touch node columns other than session, epoch and revocation. */
  lemma ClaimKeepsEpochs(s: Tables, n: Id, session: Session, routing: bool, artifact: Option<string>, pick: Option<Id>,
      now: Time)
    requires pick.Some? ==> pick.value in s.commands
    ensures SameEpochs(s, Claim(s, n, session, routing, artifact, pick, now).tables)
  {
    if n in s.nodes {
      AdvertiseKeepsEpochs(s, n, routing, artifact);
      if pick.Some? { ExhaustKeepsNodes(Advertise(s, n, routing, artifact), pick.value, now); }
    }
  }

  lemma ProgressKeepsEpochs(s: Tables, n: Id, m: Evidence, sequence: nat, phase: string, percent: nat, now: Time)
    ensures SameEpochs(s, RecordProgress(s, n, m, sequence, phase, percent, now).tables)
  {
  }

  lemma HeartbeatMovesNodes(s: Tables, m: Id, session: Session, runtimes: seq<RuntimeReport>, reissue: map<Id, Id>,
      now: Time)
    requires s.commands.Keys <= reissue.Keys
    ensures var t := Heartbeat(s, m, session, runtimes, reissue, now).tables;
            && t.nodes.Keys == s.nodes.Keys
            && (forall n :: n in s.nodes && n != m ==> t.nodes[n] == s.nodes[n])
            && (m in s.nodes && !s.nodes[m].revoked && !SessionRefused(s, m, session, now) ==>
                  && t.nodes[m].session == Some(session)
                  && t.nodes[m].epoch == s.nodes[m].epoch + (if s.nodes[m].session == Some(session) then 0 else 1)
                  && t.retired == s.retired + if TakesOver(s, m, session) then {(m, s.nodes[m].session.value)} else {})
            && (!(m in s.nodes && !s.nodes[m].revoked && !SessionRefused(s, m, session, now)) ==> t == s)
  {
    if m in s.nodes && !s.nodes[m].revoked && !SessionRefused(s, m, session, now) {
      ReportAllFrame(Connect(s, m, session, reissue, now), m, runtimes, now);
    }
  }

  lemma StepMovesNodes(w: World, now: Time, step: Step, n: Id)
    requires Inv(w.tables) && Legal(w, now, step)
    ensures EpochMoves(w.tables, now, step, After(w, now, step), n)
  {
    if n in w.tables.nodes {
      if step.DoHeartbeat? {
        HeartbeatMovesNodes(w.tables, step.node, step.session, step.runtimes, step.reissue, now);
      } else if step.DoClaim? {
        ClaimKeepsEpochs(w.tables, step.node, step.session, step.routing, step.artifact, step.pick, now);
      } else if step.DoProgress? {
        ProgressKeepsEpochs(w.tables, step.node, step.evidence, step.sequence, step.phase, step.percent, now);
      } else if !step.DoEnroll? && !step.DoRevoke? {
        StepKeepsNodes(w, now, step);
      }
    }
  }

  // --- every step keeps the log's invariants ---

  ghost predicate Moved(w: World, step: Step, v: World) {
    forall o {:trigger CommandMoves(w, step, v.tables, o)} :: CommandMoves(w, step, v.tables, o)
  }

  lemma StepMoved(w: World, now: Time, step: Step)
    requires WorldInv(w) && Legal(w, now, step)
    ensures Moved(w, step, Next(w, now, step))
  {
    forall o ensures CommandMoves(w, step, After(w, now, step), o) { StepMovesCommands(w, now, step, o); }
  }

  lemma LogIssues(w: World, now: Time, step: Step)
    requires Inv(w.tables) && Legal(w, now, step)
    ensures var v := Next(w, now, step);
            v.log.issued == w.log.issued + set o | o in v.tables.commands :: IssueOf(o, v.tables.commands[o])
  {
  }

  lemma IssuedStep(w: World, now: Time, step: Step)
    requires Inv(w.tables) && Issued(w) && Legal(w, now, step) && Moved(w, step, Next(w, now, step))
    requires DistinctIds(After(w, now, step))
    ensures Issued(Next(w, now, step))
  {
    var v := Next(w, now, step);
    var t := v.tables;
    LogIssues(w, now, step);
    forall o | o in t.commands ensures IssuedAt(v, o) {}
    forall o | o in t.commands
      ensures IsIssue(w.log, IssueOf(o, t.commands[o])) || NeverIssued(w.log, t.commands[o].id)
    {
      assert CommandMoves(w, step, t, o);
      if o in w.tables.commands { assert IssuedAt(w, o); }
    }
    forall i | IsIssue(v.log, i) && !IsIssue(w.log, i)
      ensures NeverIssued(w.log, i.id) && exists o :: HasId(t, o, i.id) && i == IssueOf(o, t.commands[o])
    {
      var o :| o in t.commands && i == IssueOf(o, t.commands[o]);
      assert HasId(t, o, i.id);
    }
    forall i, j | IsIssue(v.log, i) && IsIssue(v.log, j) && i.id == j.id ensures i == j {
    }
  }

  /** The lease a step grants, if it grants one. */
  ghost predicate Grants(w: World, step: Step, t: Tables) {
    && step.DoClaim? && Selects(w.tables, step.node, step.session, step.pick)
    && w.tables.commands[step.pick.value].attempts < MAX_COMMAND_ATTEMPTS && step.pick.value in t.commands
  }

  lemma LogLeases(w: World, now: Time, step: Step)
    requires Inv(w.tables) && Legal(w, now, step)
    ensures var v := Next(w, now, step);
            v.log.leases == if Grants(w, step, v.tables)
                            then w.log.leases + [Lease(step.node, step.session,
                                                       GrantOf(step.pick.value, v.tables.commands[step.pick.value]))]
                            else w.log.leases
  {
  }

  lemma GrantAdvances(w: World, now: Time, step: Step)
    requires Inv(w.tables) && Legal(w, now, step) && Grants(w, step, After(w, now, step))
    ensures var o := step.pick.value;
            Advanced(w.tables.commands[o], After(w, now, step).commands[o]) && w.tables.commands[o].node == step.node
  {
  }

  /**
   A row of the new tables that is not being granted was there before, with the same id and attempts, or is
   newborn.
   */
  lemma LeasesStep(w: World, now: Time, step: Step)
    requires Inv(w.tables) && Issued(w) && Leases(w) && Legal(w, now, step) && Moved(w, step, Next(w, now, step))
    requires Inv(After(w, now, step))
    ensures Leases(Next(w, now, step))
  {
    var v := Next(w, now, step);
    LogIssues(w, now, step);
    LogLeases(w, now, step);
    if Grants(w, step, v.tables) {
      GrantAdvances(w, now, step);
      var o := step.pick.value;
      assert IssuedAt(w, o) && BoundedAt(w, o);
    }
    forall o | o in v.tables.commands ensures BoundedAt(v, o) { BoundedStep(w, now, step, o); }
    forall o | o in v.tables.commands ensures LeaseLoggedAt(v, o) { LeaseLoggedStep(w, now, step, o); }
  }

  lemma BoundedStep(w: World, now: Time, step: Step, o: Id)
    requires Inv(w.tables) && Issued(w) && Leases(w) && Legal(w, now, step) && Inv(After(w, now, step))
    requires Moved(w, step, Next(w, now, step)) && o in After(w, now, step).commands
    ensures BoundedAt(Next(w, now, step), o)
  {
    var v := Next(w, now, step);
    LogLeases(w, now, step);
    assert CommandMoves(w, step, v.tables, o);
    if o in w.tables.commands { assert BoundedAt(w, o); }
    if Grants(w, step, v.tables) && v.tables.commands[step.pick.value].id == v.tables.commands[o].id {
      assert HasId(v.tables, o, v.tables.commands[o].id) && HasId(v.tables, step.pick.value, v.tables.commands[o].id);
    }
  }

  lemma LeaseLoggedStep(w: World, now: Time, step: Step, o: Id)
    requires Inv(w.tables) && Leases(w) && Legal(w, now, step) && Inv(After(w, now, step))
    requires Moved(w, step, Next(w, now, step)) && o in After(w, now, step).commands
    ensures LeaseLoggedAt(Next(w, now, step), o)
  {
    var v := Next(w, now, step);
    var d := v.tables.commands[o];
    if d.status == Leased {
      assert CommandMoves(w, step, v.tables, o);
      LogLeases(w, now, step);
      assert Sound(v.tables, o);
      var c := w.tables.commands[o];
      assert Sound(w.tables, o);
      StepMovesNodes(w, now, step, c.node);
      if Kept(c, d) {
        assert LeaseLoggedAt(w, o);
      } else {
        GrantAdvances(w, now, step);
      }
    }
  }

  lemma LogSelections(w: World, now: Time, step: Step)
    requires Inv(w.tables) && Legal(w, now, step)
    ensures var v := Next(w, now, step);
            v.log.selected == w.log.selected + if step.DoClaim? && Selects(w.tables, step.node, step.session, step.pick)
                                               then multiset{w.tables.commands[step.pick.value].id} else multiset{}
  {
  }

  /** A claim's selection either grants the next attempt or closes the row. */
  lemma SelectionOutcome(w: World, now: Time, step: Step)
    requires Inv(w.tables) && Legal(w, now, step) && step.DoClaim?
             && Selects(w.tables, step.node, step.session, step.pick)
    ensures var o := step.pick.value;
            var t := After(w, now, step);
            && Open(w.tables.commands[o]) && w.tables.commands[o].attempts <= MAX_COMMAND_ATTEMPTS
            && o in t.commands && (Advanced(w.tables.commands[o], t.commands[o]) || !Open(t.commands[o]))
  {
    assert Sound(w.tables, step.pick.value);
  }

  lemma SelectionsStep(w: World, now: Time, step: Step)
    requires Inv(w.tables) && Issued(w) && Selections(w) && Legal(w, now, step) && Inv(After(w, now, step))
    requires Moved(w, step, Next(w, now, step))
    ensures Selections(Next(w, now, step))
  {
    var v := Next(w, now, step);
    LogIssues(w, now, step);
    LogSelections(w, now, step);
    var selects := step.DoClaim? && Selects(w.tables, step.node, step.session, step.pick);
    if selects {
      SelectionOutcome(w, now, step);
      assert IssuedAt(w, step.pick.value) && SelectionsAt(w, step.pick.value);
      assert IsIssue(w.log, IssueOf(step.pick.value, w.tables.commands[step.pick.value]));
    }
    forall id | NeverIssued(v.log, id) ensures v.log.selected[id] == 0 {
      assert NeverIssued(w.log, id);
    }
    forall o | o in v.tables.commands ensures SelectionsAt(v, o) { SelectionsStepAt(w, now, step, o); }
  }

  lemma SelectionsStepAt(w: World, now: Time, step: Step, o: Id)
    requires Inv(w.tables) && Selections(w) && Legal(w, now, step)
    requires o in After(w, now, step).commands && CommandMoves(w, step, After(w, now, step), o)
    requires step.DoClaim? && Selects(w.tables, step.node, step.session, step.pick) && o == step.pick.value ==>
               Advanced(w.tables.commands[o], After(w, now, step).commands[o]) || !Open(After(w, now, step).commands[o])
    requires step.DoClaim? && Selects(w.tables, step.node, step.session, step.pick) ==>
               !NeverIssued(w.log, w.tables.commands[step.pick.value].id)
    ensures SelectionsAt(Next(w, now, step), o)
  {
    LogSelections(w, now, step);
    if o in w.tables.commands { assert SelectionsAt(w, o); }
    if step.DoClaim? && Selects(w.tables, step.node, step.session, step.pick) && o in w.tables.commands
       && w.tables.commands[o].id == w.tables.commands[step.pick.value].id {
      assert HasId(w.tables, o, w.tables.commands[o].id) && HasId(w.tables, step.pick.value, w.tables.commands[o].id);
    }
  }

  lemma LogSessions(w: World, now: Time, step: Step)
    requires Inv(w.tables) && Legal(w, now, step)
    ensures var v := Next(w, now, step);
            v.log.sessions == if step.DoHeartbeat? && Replaces(w.tables, now, step.node, step.session)
                              then w.log.sessions[step.node := SessionsOf(w.log, step.node) + [step.session]]
                                  else w.log.sessions
  {
  }

  lemma RetiredGrows(w: World, now: Time, step: Step)
    requires Inv(w.tables) && Legal(w, now, step)
    ensures w.tables.retired <= After(w, now, step).retired
    ensures step.DoHeartbeat? && Replaces(w.tables, now, step.node, step.session)
            && TakesOver(w.tables, step.node, step.session) ==>
              (step.node, w.tables.nodes[step.node].session.value) in After(w, now, step).retired
  {
    if step.DoHeartbeat? {
      HeartbeatMovesNodes(w.tables, step.node, step.session, step.runtimes, step.reissue, now);
    } else if step.DoClaim? {
      ClaimKeepsEpochs(w.tables, step.node, step.session, step.routing, step.artifact, step.pick, now);
    } else if step.DoProgress? {
      ProgressKeepsEpochs(w.tables, step.node, step.evidence, step.sequence, step.phase, step.percent, now);
    } else if !step.DoEnroll? && !step.DoRevoke? {
      StepKeepsNodes(w, now, step);
    }
  }

  lemma NodesOnlyGrowByEnrolment(w: World, now: Time, step: Step)
    requires Inv(w.tables) && Legal(w, now, step)
    ensures After(w, now, step).nodes.Keys == w.tables.nodes.Keys + if step.DoEnroll? then {step.node} else {}
  {
    if step.DoHeartbeat? {
      HeartbeatMovesNodes(w.tables, step.node, step.session, step.runtimes, step.reissue, now);
    } else if step.DoClaim? {
      ClaimKeepsEpochs(w.tables, step.node, step.session, step.routing, step.artifact, step.pick, now);
    } else if step.DoProgress? {
      ProgressKeepsEpochs(w.tables, step.node, step.evidence, step.sequence, step.phase, step.percent, now);
    } else if !step.DoEnroll? && !step.DoRevoke? {
      StepKeepsNodes(w, now, step);
    }
  }

  lemma SessionsStepAt(w: World, now: Time, step: Step, n: Id)
    requires Inv(w.tables) && Sessions(w) && Legal(w, now, step) && n in w.tables.nodes
    ensures n in After(w, now, step).nodes && SessionsAt(Next(w, now, step), n)
  {
    assert SessionsAt(w, n);
    StepMovesNodes(w, now, step, n);
    LogSessions(w, now, step);
    RetiredGrows(w, now, step);
    var before, v := SessionsOf(w.log, n), Next(w, now, step);
    if step.DoHeartbeat? && step.node == n && Replaces(w.tables, now, n, step.session) {
      assert SessionsOf(v.log, n) == before + [step.session];
    } else {
      assert SessionsOf(v.log, n) == before;
    }
  }

  lemma SessionsStep(w: World, now: Time, step: Step)
    requires Inv(w.tables) && Sessions(w) && Legal(w, now, step)
    ensures Sessions(Next(w, now, step))
  {
    var v := Next(w, now, step);
    NodesOnlyGrowByEnrolment(w, now, step);
    LogSessions(w, now, step);
    forall n | n in v.tables.nodes ensures SessionsAt(v, n) {
      if n in w.tables.nodes { SessionsStepAt(w, now, step, n); }
    }
  }

  // --- observations ---

  lemma AcceptResultKeepsOrder(s: Tables, n: Id, o: Id, m: Evidence, outcome: Outcome, state: string, clock: Time,
      now: Time)
    requires Ordered(s, clock) && clock < now && Row(s, n, m.command, o) && ResultFence(s, n, o, m)
    ensures Ordered(AcceptResult(s, n, o, m, outcome, state, now), now)
  {
    var e := s.commands[o].endpoint;
    LaterClock(s, s, clock, now);
    if outcome == OutcomeSucceeded && s.commands[o].action == Delete {
      var t := DeleteDone(s, n, o, m, now);
      LaterClock(s, t, clock, now);
      FinalizeKeepsOrder(t, e, now);
    } else if outcome != OutcomeUnknown && s.commands[o].action != ReadContainerLogs {
      var row := Observation(now, Some(o), s.commands[o].generation, state);
      ObserveKeepsOrder(s, e, row, clock);
      LaterClock(Observe(s, e, row), AcceptResult(s, n, o, m, outcome, state, now), now, now);
    } else {
      LaterClock(s, AcceptResult(s, n, o, m, outcome, state, now), clock, now);
    }
  }

  lemma CompleteUnassignedKeepsOrder(s: Tables, o: Id, clock: Time, now: Time)
    requires Inv(s) && Ordered(s, clock) && clock < now && Visible(s, o, now)
    ensures s.operations[o].endpoint in s.endpoints && Ordered(CompleteUnassigned(s, o, now), now)
  {
    GenerationFenceNeverFires(s, o, now);
    var op := s.operations[o];
    if op.action == Delete {
      var t := SetStatus(s, o, Succeeded);
      LaterClock(s, t, clock, now);
      FinalizeKeepsOrder(t, op.endpoint, now);
    } else {
      var row := Observation(now, Some(o), op.generation, if op.action == Stop then "stopped" else "running");
      ObserveKeepsOrder(s, op.endpoint, row, clock);
      LaterClock(Observe(s, op.endpoint, row), CompleteUnassigned(s, o, now), now, now);
    }
  }

  lemma ProcessKeepsOrder(s: Tables, pick: Option<Id>, commandId: Id, clock: Time, now: Time)
    requires Inv(s) && Ordered(s, clock) && clock < now && PickIsWired(s, pick) && NextEvent(s, pick, now)
    ensures Ordered(Process(s, pick, commandId, now).tables, now)
  {
    if pick.None? {
      LaterClock(s, s, clock, now);
    } else {
      var o := pick.value;
      ProcessSettles(s, o, commandId, now);
      if s.endpoints[s.operations[o].endpoint].node.None? {
        CompleteUnassignedKeepsOrder(s, o, clock, now);
      } else {
        LaterClock(s, Process(s, pick, commandId, now).tables, clock, now);
      }
    }
  }

  /** No transaction but these writes observations; generations never fall. */
  predicate Unobserved(s: Tables, t: Tables) {
    && t.observations == s.observations && s.endpoints.Keys <= t.endpoints.Keys
    && forall e :: e in s.endpoints ==> s.endpoints[e].generation <= t.endpoints[e].generation
  }

  lemma MutateUnobserved(s: Tables, m: Mutation, newId: Id, now: Time)
    ensures Unobserved(s, Mutate(s, m, newId, now).tables)
  {
  }

  lemma ExpireUnobserved(s: Tables, e: Id, action: Action, newId: Id, now: Time)
    requires action == Stop || action == Delete
    ensures Unobserved(s, Expire(s, e, action, newId, now).tables)
  {
  }

  lemma ClaimUnobserved(s: Tables, n: Id, session: Session, routing: bool, artifact: Option<string>, pick: Option<Id>,
      now: Time)
    requires pick.Some? ==> pick.value in s.commands
    ensures Unobserved(s, Claim(s, n, session, routing, artifact, pick, now).tables)
  {
  }

  lemma ProgressUnobserved(s: Tables, n: Id, m: Evidence, sequence: nat, phase: string, percent: nat, now: Time)
    ensures Unobserved(s, RecordProgress(s, n, m, sequence, phase, percent, now).tables)
  {
  }

  lemma StepUnobserved(w: World, now: Time, step: Step)
    requires Legal(w, now, step) && !step.DoProcess? && !step.DoHeartbeat? && !step.DoResult? && !step.DoPrune?
    ensures Unobserved(w.tables, After(w, now, step))
  {
    var s := w.tables;
    match step
    case DoMutate(m, newId) => MutateUnobserved(s, m, newId, now);
    case DoExpire(e, action, newId) => ExpireUnobserved(s, e, action, newId, now);
    case DoClaim(n, session, routing, artifact, pick) => ClaimUnobserved(s, n, session, routing, artifact, pick, now);
    case DoProgress(n, m, sequence, phase, percent) => ProgressUnobserved(s, n, m, sequence, phase, percent, now);
    case _ =>
  }

  lemma HeartbeatKeepsOrder(s: Tables, n: Id, session: Session, runtimes: seq<RuntimeReport>, reissue: map<Id, Id>,
      clock: Time, now: Time)
    requires Ordered(s, clock) && clock < now && s.commands.Keys <= reissue.Keys
    ensures Ordered(Heartbeat(s, n, session, runtimes, reissue, now).tables, now)
  {
    LaterClock(s, s, clock, now);
    if n in s.nodes && !s.nodes[n].revoked && !SessionRefused(s, n, session, now) {
      var connected := Connect(s, n, session, reissue, now);
      LaterClock(s, connected, clock, clock);
      ReportAllKeepsOrder(connected, n, runtimes, clock, now);
    }
  }

  lemma ResultKeepsOrder(s: Tables, n: Id, m: Evidence, outcome: Outcome, state: string, clock: Time, now: Time)
    requires Ordered(s, clock) && clock < now
    ensures Ordered(RecordResult(s, n, m, outcome, state, now).tables, now)
  {
    LaterClock(s, s, clock, now);
    ResultShape(s, n, m, outcome, state, now);
    if RecordResult(s, n, m, outcome, state, now).tables != s {
      AcceptResultKeepsOrder(s, n, m.operation, m, outcome, state, clock, now);
    }
  }

  lemma StepKeepsOrder(w: World, now: Time, step: Step)
    requires Inv(w.tables) && Ordered(w.tables, w.clock) && Legal(w, now, step)
    ensures Ordered(After(w, now, step), now)
  {
    var s := w.tables;
    if step.DoProcess? {
      assert PickIsWired(s, step.pick);
      ProcessKeepsOrder(s, step.pick, step.commandId, w.clock, now);
    } else if step.DoHeartbeat? {
      HeartbeatKeepsOrder(s, step.node, step.session, step.runtimes, step.reissue, w.clock, now);
    } else if step.DoResult? {
      ResultKeepsOrder(s, step.node, step.evidence, step.outcome, step.state, w.clock, now);
    } else if step.DoPrune? {
      PruneKeepsOrder(s, step.endpoint, step.removed, w.clock, now);
      LaterClock(After(w, now, step), After(w, now, step), w.clock, now);
    } else {
      StepUnobserved(w, now, step);
      LaterClock(s, After(w, now, step), w.clock, now);
    }
  }

  lemma StepKeepsWorld(w: World, now: Time, step: Step)
    requires WorldInv(w) && Legal(w, now, step)
    ensures WorldInv(Next(w, now, step))
  {
    StepKeepsTables(w, now, step);
    StepMoved(w, now, step);
    IssuedStep(w, now, step);
    LeasesStep(w, now, step);
    SelectionsStep(w, now, step);
    SessionsStep(w, now, step);
    StepKeepsOrder(w, now, step);
  }
}
