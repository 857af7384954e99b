/**
 The control plane's tables and the transactions over them.

 Every transaction of the control plane runs under node and endpoint row locks and either commits
 or rolls back, so each is one atomic function from tables to tables. `commands` and `outbox` are
 keyed by operation id: both tables carry a unique index on it. The id of a command row, which a
 session takeover redraws, is a column.
 */
module ControlPlane {
  import opened Wrappers

  type Id = nat
  type Time = nat // milliseconds
  type Session = string

  const NODE_FRESH: Time := 120_000
  const LEASE: Time := 30_000
  const RETRY_DISPATCH: Time := 30_000
  const MAX_COMMAND_ATTEMPTS: nat := 5
  const MAX_EXPIRY_DELETES: nat := 5
  const SNOWLUMA_ARTIFACT :=
      "artifact:snowluma:motricseven7.snowluma.sha256.72d9d31597df0741e84747282e979642405d1afb6c2f83b53add601bafdb4a99"

  datatype Action =
    | Start | Stop | Restart | ForceRestart | Delete
    | RefreshLoginQr | ReadContainerLogs | UpdateOnebotWebsockets | UpdateEndpointProxy

  /** Read-only actions run at the endpoint's current generation. */
  predicate ReadOnly(action: Action) {
    action in {RefreshLoginQr, ReadContainerLogs, UpdateOnebotWebsockets, UpdateEndpointProxy}
  }

  datatype Provider = Fake | NapCat | SnowLuma | LLBot | OtherProvider(name: string)

  /** The schema's check on operation and command rows does not list proxy updates. */
  predicate Storable(action: Action) { action != UpdateEndpointProxy }

  predicate Reclaimable(provider: Provider) {
    provider in {NapCat, SnowLuma, LLBot}
  }

  datatype Desired = RunningState | StoppedState

  function DesiredAfter(action: Action, current: Desired): Desired {
    if ReadOnly(action) || action == Delete then current
    else if action == Stop then StoppedState
    else RunningState
  }

  datatype Node = Node(
    provider: Provider, epoch: nat, session: Option<Session>, heartbeatAt: Option<Time>,
    revoked: bool, providerRouting: bool, artifact: Option<string>)

  datatype Endpoint = Endpoint(
    node: Option<Id>, provider: Provider, generation: nat, desired: Desired, deleted: bool)

  /** Where an operation's idempotency key came from; user keys are arbitrary text. */
  datatype Key = UserKey(text: string) | ExpiryKey(action: Action, attempt: nat) | ReclaimKey(generation: nat)
  datatype Request = Request(action: Action, expectedGeneration: nat, metadata: string)

  datatype OperationStatus = Queued | Running | Succeeded | Failed | Stale
  datatype Progress = Progress(command: Option<Id>, attempt: nat, sequence: nat, phase: string, percent: nat)
  datatype Terminal = Terminal(
    command: Id, node: Id, session: Session, operation: Id, endpoint: Id, generation: nat, epoch: nat, attempt: nat)

  datatype Operation = Operation(
    endpoint: Id, generation: nat, action: Action, key: Key, request: Request, status: OperationStatus,
    node: Option<Id>, epoch: nat, progress: Option<Progress>, terminal: Option<Terminal>, createdAt: Time)

  datatype CommandStatus = Pending | Leased | Done | Broken | Superseded
  datatype Command = Command(
    id: Id, node: Id, endpoint: Id, generation: nat, epoch: nat, action: Action, status: CommandStatus,
    attempts: nat, lease: Option<Time>, resultAt: Option<Time>, createdAt: Time)

  datatype OutboxEvent = OutboxEvent(processed: bool, availableAt: Time, createdAt: Time)

  /** `operation` is absent on the snapshots that heartbeats maintain. */
  datatype Observation = Observation(createdAt: Time, operation: Option<Id>, generation: nat, state: string)

  datatype Tables = Tables(
    nodes: map<Id, Node>, retired: set<(Id, Session)>, endpoints: map<Id, Endpoint>,
    operations: map<Id, Operation>, commands: map<Id, Command>, outbox: map<Id, OutboxEvent>,
    observations: map<Id, set<Observation>>)

  /** The errors a transaction raises, and the failure of a statement that a constraint of the schema refuses. */
  datatype Code = NotFound | Conflict | IdempotencyMismatch | Unauthorized | ConstraintViolation

  /** The tables a transaction leaves and what it answers. A refused transaction is rolled back. */
  datatype Tx<+T> = Tx(tables: Tables, reply: Result<T, Code>)

  function Refuse<T>(s: Tables, code: Code): Tx<T> { Tx(s, Err(code)) }

  predicate Live(op: Operation) { op.status == Queued || op.status == Running }
  predicate Open(c: Command) { c.status == Pending || c.status == Leased }

  function LiveOperations(s: Tables, e: Id): set<Id> {
    set o | o in s.operations && s.operations[o].endpoint == e && Live(s.operations[o])
  }

  function EndpointOperations(s: Tables, e: Id): set<Id> {
    set o | o in s.operations && s.operations[o].endpoint == e
  }

  function ObservationsOf(s: Tables, e: Id): set<Observation> {
    if e in s.observations then s.observations[e] else {}
  }

  // --- building blocks shared by several transactions ---

  /** Marks every live operation of an endpoint stale, with its command and outbox event. */
  function Supersede(s: Tables, e: Id, now: Time): Tables {
    var live := LiveOperations(s, e);
    s.(commands := map o | o in s.commands ::
         if s.commands[o].endpoint == e && Open(s.commands[o])
         then s.commands[o].(status := Superseded, lease := None, resultAt := Some(now)) else s.commands[o],
       operations := map o | o in s.operations ::
         if o in live then s.operations[o].(status := Stale) else s.operations[o],
       outbox := map o | o in s.outbox ::
         if o in live then s.outbox[o].(processed := true) else s.outbox[o])
  }

  const WAITING := Progress(None, 0, 0, "queued", 5)

  /** Inserts a queued operation and its outbox event, and moves the endpoint to its generation. */
  function Enqueue(s: Tables, o: Id, e: Id, generation: nat, action: Action, desired: Desired, key: Key,
      request: Request, now: Time): Tables
    requires e in s.endpoints
  {
    s.(endpoints := s.endpoints[e := s.endpoints[e].(generation := generation, desired := desired)],
       operations := s.operations[o := Operation(e, generation, action, key, request, Queued, None, 0, Some(WAITING),
                                                 None, now)],
       outbox := s.outbox[o := OutboxEvent(false, now, now)])
  }

  /** Tombstones an endpoint: its commands, observations and outbox events go, its operations stay. */
  function Finalize(s: Tables, e: Id): Tables
    requires e in s.endpoints
  {
    s.(observations := s.observations - {e},
       commands := map o | o in s.commands && s.commands[o].endpoint != e :: s.commands[o],
       outbox := map o | o in s.outbox && o !in EndpointOperations(s, e) :: s.outbox[o],
       endpoints := s.endpoints[e := s.endpoints[e].(deleted := true, desired := StoppedState)])
  }

  function SetStatus(s: Tables, o: Id, status: OperationStatus): Tables
    requires o in s.operations
  {
    s.(operations := s.operations[o := s.operations[o].(status := status, progress := None)])
  }

  function Processed(s: Tables, o: Id): Tables
    requires o in s.outbox
  {
    s.(outbox := s.outbox[o := s.outbox[o].(processed := true)])
  }

  function Observe(s: Tables, e: Id, row: Observation): Tables {
    s.(observations := s.observations[e := ObservationsOf(s, e) + {row}])
  }

  // --- revocation of a shared node ---

  /**
   A workspace loses its grant of a shared node: its endpoints leave the node, and triggers mark running
   operations stale and close leased commands. They ask for `pending` commands too, a status no row has, so
   a waiting command stays.
   */
  function RevokePool(s: Tables, n: Id, now: Time): Tables {
    s.(endpoints := map e | e in s.endpoints ::
         if s.endpoints[e].node == Some(n) then s.endpoints[e].(node := None) else s.endpoints[e],
       operations := map o | o in s.operations ::
         var op := s.operations[o];
         if op.node == Some(n) && op.status == Running then op.(status := Stale) else op,
       commands := map o | o in s.commands ::
         var c := s.commands[o];
         if c.node == n && c.status == Leased then c.(status := Superseded, lease := None, resultAt := Some(now))
             else c)
  }

  // --- mutateEndpoint ---

  datatype Mutation = Mutation(endpoint: Id, action: Action, expectedGeneration: nat, key: string, metadata: string)

  function KeyMatches(s: Tables, e: Id, key: Key): set<Id> {
    set o | o in s.operations && s.operations[o].endpoint == e && s.operations[o].key == key
  }

  function RequestOf(m: Mutation): Request { Request(m.action, m.expectedGeneration, m.metadata) }

  predicate Blocked(s: Tables, m: Mutation) {
    var live := LiveOperations(s, m.endpoint);
    live != {} && (m.action != ForceRestart || exists o :: o in live && s.operations[o].action == Delete)
  }

  /** Answers the operation id and whether an earlier request with the same key is replayed. */
  ghost function Mutate(s: Tables, m: Mutation, newId: Id, now: Time): Tx<(Id, bool)> {
    var previous := KeyMatches(s, m.endpoint, UserKey(m.key));
    if previous != {} then
      var o :| o in previous;
      if s.operations[o].request != RequestOf(m) then Refuse(s, IdempotencyMismatch) else Tx(s, Ok((o, true)))
    else if m.endpoint !in s.endpoints || s.endpoints[m.endpoint].deleted then Refuse(s, NotFound)
    else
      var ep := s.endpoints[m.endpoint];
      if m.action == RefreshLoginQr && ep.provider != NapCat then Refuse(s, Conflict)
      else if ep.generation != m.expectedGeneration then Refuse(s, Conflict)
      else if Blocked(s, m) then Refuse(s, Conflict)
      else if !Storable(m.action) then Refuse(s, ConstraintViolation)
      else
        var cleared := if m.action == ForceRestart then Supersede(s, m.endpoint, now) else s;
        var generation := ep.generation + if ReadOnly(m.action) then 0 else 1;
        Tx(Enqueue(cleared, newId, m.endpoint, generation, m.action, DesiredAfter(m.action, ep.desired),
                   UserKey(m.key), RequestOf(m), now), Ok((newId, false)))
  }

  // --- enqueueExpiryOperation ---

  function ExpiryHistory(s: Tables, e: Id, action: Action): set<Id> {
    set o | o in s.operations && s.operations[o].endpoint == e && s.operations[o].key.ExpiryKey?
        && s.operations[o].key.action == action
  }

  predicate ExpiryDue(s: Tables, e: Id, action: Action)
    requires action == Stop || action == Delete
  {
    var live := LiveOperations(s, e);
    var history := ExpiryHistory(s, e, action);
    && e in s.endpoints && !s.endpoints[e].deleted
    && (action == Stop ==> live == {})
    && (action == Delete ==> forall o :: o in live ==> s.operations[o].action != Delete)
    && (forall o :: o in history ==> s.operations[o].status != Succeeded)
    && (action == Delete ==> |history| < MAX_EXPIRY_DELETES)
  }

  /** Answers the number of operations enqueued. */
  function Expire(s: Tables, e: Id, action: Action, newId: Id, now: Time): Tx<nat>
    requires action == Stop || action == Delete
  {
    if !ExpiryDue(s, e, action) then Tx(s, Ok(0))
    else
      var ep := s.endpoints[e];
      var attempt := |ExpiryHistory(s, e, action)| + 1;
      var cleared := if LiveOperations(s, e) != {} then Supersede(s, e, now) else s;
      Tx(Enqueue(cleared, newId, e, ep.generation + 1, action, if action == Stop then StoppedState else ep.desired,
                 ExpiryKey(action, attempt), Request(action, ep.generation, "workspace_expiry"), now), Ok(1))
  }

  // --- reclaimStaleEndpoints ---

  function ReclaimHistory(s: Tables, e: Id): set<Id> {
    set o | o in s.operations && s.operations[o].endpoint == e && s.operations[o].key.ReclaimKey?
  }

  /** One of the three newest reclaims of the endpoint succeeded. */
  predicate RecentlyReclaimed(s: Tables, e: Id) {
    var history := ReclaimHistory(s, e);
    exists o :: o in history && s.operations[o].status == Succeeded
                && |set p | p in history && s.operations[p].createdAt > s.operations[o].createdAt| < 3
  }

  predicate Silent(s: Tables, e: Id, staleAfter: Time, now: Time) {
    forall r :: r in ObservationsOf(s, e) && r.operation.None? ==> r.createdAt + staleAfter < now
  }

  predicate ReclaimCandidate(s: Tables, e: Id, staleAfter: Time, now: Time) {
    && e in s.endpoints && !s.endpoints[e].deleted && Reclaimable(s.endpoints[e].provider)
    && s.endpoints[e].desired == RunningState
    && s.endpoints[e].node.Some? && s.endpoints[e].node.value in s.nodes
    && (var node := s.nodes[s.endpoints[e].node.value];
        !node.revoked && node.heartbeatAt.Some? && node.heartbeatAt.value + NODE_FRESH > now)
    && LiveOperations(s, e) == {}
    && Silent(s, e, staleAfter, now)
  }

  /** A reclaim of the endpoint at its present generation is recorded already. */
  predicate ReclaimRecorded(s: Tables, e: Id) {
    e in s.endpoints && KeyMatches(s, e, ReclaimKey(s.endpoints[e].generation)) != {}
  }

  /** A reclaim that is due all the same, as none of the three newest succeeded. */
  predicate Collides(s: Tables, e: Id) { !RecentlyReclaimed(s, e) && ReclaimRecorded(s, e) }

  /** The key of a reclaim names the generation only, so the table's unique key refuses a second one at a generation. */
  function Reclaim(s: Tables, e: Id, newId: Id, now: Time): Tx<nat> {
    if e !in s.endpoints || RecentlyReclaimed(s, e) || LiveOperations(s, e) != {} then Tx(s, Ok(0))
    else if ReclaimRecorded(s, e) then Refuse(s, ConstraintViolation)
    else
      var ep := s.endpoints[e];
      Tx(Enqueue(s, newId, e, ep.generation, ReadContainerLogs, ep.desired, ReclaimKey(ep.generation),
                 Request(ReadContainerLogs, ep.generation, "stale-telemetry-reclaim"), now), Ok(1))
  }

  /** One sweep is one transaction: a refused row rolls back the reclaims before it. */
  function ReclaimAll(s: Tables, candidates: seq<Id>, ids: seq<Id>, now: Time): Tx<nat>
    requires |ids| == |candidates|
  {
    if candidates == [] then Tx(s, Ok(0))
    else
      var k := |candidates| - 1;
      var before := ReclaimAll(s, candidates[..k], ids[..k], now);
      Then(s, before, Reclaim(before.tables, candidates[k], ids[k], now))
  }

  function Then(s: Tables, before: Tx<nat>, tx: Tx<nat>): Tx<nat> {
    if before.reply.Err? then Refuse(s, before.reply.error)
    else if tx.reply.Err? then Refuse(s, tx.reply.error)
    else Tx(tx.tables, Ok(before.reply.value + tx.reply.value))
  }

  // --- repairMissingOutbox ---

  function MissingOutbox(s: Tables): set<Id> {
    set o | o in s.operations && s.operations[o].status == Queued && o !in s.outbox
  }

  function Repair(s: Tables, now: Time): Tx<nat> {
    var missing := MissingOutbox(s);
    Tx(s.(outbox := s.outbox + map o | o in missing :: OutboxEvent(false, now, now)), Ok(|missing|))
  }

  // --- processOne ---

  predicate Visible(s: Tables, o: Id, now: Time) {
    o in s.outbox && !s.outbox[o].processed && s.outbox[o].availableAt <= now && o in s.operations
  }

  /** The event the worker takes: the oldest visible one, or none when there is none. */
  predicate NextEvent(s: Tables, pick: Option<Id>, now: Time) {
    match pick
    case None => forall o :: o in s.outbox ==> !Visible(s, o, now)
    case Some(o) => Visible(s, o, now)
                    && forall p :: p in s.outbox && Visible(s, p, now) ==>
                          s.outbox[o].createdAt <= s.outbox[p].createdAt
  }

  const DISPATCHING := Progress(None, 0, 0, "dispatching", 10)
  const AWAITING_UPGRADE := Progress(None, 0, 0, "retrying", 5)

  /** Hands an operation to the endpoint's node as a fresh command, unless one already exists. */
  function Dispatch(s: Tables, o: Id, n: Id, commandId: Id, now: Time): Tables
    requires o in s.operations && o in s.outbox && n in s.nodes
  {
    var op := s.operations[o];
    var epoch := s.nodes[n].epoch;
    Processed(s.(commands := if o in s.commands then s.commands
                             else s.commands[o := Command(commandId, n, op.endpoint, op.generation, epoch, op.action,
                                                          Pending, 0, None, None, now)],
                 operations := s.operations[o := op.(status := Running, node := Some(n), epoch := epoch,
                                                     progress := Some(DISPATCHING))]), o)
  }

  /** An operation of an endpoint without a node needs no agent: it completes at once. */
  function CompleteUnassigned(s: Tables, o: Id, now: Time): Tables
    requires o in s.operations && o in s.outbox && s.operations[o].endpoint in s.endpoints
  {
    var op := s.operations[o];
    if op.action == Delete then Finalize(SetStatus(s, o, Succeeded), op.endpoint)
    else
      var state := if op.action == Stop then "stopped" else "running";
      Processed(SetStatus(Observe(s, op.endpoint, Observation(now, Some(o), op.generation, state)), o, Succeeded), o)
  }

  /** Settles a queued operation whose endpoint is at its generation. Answers whether the worker made progress. */
  function Settle(s: Tables, o: Id, commandId: Id, now: Time): Tx<bool>
    requires o in s.operations && o in s.outbox && s.operations[o].endpoint in s.endpoints
    requires var ep := s.endpoints[s.operations[o].endpoint]; ep.node.Some? ==> ep.node.value in s.nodes
  {
    var op := s.operations[o];
    var ep := s.endpoints[op.endpoint];
    if ep.node.None? then Tx(CompleteUnassigned(s, o, now), Ok(true))
    else
      var n := ep.node.value;
      if ep.provider == SnowLuma && s.nodes[n].artifact != Some(SNOWLUMA_ARTIFACT) then
        Tx(s.(outbox := s.outbox[o := s.outbox[o].(availableAt := now + RETRY_DISPATCH)],
              operations := s.operations[o := op.(progress := Some(AWAITING_UPGRADE))]), Ok(false))
      else if ep.provider != s.nodes[n].provider && !s.nodes[n].providerRouting then
        Tx(Processed(SetStatus(s, o, Failed), o), Ok(true))
      else Tx(Dispatch(s, o, n, commandId, now), Ok(true))
  }

  /** Answers whether the worker made progress. */
  function Process(s: Tables, pick: Option<Id>, commandId: Id, now: Time): Tx<bool>
    requires pick.Some? ==> Visible(s, pick.value, now)
    requires pick.Some? && s.operations[pick.value].endpoint in s.endpoints
             && s.endpoints[s.operations[pick.value].endpoint].node.Some?
             ==> s.endpoints[s.operations[pick.value].endpoint].node.value in s.nodes
  {
    if pick.None? then Tx(s, Ok(false))
    else
      var o := pick.value;
      var op := s.operations[o];
      if op.status != Queued then Tx(Processed(s, o), Ok(true))
      else if op.endpoint !in s.endpoints || s.endpoints[op.endpoint].deleted
          || s.endpoints[op.endpoint].generation != op.generation then
        Tx(Processed(SetStatus(s, o, Stale), o), Ok(true))
      else Settle(s, o, commandId, now)
  }

  // --- heartbeat ---

  datatype RuntimeReport = RuntimeReport(endpoint: Id, generation: nat, state: string)

  /** An open command of the node's current epoch. */
  predicate Current(s: Tables, n: Id, c: Command) {
    n in s.nodes && c.node == n && c.epoch == s.nodes[n].epoch && Open(c)
  }

  predicate DeleteInFlight(s: Tables, o: Id) {
    o in s.operations && s.operations[o].action == Delete && Live(s.operations[o])
  }

  /**
   A new session replaces a silent one. Commands of the old epoch die with their operations, except
   deletes: their intent is durable, so each is reissued under a fresh id for the next epoch.
   */
  function Takeover(s: Tables, n: Id, reissue: map<Id, Id>, now: Time): Tables
    requires n in s.nodes && s.nodes[n].session.Some? && s.commands.Keys <= reissue.Keys
  {
    var oldEpoch := s.nodes[n].epoch;
    s.(retired := s.retired + {(n, s.nodes[n].session.value)},
       commands := map o | o in s.commands ::
         var c := s.commands[o];
         if !Current(s, n, c) then c
         else if DeleteInFlight(s, o) then
           c.(id := reissue[o], epoch := oldEpoch + 1, status := Pending, attempts := 0, lease := None,
              resultAt := None)
         else c.(status := Superseded, resultAt := if c.resultAt.Some? then c.resultAt else Some(now)),
       operations := map o | o in s.operations ::
         var op := s.operations[o];
         if op.node != Some(n) || op.epoch != oldEpoch || !Live(op) then op
         else if op.action == Delete then op.(epoch := oldEpoch + 1, status := Running, progress := None)
         else op.(status := Failed, progress := None))
  }

  /** The newest heartbeat snapshot of an endpoint, if there is one. */
  predicate LatestSnapshot(rows: set<Observation>, r: Observation) {
    && r in rows && r.operation.None?
    && forall q :: q in rows && q.operation.None? ==> q.createdAt <= r.createdAt
  }

  /** A heartbeat reuses the newest snapshot row, renewing its time, and inserts one only if there is none. */
  ghost function Snapshot(rows: set<Observation>, generation: nat, state: string, now: Time): set<Observation> {
    var row := Observation(now, None, generation, state);
    if exists r :: LatestSnapshot(rows, r) then
      var r :| LatestSnapshot(rows, r);
      rows - {r} + {row}
    else rows + {row}
  }

  predicate Reported(s: Tables, n: Id, r: RuntimeReport) {
    && r.endpoint in s.endpoints && s.endpoints[r.endpoint].node == Some(n)
    && !s.endpoints[r.endpoint].deleted && s.endpoints[r.endpoint].generation == r.generation
  }

  ghost function ReportOne(s: Tables, n: Id, r: RuntimeReport, now: Time): Tables {
    if !Reported(s, n, r) then s
    else
      var rows := Snapshot(ObservationsOf(s, r.endpoint), r.generation, r.state, now);
      s.(observations := s.observations[r.endpoint := rows])
  }

  ghost function ReportAll(s: Tables, n: Id, runtimes: seq<RuntimeReport>, now: Time): Tables {
    if runtimes == [] then s
    else ReportOne(ReportAll(s, n, runtimes[..|runtimes| - 1], now), n, runtimes[|runtimes| - 1], now)
  }

  predicate SessionRefused(s: Tables, n: Id, session: Session, now: Time)
    requires n in s.nodes
  {
    var node := s.nodes[n];
    && node.session != Some(session) && node.session.Some?
    && ((n, session) in s.retired || (node.heartbeatAt.Some? && node.heartbeatAt.value + NODE_FRESH > now))
  }

  /** The node row and the command tables after an accepted heartbeat, before its runtime reports. */
  function Connect(s: Tables, n: Id, session: Session, reissue: map<Id, Id>, now: Time): Tables
    requires n in s.nodes && s.commands.Keys <= reissue.Keys
  {
    var node := s.nodes[n];
    var taken := if node.session.Some? && node.session.value != session then Takeover(s, n, reissue, now) else s;
    var epoch := node.epoch + if node.session == Some(session) then 0 else 1;
    taken.(nodes := taken.nodes[n := node.(heartbeatAt := Some(now), epoch := epoch, session := Some(session))])
  }

  /** Answers the connection epoch. */
  ghost function Heartbeat(s: Tables, n: Id, session: Session, runtimes: seq<RuntimeReport>, reissue: map<Id, Id>,
      now: Time): Tx<nat>
    requires s.commands.Keys <= reissue.Keys
  {
    if n !in s.nodes || s.nodes[n].revoked then Refuse(s, Unauthorized)
    else if SessionRefused(s, n, session, now) then Refuse(s, Conflict)
    else
      var connected := Connect(s, n, session, reissue, now);
      Tx(ReportAll(connected, n, runtimes, now), Ok(connected.nodes[n].epoch))
  }

  // --- claimAgentCommand ---

  predicate Claimable(s: Tables, n: Id, o: Id, now: Time) {
    && o in s.commands && Current(s, n, s.commands[o])
    && (s.commands[o].status == Pending || (s.commands[o].lease.Some? && s.commands[o].lease.value < now))
  }

  predicate NextCommand(s: Tables, n: Id, pick: Option<Id>, now: Time) {
    match pick
    case None => forall o :: o in s.commands ==> !Claimable(s, n, o, now)
    case Some(o) => Claimable(s, n, o, now)
                    && forall p :: p in s.commands && Claimable(s, n, p, now) ==>
                          s.commands[o].createdAt <= s.commands[p].createdAt
  }

  /** What a claim delivers: the command row with the attempt it is leased for. */
  datatype Grant = Grant(command: Id, operation: Id, endpoint: Id, generation: nat, epoch: nat, attempt: nat,
                         action: Action)

  function GrantOf(o: Id, c: Command): Grant {
    Grant(c.id, o, c.endpoint, c.generation, c.epoch, c.attempts, c.action)
  }

  function Advertise(s: Tables, n: Id, routing: bool, artifact: Option<string>): Tables
    requires n in s.nodes
  {
    var node := s.nodes[n];
    s.(nodes := s.nodes[n := node.(providerRouting := node.providerRouting || routing,
                                   artifact := if artifact.Some? then artifact else node.artifact)])
  }

  /** Ends a command that used up its attempts, and its operation with it. */
  function Exhaust(s: Tables, o: Id, now: Time): Tables
    requires o in s.commands
  {
    var broken := s.(commands := s.commands[o := s.commands[o].(status := Broken, resultAt := Some(now))]);
    if o in s.operations && s.operations[o].status == Running then SetStatus(broken, o, Failed) else broken
  }

  function Claim(s: Tables, n: Id, session: Session, routing: bool, artifact: Option<string>, pick: Option<Id>,
      now: Time): Tx<Option<Grant>>
    requires pick.Some? ==> pick.value in s.commands
  {
    if n !in s.nodes || s.nodes[n].revoked then Refuse(s, Unauthorized)
    else if s.nodes[n].session != Some(session) then Refuse(s, Conflict)
    else
      var s1 := Advertise(s, n, routing, artifact);
      if pick.None? then Tx(s1, Ok(None))
      else
        var o := pick.value;
        var c := s.commands[o];
        if c.attempts >= MAX_COMMAND_ATTEMPTS then Tx(Exhaust(s1, o, now), Ok(None))
        else
          var leased := c.(status := Leased, attempts := c.attempts + 1, lease := Some(now + LEASE));
          Tx(s1.(commands := s1.commands[o := leased]), Ok(Some(GrantOf(o, leased))))
  }

  // --- recordAgentProgress and recordAgentResult ---

  datatype Outcome = OutcomeSucceeded | OutcomeFailed | OutcomeUnknown

  /** What an agent says about one lease. `attempt` is at least 1 on the wire. */
  datatype Evidence = Evidence(command: Id, session: Session, operation: Id, endpoint: Id, generation: nat, epoch: nat,
                               attempt: nat)

  predicate SessionFence(s: Tables, n: Id, m: Evidence) {
    n in s.nodes && !s.nodes[n].revoked && s.nodes[n].session == Some(m.session) && s.nodes[n].epoch == m.epoch
  }

  /** The command row with this id on this node. */
  predicate Row(s: Tables, n: Id, id: Id, o: Id) {
    o in s.commands && s.commands[o].id == id && s.commands[o].node == n
  }

  predicate CommandFence(o: Id, c: Command, m: Evidence) {
    o == m.operation && c.endpoint == m.endpoint && c.generation == m.generation && c.epoch == m.epoch
        && c.attempts == m.attempt
  }

  predicate Regressed(p: Option<Progress>, m: Evidence, sequence: nat) {
    p.Some? && p.value.command == Some(m.command) && p.value.attempt == m.attempt && p.value.sequence >= sequence
  }

  predicate ProgressFence(s: Tables, o: Id, m: Evidence)
    requires o in s.commands
  {
    && s.commands[o].status == Leased && CommandFence(o, s.commands[o], m)
    && o in s.operations && s.operations[o].endpoint == m.endpoint && s.operations[o].generation == m.generation
    && s.operations[o].status == Running
  }

  /** Progress renews the lease, counts as a sign of life of the node, and is shown on the operation. */
  function AcceptProgress(s: Tables, n: Id, o: Id, m: Evidence, sequence: nat, phase: string, percent: nat,
      now: Time): Tables
    requires n in s.nodes && o in s.commands && o in s.operations
  {
    var shown := Progress(Some(m.command), m.attempt, sequence, phase, percent);
    s.(operations := s.operations[o := s.operations[o].(progress := Some(shown))],
       commands := s.commands[o := s.commands[o].(lease := Some(now + LEASE))],
       nodes := s.nodes[n := s.nodes[n].(heartbeatAt := Some(now))])
  }

  ghost function RecordProgress(s: Tables, n: Id, m: Evidence, sequence: nat, phase: string, percent: nat,
      now: Time): Tx<()> {
    if !SessionFence(s, n, m) then Refuse(s, Conflict)
    else if !exists o :: Row(s, n, m.command, o) then Refuse(s, Conflict)
    else
      var o :| Row(s, n, m.command, o);
      if !ProgressFence(s, o, m) then Refuse(s, Conflict)
      else if Regressed(s.operations[o].progress, m, sequence) then Refuse(s, Conflict)
      else Tx(AcceptProgress(s, n, o, m, sequence, phase, percent, now), Ok(()))
  }

  /** The delete this evidence claims to have completed is the one recorded as completed. */
  predicate CompletedDelete(s: Tables, n: Id, m: Evidence) {
    && m.operation in s.operations && s.operations[m.operation].endpoint == m.endpoint
    && s.operations[m.operation].node == Some(n) && s.operations[m.operation].action == Delete
    && s.operations[m.operation].status == Succeeded
    && m.endpoint in s.endpoints && s.endpoints[m.endpoint].deleted
  }

  predicate WinningDelete(s: Tables, n: Id, m: Evidence)
    requires CompletedDelete(s, n, m)
  {
    var op := s.operations[m.operation];
    && op.generation == m.generation && op.epoch == m.epoch
    && op.terminal == Some(Terminal(m.command, n, m.session, m.operation, m.endpoint, m.generation, m.epoch, m.attempt))
  }

  predicate ResultFence(s: Tables, n: Id, o: Id, m: Evidence)
    requires o in s.commands
  {
    && CommandFence(o, s.commands[o], m)
    && o in s.operations && s.operations[o].endpoint == s.commands[o].endpoint && s.operations[o].node == Some(n)
    && s.operations[o].generation == m.generation && s.operations[o].epoch == m.epoch
        && s.operations[o].status == Running
    && m.endpoint in s.endpoints && !s.endpoints[m.endpoint].deleted
    && s.endpoints[m.endpoint].node == Some(n) && s.endpoints[m.endpoint].generation == m.generation
  }

  /** The tables after the fences have accepted a result for the row `o`. */
  function AcceptResult(s: Tables, n: Id, o: Id, m: Evidence, outcome: Outcome, state: string, now: Time): Tables
    requires o in s.commands && ResultFence(s, n, o, m)
  {
    var c := s.commands[o];
    if outcome == OutcomeUnknown then
      s.(commands := s.commands[o := c.(lease := Some(now))],
         operations := s.operations[o := s.operations[o].(progress := None)])
    else if c.action == Delete && outcome == OutcomeSucceeded then
      var terminal := Terminal(m.command, n, m.session, o, c.endpoint, c.generation, c.epoch, c.attempts);
      Finalize(s.(commands := s.commands[o := c.(status := Done, resultAt := Some(now))],
                  operations := s.operations[o := s.operations[o].(status := Succeeded, progress := None,
                                                                   terminal := Some(terminal))]),
               c.endpoint)
    else
      var status := if outcome == OutcomeSucceeded then Succeeded else Failed;
      var s1 := if c.action == ReadContainerLogs then s
          else Observe(s, c.endpoint, Observation(now, Some(o), c.generation, state));
      var ended := c.(status := if outcome == OutcomeSucceeded then Done else Broken, resultAt := Some(now));
      SetStatus(s1.(commands := s1.commands[o := ended]), o, status)
  }

  ghost function RecordResult(s: Tables, n: Id, m: Evidence, outcome: Outcome, state: string, now: Time): Tx<()> {
    if !SessionFence(s, n, m) then Refuse(s, Conflict)
    else if !exists o :: Row(s, n, m.command, o) then
      if CompletedDelete(s, n, m) then
        if outcome == OutcomeSucceeded && WinningDelete(s, n, m) then Tx(s, Ok(())) else Refuse(s, Conflict)
      else Refuse(s, NotFound)
    else
      var o :| Row(s, n, m.command, o);
      if !ResultFence(s, n, o, m) then Refuse(s, Conflict)
      else if s.commands[o].resultAt.Some? then Tx(s, Ok(()))
      else Tx(AcceptResult(s, n, o, m, outcome, state, now), Ok(()))
  }
}
