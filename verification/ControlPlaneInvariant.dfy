/**
 The joint invariant of the control plane's tables, and the proof that every transaction keeps it.
 */
module ControlPlaneInvariant {
  import opened Wrappers
  import opened ControlPlane

  function Get<V>(m: map<Id, V>, k: Id): Option<V> {
    if k in m then Some(m[k]) else None
  }

  predicate Describes(c: Command, op: Operation) {
    op.node == Some(c.node) && op.epoch == c.epoch && op.endpoint == c.endpoint && op.generation == c.generation
        && op.action == c.action
  }

  predicate WellLeased(c: Command) {
    && (c.status == Pending ==> c.attempts == 0)
    && (c.status == Leased ==> 1 <= c.attempts <= MAX_COMMAND_ATTEMPTS && c.lease.Some?)
    && (Open(c) ==> c.resultAt.None?)
  }

  /**
   An operation is queued exactly while its outbox event waits, and running exactly while its
   command is open; the command carries the operation's node, endpoint, generation and epoch.
   */
  predicate Coupled(op: Operation, c: Option<Command>, ev: Option<OutboxEvent>) {
    && (op.status == Queued <==> ev.Some? && !ev.value.processed)
    && (op.status == Running <==> c.Some? && Open(c.value))
    && (op.status == Queued ==> c.None? && op.node.None?)
    && (c.Some? ==> Describes(c.value, op) && WellLeased(c.value))
  }

  /** A live operation is at its endpoint's generation, and its endpoint is not deleted. */
  predicate Timely(op: Operation, ep: Endpoint) {
    Live(op) ==> !ep.deleted && ep.generation == op.generation
  }

  /**
   Leases belong to the current epoch; so do waiting commands, but for those dispatched before the first
   heartbeat.
   */
  predicate Fenced(c: Command, node: Node) {
    && (c.status == Leased ==> c.epoch == node.epoch && c.epoch > 0)
    && (c.status == Pending ==> c.epoch == node.epoch || c.epoch == 0)
  }

  /** Everything the invariant says of one operation and its rows. */
  predicate Sound(s: Tables, o: Id)
    requires o in s.operations
  {
    var op := s.operations[o];
    && op.endpoint in s.endpoints
    && Coupled(op, Get(s.commands, o), Get(s.outbox, o))
    && Timely(op, s.endpoints[op.endpoint])
    && (o in s.commands ==>
          && s.commands[o].node in s.nodes && Fenced(s.commands[o], s.nodes[s.commands[o].node])
          && !s.endpoints[op.endpoint].deleted)
  }

  ghost predicate AllSound(s: Tables) {
    && (forall o {:trigger Sound(s, o)} :: o in s.operations ==> Sound(s, o))
    && s.commands.Keys <= s.operations.Keys && s.outbox.Keys <= s.operations.Keys
  }

  /** A node has an epoch above zero exactly when it has had a session; endpoints point at existing nodes. */
  ghost predicate Wired(s: Tables) {
    && (forall n :: n in s.nodes ==> (s.nodes[n].session.None? <==> s.nodes[n].epoch == 0))
    && (forall e :: e in s.endpoints && s.endpoints[e].node.Some? ==> s.endpoints[e].node.value in s.nodes)
  }

  predicate LiveAt(s: Tables, o: Id) { o in s.operations && Live(s.operations[o]) }

  /** At most one live operation per endpoint. */
  ghost predicate Exclusive(s: Tables) {
    forall o, p {:trigger LiveAt(s, o), LiveAt(s, p)} ::
      LiveAt(s, o) && LiveAt(s, p) && s.operations[o].endpoint == s.operations[p].endpoint ==> o == p
  }

  predicate HasId(s: Tables, o: Id, id: Id) { o in s.commands && s.commands[o].id == id }

  ghost predicate DistinctIds(s: Tables) {
    forall o, p, id {:trigger HasId(s, o, id), HasId(s, p, id)} :: HasId(s, o, id) && HasId(s, p, id) ==> o == p
  }

  /** The operations that moved an endpoint to a new generation. */
  function Bumps(s: Tables, e: Id): set<Id> {
    set o | o in s.operations && s.operations[o].endpoint == e && !ReadOnly(s.operations[o].action)
  }

  predicate HasKey(s: Tables, o: Id, e: Id, key: Key) {
    o in s.operations && s.operations[o].endpoint == e && s.operations[o].key == key
  }

  /** An idempotency key names one operation of an endpoint: the table's unique key. */
  ghost predicate KeysUnique(s: Tables) {
    forall o, p, e, key {:trigger HasKey(s, o, e, key), HasKey(s, p, e, key)} ::
      HasKey(s, o, e, key) && HasKey(s, p, e, key) ==> o == p
  }

  /** The attempt of a recorded expiry lies between one and the number recorded. */
  predicate NumberedAt(s: Tables, o: Id, e: Id, action: Action) {
    o in ExpiryHistory(s, e, action) ==> 1 <= s.operations[o].key.attempt <= |ExpiryHistory(s, e, action)|
  }

  ghost predicate Numbered(s: Tables) {
    forall o, e, action {:trigger NumberedAt(s, o, e, action)} :: NumberedAt(s, o, e, action)
  }

  ghost predicate Keyed(s: Tables) { KeysUnique(s) && Numbered(s) }

  /** `o` moved endpoint `e` to generation `g`. */
  predicate BumpAt(s: Tables, o: Id, e: Id, g: nat) {
    o in s.operations && s.operations[o].endpoint == e && !ReadOnly(s.operations[o].action)
        && s.operations[o].generation == g
  }

  predicate Within(s: Tables, o: Id, e: Id)
    requires e in s.endpoints
  {
    o in s.operations && s.operations[o].endpoint == e ==>
      s.operations[o].generation <= s.endpoints[e].generation
          && (ReadOnly(s.operations[o].action) || 1 <= s.operations[o].generation)
  }

  ghost predicate CountedAt(s: Tables, e: Id)
    requires e in s.endpoints
  {
    && |Bumps(s, e)| == s.endpoints[e].generation
    && (forall o {:trigger Within(s, o, e)} :: Within(s, o, e))
    && (forall o, p, g {:trigger BumpAt(s, o, e, g), BumpAt(s, p, e, g)} ::
          BumpAt(s, o, e, g) && BumpAt(s, p, e, g) ==> o == p)
  }

  ghost predicate Counted(s: Tables) {
    forall e {:trigger CountedAt(s, e)} :: e in s.endpoints ==> CountedAt(s, e)
  }

  ghost predicate Inv(s: Tables) {
    AllSound(s) && Wired(s) && Exclusive(s) && DistinctIds(s) && Counted(s) && Keyed(s)
  }

  // --- transactions that leave the generation count alone ---

  /** Operations keep endpoint, action, generation and key, and endpoints their generation. */
  ghost predicate SameCount(s: Tables, t: Tables) {
    && t.endpoints.Keys == s.endpoints.Keys && t.operations.Keys == s.operations.Keys
    && (forall e :: e in s.endpoints ==> t.endpoints[e].generation == s.endpoints[e].generation)
    && (forall o :: o in s.operations ==>
          t.operations[o].endpoint == s.operations[o].endpoint && t.operations[o].action == s.operations[o].action
          && t.operations[o].generation == s.operations[o].generation && t.operations[o].key == s.operations[o].key)
  }

  lemma SameCountKeeps(s: Tables, t: Tables)
    requires Counted(s) && Keyed(s) && SameCount(s, t)
    ensures Counted(t) && Keyed(t)
  {
    forall e | e in t.endpoints ensures CountedAt(t, e) {
      assert CountedAt(s, e);
      assert Bumps(t, e) == Bumps(s, e);
      forall o ensures Within(t, o, e) { assert Within(s, o, e); }
      forall o, p, g | BumpAt(t, o, e, g) && BumpAt(t, p, e, g) ensures o == p {
        assert BumpAt(s, o, e, g) && BumpAt(s, p, e, g);
      }
    }
    SameKeys(s, t);
  }

  /** Rows that keep endpoint and key keep the keys. */
  lemma SameKeys(s: Tables, t: Tables)
    requires Keyed(s) && t.operations.Keys == s.operations.Keys
    requires forall o :: o in s.operations ==>
               t.operations[o].endpoint == s.operations[o].endpoint && t.operations[o].key == s.operations[o].key
    ensures Keyed(t)
  {
    forall o, p, e, key | HasKey(t, o, e, key) && HasKey(t, p, e, key) ensures o == p {
      assert HasKey(s, o, e, key) && HasKey(s, p, e, key);
    }
    forall o, e, action ensures NumberedAt(t, o, e, action) {
      assert ExpiryHistory(t, e, action) == ExpiryHistory(s, e, action);
      assert NumberedAt(s, o, e, action);
    }
  }

  /** A transaction that revives no operation and renames no command keeps the invariant if rows stay sound. */
  lemma Assemble(s: Tables, t: Tables)
    requires Inv(s) && SameCount(s, t) && AllSound(t) && Wired(t)
    requires forall o {:trigger LiveAt(t, o)} :: LiveAt(t, o) ==> LiveAt(s, o)
    requires forall o :: o in t.commands ==> o in s.commands && t.commands[o].id == s.commands[o].id
    ensures Inv(t)
  {
    SameCountKeeps(s, t);
    forall o, p | LiveAt(t, o) && LiveAt(t, p) && t.operations[o].endpoint == t.operations[p].endpoint ensures o == p {
      assert LiveAt(s, o) && LiveAt(s, p);
    }
    forall o, p, id | HasId(t, o, id) && HasId(t, p, id) ensures o == p {
      assert HasId(s, o, id) && HasId(s, p, id);
    }
  }

  // --- building blocks ---

  lemma SupersedeSound(s: Tables, e: Id, now: Time, o: Id)
    requires o in s.operations && Sound(s, o)
    ensures Sound(Supersede(s, e, now), o)
  {
  }

  lemma SupersedeKeepsSound(s: Tables, e: Id, now: Time)
    requires AllSound(s)
    ensures AllSound(Supersede(s, e, now))
  {
    forall o | o in s.operations ensures Sound(Supersede(s, e, now), o) {
      assert Sound(s, o);
      SupersedeSound(s, e, now, o);
    }
  }

  lemma SupersedeKeeps(s: Tables, e: Id, now: Time)
    requires Inv(s)
    ensures Inv(Supersede(s, e, now)) && LiveOperations(Supersede(s, e, now), e) == {}
  {
    SupersedeKeepsSound(s, e, now);
    Assemble(s, Supersede(s, e, now));
  }

  lemma EnqueueBumps(s: Tables, o: Id, e: Id, generation: nat, action: Action, desired: Desired, key: Key,
      request: Request, now: Time, f: Id)
    requires o !in s.operations && e in s.endpoints
    ensures Bumps(Enqueue(s, o, e, generation, action, desired, key, request, now), f)
         == Bumps(s, f) + if f == e && !ReadOnly(action) then {o} else {}
  {
  }

  predicate NewRow(s: Tables, t: Tables, f: Id, o: Id)
    requires f in s.endpoints && f in t.endpoints && o in t.operations
  {
    && o !in s.operations && t.operations == s.operations[o := t.operations[o]]
    && s.endpoints[f].generation <= t.endpoints[f].generation
    && (t.operations[o].endpoint == f ==> t.operations[o].generation == t.endpoints[f].generation)
  }

  /** An operation that does not move the endpoint leaves its count alone. */
  lemma CountedBeside(s: Tables, t: Tables, f: Id, o: Id)
    requires f in s.endpoints && f in t.endpoints && CountedAt(s, f) && o in t.operations && NewRow(s, t, f, o)
    requires t.operations[o].endpoint != f || ReadOnly(t.operations[o].action)
    requires Bumps(t, f) == Bumps(s, f) && t.endpoints[f].generation == s.endpoints[f].generation
    ensures CountedAt(t, f)
  {
    forall p ensures Within(t, p, f) { assert Within(s, p, f); }
    forall p, q, g | BumpAt(t, p, f, g) && BumpAt(t, q, f, g) ensures p == q {
      assert BumpAt(s, p, f, g) && BumpAt(s, q, f, g);
    }
  }

  lemma CountedNext(s: Tables, t: Tables, f: Id, o: Id)
    requires f in s.endpoints && f in t.endpoints && CountedAt(s, f) && o in t.operations && NewRow(s, t, f, o)
    requires t.operations[o].endpoint == f && !ReadOnly(t.operations[o].action)
    requires Bumps(t, f) == Bumps(s, f) + {o} && t.endpoints[f].generation == s.endpoints[f].generation + 1
    ensures CountedAt(t, f)
  {
    assert o !in Bumps(s, f);
    forall p ensures Within(t, p, f) { assert Within(s, p, f); }
    forall p, q, g | BumpAt(t, p, f, g) && BumpAt(t, q, f, g) ensures p == q {
      assert Within(s, p, f) && Within(s, q, f);
      assert p == o || BumpAt(s, p, f, g);
      assert q == o || BumpAt(s, q, f, g);
    }
  }

  lemma EnqueueCounts(s: Tables, o: Id, e: Id, generation: nat, action: Action, desired: Desired, key: Key,
      request: Request, now: Time)
    requires Counted(s) && o !in s.operations && e in s.endpoints
    requires generation == s.endpoints[e].generation + if ReadOnly(action) then 0 else 1
    ensures Counted(Enqueue(s, o, e, generation, action, desired, key, request, now))
  {
    var t := Enqueue(s, o, e, generation, action, desired, key, request, now);
    forall f | f in t.endpoints ensures CountedAt(t, f) {
      assert CountedAt(s, f);
      EnqueueBumps(s, o, e, generation, action, desired, key, request, now, f);
      if f == e && !ReadOnly(action) { CountedNext(s, t, f, o); } else { CountedBeside(s, t, f, o); }
    }
  }

  lemma EnqueueKeeps(s: Tables, o: Id, e: Id, generation: nat, action: Action, desired: Desired, key: Key,
      request: Request, now: Time)
    requires Inv(s) && o !in s.operations && e in s.endpoints && !s.endpoints[e].deleted
    requires LiveOperations(s, e) == {} && NextKey(s, e, key)
    requires generation == s.endpoints[e].generation + if ReadOnly(action) then 0 else 1
    ensures Inv(Enqueue(s, o, e, generation, action, desired, key, request, now))
  {
    var t := Enqueue(s, o, e, generation, action, desired, key, request, now);
    EnqueueCounts(s, o, e, generation, action, desired, key, request, now);
    EnqueueKeys(s, o, e, generation, action, desired, key, request, now);
    EnqueueLives(s, t, o, e);
    forall p | p in t.operations ensures Sound(t, p) {
      if p != o { assert Sound(s, p); assert LiveAt(t, p) || !Live(t.operations[p]); }
    }
    forall p, q, id | HasId(t, p, id) && HasId(t, q, id) ensures p == q {
      assert HasId(s, p, id) && HasId(s, q, id);
    }
  }

  /** A new operation of an endpoint without live ones is its only one. */
  lemma EnqueueLives(s: Tables, t: Tables, o: Id, e: Id)
    requires Exclusive(s) && LiveOperations(s, e) == {} && o !in s.operations && o in t.operations
    requires t.operations == s.operations[o := t.operations[o]] && t.operations[o].endpoint == e
    ensures Exclusive(t)
    ensures forall p {:trigger LiveAt(t, p)} :: LiveAt(t, p) && p != o ==> t.operations[p].endpoint != e
  {
    forall p | LiveAt(t, p) && p != o ensures LiveAt(s, p) && t.operations[p].endpoint != e {
      assert t.operations[p].endpoint == e ==> p in LiveOperations(s, e);
    }
  }

  lemma EnqueueKeys(s: Tables, o: Id, e: Id, generation: nat, action: Action, desired: Desired, key: Key,
      request: Request, now: Time)
    requires Keyed(s) && o !in s.operations && e in s.endpoints && NextKey(s, e, key)
    ensures Keyed(Enqueue(s, o, e, generation, action, desired, key, request, now))
  {
    var t := Enqueue(s, o, e, generation, action, desired, key, request, now);
    forall p, q, f, k | HasKey(t, p, f, k) && HasKey(t, q, f, k) ensures p == q {
      assert HasKey(s, p, f, k) || p == o;
      assert HasKey(s, q, f, k) || q == o;
      assert HasKey(s, p, e, k) && k == key ==> p in KeyMatches(s, e, key);
      assert HasKey(s, q, e, k) && k == key ==> q in KeyMatches(s, e, key);
    }
    forall p, f, a ensures NumberedAt(t, p, f, a) {
      assert NumberedAt(s, p, f, a);
      EnqueueNumbers(s, t, o, p, f, a);
    }
  }

  lemma EnqueueNumbers(s: Tables, t: Tables, o: Id, p: Id, f: Id, action: Action)
    requires o !in s.operations && o in t.operations && t.operations == s.operations[o := t.operations[o]]
    requires NextKey(s, t.operations[o].endpoint, t.operations[o].key) && NumberedAt(s, p, f, action)
    ensures NumberedAt(t, p, f, action)
  {
    var before, after := ExpiryHistory(s, f, action), ExpiryHistory(t, f, action);
    if o in after {
      assert after == before + {o};
    } else {
      assert after == before;
    }
  }

  /** A key the table's unique key admits; an expiry takes the next number. */
  predicate NextKey(s: Tables, e: Id, key: Key) {
    KeyMatches(s, e, key) == {} && (key.ExpiryKey? ==> key.attempt == |ExpiryHistory(s, e, key.action)| + 1)
  }

  /** The number of an expiry attempt is never taken, so the unique key never refuses one. */
  lemma ExpiryKeyIsFree(s: Tables, e: Id, action: Action)
    requires Inv(s)
    ensures KeyMatches(s, e, ExpiryKey(action, |ExpiryHistory(s, e, action)| + 1)) == {}
  {
    forall o | o in ExpiryHistory(s, e, action) ensures s.operations[o].key.attempt <= |ExpiryHistory(s, e, action)| {
      assert NumberedAt(s, o, e, action);
    }
  }

  // --- mutateEndpoint, enqueueExpiryOperation, reclaimStaleEndpoints, repairMissingOutbox ---

  lemma MutateKeeps(s: Tables, m: Mutation, newId: Id, now: Time)
    requires Inv(s) && newId !in s.operations
    ensures Inv(Mutate(s, m, newId, now).tables)
  {
    if Mutate(s, m, newId, now).tables != s {
      var e := m.endpoint;
      if m.action == ForceRestart { SupersedeKeeps(s, e, now); }
      var cleared := if m.action == ForceRestart then Supersede(s, e, now) else s;
      assert KeyMatches(cleared, e, UserKey(m.key)) == KeyMatches(s, e, UserKey(m.key));
      EnqueueKeeps(cleared, newId, e, s.endpoints[e].generation + if ReadOnly(m.action) then 0 else 1, m.action,
                   DesiredAfter(m.action, s.endpoints[e].desired), UserKey(m.key), RequestOf(m), now);
    }
  }

  lemma ExpireKeeps(s: Tables, e: Id, action: Action, newId: Id, now: Time)
    requires Inv(s) && newId !in s.operations && (action == Stop || action == Delete)
    ensures Inv(Expire(s, e, action, newId, now).tables)
  {
    if ExpiryDue(s, e, action) {
      var ep := s.endpoints[e];
      var cleared := if LiveOperations(s, e) != {} then Supersede(s, e, now) else s;
      var key := ExpiryKey(action, |ExpiryHistory(s, e, action)| + 1);
      ExpiryIsNext(s, e, action, now, cleared, key);
      EnqueueKeeps(cleared, newId, e, ep.generation + 1, action, if action == Stop then StoppedState else ep.desired,
                   key, Request(action, ep.generation, "workspace_expiry"), now);
    }
  }

  /** Once the live operations are superseded the endpoint is ready for the expiry. */
  lemma ExpiryIsNext(s: Tables, e: Id, action: Action, now: Time, cleared: Tables, key: Key)
    requires Inv(s) && key == ExpiryKey(action, |ExpiryHistory(s, e, action)| + 1)
    requires cleared == if LiveOperations(s, e) != {} then Supersede(s, e, now) else s
    ensures Inv(cleared) && LiveOperations(cleared, e) == {} && NextKey(cleared, e, key)
  {
    ExpiryKeyIsFree(s, e, action);
    if LiveOperations(s, e) != {} {
      SupersedeKeeps(s, e, now);
      SupersedeKeepsHistory(s, e, now, action, key);
    }
  }

  lemma SupersedeKeepsHistory(s: Tables, e: Id, now: Time, action: Action, key: Key)
    ensures var t := Supersede(s, e, now);
            ExpiryHistory(t, e, action) == ExpiryHistory(s, e, action) && KeyMatches(t, e, key) == KeyMatches(s, e, key)
  {
  }

  lemma ReclaimKeeps(s: Tables, e: Id, newId: Id, now: Time)
    requires Inv(s) && newId !in s.operations && e in s.endpoints && !s.endpoints[e].deleted
    ensures Inv(Reclaim(s, e, newId, now).tables)
  {
    if Reclaim(s, e, newId, now).tables != s {
      var ep := s.endpoints[e];
      EnqueueKeeps(s, newId, e, ep.generation, ReadContainerLogs, ep.desired, ReclaimKey(ep.generation),
                   Request(ReadContainerLogs, ep.generation, "stale-telemetry-reclaim"), now);
    }
  }

  /** The repair sweep finds nothing to repair. */
  lemma RepairIsIdle(s: Tables, now: Time)
    requires Inv(s)
    ensures MissingOutbox(s) == {} && Repair(s, now) == Tx(s, Ok(0))
  {
    forall o | o in s.operations && s.operations[o].status == Queued ensures o in s.outbox {
      assert Sound(s, o);
    }
    assert s.outbox + map[] == s.outbox;
  }

  // --- one operation's rows change ---

  predicate SameRows(s: Tables, t: Tables, p: Id) {
    Get(t.operations, p) == Get(s.operations, p) && Get(t.commands, p) == Get(s.commands, p)
        && Get(t.outbox, p) == Get(s.outbox, p)
  }

  /** The two states differ in the rows of operation `o` only, and in nothing the other conjuncts read. */
  ghost predicate OnlyRowsOf(s: Tables, t: Tables, o: Id) {
    && o in s.operations && o in t.operations
    && t.nodes == s.nodes && t.endpoints == s.endpoints
    && t.operations.Keys == s.operations.Keys
    && (forall p {:trigger SameRows(s, t, p)} :: p != o ==> SameRows(s, t, p))
    && t.operations[o].endpoint == s.operations[o].endpoint && t.operations[o].action == s.operations[o].action
    && t.operations[o].generation == s.operations[o].generation && t.operations[o].key == s.operations[o].key
  }

  lemma RowKeepsSound(s: Tables, t: Tables, o: Id)
    requires AllSound(s) && OnlyRowsOf(s, t, o) && Sound(t, o)
    ensures AllSound(t)
  {
    forall p | p in t.operations ensures Sound(t, p) {
      if p != o { assert SameRows(s, t, p) && Sound(s, p); }
    }
    forall p | p in t.commands ensures p in t.operations { assert p == o || SameRows(s, t, p); }
    forall p | p in t.outbox ensures p in t.operations { assert p == o || SameRows(s, t, p); }
  }

  lemma RowKeepsKeys(s: Tables, t: Tables, o: Id)
    requires Exclusive(s) && DistinctIds(s) && OnlyRowsOf(s, t, o)
    requires LiveAt(t, o) ==> LiveAt(s, o)
    requires o in t.commands && !(o in s.commands && s.commands[o].id == t.commands[o].id) ==>
               forall p :: p in s.commands ==> s.commands[p].id != t.commands[o].id
    ensures Exclusive(t) && DistinctIds(t)
  {
    forall p, q | LiveAt(t, p) && LiveAt(t, q) && t.operations[p].endpoint == t.operations[q].endpoint ensures p == q {
      assert (p == o || SameRows(s, t, p)) && (q == o || SameRows(s, t, q));
      assert LiveAt(s, p) && LiveAt(s, q);
    }
    forall p, q, id | HasId(t, p, id) && HasId(t, q, id) ensures p == q {
      assert (p == o || SameRows(s, t, p)) && (q == o || SameRows(s, t, q));
      assert HasId(s, p, id) || p == o;
      assert HasId(s, q, id) || q == o;
    }
  }

  /** If one operation's rows stay sound and it does not come back to life, the invariant stays. */
  lemma RowKeeps(s: Tables, t: Tables, o: Id)
    requires Inv(s) && OnlyRowsOf(s, t, o) && Sound(t, o)
    requires LiveAt(t, o) ==> LiveAt(s, o)
    requires o in t.commands && !(o in s.commands && s.commands[o].id == t.commands[o].id) ==>
               forall p :: p in s.commands ==> s.commands[p].id != t.commands[o].id
    ensures Inv(t)
  {
    RowKeepsSound(s, t, o);
    RowKeepsKeys(s, t, o);
    forall p | p in s.operations && p != o ensures t.operations[p] == s.operations[p] { assert SameRows(s, t, p); }
    SameCountKeeps(s, t);
  }

  // --- finalizeEndpointDeletion ---

  lemma FinalizeKeeps(s: Tables, e: Id)
    requires Inv(s) && e in s.endpoints && LiveOperations(s, e) == {}
    ensures Inv(Finalize(s, e))
  {
    var t := Finalize(s, e);
    forall p | p in t.operations ensures Sound(t, p) {
      assert Sound(s, p);
      if s.operations[p].endpoint == e { assert p !in LiveOperations(s, e); }
    }
    Assemble(s, t);
  }

  // --- revocation of a shared node ---

  predicate Waiting(s: Tables, n: Id, o: Id) {
    o in s.commands && s.commands[o].node == n && s.commands[o].status == Pending
  }

  lemma RevokedSound(s: Tables, n: Id, now: Time, o: Id)
    requires o in s.operations && Sound(s, o) && !Waiting(s, n, o)
    ensures Sound(RevokePool(s, n, now), o)
  {
  }

  lemma RevocationStrands(s: Tables, n: Id, now: Time, o: Id)
    requires o in s.operations && Sound(s, o) && Waiting(s, n, o)
    ensures !Sound(RevokePool(s, n, now), o)
  {
  }

  lemma RevokedAllSound(s: Tables, n: Id, now: Time)
    requires AllSound(s) && forall o :: o in s.commands ==> !Waiting(s, n, o)
    ensures AllSound(RevokePool(s, n, now))
  {
    forall o | o in s.operations ensures Sound(RevokePool(s, n, now), o) {
      assert Sound(s, o);
      RevokedSound(s, n, now, o);
    }
  }

  lemma UncontestedRevocationKeeps(s: Tables, n: Id, now: Time)
    requires Inv(s) && forall o :: o in s.commands ==> !Waiting(s, n, o)
    ensures Inv(RevokePool(s, n, now))
  {
    RevokedAllSound(s, n, now);
    Assemble(s, RevokePool(s, n, now));
  }

  /**
   Revoking a shared node keeps the invariant exactly if no command waits on it: such a command outlives its
   operation.
   */
  lemma PoolRevocationKeeps(s: Tables, n: Id, now: Time)
    requires Inv(s)
    ensures Inv(RevokePool(s, n, now)) <==> forall o :: o in s.commands ==> !Waiting(s, n, o)
  {
    if o :| o in s.commands && Waiting(s, n, o) {
      assert Sound(s, o);
      RevocationStrands(s, n, now, o);
      assert o in RevokePool(s, n, now).operations;
    } else {
      UncontestedRevocationKeeps(s, n, now);
    }
  }

  // --- processOne ---

  /** The worker never meets an operation whose endpoint is gone or has moved to another generation. */
  lemma GenerationFenceNeverFires(s: Tables, o: Id, now: Time)
    requires Inv(s) && Visible(s, o, now)
    ensures s.operations[o].status == Queued && o !in s.commands
    ensures s.operations[o].endpoint in s.endpoints && !s.endpoints[s.operations[o].endpoint].deleted
    ensures s.endpoints[s.operations[o].endpoint].generation == s.operations[o].generation
  {
    assert Sound(s, o);
  }

  lemma OnlyLive(s: Tables, o: Id)
    requires Inv(s) && LiveAt(s, o)
    ensures LiveOperations(s, s.operations[o].endpoint) == {o}
  {
    forall p | p in LiveOperations(s, s.operations[o].endpoint) ensures p == o { assert LiveAt(s, p); }
  }

  /** So processing an event settles the operation. */
  lemma ProcessSettles(s: Tables, o: Id, commandId: Id, now: Time)
    requires Inv(s) && Visible(s, o, now)
    ensures s.operations[o].endpoint in s.endpoints && s.operations[o].status == Queued && o !in s.commands
    ensures var ep := s.endpoints[s.operations[o].endpoint];
            (ep.node.Some? ==> ep.node.value in s.nodes) && !ep.deleted && ep.generation == s.operations[o].generation
    ensures Process(s, Some(o), commandId, now) == Settle(s, o, commandId, now)
  {
    GenerationFenceNeverFires(s, o, now);
  }

  /** Ending an operation leaves its endpoint without live operations. */
  lemma NoneLive(s: Tables, t: Tables, o: Id)
    requires Inv(s) && LiveAt(s, o) && OnlyRowsOf(s, t, o) && !LiveAt(t, o)
    ensures LiveOperations(t, s.operations[o].endpoint) == {}
  {
    OnlyLive(s, o);
    forall p | p in LiveOperations(t, s.operations[o].endpoint)
        ensures p in LiveOperations(s, s.operations[o].endpoint) {
      assert SameRows(s, t, p);
    }
  }

  lemma FinalizeDone(s: Tables, done: Tables, t: Tables, o: Id)
    requires Inv(s) && LiveAt(s, o) && OnlyRowsOf(s, t, o) && !LiveAt(t, o) && Inv(t)
    requires o in done.outbox && t == Processed(done, o) && s.operations[o].endpoint in s.endpoints
             && done.endpoints == s.endpoints
    ensures Inv(Finalize(done, s.operations[o].endpoint))
  {
    NoneLive(s, t, o);
    FinalizeKeeps(t, s.operations[o].endpoint);
    assert Finalize(t, s.operations[o].endpoint) == Finalize(done, s.operations[o].endpoint);
  }

  lemma CompleteUnassignedKeeps(s: Tables, o: Id, now: Time)
    requires Inv(s) && Visible(s, o, now)
    ensures s.operations[o].endpoint in s.endpoints && Inv(CompleteUnassigned(s, o, now))
  {
    GenerationFenceNeverFires(s, o, now);
    assert Sound(s, o);
    var done := SetStatus(s, o, Succeeded);
    var t := Processed(done, o);
    RowKeeps(s, t, o);
    if s.operations[o].action == Delete {
      FinalizeDone(s, done, t, o);
    } else {
      InvIgnoresObservations(t, CompleteUnassigned(s, o, now));
    }
  }

  lemma InvIgnoresObservations(s: Tables, t: Tables)
    requires Inv(s) && t == s.(observations := t.observations)
    ensures Inv(t)
  {
    forall p | p in t.operations ensures Sound(t, p) {
      assert Sound(s, p);
    }
    Assemble(s, t);
  }

  lemma DispatchRow(s: Tables, o: Id, n: Id, commandId: Id, now: Time)
    requires o in s.operations && o in s.outbox && Sound(s, o) && s.operations[o].status == Queued && n in s.nodes
    requires s.commands.Keys <= s.operations.Keys && s.outbox.Keys <= s.operations.Keys
    ensures var t := Dispatch(s, o, n, commandId, now);
            OnlyRowsOf(s, t, o) && Sound(t, o) && o in t.commands && t.commands[o].id == commandId
  {
  }

  lemma SettleRow(s: Tables, o: Id, commandId: Id, now: Time)
    requires AllSound(s) && Visible(s, o, now) && s.operations[o].endpoint in s.endpoints
    requires var ep := s.endpoints[s.operations[o].endpoint]; ep.node.Some? && ep.node.value in s.nodes
    ensures var t := Settle(s, o, commandId, now).tables;
            && OnlyRowsOf(s, t, o) && Sound(t, o) && LiveAt(s, o) && o !in s.commands
            && (o in t.commands ==> t.commands[o].id == commandId)
  {
    assert Sound(s, o);
    var ep := s.endpoints[s.operations[o].endpoint];
    var node := s.nodes[ep.node.value];
    if (ep.provider != SnowLuma || node.artifact == Some(SNOWLUMA_ARTIFACT))
        && (ep.provider == node.provider || node.providerRouting) {
      DispatchRow(s, o, ep.node.value, commandId, now);
    }
  }

  lemma SettleKeeps(s: Tables, o: Id, commandId: Id, now: Time)
    requires Inv(s) && Visible(s, o, now) && s.operations[o].endpoint in s.endpoints
    requires var ep := s.endpoints[s.operations[o].endpoint]; ep.node.Some? ==> ep.node.value in s.nodes
    requires forall p :: p in s.commands ==> s.commands[p].id != commandId
    ensures Inv(Settle(s, o, commandId, now).tables)
  {
    assert Sound(s, o);
    if s.endpoints[s.operations[o].endpoint].node.None? {
      CompleteUnassignedKeeps(s, o, now);
    } else {
      SettleRow(s, o, commandId, now);
      RowKeeps(s, Settle(s, o, commandId, now).tables, o);
    }
  }

  lemma ProcessKeeps(s: Tables, pick: Option<Id>, commandId: Id, now: Time)
    requires Inv(s) && (pick.Some? ==> Visible(s, pick.value, now))
    requires forall o :: o in s.commands ==> s.commands[o].id != commandId
    ensures Inv(Process(s, pick, commandId, now).tables)
  {
    if pick.Some? {
      ProcessSettles(s, pick.value, commandId, now);
      SettleKeeps(s, pick.value, commandId, now);
    }
  }

  // --- heartbeat ---

  /** Fresh ids for a takeover: distinct, and none in use. */
  ghost predicate FreshBatch(s: Tables, reissue: map<Id, Id>) {
    && s.commands.Keys <= reissue.Keys
    && (forall o, p :: o in reissue && p in reissue && reissue[o] == reissue[p] ==> o == p)
    && (forall o, p :: o in reissue && p in s.commands ==> reissue[o] != s.commands[p].id)
  }

  predicate TakesOver(s: Tables, n: Id, session: Session)
    requires n in s.nodes
  {
    s.nodes[n].session.Some? && s.nodes[n].session.value != session
  }

  lemma TakeoverSound(s: Tables, n: Id, session: Session, reissue: map<Id, Id>, now: Time, o: Id)
    requires n in s.nodes && s.commands.Keys <= reissue.Keys && o in s.operations && Sound(s, o)
    requires TakesOver(s, n, session)
    ensures Sound(Connect(s, n, session, reissue, now), o)
  {
  }

  lemma ConnectSound(s: Tables, n: Id, session: Session, reissue: map<Id, Id>, now: Time, o: Id)
    requires n in s.nodes && s.commands.Keys <= reissue.Keys && o in s.operations && Sound(s, o)
    requires s.nodes[n].session.None? ==> s.nodes[n].epoch == 0
    ensures Sound(Connect(s, n, session, reissue, now), o)
  {
    if TakesOver(s, n, session) { TakeoverSound(s, n, session, reissue, now, o); }
  }

  lemma ConnectKeepsIds(s: Tables, n: Id, session: Session, reissue: map<Id, Id>, now: Time)
    requires DistinctIds(s) && n in s.nodes && FreshBatch(s, reissue)
    ensures DistinctIds(Connect(s, n, session, reissue, now))
  {
    var t := Connect(s, n, session, reissue, now);
    forall p, q, id | HasId(t, p, id) && HasId(t, q, id) ensures p == q {
      assert id == reissue[p] || HasId(s, p, id);
      assert id == reissue[q] || HasId(s, q, id);
    }
  }

  lemma ConnectKeepsExclusive(s: Tables, n: Id, session: Session, reissue: map<Id, Id>, now: Time)
    requires Exclusive(s) && n in s.nodes && s.commands.Keys <= reissue.Keys
    ensures Exclusive(Connect(s, n, session, reissue, now))
  {
    var t := Connect(s, n, session, reissue, now);
    forall p, q | LiveAt(t, p) && LiveAt(t, q) && t.operations[p].endpoint == t.operations[q].endpoint ensures p == q {
      assert LiveAt(s, p) && LiveAt(s, q);
    }
  }

  lemma ConnectKeepsSound(s: Tables, n: Id, session: Session, reissue: map<Id, Id>, now: Time)
    requires AllSound(s) && Wired(s) && n in s.nodes && FreshBatch(s, reissue)
    ensures AllSound(Connect(s, n, session, reissue, now))
  {
    forall o | o in s.operations ensures Sound(Connect(s, n, session, reissue, now), o) {
      assert Sound(s, o);
      ConnectSound(s, n, session, reissue, now, o);
    }
  }

  lemma TakeoverSameCount(s: Tables, n: Id, reissue: map<Id, Id>, now: Time)
    requires n in s.nodes && s.nodes[n].session.Some? && s.commands.Keys <= reissue.Keys
    ensures SameCount(s, Takeover(s, n, reissue, now))
  {
  }

  lemma ConnectSameCount(s: Tables, n: Id, session: Session, reissue: map<Id, Id>, now: Time)
    requires n in s.nodes && s.commands.Keys <= reissue.Keys
    ensures SameCount(s, Connect(s, n, session, reissue, now))
  {
    if TakesOver(s, n, session) { TakeoverSameCount(s, n, reissue, now); }
  }

  lemma ConnectKeeps(s: Tables, n: Id, session: Session, reissue: map<Id, Id>, now: Time)
    requires Inv(s) && n in s.nodes && FreshBatch(s, reissue)
    ensures Inv(Connect(s, n, session, reissue, now))
  {
    ConnectKeepsIds(s, n, session, reissue, now);
    ConnectKeepsExclusive(s, n, session, reissue, now);
    ConnectKeepsSound(s, n, session, reissue, now);
    ConnectSameCount(s, n, session, reissue, now);
    SameCountKeeps(s, Connect(s, n, session, reissue, now));
  }

  lemma {:induction false} ReportAllFrame(s: Tables, n: Id, runtimes: seq<RuntimeReport>, now: Time)
    ensures var t := ReportAll(s, n, runtimes, now); t == s.(observations := t.observations)
  {
    if runtimes != [] { ReportAllFrame(s, n, runtimes[..|runtimes| - 1], now); }
  }

  lemma HeartbeatKeeps(s: Tables, n: Id, session: Session, runtimes: seq<RuntimeReport>, reissue: map<Id, Id>,
      now: Time)
    requires Inv(s) && FreshBatch(s, reissue)
    ensures Inv(Heartbeat(s, n, session, runtimes, reissue, now).tables)
  {
    if n in s.nodes && !s.nodes[n].revoked && !SessionRefused(s, n, session, now) {
      ConnectKeeps(s, n, session, reissue, now);
      var connected := Connect(s, n, session, reissue, now);
      ReportAllFrame(connected, n, runtimes, now);
      InvIgnoresObservations(connected, ReportAll(connected, n, runtimes, now));
    }
  }

  // --- claimAgentCommand, recordAgentProgress, recordAgentResult ---

  /** Node columns other than epoch and session are no concern of the invariant. */
  lemma NodeColumnsKeep(s: Tables, t: Tables)
    requires Inv(s) && t == s.(nodes := t.nodes) && t.nodes.Keys == s.nodes.Keys
    requires forall n :: n in s.nodes ==>
               t.nodes[n].epoch == s.nodes[n].epoch && t.nodes[n].session == s.nodes[n].session
    ensures Inv(t)
  {
    forall p | p in t.operations ensures Sound(t, p) {
      assert Sound(s, p);
    }
    Assemble(s, t);
  }

  lemma ExhaustKeeps(s: Tables, n: Id, o: Id, now: Time)
    requires Inv(s) && o in s.commands && Current(s, n, s.commands[o])
    ensures Inv(Exhaust(s, o, now))
  {
    assert Sound(s, o);
    RowKeeps(s, Exhaust(s, o, now), o);
  }

  lemma LeaseKeeps(s: Tables, n: Id, o: Id, now: Time)
    requires Inv(s) && o in s.commands && Current(s, n, s.commands[o]) && s.nodes[n].session.Some?
    requires s.commands[o].attempts < MAX_COMMAND_ATTEMPTS
    ensures var c := s.commands[o];
            Inv(s.(commands := s.commands[o := c.(status := Leased, attempts := c.attempts + 1,
                                                  lease := Some(now + LEASE))]))
  {
    assert Sound(s, o);
    var c := s.commands[o];
    RowKeeps(s, s.(commands := s.commands[o := c.(status := Leased, attempts := c.attempts + 1,
                                                  lease := Some(now + LEASE))]), o);
  }

  lemma AdvertiseKeeps(s: Tables, n: Id, routing: bool, artifact: Option<string>)
    requires Inv(s) && n in s.nodes
    ensures Inv(Advertise(s, n, routing, artifact))
  {
    NodeColumnsKeep(s, Advertise(s, n, routing, artifact));
  }

  lemma ClaimKeeps(s: Tables, n: Id, session: Session, routing: bool, artifact: Option<string>, pick: Option<Id>,
      now: Time)
    requires Inv(s) && (pick.Some? ==> Claimable(s, n, pick.value, now))
    ensures Inv(Claim(s, n, session, routing, artifact, pick, now).tables)
  {
    if n in s.nodes && !s.nodes[n].revoked && s.nodes[n].session == Some(session) {
      var s1 := Advertise(s, n, routing, artifact);
      AdvertiseKeeps(s, n, routing, artifact);
      if pick.Some? {
        if s.commands[pick.value].attempts >= MAX_COMMAND_ATTEMPTS {
          ExhaustKeeps(s1, n, pick.value, now);
        } else {
          LeaseKeeps(s1, n, pick.value, now);
        }
      }
    }
  }

  lemma ProgressKeeps(s: Tables, n: Id, m: Evidence, sequence: nat, phase: string, percent: nat, now: Time)
    requires Inv(s)
    ensures Inv(RecordProgress(s, n, m, sequence, phase, percent, now).tables)
  {
    var t := RecordProgress(s, n, m, sequence, phase, percent, now).tables;
    if t != s {
      var o := m.operation;
      var s1 := s.(nodes := t.nodes);
      NodeColumnsKeep(s, s1);
      assert Sound(s1, o);
      RowKeeps(s1, t, o);
    }
  }

  /** A result changes the tables only by being accepted for its own operation's row. */
  lemma ResultShape(s: Tables, n: Id, m: Evidence, outcome: Outcome, state: string, now: Time)
    ensures var t := RecordResult(s, n, m, outcome, state, now).tables;
            t != s ==>
              && SessionFence(s, n, m) && Row(s, n, m.command, m.operation) && ResultFence(s, n, m.operation, m)
              && t == AcceptResult(s, n, m.operation, m, outcome, state, now)
  {
  }

  /** An accepted result came from the current lease: its row is leased and unanswered. */
  lemma ResultFenceIsLeased(s: Tables, n: Id, o: Id, m: Evidence)
    requires Inv(s) && Row(s, n, m.command, o) && ResultFence(s, n, o, m)
    ensures LiveAt(s, o) && Open(s.commands[o]) && s.commands[o].resultAt.None?
            && (m.attempt >= 1 ==> s.commands[o].status == Leased)
  {
    assert Sound(s, o);
  }

  /** A completed delete before its endpoint is tombstoned. */
  function DeleteDone(s: Tables, n: Id, o: Id, m: Evidence, now: Time): Tables
    requires o in s.commands && o in s.operations
  {
    var c := s.commands[o];
    s.(commands := s.commands[o := c.(status := Done, resultAt := Some(now))],
       operations := s.operations[o := s.operations[o].(status := Succeeded, progress := None,
         terminal := Some(Terminal(m.command, n, m.session, o, c.endpoint, c.generation, c.epoch, c.attempts)))])
  }

  lemma AcceptDeleteKeeps(s: Tables, n: Id, o: Id, m: Evidence, now: Time)
    requires Inv(s) && Row(s, n, m.command, o) && ResultFence(s, n, o, m)
    ensures Inv(Finalize(DeleteDone(s, n, o, m, now), s.commands[o].endpoint))
  {
    assert Sound(s, o);
    var t := DeleteDone(s, n, o, m, now);
    RowKeeps(s, t, o);
    NoneLive(s, t, o);
    FinalizeKeeps(t, s.commands[o].endpoint);
  }

  lemma AcceptPlainRow(s: Tables, n: Id, o: Id, m: Evidence, outcome: Outcome, state: string, now: Time)
    requires AllSound(s) && Row(s, n, m.command, o) && ResultFence(s, n, o, m)
    requires outcome != OutcomeSucceeded || s.commands[o].action != Delete
    ensures var t := AcceptResult(s, n, o, m, outcome, state, now).(observations := s.observations);
            && OnlyRowsOf(s, t, o) && Sound(t, o) && LiveAt(s, o)
            && o in t.commands && t.commands[o].id == s.commands[o].id
  {
    assert Sound(s, o);
  }

  lemma AcceptPlainKeeps(s: Tables, n: Id, o: Id, m: Evidence, outcome: Outcome, state: string, now: Time)
    requires Inv(s) && Row(s, n, m.command, o) && ResultFence(s, n, o, m)
    requires outcome != OutcomeSucceeded || s.commands[o].action != Delete
    ensures Inv(AcceptResult(s, n, o, m, outcome, state, now).(observations := s.observations))
  {
    AcceptPlainRow(s, n, o, m, outcome, state, now);
    RowKeeps(s, AcceptResult(s, n, o, m, outcome, state, now).(observations := s.observations), o);
  }

  lemma AcceptResultKeeps(s: Tables, n: Id, o: Id, m: Evidence, outcome: Outcome, state: string, now: Time)
    requires Inv(s) && Row(s, n, m.command, o) && ResultFence(s, n, o, m)
    ensures Inv(AcceptResult(s, n, o, m, outcome, state, now))
  {
    if outcome == OutcomeSucceeded && s.commands[o].action == Delete {
      AcceptDeleteKeeps(s, n, o, m, now);
    } else {
      AcceptPlainKeeps(s, n, o, m, outcome, state, now);
      var t := AcceptResult(s, n, o, m, outcome, state, now);
      InvIgnoresObservations(t.(observations := s.observations), t);
    }
  }

  lemma ResultKeeps(s: Tables, n: Id, m: Evidence, outcome: Outcome, state: string, now: Time)
    requires Inv(s)
    ensures Inv(RecordResult(s, n, m, outcome, state, now).tables)
  {
    ResultShape(s, n, m, outcome, state, now);
    if RecordResult(s, n, m, outcome, state, now).tables != s {
      AcceptResultKeeps(s, n, m.operation, m, outcome, state, now);
    }
  }
}
