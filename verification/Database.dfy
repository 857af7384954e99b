/**
 The database class: one field per table, and one method per transaction that reads and rewrites
 rows in the order of the SQL statements.

 Each method is proved to compute the transaction function of module ControlPlane and to keep the
 joint invariant.

 A bulk UPDATE is one assignment to a table, an ORDER BY ... LIMIT 1 any row that no other row
 precedes, and `now` the transaction's time. Fresh ids are parameters.
 */
module Database {
  import opened Wrappers
  import opened ControlPlane
  import opened ControlPlaneInvariant
  import opened Observations
  import opened ControlPlaneRuns
  import opened ControlPlaneHistory
  import opened ControlPlaneSafety

  function VisibleEvents(s: Tables, now: Time): set<Id> { set o | o in s.outbox && Visible(s, o, now) }
  function ClaimableCommands(s: Tables, n: Id, now: Time): set<Id> {
    set o | o in s.commands && Claimable(s, n, o, now)
  }
  function RowsOf(s: Tables, n: Id, id: Id): set<Id> { set o | o in s.commands && Row(s, n, id, o) }

  lemma {:induction false} OldestExists(ids: set<Id>, age: Id -> Time) returns (oldest: Id)
    requires ids != {}
    ensures oldest in ids && forall o :: o in ids ==> age(oldest) <= age(o)
    decreases ids
  {
    oldest :| oldest in ids;
    if ids != {oldest} {
      var other := OldestExists(ids - {oldest}, age);
      if age(other) < age(oldest) { oldest := other; }
      assert forall o :: o in ids ==> o in ids - {other} || o == other;
    }
  }

  lemma OldestEvent(s: Tables, now: Time)
    requires VisibleEvents(s, now) != {}
    ensures exists o :: o in VisibleEvents(s, now) && forall p :: p in VisibleEvents(s, now) ==>
              s.outbox[o].createdAt <= s.outbox[p].createdAt
  {
    var oldest := OldestExists(VisibleEvents(s, now), o => if o in s.outbox then s.outbox[o].createdAt else 0);
  }

  lemma OldestCommand(s: Tables, n: Id, now: Time)
    requires ClaimableCommands(s, n, now) != {}
    ensures exists o :: o in ClaimableCommands(s, n, now)
                        && forall p :: p in ClaimableCommands(s, n, now) ==>
                              s.commands[o].createdAt <= s.commands[p].createdAt
  {
    var oldest := OldestExists(ClaimableCommands(s, n, now), o => if o in s.commands then s.commands[o].createdAt
                               else 0);
  }

  /** A key names at most one operation, so the row the spec chooses is the row the query returns. */
  lemma KeyNamesOne(s: Tables, e: Id, key: string, o: Id, p: Id)
    requires KeysUnique(s) && o in KeyMatches(s, e, UserKey(key)) && p in KeyMatches(s, e, UserKey(key))
    ensures o == p
  {
    assert HasKey(s, o, e, UserKey(key)) && HasKey(s, p, e, UserKey(key));
  }

  lemma RowNamesOne(s: Tables, n: Id, id: Id, o: Id, p: Id)
    requires DistinctIds(s) && Row(s, n, id, o) && Row(s, n, id, p)
    ensures o == p
  {
    assert HasId(s, o, id) && HasId(s, p, id);
  }

  ghost predicate FreshCommand(s: Tables, id: Id) { forall o :: o in s.commands ==> s.commands[o].id != id }

  /** Operation and event rows while the loops that supersede them have reached `done`. */
  function StaleRows(rows: map<Id, Operation>, done: set<Id>): map<Id, Operation> {
    map o | o in rows :: if o in done then rows[o].(status := Stale) else rows[o]
  }

  function SpentRows(rows: map<Id, OutboxEvent>, done: set<Id>): map<Id, OutboxEvent> {
    map o | o in rows :: if o in done then rows[o].(processed := true) else rows[o]
  }

  lemma StaleOneMore(rows: map<Id, Operation>, done: set<Id>, o: Id)
    requires o in rows
    ensures StaleRows(rows, done)[o := StaleRows(rows, done)[o].(status := Stale)] == StaleRows(rows, done + {o})
  {
  }

  lemma SpentOneMore(rows: map<Id, OutboxEvent>, done: set<Id>, o: Id)
    ensures var next := SpentRows(rows, done);
            (if o in rows then next[o := next[o].(processed := true)] else next) == SpentRows(rows, done + {o})
  {
  }

  /** Superseding closes the commands and marks the live operations and their events. */
  lemma SupersedeIs(s: Tables, e: Id, now: Time)
    ensures var t := Supersede(s, e, now); var live := LiveOperations(s, e);
            t == s.(commands := t.commands, operations := StaleRows(s.operations, live),
                    outbox := SpentRows(s.outbox, live))
  {
  }

  // --- the invariant and the order of observations, transaction by transaction ---

  ghost predicate Steady(t: Tables, clock: Time) { Inv(t) && Ordered(t, clock) }

  lemma MutateSteady(s: Tables, m: Mutation, newId: Id, clock: Time, now: Time)
    requires Steady(s, clock) && now > clock && newId !in s.operations
    ensures Steady(Mutate(s, m, newId, now).tables, now)
  {
    MutateKeeps(s, m, newId, now);
    MutateUnobserved(s, m, newId, now);
    LaterClock(s, Mutate(s, m, newId, now).tables, clock, now);
  }

  lemma ExpireSteady(s: Tables, e: Id, action: Action, newId: Id, clock: Time, now: Time)
    requires Steady(s, clock) && now > clock && newId !in s.operations && (action == Stop || action == Delete)
    ensures Steady(Expire(s, e, action, newId, now).tables, now)
  {
    ExpireKeeps(s, e, action, newId, now);
    ExpireUnobserved(s, e, action, newId, now);
    LaterClock(s, Expire(s, e, action, newId, now).tables, clock, now);
  }

  lemma HeartbeatSteady(s: Tables, n: Id, session: Session, runtimes: seq<RuntimeReport>, reissue: map<Id, Id>,
      clock: Time, now: Time)
    requires Steady(s, clock) && now > clock && FreshBatch(s, reissue)
    ensures Steady(ControlPlane.Heartbeat(s, n, session, runtimes, reissue, now).tables, now)
  {
    HeartbeatKeeps(s, n, session, runtimes, reissue, now);
    HeartbeatKeepsOrder(s, n, session, runtimes, reissue, clock, now);
  }

  lemma ClaimSteady(s: Tables, n: Id, session: Session, routing: bool, artifact: Option<string>, pick: Option<Id>,
      clock: Time, now: Time)
    requires Steady(s, clock) && now > clock && NextCommand(s, n, pick, now)
    ensures Steady(Claim(s, n, session, routing, artifact, pick, now).tables, now)
  {
    ClaimKeeps(s, n, session, routing, artifact, pick, now);
    ClaimUnobserved(s, n, session, routing, artifact, pick, now);
    LaterClock(s, Claim(s, n, session, routing, artifact, pick, now).tables, clock, now);
  }

  lemma ProgressSteady(s: Tables, n: Id, m: Evidence, sequence: nat, phase: string, percent: nat, clock: Time,
      now: Time)
    requires Steady(s, clock) && now > clock
    ensures Steady(RecordProgress(s, n, m, sequence, phase, percent, now).tables, now)
  {
    ProgressKeeps(s, n, m, sequence, phase, percent, now);
    ProgressUnobserved(s, n, m, sequence, phase, percent, now);
    LaterClock(s, RecordProgress(s, n, m, sequence, phase, percent, now).tables, clock, now);
  }

  lemma ResultSteady(s: Tables, n: Id, m: Evidence, outcome: Outcome, state: string, clock: Time, now: Time)
    requires Steady(s, clock) && now > clock
    ensures Steady(RecordResult(s, n, m, outcome, state, now).tables, now)
  {
    ResultKeeps(s, n, m, outcome, state, now);
    ResultKeepsOrder(s, n, m, outcome, state, clock, now);
  }

  // --- the statements of a takeover ---

  function ReissueDeletes(s: Tables, n: Id, reissue: map<Id, Id>): map<Id, Command>
    requires n in s.nodes && s.commands.Keys <= reissue.Keys
  {
    map o | o in s.commands ::
      var c := s.commands[o];
      if Current(s, n, c) && DeleteInFlight(s, o)
      then c.(id := reissue[o], epoch := s.nodes[n].epoch + 1, status := Pending, attempts := 0, lease := None,
              resultAt := None) else c
  }

  function CloseOthers(s: Tables, n: Id, now: Time): map<Id, Command> {
    map o | o in s.commands ::
      var c := s.commands[o];
      if Current(s, n, c) && !DeleteInFlight(s, o)
      then c.(status := Superseded, resultAt := if c.resultAt.Some? then c.resultAt else Some(now)) else c
  }

  lemma TakenOverCommands(s: Tables, n: Id, reissue: map<Id, Id>, now: Time)
    requires n in s.nodes && s.nodes[n].session.Some? && s.commands.Keys <= reissue.Keys
    ensures CloseOthers(s.(commands := ReissueDeletes(s, n, reissue)), n, now) == Takeover(s, n, reissue, now).commands
  {
  }

  predicate OfEpoch(op: Operation, n: Id, epoch: nat) { op.node == Some(n) && op.epoch == epoch && Live(op) }

  function FailOthers(rows: map<Id, Operation>, n: Id, epoch: nat): map<Id, Operation> {
    map o | o in rows ::
      if OfEpoch(rows[o], n, epoch) && rows[o].action != Delete then rows[o].(status := Failed, progress := None)
          else rows[o]
  }

  function ContinueDeletes(rows: map<Id, Operation>, n: Id, epoch: nat): map<Id, Operation> {
    map o | o in rows ::
      if OfEpoch(rows[o], n, epoch) && rows[o].action == Delete
      then rows[o].(epoch := epoch + 1, status := Running, progress := None) else rows[o]
  }

  lemma TakenOverOperations(s: Tables, n: Id, reissue: map<Id, Id>, now: Time)
    requires n in s.nodes && s.nodes[n].session.Some? && s.commands.Keys <= reissue.Keys
    ensures var epoch := s.nodes[n].epoch;
            ContinueDeletes(FailOthers(s.operations, n, epoch), n, epoch) == Takeover(s, n, reissue, now).operations
  {
  }

  lemma ConnectUnobserved(s: Tables, n: Id, session: Session, reissue: map<Id, Id>, clock: Time, now: Time)
    requires Ordered(s, clock) && n in s.nodes && s.commands.Keys <= reissue.Keys
    ensures Ordered(Connect(s, n, session, reissue, now), clock)
  {
    LaterClock(s, Connect(s, n, session, reissue, now), clock, clock);
  }

  /** What a takeover writes depends on the rows it reads only. */
  lemma TakeoverFrame(s: Tables, t: Tables, n: Id, reissue: map<Id, Id>, now: Time)
    requires n in s.nodes && s.nodes[n].session.Some? && s.commands.Keys <= reissue.Keys
    requires t.nodes == s.nodes && t.operations == s.operations && t.commands == s.commands
    ensures Takeover(t, n, reissue, now).commands == Takeover(s, n, reissue, now).commands
  {
  }

  lemma OperationsFrame(s: Tables, t: Tables, n: Id, reissue: map<Id, Id>, now: Time)
    requires n in s.nodes && s.nodes[n].session.Some? && s.commands.Keys <= reissue.Keys
             && t.commands.Keys <= reissue.Keys
    requires t.nodes == s.nodes && t.operations == s.operations
    ensures Takeover(t, n, reissue, now).operations == Takeover(s, n, reissue, now).operations
  {
  }

  lemma TakenOverKeys(s: Tables, n: Id, reissue: map<Id, Id>, now: Time)
    requires n in s.nodes && s.nodes[n].session.Some? && s.commands.Keys <= reissue.Keys
    ensures Takeover(s, n, reissue, now).commands.Keys == s.commands.Keys
  {
  }

  // --- sweeps over several endpoints ---

  ghost predicate Distinct(ids: seq<Id>) { forall j, k :: 0 <= j < k < |ids| ==> ids[j] != ids[k] }

  /** The candidates none of whose newest reclaims succeeded. */
  function Unclaimed(s: Tables, candidates: seq<Id>): set<Id> {
    set e | e in candidates && !RecentlyReclaimed(s, e)
  }

  /** A reclaim adds one read-only operation and its event, and writes nothing else. */
  predicate Adds(s: Tables, t: Tables, e: Id, id: Id, now: Time) {
    && t.operations.Keys == s.operations.Keys + {id} && t.operations[id].endpoint == e
        && t.operations[id].createdAt == now
    && (forall o :: o in s.operations && o != id ==> t.operations[o] == s.operations[o])
    && t == s.(operations := t.operations, outbox := t.outbox)
  }

  lemma ReclaimFrame(s: Tables, e: Id, newId: Id, now: Time)
    ensures var t := Reclaim(s, e, newId, now).tables; t == s || Adds(s, t, e, newId, now)
  {
  }

  predicate NewlySucceeded(s: Tables, history: set<Id>, o: Id)
    requires history <= s.operations.Keys && o in history
  {
    && s.operations[o].status == Succeeded
    && |set p | p in history && s.operations[p].createdAt > s.operations[o].createdAt| < 3
  }

  lemma SameHistory(s: Tables, t: Tables, history: set<Id>, o: Id)
    requires history <= s.operations.Keys && history <= t.operations.Keys && o in history
    requires forall p :: p in history ==> t.operations[p] == s.operations[p]
    ensures NewlySucceeded(s, history, o) <==> NewlySucceeded(t, history, o)
  {
    assert (set p | p in history && t.operations[p].createdAt > t.operations[o].createdAt)
        == (set p | p in history && s.operations[p].createdAt > s.operations[o].createdAt);
  }

  lemma RecentlyIs(s: Tables, e: Id)
    ensures RecentlyReclaimed(s, e) <==>
            exists o :: o in ReclaimHistory(s, e) && NewlySucceeded(s, ReclaimHistory(s, e), o)
  {
  }

  lemma OthersUnclaimed(s: Tables, t: Tables, e: Id, newId: Id, now: Time, f: Id)
    requires Adds(s, t, e, newId, now) && newId !in s.operations && f != e
    ensures Untouched(s, t, f)
  {
    var history := ReclaimHistory(s, f);
    if f in s.endpoints {
      var key := ReclaimKey(s.endpoints[f].generation);
      assert KeyMatches(t, f, key) == KeyMatches(s, f, key);
    }
    assert ReclaimHistory(t, f) == history;
    RecentlyIs(s, f);
    RecentlyIs(t, f);
    forall o | o in history ensures NewlySucceeded(s, history, o) <==> NewlySucceeded(t, history, o) {
      SameHistory(s, t, history, o);
    }
  }

  /** Where a sweep has not yet been, nothing it looks at has changed. */
  ghost predicate Untouched(s: Tables, t: Tables, e: Id) {
    && (RecentlyReclaimed(t, e) <==> RecentlyReclaimed(s, e)) && (ReclaimRecorded(t, e) <==> ReclaimRecorded(s, e))
    && LiveOperations(t, e) == LiveOperations(s, e)
  }

  ghost predicate UntouchedOutside(s: Tables, t: Tables, visited: set<Id>) {
    forall e {:trigger Untouched(s, t, e)} :: e !in visited ==> Untouched(s, t, e)
  }

  /** The state after a sweep over `visited`, with the fresh ids `used`. */
  ghost predicate Swept(s: Tables, t: Tables, visited: set<Id>, used: set<Id>, now: Time) {
    && Steady(t, now) && t == s.(operations := t.operations, outbox := t.outbox)
    && t.operations.Keys <= s.operations.Keys + used && UntouchedOutside(s, t, visited)
  }

  lemma SweepOne(s: Tables, t: Tables, visited: set<Id>, used: set<Id>, e: Id, id: Id, now: Time)
    requires Swept(s, t, visited, used, now) && id !in s.operations && id !in used
    requires e in s.endpoints && !s.endpoints[e].deleted
    ensures Swept(s, Reclaim(t, e, id, now).tables, visited + {e}, used + {id}, now)
  {
    var u := Reclaim(t, e, id, now).tables;
    assert id !in t.operations;
    ReclaimKeeps(t, e, id, now);
    ReclaimFrame(t, e, id, now);
    LaterClock(t, u, now, now);
    forall f | f !in visited + {e} ensures Untouched(s, u, f) {
      assert Untouched(s, t, f);
      if u != t { OthersUnclaimed(t, u, e, id, now, f); }
    }
  }

  /** Whether the candidate is reclaimed, passed over or refused was settled when the sweep began. */
  lemma SweepCounts(s: Tables, t: Tables, visited: set<Id>, used: set<Id>, e: Id, id: Id, staleAfter: Time, now: Time)
    requires Swept(s, t, visited, used, now) && e !in visited && ReclaimCandidate(s, e, staleAfter, now)
    ensures Reclaim(t, e, id, now).reply
         == if Collides(s, e) then Err(ConstraintViolation) else Ok(if RecentlyReclaimed(s, e) then 0 else 1)
  {
    assert Untouched(s, t, e);
  }

  lemma UnclaimedGrows(s: Tables, candidates: seq<Id>, e: Id)
    requires e !in candidates
    ensures |Unclaimed(s, candidates + [e])| == |Unclaimed(s, candidates)| + if RecentlyReclaimed(s, e) then 0 else 1
  {
    assert Unclaimed(s, candidates + [e]) == Unclaimed(s, candidates) + if RecentlyReclaimed(s, e) then {} else {e};
  }

  function Elements(ids: seq<Id>): set<Id> { set o | o in ids }

  /** No candidate that a sweep would reclaim has a reclaim recorded at its present generation. */
  predicate Clear(s: Tables, candidates: seq<Id>) {
    forall e :: e in candidates ==> !Collides(s, e)
  }

  /** What a sweep does: it reclaims every unclaimed candidate if they are clear, and nothing at all if they are not. */
  ghost predicate SweptAll(s: Tables, candidates: seq<Id>, ids: seq<Id>, now: Time)
    requires |ids| == |candidates|
  {
    var tx := ReclaimAll(s, candidates, ids, now);
    if Clear(s, candidates) then
      Swept(s, tx.tables, Elements(candidates), Elements(ids), now) && tx.reply == Ok(|Unclaimed(s, candidates)|)
    else tx == Refuse(s, ConstraintViolation)
  }

  lemma {:induction false} ReclaimAllSteady(s: Tables, candidates: seq<Id>, ids: seq<Id>, staleAfter: Time,
      clock: Time, now: Time)
    requires Steady(s, clock) && now > clock && Distinct(candidates) && Distinct(ids) && |ids| == |candidates|
    requires forall k :: 0 <= k < |candidates| ==>
               ReclaimCandidate(s, candidates[k], staleAfter, now) && ids[k] !in s.operations
    ensures SweptAll(s, candidates, ids, now)
  {
    if candidates == [] {
      assert ids == [];
      SweepsNone(s, clock, now);
    } else {
      var k := |candidates| - 1;
      var cs, js, e, id := candidates[..k], ids[..k], candidates[k], ids[k];
      assert cs + [e] == candidates && js + [id] == ids;
      ReclaimAllSteady(s, cs, js, staleAfter, clock, now);
      SweepNext(s, cs, js, e, id, staleAfter, now);
    }
  }

  lemma SweepsNone(s: Tables, clock: Time, now: Time)
    requires Steady(s, clock) && now > clock
    ensures SweptAll(s, [], [], now)
  {
    SweepStarts(s, clock, now);
    assert Unclaimed(s, []) == {} && Elements([]) == {};
  }

  lemma SweepStarts(s: Tables, clock: Time, now: Time)
    requires Steady(s, clock) && now > clock
    ensures Swept(s, s, {}, {}, now)
  {
    LaterClock(s, s, clock, now);
  }

  lemma SweepNext(s: Tables, cs: seq<Id>, js: seq<Id>, e: Id, id: Id, staleAfter: Time, now: Time)
    requires |cs| == |js| && e !in cs && id !in js && id !in s.operations && ReclaimCandidate(s, e, staleAfter, now)
    requires SweptAll(s, cs, js, now)
    ensures SweptAll(s, cs + [e], js + [id], now)
  {
    var t := ReclaimAll(s, cs, js, now).tables;
    ReclaimSnoc(s, cs + [e], js + [id], cs, js, |cs|, now);
    ClearSnoc(s, cs, e);
    if Clear(s, cs) {
      SweepOne(s, t, Elements(cs), Elements(js), e, id, now);
      SweepCounts(s, t, Elements(cs), Elements(js), e, id, staleAfter, now);
      UnclaimedGrows(s, cs, e);
      ElementsGrow(cs, e);
      ElementsGrow(js, id);
    }
  }

  lemma ClearSnoc(s: Tables, cs: seq<Id>, e: Id)
    ensures Clear(s, cs + [e]) <==> Clear(s, cs) && !Collides(s, e)
  {
    assert forall f :: f in cs + [e] <==> f in cs || f == e;
  }

  lemma ElementsGrow(ids: seq<Id>, id: Id)
    ensures Elements(ids + [id]) == Elements(ids) + {id}
  {
  }

  lemma ReclaimSnoc(s: Tables, all: seq<Id>, ids: seq<Id>, cs: seq<Id>, js: seq<Id>, k: nat, now: Time)
    requires |all| == |ids| == k + 1 && |cs| == |js| == k && all[..k] == cs && ids[..k] == js
    ensures var before := ReclaimAll(s, cs, js, now);
            ReclaimAll(s, all, ids, now) == Then(s, before, Reclaim(before.tables, all[k], ids[k], now))
  {
  }

  /** Once a row is refused the sweep is. */
  lemma {:induction false} ReclaimStops(s: Tables, all: seq<Id>, ids: seq<Id>, k: nat, now: Time)
    requires |all| == |ids| && k <= |all| && ReclaimAll(s, all[..k], ids[..k], now).reply.Err?
    ensures ReclaimAll(s, all, ids, now) == ReclaimAll(s, all[..k], ids[..k], now)
    decreases |all|
  {
    if k < |all| {
      var n := |all| - 1;
      assert all[..n][..k] == all[..k] && ids[..n][..k] == ids[..k];
      ReclaimStops(s, all[..n], ids[..n], k, now);
      ReclaimRefused(s, all[..k], ids[..k], now);
    } else {
      assert all[..k] == all && ids[..k] == ids;
    }
  }

  lemma {:induction false} ReclaimRefused(s: Tables, all: seq<Id>, ids: seq<Id>, now: Time)
    requires |all| == |ids| && ReclaimAll(s, all, ids, now).reply.Err?
    ensures ReclaimAll(s, all, ids, now).tables == s
  {
  }

  /**
   While a blocked endpoint's generation stays, every sweep that comes to it is refused and writes nothing,
   whatever happened in between and whatever other candidates it has.
   */
  lemma BlockedSweepsFail(w: World, run: seq<Event>, e: Id, candidates: seq<Id>, ids: seq<Id>, staleAfter: Time,
      now: Time)
    requires Reachable(w) && LegalRun(w, run) && ReclaimsBlocked(w.tables, e)
    requires var s := Final(w, run).tables;
             && e in s.endpoints && s.endpoints[e].generation == w.tables.endpoints[e].generation
             && e in candidates && Distinct(candidates) && Distinct(ids) && |ids| == |candidates|
                 && now > Final(w, run).clock
             && forall k :: 0 <= k < |candidates| ==>
                  ReclaimCandidate(s, candidates[k], staleAfter, now) && ids[k] !in s.operations
    ensures ReclaimAll(Final(w, run).tables, candidates, ids, now) == Refuse(Final(w, run).tables, ConstraintViolation)
  {
    var v := Final(w, run);
    BlockedUntilMoved(w, run, e);
    ReachableRun(w, run);
    ReachableIsGood(v);
    ReclaimAllSteady(v.tables, candidates, ids, staleAfter, v.clock, now);
  }

  // --- tombstones ---

  /** No row of the endpoint is left but its operations and its tombstone. */
  ghost predicate Buried(s: Tables, t: Tables, e: Id) {
    && e in t.endpoints && t.endpoints[e].deleted && t.endpoints[e].desired == StoppedState
    && ObservationsOf(t, e) == {}
    && (forall o :: o in t.commands ==> t.commands[o].endpoint != e)
    && (forall o :: o in t.outbox && o in s.operations ==> s.operations[o].endpoint != e)
  }

  predicate SameEvent(s: Tables, t: Tables, o: Id) { Get(t.outbox, o) == Get(s.outbox, o) }
  predicate SameCommand(s: Tables, t: Tables, o: Id) { Get(t.commands, o) == Get(s.commands, o) }

  /** Operations, nodes, sessions and the rows of other endpoints are as they were. */
  ghost predicate SameElsewhere(s: Tables, t: Tables, e: Id) {
    && t.operations == s.operations && t.nodes == s.nodes && t.retired == s.retired
    && t.endpoints.Keys == s.endpoints.Keys
    && (forall f :: f in s.endpoints && f != e ==> t.endpoints[f] == s.endpoints[f])
    && (e in s.endpoints ==>
          t.endpoints[e].node == s.endpoints[e].node && t.endpoints[e].generation == s.endpoints[e].generation)
    && (forall f {:trigger ObservationsOf(t, f)} :: f != e ==> ObservationsOf(t, f) == ObservationsOf(s, f))
    && (forall o {:trigger SameCommand(s, t, o)} ::
          (o in s.commands && s.commands[o].endpoint == e) || SameCommand(s, t, o))
    && (forall o {:trigger SameEvent(s, t, o)} ::
          (o in s.operations && s.operations[o].endpoint == e) || SameEvent(s, t, o))
  }

  lemma FinalizeSteady(s: Tables, e: Id, clock: Time)
    requires Steady(s, clock) && e in s.endpoints && LiveOperations(s, e) == {}
    ensures Steady(Finalize(s, e), clock)
  {
    FinalizeKeeps(s, e);
    FinalizeKeepsOrder(s, e, clock);
  }

  lemma FinalizeBuries(s: Tables, e: Id)
    requires e in s.endpoints
    ensures Buried(s, Finalize(s, e), e) && SameElsewhere(s, Finalize(s, e), e)
  {
    forall o | o in Finalize(s, e).outbox && o in s.operations ensures s.operations[o].endpoint != e {
      assert o !in EndpointOperations(s, e);
    }
  }

  // --- retention ---

  /** What pruning one endpoint does. */
  ghost predicate Pruned(s: Tables, t: Tables, e: Id, limit: nat, count: nat, now: Time) {
    exists picked :: && Oldest(ExpiredRows(ObservationsOf(s, e), now), picked, limit)
                     && t == Prune(s, e, picked) && count == |picked|
  }

  /** Only expired rows of the endpoint are gone. */
  ghost predicate OnlyExpired(s: Tables, t: Tables, e: Id, now: Time) {
    var rows, left := ObservationsOf(s, e), ObservationsOf(t, e);
    left <= rows && rows - left <= ExpiredRows(rows, now)
  }

  /** Readers find the same newest row, newest row at the endpoint's generation and newest snapshot. */
  ghost predicate Unseen(s: Tables, t: Tables, e: Id)
    requires e in s.endpoints
  {
    var rows, left := ObservationsOf(s, e), ObservationsOf(t, e);
    forall r {:trigger Newest(rows, r)} {:trigger Newest(left, r)} ::
      && (Newest(left, r) <==> Newest(rows, r))
      && (NewestAt(left, s.endpoints[e].generation, r) <==> NewestAt(rows, s.endpoints[e].generation, r))
      && (LatestSnapshot(left, r) <==> LatestSnapshot(rows, r))
  }

  predicate Clean(t: Tables, page: seq<Id>, now: Time) {
    forall e :: e in page ==> ExpiredRows(ObservationsOf(t, e), now) == {}
  }

  function Deleted(s: Tables, t: Tables, page: seq<Id>): nat {
    if page == [] then 0
    else
      var e := page[|page| - 1];
      Deleted(s, t, page[..|page| - 1]) + |ObservationsOf(s, e) - ObservationsOf(t, e)|
  }

  ghost predicate WalkedRows(s: Tables, t: Tables, page: seq<Id>, removed: nat, now: Time) {
    && t == s.(observations := t.observations)
    && (forall e {:trigger ObservationsOf(t, e)} :: e !in page ==> ObservationsOf(t, e) == ObservationsOf(s, e))
    && (forall e {:trigger OnlyExpired(s, t, e, now)} :: OnlyExpired(s, t, e, now))
    && removed == Deleted(s, t, page)
  }

  ghost predicate Walked(s: Tables, t: Tables, page: seq<Id>, removed: nat, now: Time) {
    Steady(t, now) && WalkedRows(s, t, page, removed, now)
  }

  lemma {:induction false} DeletedFrame(s: Tables, t: Tables, u: Tables, page: seq<Id>)
    requires forall e :: e in page ==> ObservationsOf(u, e) == ObservationsOf(t, e)
    ensures Deleted(s, u, page) == Deleted(s, t, page)
  {
    if page != [] { DeletedFrame(s, t, u, page[..|page| - 1]); }
  }

  lemma PrunedSteady(t: Tables, u: Tables, e: Id, picked: set<Observation>, now: Time)
    requires Steady(t, now) && picked <= ExpiredRows(ObservationsOf(t, e), now) && u == Prune(t, e, picked)
    ensures Steady(u, now)
  {
    PruneKeepsOrder(t, e, picked, now, now);
    InvIgnoresObservations(t, u);
  }

  lemma WalkOne(s: Tables, t: Tables, u: Tables, page: seq<Id>, e: Id, removed: nat, limit: nat, count: nat, now: Time)
    requires Walked(s, t, page, removed, now) && e !in page && Pruned(t, u, e, limit, count, now) && Clean(t, page, now)
    ensures Walked(s, u, page + [e], removed + count, now) && count <= limit
    ensures count < limit ==> Clean(u, page + [e], now)
  {
    var rows := ObservationsOf(t, e);
    var picked :| Oldest(ExpiredRows(rows, now), picked, limit) && u == Prune(t, e, picked) && count == |picked|;
    PrunedSteady(t, u, e, picked, now);
    PrunedRows(s, t, u, page, e, picked, removed, now);
    if count < limit { PrunedClean(t, u, page, e, picked, limit, now); }
  }

  lemma PruneFrame(t: Tables, u: Tables, e: Id, picked: set<Observation>)
    requires u == Prune(t, e, picked)
    ensures ObservationsOf(u, e) == ObservationsOf(t, e) - picked
    ensures forall f {:trigger ObservationsOf(u, f)} :: f != e ==> ObservationsOf(u, f) == ObservationsOf(t, f)
  {
  }

  lemma PrunedClean(t: Tables, u: Tables, page: seq<Id>, e: Id, picked: set<Observation>, limit: nat, now: Time)
    requires Clean(t, page, now) && e !in page && u == Prune(t, e, picked)
    requires Oldest(ExpiredRows(ObservationsOf(t, e), now), picked, limit) && |picked| < limit
    ensures Clean(u, page + [e], now)
  {
    PruneFrame(t, u, e, picked);
    PruneKeepsExpiry(ObservationsOf(t, e), picked, now);
    AllPicked(ExpiredRows(ObservationsOf(t, e), now), picked, limit);
  }

  lemma PrunedRows(s: Tables, t: Tables, u: Tables, page: seq<Id>, e: Id, picked: set<Observation>, removed: nat,
      now: Time)
    requires WalkedRows(s, t, page, removed, now) && e !in page && u == Prune(t, e, picked)
    requires picked <= ExpiredRows(ObservationsOf(t, e), now)
    ensures WalkedRows(s, u, page + [e], removed + |picked|, now)
  {
    PruneFrame(t, u, e, picked);
    forall f ensures OnlyExpired(s, u, f, now) { assert OnlyExpired(s, t, f, now); }
    PrunedCount(s, t, u, page, e, picked);
  }

  lemma PrunedCount(s: Tables, t: Tables, u: Tables, page: seq<Id>, e: Id, picked: set<Observation>)
    requires ObservationsOf(t, e) == ObservationsOf(s, e) && picked <= ObservationsOf(t, e)
             && ObservationsOf(u, e) == ObservationsOf(t, e) - picked
    requires forall f :: f in page ==> ObservationsOf(u, f) == ObservationsOf(t, f)
    ensures Deleted(s, u, page + [e]) == Deleted(s, t, page) + |picked|
  {
    assert ObservationsOf(s, e) - ObservationsOf(u, e) == picked;
    DeletedFrame(s, t, u, page);
    assert (page + [e])[..|page|] == page;
  }

  lemma AllPicked(rows: set<Observation>, picked: set<Observation>, limit: nat)
    requires Oldest(rows, picked, limit) && |picked| < limit
    ensures rows - picked == {}
  {
    assert |rows - picked| == |rows| - |picked|;
  }

  lemma ExpiredUnseen(s: Tables, t: Tables, e: Id, now: Time)
    requires e in s.endpoints && OnlyExpired(s, t, e, now) && OrderedAt(s, e, now)
    ensures Unseen(s, t, e)
  {
    var rows, left := ObservationsOf(s, e), ObservationsOf(t, e);
    assert rows - (rows - left) == left;
    forall r
      ensures Newest(left, r) <==> Newest(rows, r)
      ensures NewestAt(left, s.endpoints[e].generation, r) <==> NewestAt(rows, s.endpoints[e].generation, r)
      ensures LatestSnapshot(left, r) <==> LatestSnapshot(rows, r)
    {
      PruneIsInvisible(rows, rows - left, s.endpoints[e].generation, now, now, r);
    }
  }

  lemma WalkEnds(s: Tables, t: Tables, walked: seq<Id>, page: seq<Id>, removed: nat, now: Time)
    requires Walked(s, t, walked, removed, now) && Ordered(s, now) && walked <= page && Distinct(page)
    ensures Deleted(s, t, page) == removed
    ensures forall e {:trigger Unseen(s, t, e)} :: e in s.endpoints ==> Unseen(s, t, e)
  {
    forall e | e in s.endpoints ensures Unseen(s, t, e) {
      assert OnlyExpired(s, t, e, now) && OrderedAt(s, e, now);
      ExpiredUnseen(s, t, e, now);
    }
    DeletedBeyond(s, t, walked, page);
  }

  lemma {:induction false} DeletedBeyond(s: Tables, t: Tables, walked: seq<Id>, page: seq<Id>)
    requires walked <= page && Distinct(page) && forall e :: e !in walked ==>
               ObservationsOf(t, e) == ObservationsOf(s, e)
    ensures Deleted(s, t, page) == Deleted(s, t, walked)
    decreases |page|
  {
    if |walked| < |page| {
      var k := |page| - 1;
      assert page[k] !in walked;
      DeletedBeyond(s, t, walked, page[..k]);
      assert ObservationsOf(s, page[k]) - ObservationsOf(t, page[k]) == {};
    } else {
      assert walked == page;
    }
  }

  class PostgresDatabase {
    var nodes: map<Id, Node>
    var retired: set<(Id, Session)>
    var endpoints: map<Id, Endpoint>
    var operations: map<Id, Operation>
    var commands: map<Id, Command>
    var outbox: map<Id, OutboxEvent>
    var observations: map<Id, set<Observation>>
    ghost var clock: Time

    function Rows(): Tables
      reads this
    {
      Tables(nodes, retired, endpoints, operations, commands, outbox, observations)
    }

    ghost predicate Valid()
      reads this
    {
      Steady(Rows(), clock)
    }

    constructor ()
      ensures Valid() && Rows() == EMPTY.tables && clock == 0
    {
      nodes, retired, endpoints, operations, commands, outbox, observations := map[], {}, map[], map[], map[], map[],
          map[];
      clock := 0;
      new;
      EmptyWorld();
    }

    // --- mutateEndpoint ---

    /** The statement that both supersessions begin with. */
    method CloseCommands(e: Id, now: Time)
      modifies this`commands
      ensures commands == Supersede(old(Rows()), e, now).commands
    {
      commands := map o | o in commands ::
        if commands[o].endpoint == e && Open(commands[o])
        then commands[o].(status := Superseded, lease := None, resultAt := Some(now)) else commands[o];
    }

    /** A force-restart closes the commands in bulk and the operations and events one by one. */
    method SupersedeActive(e: Id, active: set<Id>, now: Time)
      requires active == LiveOperations(Rows(), e)
      modifies this
      ensures Rows() == Supersede(old(Rows()), e, now) && clock == old(clock)
    {
      CloseCommands(e, now);
      var left := active;
      assert operations == StaleRows(operations, {}) && outbox == SpentRows(outbox, {});
      while left != {}
        invariant left <= active
        invariant Rows() == old(Rows()).(commands := Supersede(old(Rows()), e, now).commands, operations := operations,
                                         outbox := outbox)
        invariant operations == StaleRows(old(operations), active - left)
                  && outbox == SpentRows(old(outbox), active - left)
        invariant clock == old(clock)
        decreases left
      {
        var o :| o in left;
        StaleOneMore(old(operations), active - left, o);
        SpentOneMore(old(outbox), active - left, o);
        operations := operations[o := operations[o].(status := Stale)];
        if o in outbox { outbox := outbox[o := outbox[o].(processed := true)]; }
        assert active - (left - {o}) == active - left + {o};
        left := left - {o};
      }
      assert active - left == active;
      SupersedeIs(old(Rows()), e, now);
    }

    /** The statements that every enqueueing transaction ends with. */
    method InsertOperation(id: Id, e: Id, generation: nat, action: Action, desired: Desired, key: Key,
        request: Request, now: Time)
      requires e in endpoints
      modifies this
      ensures Rows() == Enqueue(old(Rows()), id, e, generation, action, desired, key, request, now)
              && clock == old(clock)
    {
      endpoints := endpoints[e := endpoints[e].(generation := generation, desired := desired)];
      operations := operations[id := Operation(e, generation, action, key, request, Queued, None, 0, Some(WAITING),
                                               None, now)];
      outbox := outbox[id := OutboxEvent(false, now, now)];
    }

    method MutateEndpoint(m: Mutation, newId: Id, now: Time) returns (reply: Result<(Id, bool), Code>)
      requires Valid() && now > clock && newId !in operations
      modifies this
      ensures Valid() && clock == now
      ensures var tx := Mutate(old(Rows()), m, newId, now); Rows() == tx.tables && reply == tx.reply
    {
      MutateSteady(Rows(), m, newId, clock, now);
      clock := now;
      reply := MutateRows(m, newId, now);
    }

    method MutateRows(m: Mutation, newId: Id, now: Time) returns (reply: Result<(Id, bool), Code>)
      requires KeysUnique(Rows())
      modifies this
      ensures var tx := Mutate(old(Rows()), m, newId, now); Rows() == tx.tables && reply == tx.reply
      ensures clock == old(clock)
    {
      var previous := KeyMatches(Rows(), m.endpoint, UserKey(m.key));
      if previous != {} {
        var o :| o in previous;
        forall p | p in previous ensures p == o { KeyNamesOne(Rows(), m.endpoint, m.key, p, o); }
        return if operations[o].request != RequestOf(m) then Err(IdempotencyMismatch) else Ok((o, true));
      }
      if m.endpoint !in endpoints || endpoints[m.endpoint].deleted { return Err(NotFound); }
      var ep := endpoints[m.endpoint];
      if m.action == RefreshLoginQr && ep.provider != NapCat { return Err(Conflict); }
      if ep.generation != m.expectedGeneration { return Err(Conflict); }
      var active := LiveOperations(Rows(), m.endpoint);
      if active != {} && (m.action != ForceRestart || exists o :: o in active && operations[o].action == Delete) {
        return Err(Conflict);
      }
      if !Storable(m.action) { return Err(ConstraintViolation); }
      if m.action == ForceRestart { SupersedeActive(m.endpoint, active, now); }
      var generation := ep.generation + if ReadOnly(m.action) then 0 else 1;
      InsertOperation(newId, m.endpoint, generation, m.action, DesiredAfter(m.action, ep.desired), UserKey(m.key),
                      RequestOf(m), now);
      reply := Ok((newId, false));
    }

    // --- enqueueExpiryOperation ---

    /** Expiry closes commands and operations in bulk and the events one by one. */
    method SupersedeExpired(e: Id, active: set<Id>, now: Time)
      requires active == LiveOperations(Rows(), e)
      modifies this
      ensures Rows() == Supersede(old(Rows()), e, now) && clock == old(clock)
    {
      CloseCommands(e, now);
      operations := map o | o in operations ::
        if operations[o].endpoint == e && Live(operations[o]) then operations[o].(status := Stale) else operations[o];
      assert operations == Supersede(old(Rows()), e, now).operations;
      var left := active;
      assert outbox == SpentRows(outbox, {});
      while left != {}
        invariant left <= active
        invariant Rows() == Supersede(old(Rows()), e, now).(outbox := outbox)
        invariant outbox == SpentRows(old(outbox), active - left)
        invariant clock == old(clock)
        decreases left
      {
        var o :| o in left;
        SpentOneMore(old(outbox), active - left, o);
        if o in outbox { outbox := outbox[o := outbox[o].(processed := true)]; }
        assert active - (left - {o}) == active - left + {o};
        left := left - {o};
      }
      assert active - left == active;
      SupersedeIs(old(Rows()), e, now);
    }

    /** The number of the expiry attempt that is due, if one is. */
    method ExpiryAttempt(e: Id, action: Action) returns (attempt: Option<nat>)
      requires action == Stop || action == Delete
      ensures attempt.Some? <==> ExpiryDue(Rows(), e, action)
      ensures attempt.Some? ==> attempt.value == |ExpiryHistory(Rows(), e, action)| + 1
    {
      if e !in endpoints || endpoints[e].deleted { return None; }
      var active := LiveOperations(Rows(), e);
      if action == Stop && active != {} { return None; }
      if action == Delete && exists o :: o in active && operations[o].action == Delete { return None; }
      var history := ExpiryHistory(Rows(), e, action);
      if exists o :: o in history && operations[o].status == Succeeded { return None; }
      if action == Delete && |history| >= MAX_EXPIRY_DELETES { return None; }
      attempt := Some(|history| + 1);
    }

    method EnqueueExpiryOperation(e: Id, action: Action, newId: Id, now: Time) returns (count: nat)
      requires Valid() && now > clock && newId !in operations && (action == Stop || action == Delete)
      modifies this
      ensures Valid() && clock == now
      ensures var tx := Expire(old(Rows()), e, action, newId, now); Rows() == tx.tables && Ok(count) == tx.reply
    {
      ExpireSteady(Rows(), e, action, newId, clock, now);
      clock := now;
      var attempt := ExpiryAttempt(e, action);
      if attempt.None? { return 0; }
      var ep := endpoints[e];
      var active := LiveOperations(Rows(), e);
      if active != {} { SupersedeExpired(e, active, now); }
      InsertOperation(newId, e, ep.generation + 1, action, if action == Stop then StoppedState else ep.desired,
                      ExpiryKey(action, attempt.value), Request(action, ep.generation, "workspace_expiry"), now);
      count := 1;
    }

    // --- reclaimStaleEndpoints ---

    /**
     One sweep over the candidates the query returned, at most `max` of them, in order. It succeeds exactly if
     no candidate it would reclaim has a reclaim recorded at its present generation; else nothing is written.
     */
    method ReclaimStaleEndpoints(candidates: seq<Id>, ids: seq<Id>, staleAfter: Time, now: Time)
      returns (reply: Result<nat, Code>)
      requires Valid() && now > clock && Distinct(candidates) && Distinct(ids) && |ids| == |candidates|
      requires forall k :: 0 <= k < |candidates| ==>
                 ReclaimCandidate(Rows(), candidates[k], staleAfter, now) && ids[k] !in operations
      modifies this
      ensures Valid() && clock == now && endpoints == old(endpoints) && commands == old(commands)
      ensures var tx := ReclaimAll(old(Rows()), candidates, ids, now); Rows() == tx.tables && reply == tx.reply
      ensures reply.Ok? <==> Clear(old(Rows()), candidates)
      ensures reply.Ok? ==> reply.value == |Unclaimed(old(Rows()), candidates)|
      ensures reply.Err? ==> reply.error == ConstraintViolation && Rows() == old(Rows())
    {
      ReclaimAllSteady(Rows(), candidates, ids, staleAfter, clock, now);
      SweepStarts(Rows(), clock, now);
      var begun := Rows();
      clock := now;
      reply := SweepCandidates(candidates, ids, now);
      if reply.Err? {
        RollBack(begun);
        ReclaimRefused(begun, candidates, ids, now);
      }
    }

    method RollBack(begun: Tables)
      modifies this
      ensures Rows() == begun && clock == old(clock)
    {
      nodes, retired, endpoints := begun.nodes, begun.retired, begun.endpoints;
      operations, commands, outbox, observations := begun.operations, begun.commands, begun.outbox, begun.observations;
    }

    method SweepCandidates(candidates: seq<Id>, ids: seq<Id>, now: Time) returns (reply: Result<nat, Code>)
      requires |ids| == |candidates|
      modifies this
      ensures var tx := ReclaimAll(old(Rows()), candidates, ids, now);
              reply == tx.reply && (reply.Ok? ==> Rows() == tx.tables)
      ensures clock == old(clock)
    {
      var reclaimed := 0;
      var i := 0;
      while i < |candidates|
        invariant 0 <= i <= |candidates|
        invariant Rows() == ReclaimAll(old(Rows()), candidates[..i], ids[..i], now).tables
        invariant Ok(reclaimed) == ReclaimAll(old(Rows()), candidates[..i], ids[..i], now).reply
        invariant clock == old(clock)
      {
        ghost var cs, js, k := candidates[..i], ids[..i], i + 1;
        assert candidates[..k][..i] == cs && ids[..k][..i] == js;
        ReclaimSnoc(old(Rows()), candidates[..k], ids[..k], cs, js, i, now);
        var enqueued := ReclaimEndpoint(candidates[i], ids[i], now);
        if enqueued.Err? {
          ReclaimStops(old(Rows()), candidates, ids, k, now);
          return Err(enqueued.error);
        }
        reclaimed := reclaimed + enqueued.value;
        i := i + 1;
      }
      assert candidates[..i] == candidates && ids[..i] == ids;
      reply := Ok(reclaimed);
    }

    method ReclaimEndpoint(e: Id, id: Id, now: Time) returns (reply: Result<nat, Code>)
      modifies this
      ensures var tx := Reclaim(old(Rows()), e, id, now);
              Rows() == tx.tables && reply == tx.reply && clock == old(clock)
    {
      if e !in endpoints || RecentlyReclaimed(Rows(), e) || LiveOperations(Rows(), e) != {} { return Ok(0); }
      var generation := endpoints[e].generation;
      if KeyMatches(Rows(), e, ReclaimKey(generation)) != {} { return Err(ConstraintViolation); }
      InsertOperation(id, e, generation, ReadContainerLogs, endpoints[e].desired, ReclaimKey(generation),
                      Request(ReadContainerLogs, generation, "stale-telemetry-reclaim"), now);
      reply := Ok(1);
    }

    // --- repairMissingOutbox ---

    /** The sweep inserts the missing events, of which a valid database has none. */
    method RepairMissingOutbox(now: Time) returns (count: nat)
      requires Valid() && now > clock
      modifies this
      ensures Valid() && clock == now && Rows() == old(Rows()) && count == 0
    {
      RepairIsIdle(Rows(), now);
      LaterClock(Rows(), Rows(), clock, now);
      clock := now;
      var missing := MissingOutbox(Rows());
      outbox := outbox + map o | o in missing :: OutboxEvent(false, now, now);
      count := |missing|;
      assert outbox == old(outbox);
    }

    // --- finalizeEndpointDeletion ---

    /**
     Leaves no observation, command or event of the endpoint and its tombstone, and everything else as it was.
     It keeps a database valid if none of the endpoint's operations is live. A tombstone is not found again.
     */
    method FinalizeEndpointDeletion(e: Id) returns (reply: Result<(), Code>)
      modifies this
      ensures clock == old(clock)
      ensures reply == if e in old(endpoints) && !old(endpoints)[e].deleted then Ok(()) else Err(NotFound)
      ensures reply.Err? ==> Rows() == old(Rows())
      ensures reply.Ok? ==> Rows() == Finalize(old(Rows()), e)
      ensures reply.Ok? ==> Buried(old(Rows()), Rows(), e) && SameElsewhere(old(Rows()), Rows(), e)
      ensures old(Valid()) && LiveOperations(old(Rows()), e) == {} ==> Valid()
    {
      if e !in endpoints || endpoints[e].deleted { return Err(NotFound); }
      if Valid() && LiveOperations(Rows(), e) == {} { FinalizeSteady(Rows(), e, clock); }
      FinalizeBuries(Rows(), e);
      Bury(e);
      reply := Ok(());
    }

    method Bury(e: Id)
      requires e in endpoints
      modifies this
      ensures Rows() == Finalize(old(Rows()), e) && clock == old(clock)
    {
      observations := observations - {e};
      commands := map o | o in commands && commands[o].endpoint != e :: commands[o];
      outbox := map o | o in outbox && !(o in operations && operations[o].endpoint == e) :: outbox[o];
      endpoints := endpoints[e := endpoints[e].(deleted := true, desired := StoppedState)];
      assert outbox == Finalize(old(Rows()), e).outbox;
    }

    // --- processOne ---

    method ProcessOne(commandId: Id, now: Time) returns (ghost pick: Option<Id>, progressed: bool)
      requires Valid() && now > clock && FreshCommand(Rows(), commandId)
      modifies this
      ensures Valid() && clock == now && NextEvent(old(Rows()), pick, now) && PickIsWired(old(Rows()), pick)
      ensures var tx := Process(old(Rows()), pick, commandId, now); Rows() == tx.tables && Ok(progressed) == tx.reply
    {
      var visible := VisibleEvents(Rows(), now);
      if visible == {} {
        forall o | o in outbox ensures !Visible(Rows(), o, now) { assert o !in visible; }
        LaterClock(Rows(), Rows(), clock, now);
        clock := now;
        return None, false;
      }
      OldestEvent(Rows(), now);
      var o :| o in visible && forall p :: p in visible ==> outbox[o].createdAt <= outbox[p].createdAt;
      forall p | p in outbox && Visible(Rows(), p, now) ensures outbox[o].createdAt <= outbox[p].createdAt {
        assert p in visible;
      }
      ProcessSettles(Rows(), o, commandId, now);
      SettleKeeps(Rows(), o, commandId, now);
      ProcessKeepsOrder(Rows(), Some(o), commandId, clock, now);
      pick := Some(o);
      clock := now;
      progressed := SettleEvent(o, commandId, now);
    }

    /** The rest of the transaction, once the event and its endpoint are locked. */
    method SettleEvent(o: Id, commandId: Id, now: Time) returns (progressed: bool)
      requires Visible(Rows(), o, now)
      requires operations[o].endpoint in endpoints && endpoints[operations[o].endpoint].node.Some? ==>
                 endpoints[operations[o].endpoint].node.value in nodes
      modifies this
      ensures var tx := Process(old(Rows()), Some(o), commandId, now); Rows() == tx.tables && Ok(progressed) == tx.reply
      ensures clock == old(clock)
    {
      var op := operations[o];
      progressed := true;
      if op.status != Queued {
        outbox := outbox[o := outbox[o].(processed := true)];
        return;
      }
      if op.endpoint !in endpoints || endpoints[op.endpoint].deleted
          || endpoints[op.endpoint].generation != op.generation {
        operations := operations[o := op.(status := Stale, progress := None)];
        outbox := outbox[o := outbox[o].(processed := true)];
        return;
      }
      var ep := endpoints[op.endpoint];
      if ep.node.None? {
        CompleteWithoutNode(o, now);
        return;
      }
      var node := nodes[ep.node.value];
      if ep.provider == SnowLuma && node.artifact != Some(SNOWLUMA_ARTIFACT) {
        outbox := outbox[o := outbox[o].(availableAt := now + RETRY_DISPATCH)];
        operations := operations[o := op.(progress := Some(AWAITING_UPGRADE))];
        progressed := false;
      } else if ep.provider != node.provider && !node.providerRouting {
        operations := operations[o := op.(status := Failed, progress := None)];
        outbox := outbox[o := outbox[o].(processed := true)];
      } else {
        if o !in commands {
          commands := commands[o := Command(commandId, ep.node.value, op.endpoint, op.generation, node.epoch,
                                            op.action, Pending, 0, None, None, now)];
        }
        operations := operations[o := op.(status := Running, node := ep.node, epoch := node.epoch,
                                          progress := Some(DISPATCHING))];
        outbox := outbox[o := outbox[o].(processed := true)];
      }
    }

    method CompleteWithoutNode(o: Id, now: Time)
      requires o in operations && o in outbox && operations[o].endpoint in endpoints
               && !endpoints[operations[o].endpoint].deleted
      modifies this
      ensures Rows() == CompleteUnassigned(old(Rows()), o, now) && clock == old(clock)
    {
      var op := operations[o];
      if op.action == Delete {
        operations := operations[o := op.(status := Succeeded, progress := None)];
        var found := FinalizeEndpointDeletion(op.endpoint);
        assert found.Ok?;
      } else {
        var row := Observation(now, Some(o), op.generation, if op.action == Stop then "stopped" else "running");
        observations := observations[op.endpoint := ObservationsOf(Rows(), op.endpoint) + {row}];
        operations := operations[o := op.(status := Succeeded, progress := None)];
        outbox := outbox[o := outbox[o].(processed := true)];
      }
    }

    // --- heartbeat ---

    /** A takeover's first two statements, in their order: reissue the deletes, then close the rest. */
    method TakeOverCommands(n: Id, reissue: map<Id, Id>, now: Time)
      requires n in nodes && nodes[n].session.Some? && commands.Keys <= reissue.Keys
      modifies this
      ensures Rows() == old(Rows()).(commands := Takeover(old(Rows()), n, reissue, now).commands) && clock == old(clock)
    {
      TakenOverCommands(Rows(), n, reissue, now);
      commands := ReissueDeletes(Rows(), n, reissue);
      commands := CloseOthers(Rows(), n, now);
    }

    /** The other two: the operations of the old epoch fail, except deletes, which go on at the next. */
    method TakeOverOperations(n: Id, ghost reissue: map<Id, Id>, ghost now: Time)
      requires n in nodes && nodes[n].session.Some? && commands.Keys <= reissue.Keys
      modifies this
      ensures Rows() == old(Rows()).(operations := Takeover(old(Rows()), n, reissue, now).operations)
              && clock == old(clock)
    {
      var oldEpoch := nodes[n].epoch;
      TakenOverOperations(Rows(), n, reissue, now);
      operations := FailOthers(operations, n, oldEpoch);
      operations := ContinueDeletes(operations, n, oldEpoch);
    }

    method TakeOver(n: Id, reissue: map<Id, Id>, now: Time)
      requires n in nodes && nodes[n].session.Some? && commands.Keys <= reissue.Keys
      modifies this
      ensures Rows() == Takeover(old(Rows()), n, reissue, now) && clock == old(clock)
    {
      retired := retired + {(n, nodes[n].session.value)};
      TakeoverFrame(old(Rows()), Rows(), n, reissue, now);
      TakeOverCommands(n, reissue, now);
      TakeoverFrame(old(Rows()), Rows().(commands := old(commands)), n, reissue, now);
      TakenOverKeys(old(Rows()), n, reissue, now);
      OperationsFrame(old(Rows()), Rows(), n, reissue, now);
      TakeOverOperations(n, reissue, now);
    }

    method ReportRuntime(n: Id, r: RuntimeReport, now: Time)
      requires Ordered(Rows(), now)
      modifies this
      ensures Rows() == ReportOne(old(Rows()), n, r, now) && clock == old(clock)
    {
      if r.endpoint !in endpoints || endpoints[r.endpoint].node != Some(n) || endpoints[r.endpoint].deleted
         || endpoints[r.endpoint].generation != r.generation { return; }
      assert OrderedAt(Rows(), r.endpoint, now);
      var rows := ObservationsOf(Rows(), r.endpoint);
      var snapshots := set q | q in rows && q.operation.None?;
      var row := Observation(now, None, r.generation, r.state);
      if snapshots != {} {
        var newest := MaxExists(snapshots);
        assert LatestSnapshot(rows, newest);
        var latest :| latest in snapshots && forall q :: q in snapshots ==> q.createdAt <= latest.createdAt;
        assert LatestSnapshot(rows, latest);
        forall q | LatestSnapshot(rows, q) ensures q == latest { assert q in snapshots; }
        observations := observations[r.endpoint := rows - {latest} + {row}];
      } else {
        forall q ensures !LatestSnapshot(rows, q) { assert q !in snapshots; }
        observations := observations[r.endpoint := rows + {row}];
      }
    }

    /** Fences the session and writes the node row. */
    method ConnectSession(n: Id, session: Session, reissue: map<Id, Id>, now: Time) returns (reply: Result<nat, Code>)
      requires n in nodes && commands.Keys <= reissue.Keys
      modifies this
      ensures reply.Err? <==> SessionRefused(old(Rows()), n, session, now)
      ensures reply.Err? ==> reply.error == Conflict && Rows() == old(Rows())
      ensures reply.Ok? ==> Rows() == Connect(old(Rows()), n, session, reissue, now) && reply.value == nodes[n].epoch
      ensures clock == old(clock) && n in nodes
    {
      var node := nodes[n];
      var same := node.session == Some(session);
      if !same && node.session.Some? {
        if (n, session) in retired { return Err(Conflict); }
        if node.heartbeatAt.Some? && node.heartbeatAt.value + NODE_FRESH > now { return Err(Conflict); }
        TakeOver(n, reissue, now);
      }
      var epoch := node.epoch + if same then 0 else 1;
      nodes := nodes[n := node.(heartbeatAt := Some(now), epoch := epoch, session := Some(session))];
      reply := Ok(epoch);
    }

    method ReportRuntimes(n: Id, runtimes: seq<RuntimeReport>, ghost before: Time, now: Time)
      requires Ordered(Rows(), before) && before < now
      modifies this
      ensures Rows() == ReportAll(old(Rows()), n, runtimes, now) && clock == old(clock)
    {
      var i := 0;
      while i < |runtimes|
        invariant 0 <= i <= |runtimes|
        invariant Rows() == ReportAll(old(Rows()), n, runtimes[..i], now) && clock == old(clock)
      {
        ReportAllKeepsOrder(old(Rows()), n, runtimes[..i], before, now);
        assert runtimes[..i + 1][..i] == runtimes[..i];
        ReportRuntime(n, runtimes[i], now);
        i := i + 1;
      }
      assert runtimes[..i] == runtimes;
    }

    method Heartbeat(n: Id, session: Session, runtimes: seq<RuntimeReport>, reissue: map<Id, Id>, now: Time)
        returns (reply: Result<nat, Code>)
      requires Valid() && now > clock && FreshBatch(Rows(), reissue)
      modifies this
      ensures Valid() && clock == now
      ensures var tx := ControlPlane.Heartbeat(old(Rows()), n, session, runtimes, reissue, now);
              Rows() == tx.tables && reply == tx.reply
    {
      HeartbeatSteady(Rows(), n, session, runtimes, reissue, clock, now);
      ghost var before := clock;
      clock := now;
      reply := Beat(n, session, runtimes, reissue, before, now);
    }

    method Beat(n: Id, session: Session, runtimes: seq<RuntimeReport>, reissue: map<Id, Id>, ghost before: Time,
        now: Time)
      returns (reply: Result<nat, Code>)
      requires Ordered(Rows(), before) && now > before && commands.Keys <= reissue.Keys
      modifies this
      ensures var tx := ControlPlane.Heartbeat(old(Rows()), n, session, runtimes, reissue, now);
              Rows() == tx.tables && reply == tx.reply
      ensures clock == old(clock)
    {
      if n !in nodes || nodes[n].revoked { return Err(Unauthorized); }
      reply := ConnectSession(n, session, reissue, now);
      if reply.Err? { return; }
      ConnectUnobserved(old(Rows()), n, session, reissue, before, now);
      ReportRuntimes(n, runtimes, before, now);
    }

    // --- claimAgentCommand ---

    /** The oldest command the session may claim. */
    method OldestClaimable(n: Id, now: Time) returns (pick: Option<Id>)
      ensures NextCommand(Rows(), n, pick, now)
    {
      var claimable := ClaimableCommands(Rows(), n, now);
      if claimable == {} {
        forall o | o in commands ensures !Claimable(Rows(), n, o, now) { assert o !in claimable; }
        return None;
      }
      OldestCommand(Rows(), n, now);
      var o :| o in claimable && forall p :: p in claimable ==> commands[o].createdAt <= commands[p].createdAt;
      forall p | p in commands && Claimable(Rows(), n, p, now) ensures commands[o].createdAt <= commands[p].createdAt {
        assert p in claimable;
      }
      pick := Some(o);
    }

    method AdvertiseCapabilities(n: Id, routing: bool, artifact: Option<string>)
      requires n in nodes
      modifies this
      ensures Rows() == Advertise(old(Rows()), n, routing, artifact) && clock == old(clock)
    {
      if routing { nodes := nodes[n := nodes[n].(providerRouting := true)]; }
      if artifact.Some? { nodes := nodes[n := nodes[n].(artifact := artifact)]; }
    }

    method ClaimAgentCommand(n: Id, session: Session, routing: bool, artifact: Option<string>, now: Time)
      returns (pick: Option<Id>, reply: Result<Option<Grant>, Code>)
      requires Valid() && now > clock
      modifies this
      ensures Valid() && clock == now && NextCommand(old(Rows()), n, pick, now)
      ensures var tx := Claim(old(Rows()), n, session, routing, artifact, pick, now);
              Rows() == tx.tables && reply == tx.reply
    {
      pick := OldestClaimable(n, now);
      ClaimSteady(Rows(), n, session, routing, artifact, pick, clock, now);
      clock := now;
      reply := ClaimPicked(n, session, routing, artifact, pick, now);
    }

    method ClaimPicked(n: Id, session: Session, routing: bool, artifact: Option<string>, pick: Option<Id>, now: Time)
      returns (reply: Result<Option<Grant>, Code>)
      requires pick.Some? ==> pick.value in commands
      modifies this
      ensures var tx := Claim(old(Rows()), n, session, routing, artifact, pick, now);
              Rows() == tx.tables && reply == tx.reply
      ensures clock == old(clock)
    {
      if n !in nodes || nodes[n].revoked { return Err(Unauthorized); }
      if nodes[n].session != Some(session) { return Err(Conflict); }
      AdvertiseCapabilities(n, routing, artifact);
      if pick.None? { return Ok(None); }
      var granted := LeaseOrExhaust(pick.value, now);
      reply := Ok(granted);
    }

    method LeaseOrExhaust(o: Id, now: Time) returns (granted: Option<Grant>)
      requires o in commands
      modifies this
      ensures clock == old(clock)
      ensures var c := old(commands)[o];
              if c.attempts >= MAX_COMMAND_ATTEMPTS then granted == None && Rows() == Exhaust(old(Rows()), o, now)
              else
                var leased := c.(status := Leased, attempts := c.attempts + 1, lease := Some(now + LEASE));
                granted == Some(GrantOf(o, leased)) && Rows() == old(Rows()).(commands := old(commands)[o := leased])
    {
      var c := commands[o];
      if c.attempts >= MAX_COMMAND_ATTEMPTS {
        commands := commands[o := c.(status := Broken, resultAt := Some(now))];
        if o in operations && operations[o].status == Running {
          operations := operations[o := operations[o].(status := Failed, progress := None)];
        }
        return None;
      }
      commands := commands[o := c.(status := Leased, attempts := c.attempts + 1, lease := Some(now + LEASE))];
      granted := Some(GrantOf(o, commands[o]));
    }

    // --- recordAgentProgress and recordAgentResult ---

    method RecordAgentProgress(n: Id, m: Evidence, sequence: nat, phase: string, percent: nat, now: Time)
        returns (reply: Result<(), Code>)
      requires Valid() && now > clock
      modifies this
      ensures Valid() && clock == now
      ensures var tx := RecordProgress(old(Rows()), n, m, sequence, phase, percent, now);
              Rows() == tx.tables && reply == tx.reply
    {
      ProgressSteady(Rows(), n, m, sequence, phase, percent, clock, now);
      clock := now;
      if n !in nodes || nodes[n].revoked || nodes[n].session != Some(m.session) || nodes[n].epoch != m.epoch {
        return Err(Conflict);
      }
      var rows := RowsOf(Rows(), n, m.command);
      if rows == {} {
        forall p ensures !Row(Rows(), n, m.command, p) { assert p !in rows; }
        return Err(Conflict);
      }
      var o :| o in rows;
      forall p | Row(Rows(), n, m.command, p) ensures p == o { RowNamesOne(Rows(), n, m.command, p, o); }
      if !ProgressFence(Rows(), o, m) { return Err(Conflict); }
      if Regressed(operations[o].progress, m, sequence) { return Err(Conflict); }
      var shown := Progress(Some(m.command), m.attempt, sequence, phase, percent);
      operations := operations[o := operations[o].(progress := Some(shown))];
      commands := commands[o := commands[o].(lease := Some(now + LEASE))];
      nodes := nodes[n := nodes[n].(heartbeatAt := Some(now))];
      reply := Ok(());
    }

    /** The writes of an accepted result. */
    method WriteResult(n: Id, o: Id, m: Evidence, outcome: Outcome, state: string, now: Time)
      requires o in commands && ResultFence(Rows(), n, o, m)
      modifies this
      ensures Rows() == AcceptResult(old(Rows()), n, o, m, outcome, state, now) && clock == old(clock)
    {
      var c := commands[o];
      if outcome == OutcomeUnknown {
        commands := commands[o := c.(lease := Some(now))];
        operations := operations[o := operations[o].(progress := None)];
        return;
      }
      var status := if outcome == OutcomeSucceeded then Succeeded else Failed;
      if c.action == Delete && status == Succeeded {
        var terminal := Terminal(m.command, n, m.session, o, c.endpoint, c.generation, c.epoch, c.attempts);
        commands := commands[o := c.(status := Done, resultAt := Some(now))];
        operations := operations[o := operations[o].(status := Succeeded, progress := None,
                                                     terminal := Some(terminal))];
        var found := FinalizeEndpointDeletion(c.endpoint);
        assert found.Ok?;
        return;
      }
      if c.action != ReadContainerLogs {
        observations := observations[c.endpoint := ObservationsOf(Rows(), c.endpoint)
                                     + {Observation(now, Some(o), c.generation, state)}];
      }
      var ended := if outcome == OutcomeSucceeded then Done else Broken;
      commands := commands[o := c.(status := ended, resultAt := Some(now))];
      operations := operations[o := operations[o].(status := status, progress := None)];
    }

    method RecordAgentResult(n: Id, m: Evidence, outcome: Outcome, state: string, now: Time)
        returns (reply: Result<(), Code>)
      requires Valid() && now > clock
      modifies this
      ensures Valid() && clock == now
      ensures var tx := RecordResult(old(Rows()), n, m, outcome, state, now); Rows() == tx.tables && reply == tx.reply
    {
      ResultSteady(Rows(), n, m, outcome, state, clock, now);
      clock := now;
      if n !in nodes || nodes[n].revoked || nodes[n].session != Some(m.session) || nodes[n].epoch != m.epoch {
        return Err(Conflict);
      }
      var rows := RowsOf(Rows(), n, m.command);
      if rows == {} {
        forall p ensures !Row(Rows(), n, m.command, p) { assert p !in rows; }
        if !CompletedDelete(Rows(), n, m) { return Err(NotFound); }
        if outcome == OutcomeSucceeded && WinningDelete(Rows(), n, m) { return Ok(()); }
        return Err(Conflict);
      }
      var o :| o in rows;
      forall p | Row(Rows(), n, m.command, p) ensures p == o { RowNamesOne(Rows(), n, m.command, p, o); }
      if !ResultFence(Rows(), n, o, m) { return Err(Conflict); }
      if commands[o].resultAt.Some? { return Ok(()); }
      WriteResult(n, o, m, outcome, state, now);
      reply := Ok(());
    }

    // --- pruneObservations ---

    /** Deletes an endpoint's oldest expired rows, up to the limit, in one statement. */
    method PruneEndpoint(e: Id, limit: nat, now: Time) returns (count: nat)
      modifies this
      ensures clock == old(clock) && Pruned(old(Rows()), Rows(), e, limit, count, now)
    {
      var rows := ObservationsOf(Rows(), e);
      var expired := ExpiredRows(rows, now);
      ghost var witnessed := OldestRowsExist(expired, limit);
      var picked: set<Observation> :| picked <= expired && Oldest(expired, picked, limit);
      if e in observations { observations := observations[e := rows - picked]; }
      count := |picked|;
      assert Rows() == Prune(old(Rows()), e, picked);
    }

    /**
     One batch over a page of at most eight endpoints that no other transaction holds. It refuses a batch
     size outside 1 to 200; otherwise it deletes at most that many expired rows, which no reader misses,
     and either fills the batch or leaves nothing expired on the page.
     */
    method PruneObservations(batchSize: int, page: seq<Id>, now: Time) returns (reply: Result<(nat, Option<Id>), ()>)
      requires Valid() && now > clock && Distinct(page) && |page| <= 8
      modifies this
      ensures Valid() && clock == now
      ensures reply.Err? <==> !(1 <= batchSize <= 200)
      ensures Rows() == old(Rows()).(observations := observations) && (reply.Err? ==> observations == old(observations))
      ensures forall e :: e !in page ==> ObservationsOf(Rows(), e) == ObservationsOf(old(Rows()), e)
      ensures forall e {:trigger OnlyExpired(old(Rows()), Rows(), e, now)} :: OnlyExpired(old(Rows()), Rows(), e, now)
      ensures forall e {:trigger Unseen(old(Rows()), Rows(), e)} :: e in endpoints ==> Unseen(old(Rows()), Rows(), e)
      ensures reply.Ok? ==> reply.value.0 == Deleted(old(Rows()), Rows(), page) <= batchSize
      ensures reply.Ok? && reply.value.0 < batchSize ==>
                Clean(Rows(), page, now) && reply.value.1 == if |page| == 8 then Some(page[7]) else None
      ensures reply.Ok? && reply.value.0 == batchSize ==> reply.value.1.Some? && reply.value.1.value in page
    {
      LaterClock(Rows(), Rows(), clock, now);
      clock := now;
      if batchSize < 1 || batchSize > 200 {
        forall e ensures OnlyExpired(old(Rows()), Rows(), e, now) {}
        return Err(());
      }
      ghost var walked;
      var removed, full;
      removed, full, walked := PrunePage(batchSize, page, now);
      WalkEnds(old(Rows()), Rows(), page[..walked], page, removed, now);
      reply := Ok((removed, if full.Some? then full else if |page| == 8 then Some(page[|page| - 1]) else None));
    }

    /** The walk over the page; `full` is the endpoint at which the batch filled up. */
    method PrunePage(batchSize: nat, page: seq<Id>, now: Time)
        returns (removed: nat, full: Option<Id>, ghost walked: nat)
      requires Steady(Rows(), now) && 1 <= batchSize && Distinct(page)
      modifies this
      ensures clock == old(clock) && removed <= batchSize && walked <= |page|
      ensures Walked(old(Rows()), Rows(), page[..walked], removed, now)
      ensures if removed < batchSize
              then full == None && walked == |page| && Clean(Rows(), page, now)
              else walked > 0 && full == Some(page[walked - 1])
    {
      removed, full := 0, None;
      var i := 0;
      while i < |page|
        invariant 0 <= i <= |page| && removed < batchSize && clock == old(clock)
        invariant Walked(old(Rows()), Rows(), page[..i], removed, now) && Clean(Rows(), page[..i], now)
      {
        ghost var before := Rows();
        var count := PruneEndpoint(page[i], batchSize - removed, now);
        assert page[..i + 1] == page[..i] + [page[i]];
        WalkOne(old(Rows()), before, Rows(), page[..i], page[i], removed, batchSize - removed, count, now);
        removed := removed + count;
        i := i + 1;
        if removed == batchSize { return removed, Some(page[i - 1]), i; }
      }
      assert page[..i] == page;
      walked := i;
    }
  }
}
