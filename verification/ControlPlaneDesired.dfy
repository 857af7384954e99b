/** What an endpoint should be doing, as its operations tell it, over whole runs. */
module ControlPlaneDesired {
  import opened Wrappers
  import opened ControlPlane
  import opened ControlPlaneInvariant
  import opened ControlPlaneRuns
  import opened ControlPlaneHistory

  /** An operation that says whether its endpoint should run. Deletes and reads do not. */
  predicate Decides(s: Tables, o: Id, e: Id) {
    && o in s.operations && s.operations[o].endpoint == e
    && s.operations[o].action in {Start, Stop, Restart, ForceRestart}
  }

  /** The one of the greatest generation. */
  ghost predicate Latest(s: Tables, o: Id, e: Id) {
    Decides(s, o, e) && forall p {:trigger Decides(s, p, e)} :: Decides(s, p, e) ==>
      s.operations[p].generation <= s.operations[o].generation
  }

  /** A tombstone is stopped; any other endpoint is as its latest operation says, and stopped if it has none. */
  ghost predicate DesiredAt(s: Tables, e: Id)
    requires e in s.endpoints
  {
    var ep := s.endpoints[e];
    if ep.deleted then ep.desired == StoppedState
    else
      && (forall o {:trigger Latest(s, o, e)} :: Latest(s, o, e) ==>
            ep.desired == if s.operations[o].action == Stop then StoppedState else RunningState)
      && ((forall o {:trigger Decides(s, o, e)} :: !Decides(s, o, e)) ==> ep.desired == StoppedState)
  }

  ghost predicate AllDesired(s: Tables) {
    forall e {:trigger DesiredAt(s, e)} :: e in s.endpoints ==> DesiredAt(s, e)
  }

  // --- what a step does to it ---

  ghost predicate OldOnly(s: Tables, t: Tables, e: Id, but: Option<Id>) {
    forall p: Id {:trigger Decides(t, p, e)} :: Decides(t, p, e) && Some(p) != but ==> p in s.operations
  }

  ghost predicate Decided(s: Tables, t: Tables, e: Id, o: Id)
    requires e in s.endpoints && e in t.endpoints
  {
    && o !in s.operations && Decides(t, o, e) && OldOnly(s, t, e, Some(o))
    && t.operations[o].generation > s.endpoints[e].generation
    && !t.endpoints[e].deleted
    && t.endpoints[e].desired == if t.operations[o].action == Stop then StoppedState else RunningState
  }

  ghost predicate DesiredMoves(s: Tables, t: Tables, e: Id) {
    e in s.endpoints ==>
      && e in t.endpoints
      && (|| (t.endpoints[e].deleted && t.endpoints[e].desired == StoppedState)
          || (t.endpoints[e].desired == s.endpoints[e].desired && t.endpoints[e].deleted == s.endpoints[e].deleted
              && OldOnly(s, t, e, None))
          || exists o :: Decided(s, t, e, o))
  }

  lemma EnqueueDesires(s: Tables, o: Id, e: Id, generation: nat, action: Action, desired: Desired, key: Key,
      request: Request, now: Time, f: Id)
    requires o !in s.operations && e in s.endpoints && !s.endpoints[e].deleted
    requires if action in {Start, Stop, Restart, ForceRestart} then
               generation > s.endpoints[e].generation && desired
                   == (if action == Stop then StoppedState else RunningState)
             else desired == s.endpoints[e].desired
    ensures DesiredMoves(s, Enqueue(s, o, e, generation, action, desired, key, request, now), f)
  {
    var t := Enqueue(s, o, e, generation, action, desired, key, request, now);
    if f == e && action in {Start, Stop, Restart, ForceRestart} { assert Decided(s, t, e, o); }
  }

  /** Superseding changes no endpoint, and no action, endpoint or generation of an operation. */
  lemma SupersedeDesires(s: Tables, t: Tables, u: Tables, e: Id, now: Time, f: Id)
    requires t == Supersede(s, e, now) && DesiredMoves(t, u, f)
    ensures DesiredMoves(s, u, f)
  {
    assert t.endpoints == s.endpoints && t.operations.Keys == s.operations.Keys;
    if f in s.endpoints && exists o :: Decided(t, u, f, o) {
      var o :| Decided(t, u, f, o);
      assert Decided(s, u, f, o);
    }
  }

  lemma MutateDesires(s: Tables, m: Mutation, newId: Id, now: Time, f: Id)
    requires newId !in s.operations
    ensures DesiredMoves(s, Mutate(s, m, newId, now).tables, f)
  {
    var t := Mutate(s, m, newId, now).tables;
    if t != s {
      var ep := s.endpoints[m.endpoint];
      var cleared := if m.action == ForceRestart then Supersede(s, m.endpoint, now) else s;
      EnqueueDesires(cleared, newId, m.endpoint, ep.generation + if ReadOnly(m.action) then 0 else 1, m.action,
                     DesiredAfter(m.action, ep.desired), UserKey(m.key), RequestOf(m), now, f);
      if m.action == ForceRestart { SupersedeDesires(s, cleared, t, m.endpoint, now, f); }
    }
  }

  lemma ExpireDesires(s: Tables, e: Id, action: Action, newId: Id, now: Time, f: Id)
    requires newId !in s.operations && (action == Stop || action == Delete)
    ensures DesiredMoves(s, Expire(s, e, action, newId, now).tables, f)
  {
    var t := Expire(s, e, action, newId, now).tables;
    if ExpiryDue(s, e, action) {
      var ep := s.endpoints[e];
      var superseded := LiveOperations(s, e) != {};
      var cleared := if superseded then Supersede(s, e, now) else s;
      EnqueueDesires(cleared, newId, e, ep.generation + 1, action, if action == Stop then StoppedState else ep.desired,
                     ExpiryKey(action, |ExpiryHistory(s, e, action)| + 1),
                     Request(action, ep.generation, "workspace_expiry"), now, f);
      if superseded { SupersedeDesires(s, cleared, t, e, now, f); }
    }
  }

  lemma ReclaimDesires(s: Tables, e: Id, newId: Id, now: Time, f: Id)
    requires newId !in s.operations && e in s.endpoints && !s.endpoints[e].deleted
    ensures DesiredMoves(s, Reclaim(s, e, newId, now).tables, f)
  {
    if Reclaim(s, e, newId, now).tables != s {
      var ep := s.endpoints[e];
      EnqueueDesires(s, newId, e, ep.generation, ReadContainerLogs, ep.desired, ReclaimKey(ep.generation),
                     Request(ReadContainerLogs, ep.generation, "stale-telemetry-reclaim"), now, f);
    }
  }

  lemma ProcessDesires(s: Tables, pick: Option<Id>, commandId: Id, now: Time, f: Id)
    requires Inv(s) && PickIsWired(s, pick) && NextEvent(s, pick, now)
    ensures DesiredMoves(s, Process(s, pick, commandId, now).tables, f)
  {
    if pick.Some? { ProcessSettles(s, pick.value, commandId, now); }
  }

  lemma ResultDesires(s: Tables, n: Id, m: Evidence, outcome: Outcome, state: string, now: Time, f: Id)
    ensures DesiredMoves(s, RecordResult(s, n, m, outcome, state, now).tables, f)
  {
    ResultShape(s, n, m, outcome, state, now);
  }

  lemma AgentDesires(w: World, now: Time, step: Step, f: Id)
    requires Inv(w.tables) && Legal(w, now, step) && ByAgent(step)
    ensures DesiredMoves(w.tables, After(w, now, step), f)
  {
    var s := w.tables;
    AgentAddsNone(w, now, step);
    if step.DoHeartbeat? {
      HeartbeatMovesEndpoints(s, step.node, step.session, step.runtimes, step.reissue, now);
    } else if step.DoClaim? {
      ClaimKeepsEndpoints(s, step.node, step.session, step.routing, step.artifact, step.pick, now);
    } else if step.DoResult? {
      ResultDesires(s, step.node, step.evidence, step.outcome, step.state, now, f);
    } else {
      ProgressKeepsEndpoints(s, step.node, step.evidence, step.sequence, step.phase, step.percent, now);
    }
  }

  lemma ProgressKeepsEndpoints(s: Tables, n: Id, m: Evidence, sequence: nat, phase: string, percent: nat, now: Time)
    ensures RecordProgress(s, n, m, sequence, phase, percent, now).tables.endpoints == s.endpoints
  {
  }

  lemma StepDesires(w: World, now: Time, step: Step, f: Id)
    requires Inv(w.tables) && Legal(w, now, step)
    ensures DesiredMoves(w.tables, After(w, now, step), f)
  {
    var s := w.tables;
    if ByAgent(step) { AgentDesires(w, now, step, f); }
    else if step.DoMutate? { MutateDesires(s, step.mutation, step.newId, now, f); }
    else if step.DoExpire? { ExpireDesires(s, step.endpoint, step.action, step.newId, now, f); }
    else if step.DoReclaim? { ReclaimDesires(s, step.endpoint, step.newId, now, f); }
    else if step.DoProcess? {
      assert PickIsWired(s, step.pick);
      ProcessDesires(s, step.pick, step.commandId, now, f);
    } else {
      OthersKeepOperations(w, now, step);
    }
  }

  // --- over runs ---

  lemma DesiredStays(s: Tables, t: Tables, e: Id)
    requires e in s.endpoints && DesiredAt(s, e) && DesiredMoves(s, t, e) && CountedAt(s, e)
    requires forall o {:trigger OperationMoves(s, t, o)} :: OperationMoves(s, t, o)
    ensures DesiredAt(t, e)
  {
    if !t.endpoints[e].deleted {
      forall o | Decides(s, o, e) ensures Decides(t, o, e) && t.operations[o].generation <= s.endpoints[e].generation {
        assert OperationMoves(s, t, o) && Within(s, o, e);
      }
      if n: Id :| Decided(s, t, e, n) {
        forall o | Latest(t, o, e) ensures o == n {
          if o != n { assert Decides(t, n, e) && Decides(t, o, e) && OperationMoves(s, t, o); assert Decides(s, o, e); }
        }
      } else {
        forall o | Decides(t, o, e) ensures Decides(s, o, e) { assert OperationMoves(s, t, o); }
        forall o | Latest(t, o, e) ensures Latest(s, o, e) && t.operations[o].action == s.operations[o].action {
          assert OperationMoves(s, t, o);
          forall p | Decides(s, p, e) ensures s.operations[p].generation <= s.operations[o].generation {
            assert Decides(t, p, e) && OperationMoves(s, t, p);
          }
        }
      }
    }
  }

  lemma DesiredStep(w: World, now: Time, step: Step)
    requires Inv(w.tables) && AllDesired(w.tables) && Legal(w, now, step)
    ensures AllDesired(After(w, now, step))
  {
    var s, t := w.tables, After(w, now, step);
    forall o ensures OperationMoves(s, t, o) { StepMovesOperations(w, now, step, o); }
    forall e | e in t.endpoints ensures DesiredAt(t, e) {
      if e in s.endpoints {
        assert DesiredAt(s, e) && CountedAt(s, e);
        StepDesires(w, now, step, e);
        DesiredStays(s, t, e);
      } else {
        NewEndpoint(w, now, step, e);
      }
    }
  }

  lemma NewEndpoint(w: World, now: Time, step: Step, e: Id)
    requires Inv(w.tables) && Legal(w, now, step) && e in After(w, now, step).endpoints && e !in w.tables.endpoints
    ensures DesiredAt(After(w, now, step), e)
  {
    var s, t := w.tables, After(w, now, step);
    EndpointsCome(w, now, step);
    OthersKeepOperations(w, now, step);
    forall o ensures !Decides(t, o, e) {
      if o in s.operations { assert Sound(s, o); }
    }
  }

  lemma EndpointsCome(w: World, now: Time, step: Step)
    requires Inv(w.tables) && Legal(w, now, step)
    ensures !step.DoCreate? ==> After(w, now, step).endpoints.Keys <= w.tables.endpoints.Keys
  {
    var s := w.tables;
    match step
    case DoMutate(m, newId) => MutateBringsNone(s, m, newId, now);
    case DoExpire(e, action, newId) => ExpireBringsNone(s, e, action, newId, now);
    case DoClaim(n, session, routing, artifact, pick) => ClaimKeepsEndpoints(s, n, session, routing, artifact, pick,
                                                         now);
    case DoProcess(pick, commandId) =>
      if pick.Some? { ProcessSettles(s, pick.value, commandId, now); }
    case DoHeartbeat(n, session, runtimes, reissue) => HeartbeatMovesEndpoints(s, n, session, runtimes, reissue, now);
    case DoResult(n, m, outcome, state) => ResultShape(s, n, m, outcome, state, now);
    case _ =>
  }

  lemma MutateBringsNone(s: Tables, m: Mutation, newId: Id, now: Time)
    ensures Mutate(s, m, newId, now).tables.endpoints.Keys <= s.endpoints.Keys
  {
  }

  lemma ExpireBringsNone(s: Tables, e: Id, action: Action, newId: Id, now: Time)
    requires action == Stop || action == Delete
    ensures Expire(s, e, action, newId, now).tables.endpoints.Keys <= s.endpoints.Keys
  {
  }

  lemma {:induction false} RunDesires(w: World, run: seq<Event>)
    requires Good(w) && AllDesired(w.tables) && LegalRun(w, run)
    ensures AllDesired(Final(w, run).tables)
    decreases |run|
  {
    if run != [] {
      StepKeepsGood(w, run[0].now, run[0].step);
      DesiredStep(w, run[0].now, run[0].step);
      RunDesires(Next(w, run[0].now, run[0].step), run[1..]);
    }
  }

  /**
   In every reachable world an endpoint should be stopped exactly if it is deleted, or its latest start, stop or
   restart is a stop, or it never had one; whichever way that operation ended.
   */
  lemma DesiredIsLatest(w: World, e: Id)
    requires Reachable(w) && e in w.tables.endpoints
    ensures var s := w.tables;
            s.endpoints[e].desired == StoppedState
            <==> s.endpoints[e].deleted
                 || (exists o :: Latest(s, o, e) && s.operations[o].action == Stop)
                 || (forall o :: !Decides(s, o, e))
  {
    EmptyWorld();
    var run :| LegalRun(EMPTY, run) && Final(EMPTY, run) == w;
    RunDesires(EMPTY, run);
    var s := w.tables;
    assert DesiredAt(s, e);
    if o: Id :| Decides(s, o, e) { var latest := LatestExists(s, e, o); }
  }

  lemma LatestExists(s: Tables, e: Id, o: Id) returns (latest: Id)
    requires Decides(s, o, e)
    ensures Latest(s, latest, e)
  {
    var among := set p | p in s.operations && Decides(s, p, e);
    assert o in among;
    latest := Greatest(s, e, among);
  }

  lemma {:induction false} Greatest(s: Tables, e: Id, among: set<Id>) returns (latest: Id)
    requires among != {} && among <= s.operations.Keys
    ensures latest in among
    ensures forall p :: p in among ==> s.operations[p].generation <= s.operations[latest].generation
    decreases among
  {
    latest :| latest in among;
    if among != {latest} {
      var other := Greatest(s, e, among - {latest});
      if s.operations[latest].generation < s.operations[other].generation { latest := other; }
    }
  }
}
