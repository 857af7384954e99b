/**
 The reducer that folds events about one endpoint into its simulated state.
 */
module Reconciler {
  import opened Wrappers

  type OperationId = string

  datatype Desired = Desired(generation: nat, activeOperation: OperationId, spec: string)
  datatype Protocol = ProtocolUnknown | Connected | Disconnected
  datatype Convergence = Unknown | Reconciling | Converged | Failed | Conflicted
  datatype Completed = Completed(operation: OperationId, generation: nat, epoch: nat)

  datatype Endpoint = Endpoint(
    id: string, desired: Option<Desired>, protocol: Protocol, convergence: Convergence, epoch: nat,
    completed: seq<Completed>, conflict: Option<string>, lastError: Option<string>)

  datatype Event =
    | DesiredEvent(desired: Desired)
    | ResultEvent(result: Completed, succeeded: bool, error: Option<string>)
    | DisconnectedEvent
    | ConnectedEvent
    | ConflictEvent(reason: string)

  function Initial(id: string): Endpoint { Endpoint(id, None, ProtocolUnknown, Unknown, 0, [], None, None) }

  function WithoutErrors(s: Endpoint): Endpoint { s.(conflict := None, lastError := None) }

  /**
   The result is the answer awaited: of the active operation, at the desired generation, in this connection,
   and new.
   */
  predicate Awaited(s: Endpoint, r: Completed) {
    && s.protocol == Connected && s.desired.Some?
    && r.generation == s.desired.value.generation && s.desired.value.activeOperation == r.operation
    && r.epoch == s.epoch && r !in s.completed
  }

  function Reduce(s: Endpoint, ev: Event): Endpoint {
    match ev
    case DesiredEvent(desired) =>
      if s.desired.Some? && desired.generation < s.desired.value.generation then s
      else if s.desired.Some? && desired.generation == s.desired.value.generation
              && desired.activeOperation == s.desired.value.activeOperation then s
      else WithoutErrors(s).(desired := Some(desired), convergence := Reconciling)
    case DisconnectedEvent =>
      if s.protocol == Disconnected then s else s.(protocol := Disconnected, convergence := Unknown,
                                                   epoch := s.epoch + 1)
    case ConnectedEvent => s.(protocol := Connected, convergence := if s.desired.Some? then Reconciling
                              else s.convergence)
    case ConflictEvent(reason) => s.(convergence := Conflicted, conflict := Some(reason))
    case ResultEvent(result, succeeded, error) =>
      if !Awaited(s, result) then s
      else
        var next := WithoutErrors(s).(completed := s.completed + [result], convergence := if succeeded then Converged
                                      else Failed);
        if !succeeded && error.Some? && error.value != "" then next.(lastError := error) else next
  }

  function Run(s: Endpoint, events: seq<Event>): Endpoint {
    if events == [] then s else Reduce(Run(s, events[..|events| - 1]), events[|events| - 1])
  }

  function Generation(s: Endpoint): int { if s.desired.Some? then s.desired.value.generation else -1 }

  predicate Pairwise(completed: seq<Completed>) {
    forall j, k :: 0 <= j < k < |completed| ==> completed[j] != completed[k]
  }

  /** An endpoint that has settled is connected, and its last completed result answers exactly what is desired now. */
  ghost predicate Sound(s: Endpoint) {
    && Pairwise(s.completed)
    && (s.convergence == Converged || s.convergence == Failed ==>
          && s.protocol == Connected && s.desired.Some? && s.completed != []
          && s.completed[|s.completed| - 1] == Completed(s.desired.value.activeOperation, s.desired.value.generation,
                                                         s.epoch))
  }

  lemma ReduceKeeps(s: Endpoint, ev: Event)
    requires Sound(s)
    ensures Sound(Reduce(s, ev))
    ensures Generation(s) <= Generation(Reduce(s, ev)) && s.epoch <= Reduce(s, ev).epoch <= s.epoch + 1
            && s.completed <= Reduce(s, ev).completed
  {
  }

  lemma {:induction false} RunKeeps(s: Endpoint, events: seq<Event>)
    requires Sound(s)
    ensures Sound(Run(s, events))
    ensures Generation(s) <= Generation(Run(s, events)) && s.epoch <= Run(s, events).epoch
            && s.completed <= Run(s, events).completed
  {
    if events != [] {
      RunKeeps(s, events[..|events| - 1]);
      ReduceKeeps(Run(s, events[..|events| - 1]), events[|events| - 1]);
    }
  }

  /** Whatever happens to a new endpoint: completed results stay distinct, and convergence means what it says. */
  lemma ConvergedMeansCompleted(id: string, events: seq<Event>)
    ensures var s := Run(Initial(id), events);
            && Pairwise(s.completed)
            && (s.convergence == Converged || s.convergence == Failed ==>
                  && s.protocol == Connected && s.desired.Some?
                  && Completed(s.desired.value.activeOperation, s.desired.value.generation, s.epoch) in s.completed)
  {
    RunKeeps(Initial(id), events);
  }

  /** Desired generation and epoch never fall along a run. */
  lemma NothingGoesBack(id: string, before: seq<Event>, after: seq<Event>)
    ensures var s, t := Run(Initial(id), before), Run(Initial(id), before + after);
            Generation(s) <= Generation(t) && s.epoch <= t.epoch && s.completed <= t.completed
  {
    RunKeeps(Initial(id), before);
    RunConcat(Initial(id), before, after);
    RunKeeps(Run(Initial(id), before), after);
  }

  lemma {:induction false} RunConcat(s: Endpoint, a: seq<Event>, b: seq<Event>)
    ensures Run(s, a + b) == Run(Run(s, a), b)
    decreases |b|
  {
    if b == [] {
      assert a + b == a;
    } else {
      RunConcat(s, a, b[..|b| - 1]);
      assert (a + b)[..|a + b| - 1] == a + b[..|b| - 1];
    }
  }

  /**
   A result that was accepted once changes nothing when it comes again, however much later and with whatever
   outcome.
   */
  lemma AcceptedResultsReplay(id: string, before: seq<Event>, r: Completed, succeeded: bool, error: Option<string>,
                              between: seq<Event>, again: bool, otherError: Option<string>)
    requires Awaited(Run(Initial(id), before), r)
    ensures var t := Run(Reduce(Run(Initial(id), before), ResultEvent(r, succeeded, error)), between);
            Reduce(t, ResultEvent(r, again, otherError)) == t
  {
    var s := Run(Initial(id), before);
    var u := Reduce(s, ResultEvent(r, succeeded, error));
    RunKeeps(Initial(id), before);
    ReduceKeeps(s, ResultEvent(r, succeeded, error));
    RunKeeps(u, between);
    assert u.completed[|s.completed|] == r;
    assert Run(u, between).completed[|s.completed|] == r;
  }

  /** A result that was not awaited changes nothing. */
  lemma StaleResultsAreIgnored(s: Endpoint, r: Completed, succeeded: bool, error: Option<string>)
    ensures Reduce(s, ResultEvent(r, succeeded, error)) != s <==> Awaited(s, r)
  {
    if Awaited(s, r) { assert |Reduce(s, ResultEvent(r, succeeded, error)).completed| > |s.completed|; }
  }

  // --- what the events say ---

  /** The last word on the connection, and how often it was lost. */
  function Link(events: seq<Event>): (Protocol, nat) {
    if events == [] then (ProtocolUnknown, 0)
    else
      var before := Link(events[..|events| - 1]);
      match events[|events| - 1]
      case ConnectedEvent => (Connected, before.1)
      case DisconnectedEvent => (Disconnected, before.1 + if before.0 == Disconnected then 0 else 1)
      case _ => before
  }

  /** The protocol is the last connection event's, and the epoch counts the losses. */
  lemma {:induction false} ProtocolFollowsLink(id: string, events: seq<Event>)
    ensures (Run(Initial(id), events).protocol, Run(Initial(id), events).epoch) == Link(events)
  {
    if events != [] { ProtocolFollowsLink(id, events[..|events| - 1]); }
  }

  /** No wish is of a higher generation, and no later one of the same. */
  predicate LastWish(events: seq<Event>, k: nat) {
    && k < |events| && events[k].DesiredEvent?
    && (forall j :: 0 <= j < |events| && events[j].DesiredEvent? ==>
          events[j].desired.generation <= events[k].desired.generation)
    && (forall j :: k < j < |events| && events[j].DesiredEvent? ==>
          events[j].desired.generation < events[k].desired.generation)
  }

  /** A wish of no lower generation takes over; anything else leaves the last one. */
  lemma WishAfter(before: seq<Event>, ev: Event, k: nat)
    requires LastWish(before, k)
    ensures var takes := ev.DesiredEvent? && ev.desired.generation >= before[k].desired.generation;
            LastWish(before + [ev], if takes then |before| else k)
  {
    var events := before + [ev];
    assert forall j :: 0 <= j < |before| ==> events[j] == before[j];
    assert events[|before|] == ev;
  }

  lemma FirstWish(before: seq<Event>, ev: Event)
    requires forall j :: 0 <= j < |before| ==> !before[j].DesiredEvent?
    ensures if ev.DesiredEvent? then LastWish(before + [ev], |before|)
            else forall j :: 0 <= j <= |before| ==> !(before + [ev])[j].DesiredEvent?
  {
  }

  /** What is desired is the last wish of the highest generation. */
  lemma {:induction false} DesiredIsLastWish(id: string, events: seq<Event>)
    ensures var s := Run(Initial(id), events);
            && (s.desired.None? ==> forall k :: 0 <= k < |events| ==> !events[k].DesiredEvent?)
            && (s.desired.Some? ==>
                  exists k: nat :: LastWish(events, k) && events[k].desired.generation == s.desired.value.generation
                              && events[k].desired.activeOperation == s.desired.value.activeOperation)
  {
    if events != [] {
      var m := |events| - 1;
      var before, s := events[..m], Run(Initial(id), events[..m]);
      DesiredIsLastWish(id, before);
      if s.desired.Some? {
        var k: nat :| LastWish(before, k) && before[k].desired.generation == s.desired.value.generation
                 && before[k].desired.activeOperation == s.desired.value.activeOperation;
        WishAfter(before, events[m], k);
        assert before + [events[m]] == events;
      } else {
        FirstWish(before, events[m]);
        assert before + [events[m]] == events;
      }
    }
  }

  /** The event is the result of exactly what the connected endpoint desires, in this epoch, for the first time. */
  predicate Answers(s: Endpoint, ev: Event) {
    && ev.ResultEvent? && s.protocol == Connected && s.desired.Some? && ev.result !in s.completed
    && ev.result == Completed(s.desired.value.activeOperation, s.desired.value.generation, s.epoch)
  }

  /** Event `k` answered what was desired, and nothing since has changed the endpoint. */
  predicate SettledBy(id: string, events: seq<Event>, k: nat) {
    && k < |events| && Answers(Run(Initial(id), events[..k]), events[k])
    && Run(Initial(id), events[..k + 1]) == Run(Initial(id), events)
  }

  /** An empty reason is none. */
  function Reason(error: Option<string>): Option<string> { if error == Some("") then None else error }

  /**
   An endpoint is converged, or failed, exactly if an answer to what it desires, success or failure, was the last
   event that changed it.
   */
  lemma {:induction false} SettledExactly(id: string, events: seq<Event>)
    ensures var s := Run(Initial(id), events);
            && (s.convergence == Converged <==> exists k: nat :: SettledBy(id, events, k) && events[k].succeeded)
            && (s.convergence == Failed <==> exists k: nat :: SettledBy(id, events, k) && !events[k].succeeded)
            && (forall k: nat :: SettledBy(id, events, k) ==>
                  s.conflict == None && s.lastError == if events[k].succeeded then None else Reason(events[k].error))
  {
    var s := Run(Initial(id), events);
    forall k: nat | SettledBy(id, events, k)
      ensures s.convergence == (if events[k].succeeded then Converged else Failed) && s.conflict == None
      ensures s.lastError == if events[k].succeeded then None else Reason(events[k].error)
    {
      assert events[..k + 1][..k] == events[..k] && events[..k + 1][k] == events[k];
    }
    if s.convergence == Converged || s.convergence == Failed { var k := SettlingEvent(id, events); }
  }

  lemma {:induction false} SettlingEvent(id: string, events: seq<Event>) returns (k: nat)
    requires Run(Initial(id), events).convergence in {Converged, Failed}
    ensures SettledBy(id, events, k)
  {
    var m := |events| - 1;
    var before, s := events[..m], Run(Initial(id), events[..m]);
    RunKeeps(Initial(id), before);
    if Reduce(s, events[m]) == s {
      k := SettlingEvent(id, before);
      assert before[..k] == events[..k] && before[..k + 1] == events[..k + 1] && before[k] == events[k];
    } else {
      k := m;
      assert events[..m + 1] == events;
    }
  }
}
