/**
 When sessions are heard from, and when leases are granted, renewed and given up, over whole runs.

 The marks of a run are what its requests were told: the heartbeats and progress accepted, the grants
 delivered and the unknown results taken, each with its time. `ControlPlaneTimes` has the
 promises, which are about marks alone.
 */
module ControlPlaneMarks {
  import opened Wrappers
  import opened ControlPlane
  import opened ControlPlaneInvariant
  import opened ControlPlaneRuns
  import opened ControlPlaneHistory

  datatype Mark =
    | Heard(node: Id, session: Session, at: Time)
    | Granted(command: Id, attempt: nat, at: Time)
    | Renewed(command: Id, attempt: nat, sequence: nat, at: Time)
    | Unsure(command: Id, attempt: nat, at: Time)

  /** What a step's request was told, if it was accepted. */
  ghost function MarksOf(w: World, now: Time, step: Step): set<Mark>
    requires Legal(w, now, step)
  {
    var s := w.tables;
    match step
    case DoHeartbeat(n, session, runtimes, reissue) =>
      if Heartbeat(s, n, session, runtimes, reissue, now).reply.Ok? then {Heard(n, session, now)} else {}
    case DoClaim(n, session, routing, artifact, pick) =>
      var reply := Claim(s, n, session, routing, artifact, pick, now).reply;
      if reply.Ok? && reply.value.Some? then {Granted(reply.value.value.command, reply.value.value.attempt, now)}
          else {}
    case DoProgress(n, m, sequence, phase, percent) =>
      if RecordProgress(s, n, m, sequence, phase, percent, now).reply.Ok?
      then {Heard(n, m.session, now), Renewed(m.command, m.attempt, sequence, now)} else {}
    case DoResult(n, m, outcome, state) =>
      if outcome == OutcomeUnknown && RecordResult(s, n, m, outcome, state, now).reply.Ok?
      then {Unsure(m.command, m.attempt, now)} else {}
    case _ => {}
  }

  ghost function Marks(w: World, run: seq<Event>): set<Mark>
    requires LegalRun(w, run)
    decreases |run|
  {
    if run == [] then {}
    else MarksOf(w, run[0].now, run[0].step) + Marks(Next(w, run[0].now, run[0].step), run[1..])
  }

  // --- sessions ---

  ghost predicate HeardOnce(marks: set<Mark>, n: Id, session: Session) {
    exists at: Time :: Heard(n, session, at) in marks
  }

  /** A node row knows when its session was last heard from; the other sessions heard from are retired. */
  ghost predicate HeardAt(marks: set<Mark>, s: Tables, n: Id)
    requires n in s.nodes
  {
    var node := s.nodes[n];
    && (node.session.Some? <==> node.heartbeatAt.Some?)
    && (node.session.Some? ==> Heard(n, node.session.value, node.heartbeatAt.value) in marks)
    && (forall x, at: Time :: Heard(n, x, at) in marks ==>
          node.session.Some? && at <= node.heartbeatAt.value && (x == node.session.value || (n, x) in s.retired))
  }

  ghost predicate RetiredAt(marks: set<Mark>, s: Tables, n: Id, session: Session) {
    (n, session) in s.retired ==> n in s.nodes && HeardOnce(marks, n, session) && s.nodes[n].session != Some(session)
  }

  ghost predicate Listens(marks: set<Mark>, s: Tables) {
    && (forall n {:trigger HeardAt(marks, s, n)} :: n in s.nodes ==> HeardAt(marks, s, n))
    && (forall n, x {:trigger RetiredAt(marks, s, n, x)} :: RetiredAt(marks, s, n, x))
    && (forall m :: m in marks && m.Heard? ==> m.node in s.nodes)
  }

  /** What a step does to the node rows and the retired sessions, given whom it heard. */
  ghost predicate NodesMove(marks: set<Mark>, s: Tables, t: Tables, now: Time) {
    || (exists n, x :: && Heard(n, x, now) in marks && n in s.nodes
                       && (forall m :: m in marks && m.Heard? ==> m == Heard(n, x, now))
                       && Answers(s, t, n, x, now))
    || (&& (forall m :: m in marks ==> !m.Heard?) && t.retired == s.retired && s.nodes.Keys <= t.nodes.Keys
        && (forall n :: n in t.nodes ==> SameVoice(s, t, n)))
  }

  /** The columns of a node row that say whom it listens to. */
  predicate SameVoice(s: Tables, t: Tables, n: Id)
    requires n in t.nodes
  {
    t.nodes[n].session == (if n in s.nodes then s.nodes[n].session else None)
    && t.nodes[n].heartbeatAt == (if n in s.nodes then s.nodes[n].heartbeatAt else None)
  }

  ghost predicate Answers(s: Tables, t: Tables, n: Id, x: Session, now: Time)
    requires n in s.nodes
  {
    var before := s.nodes[n].session;
    && t.nodes.Keys == s.nodes.Keys && (forall k :: k in t.nodes && k != n ==> SameVoice(s, t, k))
    && t.nodes[n].session == Some(x) && t.nodes[n].heartbeatAt == Some(now)
    && t.retired == s.retired + (if before.Some? && before.value != x then {(n, before.value)} else {})
    && (before.Some? && before.value != x ==>
          (n, x) !in s.retired && (s.nodes[n].heartbeatAt.Some? ==> s.nodes[n].heartbeatAt.value + 120_000 <= now))
  }

  lemma HeartbeatNodes(w: World, now: Time, step: Step)
    requires Legal(w, now, step) && step.DoHeartbeat?
    ensures NodesMove(MarksOf(w, now, step), w.tables, After(w, now, step), now)
  {
    var s, t, n := w.tables, After(w, now, step), step.node;
    if n in s.nodes && !s.nodes[n].revoked && !SessionRefused(s, n, step.session, now) {
      ReportAllFrame(Connect(s, n, step.session, step.reissue, now), n, step.runtimes, now);
      assert Heard(n, step.session, now) in MarksOf(w, now, step);
      assert Answers(s, t, n, step.session, now);
    }
  }

  lemma ProgressNodes(w: World, now: Time, step: Step)
    requires Legal(w, now, step) && step.DoProgress?
    ensures NodesMove(MarksOf(w, now, step), w.tables, After(w, now, step), now)
  {
    var s, t, n, m := w.tables, After(w, now, step), step.node, step.evidence;
    if RecordProgress(s, n, m, step.sequence, step.phase, step.percent, now).reply.Ok? {
      assert Heard(n, m.session, now) in MarksOf(w, now, step);
      assert Answers(s, t, n, m.session, now);
    }
  }

  lemma ClaimVoices(s: Tables, n: Id, session: Session, routing: bool, artifact: Option<string>, pick: Option<Id>,
      now: Time)
    requires pick.Some? ==> pick.value in s.commands
    ensures var t := Claim(s, n, session, routing, artifact, pick, now).tables;
            && t.retired == s.retired && s.nodes.Keys == t.nodes.Keys
            && (forall k :: k in t.nodes ==> SameVoice(s, t, k))
  {
    ClaimKeepsTables(s, n, session, routing, artifact, pick, now);
    if n in s.nodes { AdvertiseVoices(s, n, routing, artifact); }
  }

  lemma AdvertiseVoices(s: Tables, n: Id, routing: bool, artifact: Option<string>)
    requires n in s.nodes
    ensures var t := Advertise(s, n, routing, artifact);
            && t.retired == s.retired && s.nodes.Keys == t.nodes.Keys
            && (forall k :: k in t.nodes ==> SameVoice(s, t, k))
  {
  }

  lemma ClaimKeepsTables(s: Tables, n: Id, session: Session, routing: bool, artifact: Option<string>, pick: Option<Id>,
      now: Time)
    requires pick.Some? ==> pick.value in s.commands
    ensures var t := Claim(s, n, session, routing, artifact, pick, now).tables;
            && t.retired == s.retired
            && (t.nodes == s.nodes || (n in s.nodes && t.nodes == Advertise(s, n, routing, artifact).nodes))
  {
    if n in s.nodes && pick.Some? { ExhaustKeepsNodes(Advertise(s, n, routing, artifact), pick.value, now); }
  }

  lemma ClaimNodes(w: World, now: Time, step: Step)
    requires Legal(w, now, step) && step.DoClaim?
    ensures NodesMove(MarksOf(w, now, step), w.tables, After(w, now, step), now)
  {
    ClaimVoices(w.tables, step.node, step.session, step.routing, step.artifact, step.pick, now);
  }

  lemma StepNodes(w: World, now: Time, step: Step)
    requires Inv(w.tables) && Legal(w, now, step)
    ensures NodesMove(MarksOf(w, now, step), w.tables, After(w, now, step), now)
  {
    if step.DoHeartbeat? { HeartbeatNodes(w, now, step); }
    else if step.DoProgress? { ProgressNodes(w, now, step); }
    else if step.DoClaim? { ClaimNodes(w, now, step); }
    else if !step.DoEnroll? && !step.DoRevoke? { StepKeepsNodes(w, now, step); }
  }

  lemma ListensStep(marks: set<Mark>, more: set<Mark>, s: Tables, t: Tables, clock: Time, now: Time)
    requires Listens(marks, s) && NodesMove(more, s, t, now) && clock < now && forall m :: m in marks ==> m.at <= clock
    ensures Listens(marks + more, t)
  {
    if m: Mark :| m in more && m.Heard? {
      var n, x :| Heard(n, x, now) in more && n in s.nodes
          && (forall m :: m in more && m.Heard? ==> m == Heard(n, x, now))
          && Answers(s, t, n, x, now);
      AnswersStep(marks, more, s, t, n, x, clock, now);
    } else {
      forall n | n in t.nodes ensures HeardAt(marks + more, t, n) {
        assert SameVoice(s, t, n);
        if n in s.nodes { assert HeardAt(marks, s, n); }
      }
      forall n, x ensures RetiredAt(marks + more, t, n, x) { assert RetiredAt(marks, s, n, x); }
    }
  }

  lemma AnswersStep(marks: set<Mark>, more: set<Mark>, s: Tables, t: Tables, n: Id, x: Session, clock: Time, now: Time)
    requires Listens(marks, s) && clock < now && forall m :: m in marks ==> m.at <= clock
    requires Heard(n, x, now) in more && n in s.nodes && (forall m :: m in more && m.Heard? ==> m == Heard(n, x, now))
    requires Answers(s, t, n, x, now)
    ensures Listens(marks + more, t)
  {
    forall k | k in t.nodes ensures HeardAt(marks + more, t, k) {
      assert HeardAt(marks, s, k);
      if k != n { assert SameVoice(s, t, k); }
    }
    forall k, y ensures RetiredAt(marks + more, t, k, y) {
      assert RetiredAt(marks, s, k, y);
      assert HeardAt(marks, s, n);
      if k != n && k in t.nodes { assert SameVoice(s, t, k); }
    }
  }

  // --- leases ---

  /** A sign that the lease was in force: its grant, or progress accepted under it. */
  ghost predicate Sign(marks: set<Mark>, id: Id, k: nat, at: Time) {
    Granted(id, k, at) in marks || exists q: nat :: Renewed(id, k, q, at) in marks
  }

  /** An unknown result of the lease was taken within the period. */
  ghost predicate UnsureWithin(marks: set<Mark>, id: Id, k: nat, from: Time, to: Time) {
    exists u: Time :: from <= u <= to && Unsure(id, k, u) in marks
  }

  /** Each grant comes more than 30 s after every earlier sign of the command, unless it was given up since. */
  ghost predicate Apart(marks: set<Mark>, id: Id, k: nat, at: Time, at': Time) {
    Sign(marks, id, k, at) && at < at' ==> at + 30_000 < at' || UnsureWithin(marks, id, k, at, at')
  }

  ghost predicate GrantsApart(marks: set<Mark>) {
    forall id: Id, k: nat, k': nat, at: Time, at': Time {:trigger Apart(marks, id, k, at, at'), Granted(id, k', at')} ::
      Granted(id, k', at') in marks ==> Apart(marks, id, k, at, at')
  }

  /** Progress accepted under one lease has growing sequence numbers, unless it was given up in between. */
  ghost predicate InSequence(marks: set<Mark>, id: Id, k: nat, q: nat, at: Time, q': nat, at': Time) {
    Renewed(id, k, q, at) in marks && Renewed(id, k, q', at') in marks && at < at' ==>
      q < q' || UnsureWithin(marks, id, k, at, at')
  }

  ghost predicate SequencesGrow(marks: set<Mark>) {
    forall id: Id, k: nat, q: nat, at: Time, q': nat, at': Time {:trigger InSequence(marks, id, k, q, at, q', at')} ::
      InSequence(marks, id, k, q, at, q', at')
  }

  predicate About(m: Mark, id: Id) { !m.Heard? && m.command == id }

  /** The current lease of a row: granted at `g`, in force until its deadline or given up. */
  ghost predicate LeaseTimed(marks: set<Mark>, c: Command, p: Option<Progress>, g: Time) {
    && c.lease.Some? && Granted(c.id, c.attempts, g) in marks
    && (forall k: nat, at: Time {:trigger Sign(marks, c.id, k, at)} :: Sign(marks, c.id, k, at) ==>
          && k <= c.attempts
          && (at < g || (k == c.attempts && (at + 30_000 <= c.lease.value || Given(marks, c.id, k, at)))))
    && (forall q: nat, at: Time {:trigger Renewed(c.id, c.attempts, q, at)} ::
          Renewed(c.id, c.attempts, q, at) in marks ==>
          || Given(marks, c.id, c.attempts, at)
          || (p.Some? && p.value.command == Some(c.id) && p.value.attempt == c.attempts && q <= p.value.sequence))
  }

  /** The lease was given up at that time or later. */
  ghost predicate Given(marks: set<Mark>, id: Id, k: nat, at: Time) {
    exists u: Time :: at <= u && Unsure(id, k, u) in marks
  }

  ghost predicate RowTimed(marks: set<Mark>, s: Tables, o: Id)
    requires o in s.commands
  {
    var c := s.commands[o];
    && (c.status == Pending ==> forall m :: m in marks ==> !About(m, c.id))
    && (c.status == Leased ==> o in s.operations && exists g :: LeaseTimed(marks, c, s.operations[o].progress, g))
  }

  ghost predicate Timed(marks: set<Mark>, w: World) {
    && Listens(marks, w.tables)
    && (forall m :: m in marks ==> m.at <= w.clock && (!m.Heard? ==> !NeverIssued(w.log, m.command)))
    && (forall o {:trigger RowTimed(marks, w.tables, o)} :: o in w.tables.commands ==> RowTimed(marks, w.tables, o))
    && GrantsApart(marks) && SequencesGrow(marks)
  }

  // --- what a step does to a lease ---

  /** The row and its operation's progress are as they were, and the step says nothing of the command. */
  ghost predicate LeaseKept(more: set<Mark>, s: Tables, t: Tables, o: Id)
    requires o in t.commands
  {
    && o in s.commands && t.commands[o] == s.commands[o]
    && o in s.operations && o in t.operations && t.operations[o].progress == s.operations[o].progress
    && forall m :: m in more ==> !About(m, t.commands[o].id)
  }

  ghost predicate LeaseGranted(more: set<Mark>, s: Tables, t: Tables, o: Id, now: Time)
    requires o in t.commands
  {
    && o in s.commands && o in s.operations && o in t.operations
    && var c, d := s.commands[o], t.commands[o];
    && d.id == c.id && d.attempts == c.attempts + 1 && d.status == Leased && d.lease == Some(now + 30_000)
    && (c.status == Pending || (c.status == Leased && c.lease.Some? && c.lease.value < now))
    && more == {Granted(d.id, d.attempts, now)}
  }

  ghost predicate LeaseRenewed(more: set<Mark>, s: Tables, t: Tables, o: Id, now: Time)
    requires o in t.commands
  {
    && o in s.commands && o in s.operations && o in t.operations
    && var c, d := s.commands[o], t.commands[o];
    && c.status == Leased && d == c.(lease := Some(now + 30_000))
    && var p, q := s.operations[o].progress, t.operations[o].progress;
    && q.Some? && q.value.command == Some(d.id) && q.value.attempt == d.attempts
    && (p.Some? && p.value.command == Some(d.id) && p.value.attempt == d.attempts ==>
          p.value.sequence < q.value.sequence)
    && (forall m :: m in more && About(m, d.id) <==> m == Renewed(d.id, d.attempts, q.value.sequence, now))
    && (forall m :: m in more && !m.Heard? ==> About(m, d.id))
  }

  ghost predicate LeaseGivenUp(more: set<Mark>, s: Tables, t: Tables, o: Id, now: Time)
    requires o in t.commands
  {
    && o in s.commands && o in s.operations && o in t.operations
    && s.commands[o].status == Leased && t.commands[o] == s.commands[o].(lease := Some(now))
    && more == {Unsure(t.commands[o].id, t.commands[o].attempts, now)}
  }

  ghost predicate LeaseMoves(more: set<Mark>, s: Tables, t: Tables, o: Id, now: Time)
    requires o in t.commands
  {
    || t.commands[o].status !in {Pending, Leased}
    || LeaseKept(more, s, t, o) || LeaseGranted(more, s, t, o, now) || LeaseRenewed(more, s, t, o, now)
    || LeaseGivenUp(more, s, t, o, now)
  }

  /** A waiting row that no step before could have spoken of. */
  ghost predicate LeaseBorn(more: set<Mark>, log: Log, t: Tables, o: Id)
    requires o in t.commands
  {
    && t.commands[o].status == Pending && NeverIssued(log, t.commands[o].id)
    && forall m :: m in more ==> !About(m, t.commands[o].id)
  }

  lemma OtherIds(s: Tables, o: Id, p: Id)
    requires DistinctIds(s) && o in s.commands && p in s.commands && s.commands[o].id == s.commands[p].id
    ensures o == p
  {
    assert HasId(s, o, s.commands[o].id) && HasId(s, p, s.commands[o].id);
  }

  /** A claim that delivers a grant leases one row and writes no operation. */
  lemma ClaimGrants(s: Tables, n: Id, session: Session, routing: bool, artifact: Option<string>, pick: Option<Id>,
      now: Time)
    requires NextCommand(s, n, pick, now)
    ensures var tx := Claim(s, n, session, routing, artifact, pick, now);
            tx.reply.Ok? && tx.reply.value.Some? ==>
              && pick.Some? && pick.value in s.commands && tx.tables.operations == s.operations
              && var c := s.commands[pick.value];
              && (c.status == Pending || (c.status == Leased && c.lease.Some? && c.lease.value < now))
              && tx.tables.commands == s.commands[pick.value := c.(status := Leased, attempts := c.attempts + 1,
                                                                   lease := Some(now + 30_000))]
              && tx.reply.value.value.command == c.id && tx.reply.value.value.attempt == c.attempts + 1
  {
  }

  /** A claim that delivers none writes no row but, of a command with its attempts used up, that and its operation's. */
  lemma ClaimDeclines(s: Tables, n: Id, session: Session, routing: bool, artifact: Option<string>, pick: Option<Id>,
      now: Time, o: Id)
    requires NextCommand(s, n, pick, now) && o in s.commands && o in s.operations
    ensures var tx := Claim(s, n, session, routing, artifact, pick, now);
            !(tx.reply.Ok? && tx.reply.value.Some?) ==>
              && o in tx.tables.commands && o in tx.tables.operations
              && (tx.tables.commands[o].status !in {Pending, Leased}
                  || (tx.tables.commands[o] == s.commands[o] && tx.tables.operations[o] == s.operations[o]))
  {
    if n in s.nodes && pick.Some? {
      var s1 := Advertise(s, n, routing, artifact);
      assert s1.commands == s.commands && s1.operations == s.operations;
      assert Exhaust(s1, pick.value, now).commands[pick.value].status == Broken;
    }
  }

  lemma ClaimKeys(s: Tables, n: Id, session: Session, routing: bool, artifact: Option<string>, pick: Option<Id>,
      now: Time)
    requires NextCommand(s, n, pick, now)
    ensures Claim(s, n, session, routing, artifact, pick, now).tables.commands.Keys == s.commands.Keys
  {
  }

  lemma ClaimLeases(w: World, now: Time, step: Step, o: Id)
    requires Inv(w.tables) && Legal(w, now, step) && step.DoClaim? && o in After(w, now, step).commands
    ensures LeaseMoves(MarksOf(w, now, step), w.tables, After(w, now, step), o, now)
  {
    var s := w.tables;
    ClaimKeys(s, step.node, step.session, step.routing, step.artifact, step.pick, now);
    ClaimGrants(s, step.node, step.session, step.routing, step.artifact, step.pick, now);
    ClaimDeclines(s, step.node, step.session, step.routing, step.artifact, step.pick, now, o);
    if step.pick.Some? && s.commands[o].id == s.commands[step.pick.value].id { OtherIds(s, o, step.pick.value); }
  }

  lemma ProgressLeases(w: World, now: Time, step: Step, o: Id)
    requires Inv(w.tables) && Legal(w, now, step) && step.DoProgress? && o in After(w, now, step).commands
    ensures LeaseMoves(MarksOf(w, now, step), w.tables, After(w, now, step), o, now)
  {
    var s, t, n, m := w.tables, After(w, now, step), step.node, step.evidence;
    assert o in s.operations;
    if RecordProgress(s, n, m, step.sequence, step.phase, step.percent, now).reply.Ok? {
      assert Row(s, n, m.command, m.operation);
      if t.commands[o].id == m.command { OtherIds(s, o, m.operation); }
    }
  }

  lemma HeartbeatLeases(w: World, now: Time, step: Step, o: Id)
    requires Inv(w.tables) && Legal(w, now, step) && step.DoHeartbeat? && o in After(w, now, step).commands
    ensures LeaseMoves(MarksOf(w, now, step), w.tables, After(w, now, step), o, now)
            || LeaseBorn(MarksOf(w, now, step), w.log, After(w, now, step), o)
  {
    var s, n := w.tables, step.node;
    if n in s.nodes && !s.nodes[n].revoked && !SessionRefused(s, n, step.session, now) {
      var t := Connect(s, n, step.session, step.reissue, now);
      ReportAllFrame(t, n, step.runtimes, now);
      ConnectLeases(s, n, step.session, step.reissue, now, o);
    }
  }

  /** A takeover leaves alone what is not of the node's epoch, and leases nothing. */
  lemma ConnectLeases(s: Tables, n: Id, session: Session, reissue: map<Id, Id>, now: Time, o: Id)
    requires Inv(s) && n in s.nodes && s.commands.Keys <= reissue.Keys
    ensures var t := Connect(s, n, session, reissue, now);
            o in t.commands ==>
              && o in s.commands && o in s.operations && o in t.operations
              && (t.commands[o].status !in {Pending, Leased}
                  || (t.commands[o] == s.commands[o] && t.operations[o].progress == s.operations[o].progress)
                  || (t.commands[o].status == Pending && t.commands[o].id == reissue[o]))
  {
    if o in s.commands { assert Sound(s, o); }
  }

  lemma ResultLeases(w: World, now: Time, step: Step, o: Id)
    requires Inv(w.tables) && Legal(w, now, step) && step.DoResult? && o in After(w, now, step).commands
    ensures LeaseMoves(MarksOf(w, now, step), w.tables, After(w, now, step), o, now)
  {
    var s, t, n, m := w.tables, After(w, now, step), step.node, step.evidence;
    if MarksOf(w, now, step) != {} {
      UnsureWrites(s, n, m, step.state, now);
      ResultFenceIsLeased(s, n, m.operation, m);
      AcceptedLeases(s, n, m.operation, m, OutcomeUnknown, step.state, now, o);
      if s.commands[o].id == m.command { OtherIds(s, o, m.operation); }
    } else if t != s {
      ResultShape(s, n, m, step.outcome, step.state, now);
      AcceptedLeases(s, n, m.operation, m, step.outcome, step.state, now, o);
    }
  }

  /** An unknown result that is not refused writes to the rows. */
  lemma UnsureWrites(s: Tables, n: Id, m: Evidence, state: string, now: Time)
    requires Inv(s) && m.attempt >= 1 && RecordResult(s, n, m, OutcomeUnknown, state, now).reply.Ok?
    ensures Row(s, n, m.command, m.operation) && ResultFence(s, n, m.operation, m)
    ensures RecordResult(s, n, m, OutcomeUnknown, state, now).tables
            == AcceptResult(s, n, m.operation, m, OutcomeUnknown, state, now)
  {
    var o :| Row(s, n, m.command, o);
    ResultFenceIsLeased(s, n, m.operation, m);
  }

  lemma AcceptedLeases(s: Tables, n: Id, p: Id, m: Evidence, outcome: Outcome, state: string, now: Time, o: Id)
    requires Inv(s) && Row(s, n, m.command, p) && ResultFence(s, n, p, m)
    ensures var t := AcceptResult(s, n, p, m, outcome, state, now);
            o in t.commands ==>
              && o in s.commands && o in s.operations && o in t.operations
              && if outcome == OutcomeUnknown && o == p then t.commands[o] == s.commands[o].(lease := Some(now))
                 else t.commands[o].status !in {Pending, Leased}
                      || (t.commands[o] == s.commands[o] && t.operations[o].progress == s.operations[o].progress)
  {
  }

  /** The row is closed, or it and its operation's progress are as they were. */
  predicate ClosedOrKept(s: Tables, t: Tables, o: Id)
    requires o in t.commands
  {
    || t.commands[o].status !in {Pending, Leased}
    || (o in s.commands && o in s.operations && o in t.operations
        && t.commands[o] == s.commands[o] && t.operations[o].progress == s.operations[o].progress)
  }

  lemma SupersedeLeases(s: Tables, e: Id, now: Time, o: Id)
    requires Inv(s) && o in Supersede(s, e, now).commands
    ensures ClosedOrKept(s, Supersede(s, e, now), o)
  {
    assert Sound(s, o);
  }

  lemma MutateLeases(s: Tables, m: Mutation, newId: Id, now: Time, o: Id)
    requires Inv(s) && newId !in s.operations && o in Mutate(s, m, newId, now).tables.commands
    ensures ClosedOrKept(s, Mutate(s, m, newId, now).tables, o)
  {
    assert o in s.commands && o in s.operations;
    if m.action == ForceRestart { SupersedeLeases(s, m.endpoint, now, o); }
  }

  lemma ExpireLeases(s: Tables, e: Id, action: Action, newId: Id, now: Time, o: Id)
    requires Inv(s) && newId !in s.operations && (action == Stop || action == Delete)
    requires o in Expire(s, e, action, newId, now).tables.commands
    ensures ClosedOrKept(s, Expire(s, e, action, newId, now).tables, o)
  {
    assert o in s.commands && o in s.operations;
    SupersedeLeases(s, e, now, o);
  }

  lemma SettleLeases(s: Tables, p: Id, commandId: Id, now: Time, o: Id)
    requires Inv(s) && Visible(s, p, now) && o in Process(s, Some(p), commandId, now).tables.commands
    requires PickIsWired(s, Some(p))
    ensures var t := Process(s, Some(p), commandId, now).tables;
            ClosedOrKept(s, t, o) || (t.commands[o].status == Pending && t.commands[o].id == commandId)
  {
    ProcessSettles(s, p, commandId, now);
    SettleMoves(s, p, commandId, now, o);
    if o in s.commands { assert o in s.operations && o != p; }
  }

  lemma StepLeases(w: World, now: Time, step: Step, o: Id)
    requires Inv(w.tables) && Legal(w, now, step) && o in After(w, now, step).commands
    ensures var more, t := MarksOf(w, now, step), After(w, now, step);
            LeaseMoves(more, w.tables, t, o, now) || LeaseBorn(more, w.log, t, o)
  {
    if ByAgent(step) { AgentLeases(w, now, step, o); } else { OtherLeases(w, now, step, o); }
  }

  lemma AgentLeases(w: World, now: Time, step: Step, o: Id)
    requires Inv(w.tables) && Legal(w, now, step) && o in After(w, now, step).commands && ByAgent(step)
    ensures var more, t := MarksOf(w, now, step), After(w, now, step);
            LeaseMoves(more, w.tables, t, o, now) || LeaseBorn(more, w.log, t, o)
  {
    if step.DoClaim? { ClaimLeases(w, now, step, o); }
    else if step.DoProgress? { ProgressLeases(w, now, step, o); }
    else if step.DoHeartbeat? { HeartbeatLeases(w, now, step, o); }
    else { ResultLeases(w, now, step, o); }
  }

  /** The other steps say nothing of any command. */
  lemma OtherLeases(w: World, now: Time, step: Step, o: Id)
    requires Inv(w.tables) && Legal(w, now, step) && o in After(w, now, step).commands && !ByAgent(step)
    ensures var more, t := MarksOf(w, now, step), After(w, now, step);
            LeaseMoves(more, w.tables, t, o, now) || LeaseBorn(more, w.log, t, o)
  {
    var s := w.tables;
    if step.DoMutate? { MutateLeases(s, step.mutation, step.newId, now, o); }
    else if step.DoExpire? { ExpireLeases(s, step.endpoint, step.action, step.newId, now, o); }
    else if step.DoProcess? && step.pick.Some? { SettleLeases(s, step.pick.value, step.commandId, now, o); }
    else { QuietLeases(w, now, step, o); }
  }

  lemma QuietLeases(w: World, now: Time, step: Step, o: Id)
    requires Inv(w.tables) && Legal(w, now, step) && o in After(w, now, step).commands && !ByAgent(step)
    requires !step.DoMutate? && !step.DoExpire? && !(step.DoProcess? && step.pick.Some?)
    ensures ClosedOrKept(w.tables, After(w, now, step), o)
  {
    assert o in w.tables.operations;
  }

  // --- the marks of a step name issued commands ---

  lemma MarksAreIssued(w: World, now: Time, step: Step, m: Mark)
    requires WorldInv(w) && Legal(w, now, step) && m in MarksOf(w, now, step)
    ensures m.at == now && (!m.Heard? ==> !NeverIssued(w.log, m.command))
  {
    var s := w.tables;
    match step
    case DoClaim(n, session, routing, artifact, pick) =>
      ClaimGrants(s, n, session, routing, artifact, pick, now);
      RowIsIssued(w, pick.value);
    case DoProgress(n, e, _, _, _) =>
      assert Row(s, n, e.command, e.operation);
      RowIsIssued(w, e.operation);
    case DoResult(n, e, _, state) =>
      UnsureWrites(s, n, e, state, now);
      RowIsIssued(w, e.operation);
    case _ =>
  }

  lemma RowIsIssued(w: World, o: Id)
    requires Issued(w) && o in w.tables.commands
    ensures !NeverIssued(w.log, w.tables.commands[o].id)
  {
    assert IssuedAt(w, o);
  }

  // --- every step keeps the times ---

  lemma SignsAre(marks: set<Mark>, more: set<Mark>, id: Id, k: nat, at: Time)
    requires forall m :: m in more ==> !About(m, id)
    ensures Sign(marks + more, id, k, at) <==> Sign(marks, id, k, at)
  {
    assert !About(Granted(id, k, at), id) || Granted(id, k, at) !in more;
    forall q: nat ensures Renewed(id, k, q, at) !in more { assert About(Renewed(id, k, q, at), id); }
  }

  lemma KeptTimed(marks: set<Mark>, more: set<Mark>, s: Tables, t: Tables, o: Id)
    requires o in t.commands && LeaseKept(more, s, t, o) && RowTimed(marks, s, o)
    ensures RowTimed(marks + more, t, o)
  {
    var c := s.commands[o];
    if c.status == Leased {
      var g :| LeaseTimed(marks, c, s.operations[o].progress, g);
      forall k: nat, at: Time | Sign(marks + more, c.id, k, at) ensures Sign(marks, c.id, k, at) {
        SignsAre(marks, more, c.id, k, at);
      }
      forall q: nat, at: Time | Renewed(c.id, c.attempts, q, at) in marks + more
        ensures Renewed(c.id, c.attempts, q, at) in marks
      {
        assert About(Renewed(c.id, c.attempts, q, at), c.id);
      }
      assert forall k, at :: Given(marks, c.id, k, at) ==> Given(marks + more, c.id, k, at);
      assert LeaseTimed(marks + more, c, t.operations[o].progress, g);
    }
  }

  lemma BornTimed(marks: set<Mark>, more: set<Mark>, log: Log, t: Tables, o: Id)
    requires o in t.commands && LeaseBorn(more, log, t, o)
    requires forall m :: m in marks && !m.Heard? ==> !NeverIssued(log, m.command)
    ensures RowTimed(marks + more, t, o)
  {
  }

  lemma GrantedTimed(marks: set<Mark>, more: set<Mark>, s: Tables, t: Tables, o: Id, clock: Time, now: Time)
    requires o in t.commands && LeaseGranted(more, s, t, o, now) && RowTimed(marks, s, o)
    requires clock < now && forall m :: m in marks ==> m.at <= clock
    ensures RowTimed(marks + more, t, o)
  {
    var c, d := s.commands[o], t.commands[o];
    forall k: nat, at: Time | Sign(marks + more, d.id, k, at)
      ensures k <= d.attempts && (at < now || (k == d.attempts && at == now))
    {
      if !(k == d.attempts && at == now) {
        assert Sign(marks, c.id, k, at);
        OlderSign(marks, s, o, k, at);
      }
    }
    forall q: nat, at: Time | Renewed(d.id, d.attempts, q, at) in marks + more ensures false {
      assert Sign(marks, c.id, d.attempts, at);
      OlderSign(marks, s, o, d.attempts, at);
    }
    assert LeaseTimed(marks + more, d, t.operations[o].progress, now);
  }

  /** The signs of an open row are under attempts it has had. */
  lemma OlderSign(marks: set<Mark>, s: Tables, o: Id, k: nat, at: Time)
    requires o in s.commands && RowTimed(marks, s, o) && Sign(marks, s.commands[o].id, k, at)
    requires s.commands[o].status in {Pending, Leased}
    ensures s.commands[o].status == Leased && k <= s.commands[o].attempts
    ensures exists m :: m in marks && About(m, s.commands[o].id) && m.at == at
  {
    var id := s.commands[o].id;
    if Granted(id, k, at) in marks {
      assert About(Granted(id, k, at), id);
    } else {
      var q: nat :| Renewed(id, k, q, at) in marks;
      assert About(Renewed(id, k, q, at), id);
    }
  }

  lemma RenewedTimed(marks: set<Mark>, more: set<Mark>, s: Tables, t: Tables, o: Id, clock: Time, now: Time)
    requires o in t.commands && LeaseRenewed(more, s, t, o, now) && RowTimed(marks, s, o)
    requires clock < now && forall m :: m in marks ==> m.at <= clock
    ensures RowTimed(marks + more, t, o)
  {
    var c, d := s.commands[o], t.commands[o];
    var g :| LeaseTimed(marks, c, s.operations[o].progress, g);
    var sequence := t.operations[o].progress.value.sequence;
    forall k: nat, at: Time | Sign(marks + more, d.id, k, at)
      ensures k <= d.attempts && at <= now && (at < g || k == d.attempts)
    {
      if at == now && k == d.attempts {
      } else {
        NewSign(marks, more, d.id, d.attempts, sequence, now, k, at);
        OlderSign(marks, s, o, k, at);
      }
    }
    forall q: nat, at: Time | Renewed(d.id, d.attempts, q, at) in marks + more
      ensures Given(marks + more, d.id, d.attempts, at) || q <= sequence
    {
      assert About(Renewed(d.id, d.attempts, q, at), d.id);
      if Renewed(d.id, d.attempts, q, at) in marks && Given(marks, d.id, d.attempts, at) {
        assert Given(marks + more, d.id, d.attempts, at);
      }
    }
    assert LeaseTimed(marks + more, d, t.operations[o].progress, g);
  }

  lemma NewSign(marks: set<Mark>, more: set<Mark>, id: Id, attempts: nat, q: nat, now: Time, k: nat, at: Time)
    requires forall m :: m in more && About(m, id) <==> m == Renewed(id, attempts, q, now)
    requires Sign(marks + more, id, k, at) && !(at == now && k == attempts)
    ensures Sign(marks, id, k, at)
  {
    if Granted(id, k, at) in marks + more {
      assert About(Granted(id, k, at), id);
    } else {
      var r: nat :| Renewed(id, k, r, at) in marks + more;
      assert About(Renewed(id, k, r, at), id);
    }
  }

  lemma GivenUpTimed(marks: set<Mark>, more: set<Mark>, s: Tables, t: Tables, o: Id, clock: Time, now: Time)
    requires o in t.commands && LeaseGivenUp(more, s, t, o, now) && RowTimed(marks, s, o)
    requires clock < now && forall m :: m in marks ==> m.at <= clock
    ensures RowTimed(marks + more, t, o)
  {
    var c, d := s.commands[o], t.commands[o];
    var g :| LeaseTimed(marks, c, s.operations[o].progress, g);
    forall k: nat, at: Time | Sign(marks + more, d.id, k, at)
      ensures k <= d.attempts && (at < g || (k == d.attempts && Given(marks + more, d.id, k, at)))
    {
      assert Sign(marks, c.id, k, at);
      OlderSign(marks, s, o, k, at);
      assert Unsure(d.id, d.attempts, now) in marks + more;
    }
    forall q: nat, at: Time | Renewed(d.id, d.attempts, q, at) in marks + more
      ensures Given(marks + more, d.id, d.attempts, at)
    {
      assert Unsure(d.id, d.attempts, now) in marks + more;
    }
    assert LeaseTimed(marks + more, d, t.operations[o].progress, g);
  }

  lemma OldSign(marks: set<Mark>, more: set<Mark>, now: Time, id: Id, k: nat, at: Time)
    requires Sign(marks + more, id, k, at) && at < now && forall m :: m in more ==> m.at == now
    ensures Sign(marks, id, k, at)
  {
    if Granted(id, k, at) !in marks + more {
      var q: nat :| Renewed(id, k, q, at) in marks + more;
    }
  }

  lemma WithinMore(marks: set<Mark>, more: set<Mark>, id: Id, k: nat, from: Time, to: Time, later: Time)
    requires UnsureWithin(marks, id, k, from, to) && to <= later
    ensures UnsureWithin(marks + more, id, k, from, later)
  {
    var u: Time :| from <= u <= to && Unsure(id, k, u) in marks;
    assert Unsure(id, k, u) in marks + more;
  }

  /** A grant comes after the signs of the row it leases. */
  lemma NewGrantApart(marks: set<Mark>, more: set<Mark>, s: Tables, t: Tables, o: Id, clock: Time, now: Time,
      k: nat, at: Time)
    requires o in t.commands && LeaseGranted(more, s, t, o, now) && RowTimed(marks, s, o) && GrantsApart(marks)
    requires clock < now && forall m :: m in marks ==> m.at <= clock
    ensures Apart(marks + more, t.commands[o].id, k, at, now)
  {
    var c := s.commands[o];
    if Sign(marks + more, c.id, k, at) && at < now {
      OldSign(marks, more, now, c.id, k, at);
      OlderSign(marks, s, o, k, at);
      var g :| LeaseTimed(marks, c, s.operations[o].progress, g);
      if at < g {
        assert Apart(marks, c.id, k, at, g) && Granted(c.id, c.attempts, g) in marks;
        if !(at + 30_000 < g) { WithinMore(marks, more, c.id, k, at, g, now); }
      } else if Given(marks, c.id, k, at) {
        var u: Time :| at <= u && Unsure(c.id, k, u) in marks;
        assert Unsure(c.id, k, u) in marks + more;
      }
    }
  }

  lemma OldGrantApart(marks: set<Mark>, more: set<Mark>, clock: Time, now: Time, id: Id, k: nat, k': nat, at: Time,
      at': Time)
    requires GrantsApart(marks) && Granted(id, k', at') in marks
    requires clock < now && (forall m :: m in marks ==> m.at <= clock) && (forall m :: m in more ==> m.at == now)
    ensures Apart(marks + more, id, k, at, at')
  {
    if Sign(marks + more, id, k, at) && at < at' {
      OldSign(marks, more, now, id, k, at);
      assert Apart(marks, id, k, at, at');
      if !(at + 30_000 < at') { WithinMore(marks, more, id, k, at, at', at'); }
    }
  }

  /** The row that a step's mark of a grant or of progress speaks of. */
  lemma MarkedRow(w: World, now: Time, step: Step, m: Mark) returns (o: Id)
    requires Inv(w.tables) && Legal(w, now, step) && m in MarksOf(w, now, step) && (m.Granted? || m.Renewed?)
    ensures o in w.tables.commands && o in After(w, now, step).commands
            && After(w, now, step).commands[o].id == m.command
    ensures After(w, now, step).commands[o].status == Leased
    ensures m.Granted? ==> LeaseGranted(MarksOf(w, now, step), w.tables, After(w, now, step), o, now)
    ensures m.Renewed? ==> LeaseRenewed(MarksOf(w, now, step), w.tables, After(w, now, step), o, now)
  {
    var s := w.tables;
    if m.Granted? {
      ClaimGrants(s, step.node, step.session, step.routing, step.artifact, step.pick, now);
      o := step.pick.value;
      ClaimLeases(w, now, step, o);
    } else {
      o := step.evidence.operation;
      assert Row(s, step.node, step.evidence.command, o);
      ProgressLeases(w, now, step, o);
    }
  }

  lemma GrantsStep(marks: set<Mark>, w: World, now: Time, step: Step)
    requires Inv(w.tables) && Timed(marks, w) && Legal(w, now, step)
    requires forall m :: m in MarksOf(w, now, step) ==> m.at == now
    ensures GrantsApart(marks + MarksOf(w, now, step))
  {
    var more := MarksOf(w, now, step);
    forall id: Id, k: nat, k': nat, at: Time, at': Time | Granted(id, k', at') in marks + more
      ensures Apart(marks + more, id, k, at, at')
    {
      if Granted(id, k', at') in marks {
        OldGrantApart(marks, more, w.clock, now, id, k, k', at, at');
      } else {
        var o := MarkedRow(w, now, step, Granted(id, k', at'));
        assert RowTimed(marks, w.tables, o);
        NewGrantApart(marks, more, w.tables, After(w, now, step), o, w.clock, now, k, at);
      }
    }
  }

  lemma NewInSequence(marks: set<Mark>, more: set<Mark>, s: Tables, t: Tables, o: Id, clock: Time, now: Time,
      id: Id, k: nat, q: nat, at: Time, q': nat)
    requires o in t.commands && LeaseRenewed(more, s, t, o, now) && RowTimed(marks, s, o)
    requires clock < now && forall m :: m in marks ==> m.at <= clock
    requires Renewed(id, k, q, at) in marks && Renewed(id, k, q', now) in more && t.commands[o].id == id
    ensures q < q' || UnsureWithin(marks + more, id, k, at, now)
  {
    var c := s.commands[o];
    var g :| LeaseTimed(marks, c, s.operations[o].progress, g);
    assert About(Renewed(id, k, q', now), id);
    if Given(marks, c.id, c.attempts, at) {
      var u: Time :| at <= u && Unsure(c.id, c.attempts, u) in marks;
      assert Unsure(c.id, c.attempts, u) in marks + more;
    }
  }

  lemma SequencesStep(marks: set<Mark>, w: World, now: Time, step: Step)
    requires Inv(w.tables) && Timed(marks, w) && Legal(w, now, step)
    requires forall m :: m in MarksOf(w, now, step) ==> m.at == now
    ensures SequencesGrow(marks + MarksOf(w, now, step))
  {
    var more := MarksOf(w, now, step);
    forall id: Id, k: nat, q: nat, at: Time, q': nat, at': Time
      ensures InSequence(marks + more, id, k, q, at, q', at')
    {
      var x, y := Renewed(id, k, q, at), Renewed(id, k, q', at');
      if x in marks + more && y in marks + more && at < at' {
        assert x in marks;
        if y in marks {
          assert InSequence(marks, id, k, q, at, q', at');
          if !(q < q') { WithinMore(marks, more, id, k, at, at', at'); }
        } else {
          var o := MarkedRow(w, now, step, y);
          assert RowTimed(marks, w.tables, o);
          NewInSequence(marks, more, w.tables, After(w, now, step), o, w.clock, now, id, k, q, at, q');
        }
      }
    }
  }

  lemma RowStep(marks: set<Mark>, w: World, now: Time, step: Step, o: Id)
    requires WorldInv(w) && Timed(marks, w) && Legal(w, now, step) && o in After(w, now, step).commands
    ensures RowTimed(marks + MarksOf(w, now, step), After(w, now, step), o)
  {
    var s, t, more := w.tables, After(w, now, step), MarksOf(w, now, step);
    StepLeases(w, now, step, o);
    if t.commands[o].status in {Pending, Leased} {
      if LeaseBorn(more, w.log, t, o) {
        BornTimed(marks, more, w.log, t, o);
      } else {
        assert RowTimed(marks, s, o);
        if LeaseKept(more, s, t, o) { KeptTimed(marks, more, s, t, o); }
        else if LeaseGranted(more, s, t, o, now) { GrantedTimed(marks, more, s, t, o, w.clock, now); }
        else if LeaseRenewed(more, s, t, o, now) { RenewedTimed(marks, more, s, t, o, w.clock, now); }
        else { GivenUpTimed(marks, more, s, t, o, w.clock, now); }
      }
    }
  }

  lemma TimedStep(marks: set<Mark>, w: World, now: Time, step: Step)
    requires WorldInv(w) && Timed(marks, w) && Legal(w, now, step)
    ensures Timed(marks + MarksOf(w, now, step), Next(w, now, step))
  {
    var more, v := MarksOf(w, now, step), Next(w, now, step);
    forall m | m in more ensures m.at == now && (!m.Heard? ==> !NeverIssued(w.log, m.command)) {
      MarksAreIssued(w, now, step, m);
    }
    LogIssues(w, now, step);
    StepNodes(w, now, step);
    ListensStep(marks, more, w.tables, v.tables, w.clock, now);
    forall o | o in v.tables.commands ensures RowTimed(marks + more, v.tables, o) { RowStep(marks, w, now, step, o); }
    GrantsStep(marks, w, now, step);
    SequencesStep(marks, w, now, step);
  }

  lemma {:induction false} RunTimed(marks: set<Mark>, w: World, run: seq<Event>)
    requires WorldInv(w) && Timed(marks, w) && LegalRun(w, run)
    ensures WorldInv(Final(w, run)) && Timed(marks + Marks(w, run), Final(w, run))
    decreases |run|
  {
    if run == [] {
      assert marks + {} == marks;
    } else {
      var now, step := run[0].now, run[0].step;
      StepKeepsWorld(w, now, step);
      TimedStep(marks, w, now, step);
      RunTimed(marks + MarksOf(w, now, step), Next(w, now, step), run[1..]);
      assert marks + MarksOf(w, now, step) + Marks(Next(w, now, step), run[1..]) == marks + Marks(w, run);
    }
  }

  lemma MarksAreTimed(run: seq<Event>)
    requires LegalRun(EMPTY, run)
    ensures WorldInv(Final(EMPTY, run)) && Timed(Marks(EMPTY, run), Final(EMPTY, run))
  {
    EmptyWorld();
    RunTimed({}, EMPTY, run);
    assert {} + Marks(EMPTY, run) == Marks(EMPTY, run);
  }
}
