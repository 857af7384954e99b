/** What agents tell the control plane, and what they did: outcomes over whole runs, and uninterrupted polls. */
module PollOutcomes {
  import opened Wrappers
  import opened Journal
  import opened ControlPlane
  import opened ControlPlaneRuns
  import opened ControlPlaneHistory
  import opened ControlPlaneSafety
  import opened EndToEnd

  // --- what was done in a run ---

  /** A command's runtime call gave a state, or its failure was written to the node's journal. */
  datatype Deed = Performance(node: Id, command: Id, state: string) | Failure(node: Id, command: Id)

  /** Whether a journal write of an agent leaves the record on disk. */
  predicate Reaches(a: Agent, write: Write) { !a.poisoned && write != Lost(false) }

  ghost function DeedsOf(s: System, move: Move): set<Deed>
    requires LegalMove(s, move)
  {
    match move
    case Perform(n, state) => {Performance(n, s.agents[n].poll.value.granted.command, state)}
    case RecordFailure(n, _, write) =>
      if Reaches(s.agents[n], write) then {Failure(n, s.agents[n].poll.value.granted.command)} else {}
    case _ => {}
  }

  ghost function Deeds(s: System, run: seq<Move>): set<Deed>
    requires LegalMoves(s, run)
    decreases |run|
  {
    if run == [] then {} else DeedsOf(s, run[0]) + Deeds(AfterMove(s, run[0]), run[1..])
  }

  // --- what the journals tell of it ---

  ghost predicate EntryTells(deeds: set<Deed>, n: Id, id: Id, e: Entry<Id, Data>) {
    && (Failure(n, id) in deeds <==> e.result.Some? && RULES.failed(e.result.value))
    && (forall k :: k in e.effects ==> e.effects[k].EffectData? && Performance(n, id, e.effects[k].state) in deeds)
    && (e.result.Some? || e.effects != map[] ==> e.receipt.Some?)
    && (e.result.Some? && e.result.value.ResultData? && !e.result.value.report.failed ==>
          id in e.effects && e.effects[id] == EffectData(e.result.value.report.state))
  }

  ghost predicate DiskTells(deeds: set<Deed>, n: Id, entries: Entries) {
    forall id {:trigger EntryOf(entries, id)} :: EntryTells(deeds, n, id, EntryOf(entries, id))
  }

  ghost predicate StageTells(deeds: set<Deed>, n: Id, e: Entry<Id, Data>, id: Id, stage: Stage) {
    && (stage != Claimed ==> e.receipt.Some?)
    && (stage.Performed? ==> Performance(n, id, stage.state) in deeds)
    && (stage.Recorded? ==> id in e.effects && e.effects[id] == EffectData(stage.state))
  }

  ghost predicate AgentTells(deeds: set<Deed>, n: Id, a: Agent) {
    && DiskTells(deeds, n, a.durable)
    && (a.poll.Some? ==>
          var id := a.poll.value.granted.command;
          StageTells(deeds, n, JournalOf(a, id), id, a.poll.value.stage))
  }

  ghost predicate Tells(deeds: set<Deed>, s: System) {
    && (forall n {:trigger s.agents[n]} :: n in s.agents ==> AgentTells(deeds, n, s.agents[n]))
    && (forall d :: d in deeds ==> d.node in s.agents)
  }

  // --- every move keeps that ---

  /** Another node's deeds change nothing in what a node's journal tells. */
  lemma OthersDeeds(deeds: set<Deed>, more: set<Deed>, n: Id, a: Agent)
    requires AgentTells(deeds, n, a) && forall d :: d in more ==> d.node != n
    ensures AgentTells(deeds + more, n, a)
  {
    forall id ensures EntryTells(deeds + more, n, id, EntryOf(a.durable, id)) {
      assert EntryTells(deeds, n, id, EntryOf(a.durable, id));
    }
  }

  lemma RecordingTells(deeds: set<Deed>, log: Log, n: Id, a: Agent, ev: Journal.Event<Id, Data>, write: Write,
      next: Stage)
    requires AgentInv(log, n, a) && AgentTells(deeds, n, a) && a.poll.Some? && ev.id == a.poll.value.granted.command
    requires var e := JournalOf(a, ev.id);
             && (!ev.ReceiptEvent? ==> e.receipt.Some?)
             && (ev.EffectEvent? ==> ev.data.EffectData? && ev.effect == ev.id && ev.effect !in e.effects
                                     && Performance(n, ev.id, ev.data.state) in deeds)
             && (ev.ResultEvent? ==> ev.data.ResultData? && e.result.None?
                                     && (ev.data.report.failed
                                         || (ev.id in e.effects
                                             && e.effects[ev.id] == EffectData(ev.data.report.state))))
             && (next.Performed? ==> false) && (next.Recorded? ==> ev.EffectEvent? && ev.data == EffectData(next.state))
    ensures var more := if ev.ResultEvent? && ev.data.report.failed && Reaches(a, write) then {Failure(n, ev.id)}
            else {};
            AgentTells(deeds + more, n, Append(a, ev, write, next))
  {
    var more := if ev.ResultEvent? && ev.data.report.failed && Reaches(a, write) then {Failure(n, ev.id)} else {};
    var b := Append(a, ev, write, next);
    assert Extends(EntryOf(a.durable, ev.id), EntryOf(a.memory, ev.id));
    forall id ensures EntryTells(deeds + more, n, id, EntryOf(b.durable, id)) {
      assert EntryTells(deeds, n, id, EntryOf(a.durable, id));
      if id != ev.id { assert EntryOf(b.durable, id) == EntryOf(a.durable, id); }
    }
  }

  /** One agent replaced by one whose journal tells of the deeds added, which are its own. */
  lemma ReplacedTells(deeds: set<Deed>, more: set<Deed>, s: System, t: System, n: Id, b: Agent)
    requires Tells(deeds, s) && t.agents == s.agents[n := b]
    requires AgentTells(deeds + more, n, b) && forall d :: d in more ==> d.node == n
    ensures Tells(deeds + more, t)
  {
    forall k | k in t.agents ensures AgentTells(deeds + more, k, t.agents[k]) {
      if k != n {
        assert AgentTells(deeds, k, s.agents[k]);
        OthersDeeds(deeds, more, k, s.agents[k]);
      }
    }
  }

  lemma BootTells(deeds: set<Deed>, s: System, n: Id, session: Session)
    requires Tells(deeds, s)
    ensures Tells(deeds, AfterMove(s, Boot(n, session)))
  {
    var durable := if n in s.agents then s.agents[n].durable else map[];
    if n in s.agents {
      assert AgentTells(deeds, n, s.agents[n]);
    } else {
      assert forall d :: d in deeds ==> d.node != n;
    }
    assert DiskTells(deeds, n, durable);
    assert deeds + {} == deeds;
    ReplacedTells(deeds, {}, s, AfterMove(s, Boot(n, session)), n, Agent(session, durable, durable, false, None));
  }

  lemma ReceiveTells(deeds: set<Deed>, s: System, n: Id, k: nat)
    requires Tells(deeds, s) && LegalMove(s, Receive(n, k))
    ensures Tells(deeds, AfterMove(s, Receive(n, k)))
  {
    assert AgentTells(deeds, n, s.agents[n]);
    assert deeds + {} == deeds;
    var t := AfterMove(s, Receive(n, k));
    ReplacedTells(deeds, {}, s, t, n, t.agents[n]);
  }

  lemma MoveTells(deeds: set<Deed>, s: System, move: Move)
    requires SystemInv(s) && Tells(deeds, s) && LegalMove(s, move)
    ensures Tells(deeds + DeedsOf(s, move), AfterMove(s, move))
  {
    if move.Control? || move.Boot? || move.Receive? {
      assert deeds + DeedsOf(s, move) == deeds;
      if move.Boot? { BootTells(deeds, s, move.node, move.session); }
      if move.Receive? { ReceiveTells(deeds, s, move.node, move.lease); }
    } else {
      var n := move.node;
      assert AgentInv(s.world.log, n, s.agents[n]);
      assert AgentTells(deeds, n, s.agents[n]);
      PollTells(deeds, s, move);
      ReplacedTells(deeds, DeedsOf(s, move), s, AfterMove(s, move), n, AgentAfter(s.agents[n], move));
    }
  }

  lemma PollTells(deeds: set<Deed>, s: System, move: Move)
    requires LegalMove(s, move) && !move.Control? && !move.Boot? && !move.Receive?
    requires AgentInv(s.world.log, move.node, s.agents[move.node]) && AgentTells(deeds, move.node, s.agents[move.node])
    ensures AgentTells(deeds + DeedsOf(s, move), move.node, AgentAfter(s.agents[move.node], move))
  {
    var n := move.node;
    var a := s.agents[n];
    var p := a.poll.value;
    var id := p.granted.command;
    assert Extends(EntryOf(a.durable, id), EntryOf(a.memory, id));
    assert EntryTells(deeds, n, id, EntryOf(a.durable, id));
    match move
    case Acknowledge(_, write) =>
      if JournalOf(a, id).receipt.None? {
        RecordingTells(deeds, s.world.log, n, a, ReceiptEvent(id, ReceiptOf(p.granted)), write, Acknowledged);
      }
    case RecordEffect(_, write) =>
      if a.poisoned || id !in JournalOf(a, id).effects {
        if !a.poisoned {
          RecordingTells(deeds, s.world.log, n, a, EffectEvent(id, id, EffectData(p.stage.state)), write,
                         Recorded(p.stage.state));
        }
      }
    case RecordSuccess(_, write) =>
      if JournalOf(a, id).result.None? {
        var report := ReportOf(p.granted, false, p.stage.state);
        RecordingTells(deeds, s.world.log, n, a, ResultEvent(id, ResultData(report)), write, Decided(report));
      }
    case RecordFailure(_, state, write) =>
      var report := ReportOf(p.granted, true, state);
      RecordingTells(deeds, s.world.log, n, a, ResultEvent(id, ResultData(report)), write, Decided(report));
    case Perform(_, state) =>
      forall k ensures EntryTells(deeds + DeedsOf(s, move), n, k, EntryOf(a.durable, k)) {
        assert EntryTells(deeds, n, k, EntryOf(a.durable, k));
      }
    case Resume(_) => assert deeds + {} == deeds;
    case Abandon(_) => assert deeds + {} == deeds;
    case Answer(_) => assert deeds + {} == deeds;
    case _ =>
  }

  lemma {:induction false} RunTells(deeds: set<Deed>, s: System, run: seq<Move>)
    requires SystemInv(s) && Tells(deeds, s) && LegalMoves(s, run)
    ensures Tells(deeds + Deeds(s, run), AfterMoves(s, run)) && SystemInv(AfterMoves(s, run))
    decreases |run|
  {
    if run == [] {
      assert deeds + {} == deeds;
    } else {
      MoveKeeps(s, run[0]);
      MoveTells(deeds, s, run[0]);
      RunTells(deeds + DeedsOf(s, run[0]), AfterMove(s, run[0]), run[1..]);
      assert deeds + DeedsOf(s, run[0]) + Deeds(AfterMove(s, run[0]), run[1..]) == deeds + Deeds(s, run);
    }
  }

  lemma NothingTells()
    ensures SystemInv(NOTHING) && Tells({}, NOTHING)
  {
    assert LegalRun(EMPTY, []) && Final(EMPTY, []) == EMPTY;
  }

  // --- what is sent ---

  lemma StoredIsEarned(deeds: set<Deed>, s: System, m: Sent)
    requires SystemInv(s) && Tells(deeds, s) && m in s.wire
    ensures var id := m.evidence.command;
            && m.node in s.agents
            && var e := EntryOf(s.agents[m.node].durable, id);
            && e.result.Some? && e.result.value.ResultData?
            && (e.result.value.report.failed <==> Failure(m.node, id) in deeds)
            && m.outcome == (if Failure(m.node, id) in deeds then OutcomeFailed else OutcomeSucceeded)
            && (Failure(m.node, id) !in deeds ==>
                  && id in e.effects && e.effects[id] == EffectData(m.state)
                  && Performance(m.node, id, m.state) in deeds)
  {
    assert SentFrom(s.world.log, s.agents, m);
    assert AgentTells(deeds, m.node, s.agents[m.node]);
    assert EntryTells(deeds, m.node, m.evidence.command, EntryOf(s.agents[m.node].durable, m.evidence.command));
  }

  lemma DeedsTell(run: seq<Move>)
    requires LegalMoves(NOTHING, run)
    ensures SystemInv(AfterMoves(NOTHING, run)) && Tells(Deeds(NOTHING, run), AfterMoves(NOTHING, run))
  {
    NothingTells();
    RunTells({}, NOTHING, run);
    assert {} + Deeds(NOTHING, run) == Deeds(NOTHING, run);
  }

  /**
   A result on the wire says failed exactly if its sender's journal was given a failure of that command, and
   else that it succeeded, with the state its runtime call gave and its journal recorded.
   */
  lemma OutcomesAreEarned(run: seq<Move>, m: Sent)
    requires LegalMoves(NOTHING, run) && m in AfterMoves(NOTHING, run).wire
    ensures var deeds, id := Deeds(NOTHING, run), m.evidence.command;
            && m.node in AfterMoves(NOTHING, run).agents
            && m.outcome == (if Failure(m.node, id) in deeds then OutcomeFailed else OutcomeSucceeded)
            && (m.outcome == OutcomeSucceeded ==>
                  var e := EntryOf(AfterMoves(NOTHING, run).agents[m.node].durable, id);
                  && id in e.effects && e.effects[id] == EffectData(m.state)
                  && Performance(m.node, id, m.state) in deeds)
  {
    DeedsTell(run);
    StoredIsEarned(Deeds(NOTHING, run), AfterMoves(NOTHING, run), m);
  }

  /**
   An operation that a result ends has failed exactly if the node's journal was given a failure of the
   command; if it succeeded, the node's runtime was called for the command and gave the state reported.
   */
  lemma OperationsEndAsDone(run: seq<Move>, now: Time, n: Id, m: Evidence, outcome: Outcome, state: string)
    requires LegalMoves(NOTHING, run)
    requires LegalMove(AfterMoves(NOTHING, run), Control(now, DoResult(n, m, outcome, state)))
    ensures var w, deeds := AfterMoves(NOTHING, run).world, Deeds(NOTHING, run);
            var t := After(w, now, DoResult(n, m, outcome, state));
            t != w.tables ==>
              && m.operation in t.operations
              && t.operations[m.operation].status == (if Failure(n, m.command) in deeds then Failed else Succeeded)
              && (t.operations[m.operation].status == Succeeded ==> Performance(n, m.command, state) in deeds)
  {
    DeedsTell(run);
    var s := AfterMoves(NOTHING, run);
    StoredIsEarned(Deeds(NOTHING, run), s, Sent(n, m, outcome, state));
    assert Happens(s);
    OperationsEndAsJournaled(s, now, n, m, outcome, state);
  }

  /** A process whose journal writes have not failed never calls the runtime for an effect already on disk. */
  lemma EffectsAreNotRepeated(s: System, n: Id, state: string)
    requires Happens(s) && LegalMove(s, Perform(n, state)) && !s.agents[n].poisoned
    ensures var id := s.agents[n].poll.value.granted.command;
            id !in EntryOf(s.agents[n].durable, id).effects && EntryOf(s.agents[n].durable, id).result.None?
  {
    HappensIsSound(s);
    assert AgentInv(s.world.log, n, s.agents[n]);
  }

  // --- polls that nothing interrupts ---

  /** A move of a poll of this node that sends nothing. */
  predicate Quiet(n: Id, move: Move) {
    !move.Control? && !move.Boot? && !move.Receive? && !move.Answer? && move.node == n
  }

  predicate ReadyRun(a: Agent, n: Id, run: seq<Move>)
    decreases |run|
  {
    run == [] || (Quiet(n, run[0]) && Ready(a, run[0]) && ReadyRun(AgentAfter(a, run[0]), n, run[1..]))
  }

  function AgentAfterRun(a: Agent, n: Id, run: seq<Move>): Agent
    requires ReadyRun(a, n, run)
    decreases |run|
  {
    if run == [] then a else AgentAfterRun(AgentAfter(a, run[0]), n, run[1..])
  }

  lemma {:induction false} QuietRun(s: System, n: Id, run: seq<Move>, last: Move)
    requires n in s.agents && ReadyRun(s.agents[n], n, run) && last == Answer(n)
    requires Ready(AgentAfterRun(s.agents[n], n, run), last)
    ensures LegalMoves(s, run + [last])
    ensures var a := AgentAfterRun(s.agents[n], n, run);
            var p := a.poll.value;
            AfterMoves(s, run + [last]).wire == s.wire + {
              Sent(n, EvidenceOf(a.session, p.granted, p.stage.report), OutcomeOf(p.stage.report),
                   p.stage.report.state)}
    decreases |run|
  {
    var moves := run + [last];
    if run == [] {
      assert moves == [last] && moves[1..] == [];
      assert AfterMoves(AfterMove(s, last), []) == AfterMove(s, last);
    } else {
      assert moves[0] == run[0] && moves[1..] == run[1..] + [last];
      QuietRun(AfterMove(s, run[0]), n, run[1..], last);
    }
  }

  /** The agent once it holds a lease. */
  function Holding(a: Agent, g: Grant): Agent { a.(poll := Some(Poll(g, Claimed))) }

  /** How a poll ends that the journal answers, that it continues, and that it knows nothing of. */
  datatype Course = Replay | Continue | Anew(state: string)

  function MovesOf(n: Id, course: Course): seq<Move> {
    match course
    case Replay => [Acknowledge(n, Written), Resume(n)]
    case Continue => [Acknowledge(n, Written), Resume(n), RecordEffect(n, Written), RecordSuccess(n, Written)]
    case Anew(state) =>
      [Acknowledge(n, Written), Perform(n, state), RecordEffect(n, Written), RecordSuccess(n, Written)]
  }

  predicate CourseFits(e: Entry<Id, Data>, id: Id, course: Course) {
    match course
    case Replay => e.result.Some? && e.result.value.ResultData? && e.receipt.Some?
    case Continue => e.result.None? && id in e.effects && e.effects[id].EffectData? && e.receipt.Some?
    case Anew(_) => e.result.None? && id !in e.effects
  }

  function ReportFrom(e: Entry<Id, Data>, g: Grant, course: Course): Report
    requires CourseFits(e, g.command, course)
  {
    match course
    case Replay => e.result.value.report
    case Continue => ReportOf(g, false, e.effects[g.command].state)
    case Anew(state) => ReportOf(g, false, state)
  }

  lemma AcknowledgedAgent(a: Agent, g: Grant, n: Id) returns (b: Agent)
    requires !a.poisoned && a.poll == Some(Poll(g, Claimed))
    ensures Ready(a, Acknowledge(n, Written)) && b == AgentAfter(a, Acknowledge(n, Written))
    ensures b.poll == Some(Poll(g, Acknowledged)) && !b.poisoned && b.session == a.session
    ensures var e, f := JournalOf(a, g.command), JournalOf(b, g.command);
            f == e.(receipt := if e.receipt.Some? then e.receipt else Some(ReceiptOf(g)))
  {
    b := AgentAfter(a, Acknowledge(n, Written));
  }

  lemma FinishedAgent(a: Agent, g: Grant, n: Id, state: string) returns (b: Agent)
    requires !a.poisoned && a.poll == Some(Poll(g, Performed(state)))
    requires var e := JournalOf(a, g.command);
             && e.receipt.Some? && e.result.None? && (g.command in e.effects ==>
                                                        e.effects[g.command] == EffectData(state))
    ensures var run := [RecordEffect(n, Written), RecordSuccess(n, Written)];
            && ReadyRun(a, n, run) && b == AgentAfterRun(a, n, run)
            && b.poll == Some(Poll(g, Decided(ReportOf(g, false, state)))) && b.session == a.session
  {
    var run := [RecordEffect(n, Written), RecordSuccess(n, Written)];
    var c := AgentAfter(a, run[0]);
    assert c.poll == Some(Poll(g, Recorded(state))) && !c.poisoned && c.session == a.session;
    assert JournalOf(c, g.command).receipt.Some? && JournalOf(c, g.command).result.None?;
    assert g.command in JournalOf(c, g.command).effects;
    b := AgentAfter(c, run[1]);
    assert run[1..] == [run[1]] && run[1..][1..] == [];
    assert AgentAfterRun(b, n, []) == b;
    assert AgentAfterRun(c, n, run[1..]) == b;
  }

  lemma HoldingAgentDecides(a: Agent, g: Grant, n: Id, course: Course)
    requires !a.poisoned && CourseFits(JournalOf(a, g.command), g.command, course)
    ensures ReadyRun(Holding(a, g), n, MovesOf(n, course))
    ensures var b := AgentAfterRun(Holding(a, g), n, MovesOf(n, course));
            && b.session == a.session
            && b.poll == Some(Poll(g, Decided(ReportFrom(JournalOf(a, g.command), g, course))))
  {
    var run := MovesOf(n, course);
    var b := AcknowledgedAgent(Holding(a, g), g, n);
    var c := AgentAfter(b, run[1]);
    if course == Replay {
      assert run[1..] == [run[1]] && run[1..][1..] == [];
      assert AgentAfterRun(c, n, []) == c;
    } else {
      var d := FinishedAgent(c, g, n, if course.Anew? then course.state
                             else JournalOf(a, g.command).effects[g.command].state);
      assert run[1..][0] == run[1] && run[1..][1..] == [RecordEffect(n, Written), RecordSuccess(n, Written)];
    }
    assert AgentAfterRun(b, n, run[1..]) == AgentAfterRun(c, n, run[1..][1..]);
  }

  /** A poll takes its course. */
  lemma PollTakes(s: System, n: Id, k: nat, course: Course)
    requires LegalMove(s, Receive(n, k)) && !s.agents[n].poisoned
    requires CourseFits(JournalOf(s.agents[n], s.world.log.leases[k].granted.command),
                        s.world.log.leases[k].granted.command, course)
    ensures var g := s.world.log.leases[k].granted;
            var report := ReportFrom(JournalOf(s.agents[n], g.command), g, course);
            var run := [Receive(n, k)] + MovesOf(n, course) + [Answer(n)];
            && LegalMoves(s, run)
            && AfterMoves(s, run).wire ==
               s.wire + {Sent(n, EvidenceOf(s.agents[n].session, g, report), OutcomeOf(report), report.state)}
  {
    var a, g := s.agents[n], s.world.log.leases[k].granted;
    HoldingAgentDecides(a, g, n, course);
    var t := AfterMove(s, Receive(n, k));
    assert t.agents[n] == Holding(a, g);
    QuietRun(t, n, MovesOf(n, course), Answer(n));
    var run := [Receive(n, k)] + MovesOf(n, course) + [Answer(n)];
    assert run[0] == Receive(n, k) && run[1..] == MovesOf(n, course) + [Answer(n)];
  }

  /** What an agent's journal holds for a lease it was granted is complete, and names its command. */
  lemma EntryOfLease(s: System, n: Id, k: nat)
    requires Happens(s) && LegalMove(s, Receive(n, k)) && !s.agents[n].poisoned
    ensures var g := s.world.log.leases[k].granted;
            var e := JournalOf(s.agents[n], g.command);
            && (e.result.Some? || e.effects != map[] ==> e.receipt.Some?)
            && (g.command in e.effects ==> e.effects[g.command].EffectData?)
            && (e.result.Some? ==> e.result.value.ResultData?
                                   && EvidenceOf(s.agents[n].session, g, e.result.value.report)
                                      == EvidenceOf(s.agents[n].session, g, ReportOf(g, false, "")))
  {
    var run :| LegalMoves(NOTHING, run) && AfterMoves(NOTHING, run) == s;
    DeedsTell(run);
    var a, g := s.agents[n], s.world.log.leases[k].granted;
    assert AgentTells(Deeds(NOTHING, run), n, a) && AgentInv(s.world.log, n, a);
    assert EntryTells(Deeds(NOTHING, run), n, g.command, EntryOf(a.durable, g.command));
    ReachableIsGood(s.world);
    assert Granted(s.world.log, n, a.session, g);
    var i := GrantIsIssued(s.world, n, Holding(a, g));
  }

  /**
   A poll that nothing interrupts answers its lease: with the journaled result if there is one, else that the
   command succeeded, with the state of the journaled effect if there is one, else the state the runtime gives.
   The evidence is the lease's.
   */
  lemma UninterruptedPollAnswers(s: System, n: Id, k: nat, state: string)
    requires Happens(s) && LegalMove(s, Receive(n, k)) && !s.agents[n].poisoned
    ensures var g := s.world.log.leases[k].granted;
            var e := JournalOf(s.agents[n], g.command);
            var course := if e.result.Some? then Replay else if g.command in e.effects then Continue else Anew(state);
            var run := [Receive(n, k)] + MovesOf(n, course) + [Answer(n)];
            && (e.result.Some? ==> e.result.value.ResultData?)
            && (g.command in e.effects ==> e.effects[g.command].EffectData?)
            && LegalMoves(s, run)
            && AfterMoves(s, run).wire == s.wire + {
              Sent(n, Evidence(g.command, s.agents[n].session, g.operation, g.endpoint, g.generation, g.epoch,
                               g.attempt),
                   if course == Replay && e.result.value.report.failed then OutcomeFailed else OutcomeSucceeded,
                   if course == Replay then e.result.value.report.state
                   else if course == Continue then e.effects[g.command].state else state)}
  {
    EntryOfLease(s, n, k);
    var e := JournalOf(s.agents[n], s.world.log.leases[k].granted.command);
    var known := s.world.log.leases[k].granted.command in e.effects;
    PollTakes(s, n, k, if e.result.Some? then Replay else if known then Continue else Anew(state));
  }
}
