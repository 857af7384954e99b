/** The control plane together with its agents, which may crash at any await and lose a journal write. */
module EndToEnd {
  import opened Wrappers
  import opened Journal
  import opened ControlPlane
  import opened ControlPlaneRuns
  import opened ControlPlaneHistory
  import opened ControlPlaneSafety
  import opened JournalCodec
  import AgentJournal
  import Canonical
  import FileJournal
  import Json

  datatype Report = Report(
    operation: Id, endpoint: Id, generation: nat, epoch: nat, attempt: nat, failed: bool, state: string)
  datatype Data =
    | ReceiptData(operation: Id, generation: nat, epoch: nat)
    | EffectData(state: string)
    | ResultData(report: Report)
  type Entries = map<Id, Entry<Id, Data>>

  const RULES: Rules<Data> :=
    Rules((a: Data, b: Data) => a == b, (data: Data) => data.ResultData? && data.report.failed)

  /**
   Where a poll stands: each stage but the last ends in an await, at which the process may crash. What it
   answers may be delivered any number of times, in any order, or never.
   */
  datatype Stage = Claimed | Acknowledged | Performed(state: string) | Recorded(state: string) | Decided(report: Report)
  datatype Poll = Poll(granted: Grant, stage: Stage)
  datatype Agent = Agent(session: Session, memory: Entries, durable: Entries, poisoned: bool, poll: Option<Poll>)

  datatype Sent = Sent(node: Id, evidence: Evidence, outcome: Outcome, state: string)
  datatype System = System(world: World, agents: map<Id, Agent>, wire: set<Sent>)

  /** How a journal write goes: it succeeds, or fails before or after the record reached the disk. */
  datatype Write = Written | Lost(onDisk: bool)

  datatype Move =
    | Control(now: Time, step: Step)
    | Boot(node: Id, session: Session)
    | Receive(node: Id, lease: nat)
    | Acknowledge(node: Id, write: Write)
    | Perform(node: Id, state: string)
    | RecordEffect(node: Id, write: Write)
    | RecordSuccess(node: Id, write: Write)
    | RecordFailure(node: Id, state: string, write: Write)
    | Resume(node: Id)
    | Abandon(node: Id)
    | Answer(node: Id)

  // --- one agent ---

  /** Appends a record: the memory follows a successful write only, and a failed one poisons the journal. */
  function Append(a: Agent, ev: Journal.Event<Id, Data>, write: Write, next: Stage): Agent
    requires a.poll.Some?
  {
    var applied := Apply(RULES, a.memory, ev);
    if a.poisoned || applied.Err? then a.(poll := None)
    else
      match write
      case Written => a.(memory := applied.value, durable := applied.value, poll := Some(a.poll.value.(stage := next)))
      case Lost(onDisk) => a.(durable := if onDisk then applied.value else a.durable, poisoned := true, poll := None)
  }

  function JournalOf(a: Agent, id: Id): Entry<Id, Data> { EntryOf(a.memory, id) }

  function ReceiptOf(g: Grant): Data { ReceiptData(g.operation, g.generation, g.epoch) }

  function ReportOf(g: Grant, failed: bool, state: string): Report {
    Report(g.operation, g.endpoint, g.generation, g.epoch, g.attempt, failed, state)
  }

  /** What the agent sends for a lease: the stored report, with the lease's attempt. */
  function EvidenceOf(session: Session, g: Grant, r: Report): Evidence {
    Evidence(g.command, session, r.operation, r.endpoint, r.generation, r.epoch, g.attempt)
  }

  function OutcomeOf(r: Report): Outcome { if r.failed then OutcomeFailed else OutcomeSucceeded }

  /** What may happen at each stage of a poll. */
  predicate Ready(a: Agent, move: Move) {
    match move
    case Acknowledge(_, _) => a.poll.Some? && a.poll.value.stage == Claimed
    case Resume(_) =>
      && a.poll.Some? && a.poll.value.stage == Acknowledged
      && (JournalOf(a, a.poll.value.granted.command).result.Some?
          || a.poll.value.granted.command in JournalOf(a, a.poll.value.granted.command).effects)
    case Perform(_, _) =>
      && a.poll.Some? && a.poll.value.stage == Acknowledged
      && JournalOf(a, a.poll.value.granted.command).result.None?
          && a.poll.value.granted.command !in JournalOf(a, a.poll.value.granted.command).effects
    case RecordEffect(_, _) => a.poll.Some? && a.poll.value.stage.Performed?
    case RecordSuccess(_, _) => a.poll.Some? && a.poll.value.stage.Recorded?
    case RecordFailure(_, _, _) =>
      && a.poll.Some? && JournalOf(a, a.poll.value.granted.command).result.None?
      && (a.poll.value.stage == Acknowledged || a.poll.value.stage.Performed? || a.poll.value.stage.Recorded?)
    case Abandon(_) => a.poll.Some?
    case Answer(_) => a.poll.Some? && a.poll.value.stage.Decided?
    case _ => false
  }

  function AgentAfter(a: Agent, move: Move): Agent
    requires Ready(a, move)
  {
    var p := a.poll.value;
    var id := p.granted.command;
    var entry := JournalOf(a, id);
    match move
    case Acknowledge(_, write) =>
      if entry.receipt.Some? then a.(poll := Some(p.(stage := Acknowledged)))
      else Append(a, ReceiptEvent(id, ReceiptOf(p.granted)), write, Acknowledged)
    case Resume(_) =>
      if entry.result.Some? then
        if entry.result.value.ResultData? then a.(poll := Some(p.(stage := Decided(entry.result.value.report))))
            else a.(poll := None)
      else if entry.effects[id].EffectData? then a.(poll := Some(p.(stage := Performed(entry.effects[id].state))))
          else a.(poll := None)
    case Perform(_, state) => a.(poll := Some(p.(stage := Performed(state))))
    case RecordEffect(_, write) =>
      if !a.poisoned && id in entry.effects then
        if entry.effects[id] == EffectData(p.stage.state) then a.(poll := Some(p.(stage := Recorded(p.stage.state))))
            else a.(poll := None)
      else Append(a, EffectEvent(id, id, EffectData(p.stage.state)), write, Recorded(p.stage.state))
    case RecordSuccess(_, write) =>
      var report := ReportOf(p.granted, false, p.stage.state);
      if entry.result.Some? then a.(poll := None)
      else Append(a, ResultEvent(id, ResultData(report)), write, Decided(report))
    case RecordFailure(_, state, write) =>
      var report := ReportOf(p.granted, true, state);
      Append(a, ResultEvent(id, ResultData(report)), write, Decided(report))
    case Abandon(_) => a.(poll := None)
    case Answer(_) => a.(poll := None)
  }

  // --- the journal file behind an agent's entries ---

  /**
   The outcomes of a write are those of the journal file. Whatever part of the record's bytes a failed write
   leaves after the acknowledged ones, opening the file gives the entries with the record if its last byte is
   there and without it if not.
   */
  lemma WritesAreJournaled(codec: Codec<Id, Data>, a: Agent, ev: Journal.Event<Id, Data>, next: Stage,
                           log: seq<Record>, file: seq<Byte>, part: seq<Byte>)
    requires Faithful(codec, RULES) && a.poll.Some? && !a.poisoned && Apply(RULES, a.memory, ev).Ok?
    requires FileJournal.Holds(log, AllOnDisk(codec, a.memory), file, [], None) && a.durable == a.memory
    requires part <= AgentJournal.LineBytes(RecordOf(codec, ev))
    ensures var whole := part == AgentJournal.LineBytes(RecordOf(codec, ev));
            && AgentJournal.Replay(file + part) == Ok(AllOnDisk(codec, Append(a, ev, Lost(whole), next).durable))
            && (whole ==> Append(a, ev, Written, next).durable == Append(a, ev, Lost(whole), next).durable)
  {
    WriteReplays(codec, RULES, a.memory, ev, log, file, part);
  }

  function Tally(n: nat): (s: string)
    ensures |s| == n
  {
    seq(n, _ => 'i')
  }

  function Items(d: Data): seq<Json.Value> {
    match d
    case ReceiptData(o, g, e) => [Json.Str("receipt"), Json.Str(Tally(o)), Json.Str(Tally(g)), Json.Str(Tally(e))]
    case EffectData(state) => [Json.Str("effect"), Json.Str(state)]
    case ResultData(r) =>
      [Json.Str("result"), Json.Str(Tally(r.operation)), Json.Str(Tally(r.endpoint)), Json.Str(Tally(r.generation)),
       Json.Str(Tally(r.epoch)), Json.Str(Tally(r.attempt)), Json.Bool(r.failed), Json.Str(r.state)]
  }

  function PayloadOf(d: Data): Json.Value {
    var outcome := if RULES.failed(d) then "failed" else "succeeded";
    Json.Obj([Json.Field("outcome", Json.Str(outcome)), Json.Field("data", Json.Arr(Items(d)))])
  }

  /** A faithful way to write them: numbers as tallies, and each payload as an object that says how it went. */
  const TALLIES: Codec<Id, Data> := Codec((id: Id) => "i" + Tally(id), (d: Data) => PayloadOf(d))

  lemma ItemsAreInjective(a: Data, b: Data)
    requires Items(a) == Items(b)
    ensures a == b
  {
    assert Items(a)[0] == Items(b)[0] && Items(a)[1] == Items(b)[1];
    if !a.EffectData? { assert Items(a)[2] == Items(b)[2] && Items(a)[3] == Items(b)[3]; }
    if a.ResultData? {
      assert Items(a)[4] == Items(b)[4] && Items(a)[5] == Items(b)[5];
      assert Items(a)[6] == Items(b)[6] && Items(a)[7] == Items(b)[7];
    }
  }

  lemma SameItems(a: Data, b: Data)
    requires Canonical.Same(Json.Arr(Items(a)), Json.Arr(Items(b)))
    ensures Items(a) == Items(b)
  {
    forall k | 0 <= k < |Items(a)| ensures Items(a)[k] == Items(b)[k] {
      assert Canonical.Same(Items(a)[k], Items(b)[k]);
    }
  }

  lemma PayloadIsValid(d: Data)
    ensures AgentJournal.IsPayload(PayloadOf(d)) && (AgentJournal.SaysFailed(PayloadOf(d)) <==> RULES.failed(d))
  {
    var fields := PayloadOf(d).fields;
    AgentJournal.LookupAt(fields, 0);
    assert forall k :: 0 <= k < |Items(d)| ==> Json.Valid(Items(d)[k]);
    assert Json.Valid(fields[0].value) && Json.Valid(fields[1].value) && fields[0].key != fields[1].key;
  }

  lemma SamePayloads(a: Data, b: Data)
    ensures Canonical.Equal(PayloadOf(a), PayloadOf(b)) <==> a == b
  {
    PayloadIsValid(a);
    PayloadIsValid(b);
    Canonical.EqualIsSame(PayloadOf(a), PayloadOf(b));
    if Canonical.Same(PayloadOf(a), PayloadOf(b)) {
      var fs, gs := PayloadOf(a).fields, PayloadOf(b).fields;
      assert fs[1].key == gs[1].key;
      SameItems(a, b);
      ItemsAreInjective(a, b);
    }
  }

  lemma TalliesAreFaithful()
    ensures Faithful(TALLIES, RULES)
  {
    forall i: Id, j: Id | TALLIES.name(i) == TALLIES.name(j) ensures i == j {
      assert |TALLIES.name(i)| == i + 1 && |TALLIES.name(j)| == j + 1;
    }
    forall a, b ensures Tells(TALLIES.payload, RULES, a, b) {
      SamePayloads(a, b);
      PayloadIsValid(a);
    }
  }

  // --- the system ---

  ghost predicate LegalMove(s: System, move: Move) {
    match move
    case Control(now, step) =>
      Legal(s.world, now, step) && (step.DoResult? ==>
                                      Sent(step.node, step.evidence, step.outcome, step.state) in s.wire)
    case Boot(_, _) => true
    case Receive(n, k) =>
      && n in s.agents && s.agents[n].poll.None? && k < |s.world.log.leases|
      && s.world.log.leases[k].node == n && s.world.log.leases[k].session == s.agents[n].session
    case _ => move.node in s.agents && Ready(s.agents[move.node], move)
  }

  ghost function AfterMove(s: System, move: Move): System
    requires LegalMove(s, move)
  {
    match move
    case Control(now, step) => s.(world := Next(s.world, now, step))
    case Boot(n, session) =>
      var durable := if n in s.agents then s.agents[n].durable else map[];
      s.(agents := s.agents[n := Agent(session, durable, durable, false, None)])
    case Receive(n, k) =>
      s.(agents := s.agents[n := s.agents[n].(poll := Some(Poll(s.world.log.leases[k].granted, Claimed)))])
    case Answer(n) =>
      var a := s.agents[n];
      var p := a.poll.value;
      s.(agents := s.agents[n := AgentAfter(a, move)],
         wire := s.wire + {Sent(n, EvidenceOf(a.session, p.granted, p.stage.report), OutcomeOf(p.stage.report),
                                p.stage.report.state)})
    case _ => s.(agents := s.agents[move.node := AgentAfter(s.agents[move.node], move)])
  }

  // --- the invariant ---

  predicate Granted(log: Log, n: Id, session: Session, g: Grant) { Lease(n, session, g) in log.leases }

  /** The entry was written for the issued command of that id on that node. */
  predicate WrittenFor(e: Entry<Id, Data>, i: Issue) {
    && (e.receipt.Some? ==> e.receipt.value == ReceiptData(i.operation, i.generation, i.epoch))
    && (e.result.Some? ==> e.result.value.ResultData?
                           && e.result.value.report.operation == i.operation
                               && e.result.value.report.endpoint == i.endpoint
                           && e.result.value.report.generation == i.generation
                               && e.result.value.report.epoch == i.epoch)
  }

  ghost predicate Attributed(log: Log, n: Id, id: Id, e: Entry<Id, Data>) {
    exists i :: IsIssue(log, i) && i.id == id && i.node == n && WrittenFor(e, i)
  }

  ghost predicate AllAttributed(log: Log, n: Id, entries: Entries) {
    forall id {:trigger Attributed(log, n, id, EntryOf(entries, id))} :: id in entries ==>
          Attributed(log, n, id, EntryOf(entries, id))
  }

  ghost predicate Covers(durable: Entries, memory: Entries) {
    forall id {:trigger EntryOf(memory, id)} :: Extends(EntryOf(durable, id), EntryOf(memory, id))
  }

  ghost predicate AgentInv(log: Log, n: Id, a: Agent) {
    && (!a.poisoned ==> a.memory == a.durable)
    && Covers(a.durable, a.memory) && AllAttributed(log, n, a.durable)
    && (a.poll.Some? ==>
          var p := a.poll.value;
          && Granted(log, n, a.session, p.granted)
          && (p.stage.Decided? ==> JournalOf(a, p.granted.command).result == Some(ResultData(p.stage.report))))
  }

  /** What was sent is what the sender's journal holds, for a lease the sender was granted. */
  ghost predicate SentFrom(log: Log, agents: map<Id, Agent>, m: Sent) {
    && m.node in agents
    && var e := EntryOf(agents[m.node].durable, m.evidence.command);
    && e.result.Some? && e.result.value.ResultData?
    && var r := e.result.value.report;
    && m.outcome == OutcomeOf(r) && m.state == r.state
    && exists g :: Granted(log, m.node, m.evidence.session, g) && g.command == m.evidence.command
        && m.evidence == EvidenceOf(m.evidence.session, g, r)
  }

  ghost predicate SystemInv(s: System) {
    && Reachable(s.world)
    && (forall n {:trigger AgentInv(s.world.log, n, s.agents[n])} :: n in s.agents ==>
          AgentInv(s.world.log, n, s.agents[n]))
    && (forall m {:trigger SentFrom(s.world.log, s.agents, m)} :: m in s.wire ==> SentFrom(s.world.log, s.agents, m))
  }

  // --- every move keeps it ---

  lemma LogGrows(w: World, now: Time, step: Step)
    requires Good(w) && Legal(w, now, step)
    ensures w.log.issued <= Next(w, now, step).log.issued && w.log.leases <= Next(w, now, step).log.leases
  {
    LogIssues(w, now, step);
    LogLeases(w, now, step);
  }

  lemma AgentInvGrows(log: Log, later: Log, n: Id, a: Agent)
    requires AgentInv(log, n, a) && log.issued <= later.issued && log.leases <= later.leases
    ensures AgentInv(later, n, a)
  {
    forall id | id in a.durable ensures Attributed(later, n, id, EntryOf(a.durable, id)) {
      assert Attributed(log, n, id, EntryOf(a.durable, id));
      var i :| IsIssue(log, i) && i.id == id && i.node == n && WrittenFor(EntryOf(a.durable, id), i);
      assert IsIssue(later, i);
    }
    if a.poll.Some? { assert Granted(log, n, a.session, a.poll.value.granted); }
  }

  lemma SentFromGrows(log: Log, agents: map<Id, Agent>, later: Log, more: map<Id, Agent>, m: Sent)
    requires SentFrom(log, agents, m) && log.leases <= later.leases && m.node in more
    requires Extends(EntryOf(more[m.node].durable, m.evidence.command),
                     EntryOf(agents[m.node].durable, m.evidence.command))
    ensures SentFrom(later, more, m)
  {
    var r := EntryOf(agents[m.node].durable, m.evidence.command).result.value.report;
    var g :| Granted(log, m.node, m.evidence.session, g) && g.command == m.evidence.command
        && m.evidence == EvidenceOf(m.evidence.session, g, r);
    assert Granted(later, m.node, m.evidence.session, g);
  }

  /** The command a lease was granted for, and that its entry is attributed to it. */
  lemma GrantIsIssued(w: World, n: Id, a: Agent) returns (i: Issue)
    requires Good(w) && AgentInv(w.log, n, a) && a.poll.Some?
    ensures IsIssue(w.log, i) && i == IssueOfGrant(Lease(n, a.session, a.poll.value.granted))
    ensures WrittenFor(EntryOf(a.durable, i.id), i) && WrittenFor(EntryOf(a.memory, i.id), i)
  {
    var l := Lease(n, a.session, a.poll.value.granted);
    i := IssueOfGrant(l);
    var k :| 0 <= k < |w.log.leases| && w.log.leases[k] == l;
    assert IsIssue(w.log, i);
    if i.id in a.durable {
      assert Attributed(w.log, n, i.id, EntryOf(a.durable, i.id));
      var j :| IsIssue(w.log, j) && j.id == i.id && j.node == n && WrittenFor(EntryOf(a.durable, i.id), j);
      assert j == i;
    }
    assert Extends(EntryOf(a.durable, i.id), EntryOf(a.memory, i.id));
  }

  /** Recording what belongs to the issued command keeps the journal attributed, and keeps what it held. */
  lemma AppendKeeps(log: Log, n: Id, a: Agent, ev: Journal.Event<Id, Data>, write: Write, next: Stage, i: Issue)
    requires AgentInv(log, n, a) && a.poll.Some? && IsIssue(log, i) && i.id == ev.id && i.node == n
    requires WrittenFor(EntryOf(a.durable, i.id), i) && ev.id == a.poll.value.granted.command
    requires ev.ReceiptEvent? ==> ev.data == ReceiptData(i.operation, i.generation, i.epoch)
    requires ev.ResultEvent? ==> ev.data.ResultData? && WrittenFor(Entry(None, map[], Some(ev.data)), i)
    requires next.Decided? ==> ev == ResultEvent(ev.id, ResultData(next.report))
    ensures AgentInv(log, n, Append(a, ev, write, next))
    ensures Covers(Append(a, ev, write, next).durable, a.durable)
  {
    var b := Append(a, ev, write, next);
    var applied := Apply(RULES, a.memory, ev);
    if !a.poisoned && applied.Ok? {
      forall id ensures Extends(EntryOf(applied.value, id), EntryOf(a.durable, id)) {
        ApplyExtends(RULES, a.durable, ev, id);
      }
      forall id | id in applied.value ensures Attributed(log, n, id, EntryOf(applied.value, id)) {
        if id != ev.id {
          assert EntryOf(applied.value, id) == EntryOf(a.durable, id);
          assert Attributed(log, n, id, EntryOf(a.durable, id));
        }
        else { assert WrittenFor(EntryOf(applied.value, id), i); }
      }
    }
  }

  lemma AppendResultKeeps(log: Log, n: Id, a: Agent, failed: bool, state: string, write: Write, i: Issue)
    requires AgentInv(log, n, a) && a.poll.Some? && IsIssue(log, i) && WrittenFor(EntryOf(a.durable, i.id), i)
    requires i == IssueOfGrant(Lease(n, a.session, a.poll.value.granted))
    ensures var report := ReportOf(a.poll.value.granted, failed, state);
            var b := Append(a, ResultEvent(i.id, ResultData(report)), write, Decided(report));
            AgentInv(log, n, b) && Covers(b.durable, a.durable)
  {
    var report := ReportOf(a.poll.value.granted, failed, state);
    AppendKeeps(log, n, a, ResultEvent(i.id, ResultData(report)), write, Decided(report), i);
  }

  lemma MoveKeepsAgent(w: World, n: Id, a: Agent, move: Move)
    requires Good(w) && AgentInv(w.log, n, a) && Ready(a, move)
    ensures AgentInv(w.log, n, AgentAfter(a, move)) && Covers(AgentAfter(a, move).durable, a.durable)
    ensures AgentAfter(a, move).session == a.session
  {
    var i := GrantIsIssued(w, n, a);
    MoveWithIssue(w.log, n, a, move, i);
  }

  lemma MoveWithIssue(log: Log, n: Id, a: Agent, move: Move, i: Issue)
    requires AgentInv(log, n, a) && Ready(a, move) && IsIssue(log, i) && WrittenFor(EntryOf(a.durable, i.id), i)
    requires i == IssueOfGrant(Lease(n, a.session, a.poll.value.granted))
    ensures AgentInv(log, n, AgentAfter(a, move)) && Covers(AgentAfter(a, move).durable, a.durable)
    ensures AgentAfter(a, move).session == a.session
  {
    var p := a.poll.value;
    var id := p.granted.command;
    match move
    case Acknowledge(_, write) =>
      if JournalOf(a, id).receipt.None? {
        AppendKeeps(log, n, a, ReceiptEvent(id, ReceiptOf(p.granted)), write, Acknowledged, i);
      }
    case RecordEffect(_, write) =>
      if id !in JournalOf(a, id).effects {
        AppendKeeps(log, n, a, EffectEvent(id, id, EffectData(p.stage.state)), write, Recorded(p.stage.state), i);
      }
    case RecordSuccess(_, write) =>
      if JournalOf(a, id).result.None? { AppendResultKeeps(log, n, a, false, p.stage.state, write, i); }
    case RecordFailure(_, state, write) => AppendResultKeeps(log, n, a, true, state, write, i);
    case _ => QuietKeeps(log, n, a, move);
  }

  lemma QuietKeeps(log: Log, n: Id, a: Agent, move: Move)
    requires AgentInv(log, n, a) && Ready(a, move) && (move.Resume? || move.Perform? || move.Abandon? || move.Answer?)
    ensures AgentInv(log, n, AgentAfter(a, move)) && AgentAfter(a, move).durable == a.durable
            && AgentAfter(a, move).session == a.session
  {
  }

  lemma AnswerIsSentFrom(w: World, agents: map<Id, Agent>, n: Id)
    requires Good(w) && n in agents && AgentInv(w.log, n, agents[n]) && Ready(agents[n], Answer(n))
    ensures var a := agents[n];
            var p := a.poll.value;
            SentFrom(w.log, agents, Sent(n, EvidenceOf(a.session, p.granted, p.stage.report),
                                         OutcomeOf(p.stage.report), p.stage.report.state))
  {
    var a := agents[n];
    var p := a.poll.value;
    assert Extends(EntryOf(a.durable, p.granted.command), EntryOf(a.memory, p.granted.command));
    assert Granted(w.log, n, a.session, p.granted);
  }

  /** Replacing one agent by one whose disk still holds everything keeps the system's invariant. */
  lemma ReplaceAgent(s: System, n: Id, b: Agent)
    requires SystemInv(s) && AgentInv(s.world.log, n, b)
    requires n in s.agents ==> Covers(b.durable, s.agents[n].durable)
    ensures SystemInv(s.(agents := s.agents[n := b]))
  {
    var t := s.(agents := s.agents[n := b]);
    forall k | k in t.agents ensures AgentInv(t.world.log, k, t.agents[k]) {
      if k != n { assert AgentInv(s.world.log, k, s.agents[k]); }
    }
    forall m | m in t.wire ensures SentFrom(t.world.log, t.agents, m) {
      assert SentFrom(s.world.log, s.agents, m);
      assert m.node == n ==> Extends(EntryOf(b.durable, m.evidence.command),
                                     EntryOf(s.agents[n].durable, m.evidence.command));
      SentFromGrows(s.world.log, s.agents, t.world.log, t.agents, m);
    }
  }

  lemma ControlKeeps(s: System, now: Time, step: Step)
    requires SystemInv(s) && LegalMove(s, Control(now, step))
    ensures SystemInv(AfterMove(s, Control(now, step)))
  {
    ReachableIsGood(s.world);
    LogGrows(s.world, now, step);
    ReachableStep(s.world, now, step);
    var t := AfterMove(s, Control(now, step));
    forall n | n in t.agents ensures AgentInv(t.world.log, n, t.agents[n]) {
      assert AgentInv(s.world.log, n, s.agents[n]);
      AgentInvGrows(s.world.log, t.world.log, n, s.agents[n]);
    }
    forall m | m in t.wire ensures SentFrom(t.world.log, t.agents, m) {
      assert SentFrom(s.world.log, s.agents, m);
      SentFromGrows(s.world.log, s.agents, t.world.log, t.agents, m);
    }
  }

  lemma AnswerKeeps(s: System, n: Id)
    requires SystemInv(s) && LegalMove(s, Answer(n))
    ensures SystemInv(AfterMove(s, Answer(n)))
  {
    ReachableIsGood(s.world);
    var a := s.agents[n];
    var p := a.poll.value;
    var sent := Sent(n, EvidenceOf(a.session, p.granted, p.stage.report), OutcomeOf(p.stage.report),
                     p.stage.report.state);
    assert AgentInv(s.world.log, n, a);
    AnswerIsSentFrom(s.world, s.agents, n);
    var u := s.(wire := s.wire + {sent});
    forall m | m in u.wire ensures SentFrom(u.world.log, u.agents, m) {
      if m != sent { assert SentFrom(s.world.log, s.agents, m); }
    }
    forall k | k in u.agents ensures AgentInv(u.world.log, k, u.agents[k]) {
      assert AgentInv(s.world.log, k, s.agents[k]);
    }
    MoveKeepsAgent(s.world, n, a, Answer(n));
    ReplaceAgent(u, n, AgentAfter(a, Answer(n)));
  }

  lemma BootKeeps(s: System, n: Id, session: Session)
    requires SystemInv(s)
    ensures SystemInv(AfterMove(s, Boot(n, session)))
  {
    var durable := if n in s.agents then s.agents[n].durable else map[];
    if n in s.agents { assert AgentInv(s.world.log, n, s.agents[n]); }
    ReplaceAgent(s, n, Agent(session, durable, durable, false, None));
  }

  lemma ReceiveKeeps(s: System, n: Id, k: nat)
    requires SystemInv(s) && LegalMove(s, Receive(n, k))
    ensures SystemInv(AfterMove(s, Receive(n, k)))
  {
    var a := s.agents[n];
    assert AgentInv(s.world.log, n, a);
    assert Granted(s.world.log, n, a.session, s.world.log.leases[k].granted);
    ReplaceAgent(s, n, a.(poll := Some(Poll(s.world.log.leases[k].granted, Claimed))));
  }

  lemma MoveKeeps(s: System, move: Move)
    requires SystemInv(s) && LegalMove(s, move)
    ensures SystemInv(AfterMove(s, move))
  {
    match move
    case Control(now, step) => ControlKeeps(s, now, step);
    case Boot(n, session) => BootKeeps(s, n, session);
    case Receive(n, k) => ReceiveKeeps(s, n, k);
    case Answer(n) => AnswerKeeps(s, n);
    case _ => PollKeeps(s, move);
  }

  /** The moves of a poll that nobody sees. */
  lemma PollKeeps(s: System, move: Move)
    requires SystemInv(s) && LegalMove(s, move) && !move.Control? && !move.Boot? && !move.Receive? && !move.Answer?
    ensures SystemInv(AfterMove(s, move))
  {
    ReachableIsGood(s.world);
    var n := move.node;
    assert AgentInv(s.world.log, n, s.agents[n]);
    MoveKeepsAgent(s.world, n, s.agents[n], move);
    ReplaceAgent(s, n, AgentAfter(s.agents[n], move));
  }

  // --- runs ---

  const NOTHING := System(EMPTY, map[], {})

  ghost predicate LegalMoves(s: System, run: seq<Move>)
    decreases |run|
  {
    run == [] || (LegalMove(s, run[0]) && LegalMoves(AfterMove(s, run[0]), run[1..]))
  }

  ghost function AfterMoves(s: System, run: seq<Move>): System
    requires LegalMoves(s, run)
    decreases |run|
  {
    if run == [] then s else AfterMoves(AfterMove(s, run[0]), run[1..])
  }

  /** A system that some run of moves leads to. */
  ghost predicate Happens(s: System) {
    exists run :: LegalMoves(NOTHING, run) && AfterMoves(NOTHING, run) == s
  }

  lemma {:induction false} MovesKeep(s: System, run: seq<Move>)
    requires SystemInv(s) && LegalMoves(s, run)
    ensures SystemInv(AfterMoves(s, run))
    decreases |run|
  {
    if run != [] {
      MoveKeeps(s, run[0]);
      MovesKeep(AfterMove(s, run[0]), run[1..]);
    }
  }

  lemma HappensIsSound(s: System)
    requires Happens(s)
    ensures SystemInv(s)
  {
    assert LegalRun(EMPTY, []) && Final(EMPTY, []) == EMPTY;
    var run :| LegalMoves(NOTHING, run) && AfterMoves(NOTHING, run) == s;
    MovesKeep(NOTHING, run);
  }

  // --- the promises ---

  /** A sent result names the issued command of its id: its operation, endpoint, generation and epoch on its node. */
  lemma SentNamesTheCommand(s: System, m: Sent)
    requires Happens(s) && m in s.wire
    ensures exists i :: && IsIssue(s.world.log, i) && i.id == m.evidence.command && i.node == m.node
                        && i.operation == m.evidence.operation && i.endpoint == m.evidence.endpoint
                        && i.generation == m.evidence.generation && i.epoch == m.evidence.epoch
  {
    HappensIsSound(s);
    assert SentFrom(s.world.log, s.agents, m);
    var a := s.agents[m.node];
    assert AgentInv(s.world.log, m.node, a);
    var e := EntryOf(a.durable, m.evidence.command);
    assert Attributed(s.world.log, m.node, m.evidence.command, e);
    var i :| IsIssue(s.world.log, i) && i.id == m.evidence.command && i.node == m.node && WrittenFor(e, i);
  }

  /**
   All the results ever sent for one command id agree in everything but the session and the attempt, across
   any number of crashes, restarts, lost writes and leases.
   */
  lemma ResultsAgree(s: System, x: Sent, y: Sent)
    requires Happens(s) && x in s.wire && y in s.wire && x.evidence.command == y.evidence.command
    ensures x == y.(evidence := y.evidence.(session := x.evidence.session, attempt := x.evidence.attempt))
  {
    HappensIsSound(s);
    ReachableIsGood(s.world);
    SentNamesTheCommand(s, x);
    SentNamesTheCommand(s, y);
    assert SentFrom(s.world.log, s.agents, x) && SentFrom(s.world.log, s.agents, y);
    var i :| IsIssue(s.world.log, i) && i.id == x.evidence.command && i.node == x.node;
    var j :| IsIssue(s.world.log, j) && j.id == y.evidence.command && j.node == y.node;
    assert i == j;
  }

  /** And each comes from a lease its sender was granted, in the session it was granted to. */
  lemma ResultsComeFromLeases(s: System, m: Sent)
    requires Happens(s) && m in s.wire
    ensures exists k :: && 0 <= k < |s.world.log.leases|
                        && s.world.log.leases[k].node == m.node && s.world.log.leases[k].session == m.evidence.session
                        && s.world.log.leases[k].granted.command == m.evidence.command
                        && s.world.log.leases[k].granted.attempt == m.evidence.attempt
  {
    HappensIsSound(s);
    assert SentFrom(s.world.log, s.agents, m);
    var r := EntryOf(s.agents[m.node].durable, m.evidence.command).result.value.report;
    var g :| Granted(s.world.log, m.node, m.evidence.session, g) && g.command == m.evidence.command
        && m.evidence == EvidenceOf(m.evidence.session, g, r);
    var k :| 0 <= k < |s.world.log.leases| && s.world.log.leases[k] == Lease(m.node, m.evidence.session, g);
  }

  /**
   An answer taken from the journal carries exactly the evidence that a freshly computed one would, so the
   control plane's fences accept the one whenever they accept the other.
   */
  lemma JournalAnswersLikeFresh(s: System, n: Id, outcome: Outcome, state: string, now: Time)
    requires Happens(s) && n in s.agents && s.agents[n].poll.Some? && s.agents[n].poll.value.stage.Decided?
    ensures var a := s.agents[n];
            var p := a.poll.value;
            var fresh' := EvidenceOf(a.session, p.granted, ReportOf(p.granted, false, state));
            && EvidenceOf(a.session, p.granted, p.stage.report) == fresh'
            && RecordResult(s.world.tables, n, EvidenceOf(a.session, p.granted, p.stage.report), outcome, state, now)
            == RecordResult(s.world.tables, n, fresh', outcome, state, now)
  {
    HappensIsSound(s);
    ReachableIsGood(s.world);
    var a := s.agents[n];
    assert AgentInv(s.world.log, n, a);
    var i := GrantIsIssued(s.world, n, a);
  }

  /**
   When the control plane takes a result, the operation ends with what the agent's journal holds, and no
   other delivery, of this or any other result for the operation, changes it again.
   */
  lemma OperationsEndAsJournaled(s: System, now: Time, n: Id, m: Evidence, outcome: Outcome, state: string)
    requires Happens(s) && LegalMove(s, Control(now, DoResult(n, m, outcome, state)))
    ensures var t := After(s.world, now, DoResult(n, m, outcome, state));
            t != s.world.tables ==>
              && n in s.agents && m.operation in t.operations
              && var stored := EntryOf(s.agents[n].durable, m.command).result;
              && stored.Some? && stored.value.ResultData?
              && stored.value.report.operation == m.operation && stored.value.report.state == state
              && t.operations[m.operation].status == if stored.value.report.failed then Failed else Succeeded
  {
    HappensIsSound(s);
    ReachableIsGood(s.world);
    var sent := Sent(n, m, outcome, state);
    assert SentFrom(s.world.log, s.agents, sent);
    ResultsAreFenced(s.world, n, m, outcome, state, now);
    if After(s.world, now, DoResult(n, m, outcome, state)) != s.world.tables {
      ConclusiveResultEnds(s.world, n, m, outcome, state, now);
    }
  }
}
