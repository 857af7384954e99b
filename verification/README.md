# Control plane, agent and proxy: models and proofs

This Dafny project models the parts of the system whose correctness spans several operations, and proves
what they promise over every input, every run and every point at which a run may stop. `dafny verify
dfyconfig.toml` checks all of it.

**Control plane** (`ControlPlane*`, `Observations`, `Database`). Nodes, sessions, endpoints, operations,
outbox events, agent commands and observations form one state. `ControlPlane` gives every transaction as a
function from tables to tables; `Database` has the class with one field per table and one method per
transaction, which reads and writes rows in the order of the SQL and is proved to compute that function;
`ControlPlaneInvariant` is the joint invariant and its preservation by every transaction;
`ControlPlaneRuns` and `ControlPlaneHistory` define runs (any transactions, in any order, with whatever
requests) with a log of every command issued, lease granted, selection made and session held; and
`ControlPlaneSafety` states the promises for every reachable world. `ControlPlaneMarks` and
`ControlPlaneTimes` are about when: the heartbeats, grants, progress and unknown results of a run, each
with its time; `ControlPlaneDesired` is about what endpoints should do; and `ControlPlaneEffects` says of
each transaction, in rows and numbers alone, when it is accepted and every row it leaves.
`BlockedReclaim` is one run, step by step, to a state in which reclaims are refused.

**Agent** (`Json`, `Canonical`, `Utf8`, `Journal`, `AgentJournal`, `FileJournal`, `JournalCodec`,
`FakeRuntime`, `EndToEnd`, `PollOutcomes`). The journal is modelled down to its bytes: JSON text with a
parser, UTF-8, lines, writes that may be short or fail, and replay after any crash. `EndToEnd` composes
agents that may crash at any await with runs of the control plane; `JournalCodec` ties its journal writes
to the file's; `PollOutcomes` ties what agents send to what they did.

**HTML rewriter** (`Chars`, `Css`, `Html`, `HtmlGrammar`, `HtmlRewrite`, `HtmlRescan`, `UrlResolution`,
`RuntimeProxy`). A lossless tokenizer and the grammar it reads, told by characters; the rewrite of tokens;
the proof that scanning the rewritten document finds exactly those tokens; where URLs lead before and
after; and the index-moving scanner and splicer, proved to compute the rewrite.

**Kubernetes driver** (`Kubernetes`), **traffic window** (`Traffic`), **login alerts** (`Alerts`) and
**endpoint reducer** (`Reconciler`).

Conventions: a transaction is one atomic step at a time strictly later than the one before; ids are
natural numbers and a fresh id is one never issued; times are milliseconds; a string is a sequence of
Unicode scalar values, ordered by them.

Where code and documentation disagree, the code is modelled:

- The comment on the rewriter says protocol-relative `//host` URLs are left alone. In `srcset` they are
  not: `HtmlRewrite.ProtocolRelativeCandidateMoves` shows one that moves, and
  `HtmlRewrite.SrcsetAsDocumented` that the rewrite of a list is the documented one exactly if no
  candidate begins with `//`.
- That comment also says that every URL starting with one slash gains the prefix, as if the first
  characters told what a URL is. A browser drops whitespace in front and tabs and line ends anywhere, and
  takes a backslash for a slash: `UrlResolution.BrowserFollows` says exactly for which values the rewrite
  keeps what a browser sees.
- The comment on the reclaim sweep says it re-issues ownership for silent endpoints. Its idempotency key
  names the endpoint's generation only, and the table has a unique key on it
  (`packages/database/migrations/0001_control_plane.sql:11`), so a second reclaim at one generation is
  refused and rolls the whole sweep back. `Database.PostgresDatabase.ReclaimStaleEndpoints` says exactly
  when a sweep succeeds, `BlockedReclaim.FailedReclaimStopsSweeps` gives a reachable state in which it
  fails, and `Database.BlockedSweepsFail` shows that it fails for as long as the generation stays.
- Proxy updates are accepted by `mutateEndpoint`, but the schema's check on actions
  (`packages/database/migrations/0018_force_restart.sql:4`) does not list them, so the transaction is
  refused.
- Revoking a shared node's grant runs triggers that end running operations but look for waiting commands
  under a status no row has. `ControlPlaneInvariant.PoolRevocationKeeps` says exactly when the coupling of
  operations and commands survives, and `BlockedReclaim.RevocationStrandsACommand` gives a reachable state
  in which it does not.
- Opening a journal whose last line is torn passes over a line before it that is not JSON, but leaves that
  line in the file. `AgentJournal.ReopeningAgrees` says exactly when, and that the next open then fails;
  `AgentJournal.DroppedLineFailsLater` gives such a file, and `AgentJournal.PrefixDropsNothing` shows that
  no crash of a journal leaves one.
- The worker's `generation_fence` branch, the repair sweep's insert and the early return of
  `recordAgentResult` on a recorded result are modelled, and proved never to be taken in a reachable state
  (`ControlPlaneSafety.SweepAndFenceAreIdle`, `ControlPlaneSafety.ResultsAreFenced`).
- An `ensure` that stops before it has written the workload leaves objects that a later `delete` refuses.
  `Kubernetes.Driver.Delete` says when that error can and must appear, and
  `Kubernetes.StoppedEnsureIsUnvouched` gives such a state.

## Model

| member | source | states |
|---|---|---|
| ControlPlaneSafety.OperationsAreCoupled | packages/database/src/index.ts:338-353 | in every reachable state an operation runs iff it has an open command, which carries its node, endpoint, generation and epoch, and waits iff its outbox event is unprocessed |
| ControlPlaneSafety.SweepAndFenceAreIdle | packages/database/src/index.ts:337-345 | in every reachable state the repair sweep inserts nothing and the worker never takes the generation fence |
| ControlPlaneSafety.OneLiveOperation | packages/database/src/index.ts:317-333 | an endpoint has at most one live operation, at the endpoint's generation, and none once deleted |
| ControlPlaneSafety.GenerationsAreCounted | packages/database/src/index.ts:162-190 | an endpoint's generation counts the generation-changing operations ever created for it, which carry exactly 1 to n |
| ControlPlaneSafety.LeaseNamesAreUnique | packages/database/src/index.ts:358 | a (command id, attempt) pair names one lease of the whole history, and a command id one operation, node, endpoint, generation and epoch |
| ControlPlaneSafety.SelectionsAreBounded | packages/database/src/index.ts:42-42 | claims select a command id at most six times: five leases and one exhaustion |
| ControlPlaneSafety.CurrentLeaseIsLatest | packages/database/src/index.ts:358-359 | evidence of the row's current lease is of a logged lease of that node and session, and no later lease of the command exists |
| ControlPlaneSafety.ProgressIsFenced | packages/database/src/index.ts:359 | progress is accepted iff it comes from the current lease with a higher sequence; anything else changes nothing |
| ControlPlaneSafety.ResultsAreFenced | packages/database/src/index.ts:361 | a result changes the tables iff it comes from the current lease of an endpoint still on the node; the only other one not refused repeats a completed delete, without effect |
| ControlPlaneSafety.MutationsAreIdempotent | packages/database/src/index.ts:317-321 | after an accepted mutation, any later request with its key on that endpoint changes nothing, and is answered with the same operation iff it asks the same |
| ControlPlaneSafety.EndedOperationsAreFrozen | packages/database/src/index.ts:361 | the row of an ended operation never changes again, in any run |
| ControlPlaneSafety.FirstResultDecides | packages/database/src/index.ts:361 | the first conclusive result decides its operation for ever: no later result naming it changes anything |
| ControlPlaneSafety.WinningDeleteReplays | packages/database/src/index.ts:361 | after an accepted delete, that same result from that session is answered without effect, and every other result naming the operation is refused, for ever |
| ControlPlaneSafety.EpochFollowsSession | packages/database/src/index.ts:300 | in every step a node's epoch grows by one iff its session changes |
| ControlPlaneSafety.OpenCommandsCarryTheEpoch | packages/database/src/index.ts:300-358 | open commands carry the node's epoch, but for waiting ones dispatched before the first heartbeat |
| ControlPlaneSafety.SessionsNeverReturn | packages/database/src/index.ts:300 | a replaced session never owns its node again, and a session has one epoch per node |
| ControlPlaneSafety.TakeoverSparesDeletes | packages/database/src/index.ts:300 | at a takeover every running delete of the old epoch goes on with a fresh command claimable at once; every other running operation of it fails |
| ControlPlaneSafety.DeleteEndsOnlyOnEvidence | packages/database/src/index.ts:300-361 | a running delete ends in one step only by a conclusive result of its current lease or by the exhaustion of its attempts |
| ControlPlaneSafety.DeleteIntentSurvives | packages/database/src/index.ts:300-361 | over any run without such evidence, under any number of takeovers, a running delete keeps running with an open command |
| ControlPlaneSafety.RetentionIsInvisible | packages/database/src/index.ts:88-114 | any run of retention batches leaves each endpoint's newest row, newest row at its generation and newest snapshot unchanged |
| ControlPlaneTimes.TakeoverNeedsSilence | packages/database/src/index.ts:300 | over any run a step changes a node's session only when no heartbeat or progress of the node was accepted in the last 120000 ms |
| ControlPlaneTimes.HeartbeatsAreHeard | packages/database/src/index.ts:300 | over any run a heartbeat is accepted iff its node is known and not revoked and its session is the node's, or has never been heard there and nothing was heard for 120000 ms; it then owns the node |
| ControlPlaneTimes.LeasesExclude | packages/database/src/index.ts:358-361 | over any run a command id is granted again only more than 30000 ms after its last grant and the last progress accepted under it, unless an unknown result of that lease was taken in between |
| ControlPlaneTimes.ProgressGrows | packages/database/src/index.ts:359 | over any run the progress accepted under one lease has growing sequence numbers, unless an unknown result was taken in between |
| ControlPlaneTimes.ClaimsTakeTheOldest | packages/database/src/index.ts:358 | a claim takes the oldest command of the epoch that waits or whose lease has passed: under five attempts it is leased for 30000 ms, at five it ends with its operation; it takes none only if none is due |
| ControlPlaneDesired.DesiredIsLatest | packages/database/src/index.ts:317-333 | in every reachable state an endpoint should be stopped iff it is deleted, its latest start, stop or restart is a stop, or it never had one |
| ControlPlaneEffects.MutationsDecide | packages/database/src/index.ts:317-333 | a mutation with a new key goes ahead iff the endpoint is there at the expected generation and nothing is live on it, or a forced restart meets no delete; every row it leaves, generation and desired state by action |
| ControlPlaneEffects.ExpiriesDecide | packages/database/src/index.ts:162-190 | an expiry enqueues iff it is due (none succeeded, fewer than five deletes, nothing live that stops it), under the next number; every row it leaves |
| ControlPlaneEffects.ExpirySucceedsOnce | packages/database/src/index.ts:162-174 | once an expiry has succeeded no run enqueues another of its kind |
| ControlPlaneEffects.ReclaimsDecide | packages/database/src/index.ts:201-233 | which endpoints are silent, and that one is reclaimed unless one of its three newest reclaims succeeded or one is recorded at its generation; every row it leaves |
| ControlPlaneEffects.EventsAreSettled | packages/database/src/index.ts:338-353 | the worker takes the oldest event whose time has come, and none only if none is; its operation is completed, postponed for 30000 ms, failed or dispatched by node, provider, routing and artifact; every row it leaves |
| ControlPlaneEffects.HeartbeatsConnect | packages/database/src/index.ts:300-310 | every row an accepted heartbeat leaves: node, retired session, reissued deletes, failed operations, and exactly the endpoints reported at their generation with a new newest snapshot |
| ControlPlaneEffects.ProgressDecides | packages/database/src/index.ts:359 | progress is taken iff it is of the lease its row holds and beyond what is shown; it is shown, renews the lease for 30000 ms and is a sign of life |
| ControlPlaneEffects.ResultsDecide | packages/database/src/index.ts:361 | a result is taken iff it is of the lease its row holds: unknown makes the command due again, a completed delete buries the endpoint, any other ends command and operation and is the newest observation unless it only read logs |
| ControlPlaneHistory.ReachableIsGood | packages/database/src/index.ts:162-361 | every reachable world satisfies the joint invariant of tables and log |
| ControlPlaneRuns.StepKeepsWorld | packages/database/src/index.ts:162-361 | every transaction keeps the joint invariant of tables and log |
| ControlPlaneInvariant.MutateKeeps | packages/database/src/index.ts:317-333 | a mutation, forced restart included, keeps the tables' invariant |
| ControlPlaneInvariant.ExpireKeeps | packages/database/src/index.ts:162-190 | expiry keeps the tables' invariant |
| ControlPlaneInvariant.ReclaimKeeps | packages/database/src/index.ts:219-233 | a reclaim, or its refusal by the unique key, keeps the tables' invariant, under which every idempotency key names one operation of an endpoint |
| ControlPlaneInvariant.ExpiryKeyIsFree | packages/database/src/index.ts:170-182 | the number of an expiry attempt is never taken, so the unique key never refuses one |
| ControlPlaneSafety.BlockedUntilMoved | packages/database/src/index.ts:219-231 | once all reclaims of an endpoint have ended, none of the newest succeeded and one is of its present generation, the unique key refuses every sweep that comes to it while its generation stays, in any run |
| Database.BlockedSweepsFail | packages/database/src/index.ts:201-236 | so whatever happens in between, every sweep with such an endpoint among its candidates is refused and writes nothing while the endpoint's generation stays |
| BlockedReclaim.FailedReclaimStopsSweeps | packages/database/src/index.ts:219-231 | in a reachable state with one failed reclaim, the sweep that calls for another is refused and leaves everything as it was |
| ControlPlaneInvariant.PoolRevocationKeeps | packages/database/migrations/0024_shared_node_pool.sql:131-136 | revoking a shared node keeps the invariant iff no command waits on it |
| BlockedReclaim.RevocationStrandsACommand | packages/database/migrations/0024_shared_node_pool.sql:131-136 | in a reachable state a command waits on a node, and revoking the node breaks the invariant |
| ControlPlaneInvariant.RepairIsIdle | packages/database/src/index.ts:337 | under the invariant no queued operation lacks its event |
| ControlPlaneInvariant.FinalizeKeeps | packages/database/src/index.ts:316 | tombstoning an endpoint without live operations keeps the invariant |
| ControlPlaneInvariant.GenerationFenceNeverFires | packages/database/src/index.ts:345 | a visible event's operation is queued, its endpoint exists and is at its generation |
| ControlPlaneInvariant.ProcessKeeps | packages/database/src/index.ts:338-353 | processing an event keeps the invariant |
| ControlPlaneInvariant.HeartbeatKeeps | packages/database/src/index.ts:300-312 | a heartbeat, takeover included, keeps the invariant |
| ControlPlaneInvariant.ClaimKeeps | packages/database/src/index.ts:358 | a claim keeps the invariant |
| ControlPlaneInvariant.ProgressKeeps | packages/database/src/index.ts:359 | progress keeps the invariant |
| ControlPlaneInvariant.ResultKeeps | packages/database/src/index.ts:361 | a result keeps the invariant |
| Observations.PruneIsInvisible | packages/database/src/index.ts:98-106 | deleting expired rows keeps the rows' order and the three rows readers look for |
| Observations.PruneKeepsExpiry | packages/database/src/index.ts:98-106 | deleting expired rows makes no other row expire or cease to |
| Database.PostgresDatabase.SupersedeActive | packages/database/src/index.ts:325-332 | the loop over active operations marks them, their commands and their events, and nothing else |
| Database.PostgresDatabase.MutateEndpoint | packages/database/src/index.ts:317-333 | computes the mutation transaction and its answer from the rows, keeping the invariant |
| Database.PostgresDatabase.SupersedeExpired | packages/database/src/index.ts:175-180 | expiry's supersession, in its own order of statements, has the same effect as a forced restart's |
| Database.PostgresDatabase.ExpiryAttempt | packages/database/src/index.ts:163-174 | an expiry is due iff every guard passes, and its number follows those recorded |
| Database.PostgresDatabase.EnqueueExpiryOperation | packages/database/src/index.ts:162-190 | computes the expiry transaction and its count, keeping the invariant |
| Database.PostgresDatabase.ReclaimStaleEndpoints | packages/database/src/index.ts:201-236 | a sweep succeeds iff no candidate it would reclaim has a reclaim recorded at its present generation; it then reclaims exactly the candidates none of whose three newest reclaims had succeeded when it began, and touches no endpoint or command row; else nothing is written |
| Database.PostgresDatabase.RepairMissingOutbox | packages/database/src/index.ts:337 | changes nothing and counts nothing |
| Database.PostgresDatabase.FinalizeEndpointDeletion | packages/database/src/index.ts:316 | finds the endpoint iff it is no tombstone yet; then leaves no observation, command or event of it, all operations and every other endpoint's rows as they were, and a valid database if nothing of it was live |
| Database.PostgresDatabase.ProcessOne | packages/database/src/index.ts:338-353 | takes the oldest visible event, if any, and computes its transaction, keeping the invariant |
| Database.PostgresDatabase.TakeOver | packages/database/src/index.ts:300 | the takeover's statements in sequence have the effect of one simultaneous update |
| Database.PostgresDatabase.ReportRuntime | packages/database/src/index.ts:300-311 | renews the one newest snapshot of an endpoint, or inserts the first |
| Database.PostgresDatabase.Heartbeat | packages/database/src/index.ts:300-312 | computes the heartbeat transaction over all reported runtimes, whose acceptance and rows `HeartbeatsAreHeard` and `HeartbeatsConnect` state, keeping the invariant |
| Database.PostgresDatabase.ClaimAgentCommand | packages/database/src/index.ts:358 | takes the oldest claimable command, if any, and computes the claim, whose choice and rows `ClaimsTakeTheOldest` and `LeasesExclude` state, keeping the invariant |
| Database.PostgresDatabase.RecordAgentProgress | packages/database/src/index.ts:359 | computes the progress transaction, keeping the invariant |
| Database.PostgresDatabase.RecordAgentResult | packages/database/src/index.ts:361 | computes the result transaction, keeping the invariant |
| Database.PostgresDatabase.PruneObservations | packages/database/src/index.ts:88-114 | refuses a batch size outside 1 to 200; else deletes at most that many expired rows, unseen by readers, and fills the batch or leaves nothing expired on the page, with the right cursor |
| Json.RoundTrip | packages/agent-journal/src/index.ts:273 | parsing the text of a JSON value gives the value back |
| Json.TextIsOneLine | packages/agent-journal/src/index.ts:273 | that text has no control character, so no newline |
| Canonical.CanonicalIsSorted | packages/agent-journal/src/index.ts:68-75 | canonical text is the text of the value with its fields in order at every depth |
| Canonical.EqualIsSame | packages/agent-journal/src/index.ts:68-84 | canonical texts are equal iff the values are the same up to the order of object fields |
| Utf8.RoundTrip | packages/agent-journal/src/index.ts:195 | decoding the UTF-8 bytes of a text gives the text back |
| Utf8.NewlineOnlyForNewline | packages/agent-journal/src/index.ts:185 | the newline byte occurs in encoded text only for a newline |
| Journal.RecordsAreWrittenOnce | packages/agent-journal/src/index.ts:233-255 | a receipt, effect or result once recorded stays what it was, whatever is recorded later |
| Journal.EntriesAreOrdered | packages/agent-journal/src/index.ts:233-255 | effects and results follow a receipt, and a result that does not say failed follows an effect |
| Journal.EntriesHoldTheFirst | packages/agent-journal/src/index.ts:233-255 | after any log that folds, each receipt, effect and result held is the data of the first event for it, and is there iff there is one |
| Journal.AcceptedIfFits | packages/agent-journal/src/index.ts:233-255 | one more event is accepted iff it fits the events in the log: the same payload as the first, an effect after a receipt and before a result, a result after a receipt and an effect unless it says failed |
| AgentJournal.LineRoundTrip | packages/agent-journal/src/index.ts:44-66 | reading a written record gives the record back, and it is one nonempty line |
| AgentJournal.RecordsAreStrict | packages/agent-journal/src/index.ts:44-66 | an object is read as a record iff it has exactly that record's fields, in any order, with names that are not empty and an object as data |
| AgentJournal.FailureIsSaid | packages/agent-journal/src/index.ts:248 | a payload counts as a failure iff it has the field that says so |
| AgentJournal.ReplayExactly | packages/agent-journal/src/index.ts:199-218 | a replay succeeds iff every line holds a record and the records fold, and gives their fold; else it names the first line at which they do not |
| AgentJournal.ReplayIsFold | packages/agent-journal/src/index.ts:195-219 | replaying what a log wrote gives the fold of the log |
| AgentJournal.PrefixRecovers | packages/agent-journal/src/index.ts:182-219 | any byte prefix of what a journal wrote opens, to exactly the fold of the records whose newline is in it |
| AgentJournal.WholeCovers | packages/agent-journal/src/index.ts:182-219 | a prefix holding the bytes of the first k records recovers at least those |
| AgentJournal.ReopeningAgrees | packages/agent-journal/src/index.ts:182-206 | opening a file again, as the first opening left it, gives the same entries or the same corrupt record iff the first did not pass over a last line that is not JSON behind a torn tail; if it did, that line fails the second |
| AgentJournal.DroppedLineFailsLater | packages/agent-journal/src/index.ts:204-206 | a file of one such line and a torn tail opens once, empty, and not again |
| AgentJournal.PrefixDropsNothing | packages/agent-journal/src/index.ts:204-206 | no prefix of what a journal wrote has such a line |
| FileJournal.FileAgentJournal.Open | packages/agent-journal/src/index.ts:97-231 | replays the lines before a torn tail, or fails at the corrupt record; the entries are what the kept file holds iff no line was passed over; on what an earlier run left it succeeds, passes over nothing and is a valid journal of the surviving records |
| FileJournal.FileAgentJournal.WriteAll | packages/agent-journal/src/index.ts:275-284 | the write loop puts out a prefix of the bytes, and all of them iff every write makes progress |
| FileJournal.FileAgentJournal.Append | packages/agent-journal/src/index.ts:270-294 | a refused record changes nothing; a failed write poisons the journal and leaves the entries at the last acknowledged state; else file and entries grow by the record |
| FileJournal.FileAgentJournal.RecordReceipt | packages/agent-journal/src/index.ts:295-306 | nothing is written when closed, poisoned or already recorded; accepted iff the log has the same payload up to field order, or none and the write works; then the entry holds that payload |
| FileJournal.FileAgentJournal.RecordEffect | packages/agent-journal/src/index.ts:307-324 | the same for effects, by effect id, which also need a receipt and no result in the log |
| FileJournal.FileAgentJournal.RecordResult | packages/agent-journal/src/index.ts:325-336 | the same for results, which also need a receipt, and an effect unless they say failed |
| FileJournal.FileAgentJournal.Close | packages/agent-journal/src/index.ts:342-346 | keeps entries and file; from then on every record is refused, as the recording methods state |
| FileJournal.FileAgentJournal.CrashRecovers | packages/agent-journal/src/index.ts:182-219 | whatever prefix of its file a crash leaves opens to the fold of the whole records; nothing acknowledged is lost unless its bytes are |
| FakeRuntime.FakeRuntime.Open | apps/agent/src/index.ts:419-430 | reopening rebuilds records, actions and states from the file |
| FakeRuntime.FakeRuntime.Apply | apps/agent/src/index.ts:437-469 | an effect is applied once; a repeat is answered from its record; the file follows iff the write works |
| JournalCodec.RecordsOnDisk | packages/agent-journal/src/index.ts:233-255 | recording an event among entries of any keys and payloads is recording its written form among their written forms, refusals included |
| EndToEnd.WritesAreJournaled | packages/agent-journal/src/index.ts:270-294 | a journal write of an agent, failed or not, leaves the entries that opening the journal file gives after any part of the record's bytes |
| EndToEnd.MoveKeeps | apps/agent/src/index.ts:1158-1276 | every move of an agent, the control plane or a crash keeps the composed invariant |
| EndToEnd.SentNamesTheCommand | apps/agent/src/index.ts:1176-1182 | every result sent names the operation, endpoint, generation and epoch of the issued command of its id |
| EndToEnd.ResultsAgree | apps/agent/src/index.ts:1221-1275 | all results ever sent for one command id agree in all but session and attempt, across crashes, lost writes and re-leases |
| EndToEnd.ResultsComeFromLeases | apps/agent/src/index.ts:1268-1275 | every result sent is for a lease granted to that node and session |
| EndToEnd.JournalAnswersLikeFresh | apps/agent/src/index.ts:1221-1275 | an answer from the journal carries the evidence a fresh one would, so the control plane treats both alike |
| EndToEnd.OperationsEndAsJournaled | apps/agent/src/index.ts:1158-1276 | when the control plane takes a result, the operation ends with the outcome and state the agent's journal holds; `PollOutcomes` ties those to what was done |
| PollOutcomes.OutcomesAreEarned | apps/agent/src/index.ts:1221-1275 | over any run of moves a result sent says failed iff its sender's journal was given a failure of that command; else it says succeeded, with the state of the journaled effect, which a runtime call gave |
| PollOutcomes.OperationsEndAsDone | apps/agent/src/index.ts:1221-1275 | an operation that a result ends failed iff the journal was given a failure of its command, and succeeded only if the node's runtime was called for it and gave the state reported |
| PollOutcomes.EffectsAreNotRepeated | apps/agent/src/index.ts:1221-1233 | a process whose journal writes have not failed never calls the runtime for an effect or result on disk |
| PollOutcomes.UninterruptedPollAnswers | apps/agent/src/index.ts:1158-1276 | a poll that nothing interrupts answers its lease: with the journaled result, else success with the state of the journaled effect, else success with the state the runtime gives |
| Css.UrlsAdd | apps/api/src/runtime-proxy.ts:657-661 | the first pass adds only the prefix and its own letters |
| Css.ImportsAdd | apps/api/src/runtime-proxy.ts:657-661 | so does the second |
| Css.RewriteLacks | apps/api/src/runtime-proxy.ts:657-661 | rewriting a stylesheet never makes a closing tag appear in it |
| Css.UrlsComeBack | apps/api/src/runtime-proxy.ts:657-661 | the prefix comes off every URL that the first pass rewrote and off no other, which leaves the stylesheet as the pass spells it |
| Css.ImportsComeBack | apps/api/src/runtime-proxy.ts:657-661 | the same for the second pass |
| Css.StylesheetIsMounted | apps/api/src/runtime-proxy.ts:657-661 | in a rewritten stylesheet every `url(` and `@import` with a root-relative path, by its characters, begins with the prefix |
| Html.ScanIsLossless | apps/api/src/runtime-proxy.ts:526-567 | the text of the scanned tokens is the document, for every document |
| HtmlGrammar.ScanIsTheReading | apps/api/src/runtime-proxy.ts:526-627 | a sequence of tokens is what the scanner finds iff its text is the document and each token stands as the grammar says, character by character; so every document has exactly one reading |
| HtmlRewrite.NewValueFits | apps/api/src/runtime-proxy.ts:629-641 | a rewritten value holds nothing that would end a value of its quoting |
| HtmlRewrite.SrcsetIsPrefixed | apps/api/src/runtime-proxy.ts:635-638 | the replacement in a candidate list prefixes exactly the slashes with only whitespace between them and a comma or the start |
| HtmlRewrite.SrcsetUnchanged | apps/api/src/runtime-proxy.ts:635-638 | a candidate list is left alone iff no candidate begins with a slash |
| HtmlRewrite.SrcsetAsDocumented | apps/api/src/runtime-proxy.ts:635-638 | the rewrite of a candidate list is the documented one, which prefixes only candidates with a single slash, iff no candidate begins with two |
| HtmlRewrite.ProtocolRelativeCandidateMoves | apps/api/src/runtime-proxy.ts:524-524 | a protocol-relative candidate moves under the prefix although the documented rewrite leaves it alone |
| HtmlRewrite.UpstreamUndoesPrefix | apps/api/src/runtime-proxy.ts:197-202 | the upstream path of a rewritten root-relative URL or redirect is the path it was |
| HtmlRewrite.UpstreamUndoesSrcset | apps/api/src/runtime-proxy.ts:197-202 | the candidates of a rewritten list that begin with a slash are the original's, each under the prefix, and reach the runtime as they were |
| HtmlRescan.TagRescan | apps/api/src/runtime-proxy.ts:583-627 | the rest of a start tag with its values rewritten scans to the same pieces with those values |
| HtmlRescan.RescanIsMapped | apps/api/src/runtime-proxy.ts:526-567 | scanning a rewritten document gives the original's comments, tags, attribute names, quoting and raw text, with each value and style body changed as intended and nothing else |
| UrlResolution.DocumentsFollow | apps/api/src/runtime-proxy.ts:526-641 | token by token, every attribute named src, href, action, poster, formaction, data or background leads under the mount to where it led from the root and stays unless it begins with one slash; candidate lists and styles are rewritten as such, all else is the same |
| UrlResolution.BrowserFollows | apps/api/src/runtime-proxy.ts:633 | to a browser a rewritten URL leads to the same place iff browser and rewrite agree on whether it is rooted |
| UrlResolution.RedirectsFollow | apps/api/src/runtime-proxy.ts:501-503 | a redirect to a path leads under the mount to where it led from the root, and one to another host stays |
| UrlResolution.UpstreamIsAbsolute | apps/api/src/runtime-proxy.ts:197-202 | every upstream path is absolute, and is the root if the request does not name the mount |
| RuntimeProxy.ApplyEdits | apps/api/src/runtime-proxy.ts:643-651 | the splice loop makes the edits in place |
| RuntimeProxy.ParseTag | apps/api/src/runtime-proxy.ts:583-627 | the loops of the tag parser find the pieces, positions, ending and end of the token grammar, and terminate |
| RuntimeProxy.CollectEdits | apps/api/src/runtime-proxy.ts:526-567 | the scanner terminates on every document and collects exactly the edits of its tokens: attribute values and style bodies |
| RuntimeProxy.EditsRewrite | apps/api/src/runtime-proxy.ts:643-651 | the collected edits are in order, disjoint and in bounds, and making them gives the token rewrite |
| RuntimeProxy.RewriteHtmlAbsolutePaths | apps/api/src/runtime-proxy.ts:526-567 | the whole function computes the token rewrite, so that under a mount every URL attribute leads where it led from the root and nothing else changes but candidate lists and styles |
| Kubernetes.Driver.Put | apps/agent/src/runtime/kubernetes.ts:79-90 | creates an object or updates an owned one; touches no other and never a claim; fails on foreign labels, after five refused writes or when cut short, and for no other cause |
| Kubernetes.Driver.Ensure | apps/agent/src/runtime/kubernetes.ts:91-94 | wherever it stops, objects not being deleted when it began are as they were and any other is the owner's anew or still going, and a new workload finds the rest in place; when done every object that no delete had left behind is present and owned |
| Kubernetes.StoppedEnsureIsUnvouched | apps/agent/src/runtime/kubernetes.ts:91-94 | objects without a workload, as an ensure stopped after its first object leaves them, are a state that a delete may refuse |
| Kubernetes.Driver.Remove | apps/agent/src/runtime/kubernetes.ts:174-188 | deletes only the object with that uid; when done it is gone, and after 110 polls it is at least going |
| Kubernetes.Driver.Delete | apps/agent/src/runtime/kubernetes.ts:251-268 | wherever it stops the workload vouches for what is left; refuses only if it began unvouched, and then must if a survivor stays; when done only the claim is left; gives up only for cause; foreign objects and the claim are never deleted |
| Kubernetes.Driver.DeleteAgain | apps/agent/src/runtime/kubernetes.ts:251-268 | from a fully ensured runtime no number of interrupted deletes is ever refused |
| Kubernetes.Driver.DeleteData | apps/agent/src/runtime/kubernetes.ts:272-285 | deletes only the claim, and only with the labels of the named owner, or its own if none is named |
| Kubernetes.Driver.RollOut | apps/agent/src/runtime/kubernetes.ts:189-204 | marks the template before it deletes a pod, so that at most one pod is deleted for the operation wherever it stops; when done a pod runs that is another or bears the mark; asks for a restore only if the new pod is rejected or 110 polls pass |
| Kubernetes.Driver.Restart | apps/agent/src/runtime/kubernetes.ts:189-212 | one run keeps that promise unless it falls back to the old template; when done a pod runs that is another or bears the mark, and when rescheduled one runs under the old mark |
| Kubernetes.Driver.RestartAgain | apps/agent/src/runtime/kubernetes.ts:189-247 | any number of interrupted runs of one restart delete at most one pod until one falls back |
| Traffic.Accumulator.Prune | apps/agent/src/traffic.ts:205-210 | keeps exactly the accepted lines of the last five minutes |
| Traffic.Accumulator.Ingest | apps/agent/src/traffic.ts:157-173 | over overlapping windows and clocks that do not fall back, holds each line stamped within the last 300000 ms and 30000 ms ahead once, in order of time |
| Traffic.Accumulator.Summarize | apps/agent/src/traffic.ts:175-203 | counts messages by direction and bytes over 60000 and 300000 ms and in six buckets of 10000 ms that end with the current one, and lists the last forty, newest first |
| Traffic.BucketsPartition | apps/agent/src/traffic.ts:184-193 | consecutive buckets count every event of their span once |
| Traffic.SortIsStable | apps/agent/src/traffic.ts:170-171 | sorting keeps the order in which lines of one time came |
| Alerts.OfflineAlertExactly | packages/database/src/index.ts:20-34 | over any run an offline alert is raised iff the last alert since the reset was not offline and an unbroken run of recent offline samples spans the grace period |
| Alerts.OfflineSinceIsFirst | packages/database/src/index.ts:20-34 | the stored time is that of the first sample of the unbroken offline run, and there is none otherwise |
| Alerts.RecoveryAlertExactly | packages/database/src/index.ts:20-34 | over any run a recovery is reported iff a recent online sample comes and the last alert since the reset was offline |
| Alerts.AlertsAlternate | packages/database/src/index.ts:119-131 | since the last reset alerts alternate, offline first, and an incident is open iff the last was offline |
| Alerts.GapRestartsTheGrace | packages/database/src/index.ts:22-25 | an offline alert after a stale or silent sample comes a whole grace period after an offline sample that follows it, with only offline ones in between |
| Alerts.StateSaysWhatWasSeen | packages/database/src/index.ts:20-34 | the state kept is online, offline, pending or unknown by the last sample, its age and the length of the offline run |
| Reconciler.ConvergedMeansCompleted | packages/reconciler/src/index.ts:53-121 | completed results stay distinct, and a settled endpoint is connected with a completed result for exactly what is desired |
| Reconciler.NothingGoesBack | packages/reconciler/src/index.ts:53-121 | desired generation, epoch and completed results never fall back |
| Reconciler.AcceptedResultsReplay | packages/reconciler/src/index.ts:93-107 | an accepted result changes nothing when it comes again, however much later |
| Reconciler.StaleResultsAreIgnored | packages/reconciler/src/index.ts:93-107 | a result changes the state iff it is the one awaited |
| Reconciler.SettledExactly | packages/reconciler/src/index.ts:93-121 | an endpoint is converged, or failed with the reason given, iff an answer to exactly what it desires was the last event that changed it |
| Reconciler.DesiredIsLastWish | packages/reconciler/src/index.ts:57-75 | what is desired is the last wish of the highest generation |
| Reconciler.ProtocolFollowsLink | packages/reconciler/src/index.ts:76-90 | the protocol is the last connection event's and the epoch counts the losses |

## Left out

- Hard endpoint deletion, workspace cascades, membership, quotas and capacity admission: no invariant of the dispatch protocol rests on them.
- Payload columns: configuration, runtime requests, result bodies, messages and audit rows carry no control flow here; an operation's request stands for its digest.
- Workspaces and node-pool grants: every query is taken to be within one workspace whose nodes may serve its endpoints. Revoking a shared node's grant is `ControlPlane.RevokePool`, but not a step of runs; losing a node otherwise is the steps `DoUnassign` and `DoRevoke`, which runs may take apart.
- The trigger that guards claims of commands: it refuses a claim whose endpoint has left the node, and turns one whose grant is gone into a stale row. Claims here are not so guarded, so runs allow more than the code does.
- ControlPlaneSafety.DeleteEndsOnlyOnEvidence: runs contain no revocation of a shared node, whose triggers mark running deletes stale.
- ControlPlaneSafety.DeleteIntentSurvives: the same; a running delete does not survive such a revocation.
- Row locks and the reads before them: a transaction is atomic; `processOne` picks its event at the moment it locks it, and rows that SKIP LOCKED passes over are left to the caller's choice of page or candidates.
- The lease deadline copy on operations, receipt times and the receipt endpoint: nothing reads them in the protocol.
- Liveness: commands dispatched before a node's first heartbeat keep epoch 0 and are not re-issued by it.
- User idempotency keys shaped like expiry or reclaim keys: keys of the three kinds are taken to be distinct.
- Progress order across an unknown result: the stored progress is overwritten there, so sequences start anew.
- A sweep of reclaims or a page of pruning is one method call but, in runs, one step per endpoint; a sweep that is refused is no step.
- `notification_outbox` delivery, subscriptions and message text.
- File modes, fsync, directory locks and Windows branches of the journal: a sync either works or fails, and the file holds what was written.
- JSON text that the journal never writes (whitespace, repeated keys), lone surrogates, the reordering of integer-like keys, and UTF-16 order of keys: any fixed order of keys serves.
- FileJournal.FileAgentJournal.RecordEffect: effects are a map, so an effect named like an inherited object member (`constructor`, `toString`), which the code finds already there and refuses, is recorded.
- Timers, HTTP transport and the keepalive of the poll loop: a fence, a transport error or a crash ends a poll at any stage.
- EndToEnd.MoveKeeps: payloads are typed values rather than JSON (any faithful way to write them ties them to the file), and a poll may take any lease granted to its session, which allows more runs than the code does.
- FakeRuntime.FakeRuntime.Apply: one call at a time, so the queue per endpoint is not modelled.
- The Docker, NapCat, SnowLuma and LLBot runtimes and their probes.
- `frameDocument`, HTTP and WebSocket bridging, cookies and host checks of the proxy; absolute URLs in redirects.
- Lower-casing beyond ASCII in the rewriter: the scan folds ASCII letters only.
- UrlResolution.BrowserFollows: what a browser does to the rest of a URL (dot segments, percent-encoding, trailing whitespace) is not modelled; it does not depend on the prefix.
- Kubernetes.Driver.Put: what is written into an object besides its labels, resource versions and rendering.
- Kubernetes.Driver.Restart: other restarts between two runs of one operation; after a fallback the same operation may delete pods again.
- Traffic.Accumulator.Ingest: the line parsers are parameters; a line stands for its SHA-256 digest.
