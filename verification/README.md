# Deckent agent core: verified model

A Dafny model of the agent's conversation engine and of the smaller protocols around it, with proofs of what they
promise. `dafny verify dfyconfig.toml` checks the whole project (Dafny 4.11).

## What is modelled

**The conversation engine.** A provider rejects a request in which an assistant's tool call has no result or a result
has no call. `Pairing` states this as a grammar over message sequences and proves it equal to a left-to-right reader;
the rest of the engine is proved to keep it. `ContextBudget` fits a transcript into a token budget, `Transcript`
appends and evicts, `Lineage` carries recent tool exchanges into a fresh context epoch, `Generation` streams and joins
one assistant message, `ToolBatch` judges, prompts for and runs its calls, `AgentLoop` is a turn, `Session` is any
sequence of turns, epochs and budget renewals, `Checkpoint` plans and merges the summaries an epoch needs, and
`PermissionBridge` matches answers to prompts. The provider, the tools, the user, the guards, the context window and
every cancel are adversarial inputs: a round meets an arbitrary `RoundEnv`, so the main theorem
(`Session.AgentSession.RunSession`) speaks of every run. It assumes nothing of the provider's call ids; `DistinctIds` adds
what follows when none is used twice, `StrayEpochs` what the next request is when an epoch opens on a stray result, and
`AnsweredTurns` joins a session's prompts to the bridge's answers.

**Permissions.** `Permission` is the decision engine and the rule store; `Glob` compiles a permission pattern to a
regular expression's text and reads that text back by section 22.2 of ECMA-262.

**Streams.** `RunFlow` replays durable events to a client across disconnects (client behaviour: section 9.2 of the
WHATWG HTML Living Standard), over the subscriber sets of `FlowHub`; `FlowClients` puts any number of such
clients on one hub. `WorkerLogs` tails a growing file line by line.
`OutputStreams` polls a bounded line buffer and a capped event log.

**Containment and stores.** `Utf8` and `ToolResultBroker` bound what a tool result shows the model (section 3 of
RFC 3629). `TraceRecorder` and `ScratchStores` model files one operation at a time and may stop after any of them.
`Genealogy` walks parent links that may be cyclic.

`Messages`, `Decimals`, `Options` and `Sequences` are shared vocabulary.

## Reading the model

- Objects that the program updates in place are classes with the same fields; ghost fields record history that no code
  keeps (`epoch`, `log`, `consumed`, `sent`, `missed`). Loops are loops. Each is proved against a specification read off
  its inputs alone, and the lemmas are about that specification.
- A `string` is a sequence of Unicode scalar values, where the program counts UTF-16 code units. Numbers are unbounded;
  widths appear only as stated bounds (`MAX_STRING`, sixteen-digit counts).
- `RoundOk` (in `AgentLoop`) is what every round promises of the messages and rules it meets: if its past is clean, that is
  no epoch opened on a stray result, all its requests are pairing-complete; those messages are fitted with the unique fit;
  it sends only when admitted, at most three times, each request fixed by what it answers and the text so far; what
  it shows, proposes, commits and reports as errors follows from the provider's segments; its outcomes, its acts (prompts, grants, handler
  starts) and the rules it leaves are exactly those of its calls up to the first cancel. `TurnOk` says that what a round
  meets is what the rounds before it left, and `Performed` (in `Session`) the same of the operations of a session.

## What the model found

- `Lineage.LineageIsCompleteExactlyWhen`: an epoch opens with a stray result exactly when an id among the results its
  selection opens with is also among the calls selected. `Lineage.EpochOpensOnAStray`: it happens at the limit of 8 that the
  session uses (session.ts:485), with two rounds that share ids, and then the session's next request is incomplete
  (`StrayEpochs.SharedIdsAreSent`; exactly when, `StrayEpochs.RefreshedTurnExactlyWhen`). Backends without ids share them:
  provider-tooluse/openai.ts:101 and anthropic.ts:167 number the calls of each response from scratch.
- `PermissionBridge.SecondAnswerWaits`: with such ids, a second answer to one prompt settles the id's next prompt without
  anybody being asked; so does any answer left over in the turn (`PermissionBridge.Due`).
- `ContextBudget.FloorRefusesExactlyWhen`: the quarter-window floor can refuse a turn that would fit. Exactly then:
  `overhead + 4 <= window < overhead + ceil(window / 4)` and the floor is at least 8 tokens.
- `Glob.WholeToolGrantCoversOneLine`: the pattern `**` that every remembered grant carries does not match a resource
  with a line terminator, since `.` never does.
- `ToolResultBroker.TailFitsExactlyWhen`: the rendered size is documented as bounded always (tool-result-broker.ts:269-270);
  it is bounded exactly when the store's path or error fits beside the rest of the tail.
- `RunFlow.InOrderExactlyWhen`: a client that starts from a cursor ahead of the log is sent live events it did not ask
  for; exactly then. `RunFlow.FailedReadIsInOrderExactlyWhen`: when a failed durable read leaves a gap.
- `FlowHub.SecondUseIsHarmlessExactlyWhen`: an unsubscribe handle used twice cuts off later subscribers exactly when its
  own set has emptied (`FlowHub.LatecomerIsCutOff`). The stream's handler guards against a second use
  (run-flow-event-stream.ts:211-214).
- `TraceRecorder.RetentionOrphansExactlyWhen`: a file that cannot be removed is reported as deleted and loses its manifest
  entry; some policy does that exactly when a file that the manifest names cannot be removed.
- `TraceRecorder.RetentionSparesExactlyWhen`: some retention policy takes the records of a sprint whose manifest entry stays
  exactly when two sprints share a segment file that can be removed. `TraceRecorder.RetentionTakesAnothersRecords`: sprints `7` and `sprint-7`
  do.
- `OutputStreams.LogStream.Run`: the event stream is documented as missing nothing (output-stream.ts:286-287); it misses
  events exactly when its opening backfill or a poll finds more than 10000 new ones, and all up to its cursor go out
  otherwise. `OutputStreams.LogDoneIsDrainedExactlyWhen`: its `done` frame leaves events unsent exactly when the last read
  fails with events waiting (`OutputStreams.DoneLeavesEvents`).
- `WorkerLogs.TailAgreesExactlyWhen`: a read that ends inside a multi-byte character streams a wrong character, for good;
  with no such read the tail agrees with the file.
- `Genealogy.InverseExactlyWhen`: ancestors and descendants are inverse exactly when the empty id has no parent and is
  nobody's parent; `Genealogy.LowestIsUniqueExactlyWhen`: the lowest common ancestor is unique exactly when no two different
  agents are each other's ancestors, as two that are each other's parents are (`Genealogy.LowestOnACycle`), and
  `Genealogy.AgentGenealogy.RegisterAgent` says which registrations make one; nothing stops them.
  `Genealogy.AgentGenealogy.RemoveAgent`: removing `constructor`, never registered, is reported as done.

## Assumptions

- The consumer drives each turn to its end, and asks for no epoch and no other turn while one is in flight.
- A cancel seen within a batch stays seen for the rest of it.
- Appending to the durable event log and publishing are one step in one process, with strictly increasing sequences.
- The log's one writer numbers its events from one, strictly increasing.
- One opener of a scratch session at a time; one buffer per output stream; each connection subscribes a listener of its own.
- SHA-256 never collides: a digest is the text itself.

## Model

| member | source | states |
|---|---|---|
| `Messages.CostAppend` | src/agent/context-budget.ts:246-246 | the estimate of a concatenation is the sum of the estimates |
| `Messages.LastUserIs` | src/agent/context-budget.ts:256-260 | the boundary is the newest user message, and 0 when there is none |
| `Pairing.ReaderIsGrammar` | src/agent/context-budget.ts:221-228 | the reader accepts exactly the sequences in which every assistant call is followed by exactly its own results, in order, and no result is orphaned |
| `Pairing.CutAtUser` | src/agent/context-budget.ts:230-233 | cutting at any user message leaves exactly the same results owed |
| `Pairing.PeelTurn` | src/agent/context-budget.ts:224-226 | a whole turn at the front does not change whether the rest is complete, in both directions |
| `Pairing.RunResults` | src/agent/loop.ts:437-512 | a reader that owes ids is satisfied exactly by their results in that order and then a complete rest |
| `ContextBudget.FitMessagesToBudget` | src/agent/context-budget.ts:245-284 | the kept messages are a suffix, the estimate is its exact cost; nothing of the turn in flight is dropped; what is dropped makes the suffix open on a user message and be the longest such within budget, or the turn in flight; the estimate is at most max(budget, turn in flight) |
| `ContextBudget.FitIsUnique` | src/agent/context-budget.ts:217-244 | those guarantees leave one start index only |
| `ContextBudget.WalkBack` | src/agent/context-budget.ts:262-272 | every start before the one reached is over budget, and the one reached is within it unless it is the boundary |
| `ContextBudget.AdvanceToUser` | src/agent/context-budget.ts:274-280 | the start moves to the next user message or the boundary, the running estimate staying exact |
| `ContextBudget.AdmissionIsTailFits` | src/agent/loop.ts:185-207 | with the quarter floor out of play the fitted request is within the window if and only if overhead plus the turn in flight is; in all cases a fitting request implies a fitting turn |
| `ContextBudget.FloorRefusesExactlyWhen` | src/agent/loop.ts:193-197 | the windows and overheads for which some transcript is refused although its turn in flight fits, exactly |
| `Lineage.ComputeLineage` | src/agent/transcript.ts:160-177 | the loop computes the selection: newest first, results with an id, assistants narrowed to their answered calls, unpaired results dropped; of a complete transcript it carries the newest run of tool exchanges over, and else nothing but stray results of ids which that run also uses |
| `Lineage.ScanStep` | src/agent/transcript.ts:164-174 | each step keeps the selection settling exactly the named results the unread front still owes |
| `Lineage.PickIsNewest` | src/agent/transcript.ts:164-174 | the scan of a complete transcript selects exactly the newest messages of its tool exchanges, as many as the limit allows |
| `Lineage.PickSplits` | src/agent/transcript.ts:164-174 | wherever the limit stops the scan, the selection is stray results of calls it did not reach and then a complete part |
| `Lineage.LineageCarriesNewest` | src/agent/transcript.ts:160-177 | at every limit the lineage of a complete transcript ends in the longest run of the newest tool exchanges within the limit, named calls and results unchanged, never more than the limit in all; without strays it is exactly that run |
| `Lineage.NewestExchangesAreCarried` | src/agent/transcript.ts:160-177 | the exchanges of any complete newest part of a transcript are carried over whole if they are within the limit |
| `Lineage.LastExchangeIsCarried` | src/agent/transcript.ts:160-177 | a newest exchange that fits is carried over word for word: text, calls with their arguments, and outputs |
| `Lineage.LineageIsPairingComplete` | src/agent/transcript.ts:160-177 | for every limit the lineage of a complete transcript in which no two assistants share a non-empty id is complete, shares none either, and calls nothing new |
| `Lineage.LineageIsCompleteExactlyWhen` | src/agent/transcript.ts:160-177 | at any one limit the lineage of a complete transcript is complete if and only if no id of the results the selection opens with is among the calls selected |
| `Lineage.EpochOpensOnAStray` | src/agent/session.ts:485-485 | a complete transcript that opens on a user message, for any four ids, whose lineage at the limit of 8 that every epoch uses is not complete |
| `Lineage.LineageIsSafeExactlyWhen` | src/agent/transcript.ts:160-177 | the lineages of a complete transcript are complete at every limit if and only if no two of its assistants share a non-empty id |
| `Lineage.StrayResult` | src/agent/transcript.ts:164-177 | when they do, the limit at which a stray result opens the lineage |
| `Transcripts.WindowStartIsTheWindow` | src/agent/transcript.ts:133-140 | the longest suffix that opens on a user message within both limits, or the turn in flight, is one index, found by search from the front |
| `Transcripts.FitThenCutIsWindow` | src/agent/transcript.ts:146-148 | one token fit and then one count cut of a whole history give exactly that window |
| `Transcripts.WindowOfWindow` | src/agent/transcript.ts:141-155 | the window of an already cut history plus one message is the window of the whole history plus that message |
| `Transcripts.EvictionStaysWindowed` | src/agent/transcript.ts:141-155 | evicting after every append leaves what one cut of the whole epoch history would |
| `Transcripts.HeldWithinLimits` | src/agent/transcript.ts:129-155 | after any append what is held opens on a user message and is within both limits unless it is the turn in flight alone, and no longer end of the epoch history would be |
| `Transcripts.Retain` | src/agent/transcript.ts:141-148 | the kept suffix is the window when the transcript opens on a user message, and never cuts the turn in flight |
| `Transcripts.CutByCount` | src/agent/transcript.ts:182-193 | the count cut obeys the same boundary rule as the token fit |
| `Transcripts.PreambleKeepsPairing` | src/agent/transcript.ts:119-126 | two user messages in front of a lineage change neither whether it is complete nor its call ids |
| `Transcripts.AppendKeepsPairing` | src/agent/transcript.ts:78-97 | an append followed by any eviction leaves the reader where the append alone would |
| `Transcripts.Transcript.Evict` | src/agent/transcript.ts:141-155 | drops the same leading messages and entries and counts them; the cut is the window |
| `Transcripts.Transcript.Push` | src/agent/transcript.ts:78-97 | messages and entries stay in lock-step; kept plus dropped is all that was appended since the epoch opened |
| `Transcripts.Transcript.AppendUser` | src/agent/transcript.ts:65-83 | a stamped turn repeating the newest entry is refused and changes nothing; otherwise one stamped entry is added and the messages are the window of the epoch history |
| `Transcripts.ReplaysTheNewest` | src/agent/transcript.ts:65-83 | a stamped turn is taken for a repeat exactly when the newest message is that very text under that turn id |
| `Transcripts.Transcript.AppendAssistant` | src/agent/transcript.ts:85-91 | one entry under the current turn; the transcript then owes exactly the calls of that message; the messages are the window |
| `Transcripts.Transcript.AppendToolResult` | src/agent/transcript.ts:93-98 | answering the first owed call leaves exactly the others owed; the messages are the window |
| `Transcripts.Transcript.ReplaceForContextEpoch` | src/agent/transcript.ts:109-117 | messages and entries become the replacement, under one turn id, and a new epoch opens |
| `Transcripts.Transcript.CompactForContextEpoch` | src/agent/transcript.ts:119-126 | objective, checkpoint and lineage, in that order; of a complete transcript the lineage carries the newest run of its tool exchanges, and the result is complete if and only if the selection leads with no stray result, and then carries exactly that run |
| `Generation.RemoveRepeatedPrefix` | src/agent/loop.ts:40-46 | drops the longest overlap between the text so far and the new segment |
| `Generation.JoinIsShortest` | src/agent/loop.ts:40-46 | the joined text is the one shortest string that starts with the previous text and ends with the new segment |
| `Generation.Consume` | src/agent/loop.ts:287-328 | the text, calls and stop reason of a segment are those its events spell, the last stop reason counting; the first segment is shown exactly as it arrives; a cost overrun, and only that, ends the turn at once |
| `Generation.StreamsConcatenate` | src/agent/loop.ts:283-325 | text and calls of a stream are those of its parts in order, the last reported stop counts, and one report over the ceiling is enough |
| `Generation.TakeSegment` | src/agent/loop.ts:287-372 | a segment completes, continues or ends its round exactly as its ending, stop reason, ceiling and cancel say; a length-cut segment proposes nothing |
| `Generation.Generate` | src/agent/loop.ts:277-383 | at most three requests, each the round's messages, and a later one then, as one assistant message without calls, exactly the text shown when it went out, and the instruction to go on; the round stops on the first segment not cut by length; committed text is exactly what was shown and calls exactly those proposed, all from a segment not cut by length; the errors reported are exactly those of the segment it stops on |
| `Generation.CommittedIs` | src/agent/loop.ts:329-350 | the committed text is what was shown: the first segment's text, each continuation making it the shortest text that starts with what was there and ends with the new segment |
| `Generation.RequestsArePaired` | src/agent/loop.ts:367-371 | from complete messages every request of a round is complete |
| `Generation.ContinuationIsPairingComplete` | src/agent/loop.ts:367-371 | a continuation request is complete |
| `Generation.Propose` | src/agent/loop.ts:339-342 | every call of a complete segment is proposed once, in order |
| `ToolBatch.RunCall` | src/agent/loop.ts:441-512 | the outcome, every act in order and the rules afterwards are those the effective tier, the decision and the answer give; its handler starts only after its own prompt and an answer that is no rejection, or, off the floor, as a silent call, in a mode that covers the tool, or under a grant of that very tool which denotes the resource; never when a rule denies a one-line resource |
| `ToolBatch.TierIsFor` | src/agent/loop.ts:446-458 | an elevated call and a destructive shell command are always asked about and a reading one is silent; any other call has the tier the policy maps its name to, else its category, else its own |
| `ToolBatch.StartIsWarranted` | src/agent/loop.ts:446-506 | a handler starts for a reason only: its own prompt and answer, or, off the floor, a silent tier, a mode that covers the tool, or a grant of that tool which denotes the resource |
| `ToolBatch.OutcomeExactlyWhen` | src/agent/loop.ts:441-511 | for one-line resources exactly when a call is unknown, denied, rejected, or run, and then with its own handler's result |
| `ToolBatch.ActsTell` | src/agent/loop.ts:461-511 | each call is asked about or decided once, first of all, and reported once, last of all, with how it ended |
| `ToolBatch.ExecutingIs` | src/agent/loop.ts:450-512 | a handler starts exactly when the outcome says so, and under the effective tier |
| `ToolBatch.ExecutingOnce` | src/agent/loop.ts:506-512 | a handler starts at most once for a call |
| `ToolBatch.FloorCallPrompted` | src/agent/loop.ts:450-506 | a floor call starts only right after a prompt for that very call answered with no rejection |
| `ToolBatch.GrantIs` | src/agent/loop.ts:487-500 | what a call makes active is exactly a grant of the called tool, after a prompt the user wanted remembered, never for an elevated call |
| `ToolBatch.FloorPromptedAppend` | src/agent/loop.ts:487-506 | that promise about floor calls survives putting runs of calls one after another |
| `ToolBatch.BatchExecutes` | src/agent/loop.ts:437-512 | over a batch handlers start exactly for the calls before the first cancel whose outcome is that they ran, under their effective tiers |
| `ToolBatch.BatchFloorPrompted` | src/agent/loop.ts:437-512 | no floor call of a batch starts without such a prompt |
| `ToolBatch.BatchIsWarranted` | src/agent/loop.ts:437-512 | every handler a batch starts is started for such a reason, the grant being active before the batch or given in it before the start |
| `ToolBatch.BatchGrants` | src/agent/loop.ts:437-512 | the rules active after a batch are those before and what its remembered, not elevated prompts granted |
| `ToolBatch.RunUntilCancelled` | src/agent/loop.ts:437-512 | up to the first cancel each call is judged under the rules the calls before it left, its acts follow those of the calls before it, and its result is appended |
| `ToolBatch.CancelRest` | src/agent/loop.ts:514-524 | every call after the cancel gets a cancelled result |
| `ToolBatch.ResultsTell` | src/agent/loop.ts:442-524 | the appended results tell each call's outcome: the handler's output or error word for word, or the fixed text of an unknown, denied, rejected or cancelled call |
| `ToolBatch.RunBatch` | src/agent/loop.ts:437-524 | a transcript that owed the results of these calls owes nothing afterwards; the epoch history grows by exactly one result per call, in call order, whose text is what the handler returned or threw, or says that the call is unknown, denied, rejected or cancelled; the account of outcomes, acts and rules is exact: no act at or after the cancel, each call before it ending as its own handler did, each start for a reason |
| `AgentLoop.FitRequest` | src/agent/loop.ts:209-224 | what is fitted, and its required tokens, under the round budget |
| `AgentLoop.FittedIsPairingComplete` | src/agent/loop.ts:234-268 | what is fitted from complete messages is complete |
| `AgentLoop.Admit` | src/agent/loop.ts:234-268 | a checkpoint is asked for only when the first fit of what is held is over a known window, and then the fresh epoch is fitted; the fit is of the messages the transcript then holds |
| `AgentLoop.AdmissionIsExact` | src/agent/loop.ts:199-268 | of the messages a round meets: no first request above a known window is sent; the turn in flight is never cut; while the overhead leaves a quarter, the round is sent if and only if overhead plus the turn in flight fits |
| `AgentLoop.AdmittedInChars` | src/agent/loop.ts:185-268 | in characters: what is sent under a known window fits it with the system prompt, the schemas and both reserves, and no older turn that surely would have fitted was left out |
| `AgentLoop.RoundRunsPrompted` | src/agent/loop.ts:437-512 | a round starts handlers exactly for its calls that ran, under their effective tiers, floor calls only after their prompt |
| `AgentLoop.RoundTells` | src/agent/loop.ts:385-524 | a committed round adds the text it showed with the calls it proposed, then one result per call that tells how it ended, and starts every handler for a reason |
| `AgentLoop.RoundGrants` | src/agent/loop.ts:487-500 | the rules a round leaves active are those it met and its remembered, not elevated grants |
| `AgentLoop.Compact` | src/agent/session.ts:454-490 | an epoch leaves objective, checkpoint and a lineage of at most eight of what was held, complete unless that opens on a stray result |
| `AgentLoop.Commit` | src/agent/loop.ts:414-416 | the assistant message is appended unless it is empty, and then a complete transcript owes exactly its calls |
| `AgentLoop.FinishRound` | src/agent/loop.ts:385-526 | a committed round leaves a complete transcript complete, adds its assistant message and one result per call, accounts for outcomes, acts and rules exactly, and goes on exactly when it had calls and saw no cancel |
| `AgentLoop.RunRound` | src/agent/loop.ts:165-526 | a round keeps every promise of `RoundOk` of the messages and rules it finds: what is fitted is what the transcript holds, or the fresh epoch when the first fit was over the window; its own messages are then the only change |
| `AgentLoop.NextRound` | src/agent/loop.ts:138-163 | a round is skipped exactly when cancelled or out of rounds; it then reports an exhausted budget unless cancelled, and no other round does; the budget counts every round not cancelled before it began; an epoch at the guards' verdict comes first |
| `AgentLoop.FittedAfterEpoch` | src/agent/loop.ts:138-268 | a round is refused only after the epoch it was offered, with nothing but that epoch fitted; an epoch the guards ask for is taken before the round is fitted; either holds objective, checkpoint and at most eight messages |
| `AgentLoop.RunTurn` | src/agent/loop.ts:126-527 | round by round, each keeps `RoundOk` of what the rounds before it left in the transcript, the rules and the budget; rounds follow each other exactly while they go on; the turn ends with a turn-end |
| `AgentLoop.TurnWithoutEpochs` | src/agent/loop.ts:126-527 | while no epoch opens, the next request is read from the window of exactly what the turn began with and the messages of its rounds |
| `AgentLoop.TurnGrants` | src/agent/loop.ts:126-527 | over a turn the rules left active are those it began with and those its rounds granted |
| `AgentLoop.TurnStartsAreWarranted` | src/agent/loop.ts:126-527 | every handler a turn starts is started for a reason, the grant being active when the turn began or given by the user in it before the start |
| `AgentLoop.TurnIsPaired` | src/agent/loop.ts:126-527 | a turn that leaves a past in which no epoch opened on a stray result sent complete requests only |
| `Session.AgentSession.Attempt` | src/agent/session.ts:518-545 | one stamped attempt: its user message goes in unless the newest message is that text under the same turn id, and the rounds are those of such a turn |
| `Session.FirstRequestEndsInTheInput` | src/agent/loop.ts:126-268 | the first request of an attempt ends in the user's own message, whatever the window and the limits, unless an epoch opens in between |
| `Session.AgentSession.SendTurn` | src/agent/session.ts:510-549 | an epoch first if one is due, one attempt, and one more exactly after a refusal whose fresh epoch fits; an exhausted session does nothing |
| `Session.AgentSession.RunSession` | src/agent/session.ts:584-680 | over any run of sends, epochs and renewals, call ids repeated or not, what each operation does follows from what it finds; every round keeps `RoundOk`; every request sent before an epoch opens on a stray result is complete; an exhausted budget is lifted by a renewal only |
| `Session.RoundReports` | src/agent/loop.ts:138-163 | a round reports an exhausted budget if and only if it is skipped without a cancel |
| `Session.EachRoundCounts` | src/agent/loop.ts:140-141 | a turn that goes on has spent one native round on each of its rounds |
| `Session.RefusedExactlyWhen` | src/agent/session.ts:527-533 | an attempt is retried as refused exactly when its last round reported the refusal |
| `Session.TurnExhaustsExactlyWhen` | src/agent/session.ts:518-526 | a turn exhausts the session if and only if the last round of its last attempt was not cancelled and found the rounds spent above the cap or the guards' verdict to end, or without a native budget was beyond the iteration limit |
| `Session.PairedWhileClean` | src/agent/loop.ts:126-527 | as long as no epoch opened on a stray result, every request so far was complete |
| `Session.PromisesMean` | src/agent/loop.ts:437-512 | every floor call of every round is prompted for before it starts |
| `DistinctIds.HeldIsOrderly` | src/agent/transcript.ts:141-155 | what is held of a complete history without repeated ids is complete without repeated ids |
| `DistinctIds.CompactedIsOrderly` | src/agent/session.ts:454-490 | so is every epoch taken of it, which calls nothing new |
| `DistinctIds.TurnIsOrderly` | src/agent/loop.ts:126-527 | so is what a turn leaves, if its provider calls new ids only |
| `DistinctIds.DistinctSessionIsPaired` | src/agent/session.ts:584-680 | a session whose provider calls no non-empty id in two rounds sends complete requests only, whatever epochs it opens |
| `StrayEpochs.SuffixOfEpoch` | src/agent/transcript.ts:160-177 | every suffix of a fresh epoch, and of a user message after it, that opens on a user message is as complete as the lineage, or is that message alone |
| `StrayEpochs.RequestAfterEpochExactlyWhen` | src/agent/loop.ts:209-268 | whatever the window and the limits, the first request of a round that meets a fresh epoch is complete if and only if the epoch led nowhere or only the user's message is left of it |
| `StrayEpochs.RefreshedTurnExactlyWhen` | src/agent/session.ts:510-520 | in any run, so is the first request of a turn that an epoch precedes |
| `StrayEpochs.SharedIdsAreSent` | src/agent/session.ts:485-485 | a session that answered four calls and then three of the same ids, and takes an epoch, sends an incomplete request, for any four ids |
| `AnsweredTurns.FloorStartsAreAnswered` | src/agent/session.ts:571-582 | no floor call of a turn starts without a response, other than a rejection, that the user gave for its id in that turn |
| `AnsweredTurns.NoResponseServesTwo` | src/agent/session.ts:571-582 | no response answers two prompts of a turn |
| `PermissionBridge.DueSnoc` | src/agent/session.ts:573-635 | one more event moves the fate of a waiting request only, and how |
| `PermissionBridge.AheadSnoc` | src/agent/session.ts:573-627 | how one more event moves the response kept for the next request of an id |
| `PermissionBridge.AnswerIsTheirs` | src/agent/session.ts:573-635 | an answer was given for that very id in this turn or is a cancel's rejection; unanswered stays only a request that waits with no cancel, or whose place another request took |
| `PermissionBridge.AnswersOnce` | src/agent/session.ts:573-627 | no response answers two requests |
| `PermissionBridge.FirstRequestIs` | src/agent/session.ts:573-627 | the first request for an id has the last response given ahead of it, else the first reply after it |
| `PermissionBridge.SecondAnswerWaits` | src/agent/session.ts:573-627 | of two responses in a row to one id the second settles the next request for that id |
| `PermissionBridge.Bridge.RequestPermission` | src/agent/session.ts:573-582 | answered at once by a cancel or an answer kept for its id, else waiting, in the place of any request waiting for that id: every request of the turn has exactly the fate its events give it |
| `PermissionBridge.Bridge.RespondPermission` | src/agent/session.ts:617-627 | settles the request waiting for its id or is kept for the one to come, with the same account afterwards |
| `PermissionBridge.Bridge.CancelTurn` | src/agent/session.ts:628-637 | rejects everything that waits, with the same account afterwards |
| `PermissionBridge.Bridge.Turn` | src/agent/session.ts:573-635 | for every sequence of prompts, responses and cancels, ids repeated or not, each request has exactly the answer a definition over the event log gives it |
| `PermissionBridge.AskedCallRuns` | src/agent/loop.ts:474-506 | a call that must be asked about, floor calls always, runs exactly when its prompt's answer is no rejection, and then the user gave that answer for its id in this turn and had not cancelled before the prompt |
| `Checkpoint.BoundTextLength` | src/agent/session.ts:107-112 | a bounded text exceeds its limit by at most its identity marker |
| `Checkpoint.BoundKeeps` | src/agent/session.ts:107-112 | a text within its limit is kept word for word, any other by exactly its first characters, its length and sixteen characters of identity |
| `Checkpoint.PackLines` | src/agent/session.ts:115-130 | the chunks hold the non-empty lines in order and read as them when laid end to end, each within budget unless a single line, each too full for the next line |
| `Checkpoint.GreedyIsFewest` | src/agent/session.ts:115-130 | no other packing of the same lines within the budget has fewer chunks |
| `Checkpoint.PackingIsUnique` | src/agent/session.ts:115-130 | order, budgets and fullness leave one packing |
| `Checkpoint.LinesAreWhole` | src/agent/session.ts:115-131 | every packed line lies whole inside one chunk |
| `Checkpoint.RenderedFits` | src/agent/session.ts:140-149 | with a budget of at least 512 every rendered message fits on its own |
| `Checkpoint.RenderedLines` | src/agent/session.ts:144-148 | one line per message, in order: its role, and its content so kept |
| `Checkpoint.ChunksFit` | src/agent/session.ts:115-130 | lines that fit one by one pack into chunks that all fit |
| `Checkpoint.PlanCheckpointDelta` | src/agent/session.ts:140-149 | for every budget one line per message, in order, opening with its role and carrying its content whole up to max(128, min(2000, 2 * budget)) characters, and beyond that its first so many and a marker; every line whole inside one chunk, and the chunks read as the lines; for budgets of at least 512 each chunk fits |
| `Checkpoint.CheckpointRequestIsPairingComplete` | src/agent/session.ts:341-349 | a checkpoint request is the previous checkpoint, if there is one, and the delta, both whole, and is complete |
| `Checkpoint.SummarizeAll` | src/agent/session.ts:379-383 | the chunks go out in order up to the first call that fails; the partial summaries are exactly the bounded answers |
| `Checkpoint.MergeOnce` | src/agent/session.ts:379-385 | a merge succeeds exactly when every call does; its chunks are the packing of the bounded answers, no more than before, read as the non-empty ones in order; each answer is carried whole up to twice the budget in characters, beyond that its first so many and a marker, and lies inside one chunk |
| `Checkpoint.MergesToNothingExactlyWhen` | src/agent/session.ts:379-386 | a merge leaves nothing if and only if every answer is empty |
| `Checkpoint.SummarizeBoundedDelta` | src/agent/session.ts:370-388 | always ends, each request within budget; the merging failures, a failed call and the summary are each reported exactly when they happen: nothing left, more than one chunk left after four merges, the last call failed, the one chunk left was answered |
| `Checkpoint.CallsAreBounded` | src/agent/session.ts:370-388 | at least one call and at most 4k + 1 for k initial chunks |
| `Checkpoint.InitialChunksGoOut` | src/agent/session.ts:370-388 | the initial chunks go out first and in order, all of them unless a call fails |
| `Checkpoint.AccountIsOne` | src/agent/session.ts:370-388 | chunks, budget and answers decide every merge, every call and the result |
| `Permission.DecideIsMonotone` | src/agent/permission.ts:29-52 | more grants, a looser mode or a looser tier never tighten a decision; more denies never loosen one |
| `Permission.FloorNeverAutoAllows` | src/agent/permission.ts:35-51 | the calls that no grants and no mode ever let through unasked are exactly those on the floor and those denied; those that are always asked about exactly those on the floor and not denied |
| `Permission.AllowedHasReason` | src/agent/permission.ts:29-52 | a call goes unasked only as a silent one, in full-auto mode, in auto-edit mode when it is not the shell by any name, or under a grant of that very tool which denotes the resource; never from the floor |
| `Permission.DecisionExactlyWhen` | src/agent/permission.ts:29-52 | for one-line resources exactly when a call is denied, let through, or asked about |
| `Permission.RememberedIsNotAskedAgain` | src/agent/loop.ts:497-500 | once a tool is remembered none of its calls on one line is asked about, except exactly those on the floor and not denied |
| `Permission.RuleStore.Grant` | src/agent/permission-store.ts:138-146 | exactly this rule becomes active, and outlives the session exactly when the grant is a lasting one |
| `Permission.RuleStore.Revoke` | src/agent/permission-store.ts:147-152 | exactly this rule stops being active, in this session and those to come |
| `Permission.RuleStore.Run` | src/agent/permission-store.ts:132-152 | over any grants and revokes a rule is active exactly when it was granted and not revoked since, or was active before and never revoked; and the same, with lasting grants, of what the next session starts with |
| `Permission.RuleStore.ActiveRules` | src/agent/permission-store.ts:132-136 | persisted rules and then the session rules not among them |
| `Permission.FreshHolds` | src/agent/permission-store.ts:132-136 | nothing is lost or invented by skipping repeated rules |
| `Permission.GrantThenRevoke` | src/agent/permission-store.ts:138-152 | a grant makes exactly its own rule active and a revoke takes exactly that rule away |
| `Glob.GlobToRegExp` | src/agent/permission-types.ts:36-50 | the loop writes the anchored text of the pattern's pieces |
| `Glob.ReadsBack` | src/agent/permission-types.ts:36-50 | read by the rules of ECMA-262 the text splits into exactly those pieces, whatever characters the pattern has |
| `Glob.CompiledGlobDenotes` | src/agent/permission-types.ts:35-56 | for every pattern and every one-line resource the expression accepts exactly what the glob denotes |
| `Glob.AcceptedIsDenoted` | src/agent/permission-types.ts:35-56 | for every resource, whatever its lines, nothing is accepted that the glob does not denote |
| `Glob.WholeToolGrantCoversOneLine` | src/agent/permission-types.ts:32-56 | the whole-tool grant matches exactly the resources on one line |
| `RunFlow.CursorRoundTrip` | src/api/run-flow-event-stream.ts:128-141 | a reconnecting client resumes at the newest event it printed, a first connection at its own parameter |
| `RunFlow.AfterIs` | src/api/run-flow-event-stream.ts:194-198 | the durable read returns exactly the events numbered above the cursor |
| `RunFlow.AfterSplits` | src/api/run-flow-event-stream.ts:194-198 | a client holding the first part of what it is owed is owed exactly what follows its newest event |
| `RunFlow.EmitKeepsStep` | src/api/run-flow-event-stream.ts:184-190 | publishing at any point keeps received plus owed equal to all the durable events asked for |
| `RunFlow.ConnectKeepsStep` | src/api/run-flow-event-stream.ts:165-190 | so does a connect whose cursor is not ahead of the log |
| `RunFlow.ReadKeepsStep` | src/api/run-flow-event-stream.ts:192-194 | so does the durable read |
| `RunFlow.HarmlessFailureKeepsStep` | src/api/run-flow-event-stream.ts:192-201 | so does a failed read when everything owed has been buffered |
| `RunFlow.WriteKeepsStep` | src/api/run-flow-event-stream.ts:195-198 | so does each replayed frame |
| `RunFlow.FlushKeepsStep` | src/api/run-flow-event-stream.ts:202-207 | so does the flush, which leaves out exactly what was replayed |
| `RunFlow.DeliverKeepsStep` | src/api/run-flow-event-stream.ts:176-182 | so does each frame that arrives |
| `RunFlow.SoundKeepsStep` | src/api/run-flow-event-stream.ts:150-221 | so does every schedule of such steps |
| `RunFlow.InOrderExactlyWhen` | src/api/run-flow-event-stream.ts:150-221 | from the first connect on, no schedule of events, successful reads, frames, deliveries, disconnects and reconnects ever shows the client anything but a gap-free, duplicate-free, in-order prefix of the durable events after its start, if and only if the start was not ahead of the log |
| `RunFlow.FailedReadIsInOrderExactlyWhen` | src/api/run-flow-event-stream.ts:192-207 | after a failed durable read no later schedule leaves a gap if and only if everything owed had been buffered; with nothing buffered, if and only if nothing was owed |
| `RunFlow.NewerThan` | src/api/run-flow-event-stream.ts:203-206 | the flush writes exactly the buffered events beyond the replay |
| `RunFlow.Stream.EmitEvent` | src/api/run-flow-event-stream.ts:72-82 | one durable event more, buffered while replaying and written when live |
| `RunFlow.Stream.Subscribe` | src/api/run-flow-event-stream.ts:165-190 | subscribed before the durable read, at the cursor that travels as text |
| `RunFlow.Stream.ReadDurable` | src/api/run-flow-event-stream.ts:192-201 | the events after the cursor, or none when the read fails |
| `RunFlow.Stream.FlushBuffer` | src/api/run-flow-event-stream.ts:202-207 | live from here on, with the buffered events beyond the replay written |
| `RunFlow.Stream.Run` | src/api/run-flow-event-stream.ts:150-221 | any schedule takes the stream through exactly the states of the step relation; after a sound one the client has its prefix, and all of it once live and drained |
| `FlowHub.SubscribingAgrees` | src/api/run-flow-event-stream.ts:85-91 | after a subscribe each flow's set is exactly its live listeners |
| `FlowHub.UnsubscribingAgrees` | src/api/run-flow-event-stream.ts:92-95 | a handle used once takes away its own listener and nothing else |
| `FlowHub.PublishReachesItsFlow` | src/api/run-flow-event-stream.ts:72-82 | a publish reaches exactly the live listeners of its own flow |
| `FlowHub.SecondUseIsHarmlessExactlyWhen` | src/api/run-flow-event-stream.ts:92-95 | a handle used again leaves every flow's reach as it was if and only if its set still has someone or its flow has nobody; otherwise it cuts off everyone of the flow |
| `FlowHub.LatecomerIsCutOff` | src/api/run-flow-event-stream.ts:85-95 | on any flow without subscribers: one subscribes and leaves, another subscribes, and the first handle used again cuts it off |
| `FlowClients.HearsItsFlow` | src/api/run-flow-event-stream.ts:182-188 | a client hears an event if and only if it is of its own flow and the client is connected |
| `FlowClients.MoveKeepsConnected` | src/api/run-flow-event-stream.ts:182-217 | over any publish, connect or disconnect each client holds a handle of its own exactly while it is connected |
| `FlowClients.RunIsSeen` | src/api/run-flow-event-stream.ts:150-217 | over any interleaving of any number of clients, each connection goes exactly the way of a connection alone with its flow |
| `FlowClients.EveryClientInOrder` | src/api/run-flow-event-stream.ts:150-217 | then every client that starts within its flow's log has, as long as no durable read fails, an in-order prefix of its flow's events without gap or repeat |
| `FlowHub.Hub.Subscribe` | src/api/run-flow-event-stream.ts:85-96 | the returned handle is the only change to who is live |
| `FlowHub.Hub.Unsubscribe` | src/api/run-flow-event-stream.ts:92-95 | only that handle stops being live; it is spent from then on |
| `FlowHub.Hub.UnsubscribeAgain` | src/api/run-flow-event-stream.ts:92-95 | the new reach of every flow, and the hub stays consistent exactly in the harmless case |
| `WorkerLogs.SplitJoins` | src/api/worker-logs.ts:307-310 | splitting loses nothing and leaves no newline in a segment |
| `WorkerLogs.SplitInTwo` | src/api/worker-logs.ts:304-310 | splitting a text in two chunks with a carry is splitting it once |
| `WorkerLogs.LogLinesInTwo` | src/api/worker-logs.ts:304-317 | the lines shown and the carry do not depend on the chunking |
| `WorkerLogs.LineIsShown` | src/api/worker-logs.ts:304-317 | a complete line is streamed as it is, or without its carriage return; an empty one is not |
| `WorkerLogs.LogTail.DrainFresh` | src/api/worker-logs.ts:286-318 | after any drain the lines emitted are those of the text read since the last restart and the carry is the text after its last newline; an observed shrink restarts; an unreadable file changes nothing |
| `WorkerLogs.LogTail.Follow` | src/api/worker-logs.ts:286-318 | over any drains of a growing file, closed at any point: exactly the complete non-empty lines of what was read until then, carriage returns stripped |
| `WorkerLogs.LogTail.FollowBytes` | src/api/worker-logs.ts:286-318 | over any drains of a file whose bytes grow, read as UTF-8: the lines and the carry are those of the characters each read added |
| `WorkerLogs.TakenIs` | src/api/worker-logs.ts:286-305 | what a tail has taken in is the text so far with exactly the torn characters replaced, for good |
| `WorkerLogs.LinesDetermine` | src/api/worker-logs.ts:304-317 | texts with the same line breaks that show the same lines and leave the same carry are the same |
| `WorkerLogs.TailAgreesExactlyWhen` | src/api/worker-logs.ts:286-318 | once the whole file has been read, the tail agrees with it if and only if no read ever ended inside a character other than the replacement character |
| `Utf8.SliceUtf8` | src/agent/tool-result-broker.ts:141-147 | the encoding of the longest prefix of characters that fits, losing at most three bytes; all of it when it fits |
| `Utf8.BackUpLands` | src/agent/tool-result-broker.ts:144-146 | backing up over continuation bytes lands on that prefix |
| `Utf8.FittingPrefixIs` | src/agent/tool-result-broker.ts:141-147 | it fits, and one more character would not |
| `Utf8.DecodeEncode` | src/agent/tool-result-broker.ts:143-146 | decoding gives back every text |
| `Utf8.DecodePrefix` | src/api/worker-logs.ts:290-290 | the first n bytes of a text read as its longest prefix that fits, and one replacement character exactly when byte n is a continuation |
| `ToolResultBroker.ResolveExitTruth` | src/agent/tool-result-broker.ts:176-206 | ok exactly when the caller said so and no code, signal or marker speaks against it; the first failure names the reason; the caller's exit code wins |
| `ToolResultBroker.Contain` | src/agent/tool-result-broker.ts:218-258 | the whole envelope but its one-line summary: exact byte count, the longest prefix of the output within the cap, the whole when it fits; the same for stderr; the resolved truth with reason and exit code; a reference only to bytes stored with the same digest, the store's error otherwise |
| `ToolResultBroker.Render` | src/agent/tool-result-broker.ts:277-299 | a prefix of the preview and then the tail; within the hard cap exactly when the tail is; the preview itself when there is no tail |
| `ToolResultBroker.TailSays` | src/agent/tool-result-broker.ts:277-299 | the tail says, in the source's words, that the result is not ok and why, what was written to standard error, and when cut off how many bytes there were, their digest, and where the whole is or why it is nowhere |
| `ToolResultBroker.Broker` | src/agent/tool-result-broker.ts:302-304 | a small successful result without stderr is returned byte for byte; a failure that does not show, standard error and a cut are always said in the text; with countable numbers and a store path or error of at most 59000 bytes the text is within the hard cap; in general exactly when the store's text finds room beside the rest of the tail |
| `ToolResultBroker.TailFits` | src/agent/tool-result-broker.ts:277-299 | the tail fits whenever the store's path or error is at most 59000 bytes |
| `ToolResultBroker.TailFitsExactlyWhen` | src/agent/tool-result-broker.ts:267-299 | for every contained envelope the tail is within the hard cap if and only if the store's path or error is no longer than what the rest of the tail leaves |
| `ToolResultBroker.LongErrorOverflows` | src/agent/tool-result-broker.ts:267-299 | a store error as long as the cap overflows it, whatever the result |
| `Decimals.ParsesBack` | src/api/run-flow-event-stream.ts:114-139 | a printed sequence is read back |
| `TraceRecorder.JsonlRoundTrip` | src/agent/trace-recorder.ts:510-516 | lines written are the lines read |
| `TraceRecorder.FoldOnePerSprint` | src/core/trace-schema.ts:482-501 | the manifest has one entry per sprint |
| `TraceRecorder.FoldSums` | src/core/trace-schema.ts:482-501 | every sprint with records has an entry, and it counts exactly its records, names the file of the first, and spans the first to the last of their times |
| `TraceRecorder.FoldOfKeep` | src/agent/trace-recorder.ts:646-653 | dropping sprints' deltas drops exactly their entries and leaves every other entry as it was |
| `TraceRecorder.SelectSegmentsForDeletion` | src/agent/trace-recorder.ts:583-603 | oldest first, exactly the entries last of a time before the age allows and those with as many entries after them as may stay; nothing without a threshold |
| `TraceRecorder.PassSettles` | src/agent/trace-recorder.ts:583-603 | what survives numbers at most `maxSegments` and a second selection is empty |
| `TraceRecorder.TraceStore.Delete` | src/agent/trace-recorder.ts:627-648 | journal, then unlink, segment by segment, up to the crash |
| `TraceRecorder.RecordsTell` | src/agent/trace-recorder.ts:627-637 | one journal record for each deletion, in order, with all that was known of it |
| `TraceRecorder.TraceStore.ApplyRetention` | src/agent/trace-recorder.ts:614-657 | leaves exactly the state after as many of the planned file operations as the process survived, and reports every deletion |
| `TraceRecorder.DeletionsLeave` | src/agent/trace-recorder.ts:627-648 | after any part of the deletions the manifest is untouched and every missing file journaled |
| `TraceRecorder.FullIs` | src/agent/trace-recorder.ts:614-657 | a finished pass removes the chosen files that can be removed, drops exactly the chosen sprints' deltas, keeping all other lines in order, and journals each deletion once |
| `TraceRecorder.InterruptedIs` | src/agent/trace-recorder.ts:614-657 | a pass cut off anywhere is part-way through its deletions or finished |
| `TraceRecorder.FullIsFinal` | src/agent/trace-recorder.ts:614-657 | a second pass changes nothing; the count bound holds |
| `TraceRecorder.RerunAfterOneCrash` | src/agent/trace-recorder.ts:614-657 | a rerun after a crash reaches the same segments and manifest |
| `TraceRecorder.RetentionIsCrashSafe` | src/agent/trace-recorder.ts:605-657 | after any number of crashed passes every missing segment is journaled and one finished pass reaches the segments and manifest of an uninterrupted one |
| `TraceRecorder.SurvivorsKeepTheirFilesExactlyWhen` | src/agent/trace-recorder.ts:614-657 | for one policy: every entry that outlives the pass keeps its file if and only if no chosen entry shares it or it cannot be removed |
| `TraceRecorder.RetentionSparesExactlyWhen` | src/agent/trace-recorder.ts:583-657 | no policy ever takes the file of an entry that stays if and only if no file there is and can be removed belongs to two sprints of the manifest |
| `TraceRecorder.RetentionOrphansExactlyWhen` | src/agent/trace-recorder.ts:639-653 | some policy leaves a file that no entry names any more if and only if a file the manifest names is there and cannot be removed |
| `TraceRecorder.FoldNames` | src/agent/trace-recorder.ts:335-355 | a manifest of appends names for every sprint its own segment file |
| `TraceRecorder.PrefixedIdSharesTheFile` | src/core/trace-schema.ts:419-423 | a portable sprint id and the same id with the prefix `sprint-` have the same segment file |
| `TraceRecorder.RetentionTakesAnothersRecords` | src/agent/trace-recorder.ts:335-355 | after one append for a portable sprint id and one for the same id with the prefix `sprint-`, some policy takes the records of one with those of the other |
| `TraceRecorder.CollapseIdenticalLines` | src/agent/trace-recorder.ts:489-508 | kept: first occurrences of in-scope lines and all others; dropped: the repeats |
| `TraceRecorder.CollapseConserves` | src/agent/trace-recorder.ts:483-508 | every line is kept or dropped, once |
| `TraceRecorder.RepeatsAreKept` | src/agent/trace-recorder.ts:483-508 | only an in-scope line of which a copy is kept is dropped |
| `TraceRecorder.CollapsedKeeps` | src/agent/trace-recorder.ts:483-508 | no distinct line is lost |
| `TraceRecorder.CompactionIsIdempotent` | src/agent/trace-recorder.ts:531-576 | compacting what is compact changes nothing |
| `TraceRecorder.CompactionSparesOthers` | src/agent/trace-recorder.ts:562-575 | compacting one sprint's deltas leaves all other lines in place |
| `Sequences.ListingIsUnique` | src/agent/scratch-checkpoint.ts:250-252 | a listing by index is determined by what it lists |
| `ScratchStores.FoundIsKept` | src/agent/scratch-checkpoint.ts:254-257 | whatever a directory holds is a valid history to resume from |
| `ScratchStores.Publish` | src/agent/scratch-checkpoint.ts:285-286 | a rename adds the newest checkpoint and keeps all others |
| `ScratchStores.RemoveOldest` | src/agent/scratch-checkpoint.ts:288-292 | removals leave the newest ones, whole |
| `ScratchStores.Newest` | src/agent/scratch-checkpoint.ts:299-301 | the last listed file is the last published checkpoint |
| `ScratchStores.ScratchStore.constructor` | src/agent/scratch-checkpoint.ts:235-257 | the sequence resumes at the newest index found |
| `ScratchStores.ScratchStore.Files` | src/agent/scratch-checkpoint.ts:250-252 | exactly the checkpoints in the directory, by index |
| `ScratchStores.ScratchStore.Reopen` | src/agent/scratch-checkpoint.ts:254-257 | a new process resumes at the newest published index, everything else as it was |
| `ScratchStores.ScratchStore.WriteCheckpoint` | src/agent/scratch-checkpoint.ts:275-298 | for a failure after any number of file operations: exactly what is published, what temporary file is left, how many of the oldest are removed, and whether a receipt is given |
| `ScratchStores.ScratchStore.RemoveStale` | src/agent/scratch-checkpoint.ts:287-292 | removes oldest first, as many as operations succeed and no more than are over five |
| `ScratchStores.ScratchStore.ReadLatestCheckpoint` | src/agent/scratch-checkpoint.ts:299-314 | the newest published checkpoint, whole or reported corrupt |
| `ScratchStores.ScratchStore.Run` | src/agent/scratch-checkpoint.ts:235-314 | any run of writes, failures and restarts leads through exactly the states and gives exactly the receipts of its operations |
| `ScratchStores.StepsAreSane` | src/agent/scratch-checkpoint.ts:235-314 | published indices strictly increase over any run, none beyond the sequence, and once something was removed five or more are left |
| `ScratchStores.WroteIs` | src/agent/scratch-checkpoint.ts:275-286 | a write is published exactly when it got past its rename |
| `ScratchStores.LogIs` | src/agent/scratch-checkpoint.ts:275-286 | over any run what has been published is what was there and then, in order, the checkpoints of those writes |
| `ScratchStores.ReceiptLeavesTheNewest` | src/agent/scratch-checkpoint.ts:275-298 | at a receipt its checkpoint is the newest readable one and exactly the newest min(n, 5) are left |
| `ScratchStores.NewestIsTheLastWritten` | src/agent/scratch-checkpoint.ts:299-314 | over any run the newest readable checkpoint is that of the last write past its rename, whole, or the newest there was |
| `ScratchStores.ReceiptsIncrease` | src/agent/scratch-checkpoint.ts:275-298 | a later receipt has the greater index |
| `ScratchStores.NewestIsNoOlder` | src/agent/scratch-checkpoint.ts:275-314 | the newest readable checkpoint is no older than any receipt |
| `OutputStreams.PollAccounts` | src/api/output-stream.ts:219-242 | one poll keeps sent and missed an exact division of all positions so far, both in order |
| `OutputStreams.CircularBuffer.Push` | src/core/output-collector.ts:97-106 | the buffer holds the newest lines up to its capacity and counts the rest as dropped |
| `OutputStreams.OutputStream.constructor` | src/api/output-stream.ts:177-204 | the snapshot delivers what the buffer holds; what it had dropped is missed |
| `OutputStreams.OutputStream.Poll` | src/api/output-stream.ts:216-254 | what a tick sends, misses, closes and ends, exactly |
| `OutputStreams.OutputStream.Run` | src/api/output-stream.ts:158-271 | any schedule leaves the cursor, the connection and the buffer where its operations say, tick by tick, and has missed exactly what they skip: something if and only if a tick that delivers finds more than the capacity waiting; otherwise every line from the old cursor to the new has gone out, once and in order, and a last tick that delivers takes the cursor to the end |
| `OutputStreams.SkipsNothingExactlyWhen` | src/api/output-stream.ts:225-242 | a schedule skips nothing if and only if no operation takes the cursor over more than the capacity |
| `OutputStreams.SentIsTheRest` | src/api/output-stream.ts:219-242 | what was missed and the cursor determine what was sent |
| `OutputStreams.DoneIsDrained` | src/api/output-stream.ts:244-249 | the `done` frame of a finished worker is written by a tick that dealt with all that had come, and nothing is delivered after it |
| `OutputStreams.MaxSeq` | src/api/output-stream.ts:273-277 | bounds every sequence and is one of them, or 0 when none is positive |
| `OutputStreams.FreshIsTheRest` | src/core/output-collector.ts:366-381 | reading after the last sequence seen gives exactly the events after the cursor |
| `OutputStreams.NeverBelowOne` | src/core/output-collector.ts:377-381 | an event numbered zero or less reaches no client |
| `OutputStreams.LogStream.ReadLogEvents` | src/core/output-collector.ts:358-389 | the events after the cursor, the most recent 10000 of them; nothing when unreadable |
| `OutputStreams.LogStream.constructor` | src/api/output-stream.ts:321-338 | the backfill delivers the history up to the cap |
| `OutputStreams.LogStream.Poll` | src/api/output-stream.ts:340-372 | what a tick sends, misses, closes and ends, exactly |
| `OutputStreams.LogStream.Run` | src/api/output-stream.ts:301-388 | any schedule leaves the cursor and the connection where its operations say, and has missed exactly what they skip: something if and only if a check that delivers finds more than the cap; otherwise every event from the old cursor to the new has gone out, once and in sequence order, and a last check that delivers takes the cursor to the end |
| `OutputStreams.LogDoneIsDrainedExactlyWhen` | src/api/output-stream.ts:346-371 | the check that writes the `done` frame leaves the cursor at the end of what had come if and only if its read succeeded or nothing was waiting |
| `OutputStreams.DoneLeavesEvents` | src/api/output-stream.ts:346-371 | an event, then a failed read and a finished worker: done with the event unsent |
| `Genealogy.AgentGenealogy.GetAncestorChain` | src/agents/agent-genealogy.ts:149-163 | terminates on any links, cyclic or not; the chain climbs parent by parent and holds exactly the agent and its ancestors |
| `Genealogy.AgentGenealogy.FindCommonAncestor` | src/agents/agent-genealogy.ts:83-96 | none exactly when there is no common ancestor; otherwise a common ancestor of which every other one is an ancestor |
| `Genealogy.FirstCommonIsLowest` | src/agents/agent-genealogy.ts:89-93 | the first common agent of the chain is below all others |
| `Genealogy.LowestIsUnique` | src/agents/agent-genealogy.ts:83-96 | without cycles it is the only lowest one |
| `Genealogy.LowestIsUniqueExactlyWhen` | src/agents/agent-genealogy.ts:83-96 | for every two agents there is at most one lowest common ancestor if and only if no two different agents are each other's ancestors |
| `Genealogy.LowestOnACycle` | src/agents/agent-genealogy.ts:83-96 | two agents that are each other's parents are both lowest |
| `Genealogy.AgentGenealogy.GetDescendants` | src/agents/agent-genealogy.ts:101-118 | terminates on any links; exactly the agents reached by one or more child steps, each once |
| `Genealogy.InverseExactlyWhen` | src/agents/agent-genealogy.ts:101-163 | for all agents, the empty id included, descendants and ancestors are inverse if and only if the empty id has no parent and is nobody's parent |
| `Genealogy.AgentGenealogy.RegisterAgent` | src/agents/agent-genealogy.ts:34-45 | one own key set or made; without cycles before, there are none after if and only if the new parent is not the agent or below it |
| `Genealogy.AgentGenealogy.RemoveAgent` | src/agents/agent-genealogy.ts:50-56 | one node gone; reported as removed exactly when it was registered or is a name every object inherits; removing makes no cycle |

## Left out

- Provider adapters, HTTP, SSE sockets, timers, file watching and abort signals: arbitrary inputs and schedules instead.
- JSON text, SHA-256 and the regular expressions that find exit, denial and error markers: inputs (`Markers`, `digest`).
- The token estimator is the four-characters rule on characters; the exact request measurement and its cache are not
  part of this model, nor is the session's own check that a fresh epoch fits (an input of the retry).
- The native budget's guards: the round cap is modelled, every other verdict of `guards/` is an arbitrary input, and so are
  cost ceilings, shell risk, self-modification and approval modes.
- The hidden-reasoning classification of recovery notices, usage accounting, compaction notices and tool-result view
  events: messages to a view, without effect on the transcript.
- System prompt composition, reference lineage, and the bounding of the previous checkpoint's text.
- Continuation requests are not re-measured against the window, so admission is claimed for a round's first request only.
- The rule store's file, its legacy migration and the worker approval gate.
- Session.AgentSession.RunSession: after an epoch opened on a stray result only the first request of a turn is judged (`StrayEpochs`), not the later ones.
- PermissionBridge.Bridge.StartTurn: forgets what is waiting without answering it, as a new turn does; with every turn driven to its end nothing is.
- Checkpoint.Fingerprint: stands for the sixteen hex digits of a digest by length only, because only the length enters the bounds.
- RunFlow.Stream.Subscribe: a client without any cursor gets no replay and is not modelled; frames are structures, not text, except for the cursor they carry.
- WorkerLogs.LogTail.Follow: the human-readable rendering of a line is left out, and so is the interleaving of log lines with worker events.
- WorkerLogs.LogTail.FollowBytes: offsets count characters, where the program counts UTF-16 code units, so what follows a torn character beyond U+FFFF (a lone surrogate) is not part of this model.
- Utf8.Decode: reads malformed bytes only as far as one replacement character each, because it is only used on whole texts and their first bytes.
- ToolResultBroker.Contain: the one-line summary field is left out, because nothing bounded depends on it.
- TraceRecorder.TraceStore.ApplyRetention: the staged file of the manifest's replacement and the journal are modelled, directory creation and torn appends are not; a file either can be removed or never can.
- Manifest repair after a crash between the two renames of a segment compaction: a rerun returns early (trace-recorder.ts:550), so losslessness and idempotence are proved of the collapsing itself.
- ScratchStores.ScratchStore.WriteCheckpoint: indices are unbounded numbers, one file per index; modes, symlink checks, the reaper and concurrent openers are not part of this model.
- OutputStreams.OutputStream.Run: the frame that announces a connection's time limit is not part of this model, it closes like a client that left; one buffer per stream; a collector that restarts a worker under the same id starts a new count.
- Genealogy.AgentGenealogy.GetDescendants: the alphabetical order of the returned list, because nothing else depends on it.
- The tail of live events, REST routes, authentication, enterprise configuration, analytics and the command line.
