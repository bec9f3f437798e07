# Verification of the session and run core

A Dafny model of the parts of ftre that carry state: the LLM stream protocol and its fallback, the
durable inbox and its dispatcher, context compaction, the ReAct loop and the Turn driver, admission
of runs, waiting for completions, session snapshots, the expansion of messages for a provider, and
the inline extension syntax. `dafny verify dfyconfig.toml` checks all of it.

How it is built:

- Code that changes things step by step is written as methods and classes (`Assembler`,
  `MutableInbox`, `Repository`, `RunState`, `Turn`, `CompletionRegistry`, `Session`, `Context`, and the
  loops of the chunker, the view builder, `compress_fast`, the message expansion and the parser). Each
  method is proved to compute a value function of the old state, and the results are lemmas about those
  functions.
- Protocols of several asyncio tasks (`InboxDispatch`, `Admission`, the compaction runs of `ContextView`,
  the snapshot writers of `SessionSnapshot`) are state machines. One step is what a task does between
  two awaits; a stretch under a session's lock is one step, except the write of a rollback, during which
  others may append, capture and read. The results hold for every interleaving.
- Hooks, the model, tools, token estimates and the folding of events into messages are arbitrary:
  parameters or the choice of a step.

| file | models | main results |
|---|---|---|
| `BlockAssembler.dfy` | `BlockAssembler` | blocks hold exactly their deltas; reordering across indices is invisible; accepted if and only if the stream obeys a grammar |
| `Fallback.dfy` | `stream_with_fallback` | exactly when the backup takes over; one finish, last; output of one provider only; the spliced stream is accepted by the assembler; what the consumer holds after either kind of takeover |
| `Inbox.dfy`, `InboxOps.dfy`, `InboxClaim.dfy` | the inbox operations | each keeps the inbox valid and does exactly its work; when `claim` is exact |
| `InboxRuns.dfy` | runs with crashes and reloads | every issued number in one place; delivery at most once; operations that died can be repeated |
| `InboxRejection.dfy` | what follows a rejected admission | when edits, removals and claims lose the inbox or raise |
| `InboxRepository.dfy` | the repository in place | the in-place operations are the ones above; commits before return |
| `InboxDispatch.dfy` | the dispatcher | one body at a time; a trigger is consumed; items are taken only as the hook decided; claims are in order if and only if each finds no older item |
| `ContextView.dfy` | `build_context_view` and runs of compactions | the shape of the view; what is trimmed; the boundary moves forward; when the view has one summary and when rebuilding is the identity |
| `CompressFast.dfy` | `compress_fast` | what is chosen; when a second call chooses nothing; when the protected turns keep their outputs |
| `TokenChunks.dfy` | the token chunker | the greedy partition, which is optimal |
| `React.dfy` | `decide` and the loop | when each action is taken; bounded model calls; termination; the fourth empty response |
| `TurnDriver.dfy` | the Turn driver | bounded recovery; one end event, last; agreement of outcome and status |
| `Admission.dfy` | `AgentService.run` over `AgentLoop.run_input` | mutual exclusion; exactly who is let in and who keeps an admission; at most one runtime call per request |
| `Completion.dfy` | `CompletionRegistry` | the cache is the recent completions; the fate of every waiter |
| `SessionSnapshot.dfy` | snapshot writers, reload, rollback, `events_after` | what a merge is; persisted messages are what the events say; when a rollback is safe and what is lost in it |
| `MessageSegments.dfy` | `_msg_to_dicts`, `append_reply_blocks` | lossless, the only such segmentation; decorations in order |
| `Utf8.dfy`, `QueryString.dfy`, `StringOrder.dfy`, `ExtensionParser.dfy` | the inline extension parser | print and parse are inverse exactly for well-formed references |
| `ExtensionText.dfy` | `parse` on texts with serialized references | a serialized reference splits any text; a text of references is parsed to exactly these if and only if nothing is found between them |

Where the code differs from what its comments or tests suggest, the model follows the code:

- `_feed_end` finalizes the accumulated text; the block carried by the chunk is only compared by type
  (block_assembler.py:191-204).
- `claim` pops by index, so a repeated id takes the neighbouring item with it
  (`RepeatedClaimLosesTheNext`).
- `admit` appends before it validates: a rejected caller-supplied number leaves the inbox in memory invalid
  although nothing is written (`AdmitRejectedIffClash`). `remove` and `edit` do not validate: after such
  a rejection they write a file that the next load sets aside, and the whole inbox is lost
  (`EditAfterRejectionLosesTheInbox`, `NumberTakenTwice`, `RemoveAfterRejectionIff`).
- The dispatcher chooses an item and later claims its request id; if the id is removed and admitted again
  in between, a newer item is claimed before an older one (`ReuseBreaksTheOrder`, with a run; `InOrderIff`
  says exactly when this happens).
- A message that arrives during a compaction can be what the next one speaks up to; it then lies before
  the first marker and the view shows two summaries (`NextCompactionShowsBoth`, `TwoSummariesRun`).
- `compress_fast` is described as a no-op when run twice. A result with an empty id is chosen again every
  time, because the view never trims the empty id (`SecondCallChoosesNothingIff`, `EmptyIdIsChosenAgain`).
  Its documentation keeps the protected turns whole; the view trims by id, so a protected output under
  the id of a chosen one is hidden too (`ProtectedOutputsStayIff`, `ProtectedOutputIsHidden`).
- After a `RetryRequest` the driver runs the same agent again in the same task, but the runner refuses a
  second ordinary run there, since it never forgets the first task (react_runner.py:344, 348). A retried
  Turn therefore ends failed or cancelled (`RetriedTurnNeverCompletes`, `RetriedTurnFails`).
- `run_input` gives up its reservation before it awaits the after-run hook, so direct runs can overlap
  that hook unless it has declared maintenance (`DirectRunsOverlapIff`); runs through the service cannot.
- A service call cancelled during its first notification, and no other, never gives up its admission
  (`KeptIffNotificationCancelled`, `LeakedAdmissionStays`; `ReachLeaked` gets there).
- The stale-writer guard of `_write_snapshot` is strict and a rollback keeps the sequence number: a writer
  in flight at that number restores the removed messages (`StaleWriterRestores`, `StaleWriterRun`).
  `flush_log` marks a clean session dirty, so such a writer can exist.
- An event appended while a rollback awaits its commit is dropped by `log.reset`, which also gives its
  sequence number out again: a client that had received it later misses another event without being told
  to resynchronise (`ReusedNumberIsMissed`, `MissedEventRun`).
- A reference that `parse_one` accepts can be one that it does not accept again after `serialize`, because
  percent-encoding makes it longer than the size bound (`NormalFormIff`, `NormalFormCanBeTooLarge`).

## Model

| member | source | states |
|---|---|---|
| BlockAssembler.Assembler.FeedChunk | packages/ftre-llm/src/ftre_llm/block_assembler.py:105-132 | feeding a chunk in place does to the whole assembler what the value step does, including every protocol error |
| BlockAssembler.Assembler.FeedStart | packages/ftre-llm/src/ftre_llm/block_assembler.py:152-165 | a block starts only at the next index and with a known type |
| BlockAssembler.Assembler.FeedDelta | packages/ftre-llm/src/ftre_llm/block_assembler.py:167-175 | text is appended to the open block of its index and type, to no other |
| BlockAssembler.Assembler.FeedToolDelta | packages/ftre-llm/src/ftre_llm/block_assembler.py:177-189 | arguments are appended; only non-empty call ids and names replace earlier ones |
| BlockAssembler.Assembler.FeedEnd | packages/ftre-llm/src/ftre_llm/block_assembler.py:191-204 | the accumulated block is stored and its index closed |
| BlockAssembler.Assembler.ValidateStream | packages/ftre-llm/src/ftre_llm/block_assembler.py:136-148 | the error of an incomplete stream, if it is one |
| BlockAssembler.Assembler.BlockList | packages/ftre-llm/src/ftre_llm/block_assembler.py:83-93 | the finished blocks by index, tool calls left out after truncation |
| BlockAssembler.FinishAndUsage | packages/ftre-llm/src/ftre_llm/block_assembler.py:83-131 | tool calls are left out exactly after a finish for want of tokens; the usage is the last one reported |
| BlockAssembler.Assemble | packages/ftre-llm/src/ftre_llm/block_assembler.py:51-62 | feeding a whole stream and validating it gives its blocks or its first error, and blocks exactly for the sentences of the grammar |
| BlockAssembler.FeedAll | packages/ftre-llm/src/ftre_llm/block_assembler.py:51-62 | feeding stops at the first violation, and otherwise holds what the whole stream says |
| BlockAssembler.RunAgrees | packages/ftre-llm/src/ftre_llm/block_assembler.py:152-204 | at every index the assembler holds what the chunks of that index alone say |
| BlockAssembler.BlocksHoldTheirDeltas | packages/ftre-llm/src/ftre_llm/block_assembler.py:215-230 | block i is a text, thinking or tool-call block as its one start says, with the concatenation of the deltas of index i, for i from 0 without gaps |
| BlockAssembler.OpenBlockTakesIff | packages/ftre-llm/src/ftre_llm/block_assembler.py:167-218 | which deltas, ends and starts an open block of each type takes |
| BlockAssembler.ReorderingIsInvisible | packages/ftre-llm/src/ftre_llm/block_assembler.py:64-93 | two accepted streams with the same chunks per index give the same blocks and validation |
| BlockAssembler.FeedChecksMayFollow | packages/ftre-llm/src/ftre_llm/block_assembler.py:105-213 | a chunk is accepted exactly when it may follow the chunks before it |
| BlockAssembler.AcceptsIffEachMayFollow | packages/ftre-llm/src/ftre_llm/block_assembler.py:105-213 | a stream is fed without error exactly when each chunk may follow its prefix |
| BlockAssembler.AcceptedIffGrammar | packages/ftre-llm/src/ftre_llm/block_assembler.py:105-213 | all feeds and the validation pass exactly for the streams of a declarative grammar |
| BlockAssembler.RefusedIsReported | packages/ftre-llm/src/ftre_llm/block_assembler.py:105-213 | which protocol error the first chunk that may not follow is reported as |
| BlockAssembler.IncompleteIsReported | packages/ftre-llm/src/ftre_llm/block_assembler.py:136-148 | blocks without an end are reported first, then the missing finish |
| Fallback.StreamWithFallback | packages/ftre-llm-fallback/src/ftre_llm_fallback/stream.py:44-160 | what the generator yields and how it ends, for every primary, policy and backup |
| Fallback.ForwardPrimary | packages/ftre-llm-fallback/src/ftre_llm_fallback/stream.py:61-107 | which chunks of the primary are forwarded and which error is held back |
| Fallback.RelayBackup | packages/ftre-llm-fallback/src/ftre_llm_fallback/stream.py:129-160 | the backup's failing finishes are swallowed, its success ends the stream |
| Fallback.HeldIff | packages/ftre-llm-fallback/src/ftre_llm_fallback/stream.py:163-181 | the primary's error is held back exactly if nothing was shown before its first finish, it ends in an error on the last attempt of a call that is enabled and not cancelled, and the error is listed, not excluded and speaks of no overflow |
| Fallback.ConsumerGets | packages/ftre-llm-fallback/src/ftre_llm_fallback/stream.py:59-160 | in exactly that case the consumer gets the backup's chunks or the held error, otherwise the primary's own chunks |
| Fallback.RelayedIs | packages/ftre-llm-fallback/src/ftre_llm_fallback/stream.py:129-151 | a failing finish of the backup is left out and what follows it relayed, any other finish is the end and the success |
| Fallback.EndsAs | packages/ftre-llm-fallback/src/ftre_llm_fallback/stream.py:59-160 | the generator ends as the primary did when no backup is asked for; otherwise it returns unless it was cancelled |
| Fallback.OneFinishAndItIsLast | packages/ftre-llm-fallback/src/ftre_llm_fallback/stream.py:59-160 | at most one finish chunk is emitted, and only as the last chunk |
| Fallback.OneProviderCommits | packages/ftre-llm-fallback/src/ftre_llm_fallback/stream.py:184-197 | all chunks that commit output come from one provider |
| Fallback.SplicedIsAccepted | packages/ftre-llm-fallback/src/ftre_llm_fallback/stream.py:44-160 | if the assembler accepts both providers' chunks, it accepts the spliced stream, also when the backup fails midway |
| Fallback.TakeoverShowsTheBackup | packages/ftre-llm-fallback/src/ftre_llm_fallback/stream.py:109-151 | after a successful takeover the assembler ends up where the backup alone would bring it |
| Fallback.FailedTakeoverReportsThePrimary | packages/ftre-llm-fallback/src/ftre_llm_fallback/stream.py:109-160 | after a failed takeover the assembler holds what the backup sent before its failure, finished by the primary's error |
| TokenChunks.ChunkMessages | packages/ftre-compaction/src/ftre_compaction/service.py:965-986 | the accumulator loop computes the greedy partition |
| TokenChunks.ChunksPartition | packages/ftre-compaction/src/ftre_compaction/service.py:965-986 | the chunks concatenate to the input, each fits the limit or is a single message |
| TokenChunks.ChunksAreFull | packages/ftre-compaction/src/ftre_compaction/service.py:965-986 | no chunk could take the first message of the next one |
| TokenChunks.ChunksAreOptimal | packages/ftre-compaction/src/ftre_compaction/service.py:965-986 | no other such partition has fewer chunks |
| Inbox.ValidatesIffConsistent | packages/ftre-inbox/src/ftre_inbox/models.py:152-161 | the validation accepts exactly the inboxes with unique ids and numbers and both queues in order |
| Inbox.PendingIsStrict | packages/ftre-inbox/src/ftre_inbox/models.py:94-96 | the pending list of a valid inbox is strictly ordered by number |
| Inbox.PopAtIsWithout | packages/ftre-inbox/src/ftre_inbox/repository.py:102-104 | popping a place removes exactly the item that stands there |
| Inbox.FindFinds | packages/ftre-inbox/src/ftre_inbox/repository.py:186-192 | the search finds the first item with the id, next-turn first, exactly if there is one |
| InboxOps.UnnumberedIsAdmitted | packages/ftre-inbox/src/ftre_inbox/repository.py:67-88 | an unnumbered admission gets the next number and keeps the inbox valid |
| InboxOps.AdmitAnswers | packages/ftre-inbox/src/ftre_inbox/repository.py:72-78 | an id that was seen or waits is answered as a duplicate, then a full inbox as full, and only otherwise an item is admitted |
| InboxOps.AdmitQueues | packages/ftre-inbox/src/ftre_inbox/repository.py:79-88 | the admitted item stands in the queue it was sent to, with its number, and the rest of the inbox is as before |
| InboxOps.AdmitRejectedIffClash | packages/ftre-inbox/src/ftre_inbox/repository.py:79-87 | a numbered admission is rejected exactly when its number clashes, and then stays in memory |
| InboxOps.RemoveIsWithout | packages/ftre-inbox/src/ftre_inbox/repository.py:110-120 | removing takes exactly the named item |
| InboxOps.EditKeepsPlaces | packages/ftre-inbox/src/ftre_inbox/repository.py:122-143 | editing changes one item's content and nothing about places, ids or numbers |
| InboxOps.PromoteKeepsPendingOrder | packages/ftre-inbox/src/ftre_inbox/repository.py:145-169 | promoting moves an item between the queues and leaves the order of all pending items alone |
| InboxOps.PromoteMoves | packages/ftre-inbox/src/ftre_inbox/repository.py:145-169 | a waiting turn item moves to the steps and becomes the user's, a step item stays as it is |
| InboxOps.EditAndRemoveAnswer | packages/ftre-inbox/src/ftre_inbox/repository.py:110-143 | an edit answers with the edited item, a removal with the removed one |
| InboxOps.AbsentIsLeft | packages/ftre-inbox/src/ftre_inbox/repository.py:110-169 | for an id that does not wait all three change nothing |
| InboxClaim.PopAllIsWithout | packages/ftre-inbox/src/ftre_inbox/repository.py:103-104 | popping distinct places by falling index, across both lists, is filtering their ids out |
| InboxClaim.ClaimIsAFilter | packages/ftre-inbox/src/ftre_inbox/repository.py:90-108 | claiming distinct ids takes all of them in the order asked, or changes nothing |
| InboxClaim.ClaimIsExactIffDistinct | packages/ftre-inbox/src/ftre_inbox/repository.py:90-108 | for pending ids a claim removes exactly the named items if and only if no id repeats |
| InboxClaim.RepeatedClaim | packages/ftre-inbox/src/ftre_inbox/repository.py:94-108 | a doubled id pops its place and then the item that moved up behind it, raising if there is none; the first item is returned twice if what is left is valid |
| InboxClaim.RepeatedClaimLosesTheNext | packages/ftre-inbox/src/ftre_inbox/repository.py:102-104 | a repeated id loses the item behind it |
| InboxRuns.ReloadsIffPersistable | packages/ftre-inbox/src/ftre_inbox/models.py:120-150 | loading what was written gives the same inbox exactly when it is valid and no agent id or history id is empty |
| InboxRuns.LoadsAsIff | packages/ftre-inbox/src/ftre_inbox/models.py:130-161 | any file gives an inbox exactly if its version, sources and targets are known, these are its items in order with empty agent and history ids filled in, and the inbox is valid |
| InboxRuns.CommitsIffChanged | packages/ftre-inbox/src/ftre_inbox/repository.py:67-169 | an operation of the service commits exactly if it changed the inbox, and then as its next revision |
| InboxRuns.EveryStepKeeps | packages/ftre-inbox/src/ftre_inbox/repository.py:67-169 | one operation, whenever the process dies in it, keeps validity, capacity and every issued number in one of pending, claimed, removed |
| InboxRuns.EveryRunKeeps | packages/ftre-inbox/src/ftre_inbox/repository.py:38-209 | the same over every run from an empty inbox, with any number of crashes and reloads |
| InboxRuns.DeliveredAtMostOnce | packages/ftre-inbox/src/ftre_inbox/repository.py:90-108 | no item is returned by claim twice, and a returned item is neither in memory nor on disk |
| InboxRuns.DeadOperationsCanBeRepeated | packages/ftre-inbox/src/ftre_inbox/repository.py:194-209 | however often a process dies before the write of an operation, the world is as before the first attempt and repeating the operation leads where doing it at once would have led |
| InboxRuns.DeathAfterCommitLosesTheClaim | packages/ftre-inbox/src/ftre_inbox/repository.py:105-108 | dying after the write loses the claim: nobody got the items and they are gone |
| InboxRejection.LoadsIffValid | packages/ftre-inbox/src/ftre_inbox/repository.py:38-54 | a written inbox is loaded again if and only if it is valid |
| InboxRejection.EditAfterRejectionLosesTheInbox | packages/ftre-inbox/src/ftre_inbox/repository.py:122-143 | in every reachable world an edit after a rejected admission writes a file whose next load gives an empty inbox, although the rejection alone lost nothing |
| InboxRejection.NumberTakenTwice | packages/ftre-inbox/src/ftre_inbox/repository.py:79-87 | such a run: one admission, a second one asking for its number, an edit |
| InboxRejection.RemoveAfterRejectionIff | packages/ftre-inbox/src/ftre_inbox/repository.py:110-120 | a removal after a rejected admission writes a loadable file exactly if it took the rejected item or the last one that clashed |
| InboxRejection.ClaimAfterRejectionIff | packages/ftre-inbox/src/ftre_inbox/repository.py:90-108 | a claim after a rejected admission returns its item exactly in that case and raises otherwise |
| InboxRejection.BetweenIsRejected | packages/ftre-inbox/src/ftre_inbox/repository.py:79-108 | a number between two waiting ones is rejected, and claiming the first of them then raises |
| InboxRepository.MutableInbox.Admit | packages/ftre-inbox/src/ftre_inbox/repository.py:71-88 | the in-place admission is the value operation |
| InboxRepository.MutableInbox.Claim | packages/ftre-inbox/src/ftre_inbox/repository.py:94-108 | the in-place claim, with its pops by falling index and the validation after them, is the value operation |
| InboxRepository.MutableInbox.Settle | packages/ftre-inbox/src/ftre_inbox/repository.py:105-108 | after the pops the revision is counted up and the items are returned exactly if what is left is valid |
| InboxRepository.MutableInbox.Remove | packages/ftre-inbox/src/ftre_inbox/repository.py:111-120 | the in-place removal is the value operation |
| InboxRepository.MutableInbox.Edit | packages/ftre-inbox/src/ftre_inbox/repository.py:129-143 | the in-place edit is the value operation |
| InboxRepository.MutableInbox.Promote | packages/ftre-inbox/src/ftre_inbox/repository.py:150-169 | the in-place promotion, with its sort, is the value operation |
| InboxRepository.Repository.Admit | packages/ftre-inbox/src/ftre_inbox/repository.py:67-88 | an admission changes its own session only and writes the file exactly when it succeeds |
| InboxRepository.Repository.Claim | packages/ftre-inbox/src/ftre_inbox/repository.py:90-108 | a claim changes its own session only; the file is written exactly when items are returned, and before that |
| InboxRepository.Repository.Remove | packages/ftre-inbox/src/ftre_inbox/repository.py:110-120 | a removal changes its own session only and writes the file exactly when it removed |
| InboxRepository.Repository.Edit | packages/ftre-inbox/src/ftre_inbox/repository.py:122-143 | an edit changes its own session only and writes the file exactly when it edited |
| InboxRepository.Repository.Promote | packages/ftre-inbox/src/ftre_inbox/repository.py:145-169 | a promotion changes its own session only and writes the file exactly when it moved an item |
| InboxRepository.Repository.DeleteSession | packages/ftre-inbox/src/ftre_inbox/repository.py:171-176 | a deleted session is gone from memory and disk, others are not touched |
| InboxRepository.Repository.LoadSession | packages/ftre-inbox/src/ftre_inbox/repository.py:38-54 | a readable and valid file is loaded under the session id stored in it and rewritten if it is of an older form; any other is set aside |
| InboxRepository.WrittenIsCurrent | packages/ftre-inbox/src/ftre_inbox/repository.py:45-51 | a file written here is never of an older form, so loading it does not write |
| InboxDispatch.AtMostOneBody | packages/ftre-inbox/src/ftre_inbox/service.py:307-392 | at most one dispatch body is running |
| InboxDispatch.TriggerIsKept | packages/ftre-inbox/src/ftre_inbox/service.py:307-329 | only the beginning of a dispatch takes a recorded trigger, together with the wish to wait |
| InboxDispatch.TriggerHasATask | packages/ftre-inbox/src/ftre_inbox/service.py:384-392 | a recorded trigger always has a live dispatch that can go on, and one that leaves hands the trigger to a new one |
| InboxDispatch.TriggerIsConsumed | packages/ftre-inbox/src/ftre_inbox/service.py:307-392 | in every run a recorded trigger is taken by a beginning dispatch before seven more dispatch steps, whatever else happens |
| InboxDispatch.TakenAsDecided | packages/ftre-inbox/src/ftre_inbox/service.py:339-358 | in every run a dispatch takes an item out of the queue only as the hook's last word on its candidate says: discarded or claimed |
| InboxDispatch.GivingUpTakesNothing | packages/ftre-inbox/src/ftre_inbox/service.py:341-383 | after the hook keeps the item, fails, or the dispatch leaves without asking, its own steps change neither queue |
| InboxDispatch.EveryDispatchCarriesOn | packages/ftre-inbox/src/ftre_inbox/service.py:330-371 | in every run a dispatch waits for idleness if asked to, looks if it may, takes the first turn as its candidate, and drops or claims exactly that one as was decided |
| InboxDispatch.NextClaimKeepsOrderIff | packages/ftre-inbox/src/ftre_inbox/service.py:339-358 | in every state reached in order a claim keeps the order exactly if no waiting turn item is older than the one now under the chosen id |
| InboxDispatch.InOrderIff | packages/ftre-inbox/src/ftre_inbox/service.py:339-358 | a run claims in the order of the queue throughout exactly if each of its claims finds no older item waiting |
| InboxDispatch.ClaimsIncrease | packages/ftre-inbox/src/ftre_inbox/service.py:339-358 | successive dispatches claim strictly increasing numbers, whatever else the service does in between, as long as nothing is admitted under an id while a dispatch holds it |
| InboxDispatch.ReuseBreaksTheOrder | packages/ftre-inbox/src/ftre_inbox/service.py:339-358 | a run from the start in which a held id is removed and admitted again, and item 3 is claimed before item 2 |
| ContextView.BuildContextView | packages/ftre-compaction/src/ftre_compaction/context.py:17-78 | the builder computes the view: selection, order and trimming |
| ContextView.CollectTrimIds | packages/ftre-compaction/src/ftre_compaction/context.py:21-38 | the ids to trim, from id lists and from counts, given what was trimmed before |
| ContextView.ListTrims | packages/ftre-compaction/src/ftre_compaction/context.py:21-28 | a marker with a list trims its non-empty ids; other messages trim nothing |
| ContextView.CountTrimsFirst | packages/ftre-compaction/src/ftre_compaction/context.py:29-38 | a marker with a count trims the first results that are not trimmed yet, as many as it counts |
| ContextView.SelectedShape | packages/ftre-compaction/src/ftre_compaction/context.py:45-69 | the latest marker first, then every other message after its boundary in log order |
| ContextView.ViewShape | packages/ftre-compaction/src/ftre_compaction/context.py:45-78 | the place in the view of each message after the boundary |
| ContextView.OutputsAreShownUnless | packages/ftre-compaction/src/ftre_compaction/context.py:71-76 | exactly the outputs with trimmed ids are replaced by the placeholder, everything else of a shown message is as logged |
| ContextView.OneSummaryIff | packages/ftre-compaction/src/ftre_compaction/context.py:40-69 | one summary is shown exactly when the latest marker covers every earlier one |
| ContextView.RebuildIsIdentityIff | packages/ftre-compaction/src/ftre_compaction/context.py:17-78 | building the view of a view changes nothing exactly in that case (fast markers with id lists) |
| ContextView.EveryStepKeeps | packages/ftre-compaction/src/ftre_compaction/service.py:440-593 | arrivals, starts, ends and aborts of compactions keep ids unique, markers looking back and the capture beyond the boundary |
| ContextView.HeadEndsBeyond | packages/ftre-compaction/src/ftre_compaction/service.py:463-477 | what a compaction captures lies strictly beyond the present boundary |
| ContextView.FinishAdvances | packages/ftre-compaction/src/ftre_compaction/service.py:581-593 | a finished compaction moves the boundary strictly forward, to the captured message |
| ContextView.EveryRunKeeps | packages/ftre-compaction/src/ftre_compaction/service.py:294-330 | over every run of single-flight compactions the boundary has moved at least once per finished one |
| ContextView.NothingAfterTheBoundaryIsLost | packages/ftre-compaction/src/ftre_compaction/context.py:45-78 | in every reachable log a message is at or before the boundary or shown at its place |
| ContextView.ArrivalsDuringCompactionSurvive | packages/ftre-compaction/src/ftre_compaction/service.py:475-477 | what arrives while a compaction runs is after the boundary it sets |
| ContextView.FinishLeavesOneSummaryIff | packages/ftre-compaction/src/ftre_compaction/service.py:475-477 | the view after a compaction has one summary exactly when the captured message lies at or after the previous marker |
| ContextView.NextCompactionShowsBoth | packages/ftre-compaction/src/ftre_compaction/service.py:463-477 | a message that arrived during a compaction makes the next one show two summaries |
| ContextView.TwoSummariesRun | packages/ftre-compaction/src/ftre_compaction/service.py:463-477 | a run from the empty session that ends with two summaries in the view |
| CompressFast.CompressFast | packages/ftre-compaction/src/ftre_compaction/service.py:359-430 | a call reports the sorted ids and the size of the selection with the estimates before and after emptying those outputs, or that there is nothing to trim |
| CompressFast.ProtectedStart | packages/ftre-compaction/src/ftre_compaction/service.py:371-381 | the backward loop finds where protection starts |
| CompressFast.EmptiedAt | packages/ftre-compaction/src/ftre_compaction/service.py:405-416 | for the estimate afterwards exactly the outputs under a chosen id are empty |
| CompressFast.ProtectedIsNthUser | packages/ftre-compaction/src/ftre_compaction/service.py:371-381 | protection starts at the kept-th user message from the end, the first one if there are fewer, nowhere if there are none |
| CompressFast.ChosenExactly | packages/ftre-compaction/src/ftre_compaction/service.py:383-396 | a block is chosen exactly if it is a tool result before the protected turns whose output is still shown |
| CompressFast.ChosenAsOften | packages/ftre-compaction/src/ftre_compaction/service.py:383-396 | each of them is chosen as often as it stands there, so their number is what the marker counts |
| CompressFast.SecondCallChoosesNothingIff | packages/ftre-compaction/src/ftre_compaction/service.py:405-438 | right after its marker a second call chooses nothing exactly when no chosen result has the empty id |
| CompressFast.EmptyIdIsChosenAgain | packages/ftre-compaction/src/ftre_compaction/service.py:383-430 | a log of one result with an empty id, which both calls choose |
| CompressFast.ProtectedOutputsStayIff | packages/ftre-compaction/src/ftre_compaction/service.py:346-350 | after the marker the protected turns are shown as before exactly if every output in them under a chosen non-empty id was hidden already |
| CompressFast.ProtectedOutputIsHidden | packages/ftre-compaction/src/ftre_compaction/service.py:346-350 | a log of an old result and a protected one under the same id, whose protected output is not shown after the marker |
| React.RunState.Decide | packages/ftre-agent-runtime/src/ftre_agent_runtime/react_runner.py:94-183 | the decision and its two side effects for every state and result |
| React.DecisionIs | packages/ftre-agent-runtime/src/ftre_agent_runtime/react_runner.py:94-183 | when each action is decided: requested calls are acted on, an error exits with its text, an empty answer is tried twice more, then once with the request to finish, and then is an error |
| React.RequestedCallsAreActedOn | packages/ftre-agent-runtime/src/ftre_agent_runtime/react_runner.py:133-140 | in every run the calls a model asks for are what the next turn acts on |
| React.ReasoningEnds | packages/ftre-agent-runtime/src/ftre_agent_runtime/react_runner.py:639-669 | a reasoning turn is counted; it goes on with its answer, or ends interrupted or in error |
| React.ActingEnds | packages/ftre-agent-runtime/src/ftre_agent_runtime/react_runner.py:671-688 | an acting turn goes on without an answer, pauses for a permission, or ends interrupted or in error |
| React.ExitEnds | packages/ftre-agent-runtime/src/ftre_agent_runtime/react_runner.py:690-703 | an exit ends with its reason, unless the stop hook continues a completed run within its limit |
| React.RunState.Start | packages/ftre-agent-runtime/src/ftre_agent_runtime/run_state.py:86-104 | starting resets every field of a run, and names the turn by the context or by a new id |
| React.RunState.OneTurn | packages/ftre-agent-runtime/src/ftre_agent_runtime/react_runner.py:637-703 | one turn of the loop, with every way an executor can end |
| React.RunState.RunLoop | packages/ftre-agent-runtime/src/ftre_agent_runtime/react_runner.py:611-703 | the loop leaves the state its turns lead to; a fresh run with a bound ends within a number of turns given by it |
| React.RunState.Finalize | packages/ftre-agent-runtime/src/ftre_agent_runtime/react_runner.py:705-715 | the final reason and the status that belongs to it |
| React.CallsAreBounded | packages/ftre-agent-runtime/src/ftre_agent_runtime/react_runner.py:128-183 | model calls never exceed max_iterations plus empty retries plus one for finalization, at most three more |
| React.LoopEnds | packages/ftre-agent-runtime/src/ftre_agent_runtime/react_runner.py:635-699 | a measure falls with every turn, so the loop is over after a bounded number |
| React.ContinuationsAreBounded | packages/ftre-agent-runtime/src/ftre_agent_runtime/executors/acting.py:321-355 | a stop hook can continue a run at most max_continuations times |
| React.FourthEmptyResponseEnds | packages/ftre-agent-runtime/src/ftre_agent_runtime/react_runner.py:144-177 | a run sees at most four empty responses, and ends with that error exactly when it saw four |
| React.LeftPausedIffAsked | packages/ftre-agent-runtime/src/ftre_agent_runtime/react_runner.py:668-689 | a run that is over has no final reason exactly when a tool asked for permission |
| React.EndReasonIsTrue | packages/ftre-agent-runtime/src/ftre_agent_runtime/react_runner.py:128-183 | the iteration count is the number of model calls, and the reason a run ends with is true of it |
| TurnDriver.Turn.RequestErrorRecovery | packages/ftre-agent-runtime/src/ftre_agent_runtime/turn_executor.py:715-758 | a retry is accepted only for a new token within its limit, and then counted and logged |
| TurnDriver.Turn.RunAgent | packages/ftre-agent-runtime/src/ftre_agent_runtime/turn_executor.py:505-567 | the next phase for every way a run of the agent can end |
| TurnDriver.ReturnedRunLeadsTo | packages/ftre-agent-runtime/src/ftre_agent_runtime/turn_executor.py:538-567 | where a run that returned leads: a pause or an end without error is finalized, an error is retried, cancelled or finalized as its hook says |
| TurnDriver.ExceptionalRunLeadsTo | packages/ftre-agent-runtime/src/ftre_agent_runtime/turn_executor.py:554-567 | a cancelled run leads to the cancelled phase, a raising one to a retry or to failure |
| TurnDriver.OtherPhasesLeadTo | packages/ftre-agent-runtime/src/ftre_agent_runtime/turn_executor.py:279-289 | building leads to running, fails or is cancelled; finalizing completes; a final phase stays |
| TurnDriver.Turn.AdvanceOnce | packages/ftre-agent-runtime/src/ftre_agent_runtime/turn_executor.py:279-289 | one transition of the Turn |
| TurnDriver.Turn.Drive | packages/ftre-agent-runtime/src/ftre_agent_runtime/turn_executor.py:200-277 | a driven Turn that ends is closed with its end event and returns the status of its final phase; with a common bound on retries it ends |
| TurnDriver.Turn.Close | packages/ftre-agent-runtime/src/ftre_agent_runtime/turn_executor.py:216-264 | the final snapshots, the end event and the public status |
| TurnDriver.Turn.AppendSnapshots | packages/ftre-agent-runtime/src/ftre_agent_runtime/turn_executor.py:585-602 | each reported assistant message is appended once, up to the first append that raises |
| TurnDriver.FinalEventsAreSnapshots | packages/ftre-agent-runtime/src/ftre_agent_runtime/turn_executor.py:585-602 | only reported messages are appended, and all of them if no append raises |
| TurnDriver.SnapshotsOnce | packages/ftre-agent-runtime/src/ftre_agent_runtime/turn_executor.py:597-602 | no named message is appended twice |
| TurnDriver.RaisingEnds | packages/ftre-agent-runtime/src/ftre_agent_runtime/turn_executor.py:597-602 | after the first append that raises no other is attempted |
| TurnDriver.RunsAgainIff | packages/ftre-agent-runtime/src/ftre_agent_runtime/turn_executor.py:541-567 | the agent runs again exactly after a failure that the hook answers with a new token within its limit, and never once cancelling |
| TurnDriver.RunsAreBounded | packages/ftre-agent-runtime/src/ftre_agent_runtime/turn_executor.py:715-758 | the retry count is the number of distinct accepted tokens; with limits up to m the run phase is entered at most m + 1 times |
| TurnDriver.DriveEnds | packages/ftre-agent-runtime/src/ftre_agent_runtime/turn_executor.py:200-215 | after m + 4 transitions the Turn is in a final phase |
| TurnDriver.RetriesAreCounted | packages/ftre-agent-runtime/src/ftre_agent_runtime/turn_executor.py:627-648 | retry events are numbered from 1 without gaps up to the retry count |
| TurnDriver.EndIsLast | packages/ftre-agent-runtime/src/ftre_agent_runtime/turn_executor.py:216-247 | there is exactly one end event, after everything else |
| TurnDriver.OutcomeIs | packages/ftre-agent-runtime/src/ftre_agent_runtime/turn_executor.py:222-240 | the end event says paused, else cancelled, else error, else completed |
| TurnDriver.OutcomeAgrees | packages/ftre-agent-runtime/src/ftre_agent_runtime/turn_executor.py:222-264 | the outcome of the end event and the status returned to the caller agree |
| TurnDriver.RunnerRefuses | packages/ftre-agent-runtime/src/ftre_agent_runtime/react_runner.py:336-348 | a runner whose checks look at its task field and its context refuses every run of a Turn after the first |
| TurnDriver.RetriedTurnNeverCompletes | packages/ftre-agent-runtime/src/ftre_agent_runtime/react_runner.py:336-348 | driven with that runner, a retried Turn of ordinary messages ends failed or cancelled |
| TurnDriver.RetriedTurnFails | packages/ftre-agent-runtime/src/ftre_agent_runtime/turn_executor.py:541-567 | such a Turn: one granted retry, then refused and failed |
| Admission.OneTurnTask | packages/ftre-agent-runtime/src/ftre_agent_runtime/engine.py:248-374 | at most one turn task of a session is alive in every interleaving of runs and cancellations |
| Admission.ServiceRunsDoNotOverlap | packages/ftre-agent/src/ftre_agent/service.py:332-389 | of the runs through the service at most one is open, its after-run maintenance included |
| Admission.InvokedAtMostOnce | packages/ftre-agent/src/ftre_agent/service.py:337-384 | the runtime is called at most once per request between disposals |
| Admission.AdmitsIff | packages/ftre-agent/src/ftre_agent/service.py:337-347 | in every run a request is let in exactly if the agent is there, unpaused and has not answered it, and no call keeps an admission, a turn or maintenance |
| Admission.HookIffExecuted | packages/ftre-agent-runtime/src/ftre_agent_runtime/engine.py:371-400 | in every run a call that has left its turn goes through the after-run hook exactly if the turn was executed |
| Admission.DirectRunsOverlapIff | packages/ftre-agent-runtime/src/ftre_agent_runtime/engine.py:371-400 | a direct run starts during an earlier after-run hook exactly when nothing marks the session busy |
| Admission.DirectRunsOverlap | packages/ftre-agent-runtime/src/ftre_agent_runtime/engine.py:371-400 | a run of two direct calls in which this happens |
| Admission.KeptIffNotificationCancelled | packages/ftre-agent/src/ftre_agent/service.py:348-389 | in every run, a service call that is over holds the admission exactly if its first notification was cancelled |
| Admission.LeakedIff | packages/ftre-agent/src/ftre_agent/service.py:348-358 | a call ends without giving its admission up exactly if its first notification was cancelled |
| Admission.ReturnedCallsFreeTheAgent | packages/ftre-agent/src/ftre_agent/service.py:358-389 | once all calls have returned nothing is held, no maintenance is declared unless a hook was cut off in it, and exactly the unanswered requests are admitted |
| Admission.ReachFinished | packages/ftre-agent/src/ftre_agent/service.py:358-389 | a run through all stages, after which every other request is admitted |
| Admission.ReachLeaked | packages/ftre-agent/src/ftre_agent/service.py:348-358 | a run that keeps its admission with nothing left running |
| Admission.AtMostOneLease | packages/ftre-agent/src/ftre_agent/service.py:463-517 | at most one reservation of the agent is outstanding |
| Admission.LeasesGoTo | packages/ftre-agent/src/ftre_agent/service.py:463-517 | in every run a run takes the reservation for its request, a release that of its id, and one is granted exactly to a free agent without one |
| Admission.LeakedAdmissionStays | packages/ftre-agent/src/ftre_agent/service.py:348-358 | a call cancelled in its first notification keeps every later run and reservation out |
| Completion.CompletionRegistry.CompleteRequest | packages/ftre-agent-runtime/src/ftre_agent_runtime/completion.py:26-39 | caching, eviction and hand-over in place are the value operation |
| Completion.CompletionRegistry.BeginWait | packages/ftre-agent-runtime/src/ftre_agent_runtime/completion.py:41-49 | the cached outcome, or a registered future |
| Completion.CompletionRegistry.EndWait | packages/ftre-agent-runtime/src/ftre_agent_runtime/completion.py:50-58 | a finished wait takes its future off the list and drops an empty list |
| Completion.CompletionRegistry.CloseAll | packages/ftre-agent-runtime/src/ftre_agent_runtime/completion.py:60-68 | closing fails every registered pending future and clears both tables |
| Completion.CacheIsRecent | packages/ftre-agent-runtime/src/ftre_agent_runtime/completion.py:31-35 | the cache is the last completion of each of the at most 256 most recently completed keys, in order |
| Completion.CachedIsLatest | packages/ftre-agent-runtime/src/ftre_agent_runtime/completion.py:45-47 | a cached outcome is the latest of its key |
| Completion.NeverCachedAndAwaited | packages/ftre-agent-runtime/src/ftre_agent_runtime/completion.py:31-49 | no key is both cached and waited for |
| Completion.FateIsFirstEvent | packages/ftre-agent-runtime/src/ftre_agent_runtime/completion.py:36-68 | a waiter's future ends as the first event after its registration says, never twice, and stays pending only if none came |
| Completion.ListedIff | packages/ftre-agent-runtime/src/ftre_agent_runtime/completion.py:36-68 | a waiter stays on the list of its key until the key is completed, the registry closed, or it leaves with its future done |
| Completion.ListsAreInOrder | packages/ftre-agent-runtime/src/ftre_agent_runtime/completion.py:48-58 | no key keeps an empty list of waiters, and each list is in order of registration |
| SessionSnapshot.MergeMessages | src/ftre/services/session/service.py:353-366 | the merge loop with its index map computes the merge |
| SessionSnapshot.MergedIds | src/ftre/services/session/service.py:353-366 | the ids are those of the baseline and then each id it lacks, once, in order of first appearance |
| SessionSnapshot.MergedOnce | src/ftre/services/session/service.py:353-366 | merging into a transcript of unique ids gives unique ids |
| SessionSnapshot.MergedIsLatest | src/ftre/services/session/service.py:353-366 | every place holds the latest live version of its id, or the baseline's message if there is none |
| SessionSnapshot.MergedAt | src/ftre/services/session/service.py:353-366 | known messages keep their place, new ones follow, and the last message of an id is its latest version |
| SessionSnapshot.MergeConcat | src/ftre/services/session/service.py:353-366 | merging a concatenation is merging one part after the other |
| SessionSnapshot.MergeIdempotent | src/ftre/services/session/service.py:353-366 | merging the same messages again changes nothing |
| SessionSnapshot.Session.AppendEvent | src/ftre/services/session/service.py:171-174 | an event joins the live log and invalidates the cached transcript |
| SessionSnapshot.Session.CaptureSnapshot | src/ftre/services/session/service.py:376-382 | a writer captures sequence number and messages of one moment |
| SessionSnapshot.Session.CommitSnapshot | src/ftre/services/session/service.py:398-420 | a writer commits unless a higher sequence number is on disk |
| SessionSnapshot.Session.DerivedMessages | src/ftre/services/session/service.py:549-558 | the transcript, from the cache when it is current |
| SessionSnapshot.Session.RollbackSession | src/ftre/services/session/service.py:1299-1371 | what a rollback keeps and removes, together the old transcript, or that it is refused; others may append, capture and read while it writes |
| SessionSnapshot.RollbackAllowedIff | src/ftre/services/session/service.py:1299-1335 | a rollback is carried out exactly at the first message with the id if that is a user message, it and all before it are finished and all events are on disk |
| SessionSnapshot.EveryRunKeeps | src/ftre/services/session/service.py:368-420 | in every run with safe rollbacks the disk holds baseline and events up to its sequence number, merged |
| SessionSnapshot.SnapshotPersistsEverything | src/ftre/services/session/service.py:368-420 | an undisturbed snapshot persists the whole transcript at the present sequence number |
| SessionSnapshot.SeqNeverDecreases | src/ftre/services/session/service.py:398-404 | the persisted sequence number never goes back |
| SessionSnapshot.HistoryIsFolded | src/ftre/services/session/service.py:240-292 | across restarts and safe rollbacks the disk holds the first baseline, or the messages kept by the last rollback, with everything persisted since merged in |
| SessionSnapshot.HistoryWithoutRollback | src/ftre/services/session/service.py:240-292 | without rollbacks every run is safe and that baseline is the one first loaded |
| SessionSnapshot.RollbackSafeIff | src/ftre/services/session/service.py:1299-1371 | a rollback keeps the invariant exactly when no writer in flight captured the present sequence number and none captures while it writes |
| SessionSnapshot.StaleWriterRestores | src/ftre/services/session/service.py:402-404 | the commit of such a writer puts its messages on disk, all that was removed if nothing was appended before it captured |
| SessionSnapshot.StaleWriterRun | src/ftre/services/session/service.py:402-404 | a session of one user message that is rolled back and comes back |
| SessionSnapshot.RollbackKeepsThePrefix | src/ftre/services/session/service.py:1312-1371 | exactly the messages before the target are kept, in memory and on disk, and nothing that arrived while it wrote |
| SessionSnapshot.ReusedNumberIsMissed | src/ftre/services/session/service.py:1362-1370 | a client that has seen any of the events dropped by a rollback is answered with a page once as many have followed, and misses exactly those |
| SessionSnapshot.MissedEventRun | src/ftre/services/session/service.py:1362-1370 | a run from a loaded session in which the client gets an empty page although it lacks an event |
| SessionSnapshot.PagesAreTheTail | src/ftre/services/session/service.py:526-543 | a client that pages on from its sequence number gets exactly the missing events; otherwise it is told to resynchronise |
| SessionSnapshot.TailMoves | packages/ftre-agent/src/ftre_agent/session/log.py:108-116 | one page continues where the client stands, and says truly whether there is more |
| MessageSegments.MsgToDicts | packages/ftre-agent-runtime/src/ftre_agent_runtime/message_context.py:39-131 | the scanning loop with its buffer and counters produces the expansion |
| MessageSegments.FlushAssistant | packages/ftre-agent-runtime/src/ftre_agent_runtime/message_context.py:56-91 | a flush outputs the buffered blocks as the next plain segment and advances the counters |
| MessageSegments.ExpansionIsSound | packages/ftre-agent-runtime/src/ftre_agent_runtime/message_context.py:93-131 | nothing is lost or reordered; results and hints alone, no two plain neighbours, nothing empty unless the content is |
| MessageSegments.SplitIsTheOnlyOne | packages/ftre-agent-runtime/src/ftre_agent_runtime/message_context.py:93-119 | there is only one segmentation with these properties |
| MessageSegments.ResultFollowsItsCall | packages/ftre-agent-runtime/src/ftre_agent_runtime/message_context.py:104-111 | a tool result is sent in a later message than its call |
| MessageSegments.KindsFollowTheBlocks | packages/ftre-agent-runtime/src/ftre_agent_runtime/message_context.py:93-131 | results go out as tool messages, hints as user messages, and everything between them under the message's own role |
| MessageSegments.DecorationsGoInOrder | packages/ftre-agent-runtime/src/ftre_agent_runtime/message_context.py:72-86 | the k-th plain message carries the k-th item group; legacy reasoning only the first, if it has none of its own |
| MessageSegments.Context.AppendReplyBlocks | packages/ftre-agent-runtime/src/ftre_agent_runtime/message_context.py:163-194 | blocks join the last assistant message of that id, or start one |
| MessageSegments.AppendInTwoCalls | packages/ftre-agent-runtime/src/ftre_agent_runtime/message_context.py:163-194 | appending in two calls is appending everything in one |
| MessageSegments.AppendedJoins | packages/ftre-agent-runtime/src/ftre_agent_runtime/message_context.py:163-194 | if a reply of that id stands, the last one gets the blocks and nothing else changes |
| MessageSegments.AppendedStarts | packages/ftre-agent-runtime/src/ftre_agent_runtime/message_context.py:163-194 | if none does, one new reply of exactly the blocks follows |
| Utf8.DecodeEncode | packages/ftre-inline-extension/src/ftre_inline_extension/parser.py:56-59 | decoding encoded text gives it back |
| Utf8.DecodesOrReplaces | packages/ftre-inline-extension/src/ftre_inline_extension/parser.py:67 | decoding takes a character where one stands, and otherwise replaces the longest run of bytes that could have begun one, or a single byte |
| QueryString.UnquoteQuote | packages/ftre-inline-extension/src/ftre_inline_extension/parser.py:56-59 | quoting writes only unreserved characters and percent signs, and unquoting undoes it |
| QueryString.ReadFieldsWritten | packages/ftre-inline-extension/src/ftre_inline_extension/parser.py:56-69 | reading a written query gives its fields back in order |
| QueryString.FieldsBetweenAmpersands | packages/ftre-inline-extension/src/ftre_inline_extension/parser.py:67 | any query is its fields between ampersands, and fails if one of them does |
| QueryString.FieldIsSplit | packages/ftre-inline-extension/src/ftre_inline_extension/parser.py:67 | a field is split at its first equals sign, and fails without one |
| QueryString.ReadSpacedField | packages/ftre-inline-extension/src/ftre_inline_extension/parser.py:67 | a field of plain text is read as it stands with a space for each plus sign |
| QueryString.UnquotePercent | packages/ftre-inline-extension/src/ftre_inline_extension/parser.py:67 | a percent sign and two hex digits stand for their byte |
| QueryString.UnquoteOther | packages/ftre-inline-extension/src/ftre_inline_extension/parser.py:67 | a percent sign without them, and any other character, stands for itself |
| ExtensionParser.MatchRendered | packages/ftre-inline-extension/src/ftre_inline_extension/parser.py:11-16 | every rendering of a well-formed token is matched, whatever follows |
| ExtensionParser.MatchedIsRendered | packages/ftre-inline-extension/src/ftre_inline_extension/parser.py:11-16 | everything matched is the rendering of a well-formed token |
| ExtensionParser.KindIff | packages/ftre-inline-extension/src/ftre_inline_extension/parser.py:11-15 | kinds are words of letters and digits joined by hyphens, the first beginning with a letter; versions are a v and digits |
| ExtensionParser.ReadArgs | packages/ftre-inline-extension/src/ftre_inline_extension/parser.py:67-71 | the dict loop: later fields win, an empty key is an error |
| ExtensionParser.ToArgsIff | packages/ftre-inline-extension/src/ftre_inline_extension/parser.py:67-71 | there are arguments exactly if no key is empty, and each has the value of the last field of its key |
| ExtensionParser.ParseOneReads | packages/ftre-inline-extension/src/ftre_inline_extension/parser.py:43-51 | `parse_one` reads every rendering of a token as it says or fails with the first check that does, and refuses every other text |
| StringOrder.SortedAscends | packages/ftre-inline-extension/src/ftre_inline_extension/parser.py:56-57 | sorted strings ascend, each once |
| StringOrder.LeqIff | packages/ftre-inline-extension/src/ftre_inline_extension/parser.py:56-57 | strings are ordered by their first difference, a text before what it begins |
| ExtensionParser.RoundTripIff | packages/ftre-inline-extension/src/ftre_inline_extension/parser.py:43-78 | parsing a serialized reference gives it back exactly when kind and name are well formed, no key is empty and the text is within the bound |
| ExtensionParser.NormalFormIff | packages/ftre-inline-extension/src/ftre_inline_extension/parser.py:43-78 | serializing a parsed reference parses to the same reference exactly when it is within the bound |
| ExtensionParser.LongValueIsNotNormal | packages/ftre-inline-extension/src/ftre_inline_extension/parser.py:43-60 | an accepted reference whose value triples beyond the bound when quoted is not accepted after serializing |
| ExtensionParser.NormalFormCanBeTooLarge | packages/ftre-inline-extension/src/ftre_inline_extension/parser.py:43-60 | such a reference, with 3000 exclamation marks |
| ExtensionParser.Parse | packages/ftre-inline-extension/src/ftre_inline_extension/parser.py:25-41 | the loop over matches finds the references of a text |
| ExtensionParser.FoundAreParsed | packages/ftre-inline-extension/src/ftre_inline_extension/parser.py:25-41 | found references lie at disjoint spans in order, at most 32, each what parse_one reads there |
| ExtensionText.SerializedSplits | packages/ftre-inline-extension/src/ftre_inline_extension/parser.py:25-60 | for any text before and after it, a serialized reference is found at its place, between what is found in the one and what is found in the other |
| ExtensionText.SerializedIsFound | packages/ftre-inline-extension/src/ftre_inline_extension/parser.py:25-60 | it is the first one if nothing is found before it |
| ExtensionText.FindAllIsFirst | packages/ftre-inline-extension/src/ftre_inline_extension/parser.py:25-41 | `parse` gives the first 32 of all references |
| ExtensionText.WovenCount | packages/ftre-inline-extension/src/ftre_inline_extension/parser.py:25-60 | a text of serialized references and other pieces has these references and those of the pieces, none lost or made |
| ExtensionText.WovenIsParsed | packages/ftre-inline-extension/src/ftre_inline_extension/parser.py:25-60 | such a text is parsed to exactly its references, the first 32, if nothing is found in the pieces |
| ExtensionText.WovenIsExactIff | packages/ftre-inline-extension/src/ftre_inline_extension/parser.py:25-60 | without the limit this is so if and only if nothing is found in the pieces |
| ExtensionText.NoBangIsSilent | packages/ftre-inline-extension/src/ftre_inline_extension/parser.py:11-41 | nothing is found in text without an exclamation mark |
| ExtensionText.PlacesStand | packages/ftre-inline-extension/src/ftre_inline_extension/parser.py:25-60 | at the span of each reference stands its serialized text |

## Left out

- React.RunState.RunLoop: takes a number of turns to run for, because without a max_iterations bound the program's loop need not end.
- TurnDriver.Turn.Drive: takes a number of transitions to run for, as an unbounded sequence of new progress tokens keeps the program retrying for ever; a cancellation inside its finally block is not modelled.
- TurnDriver.RetriedTurnNeverCompletes: is about ordinary messages; a Turn that resumes a confirmation passes other checks in the runner.
- InboxRepository.Repository.Admit: the repository keeps inbox values and checks them out as `MutableInbox` objects, so two callers sharing one object is not modelled; nor are failed writes.
- InboxDispatch.ClaimsIncrease: closing the inbox and deleting the session are not steps.
- Admission.ServiceRunsDoNotOverlap: is about `run`; `stream` and `resume_confirmation` check and register with awaits in between and are not steps, nor are unregistering the factory and closing the service.
- SessionSnapshot.Session.RollbackSession: the request index it also writes is not part of the model.
- ContextView.RebuildIsIdentityIff: is stated for fast markers with id lists; the older count form trims relative to what precedes the marker.
- Eventual delivery of admitted items: `followup` samples the busy flag before an awaited admission, so a completion in that gap leaves an item without a trigger.
- Locks, fsync, temporary files and failed or torn writes: a commit is one atomic step.
- Legacy import of event logs, `fork_session`, `append_user_message_if_absent` and the request index of snapshots.
- `derive_messages`, `estimate_messages_tokens`, `to_openai_message` beyond reasoning text, and `LLMError.classify`: parameters or small contracts.
- Summary generation, prompts, metadata of tool results, and what a model, tool or hook answers: arbitrary.
- Lower-casing outside ASCII in the fallback's error texts, and lone surrogates in texts.
- Wall-clock expiry of reservations: a reservation may be released at any time.
- HTTP, WebSocket and CLI layers, plugin loading, provider adapters, agent profiles, tracing, permissions and tools.
