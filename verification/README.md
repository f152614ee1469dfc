# Verified models of the outreach backend

A Dafny 4.11 model of the parts of the backend that keep state over time, and proofs about
every run of them. `dafny verify dfyconfig.toml` checks everything.

| area | files | what is modelled |
|---|---|---|
| AI SDR send protocol, whole calls | `SdrModel`, `SdrRows`, `SdrCalls`, `SdrCoherence`, `SdrTheorems`, `SdrOutcomes`, `SdrReplies`, `SdrContent`, `SdrService`, `OutboundProvider` | every public call of `AiSdrService` as one step over the tables and the provider; the class `AiSdrService` does the same statement by statement |
| AI SDR send protocol, interleaved | `SdrThreads`, `SdrThreadSafety`, `SdrThreadTheorems`, `SdrRaces`, `SdrSentRows`, `SdrFinalDrafts`, `SdrSolo`, `SdrSendAlone`, `SdrDraftsAlone`, `SdrRefinement` | each database or provider call is one step; any number of calls interleave, each statement may fail before or after it took effect, each call may crash |
| CRM write-back with retries | `EnrichSaga`, `EnrichSagaProofs`, `EnrichSagaTheorems`, `EnrichOutcomes`, `EnrichService`, `SdrCrmSync` | the enrich-and-score job and the message sync against a CRM that is a ledger of real effects, with faults at every boundary |
| Agent pause, resume, undo | `ControlTimeline`, `AgentControl`, `AgentControlTheorems`, `AgentControlService` | the state cell, the append-only audit log, the one-pass eligibility fold and its 2000-row window |
| Human overrides of a company brain | `PayloadMerge`, `PayloadOverrides`, `ListEdits`, `CompanyBrain`, `CompanyBrainTheorems`, `BrainEdits`, `CompanyBrainService` | merging regenerated payloads into human-edited ones, over any run of analyses and edits |
| Candidate approval and CRM creation | `CompanyDedupe`, `ProspectCreation`, `ProspectTheorems`, `ProspectOutcomes`, `ProspectService` | the candidate state machine with its two recovery records and the fail-closed create gate |
| Action feed, webhook replays, scores | `ActionFeed`, `ActionFeedTheorems`, `ActionFeedOrder`, `WebhookReplay`, `WhyNow`, `WhyNowTheorems`, `WhyNowLaws` | ordering and dedupe, the replay mark against the freshness window, score arithmetic over reals |

Each class method is proved equal to a function on values (its call, step or attempt), and the
theorems are about runs of those functions. What a call means is said a second time on statuses,
rows and inputs alone (`SdrOutcomes`, `SdrReplies`, `EnrichOutcomes`, `BrainEdits`,
`ProspectOutcomes`, `WhyNowLaws`). SHA-256 is an injective constructor, the answers of providers,
CRM, research and generators are parameters, and rows are numbered in the order of their insertion.

Promises that do not hold of the code as it is written, each with a witness and the exact condition:

- Undo may overwrite newer intent, and apply twice, once a tenant has more than 2000 control rows
  (`UndoOverwritesNewerIntent`; exact: `NewestCanBeUndone`, `AppliedUndoIsNewest`, `UndoRepeatsExactlyWhen`).
- A rejected or superseded draft can come back between statements (`RejectionCanBeOvertaken`; exact over all
  continuations: `StaysFinalExactlyWhen`), although never between whole calls (`FinalDraftsStay`).
- A message that was sent can end FAILED: an error after its SENT mark reaches the outer catch block
  (`LateErrorFails`; exact over all continuations: `StaysSentExactlyWhen`, without errors
  `StaysSentUnlessFaultsExactlyWhen`; inside the CRM sync: `SyncUndoesTheSendExactlyWhen`).
- The content hash joins subject and body with a bar, so a bar can move between them unnoticed (`BarsMove`; exact:
  `SameHashExactlyWhen`). What is sent is the draft's own text all the same (`SendIsApproved`, `CallHasExactApproval`).
- An opt-out ends the drafting only until the next reply (`OptedOutUntilReply`; exact: `LaterReplyRevives`), the sending
  for good (`StoppedForGood`).
- An edit saved while an analysis is running can be lost, and a removed item can return
  (`StaleRegenerationKeeps` is exact, `StaleRegenerationResurrects`); with duplicate ids even a later analysis
  loses it (`DuplicateIdLosesTheEdit`; exact: `PutSurvivesExactlyWhen`).
- A legacy flat override map is misread when an id is a reserved word (`LegacyRoundTrip` is exact).
- An empty CRM note id jams the job for good (`EmptyNoteIdJams`; exact: `NoteStepThrowsExactlyWhen`).
- A candidate can get a second CRM company: after a lost response, after the loss of both records, or when the
  CRM answered with an empty id and the row did not end CREATED (`SecondCompanyExactlyWhen`).
- An opportunity may exist that no score reports (`OpportunityCanGoUnreported`; exact: `UnreportedExactlyWhen`).
- A webhook that fails after its mark cannot be redelivered, and marks are shared by all tenants
  (`FailureAfterMarkIsFinal`, `LostToAnotherTenant`; exact over all runs: `DroppedExactlyWhen`).
- With a negative signal waiting can raise the timing score (exact per signal: `SafeToWaitExactlyWhen`).

## Model

| member | source | states |
|---|---|---|
| OutboundProvider.SendKeepsOncePerKey | src/ai-sdr/providers/deterministic.provider.ts:30-56 | a key has at most one accepted delivery and one id, and a known key is answered with its delivery without sending again |
| OutboundProvider.KeyTextInjective | src/ai-sdr/ai-sdr.service.ts:505-507 | the colon-joined idempotency key determines tenant, draft and content hash when row ids have no colon |
| OutboundProvider.DeterministicOutboundProvider.Send | src/ai-sdr/providers/deterministic.provider.ts:30-56 | the object's two tables end as one provider call leaves them, failures included |
| SdrTheorems.ApprovalTracksStatus | src/ai-sdr/ai-sdr.service.ts:298-342 | in every reachable state a draft has an ACTIVE approval exactly when it is APPROVED or SENT |
| SdrTheorems.RevokeAdvances | src/ai-sdr/ai-sdr.service.ts:364-374 | a revoke never reopens a final draft: its count-zero guard must fire |
| SdrTheorems.FinalDraftsStay | src/ai-sdr/ai-sdr.service.ts:389-418 | REJECTED and SUPERSEDED absorb over every further run of calls; nothing about the draft changes |
| SdrTheorems.RunAdvances | src/ai-sdr/ai-sdr.service.ts:205-260 | over any run drafts keep content, hash, version and purpose, final ones their status too, and no draft, sequence or reply row is deleted |
| SdrTheorems.VersionsAreOneToN | src/ai-sdr/ai-sdr.service.ts:233-260 | the versions of a sequence's n drafts are exactly 1..n, in order of creation |
| SdrTheorems.OneOpenDraft | src/ai-sdr/ai-sdr.service.ts:205-231 | each sequence and purpose has at most one open draft without a SENT message |
| SdrTheorems.SendIsApproved | src/ai-sdr/ai-sdr.service.ts:984-1050 | each provider call sends subject and body of the draft row it names, to the address of that row's sequence, and an approval that is ACTIVE before and after the call names this draft, version and hash |
| SdrTheorems.MismatchUnreachable | src/ai-sdr/ai-sdr.service.ts:309-317 | approve and send never answer with a hash or version mismatch in a reachable state |
| SdrTheorems.ProviderIdIdentifiesMessage | src/ai-sdr/ai-sdr.service.ts:771-790 | a provider message id is on at most one message, so correlating a reply by it is unambiguous |
| SdrTheorems.ReplyStopsItsSequence | src/ai-sdr/ai-sdr.service.ts:829-859 | a new correlated reply moves exactly its own message's sequence, into a stop status, paused or not |
| SdrReplies.CorrelatesExactlyWhen | src/ai-sdr/ai-sdr.service.ts:771-800 | in every reachable state an event correlates to a sequence exactly when its message id is stored on a message of that sequence and no other id contradicts it, or a trusted caller names the sequence |
| SdrReplies.ReplyDecides | src/ai-sdr/ai-sdr.service.ts:802-850 | a new event is recorded under its sequence, which becomes CANCELLED for UNSUBSCRIBE and NEGATIVE and REPLIED for everything else; no other sequence and no message moves |
| SdrReplies.OtherEventsChangeNothing | src/ai-sdr/ai-sdr.service.ts:757-800 | an event seen before, or of no sequence, changes nothing |
| SdrReplies.PositiveDraftsBoth | src/ai-sdr/ai-sdr.service.ts:852-863 | after a positive reply with good answers both the reply and the meeting draft wait for approval, with the booking proposed |
| SdrReplies.DraftsExactlyWhen | src/ai-sdr/ai-sdr.service.ts:852-863 | how many drafts a reply brings, and whether the call goes through, from classification, pause and answers |
| SdrReplies.OptedOutUntilReply | src/ai-sdr/ai-sdr.service.ts:123-131 | over every run of calls without a further reply a cancelled sequence stays cancelled and gets no draft |
| SdrReplies.OptedOutIsRefused | src/ai-sdr/ai-sdr.service.ts:123-131 | every draft asked for a cancelled sequence is refused and changes nothing |
| SdrReplies.LaterReplyRevives | src/ai-sdr/ai-sdr.service.ts:833-841 | a further reply takes a cancelled sequence out of CANCELLED exactly when it is neither UNSUBSCRIBE nor NEGATIVE |
| SdrReplies.StoppedForGood | src/ai-sdr/ai-sdr.service.ts:984-1000 | from the first stop on, over every run of calls, replies included, the provider is called for no draft of the sequence |
| SdrReplies.ConfirmedExactlyWhen | src/ai-sdr/ai-sdr.service.ts:892-938 | a meeting is booked exactly when the calendar confirms it for a sequence with a booking that is not CANCELLED: newest booking BOOKED, sequence COMPLETED, nothing else moved |
| SdrTheorems.RepeatedEventChangesNothing | src/ai-sdr/ai-sdr.service.ts:757-766 | once recorded, an event id replayed after any further run changes nothing |
| SdrTheorems.PauseBlocksOutbound | src/agent-control/agent-control.service.ts:66-88 | while ai_sdr is paused no run of calls adds a draft, a message or a provider call |
| SdrOutcomes.SequenceMadeExactlyWhen | src/ai-sdr/ai-sdr.service.ts:41-95 | a sequence row is made, DRAFTING and with its address, exactly when not paused and candidate and research are good |
| SdrOutcomes.DraftMadeExactlyWhen | src/ai-sdr/ai-sdr.service.ts:113-150 | a draft is made exactly for a running sequence, or for a REPLIED one unless it is an outreach, with every answer good and no pause |
| SdrOutcomes.DraftMade | src/ai-sdr/ai-sdr.service.ts:205-275 | the new row holds the text as given, AWAITING_APPROVAL, above all versions; exactly the open drafts of its sequence and purpose become SUPERSEDED; a running sequence goes to AWAITING_APPROVAL |
| SdrOutcomes.ApprovedExactlyWhen | src/ai-sdr/ai-sdr.service.ts:292-342 | in every reachable state approving goes through exactly for an open draft; that draft and a running sequence become APPROVED |
| SdrOutcomes.RevokedExactlyWhen | src/ai-sdr/ai-sdr.service.ts:364-374 | revoking goes through exactly while an approval is ACTIVE; the draft is AWAITING_APPROVAL and no approval of it is left |
| SdrOutcomes.RejectedExactlyWhen | src/ai-sdr/ai-sdr.service.ts:389-418 | rejecting goes through exactly for an open draft, which becomes REJECTED without approvals; idempotent on a REJECTED one |
| SdrOutcomes.FinalIsNeverSent | src/ai-sdr/ai-sdr.service.ts:990-1008 | a REJECTED or SUPERSEDED draft is never sent over any further run of calls |
| SdrOutcomes.GateOnAnyTables | src/ai-sdr/ai-sdr.service.ts:984-1058 | on any tables, reachable or not, the gate opens exactly to a draft whose newest ACTIVE approval names its version and the hash of its text as it is now, in a running, addressed sequence |
| SdrOutcomes.ApprovesOnAnyTables | src/ai-sdr/ai-sdr.service.ts:298-317 | on any tables approving needs an open draft whose stored hash is that of its text |
| SdrOutcomes.SendsExactlyWhen | src/ai-sdr/ai-sdr.service.ts:490-561 | in every reachable state a send calls the provider exactly when not paused, the draft APPROVED, its sequence running and addressed, the candidate ready, and no delivery of the draft was accepted before |
| SdrOutcomes.AcceptedSend | src/ai-sdr/ai-sdr.service.ts:567-623 | an accepted send delivers the draft row's text to its sequence's address; message and draft are SENT, the sequence ACTIVE, the CRM mark as the CRM answered |
| SdrOutcomes.RefusedSend | src/ai-sdr/ai-sdr.service.ts:648-665 | a refused one leaves a FAILED message and draft, approvals and sequence as they were |
| SdrOutcomes.FirstMessageNamesApproval | src/ai-sdr/ai-sdr.service.ts:509-527 | the first send of a draft makes one message row, which names its sequence and the newest ACTIVE approval |
| SdrOutcomes.CreatedRowIsQueued | src/ai-sdr/ai-sdr.service.ts:514-527 | until the provider is called that row is QUEUED |
| SdrOutcomes.CreatedApprovedSent | src/ai-sdr/ai-sdr.service.ts:41-623 | from any reachable state: created with a first draft, approved and sent ends with that text delivered to that address |
| SdrOutcomes.OnlySetPausedPauses | src/agent-control/agent-control.service.ts:66-88 | no SDR call moves the pause |
| SdrService.AiSdrService.CreateSequence | src/ai-sdr/ai-sdr.service.ts:41-111 | pause, candidate and research gates, then the sequence and its first draft, as the call model has it |
| SdrService.AiSdrService.CreateDraft | src/ai-sdr/ai-sdr.service.ts:113-290 | refusals in the source's order, booking row kept when the generator throws, else the next version |
| SdrService.AiSdrService.Supersede | src/ai-sdr/ai-sdr.service.ts:205-231 | the loop over prior drafts supersedes all of them and withdraws all their approvals, and nothing else |
| SdrService.AiSdrService.ApproveDraft | src/ai-sdr/ai-sdr.service.ts:292-342 | new ACTIVE row with version and hash, draft APPROVED, the sequence moved only if not stopped |
| SdrService.AiSdrService.RevokeApproval | src/ai-sdr/ai-sdr.service.ts:364-383 | every ACTIVE row withdrawn and the draft back to AWAITING_APPROVAL, or a refusal that changes nothing |
| SdrService.AiSdrService.RejectDraft | src/ai-sdr/ai-sdr.service.ts:389-437 | approvals withdrawn and the draft REJECTED; idempotent on a rejected draft |
| SdrService.AiSdrService.AssertSendAllowed | src/ai-sdr/ai-sdr.service.ts:984-1058 | the gate's answer: the newest ACTIVE approval, or the first refusal that applies |
| SdrService.AiSdrService.ExecuteSend | src/ai-sdr/ai-sdr.service.ts:490-541 | one message row per key, found or created, an already SENT one left alone |
| SdrService.AiSdrService.Deliver | src/ai-sdr/ai-sdr.service.ts:563-665 | the message ends SENT with the provider's id, with draft and sequence, or FAILED with neither |
| SdrService.AiSdrService.IngestReply | src/ai-sdr/ai-sdr.service.ts:749-890 | seen events change nothing; else the reply row, the stop status and the adapt drafts |
| SdrService.AiSdrService.ConfirmMeeting | src/ai-sdr/ai-sdr.service.ts:892-950 | the newest booking BOOKED and the sequence COMPLETED, or a refusal that changes nothing |
| SdrThreadSafety.EveryRunIsSafe | src/ai-sdr/ai-sdr.service.ts:490-665 | what every interleaving keeps: rows agree, each call was for approved content, each thread's local copy is current but for status |
| SdrThreadTheorems.FaultsTakeEffect | src/ai-sdr/ai-sdr.service.ts:539-665 | the faults these theorems range over: crashes, and errors before or after a statement took effect, caught inside the try block and nowhere else |
| SdrThreadTheorems.AtMostOneDeliveryPerDraft | src/ai-sdr/ai-sdr.service.ts:505-527 | under any interleaving, failures, crashes, retries, revokes and re-approvals the provider accepts at most one delivery per draft |
| SdrThreadTheorems.SentRowCarriesItsDelivery | src/ai-sdr/ai-sdr.service.ts:580-595 | every SENT row carries the provider id of its own draft's delivery |
| SdrThreadTheorems.CallHasExactApproval | src/ai-sdr/ai-sdr.service.ts:1010-1050 | under every interleaving a provider call sends the draft row's own subject and body to its sequence's address, and an approval row created before names this draft, version and hash |
| SdrContent.SameHashExactlyWhen | src/ai-sdr/draft-generator.ts:10-18 | equal hashes mean equal channel and purpose, and equal subject, bar and body joined |
| SdrContent.SameHashSameContent | src/ai-sdr/draft-generator.ts:10-18 | with bar-free subjects equal hashes mean equal content |
| SdrContent.SameHashSameBody | src/ai-sdr/draft-generator.ts:10-18 | under one channel, purpose and subject equal hashes mean equal bodies, bars or not |
| SdrContent.BarsMove | src/ai-sdr/draft-generator.ts:16-17 | the limit: a bar moved from subject to body, or an absent subject, leaves the hash as it was |
| SdrContent.SameKeyExactlyWhen | src/ai-sdr/ai-sdr.service.ts:505-507 | one key stands for one tenant, one draft and one content |
| SdrContent.ApprovalFitsOneText | src/ai-sdr/ai-sdr.service.ts:1010-1030 | in every reachable world an approval's hash is that of the approved draft's text and of no other with a bar-free subject |
| SdrThreadTheorems.MismatchNeverSeen | src/ai-sdr/ai-sdr.service.ts:309-317 | no thread ever takes a hash or version mismatch branch |
| SdrThreadTheorems.StopSetIsAbsorbing | src/ai-sdr/ai-sdr.service.ts:597-603 | once a sequence is REPLIED, CANCELLED, PAUSED, COMPLETED or FAILED, no step of any thread takes it out of that set |
| SdrThreadTheorems.StopBoundsProviderCalls | src/ai-sdr/ai-sdr.service.ts:539-561 | after a stop the calls for the sequence are at most those in flight past their check |
| SdrThreadTheorems.StoppedSequenceIsSilent | src/ai-sdr/ai-sdr.service.ts:539-561 | with none in flight at the stop, no draft of the sequence is ever sent again |
| SdrThreadTheorems.LateCheckNeverCalls | src/ai-sdr/ai-sdr.service.ts:539-561 | after the stop no statement of a send that was not past its check calls the provider for the sequence |
| SdrSolo.AloneInWorld | src/ai-sdr/ai-sdr.service.ts:490-665 | a thread scheduled by itself inside a world does there what it does alone |
| SdrRefinement.AloneIsTheCall | src/ai-sdr/ai-sdr.service.ts:41-950 | for every service call: the states its thread, left alone, can finish in are the results of the call, one for each way the outside answers, and no others |
| SdrRefinement.CallsAreARun | src/ai-sdr/ai-sdr.service.ts:41-950 | every run of whole calls is a run of the threads that ends in the same tables and provider |
| SdrSendAlone.SendAlone | src/ai-sdr/ai-sdr.service.ts:490-665 | executeSend alone finishes with exactly the results of the call over all answers of candidate check and CRM |
| SdrDraftsAlone.CreateDraftAlone | src/ai-sdr/ai-sdr.service.ts:113-290 | createDraft alone, its loop over prior drafts included, goes through exactly the results of the call over all answers of research, calendar and generator |
| SdrDraftsAlone.SequenceAlone | src/ai-sdr/ai-sdr.service.ts:41-111 | createSequence alone, first draft included, finishes with exactly the results of the call |
| SdrRefinement.ReplyAlone | src/ai-sdr/ai-sdr.service.ts:749-890 | ingestReply alone, with its adapt drafts in order, finishes with exactly the results of the call |
| SdrRefinement.DecisionsAlone | src/ai-sdr/ai-sdr.service.ts:292-437 | approve, revoke and reject alone have one end, the result of the call |
| SdrRefinement.ConfirmAlone | src/ai-sdr/ai-sdr.service.ts:892-950 | confirmMeeting alone finishes with the result for the calendar's yes or for its no, and nothing else |
| SdrRaces.LeavesFinalExactlyWhen | src/ai-sdr/ai-sdr.service.ts:331-334 | one step takes a final draft back exactly when it is the status write of an approve, revoke or send begun earlier |
| SdrFinalDrafts.StaysFinalExactlyWhen | src/ai-sdr/ai-sdr.service.ts:298-437 | in any reachable world a final draft stays final in every continuation exactly when it has no ACTIVE approval and no approve, revoke or send past its reads can still get through to its status write |
| SdrSentRows.StopsBeingSentExactlyWhen | src/ai-sdr/ai-sdr.service.ts:539-665 | one step takes a message row out of SENT exactly when a stop check, SENDING mark or catch block for that row takes effect |
| SdrSentRows.StaysSentExactlyWhen | src/ai-sdr/ai-sdr.service.ts:563-665 | a SENT row stays SENT in every continuation exactly when no send is inside its try or catch block for that row |
| SdrSentRows.LateErrorFails | src/ai-sdr/ai-sdr.service.ts:624-665 | from any world where a send has reached its CRM sync, an error there leaves the SENT row FAILED |
| SdrSentRows.StaysSentUnlessFaultsExactlyWhen | src/ai-sdr/ai-sdr.service.ts:539-665 | in a reachable world a SENT row stays SENT in every continuation without errors exactly when no send past its message lookup is still before its SENDING mark, or is in its catch block, for that row |
| SdrRaces.RejectionCanBeOvertaken | src/ai-sdr/ai-sdr.service.ts:410-418 | from any world with an approvable draft: the rejection completes and afterwards the draft is APPROVED with an active approval |
| SdrCrmSync.SyncsConserve | src/ai-sdr/ai-sdr.service.ts:677-722 | over any syncs and faults: effects = lost checkpoints plus one once completed, links hit the checkpointed note, COMPLETED rows were written |
| SdrCrmSync.CleanSyncCompletes | src/ai-sdr/ai-sdr.service.ts:667-741 | from any state a fault-free sync performs exactly what is owed and completes the row |
| SdrCrmSync.SyncedExactlyWhen | src/ai-sdr/ai-sdr.service.ts:667-741 | a sync returns, and completes its row, exactly when note, owed link and row write get through |
| SdrCrmSync.FailedSyncMarks | src/ai-sdr/ai-sdr.service.ts:624-665 | what a failed sync leaves on its send's row: its own FAILED mark, or the outer catch block's write |
| SdrCrmSync.SyncNamesPerson | src/ai-sdr/ai-sdr.service.ts:675-720 | new checkpoints name the target person, or the placeholder |
| SdrCrmSync.SyncUndoesTheSendExactlyWhen | src/ai-sdr/ai-sdr.service.ts:624-665 | a message stops being sent exactly when its own send's sync fails with its marking write failing too, or its final read fails, and the outer catch block's write goes through |
| SdrCrmSync.SdrCrmSyncService.SyncAfterSend | src/ai-sdr/ai-sdr.service.ts:624-665 | the sync inside a send, its own catch block and the outer one, ends in the state of the sync model |
| SdrCrmSync.SdrCrmSyncService.SyncCrmForMessage | src/ai-sdr/ai-sdr.service.ts:667-741 | the method ends in the state of the sync model, faults included |
| EnrichSagaTheorems.EffectsConserved | src/jobs/processors/enrich-and-score.processor.ts:94-195 | per tenant, log and action: effects = effects whose checkpoint never committed, plus one if completed; none lost means at most one |
| EnrichSagaTheorems.CompletedFormPrefix | src/jobs/processors/enrich-and-score.processor.ts:96-195 | completed checkpoints form a prefix of update_person, create_note, link_note_to_person, create_opportunity |
| EnrichSagaTheorems.StoredIdIsTheCrms | src/jobs/processors/enrich-and-score.processor.ts:121-133 | a completed note or opportunity checkpoint stores the id of the one committed effect |
| EnrichSagaTheorems.LinkedNoteIsCheckpointed | src/jobs/processors/enrich-and-score.processor.ts:143-160 | every link the CRM carried out targets the checkpointed note of its log |
| EnrichSagaTheorems.NoteStepThrowsExactlyWhen | src/jobs/processors/enrich-and-score.processor.ts:134-141 | the completed-without-externalId branch fires exactly when the CRM had answered with an empty note id |
| EnrichSagaTheorems.EmptyNoteIdJams | src/jobs/processors/enrich-and-score.processor.ts:134-141 | such a log never gets an attempt that returns |
| EnrichSagaTheorems.ReportedOpportunityExists | src/jobs/processors/enrich-and-score.processor.ts:162-209 | opportunityCreated implies the opportunity checkpoint and carries the CRM's id |
| EnrichSagaTheorems.OpportunityCanGoUnreported | src/jobs/processors/enrich-and-score.processor.ts:164-195 | the converse fails: a retry with a lower score succeeds without reporting the opportunity |
| EnrichSagaTheorems.ReportsExactlyWhen | src/jobs/processors/enrich-and-score.processor.ts:162-209 | in any state an attempt that returns wrote a score row with the score it saw, and the row reports an opportunity exactly when the tenant's switch was on and the score met the threshold |
| EnrichSagaTheorems.ReportedExactlyWhen | src/jobs/processors/enrich-and-score.processor.ts:162-209 | over any run a log's opportunity is reported exactly when some attempt of it wrote its score row having seen the threshold met |
| EnrichSagaTheorems.UnreportedExactlyWhen | src/jobs/processors/enrich-and-score.processor.ts:164-209 | a completed opportunity stays unreported exactly when no attempt of its log that reached its score row saw the threshold met |
| EnrichSagaTheorems.SuccessMeansWritten | src/jobs/processors/enrich-and-score.processor.ts:211-231 | a log marked success has its update, note and link completed |
| EnrichSagaTheorems.AttemptTouchesItsLogOnly | src/jobs/job-action-checkpoint.service.ts:31-75 | an attempt leaves every other log's checkpoints, effects, status and scores alone |
| EnrichSagaTheorems.CleanAttemptCompletes | src/jobs/processors/enrich-and-score.processor.ts:96-231 | from any reachable prefix a fault-free attempt performs exactly the missing required suffix and ends in success |
| EnrichOutcomes.ReturnsExactlyWhen | src/jobs/processors/enrich-and-score.processor.ts:54-242 | an attempt returns exactly when log and preparation are there, each write it owes was done before or gets through, and the bookkeeping is fine |
| EnrichOutcomes.ScoresExactlyWhen | src/jobs/processors/enrich-and-score.processor.ts:96-209 | it writes a score row exactly when the writes get through and the history takes the row |
| EnrichOutcomes.OpportunityNeedsBoth | src/jobs/processors/enrich-and-score.processor.ts:164-167 | with the switch off or a score below the threshold an attempt adds no opportunity effect and no opportunity checkpoint, whatever fails |
| EnrichOutcomes.OpportunityMade | src/jobs/processors/enrich-and-score.processor.ts:164-209 | with both, equality included, a returning attempt leaves the checkpoint and reports it with its id and score |
| EnrichOutcomes.AttemptMarksItsLog | src/jobs/processors/enrich-and-score.processor.ts:54-75 | every attempt counts itself on its log, success only if it returns, FAILED if it throws and the catch block runs |
| EnrichOutcomes.AttemptNamesPerson | src/jobs/job-action-checkpoint.service.ts:50-75 | checkpoints are never changed, and new ones name the attempt's person |
| EnrichService.JobActionCheckpointService.GetCompleted | src/jobs/job-action-checkpoint.service.ts:31-47 | completed exactly for recorded keys, with their external id |
| EnrichService.JobActionCheckpointService.RecordSuccess | src/jobs/job-action-checkpoint.service.ts:50-75 | the key's row becomes completed with this id, every other row stays |
| EnrichService.EnrichAndScoreProcessor.Process | src/jobs/processors/enrich-and-score.processor.ts:54-242 | the attempt with its try and catch ends in the state of the saga model, whatever fails |
| ControlTimeline.ComputeLatestEligible | src/agent-control/agent-action-mapper.ts:141-179 | for every timeline: per agent the last pause or resume, or none if a later undo of that agent names it; and the first undo of each id |
| ControlTimeline.EligibleNext | src/agent-control/agent-action-mapper.ts:154-176 | how one more row changes eligibility: a mutation takes it, an undo of the eligible one clears it for good |
| AgentControlTheorems.TogglesExactlyWhen | src/agent-control/agent-control.service.ts:137-249 | two agents are known; pause and resume are idempotent exactly in the wanted state, else the cell turns over and one reversible row says from what to what |
| AgentControlTheorems.PauseTwiceThenResume | src/agent-control/agent-control.service.ts:137-249 | a repeated pause changes nothing and a resume after it leaves every agent as told |
| AgentControlTheorems.StateIsReplay | src/agent-control/agent-control.service.ts:137-357 | in every reachable state, however long the log, the state cell is the replay of the agent's rows and each row starts where the rows before it ended |
| AgentControlTheorems.PausedAfterOdd | src/agent-control/agent-control.service.ts:137-249 | within the window an agent is paused exactly after an odd number of rows |
| AgentControlTheorems.EveryRowToggles | src/agent-control/agent-control.service.ts:307-345 | within the window every control row turns the state over, starting where the row before it ended |
| AgentControlTheorems.UndoInvertsExactly | src/agent-control/agent-control.service.ts:285-345 | within the window an applied undo names the agent's newest row, restores the state from just before it and leaves other agents alone |
| AgentControlTheorems.PauseThenUndo | src/agent-control/agent-control.service.ts:137-192 | pause then undo leaves every agent's state as it was, and a second undo is idempotent |
| AgentControlTheorems.NothingIsUndoneTwice | src/agent-control/agent-control.service.ts:285-298 | within the window no two undo rows name the same action |
| AgentControlTheorems.UndoAnswer | src/agent-control/agent-control.service.ts:285-305 | for a row inside the window: applied if last of its agent, idempotent if the next row undid it, conflict otherwise |
| AgentControlTheorems.BeyondTheWindow | src/agent-control/agent-control.service.ts:500-507 | a pause or resume the window does not reach always conflicts |
| AgentControlTheorems.NewestCanBeUndone | src/agent-control/agent-control.service.ts:500-507 | the agent's newest pause or resume can be undone exactly when fewer than 2000 control rows precede it |
| AgentControlTheorems.AppliedUndoIsNewest | src/agent-control/agent-control.service.ts:299-305 | an applied undo names the newest row exactly when the window holds all the agent's rows |
| AgentControlTheorems.UndoRepeatsExactlyWhen | src/agent-control/agent-control.service.ts:285-305 | an applied undo can be applied again exactly when the log already held 2000 control rows |
| AgentControlTheorems.UndoOverwritesNewerIntent | src/agent-control/agent-control.service.ts:496-507 | after 2002 alternating commands an old row can be undone, twice, over newer intent, while the newest cannot |
| AgentControlTheorems.HistoryAgreesExactlyWhen | src/agent-control/agent-control.service.ts:561-572 | for any log the history status tells the undo's answer unless a reversible row names no known agent |
| AgentControlTheorems.HistoryAgreesWithUndo | src/agent-control/agent-control.service.ts:538-572 | for service-written rows available, undone and superseded mean applied, idempotent and conflict |
| AgentControlService.AgentControlCenter.PauseAgent | src/agent-control/agent-control.service.ts:137-192 | state cell and log row change together, or not at all when already paused or unknown |
| AgentControlService.AgentControlCenter.ResumeAgent | src/agent-control/agent-control.service.ts:194-249 | the same for resume |
| AgentControlService.AgentControlCenter.UndoAction | src/agent-control/agent-control.service.ts:256-357 | all refusals in order, idempotence, and the restoring write, decided through the fold's two maps |
| PayloadMerge.Lookup | src/company-brain/payload-merge.ts:112-154 | after a merge suppressed ids are absent, protected ones hold the current item, the rest is as generated |
| PayloadMerge.MergeForgets | src/company-brain/payload-merge.ts:101-155 | merging g1 then g2 equals merging g2 alone, for any lists and overrides; idempotence is the case g1 = g2 |
| PayloadMerge.NothingProtected | src/company-brain/payload-merge.ts:123-125 | the early return for no protected and no suppressed id equals the general passes |
| PayloadMerge.MergeInLoops | src/company-brain/payload-merge.ts:101-155 | the loops with their map and set compute the merge function, whole list and early return included |
| PayloadOverrides.StoredRoundTrip | src/company-brain/payload-merge.ts:18-43 | what was stored is what is read |
| PayloadOverrides.LegacyRoundTrip | src/company-brain/payload-merge.ts:18-35 | a legacy flat map is read as its protected ids exactly when none of them is a reserved word |
| PayloadOverrides.ReadsExactly | src/company-brain/payload-merge.ts:18-43 | only values that are exactly true protect or bury an id or mark the list whole; what is no object overrides nothing |
| PayloadOverrides.MarkWholeInLoop | src/company-brain/payload-merge.ts:206-228 | retained ids protected, every dropped previous id tombstoned, older tombstones kept |
| ListEdits.EditKeepsConsistent | src/company-brain/payload-merge.ts:175-228 | protected ids stay present, tombstones absent while not whole, and the whole-list mark is never cleared |
| ListEdits.PutSurvives | src/company-brain/company-brain.service.ts:498-527 | with distinct ids a saved item keeps its value through every run that edits neither it nor the list |
| ListEdits.DropSurvives | src/company-brain/company-brain.service.ts:548-567 | a removed item never returns until explicitly added, distinct ids or not |
| ListEdits.PutSurvivesExactlyWhen | src/company-brain/payload-merge.ts:127-137 | without distinctness an edit survives exactly when no other item of that id stands behind the first, or the last of them already equals the edited item |
| ListEdits.DuplicateIdLosesTheEdit | src/company-brain/payload-merge.ts:127-137 | two items of one id: the edit of the first is gone after the next analysis |
| ListEdits.StaleRegenerationKeeps | src/company-brain/company-brain.service.ts:255-295 | an edit made during an analysis survives whatever is generated exactly when it was already held with that value |
| ListEdits.StaleRegenerationResurrects | src/company-brain/company-brain.service.ts:255-295 | an item removed during an analysis can be written back although tombstoned |
| CompanyBrain.RegenerationsForget | src/company-brain/payload-merge.ts:69-99 | for a non-null payload n regenerations equal the last one applied to what the human left |
| CompanyBrain.StepOnList | src/company-brain/company-brain.service.ts:352-488 | every command acts on each list as that list's own edit, and without a payload there are no overrides |
| CompanyBrainTheorems.RunConsistent | src/company-brain/company-brain.service.ts:249-666 | in every reachable brain all four lists and their overrides are consistent |
| CompanyBrainTheorems.SavedPersonaSurvives | src/company-brain/company-brain.service.ts:490-539 | a saved persona keeps value and evidence through any later run that does not edit it or the whole list |
| CompanyBrainTheorems.SavedRuleSurvives | src/company-brain/company-brain.service.ts:581-628 | the same for a qualification rule |
| CompanyBrainTheorems.RemovedPersonaStaysAway | src/company-brain/company-brain.service.ts:541-579 | a removed persona does not return until a command adds it again |
| CompanyBrainTheorems.EditedMessagingStays | src/company-brain/company-brain.service.ts:630-666 | an edited messaging summary stays until a human edits it again |
| CompanyBrainTheorems.EditedIcpStays | src/company-brain/company-brain.service.ts:363-369 | an edited ICP stays until a human edits it again |
| CompanyBrainTheorems.EvidenceIsNeverEdited | src/company-brain/company-brain.service.ts:363-380 | no command changes the evidence of an overridden ICP, nor that of an overridden messaging section |
| BrainEdits.PatchedMessagingHolds | src/company-brain/company-brain.service.ts:630-666 | after patchMessaging, through any run without a messaging edit, every given field has its new value, every other its old, and the evidence is the old one |
| BrainEdits.PatchedBrainMessagingHolds | src/company-brain/company-brain.service.ts:371-380 | the same for the messaging part of patchBrain |
| BrainEdits.PatchedIcpHolds | src/company-brain/company-brain.service.ts:363-370 | the same for its ICP part |
| BrainEdits.SectionsFollowTheirOwnEdits | src/company-brain/company-brain.service.ts:277-300 | a command moves only the scalar sections it gives; an analysis replaces exactly those no human edited |
| BrainEdits.SavedPersonaHolds | src/company-brain/company-brain.service.ts:498-527 | a saved persona has the body given and the evidence of the first item of its id before, through any run that edits neither it nor the list |
| BrainEdits.SavedRuleHolds | src/company-brain/company-brain.service.ts:581-628 | the same for a rule |
| BrainEdits.ReplacedListHolds | src/company-brain/company-brain.service.ts:382-460 | a replaced list is what was given, in order, each item with its own evidence or that of the old item of its id, through any run that does not edit it |
| BrainEdits.ReplaceMarks | src/company-brain/payload-merge.ts:206-228 | replacing a list protects exactly the new ids and buries the dropped ones beside the older tombstones |
| BrainEdits.VersionCountsAnalyses | src/company-brain/company-brain.service.ts:277-300 | the version is the number of analyses that went through |
| BrainEdits.StatusIsTheLastAnalysis | src/company-brain/company-brain.service.ts:249-350 | ready or failed as the last analysis ended, draft before the first |
| CompanyBrainTheorems.AnalysesForget | src/company-brain/company-brain.service.ts:277-295 | in every reachable brain, payload or not, a series of analyses leaves what the last alone would |
| CompanyBrainService.CompanyBrainService.RunAnalysis | src/company-brain/company-brain.service.ts:249-350 | merged payload, next version and ready; a throwing analyzer changes only the status |
| CompanyBrainService.CompanyBrainService.PatchBrain | src/company-brain/company-brain.service.ts:352-488 | the sections given are replaced or merged and marked, the others untouched |
| CompanyBrainService.CompanyBrainService.UpsertPersona | src/company-brain/company-brain.service.ts:490-539 | written over the first item of that id or appended, evidence kept, id protected |
| CompanyBrainService.CompanyBrainService.RemovePersona | src/company-brain/company-brain.service.ts:541-579 | removed and tombstoned, or not found and unchanged |
| CompanyBrainService.CompanyBrainService.UpsertQualificationRule | src/company-brain/company-brain.service.ts:581-628 | the same for rules |
| CompanyBrainService.CompanyBrainService.PatchMessaging | src/company-brain/company-brain.service.ts:630-666 | fields merged, evidence kept, section marked |
| CompanyDedupe.Dedupe | src/prospect-discovery/company-dedupe.ts:15-68 | NEW exactly when no company shares domain or name; EXACT exactly on a shared domain, or a shared name without a domain |
| CompanyDedupe.LoadedExactly | src/prospect-discovery/prospect-discovery.service.ts:492-524 | the loaded companies are exactly those some answered lookup reported |
| CompanyDedupe.LoadCrmCompanies | src/prospect-discovery/prospect-discovery.service.ts:492-524 | fail-closed yields nothing if any lookup threw; best-effort yields what the others reported |
| ProspectTheorems.CompanyNeedsApprovalAndLookup | src/prospect-discovery/prospect-discovery.service.ts:321-435 | every company follows at once a lookup of the same call that answered NEW, and an earlier approval of its candidate |
| ProspectTheorems.SecondCompanyNeedsLoss | src/prospect-discovery/prospect-discovery.service.ts:330-360 | a second company needs a lost response, or the loss of both checkpoint and row |
| ProspectTheorems.RecordsAgree | src/prospect-discovery/prospect-discovery.service.ts:437-472 | checkpoint and row never name different companies, what they name was made for the candidate, CREATED has one |
| ProspectTheorems.FinalAbsorbs | src/prospect-discovery/prospect-discovery.service.ts:265-327 | CREATED and REJECTED absorb over every run of calls |
| ProspectTheorems.MakesExactlyWhen | src/prospect-discovery/prospect-discovery.service.ts:321-435 | a call makes a company exactly when approved, unknown, looked up, unmatched and carried out by the CRM |
| ProspectTheorems.SecondCompanyExactlyWhen | src/prospect-discovery/prospect-discovery.service.ts:330-484 | after a made company a later call, looked up, unmatched and carried out, makes another exactly when the response was lost, both records were lost, or the id was empty and the row did not end CREATED |
| ProspectTheorems.StoredIsRecovered | src/prospect-discovery/prospect-discovery.service.ts:335-360 | otherwise the next call knows the id and makes none, whatever the CRM answers |
| ProspectOutcomes.RejectedForGood | src/prospect-discovery/prospect-discovery.service.ts:297-319 | any candidate but a created or rejected one is REJECTED after it and stays so, and no company is ever made for it, over every later run |
| ProspectOutcomes.ApprovedExactlyWhen | src/prospect-discovery/prospect-discovery.service.ts:265-295 | approving goes through exactly for a proposed or failed candidate that matched nothing |
| ProspectOutcomes.ProposedAs | src/prospect-discovery/prospect-discovery.service.ts:145-180 | how a proposal is flagged and which company it names, from shared domain and name |
| ProspectOutcomes.MatchIsNeverApproved | src/prospect-discovery/prospect-discovery.service.ts:265-295 | a candidate proposed as a match, certain or possible, is never approved and no company is made for it, over every run |
| ProspectOutcomes.AnsweredExactlyWhen | src/prospect-discovery/prospect-discovery.service.ts:492-524 | a lookup counts as answered only if every call it makes was answered |
| ProspectOutcomes.AnsweredHolds | src/prospect-discovery/prospect-discovery.service.ts:492-524 | and then holds exactly the companies those calls named |
| ProspectOutcomes.CreateDecides | src/prospect-discovery/prospect-discovery.service.ts:362-485 | without faults the lookup alone decides: FAILED, DUPLICATE, flagged, or CREATED with its id in both records |
| ProspectOutcomes.FailedCreateIsMarked | src/prospect-discovery/prospect-discovery.service.ts:474-484 | a CRM that fails, or whose answer is lost, leaves the candidate FAILED |
| ProspectOutcomes.KnownIsRecovered | src/prospect-discovery/prospect-discovery.service.ts:335-360 | a known company is only marked, whatever the CRM would answer |
| ProspectOutcomes.ProposedApprovedCreated | src/prospect-discovery/prospect-discovery.service.ts:145-472 | proposed without a match, approved and created ends CREATED with the CRM's id in both records |
| ProspectService.ProspectDiscoveryService.ApproveCandidate | src/prospect-discovery/prospect-discovery.service.ts:265-295 | approved exactly when proposed or failed and not flagged as a match |
| ProspectService.ProspectDiscoveryService.RejectCandidate | src/prospect-discovery/prospect-discovery.service.ts:297-319 | any candidate but a created or rejected one becomes REJECTED, nothing else changes |
| ProspectService.ProspectDiscoveryService.CreateApprovedCandidate | src/prospect-discovery/prospect-discovery.service.ts:321-485 | recovery, fail-closed lookup, match refusals and creation under every fault, as the call model has them |
| ActionFeed.AboveTransitive | src/action-feed/action-feed.types.ts:111-125 | the four-key comparison is transitive, strictly so if either step is strict |
| ActionFeed.SortOrders | src/action-feed/action-feed.types.ts:151-153 | sorting orders the same items |
| ActionFeed.SortIsStable | src/action-feed/action-feed.types.ts:150-153 | items the comparison cannot tell apart keep their order |
| ActionFeed.DedupedAreWinners | src/action-feed/action-feed.types.ts:131-148 | without ties dedupe keeps exactly the items that outrank all others of their prospect |
| ActionFeedTheorems.DedupeThenSort | src/action-feed/action-feed.service.ts:30-31 | without ties, dedupe then sort equals sort then keep the first of each prospect |
| ActionFeedTheorems.CollectionOrderIsMoot | src/action-feed/action-feed.service.ts:23-31 | without ties the order of collection does not show |
| ActionFeedOrder.OrderIsMootExactlyWhen | src/action-feed/action-feed.types.ts:127-153 | for any items: the order of collection never shows, at any limit, exactly when no two different items tie that are both top of their prospects or both without one |
| ActionFeedTheorems.TiesShowTheOrder | src/action-feed/action-feed.types.ts:141-144 | two tied items of one prospect: the one collected first is kept |
| ActionFeedTheorems.TiersAreNeverCrossed | src/action-feed/action-feed.types.ts:28-38 | no score lifts an item over a higher type |
| ActionFeedOrder.NotBelowExactlyWhen | src/action-feed/action-feed.types.ts:111-125 | the comparison on literal tiers, scores, times and ids, missing ones included |
| ActionFeedOrder.FeedDescends | src/action-feed/action-feed.types.ts:111-125 | the feed descends by tier, then score, then recency, then id |
| ActionFeedTheorems.OncePerProspect | src/action-feed/action-feed.types.ts:127-148 | a prospect appears at most once, ties or not |
| ActionFeedTheorems.SmallerLimitIsPrefix | src/action-feed/action-feed.service.ts:31 | a smaller limit shows a prefix of what a larger one shows |
| ActionFeedTheorems.DedupeInLoop | src/action-feed/action-feed.types.ts:131-148 | the loop over an insertion-ordered map computes the dedupe function |
| ActionFeedTheorems.GetFeed | src/action-feed/action-feed.service.ts:20-50 | items as specified, and the four summary counts add up to the total |
| WebhookReplay.EnqueuedAtMostOnce | src/webhooks/webhook.controller.ts:71-126 | any redeliveries at any times among any other requests enqueue a delivery at most once |
| WebhookReplay.SuppressesExactlyWhen | src/webhooks/idempotency.service.ts:5-29 | replays are suppressed exactly when check-to-mark delay plus freshness window stay below the mark's life |
| WebhookReplay.SuppressesWithin | src/webhooks/idempotency.service.ts:5-29 | in numbers: while a check is followed by its mark within 23 hours and 55 minutes |
| WebhookReplay.FreshExactlyWhen | src/webhooks/idempotency.service.ts:12-18 | fresh in the five minutes after the instant, ends included |
| WebhookReplay.SecondsAreMilliseconds | src/webhooks/idempotency.service.ts:14-15 | a timestamp in seconds and the same one in milliseconds are fresh at the same times |
| WebhookReplay.EnqueuesExactlyWhen | src/webhooks/webhook.controller.ts:58-136 | when a job is enqueued, a mark left, and each answer given |
| WebhookReplay.OnlySignedAreEnqueued | src/webhooks/webhook.controller.ts:58-95 | over any run every job is of a signed, valid delivery that was fresh when checked |
| WebhookReplay.FailureAfterMarkIsFinal | src/webhooks/webhook.controller.ts:84-95 | a request that fails after its mark is answered as a duplicate from then on |
| WebhookReplay.MarkedExactlyWhen | src/webhooks/idempotency.service.ts:5-29 | over any run an id is marked exactly when an earlier request of that id, answered neither unsigned, stale nor duplicate, set a mark that still lives |
| WebhookReplay.DroppedExactlyWhen | src/webhooks/webhook.controller.ts:71-95 | after any run a signed and fresh request is dropped as a duplicate exactly when such an earlier request, of whatever tenant, set a mark less than a day ago |
| WebhookReplay.LostToAnotherTenant | src/webhooks/idempotency.service.ts:24-29 | a delivery that was never enqueued is dropped after another tenant's with the same event id |
| WebhookReplay.WebhookReceiver.HasSeenOrMark | src/webhooks/idempotency.service.ts:24-29 | true exactly for an unexpired mark, else the id is marked for a day |
| WebhookReplay.WebhookReceiver.Receive | src/webhooks/webhook.controller.ts:58-136 | checks, mark, log row and enqueue in the source's order, each failure included |
| WhyNow.DisqualifiedExactlyWhen | src/prospect-discovery/fit-scoring.ts:123-170 | disqualified exactly when an ICP disqualifier or a negative rule matches; the score stays in 0..100 |
| WhyNowLaws.MatchNeverLowersFit | src/prospect-discovery/fit-scoring.ts:83-121 | one more matching part of the ICP never lowers the fit |
| WhyNowLaws.RuleMovesFit | src/prospect-discovery/fit-scoring.ts:139-162 | a matching rule moves the fit its own way, and only a negative one disqualifies |
| WhyNowLaws.DisqualifierLowersFit | src/prospect-discovery/fit-scoring.ts:123-137 | a disqualifier never raises the fit and disqualifies |
| WhyNowLaws.BandsMeetAt | src/prospect-discovery/fit-scoring.ts:166-172 | the bands meet at 75 and 55 |
| WhyNowLaws.PartsAreWorth | src/prospect-discovery/fit-scoring.ts:83-121 | the worth of each part |
| WhyNowLaws.RulesAreWorth | src/prospect-discovery/fit-scoring.ts:123-162 | the worth of a rule and of a disqualifier |
| WhyNow.AssessIcpFit | src/prospect-discovery/fit-scoring.ts:77-173 | the two loops add up to the fit function of the match counts |
| WhyNow.AssessWhyNow | src/why-now/why-now-scoring.ts:36-197 | the loop with its seven accumulators computes the five numbers of the assessment function |
| WhyNowTheorems.OrderOfSignalsIsMoot | src/why-now/why-now-scoring.ts:75-131 | fit, intent, timing, overall and confidence do not depend on the order of the signals |
| WhyNowTheorems.PositiveSignalNeverLowers | src/why-now/why-now-scoring.ts:78-89 | one more signal that is not negative never lowers intent, timing or overall |
| WhyNowTheorems.WaitingNeverRaises | src/why-now/signal-utils.ts:29-48 | with only such signals a later now never raises timing or overall |
| WhyNowTheorems.SafeToWaitExactlyWhen | src/why-now/why-now-scoring.ts:76-89 | a signal never lets waiting raise timing, whatever signals without negatives it joins, exactly when it is not negative or weighs nothing |
| WhyNowTheorems.DisqualifiedStaysBelow80 | src/why-now/why-now-scoring.ts:134-150 | any disqualifier or matched negative rule keeps intent at 40 or below and overall at 79 or below |
| WhyNowTheorems.NoSignalsStaysBelow49 | src/why-now/why-now-scoring.ts:55-56 | without signals overall stays at 48 or below |
| WhyNowLaws.ConfidenceFollowsSupport | src/why-now/why-now-scoring.ts:152-169 | more support, fresher and surer signals and fewer conflicts never lower the confidence |
| WhyNowLaws.OneSignalsConfidence | src/why-now/why-now-scoring.ts:152-169 | the confidence of one certain, fresh signal of each kind |
| WhyNowLaws.NoSignalsConfidence | src/why-now/why-now-scoring.ts:152-169 | without signals 0.4 from a fit of 55 on, else 0.3 |
| WhyNowLaws.OneSignalsScores | src/why-now/why-now-scoring.ts:75-131 | intent and timing of one certain, relevant, fresh signal of each kind |
| WhyNowLaws.OverallIsBetween | src/why-now/why-now-scoring.ts:143-150 | overall lies between the lowest and the highest of the three scores |
| WhyNowLaws.WeightsAre | src/why-now/why-now-scoring.ts:143-150 | what each score contributes alone |
| WhyNowLaws.AgeWeighs | src/why-now/signal-utils.ts:29-48 | the five weights of a signal's age |

## Left out

- AtMostOneDeliveryPerDraft: rests on a durable key table; the deterministic provider loses its table when the process restarts.
- PausedAfterOdd: stated while a tenant has at most 2000 control rows; past that only the replay holds (`StateIsReplay`), as an undo may write the state a newer row already has (`UndoOverwritesNewerIntent`).
- EveryRowToggles: stated while a tenant has at most 2000 control rows, for the same reason.
- NothingIsUndoneTwice: stated while a tenant has at most 2000 control rows, for the same reason.
- FinalDraftsStay: at the granularity of whole calls; between statements it fails (`RejectionCanBeOvertaken`).
- FinalAbsorbs: at the granularity of whole calls; inside one create call a late error may turn CREATED into FAILED.
- CollectionOrderIsMoot: without ties; with ties `OrderIsMootExactlyWhen` says when the order shows.
- SHA-256 is injective here; the truncation of the provider id to 24 hex digits and collisions are not modelled.
- The provider id correlation assumes row ids without colons, as generated ids are.
- One tenant for the AI SDR, agent control, brain and candidate models: every query of the source is tenant-scoped.
- The sequence row's own crmSyncStatus column, send queueing and `sendDraft`'s early gate check: no decision reads them.
- At statement granularity the CRM sync of a send is one step; its own steps and faults are in `SdrCrmSync`.
- Audit rows other than the control timeline, and failures of the audit write outside the modelled catch blocks.
- Pause, resume and undo are atomic: two racing pauses, or a crash between the control cell and its audit row, can leave both out of step.
- Control rows are read back in commit order; rows of equal timestamp ordered by random id are not modelled.
- The order of protected ids is their insertion order; the database may reorder the keys of a stored JSON object. No theorem about runs depends on that order.
- Payload schema limits and defaults; a payload that fails validation.
- Candidate calls are atomic except for the faults of their own writes; concurrent creates of one candidate are not modelled.
- Domain and company name normalisation, trigger and rule text matching: their results are parameters.
- Discovery runs, research, enrichment providers, connection and secret handling, controllers other than the webhook path.
- Floating-point rounding: scores are reals, Math.round is floor(x + 1/2), and localeCompare is a given order of ids.
- Score reasons and the explanation text; ScoreHistory rows may repeat, one per attempt that reaches that write.
- Redis and BullMQ internals: SET NX EX is a timed set, jobs are attempts.
