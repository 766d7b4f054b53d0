# A verified model of boid's stateful cores

boid is a daemon that runs coding agents for a user. This project models the parts of it whose
guarantees span several functions, and proves those guarantees for every input, every run or every
interleaving:

1. **Questions and answers** (`AskRegistry`, `AskProtocol`, `AskInvariants`, `AskTheorems`,
   `AskDelivery`, `AskReaper`, `AskProgress`, `AskService`). An agent asks and blocks; it may lose its
   connection, ask again, re-attach or pick up a parked answer; a grace timer aborts tasks nobody will come back for. The
   protocol is a transition system whose steps are the source's critical sections, and the service
   class is proved to take exactly those steps.
2. **Attachments** (`Paths`, `AttachmentNames`, `AttachmentNameRules`, `AttachmentStore`,
   `AttachmentEffects`). A quota-bounded directory with exact rules for names, collision-free variants, all-or-nothing uploads, a read-back path, and a full model of path cleaning.
3. **Projects and workspaces** (`ProjectRegistry`, `ProjectRegistryEffects`, `ProjectService`,
   `ProjectNames`). The cached
   workspace of each project against its database row under two mutexes, and the exporter against
   the two resolvers that read its names back.
4. **Workspace init.sh and rows** (`InitScripts`, `InitScriptEffects`, `InitScriptService`).
   Optimistic concurrency with
   `If-Match` (section 3.1 of RFC 7232), 412 (section 4.2 of RFC 7232) and 428 (section 3 of
   RFC 6585), a dry run that predicts the real run, and exclusion against workspace removal.
5. **The card execution slot** (`CardRequests`, `CardSlotRuns`, `CardRequestRuns`,
   `CardRequestEffects`, `CardDispatch`). One
   active request per card across human commands, automatic dispatch, folding, completion, retry,
   forced release and collection.
6. **The card log and its suggestion** (`CardLog`, `CardLogRuns`, `CardLogEffects`,
   `CardLogService`). A transaction
   that applies a suggested transition, the sweeps beside it, and the log they share.
7. **The detach filter** (`DetachReader`).

The pattern is the same throughout. A `State` datatype, a `Step` datatype and a total `Next` (a
disabled step changes nothing) give `Run` over any list of steps; invariants are small named
predicates kept step by step; theorems quantify over all runs. Where the source updates things in
place there is a class whose methods are proved to perform those steps, failing store calls included.
What each step does is also told apart from its definition, on tasks, rows, cards, names and codes
(`AskProgress`, `AttachmentNameRules` and the modules ending in `Effects`): what moves, what stays,
and when a call is accepted.

## Where the source does not keep the promise

Each is proved with a concrete run or state, and beside it stands the exact condition.

- `AnswerTask` requires a question id and never compares it: an answer sent for any id reaches the
  question that is current (`MisaddressedAnswerIsDelivered`). The two agree throughout a run if and
  only if callers make them (`AnswersMatchTheirQuestionIff`).
- If the task row cannot be written after the answer was handed over, a second answer is accepted and
  both are delivered (`LostFlipAnswersTwice`): over every run the deliveries and held answers of a
  question are exactly its flips, recorded and lost (`AnswersConserved`). A second delivery is
  possible if and only if the call holding the channel is still waiting (`SecondDeliveryIff`). If an
  answer was parked and the task was aborted and reopened, the next question inherits it
  (`InheritedAnswerIsDelivered`), and an answer nobody gave reaches the agent if and only if that
  happens (`UnsubmittedDeliveryIff`). A parked answer stands beside a registration exactly after such
  an ask, or after an answer that found the channel full (`CoexistIff`).
- A task can be left awaiting with nobody to answer it or to reap it, in three ways. A hook exit wipes
  its parked answer (`StrandedByHookExit`); in runs free of faults and of overlapping calls exactly if
  no timer is armed for the question (`HookExitStrandsIff`). The row write fails on the fast path and the
  answer is received (`StrandedByLostFlip`), exactly if no other call or timer covers the question (`LostFlipStrandsIff`).
  A timer fires before its own call has cancelled (`StrandedByLateCancel`), exactly if it gives up on a
  question nothing else covers (`TimerStrandsIff`).
- A stale Cancel removes the registration of a call that re-attached, and the reaper then aborts a
  live ask (`StaleCancelKillsLiveAsk`); a waiting call is put at the reaper's mercy exactly by another
  call's Cancel (`LiveAskReapedIff`).
- A direct transition over a pending suggestion records the discard with the transition's own from
  and to (`DiscardBreaksChain`), and writes a status read before its transaction; the log replays
  exactly in the runs where neither happens (`LogReplaysIff`).
- A workspace row's revision is a wall-clock stamp; a repeated stamp loses an update
  (`RepeatedStampLosesUpdate`). A row write makes that possible if and only if it reuses a revision
  somebody has read from that workspace (`LostUpdateIff`).
- Deleting a project does not take the assignments' mutex: a cache write can land for a project that
  is gone (`LateWriteReachable`, `LateWriteIff`), and a later registration that cannot be rolled back
  then disagrees with its row (`DanglingMayDisagree`), if and only if something was cached for it
  (`FailedRegistrationAgreesIff`). Of all steps exactly a stale cache write breaks the agreement
  (`StepAgreesIff`).
- The variants of a long file name are too long for the filesystem. There is room for 999 files of one
  name of up to 251 bytes, 100 of 252, 10 of 253 and one of 254 or 255, and one file more fails although
  the header check accepts it (`LongNamesFail`). An upload of one repeated name saves into an empty
  directory if and only if there is room (`RepeatedNameSavesIff`), and any upload saves in which no name
  comes later than there is room for it (`ValidatedUploadSucceeds`).
- The comment on the human command says the barrier is lifted unconditionally; a command whose
  reservation transaction aborts leaves it standing (`AbortedCommandLeavesBarrier`), exactly then
  (`BarrierStaysIff`). Of all steps exactly the other reservations and accepted retries end a barrier
  (`BarrierEndsIff`, `BarrierEndsByLift`).

One reader is laxer than its writers. A suggestion at the top level of a card's detail blob would
survive its own answer (`AnsweredIsGoneIff`, `HiddenSuggestionLost`), but no writer puts one there: from
a card without one every committed answer ends the suggestion (`AnswersEndSuggestions`).

## Assumptions

Question ids and request ids are never empty and never repeat, and no two requests of a card share a
creation time. A content hash is injective. Steps of the ask protocol are atomic as listed, so two
answers working from the same stale task row, and a cancellation racing a filled buffer, are outside
the model. The abort action of the reaper succeeds. Strings are sequences of Unicode scalar values and
byte lengths are computed from them. File names are limited to 255 bytes, as on Linux. Removals during
an upload's clean-up succeed.

## Model

| member | source | states |
|---|---|---|
| AskRegistry.RegisterConsistent | internal/api/blocking_ask_registry.go:60-70 | registering, and refusing to, keeps channel owners and task entries in step |
| AskRegistry.CancelConsistent | internal/api/blocking_ask_registry.go:114-123 | cancelling one id keeps them in step for every other |
| AskRegistry.EveryRunConsistent | internal/api/blocking_ask_registry.go:60-123 | after any calls the ids that own a channel are exactly the ids some task points at, with at most one answer each |
| AskRegistry.RegisteredQuestionTakesOneAnswer | internal/api/blocking_ask_registry.go:96-109 | a registered question accepts its first answer and refuses the next |
| AskRegistry.BlockingAskRegistry.Register | internal/api/blocking_ask_registry.go:60-70 | refuses exactly a task with another question pending, and then changes nothing; the same question re-attaches with a new channel |
| AskRegistry.BlockingAskRegistry.Notify | internal/api/blocking_ask_registry.go:96-109 | accepts exactly when the id's one-slot channel exists and is empty |
| AskRegistry.BlockingAskRegistry.Cancel | internal/api/blocking_ask_registry.go:114-123 | removes the id's channel and the entries naming it, and nothing else |
| AskRegistry.BlockingAskRegistry.Receive | internal/api/blocking_ask_registry.go:83-88 | takes the buffered answer out of the channel |
| AskInvariants.StepInv | internal/api/task_ask.go:42-288 | every step of the protocol keeps ownership, provenance and registration |
| AskInvariants.RunInv | internal/api/task_ask.go:42-288 | the protocol's invariant holds in every state a run reaches |
| AskTheorems.OneAnswerPerQuestion | internal/api/task_ask.go:200-288 | one flip per question; at most one delivered answer unless a flip on it was lost; each delivered answer submitted to its question unless inherited |
| AskTheorems.DeliveriesWereSubmitted | internal/api/task_ask.go:200-288 | over every run, lost flips included, a held or delivered answer was submitted to its question unless inherited |
| AskTheorems.FlipsAreAttributed | internal/api/task_ask.go:200-288 | the recorded answer names whoever submitted it |
| AskTheorems.ParkedMeansNoWaiter | internal/api/task_ask.go:259-288 | a parked answer coexists with no registered waiter unless a fault has hit that very question |
| AskTheorems.CoexistIff | internal/api/task_ask.go:259-288 | a step brings the two together if and only if it is an inheriting ask or parks an answer beside a full channel |
| AskTheorems.InheritedAnswerIsDelivered | internal/orchestrator/spec_payload.go:375-400 | the payload merge lets a new question return the old question's answer |
| AskTheorems.AbandonedReachable | internal/api/task_ask.go:136-143 | the abandoned-question state is reached by ask, disconnect and cancel |
| AskTheorems.InheritingRunExists | internal/api/task_ask.go:42-123 | a parked answer, an abort and a reopen reach that ask |
| AskTheorems.LostFlipAnswersTwice | internal/api/task_ask.go:259-288 | a failed row write after the hand-over leads to two delivered answers |
| AskTheorems.AnswersMatchTheirQuestionIff | internal/api/task_notify.go:339-363 | named and answered ids agree throughout if and only if callers make them |
| AskTheorems.AddressedDeliveries | internal/api/task_notify.go:339-363 | in addressed runs every answer handed back was sent for the question it reached, unless inherited |
| AskTheorems.MisaddressedAnswerIsDelivered | internal/api/task_notify.go:339-363 | an answer for another id reaches the waiting call |
| AskDelivery.SecondDeliveryIff | internal/api/task_ask.go:259-288 | after a fault-free run and a lost flip, a fault-free continuation delivers twice if and only if the call holding the channel still waits |
| AskDelivery.AnswersConserved | internal/api/task_ask.go:200-288 | over every run the answers delivered and still held for a question are exactly its recorded and its lost flips |
| AskDelivery.DeliveriesBounded | internal/api/task_ask.go:200-288 | over every run the deliveries for a question number at most one more than the flips it lost |
| AskDelivery.RunAnswersOnce | internal/api/task_ask.go:200-288 | beside an answer nobody can receive any more, a question is answered at most once over every fault-free continuation |
| AskDelivery.UnsubmittedDeliveryIff | internal/api/task_ask.go:42-123 | an answer nobody gave can reach the agent after a step, lost flips included, if and only if that step inherits one |
| AskReaper.NoOrphanedAsk | internal/api/task_ask.go:42-189 | an awaiting task has a parked answer, a waiting call or a timer armed for exactly its question |
| AskReaper.StrandedByLateCancel | internal/api/task_ask.go:136-189 | a cancel after its own grace period strands the task |
| AskReaper.StrandedByHookExit | internal/api/workflow_action.go:604-608 | wiping a parked answer strands the task |
| AskReaper.StrandedByLostFlip | internal/api/task_ask.go:259-288 | an answer received after a failed row write strands the task |
| AskReaper.LostFlipStrandsIff | internal/api/task_ask.go:259-288 | it is left covered if and only if another call or timer covers its question |
| AskReaper.TimerStrandsIff | internal/api/task_ask.go:167-189 | a firing timer strands a task if and only if it gives up on a question nothing else covers |
| AskReaper.HookExitStrandsIff | internal/api/workflow_action.go:604-608 | without faults and overlap, a task whose parked answer is wiped stays covered if and only if a timer is armed for its question |
| AskReaper.ReaperSparesTheLiving | internal/api/task_ask.go:154-189 | with cancels before re-registration, an aborted task has no waiting call, no parked answer and no newer question |
| AskReaper.LiveAskReapedIff | internal/api/task_ask.go:167-189 | one step puts a waiting call on a registered question at the reaper's mercy if and only if it is another call's Cancel |
| AskReaper.RegistrationLostIff | internal/api/blocking_ask_registry.go:114-123 | of all steps exactly the Cancel of a call done waiting ends a registration |
| AskReaper.ReapedAfterCancel | internal/api/task_ask.go:136-189 | over whole runs a registered question is reaped only after some call's Cancel on it |
| AskReaper.StaleCancelKillsLiveAsk | internal/api/blocking_ask_registry.go:114-123 | without that order a live ask is aborted |
| AskProgress.TaskMoves | internal/api/task_ask.go:42-288 | every change any step can make to a task: asked, parked, answered or moved from outside |
| AskProgress.FlipMovesOneTask | internal/api/task_ask.go:200-288 | a recorded answer takes exactly one task from awaiting to executing, without its question; every other task keeps its status |
| AskProgress.ExecutingTaskBlocks | internal/api/task_ask.go:92-123 | an executing task with no question registered blocks on its new one |
| AskProgress.FailedAskLeavesNothing | internal/api/task_ask.go:92-116 | an ask whose action fails leaves the task executing and nothing registered |
| AskProgress.AwaitingTaskReattaches | internal/api/task_ask.go:59-83 | an awaiting task without a parked answer blocks again on its own question |
| AskProgress.ParkedAnswerIsReturned | internal/api/task_ask.go:200-213 | an awaiting task with a parked answer is handed it and executes again |
| AskProgress.BlockedCallGetsTheAnswer | internal/api/task_ask.go:136-143 | an answer to a blocked call can be received, and what it receives is that answer |
| AskProgress.UnheardAnswerIsParked | internal/api/task_ask.go:259-288 | an answer nobody waits for is parked for the next ask |
| AskProgress.AnsweredTaskAsksAgain | internal/api/task_ask.go:42-288 | answered, received and cancelled, the task blocks on its next question |
| AskProgress.RefusedAskChangesNothing | internal/api/task_ask.go:49-90 | an ask without a question, a task or a status that asks changes nothing |
| AskProgress.RefusedAnswerChangesNothing | internal/api/task_notify.go:339-363 | an answer without an id, to no task or to a task that is not awaiting changes nothing |
| AskProgress.AbandonedTaskIsReaped | internal/api/task_ask.go:154-189 | a lost connection, once cancelled and unanswered, ends in the task aborted |
| AskService.TaskAskService.BeginAsk | internal/api/task_ask.go:42-123 | the prologue is one step of the protocol, and its outcome for every task: each refusal's code, the parked answer, or blocked |
| AskService.TaskAskService.ConsumePendingAnswer | internal/api/task_ask.go:200-213 | hands back the parked answer only with the committed flip |
| AskService.TaskAskService.AnswerTaskCall | internal/api/task_ask.go:259-288 | one step of the protocol on the fast and the slow path; exactly when each of 400, 404, 409 and 200 is returned |
| AskService.TaskAskService.ReceiveAnswer | internal/api/task_ask.go:136-143 | the blocked call returns the buffered answer |
| AskService.TaskAskService.LoseConnection | internal/api/task_ask.go:136-160 | a lost connection arms the timer for its task and question |
| AskService.TaskAskService.DeferredCancel | internal/api/task_ask.go:91-123 | the deferred cancel is one step |
| AskService.TaskAskService.GraceAbortCheck | internal/api/task_ask.go:167-189 | aborts exactly a task still waiting on that question with nobody registered |
| Paths.CleanIdempotent | internal/api/attachments.go:56-85 | cleaning a cleaned path changes nothing |
| Paths.CanonicalIsPlain | internal/api/attachments.go:77-85 | an accepted component is one plain path segment |
| Paths.AttachmentsRootPlacement | internal/api/attachments.go:56-72 | the directory is refused or lies directly under dataHome/tasks/id |
| Paths.AttachmentsRootInjective | internal/api/attachments.go:56-72 | two accepted ids never share a directory |
| AttachmentNames.SanitizedIsSafe | internal/api/attachments.go:252-271 | an accepted name is one safe segment and is its own sanitised form |
| AttachmentNameRules.AcceptedIff | internal/api/attachments.go:252-271 | a raw name is accepted as a given name if and only if that name is storable (portable characters, no leading dot, one of eight extensions in any case, 255 bytes) and the raw one adds only white space, directories and trailing separators |
| AttachmentNameRules.StorableNameAccepted | internal/api/attachments.go:252-271 | a storable name is accepted as itself with anything such around it |
| AttachmentNameRules.AcceptedShape | internal/api/attachments.go:252-271 | an accepted name is storable, and what surrounds it is white space, directories and separators |
| AttachmentNameRules.RefusalReasons | internal/api/attachments.go:252-271 | a refused name's reason: too long in bytes, a character, a leading dot, its extension, in that order |
| AttachmentNameRules.NotANameRefused | internal/api/attachments.go:252-256 | white space alone and the dot segments are invalid names |
| AttachmentNameRules.AllowedIff | internal/api/attachments.go:26-35 | the extensions allowed are the eight, in any letter case |
| AttachmentNameRules.VariantsOf | internal/api/attachments.go:276-291 | the variants of stem and extension are stem-1, stem-2 and so on before the extension |
| AttachmentNames.CandidatesDistinct | internal/api/attachments.go:276-291 | the numbered variants of a name are pairwise distinct |
| AttachmentNames.CandidateSafe | internal/api/attachments.go:276-291 | a numbered variant of a safe name is safe |
| AttachmentNames.FirstFreeIsCandidate | internal/api/attachments.go:276-291 | the chosen name is the first variant not taken and fits the filesystem; otherwise the search is stuck |
| AttachmentNames.FirstFreeFailsIff | internal/api/attachments.go:276-291 | the search fails if and only if all variants up to the 999th, or up to the first too long one, are taken |
| AttachmentNames.CandidateLength | internal/api/attachments.go:276-291 | a variant is longer than the name by a dash and its one to three digits |
| AttachmentNames.VariantFitsIff | internal/api/attachments.go:276-291 | the filesystem holds a variant if and only if there is room for it: 999, 100, 10 or 1 by the length of the name |
| AttachmentNames.LetterNameAccepted | internal/api/attachments.go:252-271 | every length from five to 255 bytes is that of an accepted name |
| AttachmentNames.FewTakenMeansFree | internal/api/attachments.go:276-291 | fewer taken names than there is room for leave a variant free |
| AttachmentNames.ResolveUniqueName | internal/api/attachments.go:276-291 | the loop returns the first free variant |
| AttachmentStore.SaveAllSaves | internal/api/attachments.go:351-400 | a save stores each file whole under a new, distinct, safe name and changes no earlier file |
| AttachmentStore.SaveAllWithinQuota | internal/api/attachments.go:351-400 | with true sizes a saved directory stays within the cap |
| AttachmentStore.ValidateAttachmentHeaders | internal/api/attachments.go:322-345 | passes exactly the uploads whose every header fits by size, name and running sum, reports the first that does not, and what it refuses saves into no directory |
| AttachmentStore.HeadersErrorIff | internal/api/attachments.go:322-345 | no error if and only if each size is at most 10 MiB, each name accepted and each running sum at most 30 MiB; otherwise the reason of the first misfit |
| AttachmentStore.ValidatedUploadSucceeds | internal/api/attachments.go:276-400 | a validated upload in which no name comes later than there is room for it saves into an empty directory |
| AttachmentStore.ValidatedSaves | internal/api/attachments.go:276-400 | the same into any directory, whose entries count against the room |
| AttachmentStore.TooManyOfOneName | internal/api/attachments.go:276-400 | one name repeated more often than there is room for saves into no directory |
| AttachmentStore.RepeatedNameSavesIff | internal/api/attachments.go:276-400 | a validated upload of one repeated name saves into an empty directory if and only if there is room for it |
| AttachmentStore.LongNamesFail | internal/api/attachments.go:276-400 | concrete uploads of 252 to 255 byte names that pass the header check and fail |
| AttachmentStore.NoUniqueNameIff | internal/api/attachments.go:351-400 | a file finds no name if and only if its search is stuck |
| AttachmentStore.LongNameSavesOnce | internal/api/attachments.go:276-400 | a name of 254 bytes or more passes the header check twice and saves once |
| AttachmentStore.SavedReadsBack | internal/api/attachments.go:158-246 | every name an upload stored passes the lookup check and reads back the uploaded bytes |
| AttachmentStore.AttachmentFs.DirSizeBytes | internal/api/attachments.go:296-318 | adds up the regular files in any order |
| AttachmentStore.AttachmentFs.ListAttachments | internal/api/attachments.go:119-151 | lists exactly the regular files, sorted |
| AttachmentStore.AttachmentFs.WriteAttachment | internal/api/attachments.go:402-427 | writes the whole file or leaves nothing |
| AttachmentStore.AttachmentFs.SaveMultipartAttachments | internal/api/attachments.go:351-400 | all or nothing, and nothing outside the task's directory changes |
| AttachmentStore.UploadAndList | internal/api/attachments.go:119-168 | after an upload and a listing every returned name is listed and reads back the uploaded bytes; after a failed one the listing is as before |
| AttachmentEffects.PlacedUnder | internal/api/attachments.go:276-400 | a file meeting every rule is stored under its own name if free, else under its first untaken variant |
| AttachmentEffects.PlaceRefusals | internal/api/attachments.go:351-427 | each reason a file is refused, with its limits, in the order they are looked at |
| AttachmentEffects.SavedInOrder | internal/api/attachments.go:351-400 | files are saved in order, each counted with those before it, and one refusal refuses all |
| AttachmentEffects.DirSizeCounts | internal/api/attachments.go:296-318 | the directory total counts the bytes of regular files only |
| AttachmentEffects.ReadOutcomes | internal/api/attachments.go:158-241 | every outcome of a lookup: no directory, not one segment, missing or irregular, over 10 MiB, or the stored bytes |
| AttachmentEffects.BeforeIff | internal/api/attachments.go:119-151 | listings are in dictionary order |
| CardSlotRuns.OldestIsQueued | internal/orchestrator/card_request_dispatch.go:45-60 | the peeked request is the card's first queued one |
| CardSlotRuns.SlotSafety | internal/orchestrator/card_request.go:157-665 | over every run at most one active request per card, and every folded one rides on an active one of its card |
| CardSlotRuns.CollectKept | internal/orchestrator/store.go:860-900 | the collector keeps slot safety: what an active request carries is never collected |
| CardRequestRuns.RequestLostIff | internal/orchestrator/store.go:860-900 | a request disappears if and only if the collector takes it, old and ended; none is renamed |
| CardRequestRuns.LiveRequestsPersist | internal/orchestrator/store.go:860-900 | over every run a request is still there or has ended first |
| CardRequestRuns.RequestsKeepOrder | internal/orchestrator/card_request.go:157-665 | over every run no two requests change their order |
| CardRequestRuns.CauseIndexHolds | internal/orchestrator/card_request.go:157-665 | over every run at most one request that has not failed per cause |
| CardSlotRuns.BarrierFollowsLog | internal/orchestrator/card_force_release_barrier.go:17-48 | the barrier stands exactly while the last of release and human operation was the release |
| CardSlotRuns.BarrierStaysIff | internal/api/card_command_launcher.go:252-300 | a human command leaves the barrier standing if and only if its reservation aborts |
| CardSlotRuns.BarrierEndsIff | internal/orchestrator/card_force_release_barrier.go:17-48 | of all steps exactly a reservation that does not abort and an accepted retry end a barrier |
| CardSlotRuns.BarrierEndsByLift | internal/orchestrator/card_force_release_barrier.go:17-48 | over any run a barrier that is gone was ended by such a step |
| CardSlotRuns.AbortedCommandLeavesBarrier | internal/api/card_command_launcher.go:252-300 | a run in which a human command leaves the barrier standing |
| CardSlotRuns.LaunchesAreUnbarred | internal/orchestrator/card_request_dispatch.go:82-119 | every automatic launch happened with no barrier standing |
| CardSlotRuns.NoAutoLaunchBehindRelease | internal/api/card_request_auto_dispatch.go:30-95 | between a forced release and an automatic launch of the card lies a human operation |
| CardSlotRuns.WaitingCarriesNothing | internal/orchestrator/card_request.go:230-286 | nothing is folded into a request that is still queued |
| CardSlotRuns.FailedClaimRestoresQueue | internal/orchestrator/card_request.go:565-607 | failing a just claimed request gives back the queue exactly, bar the failed head, and frees the slot |
| CardSlotRuns.ClaimTakesWholeQueue | internal/orchestrator/card_request.go:230-286 | a claim launches the oldest request and folds every other queued one of the card into it |
| CardSlotRuns.FinishSettles | internal/orchestrator/card_request.go:388-437 | a completion settles the request, what it carried and older human failures, nothing else, and frees the slot |
| CardSlotRuns.ReleaseSettles | internal/orchestrator/card_request_release.go:355-376 | a forced release fails the request and what it carried, bars its card and frees the slot |
| CardRequestEffects.ReservedIff | internal/api/card_command_launcher.go:142-188 | a human command gets the slot if and only if the card is usable, has no open child and no active request |
| CardRequestEffects.RowAddedOnlyBy | internal/api/card_command_launcher.go:252-300 | of all steps only a reservation of such a card and an event with a free cause add a row |
| CardRequestEffects.RowIsAdded | internal/orchestrator/card_request.go:157-228 | and both do add theirs |
| CardRequestEffects.OccupiedCommandAddsNothing | internal/api/card_command_launcher.go:252-300 | a command on an occupied card adds no row and lifts the barrier |
| CardRequestEffects.ClaimLaunchesIff | internal/orchestrator/card_request_dispatch.go:82-119 | an automatic launch is recorded if and only if the card is parked or working, unbarred and free and its oldest request names the command |
| CardRequestEffects.ClaimOtherwise | internal/orchestrator/card_request_dispatch.go:82-119 | a finished card has its backlog failed; any other claim that cannot be made changes nothing |
| CardRequestEffects.AttachEffect | internal/orchestrator/card_request.go:346-386 | only the launcher that holds a launching request attaches a target to it |
| CardRequestEffects.FailEffect | internal/orchestrator/card_request.go:565-607 | a failure fails the live request it names and queues again what it carried; no id changes nothing |
| CardRequestEffects.RetryEffect | internal/orchestrator/card_request.go:639-665 | a failed request is queued afresh unless its cause has another live one, and its card unbarred |
| CardRequestEffects.CollectEffect | internal/orchestrator/store.go:860-900 | the collector takes exactly the aged rows that succeeded or failed |
| CardDispatch.SameReady | internal/api/card_request_auto_dispatch.go:30-95 | whether a card is dispatched depends on that card alone |
| CardDispatch.FailKeepsOthers | internal/orchestrator/card_request.go:565-607 | failing a request changes no row of another card |
| CardDispatch.ClaimOutcome | internal/orchestrator/card_request_dispatch.go:82-119 | a claim takes a free unbarred slot of an eligible card or leaves no launch |
| CardDispatch.NewRowFails | internal/api/card_command_launcher.go:310-322 | failing the row just reserved touches no other |
| CardDispatch.SlotService.CurrentOccupant | internal/api/card_command_launcher.go:111-128 | names an active request of the card |
| CardDispatch.SlotService.RunCardCommandAsHuman | internal/api/card_command_launcher.go:199-326 | starts if and only if the card is usable, has no open child and no active request; every refusal and occupied reply named by card and row, and none adds a row; a failed start frees the slot if the release lands |
| CardDispatch.SlotService.DispatchQueuedCardRequest | internal/api/card_request_auto_dispatch.go:30-95 | launches exactly a ready card (unbarred, eligible, free, command declared) whose start succeeds; an undeclared command fails its head if that write lands; a failed start frees the slot if the release lands |
| CardDispatch.SlotService.SweepQueuedCardRequests | internal/api/card_request_auto_dispatch.go:100-120 | dispatches exactly the cards that were ready when the sweep began and whose launch starts, whatever happens to the others |
| CardDispatch.SlotService.Release | internal/api/card_request_release_handler.go:119-204 | releases exactly a live request and reports exactly its folded siblings and whether it had a target |
| CardLog.TransitionVerbs | internal/orchestrator/machine_card.go:218-234 | the closed verb set is the set of verbs some rule moves a card by |
| CardLogRuns.AcceptRecords | internal/api/suggestion_accept.go:143-273 | a committed accept writes its answer, the transition, that status and the verb's side effect |
| CardLogRuns.LogReplaysIff | internal/api/workflow_action.go:328-440 | the log replays to the card's status if and only if no direct transition was stale or discarded a suggestion |
| CardLogRuns.AnsweredRunsReplay | internal/api/suggestion_accept.go:143-273 | accepts, rejects, wake records, vanished children and new suggestions always replay |
| CardLogRuns.ReplayChains | internal/api/queue_sweep.go:83-111 | a log that replays chains from-status to to-status |
| CardLogRuns.LastRecordIsStatus | internal/api/workflow_action.go:328-440 | whatever the run, the last record ends in the current status |
| CardLogRuns.DiscardBreaksChain | internal/api/workflow_card.go:721-763 | the discard's record breaks the chain |
| CardLogRuns.ValidateIdempotent | internal/api/suggestion_accept.go:62-101 | validating a validated suggestion changes nothing |
| CardLogRuns.SidecarInvariant | internal/api/workflow_card.go:551-590 | the verb column never disagrees with the stored suggestion |
| CardLogRuns.AnsweredIsGoneIff | internal/orchestrator/card.go:422-519 | a committed answer ends the suggestion if and only if none sits at the top level |
| CardLogRuns.AnswersEndSuggestions | internal/api/workflow_card.go:680-702 | from a card without a top-level suggestion every committed answer ends the current one |
| CardLogRuns.HiddenSuggestionLost | internal/orchestrator/card.go:486-519 | were a suggestion at the top level, accepting it would drop another one; no writer puts one there |
| CardLogRuns.SuggestionEndsWithItsAnswer | internal/api/suggestion_accept.go:143-273 | a suggestion leaves only by replacement, recorded discard, reject, or accept with its transition |
| CardLogRuns.AcceptCommitsIff | internal/api/suggestion_accept.go:143-273 | an accept of a stored suggestion commits if and only if its verb applies |
| CardLogRuns.WakeFiresOnce | internal/api/queue_sweep.go:25-111 | a recorded wake is consumed, and a second tick changes nothing |
| CardLogRuns.MarkClosedCounts | internal/orchestrator/card.go:632-649 | closing a reference closes exactly one open entry of it |
| CardLogRuns.VanishedRecordedOncePerEntry | internal/api/queue_sweep.go:199-259 | repeated reports of a vanished child write one record per open entry |
| CardLogEffects.TransitionTable | internal/orchestrator/machine_card.go:218-234 | the nine moves of the card machine and no others |
| CardLogEffects.RetiredSpellings | internal/api/suggestion_accept.go:62-101 | two retired verbs read as their current names, every other as itself |
| CardLogEffects.ValidatedIff | internal/api/suggestion_accept.go:62-101 | a suggestion is stored if and only if its params parse, its verb is known and its time reads |
| CardLogEffects.RejectEffect | internal/api/suggestion_accept.go:143-273 | a reject commits if and only if the sidecar is absent or readable; it records one answer and clears the stored suggestion, and children, top level, wake condition and identities stay |
| CardLogEffects.AcceptEffect | internal/api/suggestion_accept.go:143-273 | a committed accept is exactly two records, the new status and the verb's own effect; children and top level stay |
| CardLogEffects.AcceptGoEffect | internal/api/suggestion_accept.go:143-273 | an accepted go records its answer and keeps the suggestion |
| CardLogEffects.AcceptRefusals | internal/api/suggestion_accept.go:143-273 | the code of every accept that is refused |
| CardLogEffects.CurrentIs | internal/orchestrator/card.go:422-519 | the suggestion at the top level wins over the one among the attrs |
| CardLogEffects.SuggestEffect | internal/api/workflow_card.go:551-590 | a suggestion is stored or cleared with its column, on a sidecar made if need be |
| CardLogEffects.SuggestRefusals | internal/api/workflow_card.go:551-590 | 400 for a bad suggestion, 500 for a sidecar that cannot be read |
| CardLogEffects.DirectEffect | internal/api/workflow_action.go:328-440 | a direct move with no suggestion pending writes one record and the verb's own effect |
| CardLogEffects.DirectDiscards | internal/api/workflow_card.go:721-763 | over a pending suggestion it also records the discard and clears the stored one |
| CardLogEffects.DirectRefused | internal/api/workflow_action.go:328-440 | a move the machine does not have is a conflict |
| CardLogEffects.WakeEffect | internal/api/queue_sweep.go:83-111 | a wake record clears the wake condition and nothing else of the sidecar |
| CardLogEffects.SweepRefusals | internal/api/queue_sweep.go:83-259 | what the sweeps do with a sidecar that is gone or unreadable |
| CardLogEffects.DueIff | internal/api/queue_sweep.go:25-75 | a card is due if and only if it is parked and its time has come or its task has ended or vanished |
| CardLogEffects.NeverDue | internal/api/queue_sweep.go:25-75 | a card without wake condition, or not parked, is never due |
| CardLogEffects.OpenEntriesChangeOnlyBy | internal/api/queue_sweep.go:199-259 | the open entries of a reference change only by its own vanished record, and then by one |
| CardLogEffects.OpenEntriesOverRuns | internal/api/queue_sweep.go:199-259 | over every run an open entry stays open unless its reference was reported vanished |
| CardLogService.CardService.ApplyAnswered | internal/api/suggestion_accept.go:143-273 | a missing card is 404; any failing store call changes nothing; otherwise the committed state and the code are those of RejectEffect, AcceptEffect and AcceptRefusals |
| CardLogService.CardService.StripSuggestion | internal/api/workflow_card.go:680-702 | commits the card with its stored suggestion and column cleared and all else as it was, if and only if there is no sidecar or a readable one and no store call fails; otherwise nothing changes |
| CardLogService.CardService.RecordWakeDue | internal/api/queue_sweep.go:83-111 | clears the wake condition and records it together, or neither |
| CardLogService.CardService.SweepWake | internal/api/queue_sweep.go:25-75 | wakes exactly the due parked cards whose write succeeds |
| CardLogService.CardService.RecordVanishedChild | internal/api/queue_sweep.go:199-259 | records the closed entry, or changes nothing |
| CardLogService.CardService.CloseFirst | internal/orchestrator/card.go:632-649 | the loop closes the first open entry |
| CardLogService.MarkClosedAt | internal/orchestrator/card.go:632-649 | only the first open entry of the reference changes |
| InitScripts.ScriptImpliesRow | internal/api/project_service_init_script.go:42-88 | under every interleaving a stored script has a row, save exactly the failed unlinks, and no stored script is empty or invalid |
| InitScripts.CleanUnlinksLeaveNoOrphan | internal/api/project_service.go:379-415 | if unlinks succeed, every stored script has its row |
| InitScripts.LateWriteIsRefused | internal/api/project_service_init_script.go:56-66 | a write prechecked before a removal is refused under the lock |
| InitScripts.NoLostScript | internal/api/project_service_init_script.go:52-130 | every accepted unforced write names the content it replaced and stores its own |
| InitScripts.AcceptedWriteReplacesWhatWasRead | internal/api/project_service_init_script.go:67-88 | an accepted unforced write that names a script read in the run replaced exactly that script |
| InitScripts.NoLostRowUpdate | internal/orchestrator/workspace_repository.go:178-221 | while no row gets back a revision read before, every accepted unforced update replaced the version its revision's readers had read |
| InitScripts.StampsTellIff | internal/orchestrator/workspace_repository.go:178-221 | revisions go on telling versions apart if and only if no row is stamped with a revision already read from it |
| InitScripts.LostUpdateIff | internal/orchestrator/workspace_repository.go:178-221 | a row write lets the next unforced update overwrite an unread version if and only if it reuses a held revision |
| InitScripts.RepeatedStampLosesUpdate | internal/orchestrator/workspace_repository.go:416-426 | a repeated stamp lets a stale update through |
| InitScripts.DryRunPredicts | internal/api/project_service_init_script.go:293-327 | in every state the dry run names the real action, and the action says what changed |
| InitScripts.ExportAppliesBackIff | internal/api/project_service_init_script.go:205-221 | applying an export back is unchanged if and only if no empty script is stored |
| InitScripts.ExportRoundTrips | internal/api/project_service_init_script.go:205-221 | in every reachable state an exported script is accepted and applies as unchanged |
| InitScriptEffects.AdmittedIff | internal/api/project_service_init_script.go:42-50 | a call is admitted if and only if its row exists and its text has at most 131072 bytes and no NUL |
| InitScriptEffects.WriteEffect | internal/api/project_service_init_script.go:52-88 | a pending call is carried out if and only if its row is there and it is forced or names the current revision; then its content is stored, and otherwise nothing changes |
| InitScriptEffects.RefusalCodes | internal/api/project_service_init_script.go:56-88 | 404 without the row, 428 without a revision, 412 with another |
| InitScriptEffects.ReadThenWriteIsStored | internal/api/project_service_init_script.go:23-88 | over every run, a caller that reads and then writes back with that revision while row and script stay is accepted and stored |
| InitScriptEffects.ForcedWriteIsStored | internal/api/project_service_init_script.go:42-88 | a forced write of acceptable content to an existing row is always accepted and stored |
| InitScriptEffects.RowEffects | internal/api/project_service.go:310-356 | creating needs a free slug, updating the row and, unforced, its current revision |
| InitScriptEffects.ApplyEffect | internal/api/project_service.go:443-500 | a document writes its row and then its script; a bad script refuses it whole |
| InitScriptEffects.RemoveEffect | internal/api/project_service.go:379-415 | a removal takes row and script, never the default workspace's |
| InitScriptEffects.ReadEffect | internal/api/project_service_init_script.go:23-40 | a read hands out the stored text and its revision and changes neither |
| InitScriptEffects.ActionEffect | internal/api/project_service_init_script.go:293-327 | the reported action says whether the script was written, cleared or the same |
| InitScriptService.WorkspaceService.Precheck | internal/api/project_service_init_script.go:42-50 | admits exactly valid content for an existing row |
| InitScriptService.WorkspaceService.SetLocked | internal/api/project_service_init_script.go:52-88 | 200 if and only if the row is there and the call is forced or names the current revision; 404, 428 and 412 each exactly when; every refusal leaves script, row and log alone |
| InitScriptService.WorkspaceService.WriteLocked | internal/api/project_service_init_script.go:96-130 | writes or clears, and reports which |
| InitScriptService.WorkspaceService.UpdateWorkspace | internal/api/project_service.go:310-356 | compare and swap on any If-Match text; every refusal changes nothing |
| InitScriptService.WorkspaceService.ApplyWorkspace | internal/api/project_service.go:443-500 | a dry run changes nothing and reports the real action; a failing script write leaves the row committed |
| InitScriptService.WorkspaceService.RemoveWorkspace | internal/api/project_service.go:379-415 | removes row and script, never the default workspace |
| ProjectRegistry.RunGood | internal/api/project_service.go:97-692 | every interleaving of the calls' phases keeps cache and rows settling to the same |
| ProjectRegistry.CacheAgreesWithDatabase | internal/api/project_service.go:97-692 | with no call under way each registered project's cached workspace is its stored one, unless its own registration could not be rolled back |
| ProjectRegistry.StepAgreesIff | internal/api/project_service.go:97-692 | of all steps exactly a stale cache write makes cache and rows disagree |
| ProjectRegistry.AllAgreeWithoutStaleWrites | internal/api/project_service.go:97-692 | without stale writes every id agrees whenever no call is under way |
| ProjectRegistry.AllAgreeWhenDeletesStayApart | internal/api/project_service.go:678-692 | in particular every project agrees while no row is deleted under a running assignment |
| ProjectRegistry.LateWriteReachable | internal/api/project_service.go:246-256 | a cache write can land for a project deleted meanwhile |
| ProjectRegistry.LateWriteIff | internal/orchestrator/project_store.go:302-311 | a cache write leaves an entry for an unregistered project if and only if it names a workspace for one |
| ProjectRegistry.FailedRegistrationAgreesIff | internal/api/project_service.go:155-175 | a registration neither assigned nor rolled back agrees if and only if nothing was cached for its id |
| ProjectRegistry.DanglingMayDisagree | internal/api/project_service.go:155-175 | a registration that could not be rolled back may then disagree with its row |
| ProjectRegistryEffects.AssignEffect | internal/api/project_service.go:234-257 | assigning a registered project to none, the default or an existing workspace sets its row and owes its cache write |
| ProjectRegistryEffects.AssignRefused | internal/api/project_service.go:234-257 | every other assignment changes nothing |
| ProjectRegistryEffects.RemoveEffect | internal/api/project_service.go:379-415 | a removal moves the workspace's projects to the default one and owes the listed ones a cache write |
| ProjectRegistryEffects.RemoveRefused | internal/api/project_service.go:379-415 | a removal that fails or names no workspace changes nothing |
| ProjectRegistryEffects.ApplyEffect | internal/orchestrator/workspace_apply.go:95-212 | an apply assigns its targets, detaches the workspace's others and owes their cache writes |
| ProjectRegistryEffects.ApplyOtherwise | internal/orchestrator/workspace_apply.go:95-212 | without a project list only the workspace is made; a dry run, a failure or a stale target changes nothing |
| ProjectRegistryEffects.CacheEffect | internal/api/project_service.go:246-256 | a cache write lands what is owed, and the mutex is given up when nothing is |
| ProjectRegistryEffects.DeleteEffect | internal/api/project_service.go:678-692 | a deletion takes the row, then the cache entry |
| ProjectRegistryEffects.RegisterEffect | internal/api/project_service.go:97-186 | a registration adds an unassigned row and assigns it, or takes it back |
| ProjectRegistryEffects.RegisterOtherwise | internal/api/project_service.go:97-186 | a known id changes nothing, and a row deleted meanwhile is not assigned |
| ProjectService.Service.CreateProject | internal/api/project_service.go:97-186 | registers in both places, or leaves no row unless the rollback failed; agreement kept |
| ProjectService.Service.AssignNew | internal/api/project_service.go:155-182 | assigns in row and cache, or rolls the row back |
| ProjectService.Service.SetProjectWorkspace | internal/api/project_service.go:234-257 | changes row and cache alike or neither; agreement kept |
| ProjectService.Service.DeleteProject | internal/api/project_service.go:678-692 | forgets row and cache; agreement kept |
| ProjectService.Service.RemoveWorkspace | internal/api/project_service.go:379-415 | moves exactly the assigned projects to the default workspace in row and cache; agreement kept |
| ProjectService.Service.ApplyWorkspace | internal/orchestrator/workspace_apply.go:95-212 | attaches, keeps and detaches exactly as the targets say; a dry run changes nothing; agreement kept |
| ProjectNames.ExportedIff | internal/api/project_service.go:577-676 | a named project is exported if and only if both resolvers lead from its name to it alone |
| ProjectNames.ExportRoundTrip | internal/api/project_service.go:577-736 | an exported name resolves to exactly its project |
| ProjectNames.ExportAllNames | internal/api/project_service.go:577-640 | an export succeeds if and only if every project's name is exportable, in order |
| ProjectNames.ExportAppliesBack | internal/api/project_service.go:502-575 | applying an export is refused exactly when some project has no name, and otherwise leads every name back with nothing missing or shared |
| ProjectNames.BlankIff | internal/api/project_service.go:502-539 | a name is skipped if and only if it is all white space |
| ProjectNames.ContainsIff | internal/api/project_service.go:694-736 | containment is an occurrence at some position |
| ProjectNames.PartialFinds | internal/api/project_service.go:694-736 | a project matches in part if and only if its name contains the text, case ignored |
| ProjectNames.ResolveMeans | internal/api/project_service.go:694-736 | the project of that id alone, else all of that name, else all partial matches, else 404 |
| ProjectNames.ResolveAllMeans | internal/api/project_service.go:502-539 | refused with 409 if and only if a name is shared; otherwise each name held once resolves to its project and exactly the unheld ones are missing, in order |
| ProjectNames.ResolveForApplyMeans | internal/api/project_service.go:502-539 | refused with 409 while some project has no name, otherwise resolved |
| ProjectNames.ExportRefusals | internal/api/project_service.go:577-676 | why a project is not exported, with the code |
| ProjectNames.CollisionsIff | internal/api/project_service.go:642-676 | a name is duplicated if and only if two projects carry it, and collides if and only if it is the id of another project than one that carries it |
| ProjectNames.ResolveProjectRef | internal/api/project_service.go:694-736 | id first, then exact names, then part of a name |
| ProjectNames.ResolveProjectByNameExact | internal/api/project_service.go:567-575 | the loop returns exactly the projects of that name |
| ProjectNames.NamedFinds | internal/api/project_service.go:567-575 | a project is among the matches if and only if it has the name |
| ProjectNames.ProjectCollisions | internal/api/project_service.go:642-676 | the tables hold exactly the duplicated names and the names that are another project's id |
| ProjectNames.ExportProjects | internal/api/project_service.go:577-640 | the loop exports the specified names or the first refusal |
| ProjectNames.ResolveWorkspaceApplyProjectNames | internal/api/project_service.go:502-539 | the loop resolves as specified, refusing first |
| DetachReader.UpToKeyCuts | cmd/attach.go:212-242 | the cut is the longest prefix without the key |
| DetachReader.TakeMeans | cmd/attach.go:212-242 | a source read takes what fits of the next chunk, and its error with the last of it |
| DetachReader.ReplyMeans | cmd/attach.go:217-242 | a read up to the key hands out the bytes before it and the detach error; any other hands on the source's bytes and error |
| DetachReader.DeliversUpToKey | cmd/attach.go:212-242 | delivered bytes followed by unread ones are the input; once the key is met, exactly the bytes before it |
| DetachReader.DeliversAPrefix | cmd/attach.go:212-242 | a prefix of the input, never past its first key, for every chunking and buffer size |
| DetachReader.ChunkingDoesNotMatter | cmd/attach.go:212-242 | two runs over the same bytes that end or detach deliver the same |
| DetachReader.EnoughReadsDeliverAll | cmd/attach.go:212-242 | enough reads with room for a byte always deliver everything before the key, whatever the chunking |
| DetachReader.DetachIsFinal | cmd/attach.go:217-220 | after the key every read yields no bytes and the detach error |
| DetachReader.Reader.Read | cmd/attach.go:217-242 | fills the front of the buffer as specified and leaves the rest alone |

## Left out

- HTTP handlers, routing, JSON and YAML decoding, server-sent events, notifications, broadcasts and logging: no effect on the modelled state.
- acceptGo and the creation of child tasks: an accepted go is modelled up to the transaction that records its answer, and its lifting of the force-release barrier is not a step of the slot.
- recordChildClosedOnParent and the reconcile sweep's loop: only the vanished child's record is modelled.
- Outcome records of card commands, which enter the action log with empty statuses: the log theorems are about the other writers.
- The reconciliation of launching requests at start-up: it uses the attach, finish and fail steps that are modelled.
- cardCommandOptions, registrationPerm, host-command validation and slug validation: they would only add easy members.
- The size check of an exported document and the merge of workspace metadata: the merged value is a parameter.
- openat2, symlinks, file modes and real filesystem races; wall-clock time: a timer is an armed pair that may fire, a stamp is a parameter.
- The hydration of project metadata from configuration: a project's name is part of the snapshot.
- AskTheorems.OneAnswerPerQuestion: exempts the questions hit by the two faults, because the source does not keep the promise for them; SecondDeliveryIff and UnsubmittedDeliveryIff say exactly when.
- AskReaper.NoOrphanedAsk: assumes a disconnected call cancels within its own grace period and exempts wiped and unflipped questions; each has its run and its exact condition.
- AttachmentStore.ValidatedUploadSucceeds: asks for room for each name, because an upload without it can fail; RepeatedNameSavesIff is exact for one repeated name, and for names that mix the condition is sufficient.
- InitScripts.NoLostRowUpdate: for runs in which no row gets back a revision read before; LostUpdateIff says why.
- The receipts kept when requests are collected (operation_results): only the deletion of the rows is modelled.
