# Dockpipe: interactive transport, workflow runs and release publication

A model in Dafny of the parts of the repository whose behaviour depends on interleavings, crashes,
recursion and order, with proofs about all runs and all inputs. `dafny verify dfyconfig.toml` checks it.

| area | files |
|---|---|
| Rendezvous of a child's prompt with a client's answer | `Rendezvous`, `RendezvousInvariant`, `RendezvousTheorems`, `RendezvousReports`, `RendezvousSettlement`, `RendezvousWitnesses`, `Controller` |
| Relay between a child process, its controllers and the cancellation worker | `Relay`, `RelayThreads`, `RelayInvariant`, `RelayTheorems`, `RelayReturns`, `RelayFrames`, `RelayProgress` |
| The server's one active chat | `ChatServer`, `ChatServerTheorems`, `ChatServerOutcomes`, `ActiveChats` |
| Steps, groups, batches, finally | `Schedule`, `ScheduleTheorems` |
| Parallel batches and the merge of outputs | `StepPaths`, `StepEnv`, `StepRoots`, `ParallelBatch`, `BatchMerge` |
| Imports between workflow files | `Imports`, `ImportsTheorems` |
| Publication and version selection | `Publish`, `PublishTheorems`, `PublishHistory`, `ReleaseVersion`, `ReleaseNames` |
| Typed inputs | `TypedInputs`, `InputBindings`, `InputOrigins` |
| Shell quoting, message framing | `ShellQuoting`, `Framing`, `FramingTheorems`, `FramingHeaders` |
| Application projection | `CoreTypes`, `Projection`, `ProjectionTheorems`, `ProjectionMeaning`, `ProjectionRefusals` |
| Shared | `Outcomes`, `Text`, `Sequences`, `Decimal`, `Ordering` |

## How it is modelled

Concurrent code is a step relation over any number of goroutines: a section under a mutex is one step,
a `select` is a choice among its ready branches, contexts expire at any time. The three one-slot
controllers are one model with a flag (`strict`) for the one way in which they differ: the approval
controller ignores a submitter's own context on entry and does not release the slot when it expires. The controller object is
also modelled as a class, each locked section a method proved equal to the step machine's section, and the
server's slot for the active chat as a class over such controllers.
Sequential code that updates state is a class or a method with loops, proved against a function; the
theorems are about that function. Validation of requests and answers, decoding, and the file system are
parameters.

## What turned out not to hold

Each is kept as the code has it, with a run or an input that shows it and the exact condition.

- An accepted submission does not always free its slot: in the approval controller a submitter whose own
  context expires leaves it occupied (`RendezvousWitnesses.AlwaysFreesIffStrict`).
- An answer can be delivered in full and its submitter still be told otherwise: exactly in runs with a
  close, an invalidation, or an expiry of the submitter's own context, each of which is enough
  (`RendezvousWitnesses.AlwaysReportsIffQuiet` and the three runs beside it).
- With an empty prefix the publisher reads `/latest.json` before the run and writes `latest.json` after it,
  so the forward check never sees the pointer (`PublishHistory.ForwardOnlyWithPrefix`).
- The batch check compares outputs paths as written, so `a` and `./a`, or `a` and its absolute spelling,
  pass it and name one file; paths name distinct files exactly when none coincide once cleaned and placed
  (`StepRoots.DistinctFilesIff`, `StepRoots.DistinctStringsOneFile`, `StepRoots.AbsoluteMeetsLocal`).
- A group task is told its outputs file through its own environment and the merge looks through the shared
  one. They part for a task with `scopes.artifacts: source` and for one whose variables name
  `DOCKPIPE_OUTPUT_ROOT` (`StepRoots.SourceScopeMisses`, `StepRoots.NamedRootMisses`); the exact condition
  for all inputs is `StepRoots.MergeFindsWorkerFile`.
- The merge looks for each file through the environment as the files before it have left it, so a task that
  outputs `DOCKPIPE_OUTPUT_ROOT` makes it miss the files of later tasks (`BatchMerge.MovedRootLosesOutputs`);
  it finds them all exactly as `BatchMerge.FoundIffUnmoved` and, for any tasks, `BatchMerge.FoundIffReached` say.
- A written message with an empty body cannot be read back, and a stream cut right after a header ends
  with a plain end of file rather than an unexpected one (`FramingTheorems.RoundTrip`,
  `FramingTheorems.Truncation`).
- Two input keys that trim to one path make the result depend on map order
  (`InputBindings.ExampleClash`); it does exactly when they resolve to different values
  (`InputBindings.OrderIrrelevantIffNoClash`).
- A section's result is checked for a list by its path alone, so a `list` of another package passes; the Core
  function behind it then does not give a list of rows (`ProjectionMeaning.ResultFitsRows`).

## Model

| member | source | states |
|---|---|---|
| Controller.TransientController.Register | packages/dorkpipe-mcp/mcpbridge/user_input_transport.go:105-122 | the locked section of await: closed and occupied controllers refuse, otherwise the slot holds the new pending; equal to the step machine's section |
| Controller.TransientController.Accept | packages/dorkpipe-mcp/mcpbridge/user_input_transport.go:141-156 | the locked section of submit: accepted only when open, pending, unclaimed and valid; marks the pending as submitted and nothing else |
| Controller.TransientController.CompletePending | packages/dorkpipe-mcp/mcpbridge/user_input_transport.go:184-190 | empties the slot only when the very pending is in it |
| Controller.TransientController.FailPending | packages/dorkpipe-mcp/mcpbridge/user_input_transport.go:192-199 | empties the slot and fails the pending only when the very pending is in it |
| Controller.TransientController.Invalidate | packages/dorkpipe-mcp/mcpbridge/user_input_transport.go:201-209 | fails and removes whatever is pending |
| Controller.TransientController.Close | packages/dorkpipe-mcp/mcpbridge/user_input_transport.go:211-225 | closes once, failing whatever is pending |
| Controller.TransientController.PendingRequest | packages/dorkpipe-mcp/mcpbridge/user_input_transport.go:96-103 | the request is visible only while open, pending and unclaimed |
| Controller.PendingCell.Fail | packages/dorkpipe-mcp/mcpbridge/user_input_transport.go:46-57 | the first failure stays, and the failure channel closes once |
| RendezvousTheorems.RunInv | packages/dorkpipe-mcp/mcpbridge/user_input_transport.go:105-225 | inductive invariant of every run of any number of awaiters, submitters, invalidators, closers and expiring contexts: closed implies an empty slot, a failed pending is never in the slot, channels close at most once, every goroutine is where its pending allows |
| RendezvousTheorems.RunKeeps | packages/dorkpipe-mcp/mcpbridge/approval_transport.go:45-72 | between any two moments nothing set is unset: failures, claims, acks, writes and deliveries stay as they are |
| RendezvousTheorems.DeliveryOrigin | packages/dorkpipe-mcp/mcpbridge/user_input_transport.go:141-158 | every delivery goes back to one submission made while its request was in the slot and unclaimed |
| RendezvousTheorems.WritesAreValidatedAndUnique | packages/dorkpipe-mcp/mcpbridge/user_input_transport.go:451-474 | every answer ever written validates against its request, and no request gets a second write |
| RendezvousTheorems.NilMeansDeliveredExactlyOnce | packages/dorkpipe-mcp/mcpbridge/user_input_transport.go:141-182 | when submit returns nil, its answer was written in full for exactly the request pending when it was accepted, and nothing else is ever written for that request |
| RendezvousTheorems.ReturnedSubmitFreesSlot | packages/dorkpipe-mcp/mcpbridge/cancellation_transport.go:177-218 | an accepted submit that returned no longer occupies the slot, then or later; in the approval controller unless it left by its own context |
| RendezvousTheorems.ReturnedAwaitFreesSlot | packages/dorkpipe-mcp/mcpbridge/user_input_transport.go:105-139 | an await that returned by any exit leaves nothing of its own in the slot |
| RendezvousWitnesses.ApprovalContextExitKeepsSlot | packages/dorkpipe-mcp/mcpbridge/approval_transport.go:156-168 | for every acceptable decision there is a run in which the approval submit returned by its context and its request still occupies the slot |
| RendezvousWitnesses.AlwaysFreesIffStrict | packages/dorkpipe-mcp/mcpbridge/approval_transport.go:149-170 | every accepted submit frees the slot on every exit if and only if the controller releases on its own context (or can accept nothing) |
| RendezvousReports.UnreportedHasACause | packages/dorkpipe-mcp/mcpbridge/user_input_transport.go:159-181 | in every run: who was told anything but nil about an answer written in full had its own context expire before it returned, or somebody closed or invalidated the controller |
| RendezvousReports.UnreportedExit | packages/dorkpipe-mcp/mcpbridge/user_input_transport.go:170-181 | the state such a submitter returned in shows why: closed for the close exit, a failed pending for the failure exit, an expired context for the context exit |
| RendezvousWitnesses.AlwaysReportsIffQuiet | packages/dorkpipe-mcp/mcpbridge/user_input_transport.go:159-225 | delivered answers are always reported as nil if and only if runs contain no close, no invalidation and no expiry of the submitter's own context (or nothing can be accepted) |
| RendezvousWitnesses.DeliveredYetReportedClosed | packages/dorkpipe-mcp/mcpbridge/user_input_transport.go:170-181 | with one close and no other disruption there is a run in which a delivered answer is reported as closed |
| RendezvousWitnesses.DeliveredYetReportedFailed | packages/dorkpipe-mcp/mcpbridge/user_input_transport.go:170-181 | with one invalidation alone there is a run in which a delivered answer is reported as failed |
| RendezvousWitnesses.DeliveredYetReportedExpired | packages/dorkpipe-mcp/mcpbridge/user_input_transport.go:170-181 | with the expiry of the submitter's context alone there is a run in which a delivered answer is reported as expired |
| RendezvousTheorems.NoForeignEviction | packages/dorkpipe-mcp/mcpbridge/user_input_transport.go:184-199 | a pending leaves the slot only by its own completion or failure, or by invalidate or close: a late one never evicts a newer one |
| RendezvousTheorems.ClosedAndFailedStates | packages/dorkpipe-mcp/mcpbridge/approval_transport.go:189-213 | once closed, closed with an empty slot for good; a failure never changes; no channel is closed twice |
| RendezvousTheorems.StepsBounded | packages/dorkpipe-mcp/mcpbridge/user_input_transport.go:105-182 | a goroutine takes at most six steps of its own, however the others behave |
| RendezvousTheorems.ClosedNeverBlocks | packages/dorkpipe-mcp/mcpbridge/approval_transport.go:121-170 | after close every unfinished goroutine has an enabled step of its own |
| RendezvousTheorems.BlockedOnlyInSelect | packages/dorkpipe-mcp/mcpbridge/user_input_transport.go:159-181 | the only places to wait are the selects, with none of their other branches ready |
| RendezvousTheorems.AckNeverBlocks | packages/dorkpipe-mcp/mcpbridge/user_input_transport.go:64-72 | the send on the buffered ack channel always finds room |
| RendezvousTheorems.LateCallsReturn | packages/dorkpipe-mcp/mcpbridge/user_input_transport.go:96-150 | calls made after close are turned away in their first locked section |
| RendezvousTheorems.ClosedComesToRest | packages/dorkpipe-mcp/mcpbridge/approval_transport.go:199-213 | a closed controller left to itself comes to rest within the total rank of its goroutines, and then all of them have returned |
| RendezvousSettlement.RequestsSettle | packages/dorkpipe-mcp/mcpbridge/user_input_transport.go:105-225 | in every run a request leaves the slot only by failing or by being answered, and an acknowledgement stays until its submitter takes it or leaves |
| RendezvousSettlement.AwaitIsReachable | packages/dorkpipe-mcp/mcpbridge/user_input_transport.go:128-138 | an await that waits has its request in the slot, open to an answer, or can leave at once by its failure: nobody is left waiting for a request that is gone |
| RendezvousSettlement.SubmitterNotOrphaned | packages/dorkpipe-mcp/mcpbridge/user_input_transport.go:171-181 | a submitter whose counterpart has returned can return too, by the acknowledgement or by the failure |
| RendezvousSettlement.FailureHasItsCause | packages/dorkpipe-mcp/mcpbridge/user_input_transport.go:192-225 | a request fails only while it is in the slot, through invalidate, close, an expired await or submitter, or a failed write, and with exactly that call's error |
| RendezvousSettlement.PeekShowsOpenRequest | packages/dorkpipe-mcp/mcpbridge/user_input_transport.go:96-103 | the pending request is shown if and only if an unclaimed request is in the slot of an open controller |
| RendezvousSettlement.SubmitAnswers | packages/dorkpipe-mcp/mcpbridge/user_input_transport.go:141-158 | a submission is taken by the open request that accepts it, rejected by one that does not, and turned away where none is open |
| RendezvousSettlement.AwaitAnswers | packages/dorkpipe-mcp/mcpbridge/user_input_transport.go:105-126 | an await of a valid request is registered exactly when the controller is open and its slot free, and otherwise turned away with the reason |
| RendezvousSettlement.StrictEntry | packages/dorkpipe-mcp/mcpbridge/user_input_transport.go:141-144 | in the strict controllers whoever got past the entry did so before its context expired |
| RelayTheorems.RunInv | packages/dorkpipe-mcp/mcpbridge/user_input_transport.go:340-490 | the relay, its cancellation worker, the serialized writer and three controllers keep a joint invariant in every interleaving |
| RelayTheorems.ReturnLeavesNothing | packages/dorkpipe-mcp/mcpbridge/user_input_transport.go:340-397 | however the relay returns, its worker has finished, its goroutines have ended and no slot holds anything it registered |
| RelayTheorems.CleanReturn | packages/dorkpipe-mcp/mcpbridge/user_input_transport.go:340-490 | on return without error the text is exactly the ordinary lines in order, answers match prompts one to one in order, at most one cancellation frame was written, and the child got exactly those frames, each whole, valid and within 64 KiB |
| RelayReturns.ReportsErrorIff | packages/dorkpipe-mcp/mcpbridge/user_input_transport.go:351-397 | a returned relay reports an error if and only if that error ended the scan, a line could not be relayed or a prompt's await ended with it, or the output ended well and the worker's await ended with it and it is not its cancellation |
| RelayReturns.ReportsNothingIff | packages/dorkpipe-mcp/mcpbridge/user_input_transport.go:384-396 | it reports none if and only if the output ended well and the worker, if any, had an answer or was only cancelled |
| RelayFrames.KindIff | packages/dorkpipe-mcp/mcpbridge/user_input_transport.go:358-382 | a line is of a kind exactly when it is that kind's prefix and a body, in whatever order the prefixes are tried |
| RelayFrames.SentAsFarAsTaken | packages/dorkpipe-mcp/mcpbridge/user_input_transport.go:476-490 | an answer within the bound reaches the child as far as its pipe takes it, and the write is clean exactly when that is the whole line and the pipe reports nothing |
| RelayFrames.UnsendableIsReported | packages/dorkpipe-mcp/mcpbridge/user_input_transport.go:465-482 | an answer that does not encode, or whose line exceeds the bound, sends nothing and is reported |
| RelayProgress.WindsDown | packages/dorkpipe-mcp/mcpbridge/user_input_transport.go:351-388 | once the relay has stopped reading and its worker is cancelled, worker and relay take at most eight steps, however everybody else behaves, and until the relay has returned one of them is always possible |
| RelayProgress.CancelledRelayReturns | packages/dorkpipe-mcp/mcpbridge/user_input_transport.go:351-388 | from every stopped state of every run, cancelling the worker leads to the return of the relay in at most nine steps |
| ActiveChats.ActiveSlot.Begin | packages/dorkpipe-mcp/mcpbridge/server.go:224-241 | refused while a chat is active; otherwise a fresh chat with three open controllers becomes the active one |
| ActiveChats.ActiveSlot.Finish | packages/dorkpipe-mcp/mcpbridge/server.go:243-253 | clears the slot only of this chat, closes all three controllers and then done, once |
| ActiveChats.ActiveSlot.CancelActive | packages/dorkpipe-mcp/mcpbridge/server.go:255-264 | cancels and closes the active chat, which stays active and is not marked done |
| ActiveChats.ActiveChat.CloseControllers | packages/dorkpipe-mcp/mcpbridge/server.go:248-250 | each controller is closed as on its own, its pending failed, the other two untouched by it |
| ChatServerTheorems.RunInv | packages/dorkpipe-mcp/mcpbridge/server.go:224-268 | inductive invariant of the active chat, its owner, the mutexes and the done channel, over every interleaving of begin, finish, cancel and submit |
| ChatServerTheorems.AtMostOneUnfinishedChat | packages/dorkpipe-mcp/mcpbridge/server.go:224-253 | at most one chat is unfinished at any time, and each done channel closes at most once |
| ChatServerTheorems.WaitersSeeAFinishedChat | packages/dorkpipe-mcp/mcpbridge/server.go:255-268 | cancel-and-wait, and a submit that cancelled the chat, return only when the chat they saw is finished with all three controllers closed |
| ChatServerOutcomes.CancelReachesTheActiveChat | packages/dorkpipe-mcp/mcpbridge/server.go:255-268 | in every run, cancel-and-wait that finds a chat active when it holds the mutex comes to rest only with that very chat finished and its controllers closed |
| ChatServerOutcomes.CancelGoneWithoutChat | packages/dorkpipe-mcp/mcpbridge/server.go:255-268 | and it returns without one only if none was active when it held the mutex |
| ChatServerOutcomes.ExpiredSubmissionCancelsChat | packages/dorkpipe-mcp/mcpbridge/server.go:312-319 | a submission cut off by its own context comes to rest only with its chat finished and the controllers closed |
| ChatServerOutcomes.SubmitGoesToActive | packages/dorkpipe-mcp/mcpbridge/server.go:305-312 | a submission goes to the chat that is active when it holds the mutex, and to none only if there is none |
| ChatServerOutcomes.SubmitGoneUnjoined | packages/dorkpipe-mcp/mcpbridge/server.go:333-349 | it leaves without cancelling only if no chat was active or its context was not what ended it |
| ChatServerOutcomes.ClosesBeforeWaiting | packages/dorkpipe-mcp/mcpbridge/server.go:255-268 | whoever cancels a chat has closed all its controllers before it waits for the chat to finish |
| ChatServerOutcomes.ClosedBySomebody | packages/dorkpipe-mcp/mcpbridge/server.go:243-264 | a controller is closed only by the end of its chat, by cancel-and-wait or by a submission cut off by its context |
| ChatServerOutcomes.RefusedWhileActive | packages/dorkpipe-mcp/mcpbridge/server.go:224-229 | a chat is refused only if another was active when the request held the mutex |
| ChatServerOutcomes.BegunFinishesOrRefused | packages/dorkpipe-mcp/mcpbridge/server.go:224-253 | every request to begin that is at rest has run its own chat to the end or was refused |
| ChatServerOutcomes.FewOwnMoves | packages/dorkpipe-mcp/mcpbridge/server.go:224-349 | every goroutine comes to rest within at most twelve steps of its own, whatever the others do |
| ChatServerTheorems.LockOrder | packages/dorkpipe-mcp/mcpbridge/server.go:243-268 | whoever holds a controller mutex asks for nothing; whoever holds the server mutex asks for a controller's only |
| ChatServerTheorems.NoCyclicWait | packages/dorkpipe-mcp/mcpbridge/server.go:224-349 | no ring of goroutines waits for locks in a circle |
| ChatServerTheorems.LockWaitEnds | packages/dorkpipe-mcp/mcpbridge/server.go:224-349 | behind every lock wait stands a holder that can move |
| ChatServerTheorems.DoneWaitIsServed | packages/dorkpipe-mcp/mcpbridge/server.go:255-268 | who waits for done holds no lock, and the chat's owner is still there to finish it |
| Schedule.FlattenSteps | src/lib/domain/workflow.go:767-797 | the flat step list, or the error of the first entry that cannot be flattened |
| Schedule.Engine.RunSteps | src/lib/application/run_steps.go:61-91 | the loop attempts barriers and maximal batches in order, stops at the first error, and then runs finally |
| Schedule.Engine.RunFinally | src/lib/application/run_steps.go:126-148 | finally runs once, its error combined with the main one |
| ScheduleTheorems.DecodedIsShaped | src/lib/domain/workflow.go:713-765 | what decoding accepts is a non-empty async group, a plain step that blocks, or a null entry, which flattening refuses |
| ScheduleTheorems.UnitsExact | src/lib/application/run_steps.go:69-90 | the units of the loop are exactly the blocking steps on their own and the maximal runs of steps that do not block |
| ScheduleTheorems.StepInOneUnit | src/lib/application/run_steps.go:69-90 | every flattened step is in exactly one unit |
| ScheduleTheorems.UnitsChain | src/lib/application/run_steps.go:69-90 | the units follow each other without gap or overlap from the first step to the last |
| ScheduleTheorems.UnitsMirrorEntries | src/lib/domain/workflow.go:767-797 | composed with flattening: batches are exactly the maximal runs of adjacent groups, and every plain step is a full barrier |
| ScheduleTheorems.AttemptsStop | src/lib/application/run_steps.go:67-90 | a phase attempts a prefix of whole units, every one but possibly the last succeeding; all of them when it succeeds |
| ScheduleTheorems.RunShape | src/lib/application/run_steps.go:61-148 | a failed set-up attempts nothing; otherwise a prefix of main units is followed by one go at finally; nil exactly when both phases succeed; of two errors the first exit within the main one is all that is kept, and without one both are joined |
| ScheduleTheorems.CombineKeepsErrors | src/lib/application/run_steps.go:126-148 | both errors stay findable in the combined one unless an exit stands within the main one, whose code is then what is kept |
| ScheduleTheorems.RunError | src/lib/application/run_steps.go:118-148 | of two errors the run answers an exit with the code of the leftmost exit within the main error, and both joined when there is none |
| ScheduleTheorems.MainExitSurvives | src/lib/application/run_steps.go:118-148 | when the main phase ends in an exit, wrapped any number of times, the run answers that code whatever finally does |
| ScheduleTheorems.DecodesIff | src/lib/domain/workflow.go:713-765 | a group is accepted exactly alone in its entry, asynchronous and with tasks, a step exactly without those keys and blocking |
| ScheduleTheorems.FlattensIff | src/lib/domain/workflow.go:767-797 | flattening fails exactly for an empty entry or a group with a task that asks to block |
| ScheduleTheorems.FlattenKeepsSteps | src/lib/domain/workflow.go:773-792 | flattening keeps every step and every task in place, with nothing changed but that tasks do not block |
| StepEnv.LockedKeys | src/lib/application/workflow_env.go:73-80 | a key is locked exactly when some --var names it |
| StepEnv.Session.ApplyOutputsFile | src/lib/application/workflow_env.go:172-200 | whatever order the keys come in, the environments become the overlay of the file and the file is consumed; an unreadable or empty one changes nothing |
| StepEnv.Session.MergeOutputs | src/lib/application/run_steps_parallel.go:57-63 | the merge is the fold of the files in declaration order, each found through the environment as it is by then |
| StepEnv.MergeKeepsLocked | src/lib/application/workflow_env.go:172-200 | no merge changes or adds a locked key |
| StepEnv.MergeKeepsSecrets | src/lib/application/workflow_env.go:159-170 | no merge blanks a secret-named key that has a value |
| StepEnv.SecretIff | src/lib/application/workflow_env.go:139-155 | which keys count as secrets, in any case and with blanks around them |
| StepEnv.VarLineSurvives | src/lib/application/workflow_env.go:64-80 | `--var K=V`, the last for its key, leaves V under K, both trimmed, after any batch |
| StepEnv.VarSurvivesMerge | src/lib/application/workflow_env.go:64-83 | the last --var for a key decides its value after any batch |
| StepRoots.CheckOutputPaths | src/lib/application/run_steps_parallel.go:68-78 | the check passes exactly when the raw outputs strings are pairwise different, and otherwise names a repeated one |
| StepRoots.DistinctFilesIff | src/lib/application/run_steps_parallel.go:57-78 | for any outputs paths, absolute and climbing ones included: the files of the merge are distinct exactly when no two cleaned paths coincide below its base |
| StepPaths.SameFileIff | src/lib/application/run_steps.go:750-760 | two outputs paths name one file exactly when their clean forms are equal, when one is absolute and spells out base and rest of the other, or when one climbs out of the base and re-enters it |
| StepPaths.ClimbRooted | src/lib/application/run_steps.go:750-760 | below an absolute base, k leading parent parts drop k parts of the base |
| StepPaths.LocalMeetIffSameClean | src/lib/application/run_steps.go:750-760 | local paths name one file exactly when their clean forms agree |
| StepRoots.DistinctStringsOneFile | src/lib/application/run_steps_parallel.go:68-78 | two local strings that pass the check can still name one file |
| StepRoots.AbsoluteMeetsLocal | src/lib/application/run_steps_parallel.go:68-78 | so can an absolute and a local one with different clean forms |
| StepRoots.MergeFindsWorkerFile | src/lib/application/run_steps.go:660-760 | for every environment, scopes, step variables, locked keys and outputs path: the merge reads the file a group task was told to write if and only if the path is absolute or both start from directories that agree as far up as the path climbs |
| StepRoots.StepSets | src/lib/application/run_steps.go:660-739 | every root of a step: a locked key stays, else the step's own variables decide, else its scopes |
| StepRoots.RootsNamed | src/lib/application/state_env.go:119-143 | a root that is named stays, a missing one comes from the working directory, no other key changes, and it fails exactly when a helper that is needed fails |
| StepRoots.StepFailsIff | src/lib/application/run_steps.go:706-726 | which of the five candidates a step works in, and exactly when its environment cannot be made |
| StepRoots.UnnamedRootFound | src/lib/application/run_steps.go:706-760 | a task that names no root itself: found if and only if it keeps the default artifacts scope or both roots are one directory |
| StepRoots.NamedRootFound | src/lib/application/run_steps.go:690-695 | a task whose variables name the output root: found if and only if that is the directory the merge starts from |
| StepRoots.LockedRootFound | src/lib/application/run_steps.go:732-737 | with the output root fixed by --var the file is always found |
| StepRoots.SourceScopeMisses | src/lib/application/run_steps.go:718-737 | a task with the source scope for artifacts whose file the merge misses |
| StepRoots.NamedRootMisses | src/lib/application/run_steps.go:690-695 | a task with default scopes and a variable for the output root whose file the merge misses |
| StepRoots.StepKeepsRoots | src/lib/application/run_steps.go:660-739 | after a whole step the roots agree if and only if the values that locks, variables and scopes leave do; always for a step that names no root, without a locked one |
| StepRoots.RootsAgreeThroughout | src/lib/application/state_env.go:119-143 | from the start of a run, as long as no step or outputs file names a root, the roots agree at every batch |
| ParallelBatch.RunIsSolo | src/lib/application/run_steps_parallel.go:197-291 | in any interleaving a worker is where it would be alone after as many turns |
| ParallelBatch.WorkersConfluent | src/lib/application/run_steps_parallel.go:33-52 | every interleaving that lets all workers return ends in the same files and local environments |
| ParallelBatch.EnoughTurnsComplete | src/lib/application/run_steps_parallel.go:33-49 | if one interleaving completes, so does every one that gives each worker as many turns |
| ParallelBatch.ErrorIsAFailure | src/lib/application/run_steps_parallel.go:33-52 | the batch error is set exactly when some worker failed, and is one of their failures |
| ParallelBatch.FirstFailureStays | src/lib/application/run_steps_parallel.go:43-49 | the batch error is the failure that came first: at some moment nobody had failed, and the next action was that failure |
| ParallelBatch.ActTouchesOwn | src/lib/application/run_steps_parallel.go:197-291 | an action of a worker changes nothing but its own environments, verdict or outputs file, as its task says |
| ParallelBatch.BatchConfluent | src/lib/application/run_steps_parallel.go:16-66 | any two interleavings both fail, or both succeed with the same shared state |
| BatchMerge.MergedIsFold | src/lib/application/run_steps_parallel.go:54-63 | the merge is the fold of what the files held at its start, in both environments, whenever it finds each file in its turn |
| BatchMerge.BatchIsFoldOfSoloRuns | src/lib/application/run_steps_parallel.go:16-66 | for every interleaving and whatever the tasks write: when the workers write distinct files and the merge finds each in its turn, success leaves the fold, in declaration order, of what each worker writes when run alone, in both environments |
| BatchMerge.FoundIffUnmoved | src/lib/application/run_steps_parallel.go:57-63 | when the merge would find every file at its start, it does find them all if and only if no relative path is moved by the lines merged before it |
| BatchMerge.UnmovedWithoutRoots | src/lib/application/run_steps_parallel.go:57-63 | lines that set no unlocked key that places files move nothing |
| BatchMerge.UnmovedWhenLocked | src/lib/application/run_steps_parallel.go:57-63 | no lines move anything when --var has fixed the output root |
| BatchMerge.MovedRootLosesOutputs | src/lib/application/run_steps_parallel.go:57-63 | two plain tasks with distinct outputs: the first one's lines name the output root, and the second one's output is lost |
| BatchMerge.FoundIffReached | src/lib/application/run_steps_parallel.go:57-63 | for any scopes, variables, locked keys and outputs paths: the merge finds every file if and only if each task's path is absolute or its root agrees, as far up as the path climbs, with the base of the merge at its turn |
| BatchMerge.DistinctIffToldApart | src/lib/application/run_steps.go:750-760 | the tasks write distinct files exactly when roots and outputs paths, cleaned and placed, differ pairwise |
| BatchMerge.TasksBatchIsFold | src/lib/application/run_steps_parallel.go:16-66 | the batch of any tasks that are told apart and reached in their turn computes the fold of the solo runs in every interleaving |
| BatchMerge.PlainTasksAreFound | src/lib/application/run_steps_parallel.go:54-63 | with agreeing, unlocked roots, tasks with the default artifacts scope that name no root write where the merge starts from, whatever their outputs paths, and distinct files exactly when no two paths coincide |
| BatchMerge.PlainBatchIsFold | src/lib/application/run_steps_parallel.go:16-66 | such a batch computes the fold of the solo runs when no two outputs paths coincide and no task outputs an unlocked key that places files |
| BatchMerge.JoinBatch | src/lib/application/run_steps_parallel.go:49-65 | after a failed worker both shared environments are as they were; otherwise the outputs are merged |
| BatchMerge.LastTaskWins | src/lib/application/run_steps_parallel.go:54-63 | a key takes the value of the last task that sets it, unless locked or a blank would wipe a secret |
| BatchMerge.LastTaskWinsInDocker | src/lib/application/run_steps_parallel.go:54-63 | so it does in the docker environment |
| BatchMerge.BlankTakenWhereNothingWas | src/lib/application/workflow_env.go:157-167 | a blank is taken over too, for a secret as well, as long as nothing was there to be wiped |
| BatchMerge.UntouchedKeyStays | src/lib/application/workflow_env.go:172-198 | a key that is locked, or that no task sets but to a blank over a secret, stays as it was in both environments |
| BatchMerge.MergedConsumes | src/lib/application/workflow_env.go:172-200 | the merge removes exactly the files from which it took lines |
| Imports.ParseRecursive | src/lib/domain/workflow_imports.go:64-158 | on success vars and inputs are the last writer in post-order, list fields and steps the post-order, finally steps the pre-order of one unfolded import tree; otherwise the first error of unfolding it |
| Imports.ParseWorkflow | src/lib/domain/workflow_imports.go:15-62 | resolution followed by flattening of both step lists |
| ImportsTheorems.LinkExtendsChain | src/lib/domain/workflow_imports.go:102-120 | an import that can be located and read is followed exactly when its path is not on the chain yet, which then grows by it without repetition; otherwise the circle is reported |
| ImportsTheorems.ChildIff | src/lib/domain/workflow_imports.go:102-121 | an import is followed exactly to the text at the path that joins its importer's directory and its name, whose own imports start from that path's directory |
| ImportsTheorems.ChainLinks | src/lib/domain/workflow_imports.go:102-121 | at the end of every chain the last file was read next to its importer and looks for its own imports next to itself |
| ImportsTheorems.UnfoldsToTree | src/lib/domain/workflow_imports.go:64-121 | what a file resolves over is the tree of the files that its imports, in order and without blank ones, link to |
| ImportsTheorems.DecodedFile | src/lib/domain/workflow_imports.go:68-87 | a file's step lists are its entries decoded one by one, and its other fields are as written |
| ImportsTheorems.FileToUnits | src/lib/domain/workflow_imports.go:15-28 | from a file on disk to its run: the batches are the maximal runs of adjacent groups in the merged entries, across file borders too, and the barriers are the plain steps |
| ImportsTheorems.FailsIffTrouble | src/lib/domain/workflow_imports.go:64-119 | resolution, on cyclic graphs too, fails exactly when some chain of imports leads to a file that is too deep, cannot be parsed, has no reader, or has an import that cannot be located or read or closes a circle |
| ImportsTheorems.ChainsAreShort | src/lib/domain/workflow_imports.go:64-116 | on success every import chain has at most 32 links, all different files |
| ImportsTheorems.LastFileWins | src/lib/domain/workflow_imports.go:125-146 | a merged key has the value of the last file, imports before importers, that sets it |
| ImportsTheorems.OwnValueWins | src/lib/domain/workflow_imports.go:138-143 | the importer's own value always wins |
| ImportsTheorems.TraversalsAgree | src/lib/domain/workflow_imports.go:134-155 | steps and finally steps come from the same files, each equally often |
| ImportsTheorems.FlattenAfterMerge | src/lib/domain/workflow_imports.go:15-28 | flattening the merged entries is flattening each file's entries in turn |
| Publish.Remote.Publish | release/packaging/publish-r2.py:52-120 | a run that dies after any number of uploads leaves exactly that prefix of the upload plan, and a refused or dry run writes nothing |
| PublishTheorems.HistoryInv | release/packaging/publish-r2.py:84-120 | inductive invariant over any sequence of runs, each dying anywhere |
| PublishTheorems.VisibleManifestIsComplete | release/packaging/publish-r2.py:93-110 | a visible manifest is the mark of a complete release |
| PublishTheorems.CompleteHasArtifacts | release/packaging/publish-r2.py:93-97 | every artifact of a complete release is in the store, with its own content exactly when no APT file of the candidate has its path and another content |
| PublishHistory.ManifestIsTheCatalog | release/packaging/publish-r2.py:107-108 | in every history a visible manifest is, to the byte, the release-manifest.json of a run that completed that release |
| PublishHistory.CompleteHasApt | release/packaging/publish-r2.py:103-106 | a complete candidate has every file of its own APT tree in the store, with its content |
| PublishTheorems.PublishedIsFrozen | release/packaging/publish-r2.py:27-33 | once a manifest is visible nothing under its version prefix is written again |
| PublishTheorems.PointerNamesAManifest | release/packaging/publish-r2.py:115-120 | latest.json always names a visible manifest of a run with its version |
| PublishTheorems.PointerAdvances | release/packaging/publish-r2.py:36-49 | with a non-empty prefix latest.json only ever moves to a later version |
| PublishHistory.ForwardOnlyWithPrefix | release/packaging/publish-r2.py:84-92 | latest.json only moves forward in all histories if and only if the prefix is not empty, because the check and the last upload build its key differently |
| PublishHistory.NeverChecked | release/packaging/publish-r2.py:92-92 | with an empty prefix no run ever writes the key that the forward check reads |
| PublishHistory.InReleaseSeesItsFiles | release/packaging/publish-r2.py:99-114 | when a run is about to write an InRelease, every APT file of another name is in the store below the same base with this run's content |
| PublishTheorems.InReleaseGoesLast | release/packaging/publish-r2.py:100-101 | in each APT pass InRelease files come after all files of other names |
| PublishHistory.IndexFilesGoLast | release/packaging/publish-r2.py:99-106 | after all other names come Release, then Release.gpg, then InRelease |
| PublishTheorems.AptPassIsPermutation | release/packaging/publish-r2.py:99-106 | a pass sends each APT file exactly once |
| PublishHistory.SelectedIsAdmitted | release/packaging/publish-r2.py:84-92 | after any history whose versions are tagged, a release of the selected version is refused only for its own inputs |
| PublishHistory.PrefixFixesVersion | release/packaging/publish-r2.py:63-72 | admissible releases with one version prefix have one version |
| ReleaseNames.AdmittedIff | release/packaging/publish-r2.py:52-88 | a release passes the checks of its inputs if and only if version, channel, candidate name, prefix, signed index, catalog and links are as required |
| ReleaseNames.StoreCheckIff | release/packaging/publish-r2.py:27-49 | exactly when the store refuses a release as published, for an unreadable pointer, or for one that is not below its version |
| ReleaseNames.CandidateIff | release/packaging/publish-r2.py:63-65 | a candidate belongs to a version exactly when it is the version, staging, two numerals and twelve hexadecimal digits |
| ReleaseVersion.NextVersion | release/packaging/release-version.py:12-29 | the least patch at or above the base and above every tag of its line, or the error that applies |
| ReleaseVersion.OrderIndependent | release/packaging/release-version.py:17-25 | the answer depends only on which tags there are, not on their order |
| ReleaseVersion.NextIsLeast | release/packaging/release-version.py:24-25 | no smaller patch of the line would do |
| ReleaseVersion.ExceedsEveryTag | release/packaging/release-version.py:17-25 | the selected version lies lexicographically above every accepted tag |
| ReleaseVersion.RepeatedReleaseAdvances | release/packaging/release-version.py:32-37 | once tagged, stable or staging, the next selection is exactly one patch later or beyond the limits |
| ReleaseVersion.TagParses | release/packaging/release-version.py:9-37 | the tags that metadata makes are accepted tags of their version |
| ReleaseNames.VersionIff | release/packaging/release-version.py:8-16 | a version is accepted exactly when it is the printed form of its three numbers |
| ReleaseNames.TagIff | release/packaging/release-version.py:9-19 | a tag is accepted for a version exactly when it is its stable tag or one of its staging tags |
| TypedInputs.Registry.BuildRecord | src/lib/application/catalog_inputs.go:235-320 | the depth-bounded recursion with the shared set of taken names computes the record function, set included |
| TypedInputs.Registry.BuildInputs | src/lib/application/catalog_inputs.go:57-118 | all type entries share one set of taken names |
| TypedInputs.BuildTakes | src/lib/application/catalog_inputs.go:235-320 | for any, possibly recursive, types: a record's names were all free, each is taken once, and they are all that was taken; a dropped field takes none |
| TypedInputs.EveryNameOnce | src/lib/application/catalog_inputs.go:57-118 | over all entries every non-empty name stands in the tree at most once, and exactly the taken names stand there |
| InputOrigins.NamesAreAskedFor | src/lib/application/catalog_inputs.go:235-320 | the names in the tree are exactly those that chains of declared fields, at most nine long, ask for, each field spelled by its annotation or behind the prefix of those above it |
| InputOrigins.RecordsComeFromFields | src/lib/application/catalog_inputs.go:235-320 | every record stands where such a chain leads, under its names, and a leaf has the value of the variable of its name or else the default of the class it stands in |
| InputOrigins.EarlierFirst | src/lib/application/catalog_inputs.go:326-336 | fields are built in the order of their declaration: what earlier ones take, later ones do not get |
| InputOrigins.UnknownListStands | src/lib/application/catalog_inputs.go:271-286 | a list whose element type nobody declares keeps its place in the tree |
| InputBindings.Table.FlattenRecords | src/lib/application/workflow_inputs.go:252-274 | flattening fills the map record by record, later paths over earlier ones |
| InputBindings.FlatFormInjective | src/lib/application/workflow_inputs.go:252-274 | in the flat form different paths have different environment names, all of them taken ones |
| InputOrigins.FlatFormComesFromFields | src/lib/application/workflow_inputs.go:252-274 | every entry of the flat form is asked for by a chain of declared fields with that dotted path, and has its value |
| InputOrigins.TreeReachesFlat | src/lib/application/workflow_inputs.go:252-274 | every record with an environment name and no blank name above it has its dotted path in the flat form |
| InputBindings.ResolveBindings | src/lib/application/workflow_inputs.go:43-60 | succeeds exactly when every trimmed key is known; the result is that of visiting the keys in some order |
| InputBindings.OrderIrrelevantIffNoClash | src/lib/application/workflow_inputs.go:43-60 | the result is independent of the iteration order if and only if no two keys that trim to one path resolve to different values |
| InputBindings.ExampleClash | src/lib/application/workflow_inputs.go:48-58 | a type with one field and the keys "a" and " a" for it: two orders with two results |
| InputBindings.EachBindingItsOwnEntry | src/lib/application/workflow_inputs.go:43-78 | with distinct trimmed keys every binding has its own entry and decides it: by the variable it names, if that is set, else by its own value, else by the default of the field |
| ShellQuoting.JoinArgs | src/lib/application/run_steps.go:229-238 | the arguments, single-quoted and joined by blanks |
| ShellQuoting.RoundTrip | src/lib/application/run_steps.go:225-238 | reading the joined line by sections 2.2.1, 2.2.2 and 2.3 of the Shell Command Language (POSIX.1-2017, XCU chapter 2) gives back exactly the arguments |
| ShellQuoting.JoinedInjective | src/lib/application/run_steps.go:225-238 | different argument lists never give the same line |
| Framing.Reader.ReadMessage | packages/dorkpipe-mcp/mcpbridge/transport.go:12-45 | one message off the stream, or the error, with exactly what is left of the stream |
| FramingTheorems.WriteThenReadOne | packages/dorkpipe-mcp/mcpbridge/transport.go:12-59 | one message written is one message read, the rest of the stream untouched |
| FramingTheorems.EmptyBodyUnreadable | packages/dorkpipe-mcp/mcpbridge/transport.go:36-44 | a written empty body is not readable |
| FramingTheorems.RoundTrip | packages/dorkpipe-mcp/mcpbridge/transport.go:12-59 | everything written is read back in order if and only if no body is empty |
| FramingTheorems.Truncation | packages/dorkpipe-mcp/mcpbridge/transport.go:12-59 | a stream cut anywhere yields the bodies wholly before the cut and then an error, unexpected exactly when the cut falls inside a body |
| FramingHeaders.LastLengthCounts | packages/dorkpipe-mcp/mcpbridge/transport.go:12-45 | of any header the last length counts, in whatever case it is written and whatever foreign lines stand around it |
| FramingHeaders.MalformedLengthStops | packages/dorkpipe-mcp/mcpbridge/transport.go:27-34 | the first length that is no number ends the reading, with everything after its line unread |
| FramingHeaders.NoLengthRefused | packages/dorkpipe-mcp/mcpbridge/transport.go:20-38 | a header without a length is refused |
| FramingHeaders.AtoiIff | packages/dorkpipe-mcp/mcpbridge/transport.go:28-33 | a length is read exactly when it is an optional sign and digits within the 64-bit range |
| Decimal.PrintThenRead | packages/dorkpipe-mcp/mcpbridge/transport.go:47-50 | the decimal length printed is the length read |
| CoreTypes.MatchesIffLowered | src/lib/applicationir/application.go:369-403 | a semantic type matches a Core type exactly when it lowers to what the Core type stands for |
| CoreTypes.CallableMatchesIffLowered | src/lib/applicationir/application.go:357-367 | callables match exactly when identity, positions and the whole lowered signature agree |
| Projection.Project | src/lib/applicationir/application.go:96-314 | the application with schema, metadata and its sections sorted by key, or the first problem |
| Projection.BuildIndex | src/lib/applicationir/application.go:109-133 | the lookup tables of modules, types, members and functions, later declarations over earlier ones |
| ProjectionTheorems.KnownIffDeclared | src/lib/applicationir/application.go:109-128 | an identity is known exactly when some module, type or member declares it |
| Projection.CheckUses | src/lib/applicationir/application.go:214-262 | the first problem with the fields of a section |
| Projection.NoProblemIffUsable | src/lib/applicationir/application.go:214-262 | there is none exactly when each field is well chosen, known, of the row, textual where needed, and used once |
| ProjectionTheorems.SectionFineIff | src/lib/applicationir/application.go:159-275 | a section passes exactly when its bindings fit, its fields are usable, and both agree with the bound Core operations |
| ProjectionTheorems.SectionOrderIrrelevant | src/lib/applicationir/application.go:96-314 | projection succeeds on a specification exactly when it does on any permutation of its sections, with the identical application |
| ProjectionTheorems.SectionsIncrease | src/lib/applicationir/application.go:160-276 | the sections are in strictly increasing order of their keys |
| ProjectionTheorems.SectionsKept | src/lib/applicationir/application.go:159-276 | every section is projected, once |
| ProjectionMeaning.ProjectsIff | src/lib/applicationir/application.go:96-314 | there is an application if and only if the inputs fit together and application, snapshot, every section's operations and fields, selection, details and logs are declared, bound and typed as required |
| ProjectionMeaning.ApplicationMirrors | src/lib/applicationir/application.go:276-314 | the application says of itself, of its inputs and of each section exactly what the specification and the inputs say, once |
| ProjectionMeaning.TablesFromDeclarations | src/lib/applicationir/application.go:109-134 | whatever a lookup answers is declared, a member and its owner in one type declaration |
| ProjectionMeaning.OperationsFit | src/lib/applicationir/application.go:347-367 | in an application the Core functions behind order and filter take and give lists of the section's rows, the filter also a text |
| ProjectionMeaning.ResultFitsRows | src/lib/applicationir/application.go:324-328 | the Core function behind a section gives a list of its rows or a text if and only if the list in its declared type is the built-in one, because the check looks at its path alone |
| ProjectionRefusals.RefusalIsTrue | src/lib/applicationir/application.go:96-314 | whatever problem projection reports, the inputs or the specification do have it |

## Left out

- Request and answer validation (`Validate`, `ValidateFor`), JSON frames and their limits on fields: uninterpreted in `Rules` and `Config`.
- Process start and wait, pipes, HTTP and the tool dispatch around the server; the relay is given the child's lines, so line limits and a trailing carriage return are not modelled.
- `relayApprovalFrames`, the approval-only relay: the same loop with one kind of prompt.
- The relay and the server are step machines rather than methods, because they are concurrent; memory ordering below the mutexes and channels is taken as given.
- What a step does beyond its roots and the merge of its outputs (how its inputs and variables resolve is given): scripts, containers, images, git, policy records. A unit's attempt is an arbitrary function of everything attempted before it.
- ParallelBatch.BatchConfluent: workers that touch each other's files or a shared resource are not modelled, because a worker acts only on its own environments and its own outputs file.
- BatchMerge.BatchIsFoldOfSoloRuns: what the merge computes when it misses a file, or when two workers share one, is only what StepEnv.Session.MergeOutputs and the runs themselves say.
- StepPaths.SameFileIff: paths are compared in clean form, so a relative base is not resolved against the working directory, and symbolic links are not followed.
- StepRoots.RootsAgreeThroughout: assumes that the file-system helpers answer with non-blank paths and that the run starts without an output root of its own.
- Imports.ParseWorkflow: the fields of a workflow that are copied from the root file unchanged are not modelled, and of several errors in one file which is reported first.
- The checks of a batch for delegates and host commits, and the prefetch of images: each refuses before any worker starts.
- Nested packaged and resolver workflows: one opaque attempt each.
- The docker copy of a step's roots, the names of the event files, and the debug record of which step set a key last.
- Writes to the environment that do not consult the locked keys (sourced pre-scripts, compose exports).
- The decoding of YAML itself; entries come as what decoding them one way or the other gives.
- Concurrent publishers, cache headers, content types, and provider errors other than a missing object; the text of latest.json is its version and manifest.
- PublishTheorems.VisibleManifestIsComplete: assumes that the prefix does not lead into the shared `apt` tree.
- Lookup of type entries, documentation, attributes and element types of an input record, and how a field name becomes an environment name, which is uninterpreted.
- Projection.Project: source positions and texts of errors are not modelled, and the validation of the Core program is its answer; the four identities checked in map order share one problem.
- White space and case are those of ASCII; Python's `strip` and Go's `TrimSpace` know more characters.
- ShellQuoting.RoundTrip: the reader gives up on unquoted special characters, which the quoting never produces.
- The write error of `WriteMessage` and a stream that fails other than by ending.
