# Verified model of the Team controller's core

A Dafny 4.11 model of the parts of the Team controller that carry its promises: a chat turn between an untrusted Brain and
durable Action batches, the provenance of a recorded plan, the concurrent bounded stores, the Brain's wire codec and byte
bounds, usage accounting, and the bounded readers. `dafny verify dfyconfig.toml` checks the whole project.

## What is modelled

**The chat turn** (`Admission`, `Journal`, `JournalHistory`, `TurnProtocol`, `TurnTrace`, `TurnSafety`, `TurnLedger`,
`TurnRuns`, `TurnExact`, `TurnDrive`). A turn is a transition system over a durable checkpoint, one generation of the Action journal, a process that
may crash between any two steps, and the trace of its events. The Brain may answer anything the parser admits; the
controller adapters (`Strategy`), the clock and the network are free choices of each step. The journal is the real one, row
states, attempts and archive reservations included. `TurnDrive.Turn` is `drive` itself with its loops and mutable standing,
and every execution of it is a run of the transition system, so each theorem about runs is one about that code. What the
controller, the Actions and the Brain answer in a round is a parameter of it: each step's contract says exactly when it
succeeds and what it leaves in the journal, and a turn that does not complete ends for a cause in the round it ended in.

One promise does not hold as documented. `action/src/executor.rs` (lines 3-8 and 223-227) says that terminating leaves a
batch with an uncertain outcome in place. `action/src/runner/batch.rs` (lines 483-508) does that only for a Routine run: for a
chat scope it abandons the batch and deletes its receipts. The turn's own end is recorded only afterwards
(`local/src/chat/segment/tracked.rs` line 122, `local/src/chat/turn/durable.rs` lines 228-247), so a process that stops in
between leaves a checkpoint that asks for the same interrupt again over an empty journal. The model follows the code:
`TurnExact.ChatCanRepeat` builds that run, and `TurnExact.NeverTwiceExactly` says exactly which turns dispatch nothing twice,
by their rounds, their capacity, their declared Actions and their selected files. `TurnRuns.NoSecondDispatch` says that
nothing else lets an interrupt be dispatched again: either the journal returned that interrupt to `prepared`, or its own
batch was abandoned while the last checkpoint did not name it, and a process resumed the turn after that.
`TurnRuns.SeenIsNotDispatched` says that what the durable checkpoint names is never dispatched, abandoned batches or not.

**Plan provenance** (`Pointers`, `KeptValues`, `PlanSelection`, `Provenance`, `Sourcing`, `SourceBinding`, `SourceExact`). JSON
values, RFC 6901 pointers (sections 3 and 4), kept values with withheld positions, source representatives, and the source a
recorded input is bound to. `SourceExact` says when a value has a source, and which, over the recorded results alone. Reading
a source back gives the recorded value exactly while its pointers are within their 256-character bound;
`SourceBinding.LongPointerReadsNothing` is the input where it does not, and the admitted reference refuses it.

**Bounded stores** (`ReadCache`, `Icons`, `Registry`, `Pkce`, `Challenges`, `TeamFiles`). Each is a class over its own fields.
The cache and the icon store also have a step relation, because their calls interleave; their methods are runs of it.
The outcome of a file operation is a parameter. Challenges and PKCE (RFC 7636, sections 4.1 and 4.2) keep a ghost history of
what was admitted and released. In `TeamFiles` the clock is read before the transaction, so operations may commit in another
order than their clocks. `ReleaseGraceExactly` and `SettleGraceExactly` say of every table that every file keeps its whole
grace period exactly when each file let go was last active by the clock the operation read; `OutOfOrderRelease` is the
series of operations where one was not.

**Codec, bytes and sums** (`Json`, `Serialization`, `JsonText`, `Runtime`, `Contract`, `TurnCodec`, `ActionResult`, `Usage`,
`Paging`, `Archive`, `ArchiveParts`). Written JSON, a reader of it (RFC 8259, sections 2 to 7) and its UTF-8 length (section 3 of
RFC 3629), the resume bound, exactly what the turn codec admits, the explicit-stack walk, the secret scan, usage totals as
sums, plan paging, and the tar reader against archives written part by part (the `pax` utility of POSIX.1-2017, "ustar
Interchange Format" and "pax Extended Header").

## Model

| member | source | states |
|---|---|---|
| Admission.AdmittedAuthorize | chat/src/attachments.rs:19-44 | while attachment content is readable every Action the turn may run is an authorizing one, and an Action is found under its own id |
| Admission.AdmittedExactly | chat/src/attachments.rs:17-44 | by the context alone, an Action is in the turn's map exactly when an Assistant lists it and, where the content of some attachment is text or an image, it authorizes; of several under one key it is the last |
| Admission.DeclaredBatch | chat/src/orchestrator.rs:261-292 | succeeds exactly for a non-empty batch within capacity of declared Actions with distinct interrupts, and pairs each request with its own contract |
| Admission.ValidateBatch | chat/src/orchestrator.rs:296-331 | succeeds exactly when every request passes its validator and names only a selected file; each admitted request keeps its interrupt and has its validated input |
| Admission.AdmittedKeys | chat/src/orchestrator.rs:296-331 | an admitted batch has the Brain's interrupts, distinct, and takes a file exactly where the Brain's request does |
| Admission.CountTaking | chat/src/orchestrator.rs:353-361 | the loop counts exactly the file-taking requests |
| Admission.AdmitBatch | chat/src/orchestrator.rs:334-368 | a round is admitted exactly when its batch validates, repeats nothing seen and stays within two file deliveries for the turn; the new total is the old plus the batch's |
| Admission.AdmitsExactly | chat/src/orchestrator.rs:261-368 | by the context alone, a round is admitted exactly when it has a request, its results fit one resume, each request runs the Action the context offers with an input the controller admits and, where it takes a file, an attachment of the turn, under an interrupt of its own that no earlier round had, and the turn takes at most two files |
| Journal.Kept | action/src/journal/mod.rs:449-760 | any change of one generation that is no more active and no more reserved keeps the journal's limits |
| Journal.Added | action/src/journal/mod.rs:326-399 | a generation a reservation admits keeps the journal's limits |
| Journal.ActionJournal.PrepareBatch | action/src/journal/mod.rs:326-447 | a batch is prepared exactly when its operations make a batch, its generation takes it (none there, the same batch with the same reservation, or an ended one it shares no interrupt with), and there is room unless the same batch is held; otherwise the error is fixed and nothing changes |
| Journal.ActionJournal.Build | action/src/journal/handle.rs:116-155 | operations make a batch exactly when there are some, no more than the limit, with distinct interrupts |
| Journal.ActionJournal.Begin | action/src/journal/mod.rs:449-489 | a completed operation replays its result, a prepared one becomes executing once, an executing or failed one is refused |
| Journal.ActionJournal.Settle | action/src/journal/mod.rs:491-549 | only an executing operation settles, a result beyond the durable bound is refused first, and every other generation stays |
| Journal.ActionJournal.Reprepare | action/src/journal/mod.rs:552-590 | an executing operation returns to prepared, nothing else does |
| Journal.ActionJournal.Delivered | action/src/journal/mod.rs:647-677 | a batch's receipts go only when every operation completed |
| Journal.ActionJournal.AbandonUncertain | action/src/journal/mod.rs:679-705 | a batch with an executing operation is deleted whole |
| Journal.ActionJournal.End | action/src/journal/mod.rs:707-742 | a batch ends unless an operation is executing |
| Journal.ActionJournal.EndSettled | action/src/journal/mod.rs:744-799 | a generation with nothing executing is ended |
| Journal.ActionJournal.Archive | action/src/journal/lifecycle.rs:74-112 | archiving uses the marker reserved at preparation, so it never fails for capacity |
| Journal.ActionJournal.ReleaseArchive | action/src/journal/lifecycle.rs:114-143 | an archived marker is released with its own fingerprint only |
| JournalHistory.TransactionExactly | action/src/journal/mod.rs:326-799 | every transaction succeeds exactly when the batch, its rows and its reservation permit it, leaves exactly what it says and is refused for its own reason |
| JournalHistory.AnswersExactly | action/src/journal/mod.rs:449-742 | an operation is told to run only from prepared and otherwise replays its own result; abandoned and ended are said exactly when they happened |
| JournalHistory.ReceiptKept | action/src/journal/mod.rs:326-799 | in every history of transactions a settled operation keeps its settlement until its batch is delivered whole, abandoned in doubt, archived, or replaced once ended by one that repeats nothing of it |
| JournalHistory.AttemptsCounted | action/src/journal/mod.rs:449-489 | in every history the attempts an operation counts are the times it was told to run |
| TurnTrace.SpentMeaning | action/src/executor.rs:3-8 | the trace fold's spent interrupts are those dispatched with nothing since that lets them be dispatched again |
| TurnTrace.OnceMeaning | action/src/executor.rs:3-8 | the fold's flag is the statement about every pair of dispatches of one interrupt: between them the journal returned it to prepared, or its batch was abandoned while the last checkpoint did not name it |
| TurnTrace.UnseenMeaning | chat/src/orchestrator.rs:567-577 | the fold's flag is the statement that no dispatch is of an interrupt the last checkpoint names |
| TurnTrace.RestartedBetween | action/src/runner/batch.rs:483-508 | after a batch was abandoned nothing is dispatched before a process resumes the turn |
| TurnTrace.PhaseMeaning | chat/src/orchestrator.rs:581-604 | where the grammar stands says which batch was admitted, prepared, invoked how far, or kept |
| TurnTrace.UnbrokenOrdered | chat/src/orchestrator.rs:515-604 | a trace the grammar does not break is in order at every event |
| TurnSafety.PrepareFacts | action/src/journal/mod.rs:326-373 | preparing a batch again loses no receipt of its own interrupts |
| TurnSafety.RowFacts | action/src/journal/mod.rs:449-590 | rewriting one operation's row moves only its own interrupt between held and not held |
| TurnLedger.RoundFacts | chat/src/orchestrator.rs:334-368 | an admitted round's batch is new, distinct, declared, within the resume capacity and the file budget |
| TurnLedger.AdvancedAccounts | chat/src/orchestrator.rs:615-693 | the continuation after a delivered round accounts for exactly one batch more: rounds, files, seen and invoked |
| TurnLedger.RoundWithin | chat/src/orchestrator.rs:542-556 | an admitted batch's results are one per request and within one resume |
| TurnRuns.StepKeeps | chat/src/orchestrator.rs:377-752 | every step of a turn, a crash included, keeps the safety invariant |
| TurnRuns.StepBooks | chat/src/orchestrator.rs:377-752 | every step of a turn keeps the accounting invariant |
| TurnRuns.NoSecondDispatch | action/src/executor.rs:3-8 | in every run, between two dispatches of one interrupt the journal returned that interrupt to prepared, or its own batch was abandoned while the last checkpoint did not name it and a process resumed the turn after that |
| TurnRuns.SeenIsNotDispatched | chat/src/orchestrator.rs:567-577 | in every run, whatever was abandoned, no interrupt the last checkpoint names is dispatched, and what it names is the durable seen set |
| TurnRuns.SpentIsKept | chat/src/orchestrator.rs:567-577 | in every run, whatever was abandoned, an interrupt that completed, failed or may have acted and was not let off since is in the durable seen set, or the checkpoint's own turn asks for it and its receipt is in the journal |
| TurnRuns.RunOrdered | chat/src/orchestrator.rs:515-604 | in every run only an admitted batch is prepared and not while another is undelivered, its requests are invoked in order, the Brain gets one result for each, and receipts go after the checkpoint naming them |
| TurnRuns.RunAccounts | chat/src/orchestrator.rs:615-693 | every emitted continuation counts exactly the delivered batches, files and invoked Actions, within the limits; an admitted batch is a round of the last checkpoint's continuation; a clarification completes only a turn that delivered none; every invoked Action is declared, authorizing while content is readable |
| TurnRuns.RunFits | inference/src/runtime.rs:235-261 | every resume with a batch's results is at most the Brain's 4 MiB request |
| TurnExact.RoutineKeeps | action/src/runner/batch.rs:483-508 | a Routine run abandons nothing in any run |
| TurnExact.DispatchedCanAct | chat/src/orchestrator.rs:334-368 | a run that dispatches anything belongs to a turn with rounds, room for one result, and an Action that takes no file or a selected one |
| TurnExact.FirstAction | chat/src/orchestrator.rs:261-368 | a turn with rounds, room for one result, and an Action that takes no file or a selected one has an answer that asks for it and is admitted as the first round |
| TurnExact.ChatCanRepeat | action/src/runner/batch.rs:483-508 | a chat turn that can act has a run that dispatches one interrupt twice with no return to prepared between |
| TurnExact.NeverTwiceExactly | action/src/executor.rs:3-8 | a turn dispatches nothing twice in every run exactly when its batches are a Routine run's, or it has no rounds, no room for one result, or no Action that takes no file or a selected one |
| TurnDrive.Turn.constructor | chat/src/orchestrator.rs:644-672 | a turn starts at no checkpoint with the terms of its own context |
| TurnDrive.Turn.Admit | chat/src/orchestrator.rs:515-534 | a round is offered exactly when admission holds |
| TurnDrive.Turn.Prepare | chat/src/orchestrator.rs:535-538 | the admitted batch is prepared exactly when the journal takes it, its generation then holds what the journal prepares of it, and nothing changes otherwise |
| TurnDrive.Turn.Invoke | action/src/runner/batch.rs:276-331 | a request no longer admitted, or whose row is executing or failed, changes nothing; a completed row replays its result; a prepared one is dispatched once and settled, and the trace says so |
| TurnDrive.Turn.Settle | action/src/runner/batch.rs:333-384 | a durable result is kept and returned; a question or an undelivered request goes back to prepared, the only way it does; a handled failure of a reading Action is without effect; every other outcome, and any the journal cannot write, leaves the row executing and the turn uncertain |
| TurnDrive.Turn.RunBatch | chat/src/orchestrator.rs:377-429 | the batch is done, asks a person or stops at a request exactly as the journal's rows and what happens around each request say, with each request's own result in order and exactly its Actions recorded |
| TurnDrive.EndsExactly | chat/src/orchestrator.rs:377-429 | a batch is done exactly when each request replays or its attempt leaves a result the journal holds |
| TurnDrive.Turn.Show | local/src/routine/recorder/mod.rs:694-724 | each result is shown beside its call's handle when it has one, and as it is otherwise |
| TurnDrive.Turn.Deliver | chat/src/orchestrator.rs:542-563 | the resume carries each request's own result under its interrupt, as it is shown; the continuation advances exactly when the Brain answers without repeating a seen interrupt |
| TurnDrive.Turn.Delivered | chat/src/orchestrator.rs:567-577 | the checkpoint is durable when it is written, the receipts go exactly when it is and the journal acknowledges, and never before |
| TurnDrive.Turn.Round | chat/src/orchestrator.rs:581-604 | one round advances the round index by one with the Brain's answer, or ends for a cause in its terms, its world or the journal |
| TurnDrive.Turn.Browser | chat/src/orchestrator.rs:432-469 | a Browser result is followed only by a plain reply, in the same round; every refusal has its cause |
| TurnDrive.Turn.Complete | chat/src/orchestrator.rs:487-511 | the outcome carries the whole of the Brain's last turn, what the turn invoked and the Browser's result, unless it asks after any Action or round or the Team changed |
| TurnDrive.Turn.Drive | chat/src/orchestrator.rs:644-697 | the loop completes with the reply of its last continuation, never beyond the round limit, or ends at a continuation for a cause that round has |
| TurnDrive.Turn.RunUntilPause | chat/src/orchestrator.rs:706-730 | a turn starts exactly when the Brain answers and its first checkpoint is written; it ends as the loop does, and otherwise nothing is left behind |
| TurnDrive.Turn.Continue | chat/src/orchestrator.rs:738-768 | a continued turn is a run on from its checkpoint, its undelivered batch settled first after a restart, or nothing changes |
| TurnDrive.Turn.Terminate | action/src/runner/batch.rs:483-508 | an uncertain Routine batch stays, an uncertain chat batch is deleted and the trace says so, any other of this identity with nothing executing is ended with its rows |
| Json.SameSymmetric | routine/src/plan/mod.rs:704-728 | equality of JSON values is symmetric for objects without repeated names |
| Json.SameTransitive | routine/src/plan/mod.rs:704-728 | equality of JSON values is transitive |
| Pointers.UnescapeEscape | routine/src/trace/mod.rs:72-74 | unescaping undoes escaping of every token |
| Pointers.PointerRoundTrip | routine/src/plan/mod.rs:662-679 | a written pointer reads back as its tokens exactly when it is within 256 characters |
| Pointers.TokensExactly | routine/src/plan/mod.rs:656-690 | a text has these tokens exactly when it is how they are written, within 256 characters |
| Pointers.WithinMeans | routine/src/trace/mod.rs:60-67 | the text test for being at or under a pointer is the prefix test on tokens |
| KeptValues.AvailableMeans | routine/src/trace/mod.rs:60-67 | a pointer is available exactly when its position is apart from every withheld one |
| KeptValues.Untouched | routine/src/trace/mod.rs:136-178 | what is apart from everything withheld was kept as it is |
| KeptValues.MaskedReached | routine/src/trace/mod.rs:136-178 | member tokens that reach a kept node reach its full form |
| KeptValues.KeepKeeps | routine/src/trace/mod.rs:88-178 | what is recorded of any value is a kept form of it with the positions it withheld, the whole value withheld when it is larger than 256 KiB |
| KeptValues.WithheldExactly | routine/src/trace/mod.rs:88-178 | what is withheld is exactly every first position on a path from the top that may be secret |
| PlanSelection.SelectWritten | routine/src/plan/mod.rs:682-700 | a written pointer through members selects its node exactly when within its bound |
| PlanSelection.SelectExactly | routine/src/plan/mod.rs:640-760 | a pointer selects a node exactly when it is how tokens that lead to it are written, through members by name and items below a billion by their index |
| PlanSelection.PickedExactly | routine/src/plan/mod.rs:640-760 | a selection reads inside the one matching item, and is ambiguous when two match |
| PlanSelection.MatchingOne | routine/src/plan/mod.rs:732-762 | a member that one item alone has selects that item |
| PlanSelection.PickedReordered | routine/src/plan/mod.rs:732-762 | a selection through one matching item does not depend on the order of the array |
| Provenance.Positions | routine/src/provenance.rs:272-297 | the walk with its pushed and popped path restores the path and appends every position in order |
| Provenance.PositionsExactly | routine/src/provenance.rs:272-297 | the positions found are exactly the paths that lead to an equal value |
| Sourcing.SourceClasses | routine/src/compose/mod.rs:517-550 | each call is represented by itself or its earliest read-only twin with no change between |
| Sourcing.Holders | routine/src/provenance.rs:312-342 | the loop gives each representative but the consumer's own, with the positions of its first call that holds the value |
| Sourcing.HolderIsRepresentative | routine/src/provenance.rs:312-342 | the positions listed for a source are its own result's |
| SourceBinding.HolderPositions | routine/src/provenance.rs:348-366 | narrowing to the work's own sources keeps only positions of the value in an available place |
| SourceBinding.SelectedInFull | routine/src/provenance.rs:769-788 | in the full result exactly the chosen item has the selector's member |
| SourceBinding.SourcedPosition | routine/src/provenance.rs:528-575 | a source is the binding of one available position of the value |
| SourceExact.SourcedExactly | routine/src/provenance.rs:348-686 | a value has this source exactly when one result other than the consumer's own holds it, or one of those the work ran, and there one position decides: the only one, through members alone, or the only one whose item a person's word singles out; it must be asked to run again exactly when no such result holds it |
| SourceExact.SinglingExactly | routine/src/provenance.rs:635-789 | an item is selected by a member exactly when it is the only one of the item's members, or the only one of those that name it, that a person wrote and no other item has or hides |
| Provenance.FoundNoneTwice | routine/src/provenance.rs:272-298 | the walk finds no position twice |
| SourceBinding.SourceReadsBack | routine/src/provenance.rs:528-575 | every source reads back the recorded value, from the recorded and the full result, exactly while its pointers are within their bound, and crosses no array by index |
| SourceBinding.SourceReordered | routine/src/provenance.rs:635-686 | a selector source reads the same value from any reordering of its array |
| SourceBinding.ReferenceReadsBack | routine/src/provenance.rs:791-814 | every admitted reference reads back the recorded value |
| SourceBinding.ReferencedExactly | routine/src/provenance.rs:791-814 | a reference is admitted exactly when it is the source, its pointers are within their bound and nothing it writes exposes a protected value; a refusal says which |
| SourceBinding.LongPointerReadsNothing | routine/src/provenance.rs:301-308 | a value under a member name of 256 characters is sourced by a pointer that selects nothing, and is refused as a reference |
| ReadCache.EvictionsFewest | assistant/src/cache.rs:124-134 | the loop evicts the fewest oldest entries that make the rest fit, and never the newest |
| ReadCache.RunSound | assistant/src/cache.rs:88-148 | in every interleaving cached keys are unique and never in flight, the count and budget hold or one entry remains, and each entry is its own flight's value |
| ReadCache.NoStaleEntry | assistant/src/cache.rs:112-148 | in every interleaving a cached value is the successful result of a read begun after the last discard of its key |
| ReadCache.RunUsed | assistant/src/cache.rs:88-110 | in every interleaving each entry's place is its last use, so the first evicted is the least recently used |
| ReadCache.Cache.Get | assistant/src/cache.rs:78-110 | a hit moves its entry to the newest place and keeps all others; a miss joins the key's flight or opens one |
| ReadCache.Cache.Settle | assistant/src/cache.rs:88-110 | a flight's one result is shared by its callers |
| ReadCache.Cache.Land | assistant/src/cache.rs:112-137 | only the key's own flight lands; its value is appended and the oldest go until the rest fits, an error is not cached |
| ReadCache.Cache.Evict | assistant/src/cache.rs:124-134 | the eviction loop leaves exactly the longest fitting suffix and its exact weight |
| ReadCache.Cache.Forget | assistant/src/cache.rs:140-148 | a discard removes the key's entry and flight and nothing else |
| Icons.StepKeeps | install/src/icons.rs:151-304 | every lock section, unlocked write and crash keeps the store's invariant |
| Icons.RunSafe | install/src/icons.rs:151-304 | in every interleaving an icon's pin count is its live handles, no unlink removes a pinned or committed icon but the retiring owner's own, and every other committed binding's icon is stored |
| Icons.OrphanedByRetire | install/src/icons.rs:284-304 | a binding without its icon is one whose own retire unlinked it and that was not committed again |
| Icons.IconStore.PinIcon | install/src/icons.rs:191-198 | a pin adds one to the icon's count |
| Icons.IconStore.Retain | install/src/icons.rs:191-233 | succeeds exactly for valid bytes that match a stored icon or could be written; a failure restores the pin counts and stores nothing |
| Icons.IconStore.Release | install/src/icons.rs:206-215 | one pin goes, every other count stays |
| Icons.IconStore.Drop | install/src/icons.rs:257-277 | the icon is removed exactly when no pin and no binding holds it and the unlink succeeds |
| Icons.IconStore.RetireBinding | install/src/icons.rs:284-304 | the icon goes first and only when nothing else holds it; a failed removal keeps the binding |
| Registry.SortedContents | install/src/bindings.rs:511-531 | sorting keeps the bindings, none lost or repeated |
| Registry.SortedInOrder | install/src/bindings.rs:511-531 | what is written is in order of Team and Assistant |
| Registry.SortedAgain | install/src/bindings.rs:511-531 | a registry in order is written as it is |
| Registry.SortedOnce | install/src/bindings.rs:511-531 | what is written depends only on which bindings are held, not on their order |
| Registry.WrittenReadsBack | install/src/bindings.rs:476-531 | reading what was written of a sound list gives the same bindings sorted |
| Registry.BindingStore.Admit | install/src/bindings.rs:561-592 | the memory of admitted digests never changes the answer; a digest it holds becomes the last one, a new one follows the others, and beyond 1,024 the first goes |
| Registry.BindingStore.Decode | install/src/bindings.rs:537-558 | a binding decodes exactly when it is intact and the contract admits it |
| Registry.BindingStore.Read | install/src/bindings.rs:476-509 | a registry reads exactly when it is within its limit, every binding decodes and no key repeats |
| Registry.BindingStore.Write | install/src/bindings.rs:511-531 | the bindings are stored sorted or the file stays |
| Registry.BindingStore.Insert | install/src/bindings.rs:312-336 | a binding equal to the held one is the answer with nothing written, another of its key conflicts, the Team limit and the total hold, and at most one binding is added |
| Registry.BindingStore.Swap | install/src/bindings.rs:377-400 | a compare-and-swap on the digest: exactly the expected binding of the same provenance is replaced |
| Registry.BindingStore.Delete | install/src/bindings.rs:433-474 | exactly the named binding goes, only while its digest is the expected one |
| Pkce.FewerWithin | integrations/src/pkce.rs:335-356 | removing challenges keeps the total, per-session and per-Team limits |
| Pkce.OneMoreWithin | integrations/src/pkce.rs:335-356 | one more challenge where there is room keeps all three limits |
| Pkce.ReleaseTold | integrations/src/pkce.rs:378-395 | a released verifier was unreleased, and goes to the session that started it |
| Pkce.PkceStore.Remove | integrations/src/pkce.rs:273-285 | a challenge leaves both maps, which stay mutually inverse |
| Pkce.PkceStore.RemoveWhere | integrations/src/pkce.rs:409-421 | exactly the selected challenges go, and are counted |
| Pkce.PkceStore.Expire | integrations/src/pkce.rs:258-271 | exactly the expired challenges go |
| Pkce.PkceStore.Create | integrations/src/pkce.rs:299-356 | a key with a live challenge and a full store are refused; otherwise one challenge starts |
| Pkce.PkceStore.Claim | integrations/src/pkce.rs:378-395 | the verifier goes exactly to the session that started it, once; any other claim changes nothing beyond expiry |
| Pkce.PkceStore.Inspect | integrations/src/pkce.rs:399-407 | inspection consumes nothing |
| Challenges.ChainExpiry | integrations/src/challenge.rs:317-336 | no chain of reissues outlives the first expiry |
| Challenges.CountIsSize | integrations/src/challenge.rs:203-211 | the live challenges are as many as the admissions with that fate |
| Challenges.KeptWithin | integrations/src/challenge.rs:163-211 | a sound store is within capacity, and an admitted challenge is live or waiting exactly while its fate says so |
| Challenges.ChallengeStore.Expire | integrations/src/challenge.rs:163-180 | exactly the overdue challenges end, and wait exactly where the store retains them |
| Challenges.ChallengeStore.Create | integrations/src/challenge.rs:217-237 | one live challenge to a Team within capacity, after expiry |
| Challenges.ChallengeStore.Restore | integrations/src/challenge.rs:278-310 | a remaining time below one second or above the time to live is refused; a restored challenge lives no longer than what remained |
| Challenges.ChallengeStore.Reissue | integrations/src/challenge.rs:317-336 | the earlier id stops answering, payload and expiry are kept |
| Challenges.ChallengeStore.ClaimAfter | integrations/src/challenge.rs:370-384 | a challenge is consumed exactly when the commit succeeds, and is untouched when it fails |
| Challenges.ChallengeStore.WithdrawTeam | integrations/src/challenge.rs:390-398 | the Team's challenge goes, expired or not, and is returned |
| Challenges.ChallengeStore.CancelAll | integrations/src/challenge.rs:413-420 | every challenge and every retained expiry goes; the live ones are counted |
| Challenges.ChallengeStore.DrainExpired | integrations/src/challenge.rs:426-439 | exactly the waiting and newly overdue challenges are parted: the asked Team's, or all when none is named, are returned in order, once, and none of them is left; the admissions after it are the old ones with the overdue waiting and exactly the returned drained |
| Challenges.DrainedLogAt | integrations/src/challenge.rs:426-439 | a drain changes exactly the drained challenges' fates |
| Challenges.FatesAreFinal | integrations/src/challenge.rs:163-439 | whatever operation runs, a fate other than live and waiting stays, and a waiting challenge is never live again |
| Challenges.FatesStay | integrations/src/challenge.rs:163-439 | the same over any series of operations |
| TeamFiles.SweptKeeps | storage/src/files.rs:392-398 | a sweep keeps exactly the rows that are referenced or within their grace period |
| TeamFiles.SweptFair | storage/src/files.rs:392-398 | what a sweep removes was unreferenced and idle for the whole grace period since its last upload or release |
| TeamFiles.ReadiedSound | storage/src/files.rs:688-712 | after an upload every row of its bytes carries one web mark |
| TeamFiles.ReleaseGraceExactly | storage/src/files.rs:827-848 | in every table a release keeps the whole grace period of every file exactly when each file it lets go was last active by the clock the release read |
| TeamFiles.SettleGraceExactly | storage/src/files.rs:854-879 | the same of a settlement and the sweep that ends it |
| TeamFiles.GraceMeans | storage/src/files.rs:392-398 | no sweep at any time loses a file early exactly when every unreferenced file is idle since its last upload or release |
| TeamFiles.OutOfOrderRelease | storage/src/files.rs:827-848 | an upload, a reference, a second upload and a release whose clock was read before the second upload: a sweep loses the file before its grace period since that upload |
| TeamFiles.ReferencingAdds | storage/src/files.rs:793-821 | a reference adds exactly the named files to the referenced ones |
| TeamFiles.ReferenceReleased | storage/src/files.rs:793-848 | releasing what a reference newly marked restores the referenced files |
| TeamFiles.SettledExactly | storage/src/files.rs:854-879 | after a settlement the referenced files are exactly the named ones that exist |
| TeamFiles.SettlingFair | storage/src/files.rs:854-879 | a settlement collects only what its grace period allows |
| TeamFiles.FileStore.Select | storage/src/files.rs:369-383 | a selection is admitted exactly when within its count, well formed and without repeats |
| TeamFiles.FileStore.Put | storage/src/files.rs:637-744 | an identical upload reuses its row and leaves usage unchanged; a new one is charged within quota and count, or refused with nothing changed; only what its grace period allows is gone |
| TeamFiles.OldestFirstListed | storage/src/files.rs:750-787 | a listing holds exactly the rows, by creation time and then id |
| TeamFiles.FileStore.List | storage/src/files.rs:750-787 | the listing is what the sweep leaves, oldest first, and its exact usage; the referenced files stay the same |
| TeamFiles.FileStore.Reference | storage/src/files.rs:793-821 | all selected files are marked and the newly marked returned, or nothing changes |
| TeamFiles.FileStore.Release | storage/src/files.rs:827-848 | exactly the named files are let go and their grace periods start at the clock it read; the table stays fair exactly when each was last active by that clock |
| TeamFiles.FileStore.Settle | storage/src/files.rs:854-879 | exactly the named files that exist stay referenced; only what its grace period allows is gone, and the table stays fair exactly when each file let go was last active by the clock it read |
| Serialization.CanonicalLength | protocol/http/rust/src/python/json.rs:35-90 | sorting keys at every depth never changes the encoded length |
| JsonText.DumpsReadBack | protocol/http/rust/src/python/json.rs:35-180 | every written text reads back by the grammar of RFC 8259 as exactly the value it was made from |
| JsonText.CanonicalReadBack | protocol/http/rust/src/python/json.rs:35-180 | the text with sorted keys reads back as the value with the members of every object in key order |
| JsonText.SortedMembers | protocol/http/rust/src/python/json.rs:71-76 | sorting keeps the members and puts their keys in order |
| JsonText.IntegerReadBack | protocol/http/rust/src/python/json.rs:95-103 | a written integer reads back |
| JsonText.DecimalForm | protocol/http/rust/src/python/json.rs:95-103 | an integer is written with a sign exactly when it is negative and without leading zeros |
| JsonText.EscapeForm | protocol/http/rust/src/python/json.rs:148-180 | a character takes two characters where it has a short escape, lower-case digits when it is another control character, and is itself otherwise |
| JsonText.BytesExactly | protocol/http/rust/src/python/json.rs:47-51 | the bytes counted for a text are those of its UTF-8 form |
| TextOrder.TextMeans | protocol/http/rust/src/python/json.rs:71-76 | texts are ordered by the first character in which they differ, a text after its own start |
| Runtime.ShownBytes | local/src/routine/recorder/mod.rs:694-724 | wrapping a result with a call handle adds at most 25 bytes |
| Runtime.ResumeFits | inference/src/runtime.rs:235-261 | a batch within the resume capacity fits one request with credential and results, each at its durable bound and wrapped or not |
| Runtime.CapacityExactly | inference/src/runtime.rs:235-261 | the capacity is the most results whose whole shares fit beside the request without any |
| Runtime.ResumeCarries | inference/src/runtime.rs:120-233 | a resume carries the credential, everything the context holds, and the results, each under its wire name |
| Runtime.AssistantWhole | inference/src/runtime.rs:101-110 | an Assistant goes to the Brain whole, each part under its wire name |
| Runtime.ActionWhole | inference/src/runtime.rs:68-86 | an Action goes to the Brain whole, each part under its wire name |
| Runtime.SafeIdExactly | protocol/http/rust/src/turn.rs:95-97 | an identifier is safe exactly when it is one to 256 letters, digits and five marks, no mark first |
| Contract.ContractChanges | inference/src/runtime.rs:114-122 | Assistants whose canonical contract texts are the same agree in everything the Brain receives, schemas up to the order of members |
| TurnCodec.ActionsExactly | inference/src/runtime.rs:408-455 | a list is admitted as these Actions exactly when it has at most 64 items, each the four members of an Action with a safe interrupt, identifiers that stand for themselves and an object input |
| TurnCodec.EndingExactly | inference/src/runtime.rs:424-445 | memory, a Routine record and a question are admitted exactly as the protocol canonicalizes them, with a completed turn only, never the last two together, the reply being the question's rendering |
| TurnCodec.TurnExactly | inference/src/runtime.rs:337-500 | a value is admitted as this turn exactly when it has the seven members, writes the turn, and the turn is well formed by its own fields |
| TurnCodec.TurnReadBack | inference/src/runtime.rs:458-550 | a turn is read back from the value it is kept as exactly when it is well formed by its own fields |
| TurnCodec.TurnRoundTrip | inference/src/runtime.rs:459-534 | every admitted turn, of each status and ending, is read back exactly from the value it is kept as |
| ActionResult.Walk | action/src/result.rs:40-60 | the explicit-stack loop admits a value exactly when it has at most 4096 nodes and depth at most 32 |
| ActionResult.RequireDurable | action/src/result.rs:63-78 | a result is durable exactly within the structure bounds and the canonical byte bound |
| ActionResult.ContainsSecretMeaning | action/src/projection.rs:59-83 | the scan reports exactly a value that nests too deep or has a non-empty secret inside any text or key at any depth |
| ActionResult.ContainsExactly | action/src/projection.rs:59-83 | a text contains a part exactly when it is something, the part, and something |
| ActionResult.Project | action/src/projection.rs:87-166 | a result, a request, a rejected stored input, a failure and a secret exposure are each answered exactly when the frame is one and may be; a failure carries what the redaction makes of it and the injected secrets |
| ActionResult.ProjectedHidesSecrets | action/src/projection.rs:87-131 | no projected member mentions a non-empty injected secret |
| Usage.AddCommutes | inference/src/usage.rs:102-114 | counts may be added to ordered totals in either order |
| Usage.BoundedAdd | inference/src/usage.rs:123-154 | adding to cut and clamped totals and cutting again is adding to the whole ones and cutting |
| Usage.JoinedComposes | inference/src/usage.rs:225-239 | joining a then b is joining their pointwise sum, whatever was cut or clamped between |
| Usage.TotalConcat | inference/src/usage.rs:158-176 | the total of a concatenation is the total of the two totals, for durations that are not negative |
| Usage.TotalConcatExactly | inference/src/usage.rs:158-176 | for durations of any sign whose sum does not saturate, the total of a concatenation is the total of the two totals exactly when neither part exceeds the bound beside a negative one |
| Usage.MeasuredTotals | inference/src/usage.rs:158-253 | totals of measured turns compose at every clock, one before their admission included |
| Usage.BoundedShows | inference/src/usage.rs:123-154 | whatever counts are added up, the cut totals show exactly the first models that occur and may be shown, each with its sums |
| Usage.TotalReordered | inference/src/usage.rs:158-176 | a total does not depend on the order of its turns |
| Usage.AddTokens | inference/src/usage.rs:102-114 | an operation without a model call counts nothing |
| Usage.Increment | inference/src/usage.rs:102-114 | the ordered map gains the counts at their own key |
| Usage.Added | inference/src/usage.rs:141-154 | the loop adds every count |
| Usage.Join | inference/src/usage.rs:225-239 | the joined usage shows exactly the first sixteen models that occur and may be shown, in strict key order, each with the sums of all its input and output tokens, at most a billion |
| Usage.Sum | inference/src/usage.rs:158-176 | the total shows the same of all the turns' counts, and the sum of their durations, at most a day |
| Paging.Paged | routine/src/definition.rs:248-261 | the loop takes consecutive entries as the page's bounds allow, or none when one is not permitted |
| Paging.RestFacts | routine/src/definition.rs:248-261 | a page is consecutive, within its count and bytes, not empty while entries remain, and stops only at an entry that would not fit |
| Paging.PageEncodes | routine/src/definition.rs:248-261 | a page of more than one step encodes within the page's bytes |
| Paging.PagesShowAll | routine/src/definition.rs:219-261 | following the next offset from the start shows every step once, in order, and ends |
| Paging.PagesExactly | routine/src/definition.rs:219-261 | all pages can be shown exactly when every step is permitted |
| Paging.Runs | routine/src/definition.rs:172-181 | the runs expand to exactly the steps, neighbours different |
| Paging.Summary | routine/src/definition.rs:172-195 | at most 16 runs expand to exactly the steps before the rest, cut only at a run's end |
| Archive.ReadPax | assistant/src/archive.rs:199-216 | the loop applies every record of an extended header in order, or refuses it |
| ArchiveParts.PaxReadBack | assistant/src/archive.rs:198-218 | written records are read exactly when each path is text and each size a number; path and size are the last ones written, or those before, and other keys change nothing |
| ArchiveParts.RecordWritten | assistant/src/archive.rs:198-218 | any record without an equals sign in its key can be written with a length that counts itself |
| Archive.ReadMembers | assistant/src/archive.rs:82-123 | the loop ends for every byte string with all members before the end marker, or none |
| Archive.TarLawful | assistant/src/archive.rs:96-121 | every header moves the reader by whole blocks past its data, which is kept exactly when it is a member's |
| Archive.SpansTile | assistant/src/archive.rs:82-123 | the headers and data read lie one after another from the start to the end marker, with no gap and no overlap |
| Archive.SpansCarry | assistant/src/archive.rs:103-121 | the members read are exactly the data of the member headers, in order |
| Archive.MembersIgnoreTail | assistant/src/archive.rs:82-91 | the answer ignores every byte after the end marker |
| Archive.AdmittedFile | assistant/src/archive.rs:26-64 | an admitted file is the only member's data, of the stated size within the bound |
| Archive.AdmittedWhateverFollows | assistant/src/archive.rs:26-64 | an admitted file stays the same whatever follows the end marker within the archive bound |
| Archive.OctalReadBack | assistant/src/archive.rs:149-167 | a number written in fixed-width octal reads back |
| Archive.WrittenChecksum | assistant/src/archive.rs:169-196 | a header written with its own sum has a valid checksum |
| Archive.TarReadBack | assistant/src/archive.rs:82-123 | the archive written for one member reads back as exactly that member |
| ArchiveParts.PartsReadBack | assistant/src/archive.rs:82-123 | an archive written in parts, extended headers for the next member or for all, long names and members, is read as exactly the members its parts mean, with the names and sizes the parts before them gave, or refused with them |
| Archive.PaddedReadBack | assistant/src/archive.rs:149-167 | an octal number between spaces reads back exactly while it is one of 64 bits, and a blank field is zero |
| Archive.Base256ReadBack | assistant/src/archive.rs:149-167 | a number in bytes behind a first byte with the high bit set reads back exactly while it is one of 64 bits |
| Archive.FileReadBack | assistant/src/archive.rs:26-64 | a read-only file within the bound, under its name or behind `./`, is admitted with its exact bytes |

## Left out

- Journal calls are atomic: an error after a commit (the caller sees a failure the journal applied) is not a separate step.
- Journal operation ids, the sealed encoding of results, `discard`, `purge`, `purge_batch` and `snapshot`.
- Other generations of the journal during one turn: a turn owns its generation.
- TurnDrive.Turn.Browser: the Browser's resume is not bounded by `ResumeFits`, because the source computes no capacity for it; the Browser task's own state is not modelled.
- ActionResult.Project: the redaction of a failure is a given function of the frame and the injected secrets.
- Runtime.ResumeFits: interrupt ids are the parser's safe ids, of at most 256 unescaped bytes.
- TurnCodec.TurnRoundTrip: assumes that the protocol's canonicalizers are idempotent, because their code is a vendored protocol library.
- TurnCodec.TurnExactly: what memory, a Routine record, a question and an objective look like is the protocol library's, given as its canonicalizers.
- JsonText.DumpsReadBack: texts with every non-ASCII character escaped or with spaces after separators are not written; a float's text is given.
- Usage.JoinedComposes: sums are unbounded integers, so the 64-bit overflow of token counts is not modelled.
- Paging.Paged: a page asked for beyond the last step, whose `next` the source computes from the offset, is not followed.
- ReadCache.Cache.Get: the waiting of callers on a flight is the order of steps; no scheduler is modelled.
- Icons.IconStore.Bind: the commit that an install makes through the registry is one step.
- Registry.BindingStore.Decode: the document's shape, identity and digest are the given predicates; digests are injective and admission is deterministic.
- Provenance's questions to a person: ambiguous targets, `target_choices`, `narrowed` and date templates.
- SHA-256, HMAC, sealing, UTF-8 validity, regular expressions, the other identifier checks and schema admission are given functions.
- Drawing a fresh id or PKCE state: a fresh value is a precondition.
- Network, TLS, child processes, file locks, SQLite pragmas and schema creation.
- Image and PDF preparation, the command line, progress reporting and audit events.
