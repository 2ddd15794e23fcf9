# Research Intelligence Agent: verified service algorithms

This project models, in Dafny, the parts of the Research Intelligence Agent backend that are more than
plumbing, and proves what they guarantee:

* the **project processing queue**: rows that move through idle, pending, processing, completed and
  failed; the Redis lease that serialises drains; the merge of two truncated queries that picks the next
  sources; and everything that touches rows and LLM cache at the same time, with every read, every commit
  of the changed columns and every deletion a step of its own;
* the **research store**: documents, audios, transcripts, chunks and entities with their foreign keys,
  under any sequence of transcribe, chunk, extract, deduplicate, aggregate and prepare calls; the cap on
  provider calls; and the repeatability of preparation and deduplication;
* **splitting**: the overlapping character windows of the chunker, the audio windows with their halving
  retry, and the paragraph blocks of long interview files;
* **evidence selection**: the greedy choice of quotes, the round-robin over sources, and the chain from
  strategy texts to evidence insights and back to the action cards.

Each file is one module. `Text`, `Wrappers` and `Sorting` hold strings, `Option`/`Result` and Python's
stable sort. Objects that the source updates in place are classes (`ChunkingService`, `Redis`,
`Queue`, `Session`); its loops are methods with invariants, proved equal to specification
functions; the theorems are lemmas about those functions or about runs of a state machine.

What does not hold, with the condition under which it does:

* The chunker can drop visible text when the text contains whitespace that `str.strip()` removes and the
  skip set of line 49 does not (`Chunking.JumpLosesText`), at every window size from three on
  (`Chunking.LossPossibleExactly`). `Chunking.CoverageExactly` says when, for every
  text and every setting: exactly when the jump of lines 41-43 passes over a visible character that no
  earlier window shows. Without such whitespace the jump is never taken (`Chunking.PlainTextNeverJumps`).
  `Chunking.NoLateBreaksIsLossFree` gives a weaker condition to read off the text.
* A negative audio overlap leaves holes and can end the plan early: `Audio.ExitReachedExactly` and
  `Audio.SegmentsHoldCoresExactly` say for which.
* A death between a finalizer's commit and its deletion can leave a stale cache
  (`CacheProtocol.DeathLosesInvalidation`): exactly when no other finalizer is under way and no row is
  active (`CacheProtocol.StepKeepsInvExactly`). Without such a death none is left, under every
  interleaving (`CacheProtocol.NoLostInvalidation`).
* An entry older than the last clearing can be in the cache
  (`CacheProtocol.LateWriterLeavesOldEntry`): exactly when its writer read the corpus before a
  finalization that was cleared before it stored (`CacheProtocol.FreshExactly`,
  `CacheProtocol.OldEntriesWereStoredLate`).
* The row lifecycle breaks when a commit overlooks what was written since its read, for a commit names
  only the columns it changed. Three races are spelled out (`RowProtocol.OvertakenRequeue`,
  `RowProtocol.SuccessKeepsForeignError`, `RowProtocol.MarkKeepsForeignCompletion`), and
  `RowProtocol.StepKeepsRowsExactly` says for every step exactly when it breaks.
* Two finalizers of one run make two finalizations for one marking
  (`RowProtocol.TwoFinalizersOverrun`): exactly a commit on a finished row whose markings are used up
  (`RowProtocol.StepKeepsCountsExactly`).
* The backend's README says that full-chunk copies are rejected. That holds of provider candidates only:
  an ordinary sentence of which the provider makes nothing is stored whole
  (`Candidates.SlowServiceIsStoredWhole`). `Candidates.CopyStoredExactly` says when: exactly when fewer than
  two provider candidates come or survive the filter and the chunk is itself one sentence of at most 300
  characters. The model follows the code.

## Model

| member | source | states |
|---|---|---|
| `Lease.Redis.SetNxEx` | app/services/project_queue_service.py:68 | the server sets the key with its time exactly when no live key is there |
| `Lease.Redis.CompareAndDelete` | app/services/project_queue_service.py:87-92 | the script deletes the key exactly when it is live and carries the caller's token |
| `Lease.TryAcquire` | app/services/project_queue_service.py:58-75 | the caller is let in exactly when the call is not answered or no live key is there, has its token exactly when it holds the key, and the key is set exactly when the command arrives and finds none |
| `Lease.Release` | app/services/batch_queue_service.py:78-94 | an empty token or a lost call changes nothing; otherwise only the caller's own live key goes |
| `Lease.StepKeepsInv` | app/services/project_queue_service.py:58-94 | every step of any worker, of time and of death keeps: an unexpired holder's token is on the server |
| `Lease.RunKeepsInv` | app/services/project_queue_service.py:58-94 | the same over whole runs |
| `Lease.MutualExclusion` | app/services/project_queue_service.py:58-94 | at the end of every run at most one worker holds an unexpired lease on a key |
| `Lease.DrainsAreExclusive` | app/workers/tasks/project_processing_queue.py:69-73 | because the job's time limit is not above the TTL, two running drains never share a project with tokens |
| `Lease.ReleaseSparesOthers` | app/services/project_queue_service.py:78-94 | a late release never removes a later holder's key |
| `Lease.GrantedExactlyWhenFree` | app/services/project_queue_service.py:67-75 | a lease is granted exactly when the server answers and no live key exists; then nobody else holds it |
| `Lease.BusyIsRefused` | app/services/project_queue_service.py:67-75 | an answered call on a live key leaves the worker outside and the keys as they are |
| `Lease.TokenlessOnlyUnanswered` | app/services/project_queue_service.py:61-75 | in any run, a worker that drains without a token got in past a call that was not answered |
| `Lease.ReleaseFreesExactlyOwn` | app/services/project_queue_service.py:78-94 | a release frees the key exactly when it arrives and comes from an unexpired holder |
| `Lease.OnlyAcquisitionsSet` | app/services/project_queue_service.py:68 | no key is set or renewed except by an acquisition of it |
| `Lease.LeaseComesFree` | app/services/project_queue_service.py:28 | the TTL after the last attempt on a key the next answered attempt gets it, whatever became of its holder |
| `Lease.DegradedDrainIsInvisible` | app/services/project_queue_service.py:69-81 | a drain whose acquisition never reached Redis changes nothing for the others and no key |
| `Lease.KeysDoNotClash` | app/services/batch_queue_service.py:29 | keys of the two queues, and of different projects or batches, differ |
| `QueueRows.ErrorText` | app/services/project_queue_service.py:390 | the first 8000 characters of the message, or of the fallback when there is none or it is empty; never empty |
| `QueueRows.ComputeSummary` | app/services/project_queue_service.py:116-158 | each status is counted right and the counts add up to the rows; active work exactly when a row is pending or processing; the current list is the processing rows |
| `QueueRows.MarkListAt` | app/services/project_queue_service.py:220-240 | a listed source that exists ends pending, without times or error, and its order is the number of existing sources before its last mention above the base |
| `QueueRows.StartListRow` | app/services/project_queue_service.py:329-339 | exactly the picked rows are started |
| `Picker.PickPending` | app/services/project_queue_service.py:277-326 | cut, merged and cut again, the answer is a correct answer to sorting everything: min(limit, pending) distinct rows in key order, none unpicked before a picked one |
| `Picker.MergeOfCutsIsSelection` | app/services/project_queue_service.py:283-326 | why cutting each table at twice the limit loses nothing |
| `Picker.UnpickedIsNotBefore` | app/services/project_queue_service.py:288-297 | a row cut from its table is not before any row that is picked |
| `Picker.SelectionIsUnique` | app/services/project_queue_service.py:325-326 | with distinct keys there is only one correct answer |
| `ProjectQueue.Queue.MarkIdleAndFailedPending` | app/services/project_queue_service.py:185-210 | idle and failed rows become pending without times, with order and error as they were; the others stay; their number is returned |
| `ProjectQueue.Queue.MarkSourcesPending` | app/services/project_queue_service.py:213-241 | field by field: documents, then audios, that exist become pending with consecutive orders from the base; the others stay |
| `ProjectQueue.MarkListedExactly` | app/services/project_queue_service.py:220-241 | the same of the marking itself: documents take the first orders, audios the next |
| `ProjectQueue.Queue.HighestOrder` | app/services/project_queue_service.py:245-250 | the greatest order of one table, or none when it is empty |
| `ProjectQueue.Queue.NextSortOrder` | app/services/project_queue_service.py:244-251 | the least non-negative order above all others, an empty table counting as order 0 |
| `ProjectQueue.Queue.MarkSourcePending` | app/services/project_queue_service.py:254-274 | only the named row changes, and only if it exists: pending, without times or error, at the given or the next order |
| `ProjectQueue.Queue.MarkProcessing` | app/services/project_queue_service.py:329-339 | picked rows are processing since now; the others, and the other fields, stay |
| `ProjectQueue.Queue.FetchSummary` | app/services/project_queue_service.py:149-158 | the counts are the numbers of rows in the tables; active work exactly when there is some |
| `ProjectQueue.Queue.FinalizeIfIdle` | app/services/project_queue_service.py:352-359 | the cache is emptied exactly when no row is active |
| `ProjectQueue.Queue.MaybeFinalize` | app/services/project_queue_service.py:362-471 | a pending or processing row becomes completed without error, or failed with its error, at the given time; nothing else changes; the cache goes exactly when that left the project idle |
| `ProjectQueue.Queue.RequeueDocument` | app/services/project_queue_service.py:474-493 | a processing row becomes pending without start time and with the reason; nothing else changes |
| `ProjectQueue.Queue.FinalizeTaskResult` | app/services/project_queue_service.py:496-517 | field by field for each result: ok completes, missing and other results fail with their error, a busy one goes back to pending; order, creation time and all other rows stay; the cache goes exactly when that left the project idle |
| `Lifecycle.MarkListRow` | app/services/project_queue_service.py:220-240 | a marked row keeps nothing of its last run; the others are untouched |
| `Lifecycle.WrittenRowsAreOk` | app/services/project_queue_service.py:185-274 | what each transaction writes is consistent in status, times and error |
| `Lifecycle.StepKeepsRow` | app/services/project_queue_service.py:185-517 | one committed transaction keeps a row consistent and finalized at most once per marking |
| `Lifecycle.RunKeepsInv` | app/services/project_queue_service.py:185-517 | the same for all rows over whole runs |
| `Lifecycle.LifecycleFromScratch` | app/services/project_queue_service.py:185-517 | from no rows, every run ends with consistent rows and no more finalizations than markings |
| `Lifecycle.RetryGoesLast` | app/services/project_queue_service.py:244-274 | a source queued without an order is picked only if everything else pending is picked too |
| `Lifecycle.MarkListOrders` | app/services/project_queue_service.py:220-240 | the i-th of distinct existing sources gets the i-th order |
| `Lifecycle.QueuedTogetherPickedInOrder` | app/services/project_queue_service.py:213-326 | sources queued together on an otherwise quiet project are picked in the order given |
| `CacheProtocol.OtherCallsKeepActive` | app/services/project_queue_service.py:185-339 | uploads, revivals and drains keep a project active |
| `CacheProtocol.ActiveUnlessFinalized` | app/services/project_queue_service.py:185-493 | only a finalizer can make a project idle |
| `CacheProtocol.StepLeavesSomeoneAhead` | app/services/project_queue_service.py:352-471 | while a finalization is newer than the last clearing and nothing is active, some worker still has its check or its deletion to do |
| `CacheProtocol.StepKeepsInvExactly` | app/services/project_queue_service.py:352-493 | every read, commit, deletion and death keeps that, exactly unless it is the death of the only worker that owed the deletion |
| `CacheProtocol.InvalidationIsOwedExactly` | app/services/project_queue_service.py:352-493 | it holds throughout a run exactly when no such death occurs |
| `CacheProtocol.NoLostInvalidation` | app/services/project_queue_service.py:352-471 | then, on an idle project whose finalizers are through, the cache was cleared after the last finalization |
| `CacheProtocol.DeathLosesInvalidation` | app/services/project_queue_service.py:392-399 | one finalizer that dies between commit and check leaves the old cache |
| `CacheProtocol.FreshExactly` | app/services/project_cached_llm_service.py:77-108 | a step leaves an entry older than the last clearing exactly when it stores what was read before a finalization cleared since |
| `CacheProtocol.CacheIsFreshExactly` | app/services/project_cached_llm_service.py:77-108 | the cache is free of such entries throughout a run exactly when there is no such store |
| `CacheProtocol.NothingOldRemains` | app/services/project_queue_service.py:352-471 | without fatal deaths and late stores, an idle project's cache holds nothing older than its last finalization |
| `CacheProtocol.ActiveProjectKeepsCache` | app/services/project_queue_service.py:352-359 | while some row stays active, checks that begin clear nothing, in any interleaving |
| `CacheProtocol.OldEntriesWereStoredLate` | app/services/project_cached_llm_service.py:77-108 | in any run, every entry older than the last clearing was stored late |
| `CacheProtocol.LateWriterLeavesOldEntry` | app/services/project_cached_llm_service.py:77-108 | seven steps that leave one |
| `RowProtocol.FinalizeKeepsRowExactly` | app/services/project_queue_service.py:383-392 | a finalizer leaves a consistent row exactly unless an error was set or cleared since its read and it leaves the error as read |
| `RowProtocol.RequeueKeepsRowExactly` | app/services/project_queue_service.py:481-490 | a re-queue does exactly when the row was not finalized since |
| `RowProtocol.MarkKeepsRowExactly` | app/services/project_queue_service.py:221-230 | a marking does exactly when no time was set, and no failure recorded, that it means to leave as it read it |
| `RowProtocol.StepKeepsRowsExactly` | app/services/project_queue_service.py:213-493 | any step keeps all rows consistent exactly when it is none of these commits |
| `RowProtocol.LifecycleInterleavedExactly` | app/services/project_queue_service.py:213-493 | all rows are consistent throughout a run exactly when no commit overlooks a change |
| `RowProtocol.OvertakenRequeue` | app/services/project_queue_service.py:480-490 | four steps to a pending row with a completion time |
| `RowProtocol.SuccessKeepsForeignError` | app/services/project_queue_service.py:383-392 | four steps to a completed row with an error |
| `RowProtocol.MarkKeepsForeignCompletion` | app/services/project_queue_service.py:221-230 | four steps to a pending row with a completion time, by a marking |
| `RowProtocol.StepKeepsCountsExactly` | app/services/project_queue_service.py:213-493 | finalizations stay within markings exactly unless a finalizer or a re-queue commits on a finished row whose markings are used up |
| `RowProtocol.FinalsWithinMarksExactly` | app/services/project_queue_service.py:213-493 | they do throughout a run exactly when that never happens |
| `RowProtocol.TwoFinalizersOverrun` | app/services/project_queue_service.py:373-392 | two finalizers that read one active row: two finalizations, one marking |
| `RowProtocol.StepLeavesUndisturbed` | app/services/project_queue_service.py:213-493 | while whoever has read comes next, what has been read is what the table says |
| `RowProtocol.OneAtATimeIsSafe` | app/services/project_queue_service.py:213-493 | runs whose transactions do not overlap overlook and overrun nothing |
| `RowProtocol.SerialLifecycle` | app/services/project_queue_service.py:185-517 | from no rows such a run ends with consistent rows and no more finalizations than markings, as `Lifecycle.LifecycleFromScratch` says of whole transactions |
| `Chunking.ChunkingService.constructor` | app/services/chunking_service.py:8-13 | every pair of settings is accepted and ends with overlap below the window size |
| `Chunking.ChunkingService.ChunkText` | app/services/chunking_service.py:15-57 | the chunks are the stripped texts of the windows |
| `Chunking.ChunkingService.ChunkWindows` | app/services/chunking_service.py:22-57 | the loop ends for every setting and computes the windows |
| `Chunking.ChunkingService.SkipFrom` | app/services/chunking_service.py:49-50 | the inner loop stops at the first character outside the skip set |
| `Chunking.WindowEnd` | app/services/chunking_service.py:30-37 | a window is not wider than allowed, and ends at the end of the text or at least `min_break` after its start |
| `Chunking.WindowEndExactly` | app/services/chunking_service.py:30-37 | the end is the last space or newline from four tenths of the width on, else the full width or the end of the text |
| `Chunking.NextStart` | app/services/chunking_service.py:46-50 | the next start is beyond this one, so lines 53-54 never act, and at most the overlap before the end |
| `Chunking.NextStartExactly` | app/services/chunking_service.py:46-50 | the next start is back by the overlap but past this one, and then past spaces, newlines, tabs and returns only |
| `Chunking.ShortTextIsOneChunk` | app/services/chunking_service.py:19-20 | the shortcut for short texts gives what the loop would give |
| `Chunking.WindowsShape` | app/services/chunking_service.py:29-40 | every window lies in the text, is at most `max_chars` wide and shows something |
| `Chunking.NextHeadInside` | app/services/chunking_service.py:51-52 | on stripped text line 52 is never reached |
| `Chunking.LastWindowIsSuffix` | app/services/chunking_service.py:44-45 | the last window ends where the text ends |
| `Chunking.HeadsAdvance` | app/services/chunking_service.py:29-55 | with a small overlap every turn gains at least `min_break - overlap` |
| `Chunking.WindowCountFrom` | app/services/chunking_service.py:29-55 | (windows - 1) * (min_break - overlap) is below what is left of the text |
| `Chunking.ChunkCount` | app/services/chunking_service.py:15-57 | the same bound on the number of chunks of any text |
| `Chunking.LossFreeCovers` | app/services/chunking_service.py:29-55 | if no jump passes over a visible character, every visible character is in a window |
| `Chunking.CoveredBeyond` | app/services/chunking_service.py:29-55 | from any loop head on: coverage and the condition on the jumps are equivalent |
| `Chunking.CoverageExactly` | app/services/chunking_service.py:15-57 | every visible character is in a window if and only if no jump passes over one that earlier windows do not show |
| `Chunking.PlainTextNeverJumps` | app/services/chunking_service.py:41-43 | when all whitespace is of the four skipped kinds, every loop head is visible and the jump is never taken |
| `Chunking.PlainTextIsLossFree` | app/services/chunking_service.py:15-57 | such texts are covered completely |
| `Chunking.NoLateBreaksIsLossFree` | app/services/chunking_service.py:31-50 | a text is covered when no stretch of whitespace has a space or newline `min_break` or more after a blank of another kind |
| `Chunking.ChunksCover` | app/services/chunking_service.py:38-57 | on the chunks: whenever the condition of `CoverageExactly` holds, each visible character lies in a chunk that is a contiguous part of the text of at most `max_chars` |
| `Chunking.WindowsAreNeighbours` | app/services/chunking_service.py:46-55 | when no jump passes over a visible character, consecutive windows overlap by at most the overlap or only blanks lie between them; starts increase |
| `Chunking.EndsIncrease` | app/services/chunking_service.py:29-55 | with a small overlap the window ends strictly increase |
| `Chunking.ChunksShow` | app/services/chunking_service.py:15-40 | a text with something visible has chunks, and every chunk shows something |
| `Chunking.JumpLosesText` | app/services/chunking_service.py:41-50 | a text with a vertical tab whose middle `b` is in no chunk |
| `Chunking.NarrowNeverLoses` | app/services/chunking_service.py:27-43 | windows of one or two characters lose nothing of any text |
| `Chunking.LossPossibleExactly` | app/services/chunking_service.py:27-50 | some text loses a visible character exactly from width three on, for every overlap below the width |
| `Audio.EncodeSegment` | app/services/audio_segment_split_service.py:120-135 | a slice fails when ffmpeg crashes, the file is empty or it is too large |
| `Audio.CheckExactly` | app/services/audio_segment_split_service.py:117-135 | a slice is at least 10 ms long; which failure it is depends on the file alone |
| `Audio.BuildSegmentPlan` | app/services/audio_segment_split_service.py:76-147 | the windows up to the first empty one when every file is usable, otherwise the failure of the first that is not; lengths that are not positive and empty recordings are refused |
| `Audio.SegmentsExactly` | app/services/audio_segment_split_service.py:105-113 | segment i holds exactly the milliseconds within the overlap of its core, for every overlap |
| `Audio.ExitReachedExactly` | app/services/audio_segment_split_service.py:114-115 | the early exit is reached exactly for negative overlaps that use up a window |
| `Audio.SegmentsAreShort` | app/services/audio_segment_split_service.py:108-115 | for every overlap: numbered from 0, not empty, inside the recording, at most chunk + 2 * overlap long |
| `Audio.SegmentsHoldCoresExactly` | app/services/audio_segment_split_service.py:105-115 | there are ceil(total / chunk) segments, each around its core, exactly when the overlap is not negative or one segment holds everything |
| `Audio.CoresPartition` | app/services/audio_segment_split_service.py:105-147 | every millisecond is in exactly one core |
| `Audio.SplitAudio` | app/services/audio_segment_split_service.py:150-202 | twelve attempts, each with half the length of the one before, down to a minute |
| `Audio.FirstUsableAttempt` | app/services/audio_segment_split_service.py:178-202 | the answer is that of the first attempt that is not too large, or the final error |
| `Audio.LengthsFall` | app/services/audio_segment_split_service.py:174-195 | tried lengths never increase and never fall below 60 s |
| `Audio.ReachesMinimum` | app/services/audio_segment_split_service.py:195 | attempt k is down to a minute exactly when the first length was at most 60 * 2^k seconds |
| `Audio.NoFailureWhenAllFit` | app/services/audio_segment_split_service.py:128-135 | a pass has no failure exactly when every file fits |
| `Audio.FirstFailureDecides` | app/services/audio_segment_split_service.py:120-135 | otherwise the first file that does not fit decides: crashed, empty or too large |
| `Audio.RetrySucceeds` | app/services/audio_segment_split_service.py:171-202 | if one-minute windows are sure to fit and eleven halvings reach a minute, the result is a plan whose segments all fit |
| `InterviewBlocks.ParagraphsLoseNothing` | app/services/interview_unit_split_service.py:107 | splitting at blank lines, stripping and dropping empty pieces keep every visible character in order |
| `InterviewBlocks.SplitExactly` | app/services/interview_unit_split_service.py:107 | runs of two or more newlines are cut out whole and nothing else is: woven together with their gaps the pieces are the text |
| `InterviewBlocks.KeptExactly` | app/services/interview_unit_split_service.py:107 | of the pieces exactly those that show something are kept, stripped and in order |
| `InterviewBlocks.SomeParagraph` | app/services/interview_unit_split_service.py:104-109 | a non-empty text has a paragraph, so line 109 never answers |
| `InterviewBlocks.SplitHeuristicBlocks` | app/services/interview_unit_split_service.py:103-131 | every visible character of the text is in the blocks, in order; blocks are bounded, not cut early, and cut exactly where `GroupParagraphs` says |
| `InterviewBlocks.GroupParagraphs` | app/services/interview_unit_split_service.py:110-131 | joining the blocks gives the paragraphs joined; every block but the last is one paragraph or at most max + 2 long; and exactly where they are cut: at the first two paragraphs or more that reach the minimum, or before the first that does not fit |
| `InterviewBlocks.FlushRest` | app/services/interview_unit_split_service.py:126-130 | a rest below half the minimum grows the last block, any other rest becomes a block |
| `InterviewBlocks.KeepVisible` | app/services/interview_unit_split_service.py:131 | the final filter removes nothing |
| `Evidence.PickEvidenceForText` | app/services/pr_grounding_service.py:44-79 | the items of the greedy choice, or nothing when they are too few |
| `Evidence.TakeGreedily` | app/services/pr_grounding_service.py:66-76 | the selection loop makes the greedy choice |
| `Evidence.SortRanks` | app/services/pr_grounding_service.py:65 | the sort is stable: equal scores stay in input order |
| `Evidence.GreedyExactly` | app/services/pr_grounding_service.py:66-76 | candidate by candidate: what is left out shares an entity with a higher one that is taken, or finds no room |
| `Evidence.GreedyIsIndependent` | app/services/pr_grounding_service.py:66-76 | the choice uses no entity twice and nothing from outside |
| `Evidence.GreedyIsOptimal` | app/services/pr_grounding_service.py:65-76 | on a sorted list greedy beats every independent set that fits, in score and in number |
| `Evidence.ChosenIsOptimal` | app/services/pr_grounding_service.py:51-76 | the chosen quotes have the greatest total score of any set of at most `max_n` eligible quotes without a repeated entity |
| `Evidence.EmptyExactlyWhenTooFew` | app/services/pr_grounding_service.py:77-79 | nothing is returned exactly when no such set has `min_n` quotes |
| `Evidence.PickedItems` | app/services/pr_grounding_service.py:16-79 | fewer than four visible characters get nothing; otherwise the usable quotes (ten visible characters, score 0.01) are taken in falling score, none left out without a reason, and each item has the first 900 characters and all five ids of its quote |
| `Grounding.EnrichActionCards` | app/services/pr_grounding_service.py:82-109 | every card gets the evidence for its message, or for its action when it has none, and is insufficient exactly when that is fewer than two; the links stay |
| `Grounding.GroundTexts` | app/services/pr_grounding_service.py:126-142 | one row per text of a block that has evidence, in order, with the next fresh id |
| `Grounding.KeepVisibleRefs` | app/services/pr_grounding_service.py:151-158 | the references of a card that show something, in order |
| `Grounding.BuildPrGrounding` | app/services/pr_grounding_service.py:112-173 | rows of the three blocks, and rows of the cards only when there are none |
| `Grounding.EvidenceInsights` | app/services/evidence_driven_bundle.py:104-166 | one insight per row with text and two shaped quotes; count and coverage from its distinct sources |
| `Grounding.AttachBasedOn` | app/services/evidence_driven_bundle.py:169-201 | every card is linked to the first insights that share an entity |
| `Grounding.PickedFromQuotes` | app/services/pr_grounding_service.py:16-26 | a picked item shows a supplied quote of ten visible characters: the whole text, or its first 900 characters, with all its ids |
| `Grounding.TextRowsExactly` | app/services/pr_grounding_service.py:126-142 | one more text adds a row exactly when it shows something and has two quotes: its first 2000 characters, its quotes, the next id |
| `Grounding.CardRowsExactly` | app/services/pr_grounding_service.py:143-172 | one more card adds a row exactly when its text has eight characters and it has two visible references, or else two quotes; the row has the first five |
| `Grounding.VisibleRefsExactly` | app/services/pr_grounding_service.py:151-158 | exactly the references that show something count, in order |
| `Grounding.RowsOfBlocks` | app/services/pr_grounding_service.py:121-173 | every groundable text of the three blocks has its row and no other rows are of their kinds; the cards stand in exactly when there is none |
| `Grounding.EnrichedFromQuotes` | app/services/pr_grounding_service.py:82-109 | after enrichment a card has no or two to five references, all from the quotes, whatever it had before |
| `Grounding.CardRowsGrounded` | app/services/pr_grounding_service.py:143-172 | the fallback rows have two to five quotes too |
| `Grounding.InsightsSound` | app/services/evidence_driven_bundle.py:104-166 | grounded rows give insights with two to five supplied quotes and coverage from 0 to 100 |
| `Grounding.NoFabricatedQuote` | app/services/pr_strategy_service.py:339-362 | the whole chain: every emitted insight rests on two to five items, each showing a supplied quote of ten visible characters |
| `Grounding.SourceCount` | app/services/evidence_driven_bundle.py:117-151 | documents, audios and transcripts are counted once each |
| `Grounding.ShapedExactly` | app/services/evidence_driven_bundle.py:123-143 | an item of four characters or more is kept with its first 900, any other is dropped |
| `Grounding.InsightExactly` | app/services/evidence_driven_bundle.py:113-166 | a row gives an insight exactly when it has two items, visible text, and two items among the first five that are kept |
| `Grounding.GroundedRowIsTold` | app/services/evidence_driven_bundle.py:117-166 | a grounded row with visible text gives an insight with exactly its evidence, its id, the first 2000 characters, the right count, and the coverage rounded to within 0.05 |
| `Grounding.NoEvidenceLost` | app/services/pr_strategy_service.py:339-362 | the whole chain: the insights are the rows, one for one and in order |
| `Grounding.LinkedExactly` | app/services/evidence_driven_bundle.py:174-201 | a card is linked to exactly the first five of the insights that have an id and share a non-empty entity, in their order |
| `Grounding.LinkedStopsAtFive` | app/services/evidence_driven_bundle.py:196-197 | stopping at five changes nothing |
| `Grounding.InsightIdsAreUnique` | app/services/pr_grounding_service.py:112-173 | with fresh ids, an id names one insight |
| `Stratify.FillBuckets` | app/services/audience_portrait_service.py:79-81 | every bucket holds its quotes in input order |
| `Stratify.SameBucketExactly` | app/services/audience_portrait_service.py:66-73 | quotes are put together by document if they have one, else by audio, else by transcript |
| `Stratify.KeysExactly` | app/services/audience_portrait_service.py:82 | each bucket in use is visited once, unknown sources last, each kind in alphabetical order |
| `Text.LexExactly` | app/services/audience_portrait_service.py:82 | alphabetical order is decided by the first difference, and a beginning comes before the whole |
| `Stratify.StratifyQuotesBySource` | app/services/audience_portrait_service.py:76-97 | min(max_total, items) quotes; at every moment each bucket has given a prefix, none with quotes left is more than one behind, and buckets go in key order |
| `Stratify.InRoundIsFair` | app/services/audience_portrait_service.py:85-93 | the middle of a round is fair and in key order |
| `Stratify.PrefixesMakeSubset` | app/services/audience_portrait_service.py:88-91 | taking prefixes takes no quote twice |
| `Stratify.NothingLeft` | app/services/audience_portrait_service.py:94-95 | a round without progress means that everything is taken |
| `Candidates.GrowFromSegments` | app/services/research_extraction_service.py:235-267 | adds usable segments until the limit is reached |
| `Candidates.SupplementSparse` | app/services/research_extraction_service.py:221-278 | the supplemented, sorted and cut list |
| `Candidates.SentenceLevelFallback` | app/services/research_extraction_service.py:123-219 | sentences, then segments, then the whole text |
| `Candidates.FilterProviderCandidates` | app/services/research_extraction_service.py:81-105 | keeps exactly the candidates that are short enough and no copy of the chunk |
| `Candidates.FinalizeChunkEntities` | app/services/research_extraction_service.py:280-302 | which of the three lists is stored |
| `Candidates.GrowKeeps` | app/services/research_extraction_service.py:235-267 | growing keeps what was there, and each added span ends before or starts after every span before it |
| `Candidates.GrowExactly` | app/services/research_extraction_service.py:235-267 | what is added is a segment of twelve visible characters that is not everything, clipped; with room left, every other segment is too short, everything, or meets a candidate |
| `Candidates.SupplementKeepsAndSeparates` | app/services/research_extraction_service.py:221-278 | no incoming candidate is dropped and every added span is clear of all others |
| `Candidates.SupplementExactly` | app/services/research_extraction_service.py:221-278 | fewer than three candidates for thirty characters are supplemented to three, or until no segment is left; the result is in span order; otherwise nothing changes |
| `Candidates.FallbackExactly` | app/services/research_extraction_service.py:123-219 | each of the first eight sentences is stored, clipped and with its span; the rest are segments, added only below three sentences; all in span order |
| `Candidates.FilteredExactly` | app/services/research_extraction_service.py:87-104 | kept are exactly the candidates of at most 300 characters that are not the chunk, in order |
| `Candidates.OneToEight` | app/services/research_extraction_service.py:280-302 | a chunk with text yields one to eight entities, whatever the provider returned |
| `Candidates.EmptyChunk` | app/services/research_extraction_service.py:280-302 | a chunk without text yields nothing exactly when fewer than two provider candidates survive |
| `Candidates.AcceptedAreStored` | app/services/research_extraction_service.py:288-302 | two or more accepted provider candidates are all stored, up to eight |
| `Candidates.Clip` | app/services/extraction/mock_provider.py:113-115 | never more than 300 characters, and the stripped text itself when it is that short |
| `Candidates.LongClip` | app/services/extraction/mock_provider.py:113-115 | a longer text ends after the last visible one of its first 299 characters, followed by an ellipsis |
| `Candidates.ClippedCopy` | app/services/extraction/mock_provider.py:113-115 | clipping a part of a text gives the text only if the part is the text and short enough |
| `Candidates.GrowAddsNoCopy` | app/services/research_extraction_service.py:160-188 | segments never copy the chunk |
| `Candidates.FilteredHasNoCopy` | app/services/research_extraction_service.py:98-104 | no accepted provider candidate copies the chunk |
| `Candidates.FallbackCopiesExactly` | app/services/research_extraction_service.py:123-219 | the fallback copies the chunk exactly when the chunk is one of its first eight sentences and at most 300 characters; the whole-text candidate is never made |
| `Candidates.CopyStoredExactly` | app/services/research_extraction_service.py:280-302 | an entity that copies its chunk is stored exactly when the fallback stands in for the provider and the chunk is such a sentence |
| `Candidates.OneSentenceIsStoredWhole` | app/services/research_extraction_service.py:135-158 | a chunk of one sentence of which the provider makes nothing is stored whole |
| `Candidates.SlowServiceIsStoredWhole` | app/services/research_extraction_service.py:135-158 | an ordinary sentence that is |
| `Store.LinksSurviveDeletion` | app/models/extracted_entity.py:78-82 | deleting rows with SET NULL leaves no dangling link and no chain |
| `Store.DropEntitiesKeepsInv` | app/services/research_extraction_service.py:353-354 | deleting entities keeps the store invariant |
| `Store.DropChunksKeepsInv` | app/models/extracted_entity.py:57-62 | deleting whole origins of chunks, with the cascade to their entities, keeps it |
| `Store.DropTranscriptsKeepsInv` | app/models/extracted_entity.py:52-56 | deleting transcripts, with both cascades, keeps it |
| `Store.WithoutTranscriptsExactly` | app/models/extracted_entity.py:52-62 | deleting transcripts takes exactly their chunks and entities; of the other rows only links to deleted ones change |
| `Store.NewIndicesContiguous` | app/services/processing_orchestrator_service.py:128-142 | new chunks are numbered 0 to k-1 |
| `Store.AddChunksKeepsInv` | app/services/processing_orchestrator_service.py:182-199 | adding the chunks of an origin that has none keeps the invariant |
| `Store.AddEntitiesKeepsInv` | app/services/research_extraction_service.py:48-73 | storing the entities of a chunk keeps it |
| `Dedup.ClearLinks` | app/services/entity_deduplication.py:44-46 | the project's links are cleared, nothing else |
| `Dedup.GroupByFingerprint` | app/services/entity_deduplication.py:48-51 | one group per fingerprint in use, rows in order |
| `Dedup.LinkGroup` | app/services/entity_deduplication.py:59-62 | all but the first of a group are linked to the first |
| `Dedup.Deduplicate` | app/services/entity_deduplication.py:31-70 | the linked table, and counts of rows, distinct fingerprints, shared fingerprints and links |
| `Dedup.HeadIsEarliest` | app/services/entity_deduplication.py:36-42 | the first of a group is before every other by (created_at, id) |
| `Dedup.DedupedIsCanonical` | app/services/entity_deduplication.py:31-70 | every row of the project leads to the row with its fingerprint that comes first by (created_at, id); nothing but links changes |
| `Dedup.CanonicalIsUnique` | app/services/entity_deduplication.py:31-70 | that form is unique |
| `Dedup.RootsAreFingerprints` | app/services/entity_deduplication.py:48-62 | two rows share a root exactly when their fingerprints are equal, and roots are not linked |
| `Dedup.DedupIgnoresLinks` | app/services/entity_deduplication.py:44-46 | links of earlier runs have no influence |
| `Dedup.DedupTwice` | app/services/entity_deduplication.py:31-70 | a second run changes nothing |
| `Aggregation.Tally` | app/services/research_project_aggregation_service.py:43-54 | every label is counted right and the counts add up to the rows |
| `Aggregation.CountClusters` | app/services/research_project_aggregation_service.py:56-68 | every cluster size is right and the sizes add up to the rows of all clusters |
| `Aggregation.ClustersCoverProject` | app/services/research_project_aggregation_service.py:56-68 | the clusters of the unlinked rows are exactly the project's rows |
| `Aggregation.DedupKeepsInv` | app/services/research_project_aggregation_service.py:29-30 | deduplication keeps the store invariant |
| `Aggregation.AggregateProject` | app/services/research_project_aggregation_service.py:29-112 | conservation: type, confidence and month counts each add up to the distinct fingerprints, cluster sizes to all rows |
| `Pipeline.LatestIsOfAudio` | app/services/research_pipeline_orchestrator_service.py:196-206 | the chosen transcript is completed, of the audio, and none completed is newer |
| `Pipeline.TranscribeKeepsInv` | app/services/processing_orchestrator_service.py:41-90 | transcribing anew, with all its cascades, keeps the store invariant |
| `Pipeline.TranscribeExactly` | app/services/processing_orchestrator_service.py:41-90 | it raises exactly without audio or text; else the new transcript is the only one of the audio, nothing hangs on the audio any more, and of all other rows only links to deleted ones change |
| `Pipeline.ChunkDocumentKeepsInv` | app/services/processing_orchestrator_service.py:92-144 | chunking a document keeps it |
| `Pipeline.ChunkDocumentExactly` | app/services/processing_orchestrator_service.py:92-144 | it raises exactly without document or text; else existing chunks are reported and nothing changes, or the chunks of the stripped text are stored, numbered from 0 |
| `Pipeline.ChunkTranscriptKeepsInv` | app/services/processing_orchestrator_service.py:146-199 | re-chunking a transcript keeps it |
| `Pipeline.ChunkTranscriptExactly` | app/services/processing_orchestrator_service.py:146-199 | it raises exactly without transcript or text; else exactly the old chunks and their entities are gone and the chunks of the stripped text are stored |
| `Pipeline.ExtractChunksKeepsInv` | app/services/research_extraction_service.py:304-333 | sending chunks to the provider and storing the results keeps it |
| `Pipeline.ExtractKeepsInv` | app/services/research_extraction_service.py:335-438 | the three extractions keep it, also when they raise |
| `Pipeline.ExtractChunksExactly` | app/services/research_extraction_service.py:304-333 | it raises exactly when the provider does; else each chunk has its finalized candidates as entities, in order, and no others are new |
| `Pipeline.ExtractScopeExactly` | app/services/research_extraction_service.py:353-361 | moreover exactly the old entities of the scope are gone, other rows lose only links to them, and the chunks are sent once each, in order |
| `Pipeline.ExtractDocumentExactly` | app/services/research_extraction_service.py:335-361 | the same of a document, with its chunks made first when it has none; an existing document never raises unless the provider does |
| `Pipeline.ExtractTranscriptExactly` | app/services/research_extraction_service.py:363-399 | the same of a transcript; after chunking there are always chunks, so lines 387-392 never act |
| `Pipeline.ExtractAudioExactly` | app/services/research_extraction_service.py:401-438 | the same of an audio and its latest completed transcript |
| `Prepare.OneSource` | app/models/extracted_entity.py:25-29 | a row counts for one document or audio only |
| `Prepare.ChunkPhaseFacts` | app/services/research_pipeline_orchestrator_service.py:412-452 | after the first phase every note says what the tables say, nothing was sent, and only chunks were added |
| `Prepare.ChunkPhaseRaises` | app/services/research_pipeline_orchestrator_service.py:432-452 | the first phase raises exactly at an audio without chunks whose latest completed transcript shows nothing |
| `Prepare.ExtractOneFacts` | app/services/research_extraction_service.py:311-333 | one chunk costs one call and leaves its source with entities |
| `Prepare.ExtractSrcFacts` | app/services/research_extraction_service.py:335-438 | extracting a bare source sends its chunks once each, in order, and deletes nothing |
| `Prepare.ExtractPhaseFacts` | app/services/research_pipeline_orchestrator_service.py:500-522 | the second phase sends at most what was counted, and fills every source that needed it |
| `Prepare.NeededSize` | app/services/research_pipeline_orchestrator_service.py:454-461 | the number compared with the cap is the number of chunks of sources that need extraction |
| `Prepare.AggregatedFacts` | app/services/research_pipeline_orchestrator_service.py:524-529 | aggregation leaves the canonical form and changes links of the project only |
| `Prepare.BoundedPreparation` | app/services/research_pipeline_orchestrator_service.py:386-536 | with gpt at most the cap is sent, nothing when it stops early, no chunk twice and none of a source with entities, no row lost, invariant kept |
| `Prepare.PreparationExactly` | app/services/research_pipeline_orchestrator_service.py:386-536 | the verdict is the one that tables, provider and cap ask for; the chunks sent are exactly those of wanted sources without entities, and only when it extracts; afterwards wanted sources are chunked and links canonical |
| `Prepare.PreparationAborts` | app/services/research_pipeline_orchestrator_service.py:412-452 | if the provider never raises, a call raises exactly when a wanted audio is such a one |
| `Prepare.ExtractionIsComplete` | app/services/research_pipeline_orchestrator_service.py:500-522 | after extraction every source that can have chunks has chunks and entities |
| `Prepare.SecondCallIsFree` | app/services/research_pipeline_orchestrator_service.py:386-536 | after a call that finished, a second one finishes without a provider call |
| `Services.Session.AddChunkRows` | app/services/processing_orchestrator_service.py:128-142 | one row per text, numbered from 0, under the next ids; nothing else changes |
| `Services.Session.Persist` | app/services/research_extraction_service.py:48-73 | one entity per candidate with its type, title and content and the project and source of its chunk; nothing else changes |
| `Services.Session.TranscribeAudio` | app/services/processing_orchestrator_service.py:41-90 | raises exactly without audio or text; else what `Pipeline.TranscribeExactly` says: old transcripts and what hangs on them go, the new one is the only one |
| `Services.Session.ChunkSourceDocument` | app/services/processing_orchestrator_service.py:92-144 | a document is chunked once, later calls report its chunks; raises exactly when it is missing or empty |
| `Services.Session.ChunkTranscriptRow` | app/services/processing_orchestrator_service.py:146-199 | a transcript is chunked anew, its old chunks and their entities go; raises exactly when it is missing or empty |
| `Services.Session.ExtractForChunks` | app/services/research_extraction_service.py:304-333 | chunks are sent in order until one raises |
| `Services.Session.ExtractForDocument` | app/services/research_extraction_service.py:335-361 | chunk if needed, delete the old entities, extract; the tables are those of a re-extraction and the count is that of the new entities |
| `Services.Session.ExtractForTranscript` | app/services/research_extraction_service.py:363-399 | the same for a transcript |
| `Services.Session.ExtractForAudio` | app/services/research_extraction_service.py:401-438 | the same for an audio and its latest completed transcript |
| `Services.Session.Aggregate` | app/services/research_pipeline_orchestrator_service.py:524-529 | links the project's rows, when there are any, into the canonical form |
| `Services.Session.PrepareSource` | app/services/research_pipeline_orchestrator_service.py:412-452 | chunks one source if needed and notes its counts |
| `Services.Session.CountNeeded` | app/services/research_pipeline_orchestrator_service.py:454-461 | the number of chunks of sources with chunks and no entities |
| `Services.Session.ExtractEntries` | app/services/research_pipeline_orchestrator_service.py:500-522 | extracts exactly those sources |
| `Services.Session.PrepareProjectForReport` | app/services/research_pipeline_orchestrator_service.py:386-536 | the five outcomes of preparation and the tables of each: the right verdict, exactly the bare chunks sent, wanted sources chunked, links canonical |
| `Services.CallKeepsInv` | app/services/processing_orchestrator_service.py:41-199 | every call of the services keeps the store invariant, committed or rolled back |
| `Services.RunKeepsInv` | app/services/research_extraction_service.py:304-438 | so does every run |
| `Services.StoreAfterAnyRun` | app/models/extracted_entity.py:20-82 | after any run: one source per chunk and entity, entities agree with their chunk, links neither dangle nor chain, chunk indices are 0 to k-1 |

## Left out

Assumptions and parameters:

- Language models, speech recognition, ffmpeg, sentence splitting, segmenting, titles, the score of a quote
  and the fingerprint are arbitrary functions; an LLM that answers the same chunk differently the next time
  is not modelled. Of the sentence splitter the results about copies use that a non-empty text has
  sentences, each stripped, not empty and no longer than the text. A score is taken as a real number.
- Times are integers, audio settings are real seconds, coverage is rounded half up instead of by the
  float rule of Python.
- Random lease tokens never repeat. Random row ids are numbers from a counter, ordered among rows of one
  creation time by an arbitrary injective rank.
- A service call that raises is rolled back by its session; the provider calls it made remain.
- The picker's tables are the rows its query may see; rows locked by another transaction are not in them.
- Lifecycle: transactions run one after the other there; `Workers`, `RowProtocol` and `CacheProtocol` are
  the interleaved form. A commit there is one step, and so is a drain, which locks the rows it reads.
- Deletion of single source rows by users, and the number of rows a limit of zero or less would select.
- Evidence: the `segment` of a quote and a reference that has `text` instead of `quote`.
- Grounding: cosmetic card fields, and the earlier `based_on` list, which the linking overwrites.
- Candidates: evidence whose span is not an integer, confidence values and tags.
- Pipeline: the OpenAI chunking strategy, transcript segments as a table (their joined text is given), and
  the order of chunks of an audio with several transcripts.
- Aggregation: tag counts, top insights and the snapshot row; the three labels are arbitrary functions.

Not modelled:

- The finalizers, re-queues, pickers and metadata of the batch queue; only its lease is here.
- How the drain job dispatches, retries and reschedules.
- Splitting interviews by markers, headings or a model, language detection, and unit drafts.
- Readiness decisions, dashboards, exports, prompts, report texts, lexicons and word counts.
- API routes, schemas, repositories, migrations and the web client.
- Unicode normalisation inside the fingerprint.
