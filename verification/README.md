# Verified model of the platform installer

A Dafny model of the parts of the installer that carry state across failures: the resumable
chunked upload of OCI blobs, the self-healing port-forward, the model cache, the assignment of
node pools, the stack configuration resolver, the stage runner and the cluster guard, with a few
small algorithms beside them. `dafny verify dfyconfig.toml` checks all of it.

| file | models |
|---|---|
| `Upload.dfy`, `UploadEnv.dfy`, `RangeHeader.dfy` | the push loop, and the world it runs in: registry, state file, process death |
| `LatePatches.dfy` | the push against a network that delivers late, twice and out of order |
| `Prefetch.dfy`, `PrefetchRace.dfy`, `PrefetchAtomic.dfy` | the chunk prefetcher, on its own, as two interleaved threads, and why the two agree |
| `Progress.dfy` | the progress tracker with its clamping and its int64 percentage |
| `Forward.dfy` | supervisor, sessions and closers of the port-forward as a state machine |
| `FileSelect.dfy`, `CacheDisk.dfy`, `Cache.dfy` | the file-selection rules, the cache directory as a value, and the operations that fill and trim it |
| `ChoiceLines.dfy`, `Choice.dfy` | the choice prompt: what it shows, and its keys |
| `NodePools.dfy`, `PoolListing.dfy`, `AssignmentPrompt.dfy`, `AssignmentRerun.dfy`, `Placement.dfy`, `NodePlacement.dfy` | from the nodes of a cluster to the node affinity of a workload, and back on the next run |
| `StackConfig.dfy` | conditional, prompted configuration entries |
| `Workflow.dfy` | stages with retry, restart, continue and cleanup |
| `ClusterGuard.dfy` | the checks before a stack is deployed or destroyed |
| `GraphSize.dfy`, `ShellQuote.dfy`, `BuildEstimate.dfy` | descriptor graphs, shell quoting, the archive-size bound |
| `GoText.dfy`, `StringOrder.dfy`, `Wrappers.dfy` | Go's integers and strings, sorting, options and results |

The registry, the file system, the cluster, the operator and the process itself are environment
methods that may do anything the real ones may. A result `Died` means that the process ended
around that call; every contract that does not mention `Alive` holds then too. Where a run could
go on for ever the environment carries a budget that bounds it: sessions that may still be lost in
`UploadEnv.Env.losses`, calls that may still be made in `Workflow.Runtime.budget`. No contract
limits the budget.

What the code does that its names or comments do not say:

- A status reply of `0-0` reads as one committed byte, and no header reads as none
  (`RangeHeader`). The upload is safe if a registry answers with a range only when it holds at
  least one byte; `Upload.ZeroZeroBreaksTheInvariant` shows that this is needed.
- Because an empty session has no expressible range, a first chunk whose PATCH failed with nothing
  committed ends the run instead of being sent again; the next run starts over.
- A session that is lost after the last chunk fails the push at the finalizing PUT, whatever attempts
  are left; the next run starts over.
- A state file that was cut short while being written stops every later run before it sends
  anything, until it is removed by hand.
- The reconnect delay reaches 32 seconds although `maxReconnectDelay` is 30.
- A percentage is wrong for counts above 92233720368547758, and can be negative; progress that
  was clamped cannot be rolled back exactly.
- A node with two pool labels is listed under the first, and is still admitted by the affinity
  of a pool that is named by the second; a node without its pool's label is listed and never
  admitted. For all other nodes, and only for them, admitted and listed are the same.
- The choice prompt scrolls on key presses only: its first screen does not show the focused row
  when empty groups above it take up the window.
- A blank completion marker, which an older installer or a write that was cut short leaves, passes
  for any revision that has a snapshot directory. A download that is interrupted under one passes
  for complete in the next run, which trims the rest and reports success with a partial model.
- A stage whose restart fails in cleanup is cleaned up a second time on the way out, and a stage
  whose final cleanup fails has already been reported as done.
- Recorded objects beyond the twentieth never decide which cluster a provider is on.
- The archive estimate is enough for up to 137248 directory trees if incompressible data is stored
  in blocks of full length, and for no more in general.

## Model

| member | source | states |
|---|---|---|
| `Upload.Runs` | installer/internal/oras/repository/upload.go:231-275 | over any number of runs with any options, each cut short anywhere and with sessions expiring in between, every PATCH ever sent carries the blob's bytes for its range to a session that ends exactly where the range starts, and every finalizing PUT goes to a session that holds the whole blob; the world left behind is resumable; from an unreadable record no number of runs sends anything or gets rid of it |
| `Upload.Repository.PushBlobChunked` | installer/internal/oras/repository/upload.go:231-275 | one push: the safety above whether it succeeds, fails or dies; at most attempts × (losses × size + size) PATCH requests when sessions are lost at most that often; no temp file left unless the process died; success means stored and the record gone; without faults one PATCH per chunk, the upload goes on from what the recorded session holds, and each remaining byte is read once; an unreadable record stops it before anything is sent, and stays; the tracker ends at its prior bytes plus the blob; a push whose only trouble is lost sessions ends stored, unless every attempt allowed for a chunk met a lost session, or the session was lost right before the finalizing PUT |
| `Upload.Repository.PushStarted` | installer/internal/oras/repository/upload.go:239-275 | the part after a session is at hand: same bounds, the prefetcher closed on every way out, stored unless lost as above |
| `Upload.Repository.PushChunks` | installer/internal/oras/repository/upload.go:255-263 | the loop: terminates, because the pair (losses left, bytes left) falls lexicographically with every chunk, and the PATCH requests still to come are bounded by that pair; ends with the session holding the whole blob; lost sessions alone fail it only when every attempt for a chunk met one |
| `Upload.Repository.PushChunk` | installer/internal/oras/repository/upload.go:255-263 | a chunk that succeeds without losing the session strictly raises the offset; the tracker shows prior bytes plus the offset afterwards, also across a restart |
| `Upload.Repository.UploadChunkWithRetry` | installer/internal/oras/repository/upload.go:347-425 | at most maxAttempts PATCH requests, each attempt starting on a session that holds exactly blob[..offset]; it gives up only after maxAttempts attempts that each sent a PATCH or could not read the source, with a pause between any two, and on lost sessions alone only if each of them met one; MovedBackwards and PastEnd can never be the reason it fails |
| `Upload.Repository.AttemptChunk` | installer/internal/oras/repository/upload.go:357-424 | one attempt, and which of uploaded, again or failed it leaves the push with; if nothing but lost sessions goes wrong, it is uploaded, or again after a loss |
| `Upload.Repository.SettlePatch` | installer/internal/oras/repository/upload.go:376-421 | what the reply to a PATCH, or the lack of one, comes to |
| `Upload.Repository.RecoverOrRestartChunk` | installer/internal/oras/repository/upload.go:429-462 | after an unanswered PATCH: the session is asked what it holds and the push goes on from there; a session that is gone is always replaced by a living one if nothing else goes wrong, and both the offset and the reported progress go back to zero |
| `Upload.Repository.RecoverChunk` | installer/internal/oras/repository/upload.go:466-489 | true exactly when the session moved past the attempt; a lost session is told apart from every other failure |
| `Upload.Repository.StartOrResumeBlobUpload` | installer/internal/oras/repository/upload.go:297-345 | the offset it starts from is what the registry says the session holds, never the recorded one, and the record is brought up to date; the state it fails in |
| `Upload.Repository.LoadUploadState` | installer/internal/oras/repository/state.go:25-44 | yields a record only when it is for this blob and repository; absent and foreign records read as nothing, unreadable ones as an error |
| `Upload.Repository.Save` | installer/internal/oras/repository/state.go:46-66 | after a save, whatever became of it, a record the next run would resume names a session of ours; a save that succeeds has recorded exactly this upload |
| `Upload.Repository.PatchBlobUpload` | installer/internal/oras/repository/protocol.go:42-83 | sends one range; an answer that can be read names exactly what the session then holds |
| `Upload.Repository.GetBlobUpload` | installer/internal/oras/repository/protocol.go:108-131 | an answer names exactly what a living session holds, and is never zero |
| `Upload.Repository.SettleFailedPatch` | installer/internal/oras/repository/upload.go:378-398 | a PATCH without an answer: the chunk is uploaded, or to be sent again from the same offset or from zero, or the run ends. If nothing else goes wrong and the session lives, what it holds decides: nothing ends the run, more than the attempt's offset is an uploaded chunk, exactly that offset is sent again |
| `Upload.Repository.Finalize` | installer/internal/oras/repository/upload.go:265-272 | the PUT on a session that holds the whole blob, then the record deleted; without other trouble it fails only because that session was gone by then |
| `Upload.PatchExtendsPrefix` | installer/internal/oras/repository/upload.go:376-398 | whatever part of a PATCH is accepted, and whether or not the reply arrives, the session goes on holding exactly a prefix of the blob |
| `Upload.ZeroZeroBreaksTheInvariant` | installer/internal/oras/repository/utils.go:19-38 | the assumption on status replies is needed: a registry that answers an empty session with 0-0 makes the push resume at offset 1, and any chunk sent from there breaks the safety of requests |
| `LatePatches.LateIsSafe` | installer/internal/oras/repository/upload.go:231-275 | a weaker network, where a PATCH may arrive at any later time, more than once, in any order and in part, also after a status request was answered: in every state of every run each session holds a prefix of the blob and at least what the client was told, a PUT meets the whole blob, and nothing else is ever stored |
| `LatePatches.NextKeepsInv` | installer/internal/oras/repository/upload.go:347-489 | every step of such a run keeps this |
| `LatePatches.AppendingAnywhereIsNot` | installer/internal/oras/repository/protocol.go:42-83 | that bytes are appended only at the matching length is what makes it so: a three-step run after which a late copy, appended anywhere else, would put bytes in the wrong place |
| `Upload.PotentialBounds` | installer/internal/oras/repository/upload.go:255-263 | the pair (losses left, bytes left) as a number that pays for every attempt |
| `Upload.OffsetReporter.Set` | installer/internal/oras/repository/upload.go:239-250 | reporting an offset moves the tracker by exactly the difference while its total covers prior bytes plus the blob, backwards too |
| `UploadEnv.Env.Patch` | installer/internal/oras/repository/protocol.go:42-83 | the environment of a PATCH: refused, accepted in full or in part, its reply lost, or the process dead around it; bytes are appended only at the committed length |
| `UploadEnv.Env.SaveState` | installer/internal/oras/repository/state.go:46-66 | the environment of writing the state file: death or failure may leave the file cut short |
| `RangeHeader.RangeRoundTrip` | installer/internal/oras/repository/utils.go:19-38 | reading the range of n committed bytes gives n, for every n up to the int64 limit and exactly up to it |
| `RangeHeader.NoHeaderMeansEmpty` | installer/internal/oras/repository/utils.go:19-38 | no header text at all reads as offset 0, so an empty session has no expressible range |
| `RangeHeader.EmptyRangeIsMissing` | installer/internal/oras/repository/utils.go:19-38 | a reply without a range is an error, not offset 0 |
| `RangeHeader.ZeroZeroReadsAsOneByte` | installer/internal/oras/repository/utils.go:19-38 | 0-0 reads as one committed byte |
| `Prefetch.ChunkPrefetcher.Fetch` | installer/internal/oras/repository/upload.go:163-183 | yields exactly source[offset..offset+size], from the pending result only when that is the same range, and accounts for every temp file |
| `Prefetch.ChunkPrefetcher.FetchNext` | installer/internal/oras/repository/upload.go:163-222 | fetching chunk after chunk without failures keeps the reads of the source a gapless chain without overlap |
| `Prefetch.ChunkPrefetcher.Close` | installer/internal/oras/repository/upload.go:225-229 | no temp file is left |
| `Prefetch.ChunkPrefetcher.AtMostTwoFiles` | installer/internal/oras/repository/upload.go:134-229 | at most two chunk files exist at a time |
| `Prefetch.ChainedReadsEachByteOnce` | installer/internal/oras/repository/upload.go:134-229 | a chain of reads reads each byte of its range once and no other |
| `PrefetchRace.RaceFree` | installer/internal/oras/repository/upload.go:134-229 | in every state of every interleaving of push loop and prefetch goroutine, with copies interleaved inside a chunk: one reader of the source at most, a chunk handed out holds exactly its bytes, at most two temp files, none after close |
| `PrefetchRace.EveryStateKeepsInv` | installer/internal/oras/repository/upload.go:134-229 | the invariant behind it holds in every state of every run |
| `PrefetchRace.FetchServesItsRange` | installer/internal/oras/repository/upload.go:163-183 | the range handed out is the range of the fetch that asked for it |
| `PrefetchAtomic.EveryRunIsAtomic` | installer/internal/oras/repository/upload.go:134-229 | every run of the interleaved threads is a run of two threads whose reads take one step and yield exactly their range, steps that change nothing there aside |
| `PrefetchRace.WaitingGetsCloser` | installer/internal/oras/repository/upload.go:186-195 | while a fetch or a close waits for the pending prefetch, every step ends the wait or brings the result closer |
| `PrefetchRace.WaitingIsNeverStuck` | installer/internal/oras/repository/upload.go:186-229 | and there is always such a step that is not a failure |
| `PrefetchRace.AnyRangeCanBeFetched` | installer/internal/oras/repository/upload.go:163-183 | between two fetches any non-empty range of the source can be asked for |
| `PrefetchRace.FetchGoesOn` | installer/internal/oras/repository/upload.go:163-222 | while the push loop reads a chunk, a step is open to it that brings the chunk closer or hands it out, and the reading may fail |
| `PrefetchRace.TheRestCanBeReadAhead` | installer/internal/oras/repository/upload.go:186-222 | after a chunk exactly what is left of the source can be read ahead |
| `PrefetchRace.WithoutDrainingTheBytesMix` | installer/internal/oras/repository/upload.go:163-195 | a fetch that did not wait for the pending prefetch could hand out the wrong bytes |
| `Progress.PercentExactIffBelowLimit` | installer/internal/progress/progress.go:250-261 | a percentage of a count within its total is the true one exactly when the count is at most 92233720368547758; beyond that the int64 product wraps |
| `Progress.PercentBelowLimit` | installer/internal/progress/progress.go:250-261 | below that limit the percentage is the rounded-down share and stays within 0..100 |
| `Progress.PercentCanBeNegative` | installer/internal/progress/progress.go:250-261 | a count past the limit that shows as -99 percent |
| `Progress.DeltaIsExactIff` | installer/internal/progress/progress.go:95-104 | a change of the byte count is taken at face value exactly when it stays between zero and a positive total |
| `Progress.RollbackIsExactIff` | installer/internal/progress/progress.go:184-200 | rolling back what was added restores the event exactly when adding it was not clamped |
| `Progress.Tracker.AddBytes` | installer/internal/progress/progress.go:95-104 | the new event, unless stopped; it is reported with its true share, unless throttled |
| `Progress.Tracker.SetSnapshot` | installer/internal/progress/progress.go:117-131 | a sampled size never takes a counter backwards, counters stay in range, and the event is reported unless throttled |
| `Progress.Tracker.AddFiles` | installer/internal/progress/progress.go:106-115 | the file count with the new files, capped at its total, never lower; reported unless throttled |
| `Progress.Tracker.MoveToPhase` | installer/internal/progress/progress.go:74-84 | counters at zero under the new totals, reporting again, and reported at once |
| `Progress.Tracker.Finish` | installer/internal/progress/progress.go:133-143 | counters at their totals where there are any, one last report of 100 percent, stopped |
| `Progress.Tracker.Stop` | installer/internal/progress/progress.go:145-148 | stopped, with nothing changed, and one last report of the true share |
| `Forward.AtMostOneLive` | pkg/kube/forward.go:182-278 | in every state of every interleaving of supervisor, dying sessions and any number of Close calls: at most one forwarder runs, all use the first one's port, every reconnect asks for it, and none runs once a Close returned, even when a reconnect succeeds after stop |
| `Forward.EveryStateKeepsInv` | pkg/kube/forward.go:182-310 | the invariant behind it holds in every state of every run |
| `Forward.ReconnectedIsWatched` | pkg/kube/forward.go:182-278 | in every run a reconnect whose handshake succeeds puts the newest forwarder under watch, on the first one's port and not told to stop, and its end starts the attempts over |
| `Forward.AlwaysTheLast` | pkg/kube/forward.go:182-278 | in every state of every run the supervisor deals with the forwarder started last |
| `Forward.GivesUpAfterTenWaits` | pkg/kube/forward.go:224-252 | unless told to stop, the supervisor finishes only after exactly ten pauses that add up to 222 seconds |
| `Forward.DelaysFromFive` | pkg/kube/forward.go:224-252 | from the fifth on every pause is 32 seconds, above the declared maximum of 30 |
| `Forward.StopBoundsTheSupervisor` | pkg/kube/forward.go:182-310 | after Close is called the supervisor takes at most 42 more steps |
| `Forward.StopIsNeverStuck` | pkg/kube/forward.go:182-310 | and always has one to take, or waits for a forwarder it told to stop |
| `FileSelect.Select` | installer/internal/huggingface/files/files.go:61-73 | an order-preserving filter whose kept set depends only on the set of paths, and is what the server loads as `KeptAreTheLoaded` says |
| `FileSelect.KeptAreTheLoaded` | installer/internal/huggingface/files/files.go:61-131 | in terms of names alone: a file is kept exactly when it is in no skipped top directory, has no skipped format, and is no weight; or a root weight of the one kind that is read, consolidated safetensors before safetensors before .bin; or a weight below the root that is safetensors or has no safetensors beside it |
| `FileSelect.ExtMeans` | installer/internal/huggingface/files/files.go:109-131 | the extension of a path is one exactly when the path ends with it |
| `FileSelect.SameDirMeans` | installer/internal/huggingface/files/files.go:99-131 | two files below the root have one directory exactly when their paths agree up to the last slash |
| `FileSelect.SelectionIsStable` | installer/internal/huggingface/files/files.go:61-131 | selecting from anything between the selected files and all files gives the same selection |
| `FileSelect.SelectIsIdempotent` | installer/internal/huggingface/files/files.go:61-131 | selecting twice is selecting once, so trimming what a selected download filled removes nothing |
| `FileSelect.RootKeepsAWeight` | installer/internal/huggingface/files/files.go:81-131 | if the root has a weight file, one is kept |
| `FileSelect.ModuleKeepsAWeight` | installer/internal/huggingface/files/files.go:99-131 | if a module directory that is read has a weight file, one in that directory is kept |
| `FileSelect.RootOfPaths` | installer/internal/huggingface/files/files.go:81-97 | which weights of the root are loaded |
| `FileSelect.DirsWithSafetensors` | installer/internal/huggingface/files/files.go:99-107 | the directories with a safetensors file |
| `Cache.Downloads` | installer/internal/huggingface/huggingface.go:147-212 | over any number of runs with any pins, each stopped anywhere: a marker that names a revision of the repository always stands beside a snapshot of that name with all the files the server loads, and no snapshot holds a file its revision does not have |
| `Cache.ModelDir.DownloadRepository` | installer/internal/huggingface/huggingface.go:147-212 | one run keeps this wherever it stops. When it succeeds for a revision of the repository, the cache holds exactly the files of that revision the server loads if and only if all of those were there before trimming, and they were when this run downloaded it or the marker named it; it holds that snapshot alone, its files as they were, only directories with a kept descendant, only the blobs they link to, and a ref naming it. It asks the client for the selected files and no other. Stopped anywhere, no link dangles that did not before. Without faults it succeeds exactly when there is a model id, and the marker passes or the download succeeds, and there is something the ref can name |
| `Cache.ModelDir.Provide` | installer/internal/huggingface/huggingface.go:148-209 | the same up to the trimming: the revision is there already or is downloaded and marked |
| `Cache.ModelDir.Fill` | installer/internal/huggingface/huggingface.go:162-209 | list, plan, download, marker: on success a revision of the repository has all the files the server loads, and the marker names it |
| `CacheDisk.NormalizeRevisionMeans` | installer/internal/huggingface/huggingface.go:428-434 | a pin with or without spaces around it is itself; only a blank one becomes main |
| `CacheDisk.VouchesIffItNames` | installer/internal/huggingface/cache/cache.go:125-138 | over all caches with a given marker text that pass for a revision: trimming leaves exactly the files the server loads of that revision if and only if the text is not blank, or the server loads none |
| `CacheDisk.AShortDownloadPasses` | installer/internal/huggingface/cache/cache.go:125-138 | the way to the failure: under a blank marker, any download of a newly pinned revision that is cut short with a selected file missing passes for complete from then on, and trims to something else |
| `CacheDisk.TwoCutsAndAnIncompleteModelPasses` | installer/internal/huggingface/cache/cache.go:125-151 | the same from an empty cache, where the blank marker is left by a write that was cut short |
| `CacheDisk.FetchKeepsSound` | installer/internal/huggingface/huggingface.go:190-198 | a download, whole or cut short, leaves every named marker right |
| `CacheDisk.CompleteKeepsSound` | installer/internal/huggingface/cache/cache.go:141-151 | so does writing the marker after a whole download, also when the write is cut short |
| `CacheDisk.TrimKeepsSound` | installer/internal/huggingface/huggingface.go:344-372 | so does trimming, wherever it stops |
| `Cache.ModelDir.TrimCache` | installer/internal/huggingface/huggingface.go:344-372 | the same for the trimming alone; stopped at any step it has only removed what no remaining link needs |
| `Cache.ModelDir.RemoveUnselected` | installer/internal/huggingface/cache/cache.go:212-268 | of the pinned snapshot the selected files stay, with the directories that lead to them; every other snapshot and all blobs are untouched |
| `Cache.ModelDir.PruneOtherRevisions` | installer/internal/huggingface/cache/cache.go:157-204 | the pinned snapshot and the blobs it links to are what is left; nothing is removed when it is missing |
| `Cache.ModelDir.EnsureRef` | installer/internal/huggingface/cache/cache.go:57-91 | the ref names the pinned snapshot when that exists, stays when it does not and there is one, and else names the first snapshot |
| `Cache.ModelDir.Prepare` | installer/internal/huggingface/cache/cache.go:97-138 | a download is skipped exactly when the marker names this revision, or is blank and there is a snapshot of this name; otherwise nothing has changed |
| `Cache.ModelDir.Complete` | installer/internal/huggingface/cache/cache.go:141-151 | the marker is written last, so a new marker implies the ref; what a failed write leaves is the old marker or a beginning of the revision, blank included |
| `CacheDisk.TrimmedKeepsLinks` | installer/internal/huggingface/cache/cache.go:157-292 | a trimmed cache has no dangling link if the untrimmed one had none |
| `CacheDisk.TrimmedTransitive` | installer/internal/huggingface/cache/cache.go:157-292 | interrupted trims compose |
| `CacheDisk.TrimmedFilesAreTheSelectedOnes` | installer/internal/huggingface/cache/cache.go:212-268 | files of one revision trim to exactly the files the server loads of it if and only if those were all there: a whole download, an exact one and anything in between trim to the same |
| `CacheDisk.RemovableIffUnused` | installer/internal/huggingface/cache/cache.go:260-265 | going through the directories children first, the next is empty exactly when no kept file is below it |
| `ChoiceLines.OrderPermutes` | installer/internal/ui/model/choice.go:209-247 | whatever is chosen, the display order lists every row exactly once |
| `ChoiceLines.UnderItsGroup` | installer/internal/ui/model/choice.go:209-235 | every row is shown under the header of its own option, and only a group without rows has a placeholder |
| `ChoiceLines.LinesOf` | installer/internal/ui/model/choice.go:209-235 | the display lines, group by group |
| `ChoiceLines.OrderOf` | installer/internal/ui/model/choice.go:238-247 | the rows in display order |
| `ChoiceLines.PermutationLength` | installer/internal/ui/model/choice.go:249-257 | so the position after the last row is Continue |
| `Choice.Answer` | installer/internal/ui/model/choice.go:118-320 | for every sequence of keys: screen follows screen as `Update` says of each key, from the start until a key submits or cancels or none is left; what is submitted is what was chosen then, an offered option for every row, and the check found nothing that blocks it |
| `Choice.ChoiceModel.Update` | installer/internal/ui/model/choice.go:261-320 | every key keeps the prompt valid, leaves the focused line inside the window, and makes of the screen exactly what its kind does: the cursor moves by its distance in display order clamped to the ends; options change as chosen; the selection begins at the cursor, goes on at its anchor while moving, and ends with a choice or Cancel; Open opens a dropdown exactly when the targets have an option in common, or submits exactly when nothing blocks, or says why not; an open dropdown moves around its ends, closes, or sets every target |
| `Choice.ChoiceModel.UpdateRows` | installer/internal/ui/model/choice.go:271-319 | the same with the dropdown closed |
| `Choice.ChoiceModel.UpdateDropdown` | installer/internal/ui/model/choice.go:322-342 | the same with it open: cursor around its ends or to them; every target gets the chosen option, no other row changes and the selection ends, except that an empty option changes nothing |
| `Choice.ChoiceModel.OpenDropdown` | installer/internal/ui/model/choice.go:429-469 | opens exactly when the targets have an option in common, lists exactly those in the order of the groups or of the target displayed first, and starts on the focused row's own |
| `Choice.ChoiceModel.TargetRows` | installer/internal/ui/model/choice.go:361-379 | exactly the rows between anchor and cursor as displayed, or the focused row, or none on Continue |
| `Choice.TargetsAre` | installer/internal/ui/model/choice.go:361-379 | the slice of the display order that is taken is that set |
| `Choice.ChoiceModel.Apply` | installer/internal/ui/model/choice.go:383-395 | the targets that offer the option get it, every other row keeps its own, and the selection ends |
| `Choice.ChoiceModel.CycleOption` | installer/internal/ui/model/choice.go:397-404 | the next or previous option of the focused row, around the ends |
| `Choice.ChoiceModel.MoveCursor` | installer/internal/ui/model/choice.go:344-357 | position plus delta in display order, clamped |
| `Choice.ChoiceModel.ToggleVisual` | installer/internal/ui/model/choice.go:414-425 | a new selection is exactly the focused row, and is anchored there |
| `Choice.ChoiceModel.ScrollToCursor` | installer/internal/ui/model/choice.go:523-552 | the focused line is in the window for any window of at least one line |
| `Choice.ScrolledTo` | installer/internal/ui/model/choice.go:537-551 | the window moves only when it has to, and takes a group header along where two lines fit |
| `Choice.ChoiceModel.constructor` | installer/internal/ui/model/choice.go:118-141 | every row starts on its current option when it offers that; the cursor is at the top; and exactly when the first screen shows it |
| `Choice.FirstScreenIff` | installer/internal/ui/model/choice.go:118-141 | the first screen, drawn before any key, shows the focused line exactly when there are no groups; or there are rows, and the two lines of each empty group above the first used one, that one's header and its first row fit; or there are no rows, and all lines fit |
| `Choice.FirstScreenCanMissTheCursor` | installer/internal/ui/model/choice.go:483-493 | four lines of two groups where there is room for three: two are shown, and the focused row is the fourth |
| `ChoiceLines.FirstRowLine` | installer/internal/ui/model/choice.go:209-235 | above the first row there are two lines for every group that no row has, and one header |
| `NodePools.CheckAssignment` | installer/internal/workflow/stages/nodes/nodes.go:397-468 | nothing blocks exactly when every model has a pool, all of one GPU product and each fitting, and some pool is for CPU work; otherwise the first model in trouble is named with its trouble, and the group headers show who is served |
| `NodePools.NothingBlocksIffAcceptable` | installer/internal/workflow/stages/nodes/nodes.go:397-468 | the same as a function, which is the check the prompt carries |
| `NodePools.ExplainsOnce` | installer/internal/workflow/stages/nodes/nodes.go:415-449 | there is one problem, with one pool to blame, that a model can have |
| `NodePools.ProblemOf` | installer/internal/workflow/stages/nodes/nodes.go:415-449 | which of the four problems a model has, and the first pool to blame |
| `NodePools.FitsMeansEveryNode` | installer/internal/workflow/stages/nodes/nodes.go:284-300 | a pool fits exactly when each of its nodes has the GPUs for a pod |
| `NodePools.GpuProducts` | installer/internal/workflow/stages/nodes/nodes.go:481-500 | each product once, in order; at most one exactly when the pools share one |
| `NodePools.OneProductMeans` | installer/internal/workflow/stages/nodes/nodes.go:481-500 | pools share a product exactly when the product labels of their GPU nodes agree, where a missing label agrees with a missing one and with the name it is shown under |
| `NodePools.PoolOptionsOf` | installer/internal/workflow/stages/nodes/nodes.go:304-313 | the fitting models, CPU work and nothing |
| `NodePools.AssignmentOf` | installer/internal/workflow/stages/nodes/nodes.go:227-247 | every option's pools under its own model, in order, and nothing else |
| `NodePools.AcceptedAssignment` | installer/internal/workflow/stages/nodes/nodes.go:227-247 | an accepted assignment gives every model some pools of one GPU product whose every node has enough GPUs, and no pool to two workloads |
| `AssignmentPrompt.AssignPools` | installer/internal/workflow/stages/nodes/nodes.go:140-160 | from the first key press to the assignment: the prompt is the one for these pools and models, the keys are answered as `Choice.Answer` says with what checkAssignment blocks as the check behind Continue, and what is submitted is acceptable, offered and assigned |
| `AssignmentPrompt.PromptFor` | installer/internal/workflow/stages/nodes/nodes.go:249-280 | with distinct slugs the prompt's groups are one per option and cover every row, which is what the prompt needs |
| `AssignmentPrompt.RerunStartsWhereItLeft` | installer/internal/workflow/stages/nodes/nodes.go:249-280 | over the same pools and models a rerun starts from exactly the submitted values |
| `NodePlacement.PlaceModel` | installer/internal/workflow/stages/nodes/nodes.go:79-160 | the whole way: of the nodes with a single pool label, the affinity built from what the operator submitted admits exactly those of the model's pools, each of them has the GPUs for a pod, and their product labels agree; without an assignment every node is reserved or the keys submitted nothing |
| `NodePlacement.AdmittedServes` | pkg/iac/serving/internal/config/naming.go:142-168 | admitted is the same as listed in one of the model's pools |
| `NodePlacement.ServingNodeHasTheGPUs` | installer/internal/workflow/stages/nodes/nodes.go:284-300 | every node of a model's pools has the GPUs for a pod |
| `NodePlacement.ServingNodesShareAProduct` | installer/internal/workflow/stages/nodes/nodes.go:426-431 | the nodes of a model's pools have one GPU product, and no unlabelled GPU node is among labelled ones |
| `NodePlacement.ServesOneWorkload` | installer/internal/workflow/stages/nodes/nodes.go:227-247 | a node serves one workload |
| `AssignmentRerun.StoredThenReloaded` | installer/internal/workflow/stages/nodes/nodes.go:318-356 | storing a submitted assignment and reloading it preselects for every pool the option it was submitted with |
| `AssignmentRerun.InitialOption` | installer/internal/workflow/stages/nodes/nodes.go:318-356 | the first model the pool keeps, by stored assignment or old node labels; else CPU work if it was stored so, and on a first run if its nodes carry the old CPU label, or it has no GPU and some node is no control plane; else nothing; always an option the pool offers |
| `AssignmentRerun.SameAssignment` | installer/internal/workflow/stages/nodes/nodes.go:204-216 | equal exactly when both agree per workload up to the order of pools and empty lists, for pool keys without an equals sign, as label keys are |
| `AssignmentRerun.Normalize` | installer/internal/workflow/stages/nodes/nodes.go:205-213 | what is compared |
| `PoolListing.ListPools` | installer/internal/workflow/stages/nodes/nodes.go:79-123 | every node that is not reserved is in exactly one pool, its own, nodes in order; pools by name and then by label; an error exactly when all are reserved |
| `PoolListing.AdmittedAsListedIff` | installer/internal/placement/placement.go:40-52 | for a node on offer: whatever pools are chosen their affinity admits it exactly when one of its pools is chosen, if and only if the node carries its own pool's label and no other listed pool's |
| `PoolListing.AdmittedIffInAChosenPool` | installer/internal/placement/placement.go:40-52 | the sufficient half, for given chosen pools |
| `PoolListing.TwoLabelsOneHome` | installer/internal/placement/placement.go:40-52 | a node with two pool labels that is admitted through a pool it is not listed under |
| `Placement.PoolOf` | installer/internal/placement/placement.go:40-52 | the first pool label that is set, else the node itself |
| `Placement.Terms` | installer/internal/placement/placement.go:83-103 | one term per pool label, labels and names in order |
| `Placement.TermsAreStable` | installer/internal/placement/placement.go:80-103 | the terms do not depend on the order pools were picked in |
| `Placement.TermsMeanPools` | installer/internal/placement/placement.go:83-103 | some term admits a node exactly when the node carries the label of one of the pools |
| `Placement.PlacementTerms` | pkg/iac/serving/internal/config/naming.go:106-132 | one alternative per placement term, or the node selector as one conjunction |
| `Placement.NodeAffinity` | pkg/iac/serving/internal/config/naming.go:142-168 | which nodes the affinity admits, for placement terms, for a node selector, and for neither |
| `Placement.AffinityOfPools` | pkg/iac/serving/internal/config/naming.go:106-168 | end to end: the affinity of some pools admits a node exactly when it carries the key=name label of one of them |
| `StackConfig.Resolve` | pkg/stack/config/resolve.go:13-67 | on success the result is what some final values write that settle every entry: each entry had its turn exactly when it is active on the final values; those values are the only ones when answers depend only on questions; on failure of a valid definition there are none; and a failure is an invalid definition, an active entry that stops the run, or a check that fails on the final values; the operator is asked once for each entry that needs it, in the order of the entries |
| `StackConfig.EachEntry` | pkg/stack/config/resolve.go:21-56 | of a resolved configuration, in terms of the entries: one without a condition had its turn, one with a condition exactly when the entry it names ended with the expected value; then its value is the one given, else what the operator answered to its own prompt, else the default, and is written under namespace and key as a text that reads back as the value; a required one is not blank; without its turn nothing is written |
| `StackConfig.OutcomeMeans` | pkg/stack/config/entry.go:57-110 | where the value of an entry comes from, that a required one is not blank, and that a text that has a rule keeps it |
| `StackConfig.StopsIff` | pkg/stack/config/resolve.go:26-52 | an entry stops the run exactly when it cannot be resolved, is required and unset or blank, breaks its rule, or cannot be encoded |
| `StackConfig.AskFails` | pkg/stack/config/entry.go:82-110 | asking fails only for a default that cannot be encoded, an unknown kind of prompt, or an operator who does not answer |
| `StackConfig.ValidMeans` | pkg/stack/config/config.go:32-60 | what a valid definition is, entry by entry |
| `StackConfig.OrderDoesNotMatter` | pkg/stack/config/resolve.go:13-67 | two valid declaration orders of the same entries resolve to the same configuration, or both fail, when answers depend only on the questions |
| `StackConfig.RequiredEndsNonEmpty` | pkg/stack/config/resolve.go:21-45 | an active required entry ends non-empty and written; an inactive one writes nothing; a text that has a rule keeps it |
| `StackConfig.Precedence` | pkg/stack/config/entry.go:57-80 | the value given comes before the answer, the answer before the default, and without a prompter only a prompt fails |
| `StackConfig.AnswersAreTrimmed` | pkg/stack/config/entry.go:82-110 | a typed answer has no spaces around it, unless it is a secret, which is kept as typed |
| `StackConfig.Validate` | pkg/stack/config/config.go:32-60 | accepts exactly the definitions with a namespace, well-formed entries, distinct keys and dependencies declared earlier |
| `StackConfig.StaysSettled` | pkg/stack/config/policy.go:15-43 | setting a later key changes the activity of no earlier entry |
| `StackConfig.AgreeNext` | pkg/stack/config/resolve.go:21-56 | turn by turn the run agrees with every possible solution |
| `StackConfig.WrittenIffSet` | pkg/stack/config/config.go:28-30 | a key is written exactly when its entry has a value |
| `Workflow.RunStage` | installer/internal/workflow/workflow.go:59-82 | whatever steps, recoveries and cleanups do, a stage does exactly what its protocol says for each condition, run, recovery answer and cleanup, and returns what the protocol ends with; each condition, run, recovery and cleanup of that word is one call into the stage, in that order, and there are no others |
| `Workflow.EachEventFollows` | installer/internal/workflow/workflow.go:59-191 | for every run of a stage and each thing it is told, what it does next: after retry the same step, after continue the next one or the report, after restart a cleanup and, if that succeeded, a new begin; after a failing, unknown or missing recovery the last cleanup |
| `Workflow.ReturnsWhatItEndsWith` | installer/internal/workflow/workflow.go:59-191 | what a finished stage returns, read off its last events: the step's own error, the recovery's, the unknown action, the cleanup's or nothing |
| `Workflow.BeginsOncePerRestart` | installer/internal/workflow/workflow.go:165-187 | a stage begins once, and once more for every restart whose cleanup succeeded |
| `Workflow.Execute` | installer/internal/workflow/workflow.go:49-57 | a stage starts only after every earlier one ended without an error; the calls are those of the stages, one after the other |
| `Workflow.EndedInOrder` | installer/internal/workflow/workflow.go:123-147 | success means that since the latest begin each step ended once, in order |
| `Workflow.CleanedUpOnce` | installer/internal/workflow/workflow.go:59-119 | every begin is cleaned up before the next begin or the return, exactly once, but for a restart whose cleanup failed, which is cleaned up twice |
| `Workflow.FailureSurvives` | installer/internal/workflow/workflow.go:59-82 | a failure on the way out is what the stage returns, whatever its cleanup returns |
| `Workflow.CleanupErrorMasksNothing` | installer/internal/workflow/workflow.go:66-73 | a cleanup error is returned only when no step failure is on the way out |
| `Workflow.DoneAndStillFailed` | installer/internal/workflow/workflow.go:59-82 | for every finished stage: one that was reported as done ends with an error exactly when the cleanup right after the report failed, and the error is that cleanup's; one that was not always ends with an error |
| `Workflow.Runner.RunCurrentStep` | installer/internal/workflow/workflow.go:127-147 | after an attempt, skipped or run, the protocol is open at the runner's step index, or lost with exactly the failure that is returned |
| `Workflow.Runner.RecoverStep` | installer/internal/workflow/workflow.go:149-191 | continue opens the next step, retry the same one, restart the first one behind a cleanup; a failing, unknown or missing recovery is lost with its own failure |
| `ClusterGuard.Deploy` | installer/internal/iac/iac.go:105-122 | the guard speaks first, as in `CheckClusterTarget`; when it passes, up or destroy is attempted, up only behind a destroy that succeeded when destroying first; when it does not, nothing is |
| `ClusterGuard.DestroyOnly` | installer/internal/iac/iac.go:127-139 | the same for a destroy alone |
| `ClusterGuard.CheckClusterTarget` | installer/internal/iac/cluster_guard.go:86-154 | passes exactly when no live provider points at another known server, no provider's objects contradict the state, and every provider it cannot settle and every pending deletion was answered with Continue; each refusal has its own error, and nothing is asked before or after it that should not be |
| `ClusterGuard.VerifyByObjectUid` | installer/internal/iac/cluster_guard.go:159-205 | fails exactly when some provider's objects are elsewhere; else returns exactly those it could not settle |
| `ClusterGuard.SameClusterMeans` | installer/internal/iac/cluster_guard.go:321-355 | two contexts differ exactly when they point at two known API servers that differ, so a renamed context is no move; they are the same exactly when they are one context or point at one known server |
| `ClusterGuard.Inspect` | installer/internal/iac/cluster_guard.go:248-309 | exactly the mismatched and the unestablished live providers, and the pending deletions |
| `ClusterGuard.Confirm` | installer/internal/iac/cluster_guard.go:209-231 | only Continue goes on; no prompt is a refusal |
| `ClusterGuard.ProviderObjects` | installer/internal/iac/cluster_uid.go:65-87 | the live objects of a provider whose UID was recorded, in the order of the state |
| `ClusterGuard.ObjectsOfAre` | installer/internal/iac/cluster_uid.go:65-87 | an object is among them exactly when a live resource of the provider recorded it completely |
| `ClusterGuard.VerifyByUid` | installer/internal/iac/cluster_uid.go:91-126 | one match among the first twenty is proof of the same cluster; without any, one contradiction is proof of another |
| `ClusterGuard.VerdictIgnoresOrder` | installer/internal/iac/cluster_uid.go:91-126 | up to twenty objects the verdict does not depend on their order |
| `ClusterGuard.VerdictIgnoresOrderIff` | installer/internal/iac/cluster_uid.go:91-126 | the verdict on n objects is independent of their order exactly when n is at most twenty |
| `ClusterGuard.TheTwentyFirstIsNotRead` | installer/internal/iac/cluster_uid.go:91-94 | for every longer list a match can be put where it is never read |
| `ClusterGuard.WithLockRetry` | installer/internal/iac/iac.go:222-263 | one attempt, or two with one cancelled lock between them, and the result of the last |
| `GraphSize.Size` | installer/internal/oras/uploader/uploader.go:220-258 | on every finite graph, cyclic or shared, terminates with the number and total size of the distinct digests reachable from the root; fails exactly when one of them cannot be read |
| `GraphSize.Walker.Walk` | installer/internal/oras/uploader/uploader.go:226-251 | what one descent adds is reachable, and leads only to what has been seen |
| `GraphSize.ClosedHoldsReachable` | installer/internal/oras/uploader/uploader.go:220-258 | a set closed under successors holds all that is reachable |
| `GraphSize.TotalsAgree` | installer/internal/oras/uploader/uploader.go:220-258 | the total is one of the set of digests, not of the order they were met in |
| `ShellQuote.CommandString` | installer/internal/preloader/remote/client.go:22-33 | the shell splits the command line back into exactly the program and its arguments, for all strings |
| `ShellQuote.SplitsBack` | installer/internal/preloader/remote/client.go:22-37 | the same for any list of parts |
| `ShellQuote.EscapeReadsBack` | installer/internal/preloader/remote/client.go:35-37 | inside the quotes the shell reads back the string, whatever follows |
| `BuildEstimate.EstimateBuildWorkingSpace` | installer/internal/oras/uploader/model_upload.go:291-321 | the estimate, or an error exactly when a directory is missing |
| `BuildEstimate.EnoughIffFewTrees` | installer/internal/oras/uploader/model_upload.go:283-321 | for any n directory trees, whatever is in them, the estimate covers the worst gzip can make of their tars exactly when n is at most 137248, for a compressor that stores incompressible data in blocks of full length |
| `BuildEstimate.EstimateIsEnough` | installer/internal/oras/uploader/model_upload.go:283-321 | the sufficient half |
| `BuildEstimate.TooManySmallTrees` | installer/internal/oras/uploader/model_upload.go:283-321 | for every greater n the smallest trees outgrow it |
| `BuildEstimate.RoundUpIsLeast` | installer/internal/oras/uploader/model_upload.go:323-328 | the least non-negative multiple of the block size that is not below the value |

## Left out

- Upload.Runs: requests take effect before the call returns or not at all, which is what lets a session hold exactly the offset. For a PATCH that takes effect later, or again when the HTTP client re-sends it, LatePatches states what is left: a prefix, at least as long as the client was told.
- UploadEnv.Env.Patch: excludes effects after a later status request, as above; nor are the headers and status codes in protocol.go modelled; errors are "session unknown" or not.
- Upload.OffsetReporter.Set: the tracker's counters are unbounded integers; only the product in the percentage wraps.
- Prefetch.ChunkPrefetcher.Close: removing a temp file is taken to succeed, while the code ignores an error there.
- PrefetchRace.RaceFree: removing a temp file is taken to succeed, while the code ignores an error there; files are what a copy has written so far; a read that returns fewer bytes is a shorter copy, and the operating system's buffers are not modelled.
- Progress.Tracker.AddBytes: throttling of reports by wall-clock time, `Poll` and the counting reader are not modelled.
- Forward.AtMostOneLive: the SPDY connection, its ready channel and its error text are events that may happen or not; log output is left out. The supervisor's own context never ends by itself, because it is detached from the caller's.
- FileSelect.Select: `path.Ext` and `path.Dir` are modelled for clean relative paths, as the Hugging Face API lists them; the stability lemmas say so.
- Cache.ModelDir.PruneOtherRevisions: the count of freed bytes it returns is left out.
- Cache.ModelDir.RemoveUnselected: the list of removed files it returns is left out; a directory whose removal fails is skipped, as in the code, and then the exact directories are not promised.
- Cache.ModelDir.DownloadRepository: what the Hugging Face CLI does to the directory is an argument. It is taken to add files of the revision to the snapshot of that revision and to no other, to succeed only with all the files it was asked for, and to leave no dangling link; for a pinned commit the metadata is taken to list that commit's files. A pin that is a branch names no snapshot, and then nothing is promised about files. A storage check that fails is a download that failed before it changed anything.
- CacheDisk.CompleteKeepsSound: snapshot names are commits of one length, so that a beginning of the pinned revision names no other snapshot.
- CacheDisk.AShortDownloadPasses: what an older installer wrote into the marker is not part of this model; blank is what the code takes it for.
- Choice.ChoiceModel.Update: how many lines are shown is an argument, any number from one up; rendering, notices for the detail footer and the help text are left out, and the prompt is one object that changes instead of one that is copied per key.
- ChoiceLines.OrderPermutes: needs one group per option and every row option among them, as the prompt's documentation asks of its callers; every row has at least one option.
- NodePools.CheckAssignment: node counts in the headers are left out, and the message about different GPU types does not list them; that a problem has a message is proved, its wording is not.
- LatePatches.LateIsSafe: the client is what the push loop comes to, any sequence of sends from an offset it was told and a PUT once it was told the whole length; its retries, state file and deaths are those of Upload.Runs.
- NodePools.GpuProducts: a node whose GPU product is unknown counts as one product of its own, as in the code.
- AssignmentRerun.StoredThenReloaded: the JSON in the ConfigMap is taken to round-trip; slugs are distinct.
- PoolListing.ListPools: whether a taint reserves a node is a field of the node.
- StackConfig.Resolve: answers that are lists come with their JSON; `reflect.DeepEqual` is equality of values; errors are kinds without key names.
- ClusterGuard.VerifyByUid: live objects answer the same way each time within a check; the thirty-second deadline of the lookups is not modelled.
- ClusterGuard.Deploy: opening the stack and writing its configuration, which happen before the guard, are left out, as are the log lines and the target names of pending deletions.
- GraphSize.Size: sizes are unbounded integers, and a digest has one size and one list of successors. The code reads successors by digest and media type; a digest that is met under two media types could have two lists, and then the total may depend on which is met first.
- ShellQuote.CommandString: the shell's reading covers quoting and word splitting; unquoted operators, expansions and patterns make it give up, and none occur.
- BuildEstimate.EnoughIffFewTrees: one header block per entry, no extended headers; sizes are unbounded integers. The worst case is that of the format, RFC 1951 with stored blocks of 65535 bytes; Go's writer stores smaller blocks and ends with an empty one, so that 137248 is the bound of the format and not of the writer.
- The SSH preloader, Pulumi programs and charts, DNS and certificate setup, the log writer of the terminal interface, catalogue loading and the changelog scripts are not modelled.
