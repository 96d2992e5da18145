# Leyline sync: model and proofs

Leyline keeps plain files in step through one server per vault and any number of clients. This project models
its two hard cores in Dafny and proves what they are for.

* **The push protocol.** A client pushes batches of ops (write, delete, rename), each declaring the state it
  expects. The server checks a batch against HEAD overlaid by the client's own stage, logs it and acks it; later it
  commits the stage blindly and broadcasts it. Clients rebase what they have staged over what comes in and move
  acked ops from one log to the next.
* **The three-way merge.** Two edit lists over one base are merged, or split into conflict regions and edits that
  stay clear of them, and rendered into one text.

Every server handler runs under one lock, so it is one atomic step. `Vaults.VaultState` holds the server's
fields and its methods are proved to be the step functions `PushStep`, `CommitStep`, `FlushStep` and `Hydrated`; the
laws over whole runs are about those functions. The same pattern is used for every part that the source updates in
place: a class or loop proved equal to a specification function, and laws about the function.

## Files

| files | part |
|---|---|
| `Hunks`, `ComputeHunks`, `ThreeWay`, `Partition`, `PartitionLaws`, `PartitionUnique`, `Conflicts`, `Traces`, `Texts`, `Merging`, `MergedText`, `Callout` | three-way merge and rendering, down to the returned text |
| `Protocol`, `Stage`, `Wal`, `IdemCache`, `Sizes`, `Limiter` | ops and the server's parts |
| `Vault`, `Faithfulness`, `VaultLaws`, `Recovery`, `Runs`, `Answers` | the server as a state machine, its crashes and its runs |
| `Paths`, `Classify`, `Rebase`, `Effects`, `Rerun`, `CatchupRerun`, `Engine` | the client's decisions and what they do |
| `ClientLogs`, `Drain`, `Manifest`, `Collision` | the client's logs, pushing them, its view, bootstrap collisions |
| `Convergence`, `Targets` | server and clients together |
| `Seqs`, `Sorting`, `Wrappers` | helpers |

Hashes are injective (`HashOf`). A path's state is an `Option<Hash>`, which stands for the source's pair of hash and
presence flag. The op payload encoding, the checksum, the line diff, the conflict and notice writers and the policy
gates of a push are parameters. A diff library with the assumed properties exists: `Merging.WholeDiffIsGood`.

## Where the code and its comments part, or a promise fails

Each of these is stated exactly, as an if-and-only-if with a condition on the input or as a concrete run.

* A whole batch is checked against the stage as it was before the batch (`handlers.go:391`). Two ops on one path in
  one batch can both pass and the second lands on content it did not expect: `Faithfulness.TwiceInOneBatch`,
  `Faithfulness.RenamedInOneBatch`. The check is enough exactly when the batch, read alone, declares at each op what
  its earlier ops leave there: `Faithfulness.BatchCheckIff`, `VaultLaws.PushCheckIff`, `Runs.FaithfulRunIff`.
* The target of a rename is never checked, and the client looks a staged rename up by its source. So a rename can
  destroy content its client never saw, exactly when HEAD held such content, where the rename lands, at the moment
  it was staged: `Targets.DestroysIff`, `Targets.RenameFateIff`, `Targets.IncomingTargetIff`.
* A failed append to the log (`handlers.go:447-452`) leaves its op in the stage and not in the log; a restart before
  the next commit loses it: `Recovery.FailedAppendBreaksLog`.
* A crash between the store's commit and the truncation of the log leaves a stage in both. Replaying it is harmless
  exactly when the stage left every path it takes a state from as it was: always for writes and deletes, and for
  renames of what the stage itself wrote, not for a lone rename: `Faithfulness.ReapplyIff`,
  `Recovery.CrashAfterCommitIff`, `Faithfulness.RenameTwice`. The store can also refuse the replay, as it fails a
  rename, and where index removal is strict a delete, of a missing path: `Faithfulness.StoreReplayIff` says when
  it does not, and `Faithfulness.StrictReplayIff` says it for writes and deletes alone.
* A crash between `TruncateClient` and `Persist` loses a client's mark unless the snapshot already had it:
  `Recovery.TruncateCrashIff`. No other step of a run does: `Recovery.CrashMarkIff`, `Runs.ExactlyOnce`.
* An entry above the replay cap, or one appended behind a torn frame, hides everything behind it:
  `Wal.RoundTripIff`, `Wal.TornThenMoreIff`, `Wal.TornTailSwallows`, `Wal.TornHeaderSwallows`. `TruncateClient`
  repairs the file (`Wal.CompactedIsClean`); opening it does not.
* "The cap is precise" (`handlers.go:345-350`) leaves out what is already staged: the check lets a batch break a cap
  exactly when the batch leaves less room than the staged ops need: `Sizes.CapCheckOnOwnPaths`,
  `Sizes.StagedOpsAreNotCounted`.
* "The catchup delete already advances the manifest tombstone" (`classify.go:180-181`): it does not, because a no-op
  decision leaves the manifest alone: `Rebasing.ManifestTracksIff`, `Rebasing.StraysIff`.
* A staged rename met by a write or a delete becomes a write without data, which the server rejects:
  `Classification.ReplacementValidIff`. A staged write met by a rename of its path is re-sent as a creation of a path
  that exists: `Classification.RenameRebaseIff`.
* When both sides rename one file the incoming rename is meant to win (`classify.go:252-265`). It does in the manifest
  and the bases; on disk the file has left its old name and keeps the client's new one: `Effects.RenameOverRenameIff`.
* When an incoming write is applied as it is and the staged edit goes to a sidecar, the sidecar is staged but not
  written to disk. That happens exactly when either write is binary or holds a NUL, or when the two conflict in a
  sidecar format: `Rebasing.EditOnDiskIff`.
* "Disk writes are idempotent" on a replayed catchup (`engine.go:626-634`) has three exceptions: a write over an edit
  whose text on disk still ends in an empty line, which each replay shortens; a deletion over an edit, which adds its
  notice once more; and a deletion over a deletion, recorded only the second time: `CatchupReruns.CatchupRerunIff`,
  `Reruns.RerunIff`, `MergedText.MergeAgainIff`, `Reruns.EachReplayTrims`.
* `NextSeq` is written after the rows, not before each (`staged.go:35-36`), so a crash in between gives a number out
  twice: `ClientLogs.CrashReusesNumberIff`, `ClientLogs.ReusedNumberCollides`.
* The trim after an ack also promotes frozen ops that were never pushed: `Draining.FrozenMovesIff`.
* An op is taken for one's own echo by author and number alone, so two devices sharing a keyname can swallow each
  other's ops: `Engines.SwallowedIff`.
* `IsEmpty` is meant to tell a vault whose files are all gone from a first run. No sequence of puts and deletes defeats
  it, as compaction on append needs a live path. The exported `Compact`, which only tests call, does exactly
  when nothing is live and something was recorded: `Manifests.LooksNewIff`, `Manifests.Manifest.Compact`.
* The diff runs on joined lines, where a last empty line does not show, and the merge then ends its text in at most
  one newline more. A change made by one side alone comes back as it was written exactly when it is a lone
  newline, or does not end in an empty line and ends in a newline if the base does: `Merging.LoneChangeIff`,
  `Merging.SideTextIff`.

## Model

| member | source | states |
|---|---|---|
| Hunks.OverlapIsFootprint | pkg/merge/three_way.go:193-208 | Two ranges overlap exactly when they share a point, a range holding its cells and inner boundaries and an insertion its one boundary |
| Hunks.Trichotomy | pkg/merge/three_way.go:193-208 | Two ranges either overlap or lie in exactly one order |
| Hunks.SortedIs | pkg/merge/three_way.go:216-221 | Sorting by (start, end) has no ties that matter: any sorted rearrangement of strictly ordered hunks is that order |
| ComputeHunks.WalkDiff | pkg/merge/three_way.go:134-158 | The walk yields one raw hunk per edit chunk at its base position |
| ComputeHunks.FoldNeighbours | pkg/merge/three_way.go:160-177 | The folding pass joins a delete and an insert at one place, in either order, and nothing else |
| ComputeHunks.ComputeHunks | pkg/merge/three_way.go:124-178 | Applied to the base the hunks rebuild the modified text for any diff; a normalised diff gives in-order hunks a line apart |
| ComputeHunks.FoldKeepsMeaning | pkg/merge/three_way.go:160-177 | Folding does not change what the hunks do to the base |
| ComputeHunks.RawRebuilds | pkg/merge/three_way.go:134-158 | Unfolded hunks already rebuild the modified text, and leave base lines behind the diff in place |
| ComputeHunks.FoldSeparates | pkg/merge/three_way.go:160-177 | After folding a normalised diff, consecutive hunks are at least one untouched line apart |
| ThreeWay.HasOverlap | pkg/merge/three_way.go:182-191 | True exactly when some server hunk overlaps some client hunk |
| ThreeWay.ApplyHunks | pkg/merge/three_way.go:213-238 | The output is the base with both sides' hunks replaced in one common order |
| ThreeWay.MergeDiamond | pkg/merge/three_way.go:210-238 | Merging both sides is applying one and then the other shifted by the first's growth, in either order |
| ThreeWay.MergeSymmetric | pkg/merge/three_way.go:210-238 | The merged edit list does not depend on which side is called server |
| Partition.MarkOverlaps | pkg/merge/three_way.go:260-270 | The two flag arrays mark exactly the hunks that overlap some hunk of the other side |
| Partition.GrowPass | pkg/merge/three_way.go:331-354 | One pass takes in every unused hunk that overlaps the growing region, and says truly whether it took any |
| Partition.GrowRegion | pkg/merge/three_way.go:317-355 | The closure loop ends, and its region is the hull and the side lines of one group of a single sweep |
| Partition.GroupRegions | pkg/merge/three_way.go:315-361 | The repeated passes find exactly the groups of one sweep over the sorted pool |
| Conflicts.PartitionHunks | pkg/merge/three_way.go:247-366 | Each returned conflict carries, for each side, the lines of exactly that side's hunks that overlap it; conflicts and kept hunks read in base order give all of each side's new lines; both come in base order |
| Conflicts.ConflictsHold | pkg/merge/three_way.go:317-361 | Each conflict carries exactly the lines of the hunks that overlap its range, in order |
| Conflicts.ConflictsCarry | pkg/merge/three_way.go:247-366 | Nothing of either side is missing from conflicts and kept hunks together, and nothing is doubled |
| PartitionLaws.HullFootprint | pkg/merge/three_way.go:330-355 | A region covers exactly what its hunks cover: growing claims no untouched base |
| PartitionLaws.GroupsTidy | pkg/merge/three_way.go:313-364 | Every pooled hunk is in exactly one region, in order, and regions lie strictly one after the other within the base |
| PartitionLaws.RegionsHaveBothSides | pkg/merge/three_way.go:239-247 | Every region holds hunks of both sides |
| PartitionLaws.SameGroup | pkg/merge/three_way.go:290-292 | Hunks that overlap are in one region |
| PartitionLaws.MarksValid | pkg/merge/three_way.go:239-247 | Regions and kept hunks are within the base and pairwise do not overlap |
| PartitionLaws.SidesSurvive | pkg/merge/three_way.go:247-366 | Read in base order, regions and kept hunks contain each side's hunks completely and in their order |
| PartitionLaws.PartitionConserves | pkg/merge/three_way.go:247-366 | Read in base order, they give each side's new lines completely and in their order |
| PartitionUnique.PartitionIsUnique | pkg/merge/three_way.go:308-364 | The regions do not depend on how the unstable sort orders equal ranges |
| PartitionUnique.PartitionSymmetric | pkg/merge/three_way.go:247-366 | Swapping the sides gives the same kept hunks and the same regions with their texts swapped |
| Merging.ThreeWayMerge | pkg/merge/three_way.go:73-104 | Equal texts win, disjoint edits give the joined lines with the newline rule, overlapping ones are partitioned into conflicts that carry both sides' lines |
| Merging.MergeShowsBoth | pkg/merge/three_way.go:73-104 | A clean merge shows every line of either side's edits and every base line neither replaced, once and in base order, and nothing else |
| Merging.MergeTextSymmetric | pkg/merge/three_way.go:73-104 | Equal texts merge to that text, and swapping the sides changes nothing |
| Texts.JoinLines | pkg/merge/three_way.go:106-119 | Splitting and joining loses exactly one last newline |
| Texts.LastLineBlank | pkg/merge/three_way.go:106-119 | The last line is empty exactly when the text ends in an empty line |
| Merging.SideTextIff | pkg/merge/three_way.go:82-103 | A change of one side alone is returned as written, with the other side's newline, exactly under a condition on how the three texts end |
| Merging.LoneChangeIff | pkg/merge/three_way.go:73-104 | Against an unchanged side it is returned as written exactly if it is a lone newline, or does not end in an empty line and ends in a newline if the base does |
| MergedText.MergeIsText | pkg/merge/three_way.go:73-104 | Merging texts without NUL bytes gives one without NUL bytes, whatever the base holds |
| MergedText.MergeKeepsNewline | pkg/merge/three_way.go:100-103 | A merged text ends in a newline whenever the server's does |
| MergedText.MergeAgainIff | pkg/merge/three_way.go:73-104 | Merging the result once more over the server's text gives it back exactly if it is that text or a lone newline, or does not end in an empty line and keeps the server's last newline |
| MergedText.MergeSettlesIff | pkg/merge/three_way.go:73-104 | A clean merge has that form exactly if it is the server's text, a lone newline, or does not end in an empty line |
| Callout.MarkersAre | pkg/merge/callout.go:105-120 | However ties are broken, the sorted markers are the kept hunks and regions in their one base order |
| Callout.EmitMarkers | pkg/merge/callout.go:122-141 | The emitting loop writes the base lines with every marker's range replaced, each line ended, and never moves its cursor back |
| Callout.RenderConflictFile | pkg/merge/callout.go:98-147 | The text shows each kept hunk's lines, each conflict's block and every base line none of them replaces, each once and in base order, and lacks only its last newlines, if neither side ends in one |
| Traces.RenderConserves | pkg/merge/callout.go:94-147 | The output shows every base line outside all markers once and every marker's line once, in base order, and nothing else |
| Traces.TraceOf | pkg/merge/callout.go:94-147 | The same in terms of the hunks and conflicts the markers were made of |
| Callout.TrimIs | pkg/merge/callout.go:142-145 | Trimming cuts newlines at the end only, and all of them |
| Callout.WriteCalloutFile | pkg/merge/callout.go:78-92 | A clean merge is returned as its text; otherwise the text shows all kept hunks' lines and one block a conflict, and the conflicts carry all lines of the overlapping hunks |
| Protocol.ValidIff | protocol/op.go:51-105 | A well-formed op has a number, a time and a key; a payload exactly if it writes, both names exactly if it renames, and unless it writes the state it expects |
| Protocol.StagesCommute | internal/server/hub/handlers.go:353-370 | Op lists that share no path commute on every tree, renames included |
| Protocol.ApplyFrame | internal/server/hub/handlers.go:363-367 | Ops leave alone every path they do not touch |
| Protocol.ApplyLocal | internal/server/hub/handlers.go:363-367 | What ops make of their paths depends on those paths alone |
| Stages.Stage.Append | internal/server/stage/stage.go:40-54 | The op goes to the tail; byte count, first and last times follow |
| Stages.Stage.Reset | internal/server/stage/stage.go:69-78 | Ops, bytes and times are cleared and the base moves |
| Stages.Stage.PathHash | internal/server/stage/stage.go:119-169 | The result is the lookup after applying all staged ops to HEAD; HEAD is asked once for exactly the rename sources no earlier op touched, and for the path if no op did |
| Stages.Stage.TouchesPath | internal/server/stage/stage.go:187-204 | True exactly when some staged op reads or writes the path |
| Stages.TracksStep | internal/server/stage/stage.go:140-161 | One op moves the tracked states as it moves the tree |
| Wal.MakeFrame | internal/server/stage/wal.go:214-220 | The buffer is length, checksum and payload, big-endian |
| Wal.GetPut | internal/server/stage/wal.go:216-217 | A length survives the header modulo 32 bits |
| Wal.WAL.ReplayAll | internal/server/stage/wal.go:225-287 | The loop returns the intact entries from the start, and the reason and offset where it stopped |
| Wal.WAL.Append | internal/server/stage/wal.go:82-101 | One frame is added to the file |
| Wal.WAL.TruncateClient | internal/server/stage/wal.go:123-190 | The file is rewritten as the readable entries of the other clients |
| Wal.RoundTrip | internal/server/stage/wal.go:107-117 | Entries within the cap all come back, in order, with no error |
| Wal.RoundTripIff | internal/server/stage/wal.go:205-211 | A log comes back whole exactly when every payload is within the replay cap |
| Wal.TornTail | internal/server/stage/wal.go:222-267 | Behind any strict prefix of one more frame all complete entries still come back, with the error at its offset |
| Wal.TornTailSwallows | internal/server/stage/wal.go:103-117 | Entries appended behind a torn payload do not come back, unless the checksum happens to agree |
| Wal.TornHeaderSwallows | internal/server/stage/wal.go:239-267 | Nor do entries appended behind a torn header, unless its spliced length fits and the checksum agrees |
| Wal.TornThenMoreIff | internal/server/stage/wal.go:225-287 | Behind intact entries exactly those come back exactly if torn bytes and appended ones do not read as a frame |
| Wal.OversizeHides | internal/server/stage/wal.go:253-258 | Replay stops for good at an entry above the cap |
| Wal.ReplayCapIs | internal/server/stage/wal.go:205-211 | An entry is read back exactly if its payload is at most 15 MiB |
| Wal.UndecodableStops | internal/server/stage/wal.go:277-283 | Replay stops with that reason at an intact frame whose payload does not decode |
| Wal.RunRoundTrip | internal/server/stage/wal.go:82-190 | After any run of appends and truncations replay returns exactly the surviving entries in order |
| Wal.CompactedIsClean | internal/server/stage/wal.go:123-190 | Truncation leaves a log without error, torn tail or not |
| Wal.WithoutOps | internal/server/stage/wal.go:132-139 | Truncation takes out one client's ops and keeps every other client's, in order |
| Wal.WithoutIs | internal/server/stage/wal.go:132-139 | Exactly that client's entries go; all others stay as they are and in one order |
| IdemCaches.IdemCache.Accept | internal/server/stage/idemcache.go:42-53 | Only a number above the mark is accepted and becomes the mark |
| IdemCaches.IdemCache.CapEntries | internal/server/stage/idemcache.go:95-131 | At most n entries remain, none evicted was seen after one retained, survivors are unchanged |
| IdemCaches.SelectOldest | internal/server/stage/idemcache.go:109-125 | The partial selection sort puts the oldest entries in front and loses none |
| IdemCaches.EvictedFirst | internal/server/stage/idemcache.go:126-130 | Deleting the entries in front evicts exactly the least recently seen |
| IdemCaches.IdemCache.Load | internal/server/stage/idemcache.go:184-208 | Every snapshot record is taken over |
| IdemCaches.IdemCache.Prune | internal/server/stage/idemcache.go:135-146 | Exactly the clients not seen since the cutoff are dropped |
| IdemCaches.Restart | internal/server/stage/idemcache.go:151-208 | A snapshot and a load give back every mark; times are cut to seconds in the same order |
| Sizes.SizeTracker.ApplyOps | internal/server/hub/sizes.go:62-73 | The total stays the sum of the tracked sizes through any op list |
| Sizes.SizeTracker.Rename | internal/server/hub/sizes.go:50-57 | The entry moves with its size, replacing the target; nothing happens without a source |
| Sizes.SizeTracker.WouldExceed | internal/server/hub/sizes.go:78-143 | True, with the reason, exactly when applying the ops would break an enabled cap; nothing changes |
| Sizes.TotalWithout | internal/server/hub/sizes.go:13-16 | The total does not depend on the order of summation |
| Sizes.TrackerFollows | internal/server/hub/sizes.go:59-73 | The tracker follows the tree except on a rename of something absent onto something present |
| Sizes.DisjointGrowth | internal/server/hub/sizes.go:59-73 | On paths of its own a batch adds as many files and bytes behind a stage as without it |
| Sizes.CapCheckOnOwnPaths | internal/server/hub/handlers.go:345-356 | With other clients' stages the answers differ exactly by the stage's own growth in files and bytes |
| Sizes.StagedOpsAreNotCounted | internal/server/hub/handlers.go:345-356 | A concrete pair of batches that each pass the cap and together break it |
| Vaults.FilterAcked | internal/server/hub/handlers.go:868-891 | The seen front is dropped; the rest is returned exactly if its numbers keep increasing |
| Vaults.VaultState.FindOverlappingStage | internal/server/hub/handlers.go:762-785 | True exactly when another client's stage touches a primary path or rename target of the batch |
| Vaults.VaultState.CheckPreHashes | internal/server/hub/handlers.go:391-410 | True exactly when every op matches the stage over HEAD as it was before the batch |
| Vaults.VaultState.AppendAll | internal/server/hub/handlers.go:440-456 | Stage, log and mark all advance by the stamped ops |
| Vaults.VaultState.HandlePushBatch | internal/server/hub/handlers.go:162-478 | The answer and the whole new state of a push, in the order of the source's checks |
| Vaults.VaultState.CommitStage | internal/server/hub/handlers.go:519-584 | The stage becomes part of HEAD, leaves the log, the marks are saved and all others get the ops |
| Vaults.VaultState.BroadcastOps | internal/server/hub/handlers.go:593-634 | Exactly the other connected clients' queues grow by the ops |
| Vaults.VaultState.HandleFlush | internal/server/hub/handlers.go:484-510 | A flush is a commit of the client's stage and an ack |
| Vaults.VaultState.CommitStages | internal/server/hub/hub.go:747-761 | A sweep commits the given stages one after the other |
| Vaults.VaultState.constructor | internal/server/hub/hub.go:671-722 | Opening replays the log into stages and marks, dropping malformed entries |
| Faithfulness.FaithfulElsewhere | internal/server/hub/handlers.go:353-370 | Changes to other paths leave a stage meeting its pre-hashes |
| Faithfulness.IndependentIsFaithful | internal/server/hub/handlers.go:385-410 | A checked batch whose ops do not touch later ops' primary paths meets every pre-hash when applied |
| Faithfulness.BatchCheckIff | internal/server/hub/handlers.go:391-410 | The batch check is enough exactly when each op declares what the batch's earlier ops leave at its path: a state they put there, the untouched state, or what an earlier rename moved there and declared alike |
| Faithfulness.WritesCheckIff | internal/server/hub/handlers.go:391-410 | For writes and deletes that is exactly when only null writes are followed by another op on their path |
| Faithfulness.RenamedInOneBatch | internal/server/hub/handlers.go:391-410 | A concrete batch of a rename and a write that passes the check and finds another state |
| Faithfulness.ForeseenNotIndependent | internal/server/hub/handlers.go:391-410 | A concrete batch that is enough although an op touches what a later one is keyed by |
| Faithfulness.TwiceInOneBatch | internal/server/hub/handlers.go:391-410 | A concrete batch that passes the check and overwrites blindly |
| Faithfulness.FaithfulCommits | internal/server/storage/git.go:978-1062 | A stage that meets its pre-hashes never fails to commit and gives what blind application gives |
| Faithfulness.SourceIs | internal/server/storage/git.go:978-1062 | Each path's state after a list of ops is given by an op or taken from one path of the old tree |
| Faithfulness.ReapplyIff | internal/server/storage/git.go:978-1062 | Applying a stage twice is applying it once exactly when it leaves every path it takes a state from as it was |
| Faithfulness.ReapplyChangesNothing | internal/server/storage/git.go:1035-1058 | So it is for every stage of writes and deletes |
| Faithfulness.RenameTwice | internal/server/storage/git.go:1011-1028 | Applying a rename twice loses the file unless it moved nothing |
| Faithfulness.CommitIff | internal/server/storage/git.go:978-1062 | The store commits a stage exactly when each rename, and each delete where index removal is strict, finds its path; then it gives what blind application gives |
| Faithfulness.StoreReplayIff | internal/server/storage/git.go:978-1062 | A stage already in HEAD is committed again by the store, changing nothing, exactly when what its ops need from HEAD is still there and what it takes from HEAD is as it was |
| Faithfulness.StrictReplayIff | internal/server/storage/git.go:1003-1010 | With strict index removal a stage already in HEAD replays cleanly exactly when it does not delete a path for good |
| VaultLaws.ScreenIff | internal/server/hub/handlers.go:208-327 | The first malformed or refused op fails the batch; otherwise every filtered path is reported and nothing else |
| VaultLaws.AcceptedIff | internal/server/hub/handlers.go:187-438 | New ops are acked exactly when they are in order, pass the gates, stay clear of other stages and match the client's stage over HEAD |
| Answers.AnswersIff | internal/server/hub/handlers.go:187-438 | Every answer of a push exactly when it is given: malformed, refused or out of order; filtered, with the paths in batch order; over the cap; stale because another stage touches a path of the batch or a pre-hash differs; stuck; or taken |
| Answers.OverlapIff | internal/server/hub/handlers.go:762-785 | The overlap check answers exactly whether another client's stage and the batch touch a common path |
| Answers.PushAnswers | internal/server/hub/handlers.go:180-478 | A push sends one answer, to its sender, behind whatever is queued |
| Answers.FlushAnswers | internal/server/hub/handlers.go:484-510 | A connected client's flush is acked behind whatever is queued, and the others get what was committed |
| Answers.AdmittedAreSent | internal/server/hub/handlers.go:440-447 | What is staged is what was sent, in every field but the author |
| VaultLaws.RejectedChangesNothing | internal/server/hub/handlers.go:153-156 | A push that is not taken changes no tree, stage, log or mark |
| VaultLaws.PushKeepsApart | internal/server/hub/handlers.go:371-382 | A push never makes two stages share a path |
| VaultLaws.PushKeepsLog | internal/server/hub/handlers.go:440-456 | After a push the log still holds exactly the stages |
| VaultLaws.CommitKeepsLog | internal/server/hub/handlers.go:536-542 | After a commit the log still holds exactly the stages |
| VaultLaws.CommitKeepsFaithful | internal/server/hub/handlers.go:353-370 | Committing one stage leaves every other stage meeting its pre-hashes |
| VaultLaws.PushFaithfulIff | internal/server/hub/handlers.go:385-456 | After a push all stages meet their pre-hashes exactly when the admitted ops do on the state they were checked against |
| VaultLaws.PushCheckIff | internal/server/hub/handlers.go:385-456 | After a push, renames included, all stages meet their pre-hashes exactly under that condition on the admitted ops |
| VaultLaws.PushFaithfulOnWrites | internal/server/hub/handlers.go:391-410 | For write and delete batches: exactly when only null writes are followed by another op on their path |
| VaultLaws.PushKeepsFaithful | internal/server/hub/handlers.go:385-456 | An independent batch, renames allowed, keeps every stage meeting its pre-hashes |
| VaultLaws.CommitOrderIrrelevant | internal/server/hub/handlers.go:363-370 | Committing the same clients in any two orders gives one tree |
| Recovery.ReplayRebuilds | internal/server/hub/hub.go:676-722 | Replay rebuilds every stage and mark from the log |
| Recovery.CrashRecovery | internal/server/hub/handlers.go:519-563 | A crash at any point of a commit, replay and a flush in any order leave the tree of committing every acked op |
| Runs.CrashLosesNothing | internal/server/hub/hub.go:676-761 | In every state any run reaches, that holds exactly unless the stage had reached HEAD, was still logged and had changed what it takes from HEAD |
| Recovery.CrashAfterCommitIff | internal/server/hub/handlers.go:519-563 | For any stage in both HEAD and the log, replay and flush give the committed tree exactly when the stage left what it takes from HEAD as it was |
| Recovery.MidPushCrash | internal/server/hub/handlers.go:440-456 | A crash inside the append loop keeps the ops logged so far and every other stage |
| Recovery.MidPushIsShortPush | internal/server/hub/handlers.go:440-456 | Such a crash leaves the disk that a push of that much of the batch leaves |
| Recovery.MidPushResume | internal/server/hub/handlers.go:187-206 | Sending that batch again offers exactly the ops not yet logged |
| Recovery.FailedAppendBreaksLog | internal/server/hub/handlers.go:440-452 | After a failed append log and stage differ by that op, which a restart loses; a commit puts them in agreement again |
| Recovery.TruncateCrashIff | internal/server/hub/handlers.go:536-554 | A crash between truncation and snapshot keeps every mark exactly if the snapshot already had the client's |
| Recovery.CrashMarkIff | internal/server/hub/handlers.go:519-554 | At every crash point of a commit, a client's mark is lost exactly in that one case, and only the committing client's |
| Recovery.AckedIsSeen | internal/server/hub/handlers.go:863-891 | An acked batch leaves the mark at or above all its numbers, seen and unordered ones included |
| Recovery.SeenFront | internal/server/hub/handlers.go:863-891 | A seen batch with more behind it offers exactly the unseen tail of the rest |
| Runs.ResubmitAnyAcked | internal/server/hub/handlers.go:198-206 | In every run, any batch acked at any earlier step is acked again and changes nothing else; with more behind it the unseen rest is offered |
| Recovery.SeenIsIdle | internal/server/hub/handlers.go:198-206 | A batch of seen numbers is acked and changes nothing else |
| Runs.StagesStayApart | internal/server/hub/handlers.go:353-382 | In every reachable state, crashes inside pushes and commits and restarts included, no path is touched by two stages and the log holds exactly the stages |
| Runs.Confluence | internal/server/hub/handlers.go:363-370 | In every reachable state the pending stages commit to one tree in any order |
| Runs.NoLostUpdate | internal/server/hub/handlers.go:353-410 | In every run whose pushes declare what their own earlier ops leave, crashes included, each staged op would be applied over exactly the state it declared, and its commit cannot fail |
| Runs.FaithfulRunIff | internal/server/hub/handlers.go:353-456 | With careful crashes, every state of a run is like that exactly when every push in it is |
| Runs.MarksAlwaysHold | internal/server/hub/hub.go:676-722 | In every reachable state each stage's numbers increase up to the client's mark, and the snapshot is never ahead |
| Runs.ExactlyOnce | internal/server/stage/idemcache.go:39-53 | Over any run without that one crash in the client's own commit, crashes inside pushes and other commits included, its staged numbers strictly increase, the mark is the last, and a restart recovers it |
| Paths.ExtOf | pkg/merge/classify.go:435-445 | The backward scan finds the extension of the last path element |
| Paths.SidecarIsSibling | pkg/merge/sidecar.go:12-23 | A sidecar is another file in the same directory with the same extension |
| Paths.SidecarsDiffer | pkg/merge/sidecar.go:12-23 | Different stamps give one file different sidecars |
| Classification.KeepsNumber | pkg/merge/classify.go:61-70 | A surviving staged op keeps its number and time |
| Classification.RebasesOne | pkg/merge/classify.go:76-186 | A surviving op expects exactly the state the incoming op leaves, or is a creation at the sidecar; only delete over delete does not survive |
| Classification.EditsSurvive | pkg/merge/classify.go:289-380 | A staged edit survives as its own bytes at the sidecar or as exactly the text put on disk |
| Classification.ReplacementValidIff | pkg/merge/classify.go:112-134 | The surviving op is well-formed exactly unless a staged rename meets a write or delete |
| Classification.RenameRebaseIff | pkg/merge/classify.go:201-263 | Over an incoming rename the surviving op matches the new state exactly if it is a delete |
| Effects.CatchupSyncs | pkg/sync/engine.go:552-641 | With nothing staged, any catchup, renames included, takes files, bases and manifest from one server tree to the next |
| Effects.CatchupFollows | pkg/sync/engine.go:552-641 | Whatever is staged, they follow the server on every path that no staged op touches and no sidecar uses, if no incoming rename starts within that reach |
| Effects.WriteOverEdit | pkg/merge/classify.go:289-380 | A write over a staged edit: merged or shown as a conflict in the file, or else it takes the file and the edit goes to the sidecar; bases and manifest are the server's |
| Effects.WriteOverOthers | pkg/merge/classify.go:92-133 | A write over a staged delete is put beside the deleted file; over a staged rename it takes the old name |
| Effects.DeleteOverEdit | pkg/merge/classify.go:137-177 | A delete over a staged edit keeps the edit with a notice, or at the sidecar |
| Effects.DeleteOverOthers | pkg/merge/classify.go:178-206 | A delete over a staged delete or rename leaves the stores alone |
| Effects.RenameOver | pkg/merge/classify.go:207-285 | A rename moves file, base and manifest entry; a staged write or delete follows it to the new name, a staged rename of the same file is dropped |
| Effects.RenameOverRenameIff | pkg/merge/classify.go:252-265 | Two renames of one file: the file keeps the client's new name exactly unless both chose the same one or the content was at both anyway |
| Effects.BothSidesKept | pkg/merge/classify.go:289-405 | Whatever merges, conflict blocks and notices keep of both sides, the staged edit keeps in exactly one staged write and the incoming text keeps in the file |
| Effects.IgnoredChangeNothing | pkg/sync/engine.go:574-578 | Ignored ops change neither the stores nor the staged log |
| Effects.FrozenIs | pkg/sync/engine.go:596-612 | Every op of the new log is an untouched old one, as it was, or carries the mode's frozen flag |
| Effects.FormatByExtension | pkg/merge/classify.go:411-445 | The last element's extension alone decides how a conflict is shown; outside git mode a note gets a callout |
| Effects.SidecarsApart | pkg/merge/sidecar.go:12-23 | Sidecars of one file made at different times are different files |
| Rebasing.ManifestTracksIff | pkg/sync/engine.go:713-844 | The manifest follows the server exactly unless the decision writes a sidecar or is a no-op on a present path |
| Rebasing.TracksUnlessStrays | pkg/sync/engine.go:695-712 | Otherwise manifest and merge bases are both those of the new server tree |
| Rebasing.StraysIff | pkg/merge/classify.go:76-197 | Which staged op makes an incoming write or delete stray |
| Rebasing.SidecarIsTheOnlyStray | pkg/sync/engine.go:784-838 | A sidecar decision adds exactly the sidecar to the manifest |
| Rebasing.EditOnDiskIff | pkg/sync/engine.go:713-766 | A surviving edit is on disk at its path exactly unless an incoming write or the edit is binary or has a NUL, or the two conflict in a sidecar format |
| Rebasing.RebaseCorrect | pkg/sync/engine.go:552-641 | After any catchup of writes and deletes every staged op matches the new server tree, with strictly increasing old numbers |
| Rebasing.StaysStaged | pkg/sync/engine.go:599-610 | A staged op that no incoming op is keyed like stays in the log as it is, renames included |
| Rebasing.NothingDropped | pkg/sync/engine.go:599-610 | No staged op disappears unless it deletes what a deletion came in for |
| Rebasing.CatchupTracks | pkg/sync/engine.go:552-641 | After a catchup that never strays the manifest and bases are those of the new server tree |
| Rebasing.NothingStagedTracks | pkg/merge/classify.go:77-86 | With nothing staged every catchup keeps the view with the server |
| Rebasing.TextEditsKeepView | pkg/merge/classify.go:289-380 | With only text edits in callout, comment or marker formats staged, no catchup strays |
| CatchupReruns.CatchupIdleIff | pkg/sync/engine.go:552-641 | A whole catchup applied twice leaves stores and staged log alone the second time exactly when each of its ops alone does |
| CatchupReruns.CatchupRerunIff | pkg/sync/engine.go:626-634 | A replayed catchup is idle exactly outside three cases, each a condition on one incoming op, the staged op it meets, the stores and the text left on disk |
| CatchupReruns.MetAgain | pkg/sync/engine.go:560-610 | The second time each op meets in the log exactly what it left there the first time |
| Reruns.RerunIff | pkg/sync/engine.go:626-634 | The same for a single incoming op |
| Reruns.RerunInPlaceIff | pkg/sync/engine.go:626-634 | A write over an edit that stays in place is idle the second time exactly if the text on disk settles under the modelled merge |
| Reruns.EachReplayTrims | pkg/sync/engine.go:626-634 | A concrete edit from which each replay takes an empty line |
| Engines.Engine.ApplyDecision | pkg/sync/engine.go:713-844 | Disk, bases and manifest after each decision |
| Engines.Engine.FilterSelfEcho | pkg/sync/engine.go:1827-1856 | Matching rows leave T2 and their ops are not applied |
| Engines.Engine.ClassifyAndApply | pkg/sync/engine.go:552-641 | Stores and staged log after a whole catchup |
| Engines.Engine.CommitPushAck | pkg/sync/engine.go:1214-1255 | Bases, counters and logs after an ack |
| Engines.Engine.RecordManifestRename | pkg/sync/engine.go:870-882 | The manifest entry moves, and nothing happens to the target without a source |
| Engines.AckTracks | pkg/sync/engine.go:1214-1239 | Acking ops moves the client's view exactly as applying them moves the tree |
| Engines.AckKeepsFiles | pkg/sync/engine.go:1214-1239 | Acking leaves the files as they are |
| Engines.OthersPassEcho | pkg/sync/engine.go:1827-1856 | Ops of another author are never taken for an echo |
| Engines.SwallowedIff | pkg/sync/engine.go:1827-1856 | Each op of a list is swallowed exactly when T2 has more rows under its author and number than earlier ops of the list used up; all others pass, in order |
| ClientLogs.T1ToT2 | pkg/sync/lifecycle.go:51-86 | Rows below the bound go to T2, then T1 keeps the rest |
| ClientLogs.AckedLog.AppendAll | pkg/stage/acked.go:103-136 | Rows whose number is already there are skipped |
| ClientLogs.AckedLog.DropByAuthorSeq | pkg/stage/acked.go:159-180 | The first row with that author and number goes |
| ClientLogs.AckedLog.DropBySeqs | pkg/stage/acked.go:224-251 | Exactly the rows with those numbers go |
| ClientLogs.StagedLog.RewriteRetaining | pkg/stage/staged.go:128-142 | Exactly the rows at or above the bound stay |
| ClientLogs.NoRepeatsInT2 | pkg/stage/acked.go:97-136 | T2 repeats no number at any crash point |
| ClientLogs.NoNumberLost | pkg/sync/lifecycle.go:29-50 | Every op's number is in T1 or T2 at every crash point |
| ClientLogs.NoOpLostIff | pkg/sync/lifecycle.go:29-50 | Every op itself survives exactly when T2 held no different row under a moved number |
| ClientLogs.RerunConverges | pkg/sync/lifecycle.go:29-50 | Running the move again from any crash point reaches the logs of an uninterrupted run |
| ClientLogs.AckMoves | pkg/sync/engine.go:1245-1250 | After an ack T1 holds exactly the ops above the batch's last number, and T2 has a row for each of the others |
| ClientLogs.EnqueueOps | pkg/sync/enqueue.go:24-50 | The rows added, the next number, and what of it is on disk |
| ClientLogs.RowsAre | pkg/sync/enqueue.go:24-50 | Exactly the ops on paths not staged before get a row, in order, with consecutive numbers |
| ClientLogs.EnqueueKeepsOrder | pkg/sync/enqueue.go:36-46 | The staged log stays in sequence order below the next number |
| ClientLogs.CrashReusesNumberIff | pkg/stage/staged.go:30-36 | A crash before base.json is written leaves the next number unused exactly if no row was added |
| ClientLogs.ReusedNumberCollides | pkg/stage/staged.go:30-36 | Then the next enqueue repeats a number |
| Draining.CollectPushOps | pkg/sync/engine.go:1065-1091 | The next batch of the ready ops, or nothing when the first is over the budget |
| Draining.BatchIsMaximal | pkg/sync/engine.go:1050-1064 | The batch is the longest in-order prefix within the budget, empty only if nothing is ready or the first op is too big |
| Draining.BatchBytes | pkg/sync/engine.go:1050-1091 | The payloads of a batch total at most 12 MiB, and a first op that leaves 32 bytes of that with its path and payload is always sent |
| Draining.HandleFiltered | pkg/sync/engine.go:1274-1310 | Exactly the sent ops whose target was refused are dropped, by number, and counted |
| Draining.PushIfNeeded | pkg/sync/engine.go:897-956 | Against a server that accepts or names a sent target the loop ends with nothing staged, each round pushing the next batch |
| Draining.DrainOutcome | pkg/sync/engine.go:897-956 | Every op was acked once, in sequence order and into T2, or dropped because it was refused, never both |
| Draining.FrozenMovesIff | pkg/sync/engine.go:1245-1250 | The promoted ops are the sent ones exactly when no frozen op has a lower number |
| Manifests.Manifest.constructor | pkg/stage/manifest.go:42-80 | Opening rebuilds the view from the rows |
| Manifests.Manifest.Put | pkg/stage/manifest.go:100-106 | The path gets the entry, on disk as in memory; the log stays within twice the live set and never looks new |
| Manifests.Manifest.Delete | pkg/stage/manifest.go:108-112 | The path is gone, on disk as in memory, and the log never looks new |
| Manifests.Manifest.Compact | pkg/stage/manifest.go:156-189 | One row per live path, the view does not change, and `IsEmpty` changes exactly if nothing is live and there were rows |
| Manifests.LatestWins | pkg/stage/manifest.go:22-25 | A path is live exactly when its last row is, with that row's entry |
| Manifests.LooksNewIff | pkg/stage/manifest.go:114-189 | Over any run of records and compactions a manifest looks new exactly if nothing was ever recorded or the last thing was an explicit compaction with nothing live |
| Manifests.TombstonesThenCompact | pkg/stage/manifest.go:89-98 | A concrete tombstoned manifest that is not empty until it is compacted |
| Collision.RenameForCollision | pkg/sync/collision.go:29-56 | The unbounded search ends, at the first candidate that is not taken |
| Collision.CandidatesDiffer | pkg/sync/collision.go:45-54 | Candidates of different index differ |
| Collision.KeynamesDiffer | pkg/sync/collision.go:36-47 | Clients with different keynames, slashes apart, try different names |
| Collision.CandidateIsSibling | pkg/sync/collision.go:36-47 | A candidate is another file in the same directory with the same extension |
| Collision.RenameColliding | pkg/sync/engine.go:449-527 | The loop keeps every settled entry settled and moves only colliding ones to fresh names |
| Collision.SettledMeans | pkg/sync/engine.go:430-448 | Afterwards nothing staged collides with the bootstrap, contents, numbers and order are unchanged, and exactly the colliding ops moved |
| Limiting.Limiter.Prune | internal/server/ratelimit/limiter.go:25-34 | In place, exactly the unexpired events remain, in order |
| Limiting.Limiter.Allow | internal/server/ratelimit/limiter.go:38-48 | Allowed exactly when fewer than the limit are unexpired, and then recorded |
| Limiting.Limiter.Exceeded | internal/server/ratelimit/limiter.go:51-56 | True exactly when the limit of unexpired events is reached, and nothing is recorded |
| Limiting.Limiter.Record | internal/server/ratelimit/limiter.go:59-64 | The event is recorded whatever the count |
| Limiting.WindowBound | internal/server/ratelimit/limiter.go:8-48 | Over any run under a monotone clock no half-open window holds more than the limit of accepted events |
| Limiting.AllowedIff | internal/server/ratelimit/limiter.go:38-48 | Over any run the next event is refused exactly if the max-th last accepted one is still in the window |
| Targets.DestroysIff | internal/server/storage/git.go:1011-1028 | A rename that meets its pre-hash destroys content its client had not seen exactly when its target holds, from HEAD, something else than the client's tree and than what it moves |
| Targets.RenameFateIff | internal/server/hub/handlers.go:353-410 | Over every run in which its stage waits, a rename will do so exactly if HEAD was like that when it was staged |
| Targets.IncomingTargetIff | pkg/sync/engine.go:560-610 | An incoming write of a staged rename's target leaves the rename staged and matching; it then destroys the incoming text unless that is what was there or what it moves |
| Convergence.CommittedOthers | internal/server/hub/handlers.go:593-634 | A broadcast stage commutes with the receiver's own, so its queue still leads to HEAD under its stage |
| Convergence.ReceivedInStep | pkg/sync/engine.go:970-977 | Handling the first queued frame leaves the rest leading to the same tree |
| Convergence.Convergence | internal/server/hub/handlers.go:358-476 | Over every covered run replaying a client's queue on its view gives HEAD under its stage; drained and committed, its manifest is HEAD's |

## Left out

- Vaults.VaultState.CommitStage: applies ops blindly as described at `handlers.go:363-367`; a failing store is modelled beside it in `Faithfulness.CommitOps` (`Faithfulness.StoreReplayIff` for a replay), and go-git itself is not part of this model.
- Vaults.VaultState.HandlePushBatch: capabilities, rate gates, path rules, the allowlist, the vault cap and the stuck-file ring are one arbitrary gate. An I/O error in the append loop is not an event of the runs in `Runs`: the op is then staged and not logged (`Recovery.FailedAppendBreaksLog`), so "the log holds exactly the stages" does not hold until the next commit or restart.
- Vaults.VaultState.constructor: stages and the log are values in the vault, not shared objects; the byte-level log, the stage object and the mark cache are modelled in their own modules, and replay drops malformed ops but does not model path validation.
- Vaults.VaultState.BroadcastOps: recipients see every path; visibility rules are not modelled.
- Runs.ExactlyOnce: no pruning or capping of the mark cache during the run, as both are meant to forget.
- Convergence.Convergence: pushes of writes and deletes by clients with distinct keynames, frames in arrival order, no reconnect; `Rebasing.StraysIff` says which staged ops a run has to avoid.
- Rebasing.RebaseCorrect: one incoming op a path and free sidecar names, as the source looks up staged ops once; renames are covered by `Classification.RenameRebaseIff`.
- Draining.PushIfNeeded: the stale-base and retry branches are not modelled.
- Engines.Engine.ClassifyAndApply: the branch that discards every staged op and the conflict log it writes are not modelled.
- Collision.RenameColliding: the rename of the file on disk is not modelled, only the staged log and the names.
- Merging.ThreeWayMerge: the Myers diff is a parameter; any diff that rebuilds both texts' joined lines will do.
- Callout.WriteCalloutFile: the wording of conflict blocks and the comment and marker styles are a parameter.
- Limiting.WindowBound: events recorded without a check are outside the bound, as in the source.
- Publish, revert, restore and control-plane commits, which write HEAD outside the overlap check.
- Hello, catchup and bootstrap streaming, chunking and manifest digests.
- WebSocket, HTTP, file watching, timers, metrics, the command line and configuration.
- Real file crashes below one row or one atomic write, except in the write-ahead log.
- SHA-256, CRC-32 and CBOR (RFC 8949): an injective hash, a parameter checksum, and decoding as the inverse of encoding.
