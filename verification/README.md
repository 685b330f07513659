# BackupHelper: verified model

BackupHelper's core is a storage protocol. A job builds a snapshot (an archive and a sidecar manifest), puts it to
the data dir and to S3 places, remembers what did not get off-site, catches up after outages, prunes by retention,
and drops local copies. This project models that core in Dafny and proves what the engine promises about it.

| file | what it models |
|---|---|
| `Storage.dfy`, `Choices.dfy` | the shared storage, and what retention looks at and may choose in it |
| `Protocol.dfy`, `Interleaving.dfy` | the storage as a state machine: the steps a job may take, what every step keeps, sequences of runs, jobs side by side |
| `RunLog.dfy`, `RunFrames.dfy`, `Runner.dfy` | one run (`run_job` and what it calls, and hydration) as a class that changes the storage step by step, with any operation failing and other jobs working in between; every change is logged as an allowed step |
| `Contention.dfy`, `Handovers.dfy` | plain snapshots between two jobs: whose they are at each step, and when one job adds to what is another's |
| `Selectable.dfy`, `Executions.dfy`, `Listings.dfy`, `Crossings.dfy` | what a policy can select at all; lists of moves; when S3 listings stay complete, and the runs after which they do not |
| `ContentionCases.dfy` | a config of two jobs, and cases of all this |
| `Deliveries.dfy` | for which destination lists an upload is safe |
| `Prune.dfy` | the `prune` command over all jobs |
| `Ownership.dfy`, `SnapshotIds.dfy`, `StampRules.dfy`, `SnapshotKeys.dfy` | ids, which texts are read as one, key strings, and which job a snapshot belongs to |
| `Calendar.dfy`, `Order.dfy`, `Retention.dfy`, `RetentionLaws.dfy`, `RetentionRules.dfy` | the retention policies, their laws, and what they mean in days, weeks, months and ids |
| `S3Upload.dfy` | `S3Destination.put` over calls that may take effect and still fail, against a server that may cut an object short |
| `Redaction.dfy`, `RedactionRules.dfy`, `SecretWords.dfy` | the key/value scanner of the log filter; what becomes of a credential, told by the characters of the line; which names hold one |
| `Globs.dfy`, `FilesystemWalk.dfy`, `FilesystemRules.dfy` | what patterns match; the filesystem source's pruned walk; what it archives and reports, told by the tree and the patterns |
| `Overrides.dfy`, `OverridesInPlace.dfy`, `OverrideNames.dfy` | discrete config overrides: their laws on values, the in-place form, the names of the variables |
| `PostgresListing.dfy`, `ListingRules.dfy`, `PostgresReplacement.dfy`, `PostgresRules.dfy` | the two readers and the planner of a replacing restore, and what they promise, told by the texts and the objects alone |
| `RunState.dfy`, `Healthcheck.dfy` | run records and the healthcheck's verdict |
| `Wrappers.dfy`, `Sequences.dfy`, `Texts.dfy` | shared small types and facts |

How to read the storage model. A `World` maps a place and a key to content, where the data dir (`Local`) also holds
the pending markers. It further records, for the proofs, what each run built (`made`) and what retention has chosen
(`pruned`), and of the runs under way the ids they have built (`building`), their choices (`chosen`) and where they have
raced for a plain snapshot (`raced`). By `Listings.RestForgets` the last three are nothing where no run is under way, if
all S3 listings are complete. `Inv` is what holds at every moment; `Allowed` says which single step a job may take - a
choice, for one, is what its policy selects of what is listed, at some time of the clock; `Rely` is what a job may count
on while others work. `Runner.Run` proves of the code that it takes only `Allowed` steps, from any world in
`Inv`, whatever the environment `others` does within `Rely`; `Interleaving` proves that steps of jobs with different
slugs are within each other's `Rely`, so the two fit together (`RunLog.LoggedIsKeepingToSteps`). A run that stops is a
prefix of the log of a run; runs in turn string together to one execution (`RunLog.RunsAreExecution`). Listings, globs
and their order are those of the key strings: `RunFrames.ListingIsOwn` and `Prune.FoundAreOwn` derive from
`SnapshotKeys` that they find a snapshot's own files, in the order in which retention may delete them.

Contents of archives are numbers and the hash is an injective constructor, so "the hash matches" means "the same
bytes". Uploads and deletes fail, and S3 puts fail after taking effect, by nondeterministic choice. A copy into the
data dir can be cut off. A ghost counter, `faults`, counts the operations that failed: the contracts say that nothing is
reported as failed (but a retention whose age limit reaches before year 1) unless it grew. A second one, `crashes`,
counts those among them that no handler catches: a run aborts exactly at such a failure, at no other.
`RunFrames.FaultlessRun` says what this means for a whole run. `Protocol.EmptyStorage` is where any sequence of runs can
start.

Assumptions about the configuration and the storage, all visible as `requires`:

- Jobs that run side by side have names that differ as slugs and are scoped by one config. They build, mark and restore
  only ids that name them, as the daemon's runs do; plain snapshots of an earlier config they upload, drop and prune as
  the code does. A run that is `alone` may hold any ids.
- The id of a new run is not in use yet, holds no slash or glob character, and neither continues an id in use after a
  dot nor is continued by one (`Protocol.IsFree`). Ids that name a job have no dot; an id given to `run_job` may, and
  `Prune.DottedSnapshotIsLost` shows what happens then. `SnapshotKeys.ApartExactly`: this is just what keeps the files
  of two ids apart.
- Where the time order of ids matters, the other ids of the job are engine-generated from earlier starts, in the years
  1000 to 9999.
- A job has at most one local destination (`RunFrames.LocalSpecOnce`). `Deliveries.JobDeliversSafelyExactly`: these
  are just the jobs whose uploads never take a last copy; `Deliveries.TwoLocalDestinations` shows the loss.

Where the code does not do what one might expect, the model keeps the code and says exactly when the property holds:

- Selecting again after any partial deletion gives the rest of the first selection exactly if every snapshot that only
  its rank selects has `count` newer ones that the policy keeps (`RetentionLaws.SelectionResumesExactly`) - so for ids
  ordered like their times; `RetentionLaws.UnorderedIdsDoNotResume` is an id chosen by a caller for which it does not.
- Two overrides can be set in either order exactly if they are compatible (`Overrides.CommuteExactly`); `a.b` and
  `a.0` are not.
- The configuration guide says any leaf can be addressed by the prefix and its path; a path of a single segment
  cannot, unless it begins with an underscore (`OverrideNames.AddressableExactly`).
- A run record can take the place of another job's, although the slugs of the two differ
  (`Healthcheck.SlugsDoNotTell`, `RunState.SharedFileExactly`); the healthcheck is never misled by another job exactly
  if that is not so (`Healthcheck.NeverMisledExactly`).
- S3 listings stay complete over every interleaving of the jobs' runs exactly if no plain snapshot waits for an upload to
  a bucket where another job comes first whose policy may select it there, among the snapshots that may lie beside it:
  those listed, those that wait for an upload to it, and what the job's own runs may build
  (`Crossings.ListingsStayCompleteExactly`). Otherwise the catch-up of the one and retention of the other may cross, and
  leave a manifest without its archive (`Crossings.RaceBreaksListing`). For a backlog with engine ids, in a year that
  leaves room for what the policies keep, this means: exactly if no such snapshot waits where that job prunes at all, by
  count or by age (`Crossings.EngineListingsStayCompleteExactly`, `ContentionCases.SharedBucketBreaksListings`).
- Among jobs side by side, no move changes a key of a snapshot another job owns at that moment, but for plain snapshots
  in three cases, if another job comes first at the place: the catch-up puts a file to a bucket, it drops the local copy
  after the marker, and retention deletes the archive in the data dir after the marker
  (`Contention.InterleavingTouchesOwnExactly`, with a case of each in `ContentionCases`). For runs in turn,
  `Contention.ChangedIsNobodyElsesExactly` gives the condition on the storage for every step.
- No other job adds to what is a job's own at a place, so that retention's bound holds on, exactly if, where the job
  comes first, no other job has a plain snapshot pending in the data dir that it uploads: for the data dir, anywhere;
  for a bucket, there, the snapshot not being listed yet or the job's policy being able to remove it first
  (`Handovers.OthersNeverAddExactly`, `ContentionCases.BoundIsExceeded`). `Handovers.UndisputedMeans` ties this to the
  condition under which `Runner.Run.RunJob` promises the bound.
- An overwrite in the data dir may be cut off safely exactly if the snapshot is not pending and has another copy or no
  intact one there (`Protocol.CutOffPutIsSafeExactly`).

Run `dafny verify dfyconfig.toml` to check everything.

## Model

| member | source | states |
|---|---|---|
| `Protocol.StepSafe` | src/backuphelper/runner.py:546-687 | Every step a job may take keeps the storage invariant and removes no last copy: what was complete somewhere still is, unless retention chose it. |
| `Protocol.CopyStays` | src/backuphelper/runner.py:643-659 | Putting off-site, marking, or removing other snapshots' files leaves an intact copy intact. |
| `Protocol.OffsiteStays` | src/backuphelper/runner.py:585-640 | A copy off-site only goes if retention chose its snapshot. |
| `Protocol.CutOffPutIsSafeExactly` | src/backuphelper/destinations/local.py:28-32 | A non-atomic overwrite in the data dir may be cut off without losing the last copy or spoiling a pending one exactly if the snapshot is not pending and is not intact there, or is off-site, or was pruned. |
| `Protocol.DownloadIsSafeExactly` | src/backuphelper/runner.py:345-375 | Bringing a snapshot back into the data dir from an off-site copy may be cut off safely exactly if no marker says it is pending. |
| `Protocol.ListedOffsiteIsComplete` | src/backuphelper/runner.py:643-659 | A snapshot listed at an S3 place has its archive there, with the hash the manifest names. |
| `Protocol.CompleteIsIntact` | src/backuphelper/runner.py:142-152 | A copy that would verify is exactly one that holds what the run built. |
| `Interleaving.TrackedStays` | src/backuphelper/runner.py:585-618 | A snapshot that is off-site, marked pending or pruned stays one of the three under every step of every job. |
| `Interleaving.StepIsRelied` | src/backuphelper/runner.py:585-687 | Whatever one job may do, its catch-up on plain snapshots included, a job of the same config beside it finds its own files and its own pending snapshots as they were, and plain files where they are its own to prune. |
| `Interleaving.InterleavingKeepsInv` | src/backuphelper/cli.py:85-110 | Every interleaving of jobs that each keep to their steps while undisturbed takes only allowed steps and keeps the invariant at every point. |
| `Interleaving.AllowedKeepsInv` | src/backuphelper/runner.py:103-202 | Every sequence of runs, each in full or stopped at any step, keeps the invariant. |
| `Interleaving.NothingIsLost` | src/backuphelper/runner.py:546-659 | Between any two points of a sequence of runs, a snapshot complete somewhere stays complete somewhere unless chosen by retention, and one off-site or pending stays so. |
| `Interleaving.InterleavingLosesNothing` | src/backuphelper/runner.py:546-659 | The same over every interleaving of several jobs. |
| `Interleaving.InterleavingKeepsListings` | src/backuphelper/runner.py:643-683 | At every point of every interleaving, a snapshot listed at an S3 place is complete there, unless a job has put it there while another may prune it. |
| `Crossings.ListingsStayCompleteExactly` | src/backuphelper/runner.py:603-683 | From a storage where no run is under way, every S3 listing stays complete over every interleaving of the jobs' runs, exactly if no plain snapshot waits for an upload to a bucket where another job comes first whose policy may select it among the snapshots that may lie there. |
| `Crossings.EngineListingsStayCompleteExactly` | src/backuphelper/runner.py:603-683 | Where the plain backlog has engine ids, no id in use is of a later year, and no policy keeps more than a snapshot for each month to come: exactly if no plain snapshot waits for an upload to a bucket where another job comes first that prunes by count or by age. |
| `Crossings.RaceBreaksListing` | src/backuphelper/runner.py:603-683 | For every storage where jobs may cross: allowed moves that bring to the bucket what the first job's policy needs to select the snapshot, then seven moves of the two jobs after which its manifest is listed without its archive. |
| `Listings.RacedKeepArchives` | src/backuphelper/runner.py:668-683 | At every point of every interleaving, a plain snapshot that a job has put to a bucket of another keeps its archive there, where the other's policy cannot select it. |
| `Listings.ChosenMayGo` | src/backuphelper/runner.py:668-683 | Whatever retention has chosen at a bucket, at any point of any interleaving, its policy can select among the snapshots that might lie there from the start. |
| `Selectable.EngineIdMayBeSelectedExactly` | src/backuphelper/retention/manager.py:17-31 | A plain engine id may be selected, among snapshots the job may come to have, exactly if its policy prunes by count or by age. |
| `Selectable.FirstIsSelected` | src/backuphelper/retention/manager.py:17-31 | Of snapshots that each have a greater id and fall in a later day, week and month than those before, the first is selected if they are more than the count or it has expired, and they are more than each tier keeps. |
| `Handovers.OthersNeverAddExactly` | src/backuphelper/runner.py:603-683 | Over every interleaving, no other job adds to the snapshots retention of a job looks at in a place, exactly if, where the job comes first, no other job has a plain snapshot pending in the data dir that it uploads: for the data dir, anywhere; for a bucket, there, if it is not listed yet or the job's policy may select it. |
| `Handovers.UndisputedMeans` | src/backuphelper/runner.py:603-618 | At a place undisputed in the sense of a run, no other job adds; the data dir is undisputed exactly if none does. |
| `ContentionCases.BoundIsExceeded` | src/backuphelper/runner.py:603-618 | Two jobs that keep local copies, and for any plain snapshot of the one and later one of the other, a storage within the other's bound where unmarking the plain one leaves one too many. |
| `ContentionCases.SharedBucketBreaksListings` | src/backuphelper/runner.py:603-683 | A config of two jobs and, for any plain snapshot before the last year, a storage at rest with complete listings that do not stay so. |
| `Contention.PrunedBelongsToNobodyElse` | src/backuphelper/runner.py:668-687 | What retention chooses belongs to its job and to no other; nor does it at any later moment at which the id names the job or the marker is as it was. |
| `Contention.ChangedIsNobodyElsesExactly` | src/backuphelper/runner.py:546-687 | Whatever key a step changes, no other job owns its snapshot at that moment, exactly if the id names the job, or the marker does or names no job, or without a marker the job is the first to store at the place or nobody stores there. |
| `Contention.InterleavingTouchesOwnExactly` | src/backuphelper/runner.py:585-687 | Over every interleaving, no move changes a key of a snapshot another job owns then, except, and always where another job comes first: a file of a plain snapshot put to a bucket by the catch-up, its local copy dropped after the marker, or its archive in the data dir pruned after the marker. |
| `ContentionCases.PrunedArchiveIsAnothers` | src/backuphelper/runner.py:673-683 | A case beside another job, for any plain snapshot marked for the job and any later one of its own: at every time its policy selects just the plain one, retention deletes its manifest and marker, and the archive then belongs to the other job and is deleted too. |
| `ContentionCases.UploadedArchiveIsAnothers` | src/backuphelper/runner.py:603-613 | A case beside another job: the catch-up uploads a plain snapshot marked for its job to a bucket where it belongs to the other. |
| `ContentionCases.DroppedCopyIsAnothers` | src/backuphelper/runner.py:614-617 | A case beside another job, for a job that keeps no local copies: the one that the catch-up drops after the marker belongs to the other. |
| `Contention.OwnerAfterCatchUp` | src/backuphelper/runner.py:603-617 | When the catch-up drops the local copy of a pending snapshot after its marker, the copy still belongs to the job exactly if the id names it or the job is the first to store in the data dir. |
| `RunLog.AloneRunIsExecution` | src/backuphelper/runner.py:103-202 | The logged steps of a run with no other job at work form an execution of allowed steps from where it began to where it stands. |
| `RunLog.StoppedRunIsLogged` | src/backuphelper/runner.py:165-177 | A run stopped after any step leaves a log of allowed steps and a storage from which the next run can start. |
| `RunLog.RunsAreExecution` | src/backuphelper/runner.py:103-202 | Runs one after another, each in full or stopped at any step, string together to one execution of allowed steps. |
| `RunLog.RunsLoseNothing` | src/backuphelper/runner.py:546-659 | Over every such sequence, a snapshot complete somewhere stays complete somewhere unless chosen by retention, and one off-site or pending stays so. |
| `RunLog.ViewIsLogged` | src/backuphelper/cli.py:85-110 | What each job does in an interleaving is, from where it stands, the log of a run beside others. |
| `RunLog.LoggedIsKeepingToSteps` | src/backuphelper/cli.py:85-110 | Jobs keep to their steps while undisturbed exactly if what each does meanwhile is such a log, as Runner shows of every run. |
| `RunFrames.FewAreLeft` | src/backuphelper/runner.py:673-683 | After retention with a count of at least 1, at most count + daily + weekly + monthly own snapshots are left, and without an age limit at least min(count, n). |
| `RunFrames.FewAtOneMore` | src/backuphelper/runner.py:157-158 | A successful retention at one destination leaves it within count + daily + weekly + monthly own snapshots and no other undisputed destination with more than before, whatever other jobs do meanwhile. |
| `RunFrames.CandidatesShrink` | src/backuphelper/runner.py:673-678 | No snapshot becomes the job's own while others work, at a place that is undisputed: not the job's for plain ids, or no other job has one pending in the data dir that it uploads there (for the data dir, anywhere). |
| `RunFrames.ListingIsOwn` | src/backuphelper/runner.py:682-682 | Listing by an id and a dot gives all files of that snapshot and of no other, the manifest first and the marker before the archive. |
| `RunFrames.FirstArchiveSortsFirst` | src/backuphelper/runner.py:340-342 | Of what the glob for archives finds, the one taken sorts first. |
| `RunFrames.BacklogGoesOn` | src/backuphelper/runner.py:603-618 | Each pending snapshot's turn leaves it pending and reported, or unmarked and, if it was whole in the data dir, at every off-site place of the run; the others' turns are not touched. |
| `RunFrames.BacklogIsDone` | src/backuphelper/runner.py:585-618 | After a run that reached an off-site place, only snapshots reported as still pending are marked, and those whole in the data dir at the start are at every off-site place reached, or pruned. |
| `Runner.Run.PutLocal` | src/backuphelper/destinations/local.py:28-32 | A copy into the data dir is absent, cut off or whole afterwards, and whole on success; nothing else of the job changes. |
| `Runner.Run.PutS3` | src/backuphelper/destinations/s3.py:71-79 | A put to an S3 place leaves the old object or the whole file, and the whole file on success. |
| `Runner.Run.Upload` | src/backuphelper/runner.py:643-659 | The destinations returned are those that hold both files - or, for a plain snapshot beside other jobs, held them until it was pruned; every other one is reported, one problem each, and only after an operation failed; intact copies stay intact. |
| `Runner.Run.WriteMarker` | src/backuphelper/runner.py:597-601 | On success the snapshot is marked pending for the job; a cut-off marker names nobody. |
| `Runner.Run.CatchUp` | src/backuphelper/runner.py:603-618 | A pending snapshot, plain or not, gone from the data dir is unmarked; else it is reported as still pending, or it is unmarked, at every off-site place of the run (or, a plain one beside other jobs, pruned meanwhile) and, if the job keeps no local copies, gone from the data dir. |
| `Runner.Run.FinishCatchUp` | src/backuphelper/runner.py:614-617 | Only a snapshot that every off-site place of the run holds is unmarked, and only an unmarked one dropped locally - exactly by jobs that keep no local copies. |
| `Runner.Run.DropLocal` | src/backuphelper/runner.py:616-617 | Local files go only while a copy off-site, or retention's choice, stands; off-site copies stay; on success both files are gone. |
| `Runner.Run.UploadBacklog` | src/backuphelper/runner.py:602-618 | Every snapshot pending before the loop, plain ones beside other jobs included, is reported as still pending, or settled: unmarked, at every off-site place of the run if it was whole in the data dir (or pruned meanwhile), and gone from there if the job keeps no local copies. Only reported ones are still marked. |
| `Runner.Run.MarkPending` | src/backuphelper/runner.py:597-601 | The snapshot is marked pending exactly if off-site is configured and the data dir alone stored it; on a failed write the run aborts. |
| `Runner.Run.TrackOffsite` | src/backuphelper/runner.py:585-618 | Afterwards the new snapshot is off-site or marked, marked only if nothing off-site stored it, and the backlog is caught up on if an off-site place stored it. A job that keeps local copies loses none. |
| `Runner.Run.Store` | src/backuphelper/runner.py:150-156 | Built, delivered and tracked: intact wherever reported as stored, off-site or marked pending if an off-site target is configured, the backlog dealt with if an off-site place stored it. |
| `Runner.Run.BuildDestinations` | src/backuphelper/runner.py:517-536 | Each configured bucket is a destination or reported as unavailable, buckets without a name are skipped, the data dir is among the places exactly if the job has a local destination, and once if it has one. |
| `Runner.Run.Deliver` | src/backuphelper/runner.py:546-569 | The snapshot is intact at every place reported as stored. No destination of the job goes missing: each was built and stored it, or was reported; only the data dir steps in, exactly if no destination stored it and the data dir is none, and either that it did is reported or that its put failed too. |
| `Runner.Run.PruneSnapshot` | src/backuphelper/runner.py:681-683 | All keys listed for a chosen snapshot at a place are deleted in the order of the listing - manifest, marker, archive - and no key of another snapshot. |
| `Runner.Run.Choose` | src/backuphelper/runner.py:673-681 | Retention chooses among the job's own listed snapshots only (or the given pending ones), and never the snapshot of this run if the others are from earlier runs. |
| `Runner.Run.ApplyRetention` | src/backuphelper/runner.py:668-687 | The selection is made among own snapshots of the place, or the pending ones; on success no key of a chosen one is left, but for what a job with that snapshot pending may bring back, and the own snapshots at an undisputed place, or the pending ones, then are among those looked at and not chosen; on a failure nothing but chosen snapshots has lost keys. |
| `Runner.Run.RetainAll` | src/backuphelper/runner.py:157-162 | If no round failed: each undisputed destination ends with no more own snapshots than the policy allows, and so does the data dir of pending ones where it stood in, whatever other jobs do; in a lone run just what the policy selects is gone, at each destination and among the pending snapshots. Nothing else of the job is touched anywhere; intact copies stay unless retention chose the snapshot, the newest one always. |
| `Runner.Run.MaybeDropLocal` | src/backuphelper/runner.py:621-640 | The local copy of a job that keeps none goes exactly if an off-site place stored this snapshot, and its staying is reported exactly if none did. |
| `Runner.Run.RunJob` | src/backuphelper/runner.py:103-202 | Whatever fails, in any environment, the run keeps the invariant and loses no last copy. A completed run has no destination go missing, leaves its snapshot tracked - by a marker only if off-site is configured and nothing off-site stored it - and where it was stored (but for a local copy the job does not keep, or one retention chose - never the newest), and has dealt with the backlog, plain snapshots included. A local copy the job does not keep goes if an off-site place stored it, and else is reported as kept. With retention working the run leaves at most count + daily + weekly + monthly own snapshots at each destination undisputed at its start, and as many pending ones in the data dir where that stood in; in a lone run just what the policy selects among what the delivery left, and the local copy the job does not keep, are gone. A job that keeps local copies loses none that retention did not choose. The run aborts exactly at a failure that nothing catches. |
| `RunFrames.FaultlessRun` | src/backuphelper/runner.py:103-202 | If no operation failed, the snapshot is at every destination of the job, and with an off-site target no snapshot of the job is marked pending and the backlog is at every off-site place or pruned. |
| `Runner.Run.Hydrate` | src/backuphelper/runner.py:345-375 | A snapshot missing from the data dir comes back whole from an off-site place; if none is found, every place of the job that holds it could not be listed; nothing but its local files changes. |
| `Runner.Run.FindCopy` | src/backuphelper/runner.py:355-371 | The first S3 place of the job that can be listed and holds the snapshot, which is intact there. |
| `Deliveries.DeliverySafeExactly` | src/backuphelper/runner.py:643-659 | An upload to a list of destinations keeps the invariant and takes no last copy, for every job, storage and new snapshot, whatever fails and wherever it stops, exactly if the data dir is in the list at most once. |
| `Deliveries.JobDeliversSafelyExactly` | src/backuphelper/runner.py:517-536 | The jobs that upload safely are exactly those with at most one local destination. |
| `Deliveries.TwoLocalDestinations` | src/backuphelper/runner.py:519-521 | With two local destinations, the second put cut off over the first one leaves no copy. |
| `Prune.ChoosingKeepsInv` | src/backuphelper/cli.py:253-265 | Choosing snapshots to prune keeps the invariant. |
| `Prune.AnyOrderPrunesTheSame` | src/backuphelper/cli.py:253-265 | The same jobs in any order choose the same snapshots. |
| `Prune.ChosenBelongsToItsJob` | src/backuphelper/cli.py:257-261 | A snapshot chosen for one job belongs to it and to no job with another slug. |
| `Prune.DataDir.Prune` | src/backuphelper/cli.py:230-265 | The chosen snapshots are named, all their files are unlinked and no other file. Of each target's own snapshots, with the count of `--keep` or else its own: no more are left than the policy allows; without an age limit at least min(count, n), less those another target shares; and just those due and not spared by the rules for some target are gone. It fails only at an unlink that fails or an age limit that reaches before year 1. A dry run names them and changes nothing; no job or no such job ends it at once. |
| `Prune.DueExactly` | src/backuphelper/cli.py:253-261 | A snapshot is chosen for a target exactly if it is due by the rules of its policy, with the count of `--keep` if given, and nothing spares it. |
| `Prune.NothingShared` | src/backuphelper/cli.py:257-261 | Targets whose names differ as slugs share no snapshot. |
| `Prune.UnlinkedIsNobodyElsesExactly` | src/backuphelper/cli.py:262-265 | While the files of a chosen snapshot go, in any order, those left belong to no other job exactly if the id names the job, or the marker is as it was, or the job is the first to store in the data dir, or nobody stores there. |
| `Prune.DottedSnapshotIsLost` | src/backuphelper/cli.py:262-265 | With ids of which one continues the other after a dot, pruning the shorter takes the last copy of a snapshot nobody chose. |
| `Ownership.JobPlaces` | src/backuphelper/snapshots.py:77-88 | The places a job stores at: its buckets, and the data dir if it has a local destination or no bucket. |
| `Ownership.ScopeFor` | src/backuphelper/snapshots.py:130-139 | With several jobs, plain ids at a place belong to the first job in config order that stores there. |
| `Ownership.OwnershipDisjointExactly` | src/backuphelper/snapshots.py:117-139 | Among several jobs no snapshot at any place under any marker belongs to two of them, exactly if their slugs differ. |
| `Ownership.OwnerExists` | src/backuphelper/snapshots.py:117-139 | Which snapshots have an owner: those whose id names a job, or that are marked for one, or that lie where one stores. |
| `Ownership.SingleJobOwns` | src/backuphelper/snapshots.py:117-133 | A single job owns every snapshot whose id names no other job. |
| `SnapshotIds.JobSlug` | src/backuphelper/snapshots.py:41-46 | A slug is never empty and holds only slug characters; a name that is one is kept. |
| `SnapshotIds.StampRoundTrip` | src/backuphelper/snapshots.py:49-65 | Reading a stamp gives the start it was made from, to the second. |
| `SnapshotIds.ParseUndoesNew` | src/backuphelper/snapshots.py:49-69 | Parsing a generated id gives the start to the second and the job's slug. |
| `SnapshotIds.IdOrderIsTimeOrder` | src/backuphelper/snapshots.py:49-52 | A start in an earlier second gives a smaller id, plain or job-scoped. |
| `SnapshotIds.IdsDiffer` | src/backuphelper/snapshots.py:49-52 | Ids differ exactly if their second or their slug does. |
| `StampRules.JobSlugIs` | src/backuphelper/snapshots.py:41-46 | A slug is the job's name with a dash for each character that is no letter, digit, dash or underscore; a dash for no name. |
| `StampRules.ParseStampExactly` | src/backuphelper/snapshots.py:58-61 | A text is read as a start exactly if four digits, then one or two for month, day, hour, minute and second (or a blank and a digit for the day), set off by dashes and an underscore, tell a date of the calendar and a time of the day: this one. |
| `SnapshotIds.IdHasNoDot` | src/backuphelper/snapshots.py:41-52 | A generated id has no dot. |
| `SnapshotKeys.PrefixFinds` | src/backuphelper/runner.py:682-682 | Listing by an id and a dot finds the files of that snapshot, and those of ids that continue it after a dot. |
| `SnapshotKeys.ApartExactly` | src/backuphelper/runner.py:682-682 | The files of two ids are kept apart exactly if the ids differ and neither continues the other after a dot. |
| `SnapshotKeys.NamedIdIsPlain` | src/backuphelper/snapshots.py:55-69 | An id that names a job holds no dot, slash or glob character. |
| `SnapshotKeys.GlobIsPrefix` | src/backuphelper/cli.py:264-265 | For an id without glob characters the engine's globs match just what starts with the id and the ending. |
| `SnapshotKeys.TextInjective` | src/backuphelper/runner.py:643-652 | Different files of snapshots have different keys, whatever their ids. |
| `SnapshotKeys.ManifestSuffix` | src/backuphelper/runner.py:676-677 | The keys that end like manifests are the manifests, and give their id back. |
| `SnapshotKeys.ArchiveGlob` | src/backuphelper/runner.py:340-342 | The archive pattern finds exactly the archives of the snapshot, and the files of ids that go on like one. |
| `SnapshotKeys.KeyOrder` | src/backuphelper/destinations/s3.py:158-169 | Sorted listings put the manifest of a snapshot first, then its marker, then its archive. |
| `SnapshotKeys.NoFileOfAnotherRun` | src/backuphelper/runner.py:682-682 | For different engine ids no file of one starts with the other id and a dot. |
| `SnapshotKeys.NestedPrefixSeen` | src/backuphelper/runner.py:676-677 | What one destination sees of another one's files in the same bucket is no snapshot of its own, if the longer prefix's surplus holds a slash. |
| `Calendar.OrdinalOrder` | src/backuphelper/retention/gfs.py:40-46 | Day numbers order dates as calendars do. |
| `Calendar.IsoWeekByThursday` | src/backuphelper/retention/gfs.py:43-45 | The ISO week of a date is that of its Thursday, and its year is the Thursday's (ISO 8601:2004, section 4.1.4). |
| `Calendar.SameIsoWeek` | src/backuphelper/retention/gfs.py:43-45 | Two dates share the weekly key exactly if they lie in the same Monday-to-Sunday week, year ends included. |
| `Calendar.BucketsGrow` | src/backuphelper/retention/gfs.py:40-46 | Day, week and month keys never decrease with the date. |
| `Retention.KeepForTier` | src/backuphelper/retention/gfs.py:18-31 | The loop keeps exactly the snapshots that have the greatest id of a bucket which fewer than count others come after. |
| `Retention.SelectKeep` | src/backuphelper/retention/gfs.py:34-47 | The union of what the three tiers keep. |
| `RetentionLaws.CountPrunesByRank` | src/backuphelper/retention/count.py:10-18 | An id is pruned by count exactly if at least that many others are greater. |
| `RetentionLaws.CountLeaves` | src/backuphelper/retention/count.py:10-18 | Pruning by count leaves min(count, n). |
| `RetentionLaws.TopBucketCount` | src/backuphelper/retention/gfs.py:30-30 | There are min(count, buckets) newest buckets. |
| `RetentionLaws.TierKeepsOnePerBucket` | src/backuphelper/retention/gfs.py:18-31 | A tier keeps exactly one snapshot, the greatest id, of each of its newest buckets, min(count, buckets) in all. |
| `RetentionLaws.TierKeepStays` | src/backuphelper/retention/gfs.py:18-31 | A snapshot a tier keeps is still kept after others are gone. |
| `RetentionLaws.SelectedExactly` | src/backuphelper/retention/manager.py:17-31 | An id is selected exactly if it is surplus or expired, and protected neither by a tier nor as the last one. |
| `RetentionRules.SelectedByTheRules` | src/backuphelper/retention/manager.py:17-31 | A snapshot is selected exactly if at least count others have greater ids, or it is older than the age limit, and it is not the one with the greatest id of one of the n latest days, Monday-to-Sunday weeks or months that hold a snapshot, nor the greatest of all with smart_last on. |
| `RetentionRules.SelectsExactly` | src/backuphelper/retention/age.py:11-21 | Retention gives an answer exactly unless its age limit reaches before year 1. |
| `RetentionRules.SomethingStays` | src/backuphelper/retention/smart.py:10-15 | With smart_last, under any policy, the snapshot with the greatest id is not selected, so that one always survives. |
| `RetentionRules.PeriodsKeepOne` | src/backuphelper/retention/gfs.py:34-47 | In each of the latest days, weeks and months that hold a snapshot, as many as the tier counts, the one with the greatest id is not selected. |
| `Choices.SelectionIgnoresOrder` | src/backuphelper/retention/manager.py:17-31 | The selection depends on which snapshots there are, not on the order they are listed in. |
| `RetentionLaws.SelectionGrows` | src/backuphelper/retention/manager.py:17-31 | What is selected among some snapshots is selected among more. |
| `RetentionLaws.SelectionShrinks` | src/backuphelper/retention/manager.py:17-31 | After part of the selection is deleted, selecting again gives nothing beyond the rest of it. |
| `RetentionLaws.SelectionSettles` | src/backuphelper/retention/manager.py:17-31 | Selecting among the survivors of a complete retention gives nothing. |
| `RetentionLaws.SelectionResumes` | src/backuphelper/retention/manager.py:17-31 | For ids ordered like their times, selecting again after any part of the selection is deleted gives exactly the rest. |
| `RetentionLaws.SelectionResumesExactly` | src/backuphelper/retention/manager.py:17-31 | Selecting again after every partial deletion gives exactly the rest, if and only if each snapshot that only its rank selects has count newer ones that are kept. |
| `RetentionLaws.UnorderedIdsDoNotResume` | src/backuphelper/retention/manager.py:17-31 | A concrete case where it does not: an engine id of January and a smaller id chosen by a caller, in March. |
| `RetentionLaws.AtMostStay` | src/backuphelper/retention/manager.py:17-31 | With a count of at least 1, at most count + daily + weekly + monthly survive (the smart-protected last one is among them). |
| `RetentionLaws.AtLeastStay` | src/backuphelper/retention/manager.py:17-31 | Without an age limit, at least min(count, n) survive. |
| `RetentionLaws.NewestOfNowStays` | src/backuphelper/retention/manager.py:17-31 | The greatest id with a time of this very second is never selected, under any policy. |
| `RetentionLaws.FreshSnapshotStays` | src/backuphelper/runner.py:703-707 | The snapshot a run has just written is never selected by that run, if the others are engine ids of earlier starts, under every policy and despite the truncated time. |
| `RetentionLaws.EngineIdsOrderedLikeTimes` | src/backuphelper/snapshots.py:49-69 | Engine ids are ordered like the times they tell. |
| `S3Upload.SplitCount` | src/backuphelper/destinations/s3.py:109-127 | The parts of a file are ceil(size / chunk) many. |
| `S3Upload.S3Destination.UploadParts` | src/backuphelper/destinations/s3.py:109-127 | On success the parts split the file and the server holds them all; it fails only after a part has failed five times. |
| `S3Upload.S3Destination.Complete` | src/backuphelper/destinations/s3.py:128-135 | Over retries, the object is the old one or what the server makes of the parts, which are joined in the order listed; once it has changed the upload is gone, so nothing completes it twice; it is given up after just five failures. |
| `S3Upload.S3Destination.PutMultipart` | src/backuphelper/destinations/s3.py:102-146 | On success the object is the file, split as numbered full-size parts. It fails only after five failed calls, or if the server cut the object short; then the object is the old one or a front of the file - the whole of it, unless it was cut short. The upload is left open only if aborting it failed as well. |
| `S3Upload.S3Destination.Put` | src/backuphelper/destinations/s3.py:71-100 | On return the object equals the local file, even on a server that may cut it short and report success. It fails only after five failed calls, or if the object was cut short; then the object is the old one or a front of the file. No other key and no other upload changes; from the threshold on the file is sent as parts. |
| `S3Upload.S3Destination.VerifySize` | src/backuphelper/destinations/s3.py:90-100 | Success means that the object has the size of the file; a failure, five failed calls or another size. |
| `S3Upload.AssembledIsListed` | src/backuphelper/destinations/s3.py:128-135 | What the server puts together by number from the parts it received is what the client listed. |
| `Redaction.MaskPairs` | src/backuphelper/logging_setup.py:56-72 | The scan ends, its position growing at every turn, and gives the masked text. |
| `RedactionRules.QuotedSecretIsHidden` | src/backuphelper/logging_setup.py:41-43 | A secret printed in quotes, its quotes and backslashes escaped: whatever it holds, the line comes out with the key, a mask in the quotes, and the rest masked - it does not depend on the secret. |
| `RedactionRules.BodyIsHidden` | src/backuphelper/logging_setup.py:41-43 | So with every other string in quotes in which no bare quote stands and every backslash comes before a character. |
| `RedactionRules.BareSecretIsHidden` | src/backuphelper/logging_setup.py:41-43 | A secret without blanks that begins with no quote is masked up to the next blank or the end, whatever it is. |
| `RedactionRules.UnclosedSecretIsHidden` | src/backuphelper/logging_setup.py:41-43 | Where a quote is never closed, the secret is masked up to the next blank or the end. |
| `RedactionRules.OtherValuesStay` | src/backuphelper/logging_setup.py:56-67 | The value of any other key stays, and what is in it is looked at in turn. |
| `RedactionRules.TextBefore` | src/backuphelper/logging_setup.py:36-40 | Text without a sign before a key stays as it is and hides no key, if it does not run into its name. |
| `RedactionRules.NoSignNoChange` | src/backuphelper/logging_setup.py:56-72 | A text without `=` and `:` comes out as it is. |
| `RedactionRules.SameTail` | src/backuphelper/logging_setup.py:56-72 | What the scan makes of the rest of a text does not depend on what came before. |
| `RedactionRules.CharactersAre` | src/backuphelper/logging_setup.py:40-40 | The characters of names, the quotes and the signs, letter by letter. |
| `SecretWords.SensitiveExactly` | src/backuphelper/logging_setup.py:21-53 | A name holds a credential exactly if it spells one of seven words, or an api, access or private key, anywhere and in whatever case, or ends in a qualified key, or is sig. |
| `SecretWords.HarmlessKeys` | src/backuphelper/logging_setup.py:28-30 | A name without the letters p, t, d, g and k, such as sha256 or archive_sha256, is none. |
| `SecretWords.ShortKeys` | src/backuphelper/logging_setup.py:25-30 | Of the names of less than five letters only sig and a qualified key are; a bare key is none. |
| `Redaction.SearchIsLeftmost` | src/backuphelper/logging_setup.py:40-40 | The search for a key finds the leftmost one and misses none. |
| `Redaction.NoEarlierSign` | src/backuphelper/logging_setup.py:40-40 | Within a matched key no sign stands before its own. |
| `Redaction.SameKeyAt` | src/backuphelper/logging_setup.py:40-40 | A key match depends only on the characters up to its sign and on whether a name character comes before. |
| `Redaction.MaskIsRead` | src/backuphelper/logging_setup.py:43-43 | A mask put in for a value is read back as a value, whole, and masked as itself. |
| `Redaction.Rescan` | src/backuphelper/logging_setup.py:56-72 | Scanning masked text finds the same keys and only masks for values, from every position on. |
| `Redaction.MaskingIsFinal` | src/backuphelper/logging_setup.py:56-72 | Masking a masked text changes nothing; every credential found in it is a mask; everything outside the values is as in the original, in order - for every rule on key names. |
| `Globs.ParseAppend` | src/backuphelper/sources/filesystem.py:112-121 | A pattern with a slash and star appended means the pattern, a slash, and anything, open brackets included. |
| `Globs.MatchExtends` | src/backuphelper/sources/filesystem.py:115-121 | Whatever lies below a directory that matches P matches P with a slash and star. |
| `Globs.SimpleMatchesExactly` | src/backuphelper/sources/filesystem.py:112-113 | A pattern without star and bracket matches exactly the names of its length with its characters, a question mark standing for any. |
| `Globs.OneStarMatchesExactly` | src/backuphelper/sources/filesystem.py:112-113 | A pattern with one star matches exactly the names that begin like what stands before it and end like what stands after it, without overlap. |
| `Globs.StarMatchesExactly` | src/backuphelper/sources/filesystem.py:112-113 | A star stands for any number of characters, slashes included. |
| `Globs.BracketMatchesExactly` | src/backuphelper/sources/filesystem.py:112-113 | A bracket stands for one character, which the text in it says; a closing bracket in front, or after a leading exclamation mark, belongs to the text. |
| `FilesystemWalk.Visit` | src/backuphelper/sources/filesystem.py:96-108 | The walk with its loop body gathers the files not excluded and reports the directories not listable, in walk order; an unlistable configured path ends it. |
| `FilesystemWalk.Collect` | src/backuphelper/sources/filesystem.py:85-110 | The members of all roots, sorted by name, and the report. |
| `FilesystemWalk.WriteTarGz` | src/backuphelper/sources/filesystem.py:143-166 | The readable members are archived in order and counted, the others reported. |
| `FilesystemWalk.Produce` | src/backuphelper/sources/filesystem.py:58-72 | What a component holds and reports, or why there is none. |
| `FilesystemWalk.PrunedMeansExcluded` | src/backuphelper/sources/filesystem.py:115-121 | Every path below a pruned directory is excluded. |
| `FilesystemWalk.EventsExactly` | src/backuphelper/sources/filesystem.py:91-105 | What the walk comes across, exactly: the files and unlistable directories that only listed and entered directories lead to. |
| `FilesystemWalk.PruningIsFiltering` | src/backuphelper/sources/filesystem.py:99-108 | Not entering pruned directories gives the same files, in the same order, as filtering the full walk. |
| `FilesystemWalk.ArchivedExactly` | src/backuphelper/sources/filesystem.py:85-166 | The archive holds exactly the readable files that no exclude matches and that listable directories lead to; the unreadable ones among them are reported. |
| `FilesystemWalk.DirsReportedExactly` | src/backuphelper/sources/filesystem.py:127-134 | The directories reported are exactly the unlistable ones reached, but for lost+found. |
| `FilesystemWalk.ArchiveIsSorted` | src/backuphelper/sources/filesystem.py:109-110 | Members stand in the archive in the order of their names. |
| `FilesystemWalk.EveryFileAccounted` | src/backuphelper/sources/filesystem.py:85-166 | Every file below a root is excluded, archived or reported, or the first unreadable place on the way to it is reported or is a lost+found. |
| `FilesystemRules.LookupFinds` | src/backuphelper/sources/filesystem.py:86-90 | In a tree, a path leads to at most one node, and looking it up finds it. |
| `FilesystemRules.ArchivedByPatterns` | src/backuphelper/sources/filesystem.py:85-166 | Archived is each readable file that no pattern matches and whose directories can all be listed from a configured root on (the configured path, if there are none); where it cannot be read, it is reported. |
| `FilesystemRules.DirsReportedByPatterns` | src/backuphelper/sources/filesystem.py:115-134 | Reported is each directory below a root that cannot be listed, and a root that is none, though all above it can be - unless it is a lost+found, or a pattern that ends in a slash and star matches it, or a directory above it, with its stem. |
| `FilesystemRules.NotReadableExactly` | src/backuphelper/sources/filesystem.py:58-72 | There is nothing to back up exactly if the configured path does not exist, or is walked from and is no directory that can be listed. |
| `FilesystemRules.EachFileOnce` | src/backuphelper/sources/filesystem.py:85-166 | Where no root lies below another, no file is archived twice. |
| `Overrides.SlotAfterAssign` | src/backuphelper/config/loader.py:225-231 | What an assignment leaves under every key of a container: the value, fillers in a list, all else as before, and nothing changed if the key does not fit. |
| `Overrides.InconsistentChangesNothing` | src/backuphelper/config/loader.py:202-231 | Setting a path that does not fit the tree changes nothing. |
| `Overrides.SetThenGet` | src/backuphelper/config/loader.py:202-222 | A path reads what was set exactly if it fits the tree. |
| `Overrides.SetThenGetElsewhere` | src/backuphelper/config/loader.py:202-231 | Every path that diverges from the one set reads as before, but for the places a list was filled up with, which read an empty object. |
| `Overrides.CompatibleCommute` | src/backuphelper/config/loader.py:202-231 | Two compatible overrides give the same tree in either order. |
| `Overrides.CommuteExactly` | src/backuphelper/config/loader.py:202-231 | Two paths, neither a prefix of the other, can be set in either order on every tree exactly if they are compatible: where they part below a shared key they use it for one kind of container, and none is padded over by the other. |
| `Overrides.AnyOrder` | src/backuphelper/config/loader.py:108-117 | Overrides that are pairwise compatible give the same tree in every order, list padding included. |
| `OverridesInPlace.AssignTo` | src/backuphelper/config/loader.py:225-231 | In place: the key holds the value, a list is filled up with new empty objects, every other slot is as before. |
| `OverridesInPlace.StepDown` | src/backuphelper/config/loader.py:204-214 | One turn of the loop goes to the child, creating it where it is missing or null, and stays an account of the way down. |
| `OverridesInPlace.SetPath` | src/backuphelper/config/loader.py:202-214 | In place, the document stands for the tree with the path set, nothing in it shared. |
| `OverridesInPlace.Load` | src/backuphelper/config/loader.py:126-147 | A JSON value is built of new containers that stand for it. |
| `OverridesInPlace.ApplyOverrides` | src/backuphelper/config/loader.py:108-117 | In place, the document stands for the tree with every override set in turn. |
| `OverridesInPlace.Climb` | src/backuphelper/config/loader.py:202-214 | From the end of the path up to the root, every container shows the tree with the path set. |
| `OverrideNames.SplitJoin` | src/backuphelper/config/loader.py:115-115 | Splitting a name undoes joining its segments. |
| `OverrideNames.AddressableExactly` | src/backuphelper/config/loader.py:110-117 | The prefix and the joined segments address their path exactly if there are two segments or more, or the only one begins with an underscore. |
| `OverrideNames.SpelledPathExactly` | src/backuphelper/config/loader.py:110-117 | Segments that spell a path - a number, leading zeros or not, for a list entry, anything else for a name in lower case, however it is written - address that path under the same condition. |
| `OverrideNames.LeadingSeparator` | src/backuphelper/config/loader.py:110-117 | A separator before the first segment adds nothing to the path, so that every path has a name. |
| `PostgresListing.NulRowsRoundTrip` | src/backuphelper/sources/postgres.py:569-577 | The row reader recovers every list of rows of NUL-free fields. |
| `PostgresListing.DumpKeys` | src/backuphelper/sources/postgres.py:459-471 | The keys of all lines that are entries, each without its owner. |
| `PostgresListing.EntryTextOfPrinted` | src/backuphelper/sources/postgres.py:147-153 | An entry printed in the listing's format is read back up to its owner. |
| `PostgresListing.OwnerLeftOffExactly` | src/backuphelper/sources/postgres.py:463-470 | The key is recovered exactly if no listed role is a longer suffix of the entry than its owner, and the owner is listed, or no role is a suffix and the owner holds no blank. |
| `PostgresListing.KeyRecoveredExactly` | src/backuphelper/sources/postgres.py:459-471 | The same from the printed line to the set of keys. |
| `ListingRules.EntryTextExactly` | src/backuphelper/sources/postgres.py:147-153 | What is read of a line, exactly: what follows a number and a semicolon, one of five catalogs, and another number, each set off by blanks. |
| `ListingRules.OtherCatalogIsSkipped` | src/backuphelper/sources/postgres.py:147-153 | An entry of any other catalog is passed over. |
| `ListingRules.KeysExactly` | src/backuphelper/sources/postgres.py:459-471 | Of a whole listing whose owners are clear from the roles, the keys of the entries are found, and nothing else. |
| `ListingRules.RowsWithTail` | src/backuphelper/sources/postgres.py:569-577 | What follows the last separator counts as a field unless it is blank; a row short of fields is dropped. |
| `PostgresReplacement.ReplacementPrelude` | src/backuphelper/sources/postgres.py:493-499 | One DROP for each type of object in the fixed order, then the schemas the dump creates. |
| `PostgresReplacement.NamedExactlyOnce` | src/backuphelper/sources/postgres.py:428-445 | Each relation of a snapshot schema and each absent routine or type planned is named once, in one DROP, and nothing else is. |
| `PostgresReplacement.WhatIsLeftIsInTheDump` | src/backuphelper/sources/postgres.py:408-445 | After the prelude and its cascades, what is left in a snapshot schema is a routine or type the dump holds; no foreign key onto one is left, and nothing in a schema the dump creates. |
| `PostgresReplacement.PlainLeavesNothingElse` | src/backuphelper/sources/postgres.py:420-427 | Without a replacing restore, nothing in the snapshot's schemas is missing from the dump and no partitioned table of the dump exists. |
| `PostgresReplacement.ReplacingSharesARelation` | src/backuphelper/sources/postgres.py:428-436 | Relations are only dropped where the dump holds at least one of them. |
| `PostgresReplacement.RecreatedExactly` | src/backuphelper/sources/postgres.py:418-419 | The schemas the dump creates are those it lists, but for public. |
| `PostgresRules.PlanExactly` | src/backuphelper/sources/postgres.py:410-436 | The restore is plain exactly if no partitioned table of the dump is in the target and nothing there stands in the way; else it is refused exactly if the target holds relations of the schemas both hold, none of which the dump holds. |
| `PostgresRules.DroppedExactlyOnce` | src/backuphelper/sources/postgres.py:410-445 | Dropped by name, once, is each relation of a schema that target and dump both hold relations of, and each routine or type in the way; nothing else. |
| `PostgresRules.SchemasDroppedExactly` | src/backuphelper/sources/postgres.py:497-499 | The last statement drops whole just the schemas the dump creates. |
| `PostgresRules.DropsInOrder` | src/backuphelper/sources/postgres.py:142-143 | Each type is dropped in one statement, views before tables, tables before sequences, routines before types, the schemas last. |
| `PostgresRules.MissingExactly` | src/backuphelper/sources/postgres.py:437-445 | Listed as missing from the dump is all that stands in the way, but no foreign key of a table that is missing itself. |
| `PostgresRules.KeyIs` | src/backuphelper/sources/postgres.py:171-174 | The key of each kind of object as the listing prints it. |
| `RunState.StateDir.RecordRun` | src/backuphelper/state.py:82-91 | The job's own file holds the run's record, or is as before if the write failed. |
| `RunState.StateDir.ReadRuns` | src/backuphelper/state.py:101-113 | Exactly the records that can be read. |
| `RunState.SharedFileExactly` | src/backuphelper/state.py:59-61 | Two jobs share a record file exactly if their names differ only in characters that become an underscore, underscores included. |
| `RunState.OthersKeepFile` | src/backuphelper/state.py:82-91 | Whatever jobs with other record files record, a job's record stays. |
| `RunState.JobFileIs` | src/backuphelper/state.py:59-61 | A job's file is named after it, with an underscore for each character that is no letter, digit, dot, dash or underscore. |
| `RunState.RecordFilesExactly` | src/backuphelper/state.py:101-104 | The files read as records are those the glob finds. |
| `Healthcheck.DataDir.ManifestRuns` | src/backuphelper/healthcheck.py:65-82 | Exactly the runs the readable manifests tell. |
| `Healthcheck.DataDir.RecordRuns` | src/backuphelper/healthcheck.py:85-94 | Exactly the runs the records tell. |
| `Healthcheck.DataDir.Check` | src/backuphelper/healthcheck.py:144-170 | For the runs the data dir holds: with several jobs, healthy exactly if every job is by its own runs and max age, so one job's good run never masks another's failure; never healthy if not writable. |
| `Healthcheck.RecordIsLatest` | src/backuphelper/healthcheck.py:115-129 | A job's record beats every manifest of its own that is not newer, the one of the same run included. |
| `Healthcheck.VerdictAfterRun` | src/backuphelper/healthcheck.py:115-170 | While a recorded run is the job's newest, the job is healthy exactly if the run did not end in error and is no older than the max age, whatever other jobs with record files of their own record. |
| `Healthcheck.HealthyBeforeAnyRun` | src/backuphelper/healthcheck.py:115-127 | Before any run, all is well exactly if the daemon has been up for no longer than every job's max age, its own or else the default one. |
| `Healthcheck.HealthyAfterRuns` | src/backuphelper/healthcheck.py:129-170 | Once every job has run, all is well exactly if no job's last run ended in error and none is older than the job's max age, its own or else the default one. |
| `Healthcheck.HealthyOfOne` | src/backuphelper/healthcheck.py:129-170 | With one job or none every run counts, and the newest one decides. |
| `Healthcheck.NeverMisledExactly` | src/backuphelper/state.py:59-61 | The verdict on a job is right whatever another job records, exactly if the two have record files of their own. |
| `Healthcheck.SharedFileHidesFailure` | src/backuphelper/state.py:59-61 | For any two jobs that share a record file, a run of the one leaves the other, whose only run failed, healthy. |

## Left out

- Encoding and transport: tar, gzip, sha256, encryption, boto3 and tenacity internals, S3 list pagination, file modes; encryption only picks the archive's file name.
- Sources other than the filesystem, hooks, plugins, notifications, logging, the staging area, the scheduler's timing.
- `restore_snapshot` after hydration, `download`, `show`, `verify`, `list`: they read and compute only.
- Runner.Run.Hydrate: assumes the snapshot is not marked pending, the only case in which the invariant holds at every step (`Protocol.DownloadIsSafeExactly`), and, beside other jobs, an id that names the job.
- Runner.Run.RunJob: assumes at most one local destination (see `Deliveries.JobDeliversSafelyExactly`), a free id (`Protocol.IsFree`), and, beside other jobs, a new id that names the job; `others` is any environment within `Rely`, not the scheduler's code. Problems reported by the sources, by encryption and the summary line for a snapshot stored nowhere are left out.
- Runner.Run.PutS3: a single step; that retried calls amount to it is proved on its own, in `S3Upload`.
- Protocol.StepSafe: speaks of snapshots built by runs of the model; files of other origin in the data dir or a bucket are not part of the world.
- Protocol.ListedOffsiteIsComplete: for S3 places without a race (`Crossings.ListingsStayCompleteExactly`); in the data dir a local copy is dropped archive first, so a listing there can be incomplete for a moment.
- Crossings.ListingsStayCompleteExactly: the clocks of the runs are free, and a run beside others may take any free id that names its job; the engine takes that of its start, as in the runs behind `Crossings.EngineListingsStayCompleteExactly`.
- Prune.DataDir.Prune: with no run under way; beside one, unlinking in any order can take a marker before its manifest, which the jobs' `Rely` does not allow.
- Places are compared by endpoint, bucket and prefix; that the engine joins them with a bar, which a bucket name cannot hold, is not modelled. `SnapshotKeys.NestedPrefixSeen` assumes how prefixes in one bucket lie to each other.
- SnapshotIds.ParseUndoesNew: years 1000 to 9999, as `strftime` pads no shorter year on every platform; that `strptime` also accepts digits outside ASCII is not modelled.
- Retention.KeepForTier: iterates a list of distinct ids; Python's order of equal keys plays no part.
- Orders that no result depends on (set iteration, sorted listings where only membership matters, the order of report lines) are left open.
- S3Upload.S3Destination.Put: the chunk size may be any number, but the numbering and sizes of parts are claimed for a positive one; a file that changes while it is read is not modelled.
- Redaction.MaskingIsFinal: the pair scanner only; the user:password part of URLs and `redact_data` are left out. Lower-casing is modelled for ASCII and the two letters outside it that matter to the names.
- FilesystemWalk.EveryFileAccounted: no symbolic links, `stat` always succeeds, roots are relative paths without dot-dot; the cap of twenty lines on the reported warnings is left out.
- Globs.MatchExtends: for every meaning of the text between brackets; the ranges in it are not modelled.
- Overrides.SetThenGet: on trees whose values are null, text, lists and objects; how a value is read by the type of its field is left out, `_deep_merge` too.
- OverridesInPlace.SetPath: the document is a tree; a YAML file whose anchors make two places share a container is not modelled.
- OverrideNames.AddressableExactly: ASCII names; digits outside ASCII are not modelled.
- PostgresListing.DumpKeys: takes the lines of the listing as they are; splitting at the rarer line separators is left out, and digits are ASCII.
- PostgresReplacement.WhatIsLeftIsInTheDump: the tables at both ends of every foreign key are among the rows, as the catalog query lists them for a role that may drop them; the SQL text, quoting and the order of names within a statement are left out, and so is the plan that drops nothing on older servers.
- RunState.StateDir.RecordRun: atomic, by the rename; the temporary file is left out.
- Healthcheck.VerdictAfterRun: times are whole microseconds; reading a max age in fractions of hours is left out, and the reason texts too.
- Cron schedules, the daemon's queue, and the exit status of `--now` are left out.
