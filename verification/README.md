# Backup and restore of a DingoDB cluster: a verified model

This project models the backup and restore program of dingo-store (`src/br`) in Dafny and proves what it promises,
or, where it breaks a promise, exactly when.

* **Restoring regions** (`WorkerPool*`, `RegionStack`, `RestoreRun*`, `RegionWait`, `RegionEpoch`). A restore manager
  hands a stack of regions to concurrent workers. Every load and store of a shared variable is a step, a schedule is
  any sequence of steps with any server answers, and the theorems speak about all schedules: regions are conserved,
  dispatched at most once and in ascending order, a clean answer means all of them are done, and over a whole restore
  no data is loaded into a region that has not been created.
* **Backing up regions** (`RegionFilter`, `BackupWorkers`, `BackupWorkerCases`). The cluster's regions are sorted into
  seven lists, and three workers go through them while `Run` watches counters and flags.
* **The files** (`Decimal`, `Entities`, `StringOrder`, `IdKeys`, `FileSlots`, `BackupFiles`, `Manifest`, `ManifestCheck`,
  `RestoreFiles`, `ManifestTheorems`, `BackupRoot`, `RootTheorems`, `FileName`, `RegionDiff`). What a backup writes is
  what a restore reads; as long as the file with the code of `backupmeta` says the same, a directory that has been
  changed is refused unless SHA-1 codes collide; and what the `diff` tool calls equal.
* **End to end** (`EndToEnd`). From the regions of the cluster to what a restore reads, under every schedule of the
  backup's workers: nothing else comes back, and everything does exactly if the workers were not stopped.
* **The cluster around it** (`ClusterControl`, `Lifecycle`, `GcSafePoint`, `Heartbeat`, `Interaction`, `BroadcastReach`,
  `ControlBroadcast`). Switches are turned off and on again, the job is registered and unregistered, requests find the
  leader, and broadcasts go round and may miss a node.

Shared state that the program updates in place is a class with methods; loops are loops with invariants; threads are
step functions over a state with a history.

## What does not hold

Each of these has a concrete case and a theorem with the exact condition, except for the first one, where the condition
on loads goes one way.

* A restore manager whose wait for the exit flags times out can answer OK although a region was refused
  (`TimeoutHidesFailure`), and then the restore loads data into a region that was never created
  (`LoadWithoutCreation`). An OK answer means a finished pool exactly if the stop flag is down (`ReturnedOk`); without
  such a hidden failure no load comes before its creation (`LoadAfterCreate`). The converse does not hold: a failure
  that is hidden after the creation was accepted does no harm to the load.
* The data phase of a backup can answer OK after a refusal in two ways: `Run` looks before the error is noted
  (`FailureReturnsOk`), or a worker without an error overwrites it (`ErrorOverwritten`). The answer is an error exactly
  if the status noted last is one (`StatusExactly`); the lists are complete exactly if the stop flag is down
  (`RunCompleteExactly`), and only then does a restore of that backup bring every region back
  (`EndToEnd.BackupAndRestore`).
* If the launch of a later worker fails, an earlier one still writes to a flag on the stack of the `Run` that is over
  (`LaunchFailureDangles`), exactly if it has not raised that flag yet (`FlagsSafeExactly`). With the thread library that
  the build selects, a launch does not fail in this way.
* Waiting for regions ends in success when the retries are used up (`GivesUpSilently`); success means ready exactly if
  every region answered well in time (`SuccessMeansReady`).
* A broadcast with one node down for one call answers OK, and each node has accepted exactly once if and only if that
  call was the first one (`BroadcastWithOneDown`). In general, whichever calls find their node down and wherever the
  broadcast begins, each node has accepted exactly once if and only if no two accepted calls lie a multiple of the
  number of nodes apart (`BroadcastReach.Broadcast`).
* Nothing anchors the code file of a backup: with it replaced as well, any other backup is restored in the place of
  the one that was taken (`ReplacedAccepted`), and a replacement is noticed exactly if the code file does not fit its
  root (`NoticedExactly`).
* A first registration that some coordinators accept and another one does not is never taken back (`HalfRegistered`).
  If everybody hears the unregistration, the task stays at a coordinator exactly in this case or when a restore is
  abandoned (`BackupUnregistered`, `RestoreUnregistered`).
* Such a broadcast ends with a node that has been asked before, whose answer says that nothing was changed. So the
  switches that it turned off are never turned on again, although every call reports success (`OffAndOnWithOneDown`,
  `BackupForgets`).
* Nodes that disagree come back alike (`DisagreementLost`). Whoever is reached, the switches come back exactly under
  the conditions of `BackupNeutral` and `RestoreNeutral`; with clean broadcasts that is exactly if the nodes agreed
  (`BackupNeutralClean`, `RestoreNeutralClean`). A restore whose data phase fails leaves them off (`AbandonedStaysOff`).
* A backup exits with success and without a manifest when the id epochs cannot be read (`SuccessWithoutManifest`);
  after success there is one exactly if the id epochs and the table increments were read (`Lifecycle.Backup.Perform`).
* The guard on the number of parts of a file name never fires, so the list of parts is read past its end
  (`TooFewParts`), exactly for names with one dot and fewer than four underscores before it (`OutOfBoundsExactly`).
* Two groups that differ can count as equal for the `diff` tool (`HiddenDifference`); with one file per column family
  they do exactly if they have the same metas (`SameUpToOrder`).

Two comparisons turn out to be without effect, and are proved to be: the second look at groups without region lists never
finds any (`DoubleCheck`), and the comparison of the sizes of two group files compares one size with itself, while the
verdict is right all the same (`CompareRegionCf`).

## Model

| member | source | states |
|---|---|---|
| WorkerPoolTheorems.Conservation | src/br/restore_region_meta_manager.cc:306-387 | In every schedule and for every class of regions: each one is stacked, held by one worker, counted, or dropped with an error or the stop flag; the atomic counter is the number counted |
| WorkerPoolTheorems.PopOrder | src/br/restore_region_meta_manager.cc:63-98 | The pops are a prefix of the ordered map's entries, so regions are handed out by ascending id |
| WorkerPoolTheorems.AtMostOnce | src/br/restore_region_data_manager.cc:280-388 | No region is popped, sent or accepted twice, whatever the schedule |
| WorkerPoolTheorems.FullCounter | src/br/restore_region_data_manager.cc:120-225 | A full counter means that each region was counted once, each one that is not skipped was accepted once, and the stop flag is down |
| WorkerPoolTheorems.ReturnedOk | src/br/restore_region_meta_manager.cc:100-205 | After an OK answer the stop flag is down if and only if all regions are counted; without a timeout it is down |
| WorkerPoolTheorems.CleanRun | src/br/restore_region_meta_manager.cc:100-205 | OK with all exit flags seen: every region was created or loaded exactly once |
| WorkerPoolTheorems.FailureReported | src/br/restore_region_data_manager.cc:120-225 | With the stop flag up and all exit flags seen, the answer is an error |
| WorkerPoolTheorems.FewLateRequests | src/br/restore_region_data_manager.cc:280-388 | After the stop flag goes up, each other worker begins at most one more request |
| WorkerPoolTheorems.BoundedEffort | src/br/restore_region_meta_manager.cc:306-387 | In every schedule the workers take at most ten steps per region and six per worker |
| WorkerPoolTheorems.TimeoutHidesFailure | src/br/restore_region_data_manager.cc:120-225 | A schedule in which the exit wait times out and the manager answers OK although its only region was refused |
| WorkerPoolProofs.ExecAccounted | src/br/restore_region_meta_manager.cc:306-387 | The balance between regions taken, sent, accepted, held and ended, in every reachable state |
| WorkerPoolProofs.ExecFlagged | src/br/restore_region_meta_manager.cc:100-205 | An exit flag that is up belongs to a worker that has left, in every reachable state |
| WorkerPoolProofs.ExecAnswered | src/br/restore_region_meta_manager.cc:100-205 | In every reachable state the stop flag has a dropped region behind it, and its error is recorded before that worker leaves |
| RegionStack.Init | src/br/restore_region_meta_manager.cc:63-98 | The stack, read from its end, lists the entries of the ordered map by ascending id; it is the stack the workers start with |
| RestoreRun.NoPhaseAfterError | src/br/restore_data_base.cc:448-518 | No manager starts before the previous one has answered OK |
| RestoreRun.LoadAfterCreate | src/br/restore_data_base.cc:448-518 | Over any interleaving of all threads of a restore, every load of a region comes after its accepted creation, unless a timeout has hidden a failure |
| RestoreRun.LoadAfterCreateNoTimeout | src/br/restore_data_base.cc:448-518 | The same for every run without a timeout, event by event |
| RestoreRun.VerdictOk | src/br/restore_data_base.cc:448-518 | The restore answers OK only if every manager did |
| RestoreRun.RestoreComplete | src/br/restore_data.cc:249-273 | A restore that ends with OK has created every region and loaded every non-empty group exactly once |
| RestoreRun.PlanWellFormed | src/br/restore_data_base.cc:448-518 | In the order in which the managers are called, a region is always created in an earlier phase than it is loaded |
| RestoreRunCases.LoadWithoutCreation | src/br/restore_data_base.cc:448-518 | A run in which a timeout hides a refused creation and the load of that region is sent |
| RegionWait.WaitForRegionFinish | src/br/restore_region_meta_manager.cc:209-261 | Fails if and only if a region that is still on the list gets a hard answer, and with that answer; otherwise OK, and the list holds exactly the regions that never answered well |
| RegionWait.PollOnce | src/br/restore_region_meta_manager.cc:228-243 | One pass that erases while it goes keeps exactly the regions that are not ready, in order |
| RegionWait.SuccessMeansReady | src/br/restore_region_meta_manager.cc:209-261 | Nothing is left on the list if and only if every region answered well within the rounds |
| RegionWait.GivesUpSilently | src/br/restore_region_meta_manager.cc:248-261 | With regions that stay without a leader, the wait succeeds and all of them are left |
| RegionEpoch.RestoreRegionData.SendRegionRequest | src/br/restore_region_data.cc:142-221 | The outcome for every script: nothing to do without SST files; every request but the last met an objection to the epoch and a refreshed one; the last one decides, and OK means accepted; still under way only while waiting or at the end of the script; against an honest server at most two requests more than changes of the epoch before the last request |
| RegionEpoch.EnoughChanges | src/br/restore_region_data.cc:142-221 | Against an honest server k objections in a row take at least k - 1 changes of the epoch |
| RegionFilter.FilterSqlData | src/br/backup_sql_data.cc:48-76 | The three lists are the sql data regions of their kind, in the cluster's order |
| RegionFilter.FilterSdkData | src/br/backup_sdk_data.cc:47-84 | The three lists are the sdk regions of their kind, with transactional ones only if asked for |
| RegionFilter.FilterSqlMeta | src/br/backup_meta_base.cc:52-75 | The list is the store regions among the listed sql meta regions |
| RegionFilter.Partition | src/br/backup_sql_data.cc:48-76 | Over all seven lists together each region occurs as often as the cluster reports it, or not at all if it is omitted |
| RegionFilter.OmittedExactly | src/br/backup_sdk_data.cc:47-84 | The exact condition under which a region is in no list |
| RegionFilter.SelectDistinct | src/br/backup_data_base.cc:177-181 | Distinct ids stay distinct in every list |
| BackupWorkers.RunComplete | src/br/backup_sql_data.cc:148-273 | If `Run` finds the stop flag down, each list got one accepted answer per region in list order, and the save map is what these answers amount to |
| BackupWorkers.RunCompleteExactly | src/br/backup_sql_data.cc:148-273 | When `Run` returns, the stop flag it saw is down if and only if every list was worked through to its end |
| BackupWorkers.SavedExactly | src/br/backup_data_base.cc:337-339 | The save map has exactly the regions with a non-empty answer, each with its answer |
| BackupWorkers.SavedWithin | src/br/backup_data_base.cc:337-339 | At any time of any schedule, a save map has only regions of its list |
| BackupWorkers.FlagsOutliveWorkers | src/br/backup_sdk_data.cc:150-280 | After `Run` has returned, no worker touches the exit flags on its stack any more, in any continuation |
| BackupWorkers.FlagsSafeExactly | src/br/backup_sql_data.cc:148-237 | After `Run` is over, somebody can still write to an exit flag if and only if a started worker has not raised its own; after a return that is not due to a failed launch nobody can |
| BackupWorkers.StatusExactly | src/br/backup_sql_data.cc:253-255 | The answer is an error if and only if the stop flag was seen up and the status noted last at that moment is an error |
| BackupWorkerCases.FailureReturnsOk | src/br/backup_data_base.cc:343-347 | A schedule in which a region is refused and `Run` looks before the error is noted: OK |
| BackupWorkerCases.ErrorOverwritten | src/br/backup_data_base.cc:343-347 | A schedule in which the noted error is overwritten by a worker that leaves without one: OK |
| BackupWorkerCases.LaunchFailureDangles | src/br/backup_sql_data.cc:173-194 | A schedule in which a launch fails, `Run` is over, and an earlier worker is about to write to its flag |
| Decimal.RoundTrip | src/br/restore_data_base.cc:865-866 | Reading back a printed 64-bit id gives that id |
| Decimal.Injective | src/br/backup_data_base.cc:179-181 | Two ids have the same key if and only if they are equal |
| IdKeys.EncodeAdd | src/br/backup_data_base.cc:230-233 | Adding a pair to a file keyed by ids is adding an id to what it holds |
| IdKeys.DecodeInverts | src/br/restore_data_base.cc:841-909 | What can be read from a file keyed by ids is what was written, and nothing else |
| IdKeys.DecodesUnique | src/br/restore_data_base.cc:841-909 | There is only one result of reading a file: per id the value of the first key that reads as it |
| FileSlots.NamesDistinct | src/common/constant.h:298-313 | The twelve data files and the manifest have different names |
| BackupFiles.FirstKeepsAll | src/br/backup_data_base.cc:177-181 | With distinct ids, no region is lost on the way to the file |
| BackupFiles.RegionKvs | src/br/backup_data_base.cc:177-181 | The pairs are the first region of each id, keyed by the id |
| BackupFiles.GroupKvs | src/br/backup_data_base.cc:229-233 | The pairs are all groups, keyed by the id |
| BackupFiles.BackupDataBase.DoBackupRegion | src/br/backup_data_base.cc:170-220 | An empty list writes nothing; otherwise the file is added unless it cannot be written, and its description unless its code cannot be computed either |
| BackupFiles.BackupDataBase.DoBackupCfSstMeta | src/br/backup_data_base.cc:222-275 | The same for a map of SST groups, under the node it came from |
| BackupFiles.BackupDataBase.Backup | src/br/backup_data_base.cc:63-168 | After success the files of all six slots of the source are there and the descriptions are those of the non-empty ones; what was there stays |
| Manifest.ManifestLists | src/br/backup_data.cc:234-248 | Keying the descriptions by file name loses none: the manifest lists exactly the non-empty slots |
| Manifest.Emplace | src/br/backup_data.cc:236-240 | One loop over descriptions adds those whose file name is new |
| Manifest.BackupData.Save | src/br/backup_data.cc:192-226 | Sql and sdk data end up in the directory side by side |
| Manifest.BackupData.Finish | src/br/backup_data.cc:228-285 | After success the directory is a finished backup: files, manifest and the manifest's own description agree; there is none if and only if there was nothing to save |
| ManifestCheck.OnlyDescription | src/br/utils.cc:293-345 | The field by field comparison succeeds for one description only: the one a backup writes for that file |
| ManifestCheck.Extract | src/br/restore_data_base.cc:841-872 | Succeeds if and only if every key is a number in range and every value parses; then the result is the decoding of the file; otherwise the first bad entry decides how it fails |
| ManifestCheck.RestoreDataBase.Init | src/br/restore_data_base.cc:71-446 | Succeeds if and only if each listed file of the source exists, matches its description and can be read, no groups come without their region list, and there is a node for every kind of region; then all of them are read |
| RestoreFiles.RestoreData.CheckBackupMeta | src/br/restore_data.cc:313-333 | Succeeds if and only if there is no manifest or it matches its description |
| RestoreFiles.RestoreData.CheckDatafileKvs | src/br/restore_data.cc:335-423 | Succeeds if and only if no SST groups are listed without their region list |
| RestoreFiles.RestoreData.ExtractFromBackupMeta | src/br/restore_data.cc:425-659 | Succeeds if and only if the pairs are complete and all listed descriptions parse; then each listed slot has its description |
| RestoreFiles.RestoreData.DoubleCheck | src/br/restore_data.cc:77-112 | Never fails |
| RestoreFiles.RestoreData.Init | src/br/restore_data.cc:56-247 | Succeeds if and only if the whole backup is in order and there is a node for every kind of region; then exactly the listed files have been read |
| ManifestTheorems.BackupRestorable | src/br/restore_data.cc:56-247 | A finished backup satisfies every condition of a restore if and only if no kind of region has groups but no region list |
| ManifestTheorems.GroupsOfListed | src/br/backup_data_base.cc:337-339 | Groups saved only for listed regions satisfy that condition |
| ManifestTheorems.RunsSupported | src/br/backup_data_base.cc:277-350 | What the region workers leave behind, in any schedule, satisfies the condition under which a backup can be restored |
| ManifestTheorems.RoundTripAll | src/br/restore_data_base.cc:841-909 | What a restore reads from a finished backup is what the backup was given: every non-empty slot, nothing else, unchanged |
| ManifestTheorems.StaffedExactly | src/br/restore_data_base.cc:203-446 | A finished backup finds its nodes if and only if there is one for every kind with a region |
| ManifestTheorems.BackupThenRestore | src/br/backup_data.cc:192-285 | Saving, finishing and opening again: it succeeds if and only if no kind has groups without regions and each kind with regions has a node, and gives back exactly what was saved |
| ManifestTheorems.TamperingRefused | src/br/utils.cc:293-345 | For a given description of the manifest, and whatever was done to the files below the root: a restore refuses them, or they still hold that backup, or one of them was replaced by another one of the same size and SHA-1 code |
| BackupRoot.RootHolds | src/br/backup.cc:473-509 | The root gives back the description that was put into it, and can be read if and only if data comes with some of the meta entries |
| BackupRoot.WriteRoot | src/br/backup.cc:510-623 | Succeeds if and only if root, code and debug file can be written and the root read; then the code file holds the code of the root |
| BackupRoot.CheckRoot | src/br/restore.cc:581-649 | Succeeds if and only if the first word of the code file is the code of the root that is there |
| BackupRoot.ReadRoot | src/br/restore.cc:92-497 | Succeeds if and only if parameters and version are there, every entry parses, and data comes with some of the meta entries; then the manifest's description is the one in the root |
| BackupRoot.Open | src/br/restore.cc:84-579 | A directory is opened if and only if code, root, manifest, files and nodes are all in order; then exactly the listed files have been read |
| RootTheorems.WholeAccepted | src/br/restore.cc:581-649 | A whole backup is accepted if and only if no kind has groups without regions, each kind with regions has a node, and data comes with some of the meta entries |
| RootTheorems.WholeRoundTrip | src/br/restore.cc:351-579 | What is read from a whole backup is what was saved |
| RootTheorems.TamperingRefusedFromRoot | src/br/restore.cc:581-649 | Whatever was done to a directory whose code file says the same: it is refused, or it still holds that backup, or the root, the manifest or a data file was replaced by another one with the same SHA-1 code (below the root also of the same size) |
| RootTheorems.ReplacedAccepted | src/br/restore.cc:581-649 | With the code file replaced too, any other backup that can be restored is accepted, and what is read is that one |
| RootTheorems.NoticedExactly | src/br/restore.cc:581-649 | A backup in the place of another one is accepted if and only if the code file fits its root |
| RootTheorems.SaveAndOpen | src/br/backup.cc:473-623 | Files, manifest, root and code written to an empty directory and opened again: when that succeeds, and that it gives back exactly what was saved |
| EndToEnd.AnswerKept | src/br/backup_data_base.cc:337-339 | A region on a finished list has one answer, which is saved if and only if it is not empty |
| EndToEnd.RegionCameBack | src/br/backup_data.cc:192-285 | A data region of a source that was not stopped comes back as it was, with the files of its one answer if and only if there are any |
| EndToEnd.OnlyData | src/br/backup_sql_data.cc:48-76 | Whatever the schedule, only data regions of the cluster come back |
| EndToEnd.Unanswered | src/br/backup_sql_data.cc:148-273 | If `Run` found the stop flag up, some region on its lists got no answer |
| EndToEnd.WholeExactly | src/br/backup_sql_data.cc:148-273 | With no region id twice, every data region of a source comes back if and only if its `Run` found the stop flag down |
| EndToEnd.GoesAhead | src/br/restore_data_base.cc:203-446 | Whatever the workers leave behind can be restored; the nodes suffice if and only if each data region has one of its kind; there is a manifest if and only if there is a data region |
| EndToEnd.BackupAndRestore | src/br/backup_data.cc:192-285 | Filters, workers under any schedule, files, manifest and root, then the restore: when the backup is saved, when the restore goes ahead, that nothing else comes back, and that a source comes back whole if and only if its `Run` found the stop flag down |
| FileName.Split | src/br/tool_utils.cc:99-112 | The parts are those between the delimiters |
| FileName.JoinOfPieces | src/br/tool_utils.cc:99-112 | Joining the parts gives the text, and no part holds the delimiter |
| FileName.PiecesCount | src/br/tool_utils.cc:99-112 | There is one more part than there are delimiters |
| FileName.PiecesOfJoin | src/br/tool_utils.cc:99-112 | Splitting what was joined from parts without the delimiter gives these parts |
| FileName.ParseFileName | src/br/tool_diff.cc:3682-3718 | The outcome for every text: rejected, read past the end, conversion thrown, or the five parts |
| FileName.OutOfBoundsExactly | src/br/tool_diff.cc:3694-3705 | The list of parts is read past its end if and only if the name has one dot and fewer than four underscores before it |
| FileName.TooFewParts | src/br/tool_diff.cc:3694-3705 | Names that the guard does not reject and that are read past the end |
| FileName.BuiltNameParses | src/engine/txn_engine_helper.cc:5672-5673 | A name built by the store is taken apart correctly if and only if the column family has no dot |
| FileName.ParsedIsName | src/br/tool_diff.cc:3682-3718 | A parsed name is its parts put together |
| RegionDiff.CommonIdInjective | src/br/tool_diff.cc:2799-2804 | Region id and column family can be told from the common key |
| RegionDiff.TablesDecide | src/br/tool_diff.cc:2798-2812 | Comparing the tables by common key is comparing the latest meta of every region and column family |
| RegionDiff.CompareMeta | src/br/tool_diff.cc:2867-2979 | The verdict stays true if and only if all six fields agree |
| RegionDiff.CompareGroup | src/br/tool_diff.cc:2785-2865 | The verdict stays true if and only if the groups have the same latest metas |
| RegionDiff.CompareRegionCf | src/br/tool_diff.cc:2690-2751 | True if and only if both files have the same keys and, for each key, groups with the same latest metas |
| RegionDiff.CompareRegionData | src/br/tool_diff.cc:3637-3669 | True if and only if the two files hold the same pairs |
| RegionDiff.SameUpToOrder | src/br/tool_diff.cc:2785-2865 | With one meta per column family, equal means the same metas in any order |
| RegionDiff.HiddenDifference | src/br/tool_diff.cc:2798-2812 | Two different groups that count as equal |
| GcSafePoint.Admit | src/br/backup.cc:726-757 | A timestamp is admitted if and only if it is above every tenant's safe point and not above any tenant's resolve-lock safe point |
| ClusterControl.Broadcast | src/br/backup.cc:983-1032 | Which nodes are set, whoever accepted and how often, and that what is seen of the answers is the last one |
| ClusterControl.Control.DisableBalance | src/br/backup.cc:983-1032 | The new coordinator switches, the remembered flags and the status, whichever nodes accepted |
| ClusterControl.Control.EnableBalance | src/br/backup.cc:1034-1073 | The remembered balance switches are set on the nodes that accept, and the status |
| ClusterControl.Control.DisableSplitAndMerge | src/br/backup.cc:1075-1169 | The new store and index switches, the flags they share and the status; the index nodes are left alone after a failure at the stores |
| ClusterControl.Control.EnableSplitAndMerge | src/br/backup.cc:1170-1233 | The remembered split and merge switches are set on the nodes that accept, and the status |
| ClusterControl.CycledExactly | src/br/backup.cc:983-1233 | Whoever is reached by the turn-off and the turn-on: a group of nodes ends as it began if and only if each switch that is turned on again was on and each that is only turned off was off |
| ClusterControl.BalanceRestored | src/br/backup.cc:983-1073 | With clean broadcasts, off and on again changes nothing if and only if the coordinators agreed |
| ClusterControl.BalanceForgotten | src/br/backup.cc:983-1073 | After a turn-off that failed or ended with a node asked before, nothing is turned on again: neutral if and only if the nodes reached were off |
| ClusterControl.SplitRestored | src/br/backup.cc:1075-1233 | With clean broadcasts, off and on again changes nothing if and only if all store and index nodes agreed |
| ControlBroadcast.OffAndOnWithOneDown | src/br/backup.cc:983-1073 | One coordinator down for one call, every call successful: the switches come back if that call was the first one and the nodes agreed; otherwise all but the node passed over stay off |
| Lifecycle.Backup.Init | src/br/backup.cc:71-262 | When it succeeds, who has the task and what is remembered then; when it fails, what the switches are and which coordinators keep the task |
| Lifecycle.Backup.Run | src/br/backup.cc:264-305 | A failure finishes the job exactly once, a success leaves that to the caller |
| Lifecycle.Backup.DoFinish | src/br/backup.cc:1283-1337 | Unregisters at those that hear it if the first registration went well, and the switches end as off-and-on-again leaves them |
| Lifecycle.Backup.Perform | src/br/main.cc:839-860 | Over the whole program: finished at most once, unregistered once if the first registration went well, exactly which coordinators keep the task, the switches afterwards, the exit code, and when a successful backup has a manifest |
| Lifecycle.NobodyLeftExactly | src/br/backup.cc:853-910 | If everybody hears the unregistration, no coordinator keeps the task if and only if the run unregisters or was registered nowhere |
| Lifecycle.BackupUnregistered | src/br/backup.cc:1283-1304 | If everybody hears the unregistration, a backup leaves the task somewhere if and only if its first registration failed after some coordinator had accepted it |
| Lifecycle.HalfRegistered | src/br/backup.cc:145-152 | Two coordinators, one has accepted: the backup gives up and the task stays there |
| Lifecycle.BackupNeutral | src/br/backup.cc:71-305 | For every failing step and wherever the control calls get: a backup leaves the cluster as it found it if and only if it never got to the switches or each of them is put back |
| Lifecycle.BackupNeutralClean | src/br/backup.cc:71-305 | With clean control calls: if and only if it never got to the switches or the nodes agreed; garbage collection always ends as it began |
| Lifecycle.BackupForgets | src/br/backup.cc:983-1073 | A successful backup whose turn-off ended with a node asked before leaves balancing off on every node it reached |
| Lifecycle.DisagreementLost | src/br/backup.cc:983-1073 | Two coordinators that disagree are alike after a backup |
| Lifecycle.SuccessWithoutManifest | src/br/backup.cc:460-470 | A backup whose id epochs cannot be read exits with 0 and has written no manifest |
| Lifecycle.Restore.Init | src/br/restore.cc:84-293 | When it succeeds, who has the task and what is remembered then; when it fails, what the switches are and which coordinators keep the task |
| Lifecycle.Restore.Run | src/br/restore.cc:295-328 | A failing data phase is returned without finishing |
| Lifecycle.Restore.DoFinish | src/br/restore.cc:1321-1377 | As for a backup, but garbage collection stays off |
| Lifecycle.Restore.Perform | src/br/main.cc:926-947 | Over the whole program: exactly which coordinators keep the task, whether it is unregistered, and the switches, with the runs that are abandoned |
| Lifecycle.RestoreUnregistered | src/br/restore.cc:1321-1340 | As for a backup, and an abandoned restore leaves the task wherever it was registered |
| Lifecycle.RestoreNeutral | src/br/restore.cc:84-328 | For every failing step and wherever the control calls get: a restore leaves the cluster as it found it if and only if it never got to the switches, or garbage collection was off and the others are put back, or, when abandoned, those reached were off |
| Lifecycle.RestoreNeutralClean | src/br/restore.cc:84-328 | With clean control calls, for a restore that is abandoned, that stops between coordinators and other nodes, and any other |
| Lifecycle.AbandonedStaysOff | src/br/restore.cc:295-328 | After a failing data phase every coordinator is off and garbage collection is stopped |
| Heartbeat.NoRegisterAfterUnregister | src/br/backup.cc:945-981 | In every interleaving no registration follows an unregistration |
| Heartbeat.SilentForever | src/br/restore.cc:1190-1226 | When finishing is over, no schedule makes the heartbeat register again |
| Heartbeat.WaitEnds | src/br/backup.cc:1283-1337 | While finishing waits, the heartbeat has a bounded number of steps and calls left, and at the end of them its exit flag is set |
| Interaction.ServerInteraction.Init | src/br/interation.cc:35-59 | Succeeds if and only if some address resolves and every resolved channel opens; the table is the resolved endpoints in order |
| Interaction.ServerInteraction.NextLeader | src/br/interation.cc:79-82 | Moves on by one unless the leader has been moved or the weak exchange failed |
| Interaction.ServerInteraction.Redirect | src/br/interation.cc:84-107 | Goes to the named endpoint if it is in the table and adds the opened channel if it is not |
| Interaction.ServerInteraction.SendRequest | src/br/interation.h:90-177 | How many calls, what every call but the last met, what the status means, that OK with an OK response stands for an accepted call, and where the calls go when no node redirects |
| Interaction.ServerInteraction.AllSendRequest | src/br/interation.h:179-192 | What every answer means; with no redirect, the answer and the number of calls read off the replies, and the calls going round by one; with all nodes up, OK, one call to each channel, and the leader back |
| Interaction.RequestMatches | src/br/interation.h:117-177 | How a request ends is what its replies come to: over with the first acceptance, given up after so many times down in a row |
| BroadcastReach.OnceExactly | src/br/interation.h:179-192 | For calls that go round and get as many acceptances as there are nodes: each node accepts once if and only if no two accepted calls lie a multiple of the number of nodes apart, and otherwise some node is missed |
| BroadcastReach.Broadcast | src/br/interation.h:179-192 | The same of a run of the object, from any leader and with any replies without a redirect: the answer is the one the replies come to, and on success exactly when each node has accepted once |
| BroadcastReach.OneDownExactly | src/br/interation.h:179-192 | With one call finding its node down, every node accepts once if and only if it is the first call; otherwise exactly that node is missed and the first one accepts last |
| BroadcastReach.BroadcastWithOneDown | src/br/interation.h:179-192 | A run of such a broadcast over any number of nodes: OK if there are retries, an error otherwise |

## Left out

- RestoreRun.LoadAfterCreate: holds for runs in which no timeout has hidden a failure; `LoadWithoutCreation` is a run in which one has. One way only: a failure hidden after the creation was accepted does no harm.
- ClusterControl.Broadcast: a node either accepts the whole request or none of it; a node that rejects one of the two variables is not modelled. The servers of this repository reject neither (src/server/coordinator_service.cc:4053-4067, src/engine/storage.cc:1724-1727, src/common/helper.cc:2440-2469).
- ClusterControl.Control.DisableBalance: nor is the branch for a rejected variable in the last answer, for the same reason.
- ClusterControl.Control.DisableSplitAndMerge: nor is the branch for a rejected variable in the last answer, for the same reason.
- BroadcastReach.Broadcast: speaks of replies without a redirect and of exchanges that do not fail; `Interaction.ServerInteraction.AllSendRequest` has what holds otherwise.
- Lifecycle.Backup.Perform: each step is a parameter that says how it goes; a failing garbage-collection call is taken to have had no effect, and the coordinators' own time limit for a task is not modelled.
- BackupRoot.Open: versions are not compared, and the schema files are not looked at. A root without data and without any meta entry is opened; that the code then goes on with a null `restore_meta_` (src/br/restore.cc:555) is not modelled.
- EndToEnd.BackupAndRestore: the storage works, and sql meta regions and the schema files are not followed; what is read is handed to the managers of `RestoreRun`, whose promises are stated there.
- BackupFiles.BackupDataBase.DoBackupRegion: a file that cannot be written leaves the directory as it was; partly written files are not modelled.
- RegionEpoch.RestoreRegionData.SendRegionRequest: the loop has no bound in the code; the contract speaks about every finite stretch of it.
- Threads interleave at loads and stores of sequentially consistent atomics; weaker memory orders, and two threads that use one `ServerInteraction` at the same time, are not modelled.
- Clocks and timeouts are choices of the schedule, not durations.
- Protobuf, RocksDB files and SHA-1 are represented by the values they stand for; error numbers only by the names that some branch compares with.
- The number of workers is not truncated to 32 bits.
- The data manager's look-up of a region in the map of regions is taken to find it; the case that it does not is not modelled.
- The schema files of a backup and the contents of its table increments and id epochs, which repeat the pattern of the data files; the root only has them as entries.
- The texts and the lists of equal and different ids that the `diff` tool prints, and its comparison of region definitions and meta files, which repeat the pattern of `CompareRegionCf`.
- The other tools (`dump`, `client`), the command line, logging, and the storage engines themselves.
- The restore's own comparison with the safe points and the comparison of versions, which are single comparisons.
