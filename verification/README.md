# Verified model of codex-switch's file protocols

codex-switch swaps the live credential file of a command-line tool while other
programs may write the same file, the machine may lose power, and its own
process may be killed. This project models the code that has to survive all of
that and proves what it keeps:

* `Namespace` is one private directory as a map from names to files. A file is
  an identity with contents and stands for its own token (identity and an
  injective digest). A class `Disk` offers the primitives of `fs_ops.rs` with
  every outcome the system may report. Before each step foreign writers may
  replace, create, delete or rewrite one contested name; at each step the
  process may stop for good. `survivors` is the set of directories a power loss
  may leave: every operation since the last directory sync may or may not have
  reached the disk, independently of the others. `owed` is the ledger of files
  foreign writers placed and did not take away again. `history` records what
  this process saw and did.
* `Removal`, `BoundPath`, `DirectoryRename`, `Installer` are the token-bound
  operations on names.
* `BackupNames`, `Retention`, `Records`, `Transactions`, `Phases`,
  `Settlement`, `Recovery`, `Staging`, `Publication`, `Convergence` are the
  crash-recoverable publication of `auth.rs`. On Unix the displaced path is the
  candidate path; Windows has a separate one. Both are covered by the same code.
  `PartialReplace`, `OutrankedBackup` and `LeakedRoles` are about the three
  families of directories where a promise of the protocol fails; `Examples`
  holds the concrete transaction their runs use.
* `CacheModel`, `CacheRuns`, `CacheBatch`, `UsageCache` are the usage cache;
  `LockControl` and `LockOrder` are its lock.
* `LogRetention`, `LogWriters`, `LogInit` are the file log; `UserPath` and
  `SnapshotText` are the raw User PATH edit.

Main results:

* A conditional write started on a resting directory and cut short anywhere,
  followed by any number of recoveries cut short anywhere, by crashes or (on
  Unix) power losses, ends with no record and exactly the old or exactly the new
  file live, if a file was live when the write stopped
  (`Convergence.WriteAndRecover`). On Unix one always was.
* That every transaction name is gone at the end is false. A power loss between
  the rename that makes the record visible and its directory sync takes the
  record's name back, while candidate and copy are already durable; and a
  removal that was never synced may come back after the record was moved away
  (`LeakedRoles.RecordNameReverts`, `LeakedRoles.RemovalComesBack`, with concrete
  files `LeakedRoles.RoleFilesLeak`). Recovery then finds no record and returns
  at once, for good. The exact condition: every name is gone if and only if the
  last recovery did not begin where the record is absent and the candidate or
  the copy present; without power loss that is so if and only if the write, or
  the first directory, left none such (`Recovery.RecoverAfterInterruptions`,
  `Convergence.WriteAndRecover`).
* `Written` is a true compare-and-swap against any writers
  (`Publication.AtomicWritePrivateIfUnchanged`): what the exchange took off the
  live name was exactly the expected file, or became it before it was looked at
  by a last write through a handle its owner had opened earlier. No file a
  foreign writer placed is lost: it is live unless the result asks for recovery,
  also across the recovery of an earlier record that the write begins with. The
  same contract covers the exchange back. The answers that ask for recovery are
  told apart by what the last look at the live name found.
* That "restored" means the candidate is not live is false. Handing a displaced
  foreign file back may fail before its exchange, by a fault, or on Windows
  because something took the candidate name; the candidate then stays live. It
  holds unless the candidate was seen live, a foreign file displaced and the
  expected file unchanged. Calm, the failing directories are exactly those of
  `Settlement.RestoredWhileLive`.
* On Windows convergence fails. ReplaceFileW may move the live file aside and
  then fail to move the candidate in. Recovery takes the missing live file for a
  later writer's doing and finishes the backup. If that recovery is cut short
  after it removed the displaced file and before it promoted the copy, the next
  one takes the publication for one that never happened and deletes the copy,
  the candidate and the record, and reports success: no credential and no copy
  of the old bytes is left. If it is cut short right after the promotion, every
  later recovery refuses and the record stays.
  `PartialReplace.PartialReplaceLosesLive` gives the concrete directories, and
  `PartialReplace.LoseEveryCopy` takes the steps themselves. The exact
  conditions hold after any number of interrupted recoveries: a credential is
  live at the end if and only if one was live at the beginning
  (`PartialReplace.RecoverWithOrWithoutLive`), and without one the transaction
  keeps the old bytes if and only if, when the last recovery begins, the copy has
  been promoted or the displaced file is still there and its backup is not
  outranked (`PartialReplace.RecoverWithoutLive`).
* The write-ahead rule (the old bytes are always somewhere, and a live new file
  has its record or its backup) holds of everything a power loss may leave, with
  one exception. When three managed backups have greater keys than the new one,
  for instance after the clock was set back, the retention that follows the
  removal of the record deletes the new backup
  (`OutrankedBackup.OldBytesLost`). A completed settlement or write that nobody
  disturbs obeys the rule if and only if fewer than three backups rank above its
  own (`OutrankedBackup.SettleNewSide`, `OutrankedBackup.WrittenIsWriteAheadIff`,
  `Recovery.PowerLossIsWriteAhead`).
* Removing a PATH entry right after adding it restores the raw value if and only
  if the value was absent or not empty (`UserPath.RemoveUndoesAdd`).

## Model

| member | source | states |
|---|---|---|
| Namespace.Disk.RenameNoReplace | src/fs_ops.rs:500-556 | a no-replace rename moves the file exactly when it may, never onto an occupied name, and success means the directory was synced |
| Namespace.Disk.Exchange | src/fs_ops.rs:787-840 | an exchange swaps exactly the two files that were there at that moment, losing neither, and success means synced |
| Namespace.Disk.ReplaceWithDisplaced | src/fs_ops.rs:1255-1290 | ReplaceFileW leaves everything, replaces with the old file displaced, or only displaces, whatever it reports; no file is lost but the one it finds at the displaced name |
| Removal.RemoveExact | src/fs_ops.rs:1526-1613 | only the expected file is ever unlinked; a file swapped in before the quarantine rename ends at the source or stays in quarantine, even if yet another took the source; without faults one stays there only if the source was taken again; it is put back only right after two equal looks; success means it is gone |
| Removal.RemoveQuarantinedExact | src/fs_ops.rs:1449-1524 | the quarantined file is unlinked only while it is the expected one, and Removed means durably gone on Unix |
| BoundPath.RemoveBoundPath | src/auth.rs:1318-1358 | success means the exact file was there and is gone, durably on Unix; every other name and every other occupant stays |
| DirectoryRename.RenameDirectoryNoreplaceDurable | src/fs_ops.rs:621-782 | success only for the very directory opened at the source, moved by the rename and seen at the destination; durable means that, with one parent or two, whatever a power loss leaves is the present directory, the name writers act on apart; no directory of another writer is lost, at either name |
| DirectoryRename.AfterDirectoryRename | src/fs_ops.rs:663-781 | a different directory goes back when its name is free, and calm that is synced, and otherwise stays at the destination; both parents are synced, whether or not the first sync succeeded |
| Installer.MoveNoreplaceExact | src/installer_fs.rs:114-142 | Ok exactly for the expected file moved onto a free name and seen there, with the source seen empty, and undisturbed only once synced; operands are conserved against any writers at the source or at the destination |
| Installer.ExchangeExact | src/installer_fs.rs:145-204 | Ok only for the exact swap seen at both names after the step, and undisturbed only once synced; operands are conserved against any writers at the source or at the destination |
| Installer.AfterExchange | src/installer_fs.rs:157-204 | when one expected operand proves the exchange and nobody else acts, both actual operands go back, and without such evidence nothing moves; whoever acts, an exchange back only follows two equal looks that showed the evidence |
| Installer.ReplaceWithDisplacedExact | src/installer_fs.rs:217-333 | Ok only for the exact replacement seen at all three names; whichever operand writers act on, the operands are conserved but for at most one file, which they put under the displaced name of the replacement, or of its undoing, after the look there |
| Installer.AfterReplace | src/installer_fs.rs:240-333 | a target only displaced is moved back; a replacement of the wrong file is undone; else nothing changes; whoever acts, a step back only follows two equal looks at all three names that call for it |
| Installer.ReplaceConservesIffFree | src/installer_fs.rs:228-237 | ReplaceFileW keeps every operand file if and only if the displaced name is free |
| Installer.DisplaceConservesIffFree | src/installer_fs.rs:228-237 | the outcome that only displaces keeps every file under the same condition |
| Installer.WriterAtFreeNameIsOverwritten | src/installer_fs.rs:228-231 | the directories in which a file put there late is gone, for the replacement, the partial outcome and the undoing |
| Installer.ReplaceBackRestores | src/installer_fs.rs:302-318 | undoing a replacement, or moving a displaced target back, restores every operand name |
| BackupNames.ValidNonceIff | src/auth.rs:1375-1384 | a nonce is valid exactly if it is sixteen bytes in small hexadecimal |
| BackupNames.StampIsCanonicalDecimal | src/auth.rs:1423-1434 | accepted stamps are exactly the canonical decimals of 128-bit values |
| BackupNames.KeyInvertsBackupName | src/auth.rs:1412-1442 | a sort key is returned exactly for the printed backup names, and gives back stamp and nonce |
| Retention.RankIff | src/auth.rs:3414-3422 | of two backups the one with the greater stamp ranks above, and of equal stamps the one whose nonce comes later |
| Retention.EarlyEntriesOutranked | src/auth.rs:3414-3422 | in ascending order, every backup before the last three has three above it |
| Retention.LateEntriesKept | src/auth.rs:3414-3422 | in a complete ascending list the last three have fewer than three above them |
| Retention.CleanupOldBackups | src/auth.rs:3381-3430 | only managed backups outranked by three greater keys are touched, each bound to the listed file; undisturbed, exactly those are gone |
| Records.PrintedIsWellFormed | src/auth.rs:1601-1648 | the names of one transaction never coincide with each other, the live name, the record or another backup |
| Records.RecordAcceptedIff | src/auth.rs:1601-1665 | a record is accepted exactly when its version, nonce and stamp are valid |
| Transactions.SettlingRetains | src/auth.rs:1783-1788 | retention at the end of a settlement stays in the settlement's frame |
| Transactions.SwapBackIsSettled | src/auth.rs:1856-1868 | the exchange back moves a foreign file only from displaced to live and loses none |
| Transactions.ReplaceBackIsSettled | src/auth.rs:1850-1868 | the same for the Windows replacement back |
| Phases.NewSideDropsDisplaced | src/auth.rs:1735-1745 | removing the displaced old file keeps the new side |
| Phases.NewSidePromotes | src/auth.rs:1754-1773 | promoting the staged backup keeps the new side |
| Phases.NewSideDropsRecord | src/auth.rs:1783-1786 | the record goes only once the backup is in place |
| Settlement.FinalizeIndependentBackup | src/auth.rs:1724-1789 | success means displaced, stage and record are gone and a file with the expected contents was promoted; wherever it stops, the steps were taken in order: displaced file, promotion, record, retention; calm it succeeds from every completable directory and keeps the new backup exactly if fewer than three others outrank it |
| Settlement.CleanupUnpublishedAuth | src/auth.rs:1791-1834 | success means every transaction name is free; undisturbed it keeps the old side and ends restored |
| Settlement.RestoreForeignLive | src/auth.rs:1836-1884 | success means the foreign file went back to live in exchange for the candidate and all artifacts are gone; calm, it succeeds |
| Settlement.DirectoryDecides | src/auth.rs:1886-2017 | the five readings are taken for what the directory is, in every case that the branches distinguish |
| Settlement.SettleAuthPublication | src/auth.rs:1886-2017 | the frame for any tokens and any witness: only recorded files leave their names, nothing is overwritten, only outranked backups go besides; Published only for a proper publication; no foreign file is lost; each undisturbed side is brought to its end; finished or cut short, the names change in the order of the branch taken; a calm run ends as the directory it begins in says: a complete or superseded publication is finished, a displaced foreign file is live again with every transaction name free, an unexchanged publication is taken back, and anything else is left alone; whoever acts, each answer tells what the last look at the live name found |
| Settlement.RestoredWhileLive | src/auth.rs:1841-1855 | a calm settlement ends asking for recovery after a restoration, with the candidate still live, if and only if on Windows something took the candidate name while a foreign file was displaced |
| Recovery.ReadPublicationRecord | src/auth.rs:1553-1599 | a record is returned with the token it was read under; absence only if absent |
| Recovery.RecoverInterruptedAuthPublication | src/auth.rs:2019-2045 | success means no record; a settlement's frame otherwise; undisturbed, the side is kept and a calm run settles it, and any directory under its record changes as it is classified |
| Recovery.PowerLossIsWriteAhead | src/auth.rs:1732-1787 | whatever a power loss leaves, the old bytes are in it, and a live new file has its record or its backup, if and only if it is not a completed publication whose backup retention took; never unless three backups outrank the new one |
| Recovery.RecoverAfterInterruptions | src/auth.rs:2019-2045 | from every directory with a live file that an undisturbed publication passes through, recovery interrupted any number of times converges; every transaction name is gone exactly if the last recovery did not begin with role files and no record, which then stay; without power loss exactly if the first directory had none such, and then it ends on the side it began on |
| LeakedRoles.RecordNameReverts | src/auth.rs:1522-1530 | in a world the publication passes through, a power loss before the record's rename is synced leaves candidate and copy without a record |
| LeakedRoles.RemovalComesBack | src/auth.rs:1318-1358 | in a world recovery passes through, a power loss brings an unsynced removal back while the record is away |
| LeakedRoles.RoleFilesLeak | src/auth.rs:2019-2033 | both runs for a transaction with concrete names and files |
| Staging.PrepareExactPrivateFile | src/auth.rs:1292-1312 | a fresh private file with its token; no name in use changes; a failure midway leaves at most a file under a random name never used before |
| Staging.MakeDurable | src/auth.rs:1267-1289 | success means the data is on disk and the name still holds the exact file; after a failure the name holds the exact file or nothing; without faults it succeeds |
| Staging.MakeAllDurable | src/auth.rs:2304-2362 | success means all three files are durable under their names; after a failure each name holds its exact file or nothing; every other name is kept; without faults it succeeds |
| Staging.MoveOwnedNoreplace | src/auth.rs:1476-1508 | success means the owned file is at the destination, gone from its source, and synced on Unix; without faults a free destination is enough; ownership is given up only of a file that is not at its name |
| Staging.PrepareExistingAuthPublication | src/auth.rs:2191-2292 | only fresh private names are used; success leaves candidate, copy and record durable and the names taken; undisturbed it succeeds exactly when one of the sixteen draws prints free names; whoever acts, a failure without faults leaves every other name as it was |
| Publication.PublishRecordExclusive | src/auth.rs:1518-1551 | the record is claimed without replacement; Durable means synced; undisturbed the old side stays |
| Publication.ExchangeCandidateWithLive | src/auth.rs:1684-1700 | the file taken off the live name is kept under the displaced name; undisturbed it leads to the new side |
| Publication.ConditionalWriteFromSettlement | src/auth.rs:2364-2393 | each of the five answers is given exactly for its own settlement, Changed only if the boundary did not fail, and an error exactly for an unchanged live file whose boundary failed |
| Publication.SettlementAnswers | src/auth.rs:2364-2393 | published means the candidate was live at the last look, which no step of ours followed that moves a file onto the live name or off it; Changed and restored mean that it was not, or that a file that is not the expected one, even rewritten, was handed the name back, or was to be |
| Publication.SwapWasTrue | src/auth.rs:2508-2532 | a published settlement after an exchange makes it a true compare-and-swap |
| Publication.SettleUnpublished | src/auth.rs:2474-2506 | settling before the exchange never returns Written, exchanges nothing and loses nothing |
| Publication.LookThroughHandle | src/auth.rs:2518-2522 | the witness is unchanged exactly if the file behind the handle is the expected one |
| Publication.ConcludeExchange | src/auth.rs:2518-2532 | the witness is read, then settled: Written only for the expected file, with the candidate seen live and the copy promoted; writers keep their files; the expected file, rewritten through an old handle, is never taken for a foreign one |
| Publication.PublishRecorded | src/auth.rs:2472-2532 | the same from the durable record on, with the side kept at every stopping point; the candidate is exchanged only right after a look that found the expected file live; Changed only if a live file could be opened |
| Publication.PublishExisting | src/auth.rs:2454-2532 | before the record only private names change, and without faults none; under it the write outcome holds; calm and matching it is Written and complete |
| Publication.CreateLive | src/auth.rs:2410-2445 | Written, or published with recovery required, only if the new file took a free live name and was seen there, Written only once synced; an occupied name is left alone and reported Changed; without faults no other name changes |
| Publication.AtomicWritePrivateIfUnchanged | src/auth.rs:2399-2533 | Written means a true compare-and-swap in every interleaving, right after a look that found the expected file; the recovery answers tell what the last look at the live name found: published, the candidate was live and not taken back; restored, it was not live, was never exchanged, or a foreign file was given the name back or was to be; from a directory without a record, the whole outcome: foreign files kept, and live unless the result asks for recovery; one side at every stopping point, unless Windows only displaced the live file; calm runs exact, the new backup included; under an earlier record the same from where its recovery ended, and the foreign files that recovery kept are kept throughout |
| PartialReplace.MissingStaysMissing | src/auth.rs:1957-1994 | without a live file, a settlement finished or cut short leaves one of three kinds of directory, none with a live file; an abandoned one stays abandoned and a rescued one unchanged |
| PartialReplace.SettleWithOrWithoutLive | src/auth.rs:1957-1968 | after one settlement, finished or cut short, one of the two credentials is live exactly when one was live before |
| PartialReplace.RecoverWithoutLive | src/auth.rs:2019-2045 | from any directory without a live file and through any number of interrupted recoveries: none is live at the end, its names keep the old bytes exactly if the copy was promoted, or the displaced file still there and its backup not outranked, when the last recovery began, that recovery fails exactly if it found a promoted copy under its record, and the candidate is left exactly if it did not take the publication back |
| PartialReplace.RecoverWithOrWithoutLive | src/auth.rs:2019-2045 | after any number of interrupted recoveries and a last one, a credential is live exactly when one was live before the first |
| PartialReplace.PartialReplaceLosesLive | src/auth.rs:1693-1700 | a concrete Windows run that displaces the live file only, has a recovery cut short after removing the displaced file, and leaves the next one to delete everything |
| PartialReplace.LoseEveryCopy | src/auth.rs:1735-1745 | the same by the steps themselves, from any directory the exchange only displaced: classify, remove the displaced file, stop, recover; the recovery succeeds and every name is free |
| OutrankedBackup.SettleNewSide | src/auth.rs:1783-1788 | an undisturbed settlement of a published credential ends within the write-ahead rule exactly if fewer than three backups outrank the new one |
| OutrankedBackup.WrittenIsWriteAheadIff | src/auth.rs:2399-2533 | the same for a whole write that nobody disturbs |
| OutrankedBackup.LaterBackupsTakeTheNewOne | src/auth.rs:3414-3430 | beside any three or more backups that rank above the new one, completing a publication leaves a directory without the rule |
| OutrankedBackup.OldBytesLost | src/auth.rs:3414-3430 | a concrete run, stamp 7 beside 8, 9 and 10, after which no file holds the old bytes |
| Convergence.WriteAndRecover | src/auth.rs:2399-2533 | a write and its recoveries, each cut short anywhere, on either platform: if a file was live when the write stopped, they end with no record and exactly the old or exactly the new file live, and with every transaction name gone exactly if the last recovery did not begin with role files and no record; without power loss exactly if the write left none such, and on the side recorded; only Windows may have left no live file, and then none is live and bytes and candidate are kept as RecoverWithoutLive says |
| CacheModel.EntryRoundTrip | src/cache.rs:635-710 | a usage survives storage exactly when its time fits and its windows carry something |
| CacheModel.ReplacedIsReadBack | src/cache.rs:1336-1351 | a stored usage is what its account reads while it is fresh, under the returned revision; any other account reads nothing; no other alias changes |
| CacheModel.ProbeIsReadBack | src/cache.rs:1224-1317 | so is a probe that replaced the entry, for automatic selection |
| CacheModel.ProbeCardsKept | src/cache.rs:1287-1312 | a probe without a reset-card lookup keeps the cards and their completeness of the same account, and otherwise publishes none, incomplete |
| CacheModel.EnrichedIsReadBack | src/cache.rs:1353-1377 | after a merge every fresh reader of the account gets the merged cards with the quota they were fetched for |
| CacheRuns.StepMarksMutations | src/cache.rs:1106-1110 | every operation that mutates an alias gives it a tombstone never used before; any other leaves entry and tombstone |
| CacheRuns.ProbeReplacesIffUntouched | src/cache.rs:1224-1277 | after any run a probe completion replaces exactly when nothing mutated the alias since its baseline; otherwise it changes nothing |
| CacheRuns.RenameMovesGeneration | src/cache.rs:1488-1510 | a rename moves all three records as one generation and leaves every other alias alone |
| CacheRuns.RunKeepsProvenance | src/cache.rs:1279-1377 | every bound entry's quota and reset cards were observed for its own account |
| CacheRuns.BoundReaderSeesOwnAccount | src/cache.rs:749-766 | a bound reader gets only what was observed for its account |
| CacheRuns.AutoSelectSeesOwnAccount | src/cache.rs:795-825 | so does automatic selection, whose lookups also count entries without complete reset-card metadata |
| CacheRuns.AutoSelectProbeReplacesIffUntouched | src/cache.rs:795-825 | a probe started from an automatic-selection lookup, a hit or a miss, replaces the entry exactly if nothing mutated the alias since |
| CacheRuns.MergeLandsInItsRevision | src/cache.rs:1353-1377 | a deferred merge changes only the generation whose revision it was fetched for |
| CacheBatch.BatchIsItemwise | src/cache.rs:1188-1217 | a batch over distinct profiles succeeds exactly when every item would alone, and does to each profile, and reports for it, just that |
| CacheBatch.BatchIsOrderIndependent | src/cache.rs:1188-1217 | any permutation succeeds alike, leaves the same cache up to fresh revisions, and reports the same usage and completeness for each item |
| CacheBatch.ReturnedBaselineMatches | src/cache.rs:1208-1213 | a completion that starts from a returned baseline replaces the entry |
| UsageCache.CacheFile.MarkUsageMutation | src/cache.rs:1106-1110 | the alias gets a fresh tombstone, nothing else changes |
| UsageCache.CacheFile.ReplaceBoundUsageAt | src/cache.rs:1336-1351 | the maps become those of the specification, and the returned usage carries the stored revision |
| UsageCache.CacheFile.ReplaceCoreProbeUsageAt | src/cache.rs:1279-1317 | the same, with reset cards kept only from the same account's entry |
| UsageCache.CacheFile.AutoSelectUsageSnapshot | src/cache.rs:795-825 | one lookup for every binding and no other, each as specified for this state of the cache: a usage exactly for a fresh entry of the account |
| UsageCache.CacheFile.CompleteCoreProbeBoundAt | src/cache.rs:1224-1277 | the maps change exactly when the completion replaces |
| UsageCache.CacheFile.MergeResetCreditEnrichment | src/cache.rs:1353-1377 | merges exactly into its own account and revision: the entry then has the cards, complete, with quota, time, owner and revision as before, and nothing else changes; otherwise nothing changes |
| UsageCache.CacheFile.DropFetchState | src/cache.rs:1441-1446 | usage and refusal go, and the tombstone advances even when both were absent |
| UsageCache.CacheFile.DropFetchStateBound | src/cache.rs:1448-1461 | an entry bound to someone else is left alone |
| UsageCache.CacheFile.DropProfileState | src/cache.rs:1465-1469 | the selection time goes too |
| UsageCache.CacheFile.MigrateAlias | src/cache.rs:1488-1510 | the maps become those of the specified rename |
| UsageCache.CacheStore.CompleteCoreProbesBound | src/cache.rs:1163-1222 | all items are saved or none, with the outcomes of the completions in order, by one write, or none if no item replaces; without write faults it succeeds exactly when every item would alone |
| LockControl.CacheLockAcquireControl.CancelWaiting | src/cache.rs:70-86 | wins exactly over a pending or contended wait, which it cancels, and wakes once; otherwise nothing changes |
| LockControl.CacheLockAcquireControl.CancelContended | src/cache.rs:92-106 | wins exactly over a contended wait |
| LockControl.CacheLockAcquireControl.MarkAcquired | src/cache.rs:123-134 | wins exactly over a wait nobody cancelled, which is acquired then |
| LockControl.CacheLockAcquireControl.MarkContended | src/cache.rs:136-147 | makes a pending wait contended, and holds for one already contended |
| LockControl.CacheLockAcquireControl.MarkTimedOut | src/cache.rs:149-158 | wins exactly over a contended wait, which has timed out then |
| LockControl.CancellationHasOneWinner | src/cache.rs:526-570 | in every interleaving a winning cancel, a run operation and a timeout exclude each other, and a contended cancel saw a blocked lock |
| LockControl.CancelIsFinal | src/cache.rs:526-570 | once a cancel won, no continuation runs the operation |
| LockControl.CancelWaitingDecides | src/cache.rs:70-86 | at any point of any interleaving it wins exactly if no cancel has won and the worker has neither acquired the lock nor timed out, and then the operation never runs |
| LockControl.CancelContendedDecides | src/cache.rs:92-106 | it wins exactly if, besides, the worker has gone on waiting after finding the OS lock blocked |
| LockControl.MarksDecide | src/cache.rs:526-570 | at any point the worker's marks fail exactly if a cancel has won, and then it gives up; otherwise it goes on |
| LockOrder.OperationsExclude | src/cache.rs:484-524 | operations never overlap, and no thread waits for an OS lock while it owns the process mutex |
| LockOrder.NoWaitCycle | src/cache.rs:484-524 | no thread waits for itself through any chain of others |
| LockOrder.SomeThreadAdvances | src/cache.rs:484-547 | while a thread is inside, some thread can take or give back a lock unless another process holds one awaited |
| LogRetention.LogDirectory.PruneExpiredLogFiles | src/logging.rs:610-618 | the files of today and of the days before it, MAX_LOG_AGE_DAYS in all, stay, and every older one goes |
| LogRetention.LogDirectory.EnforceLogSizeLimit | src/logging.rs:627-653 | exactly the shortest oldest-first prefix of the old files that makes the record fit goes; the current file is emptied only if all of them were not enough |
| LogRetention.EnforcedMakesRoom | src/logging.rs:627-653 | a size pass takes files oldest first and none it did not need, and empties the current file only as the last one left, when it alone is too big |
| LogRetention.TotalOfPermutation | src/logging.rs:628-631 | sorting the listing does not change the total |
| LogWriters.LogState.AppendLog | src/logging.rs:564-602 | a record that ran maintenance leaves the total under the limit and no expired file; one that did not loses no file |
| LogWriters.LogState.WriteLogRecord | src/logging.rs:537-562 | every record, failing ones too, stays in the writer's byte budget; a success appended exactly its bytes to today's file; the first record, one that fills the byte budget and one that comes an interval after the last pass leave no expired file and reset the count, any other keeps every file |
| LogWriters.WriteInTurns | src/logging.rs:22-31 | from the first record on, any number of fixed writers keep the directory below the limit plus one budget each |
| LogInit.LastAbsorbs | src/logging.rs:358-373 | truncating before or after appending gives the same suffix |
| LogInit.PendingIsStreamSuffix | src/logging.rs:358-373 | the buffer is the last bytes of everything logged early |
| LogInit.InitializationHappensOnce | src/logging.rs:148-356 | in every interleaving initialization is attempted at most once and the buffer is handed over once, ahead of every record; if writing it fails midway, the file gets nothing more |
| LogInit.RecordsAreReadyWrites | src/logging.rs:492-535 | over every interleaving the records in the log are exactly what the successful writes to a ready writer were given, in order, each cut to its last MAX_LOG_BYTES bytes |
| LogInit.SharedLogState.RetainBoundedPending | src/logging.rs:358-373 | the pending buffer becomes the bounded suffix |
| LogInit.SharedLogState.Write | src/logging.rs:492-530 | a ready write that succeeds appends its last MAX_LOG_BYTES bytes as one record, one that fails a beginning of them; in every other state the file stays: deferred bytes join the bounded buffer, an idle writer starts initializing, and else nothing changes |
| LogInit.SharedLogState.FinishDeferredInitialization | src/logging.rs:148-178 | an empty buffer only arms the writer; otherwise it is handed over |
| LogInit.SharedLogState.StartInitialization | src/logging.rs:184-229 | initialization starts only from the two uninitialized states |
| LogInit.SharedLogState.DisableInitializationAfterTaskFailure | src/logging.rs:253-269 | only a writer not yet initialized is disabled |
| LogInit.SharedLogState.TakeInitializationError | src/logging.rs:234-247 | an initialization error is taken at most once |
| LogInit.SharedLogState.CompleteInitialization | src/logging.rs:315-356 | the buffer is written before the writer is ready, or a beginning of it and the writer is disabled |
| UserPath.UnitsOfRawBytes | src/installer_registry.rs:276-282 | raw bytes read back as the units written |
| UserPath.RawBytesAreLittleEndian | src/installer_registry.rs:276-282 | the low byte of each unit comes first |
| UserPath.ValidIffEncoded | src/installer_registry.rs:246-258 | exactly the UTF-16 encodings of Unicode text are accepted as content |
| UserPath.SupportedIff | src/installer_registry.rs:232-259 | a value is supported exactly if it is such a text without NULs, then NULs, of one of the two types |
| UserPath.JoinOfSplit | src/installer_registry.rs:325-327 | joining the segments gives the value back |
| UserPath.SplitOfJoin | src/installer_registry.rs:347-366 | segments without separators are found again |
| UserPath.TransformEditsSegments | src/installer_registry.rs:299-372 | an edit appends one segment or filters the matching ones; type and NUL suffix stay; the result is a supported value |
| UserPath.EditsByFold | src/installer_registry.rs:284-297 | a segment is matched exactly if it equals the entry once the case of both is folded: an addition then changes nothing, a removal takes these segments and no other |
| UserPath.AddsUnlessMatched | src/installer_registry.rs:330-346 | adding appends the entry as one more segment unless some segment is matched |
| UserPath.TransformStaysEditable | src/installer_registry.rs:232-259 | an edit never leaves a value the registry code would refuse |
| UserPath.TransformIsIdempotent | src/installer_registry.rs:299-372 | the same edit twice is the edit once |
| UserPath.RemoveUndoesAdd | src/installer_registry.rs:340-366 | removing right after adding restores the raw value exactly when it was absent or not empty |
| UserPath.TransformEntry | src/installer_registry.rs:299-372 | the loops compute the specified edit, and refuse what the source refuses; an absent value is created as an expandable string with one NUL |
| SnapshotText.SnapshotRoundTrip | src/installer_registry.rs:87-118 | a snapshot is read back exactly when its value is supported |
| SnapshotText.DecodeIff | src/installer_registry.rs:97-117 | exactly the texts of supported values in the printed form are read, whatever the case of their hexadecimal digits |

## Left out

- Convergence.WriteAndRecover: on Windows the process may crash but the machine does not lose power; files under random names (staged, quarantined) may be left anywhere and are not spoken of.
- Recovery.PowerLossIsWriteAhead: Unix only; what a Windows power loss leaves is not described by the program.
- PartialReplace.RecoverWithoutLive: speaks of the names of the transaction; a removal cut short may leave its file under a random quarantine name, which no recovery reads.
- Namespace.Disk.Pause: foreign writers act on one contested name, one net act before each of our steps; identities of files still in the directory and random names are never reused.
- Namespace.Disk.WritersHoldingHandles: in-place writes through old handles are covered up to the moment the witness handle is read again, not after.
- Staging.MakeAllDurable: the three flushing threads take turns in a fixed order.
- Recovery.ReadPublicationRecord: the record is read in one step; its size limit and its JSON are an injective encoding.
- Transactions: the caller holds the live-auth transaction, so private names are only ours.
- DirectoryRename.RenameDirectoryNoreplaceDurable: opening the parents does not fail; the Windows form pins its source and is not modelled.
- Installer.ReplaceWithDisplacedExact: writers act on one of the three operands, not on several.
- Retention.CleanupOldBackups: a plain insertion sort stands for the library sort.
- UsageCache.CacheStore.Save: reading, parsing and writing the cache file; revisions and tombstones are drawn, never repeating.
- CacheModel: workspace names, the workspace lifetime arithmetic and text sanitizing; quota details are copied as one value.
- LogInit.InitializationHappensOnce: a debug assertion that a late failure report would trip is not modelled.
- LogWriters.LogState.AppendLog: clocks and days are parameters; the names of log files are a date and a spelling.
- UserPath.TransformEntry: ordinal comparison is folding each unit by a given function and comparing.
- FileRevisionToken, create_exclusive_copy and create_empty_exclusive: their guarantees are one comparison each.
- Ownership, permission and reparse-point checks, hashing, HTTP, login, command line, terminal interface, daemon and update code.
