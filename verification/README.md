# kvmrun: a model with proofs

kvmrun drives QEMU virtual machines. This project models the parts of it that hold real
protocols, data structures or algorithms, and proves what they are for. QEMU, the kernel's
link table and LVM are small abstract environments that may fail at any point; the
decisions of kvmrun itself follow its code branch by branch.

- **Live migration** (`MirrorProcessor`, `Migration`, `MigrationSafety`,
  `MigrationTheorems`, `MigrationProgress`). `Main`, the machine-state goroutine and one mirroring processor for
  the firmware flash device and one for the disks form a transition system over all
  interleavings: channels, the errgroup context, a program counter for each goroutine, the
  inner errgroups with a goroutine for each block job, and the history of what the outside
  world can observe. An action names the goroutine that moves and the answer it gets, so a
  step is a function: `Migration.MainApply` and `VmApply` (server/machine/migration.go:288-347
  and 464-583), `MirrorProcessor.ProcApply` (765-1002). `MigrationNames` is about the names
  both hosts agree on and `IncomingDisks` about the volumes the destination creates and
  rolls back.
- **Incremental backup** (`Backup`, `BackupHistory`). A small machine for block jobs with
  copy before write, dirty bitmaps and transactions; one backup as a method, and whole
  histories of backups to any number of targets with guest writes in between.
- **VXLAN ports** (`Netlink`, `VxlanPort`, `VxlanTheorems`, `VxlanResults`). The link table
  with calls that may fail anywhere; the number of calls that still succeed says all there is
  to say about failures, because every caller gives up at the first one.
- **CPU hotplug** (`CpuHotplug`), **device pools and live attach and detach** (`Pool`,
  `IscsiUri`, `DiskBackend`, `DiskPool`, `DiskAttach`, `ChrootNode`), **SCSI buses on the
  command line** (`ScsiArgs`, `ConfLoader`), **environment files** (`Dotenv`,
  `DotenvTheorems`), **vacant user IDs** (`VacantUid`), **last addresses and gateways**
  (`IpMath`, `VRouter`) and **PCI addresses** (`PciAddress`).

`Wrappers`, `Text` and `Decimal` hold result types and the string helpers of Go's library
that the code relies on. What changes its fields in kvmrun is a class here, and a method
with loops is tied to a function, of which the lemmas then speak. Function values such as
`Namer` (the short name that a path leads to) keep the proofs about maps and orders apart
from the parsing of paths; `DiskBackend.BackendNamesAreNoPaths` shows that the parsing
meets what is asked of them.

## Results that differ from what one might expect

- `block-job-complete` can follow a *failed* state migration, because `vmstateMigrated` is
  closed by a defer (`CompleteCanFollowAFailureIff`: whenever there is anything to mirror);
  `CompleteFollowsCompletionIffStateOk` says exactly when it does not.
- The flash channel can be closed twice, which panics: `PanicIffFlash`, `OnlyFlashClosePanics`.
- A disk path with leading blanks makes the destination create a volume in another volume
  group and never remove it: `BlankPathLeaks`, `RollbackRestoresIff`.
- A failed first full backup does harm: `FailedFirstFullDoesHarm`. It is harmless exactly
  if the blocks not copied yet were right already: `FailedFirstFullCoversIff`.
- Configuring a port for another VXLAN network without deconfiguring it first can leave the
  devices of the old one behind: `MovedLastPortLeavesDevices`, `MovingAPortTidyIff`.
- `Append` with replacement repeats the key in the order: the contract of `Pool.Append`.
- A failed live attachment removes a node from the chroot that it did not make:
  `ChrootNode.Chroot.Append`.
- An iSCSI path whose target has no colon has an empty short name (`NamelessTargetIff`): the
  running instance adds such a disk to QEMU without keeping it, and the configuration then
  refuses it. Hence the condition on the short name in `Machine.DiskAttach`.
- Attaching a volume while one of the same name from another volume group is connected
  succeeds, sets the limits of that one and attaches nothing: `OtherGroupIsUpdated`,
  `AttachedPathIff`.
- Two disks that are sent to one path on the destination are mirrored to one export:
  `TwoMirrorsOneExport`, `SharedExportIff`. The firmware flash device shares an export with a
  disk exactly if that disk has its path and an override: `FlashHasItsOwnIff`.
- `Main` returns nil even if QEMU refused to stop a mirror: `RefusalIsForgivenIff`.
- A comment after an empty value makes the environment file parser panic:
  `DotenvTheorems.CrashesIff`.
- A line of the password file without a third field crashes the search for a vacant user ID.
- A PCI address with two dots or more is accepted and read as device 0, function 0:
  `ManyDotsMeanZero`.

## Model

| member | source | states |
|---|---|---|
| `MirrorProcessor.ProcStepKeepsInv` | server/machine/migration.go:780-865 | every step keeps: a reader or finisher exists exactly for the disks the loops have passed, announcing and success imply that every reader has seen Ready, nobody is still watching a job when the processor has returned after a completed run |
| `MirrorProcessor.ProcStepDecreases` | server/machine/migration.go:785-865 | every step that is not an empty polling round lowers a measure of the processor, and an empty round changes nothing |
| `MirrorProcessor.ProcCancelledCanMove` | server/machine/migration.go:897-902 | in a done context a processor that has not finished always has a step that does not depend on a helpful answer |
| `MigrationSafety.StepKeepsInv` | server/machine/migration.go:288-347 | any enabled step of any goroutine keeps the whole invariant: who exists, who closed which channel, which failures were recorded, and that the history obeys the grammar `Due` |
| `MigrationSafety.RunKeepsInv` | server/machine/migration.go:288-347 | the same over whole runs in every interleaving |
| `MigrationSafety.MirrorEventsDue` | server/machine/migration.go:785-853 | what a processor issues is due: mirrors of moving devices only, block-job-complete only for a ready mirror and after `vmstateMigrated` was closed |
| `MigrationSafety.MigrateIsDue` | server/machine/migration.go:470-546 | when the state goroutine reaches the `migrate` command every device has been reported ready, and it has not been issued before |
| `MigrationTheorems.MigrateOnlyWhenAllReady` | server/machine/migration.go:288-347 | in every interleaving, before `migrate` is issued each moving disk, and the firmware flash device if there is one, has been reported ready; no deferred close can release it early |
| `MigrationTheorems.MigrateOnlyWhenPrepared` | server/machine/migration.go:481-546 | before `migrate` is issued QEMU has taken the capabilities and then the parameters |
| `MigrationTheorems.FlashIsClosedFirst` | server/machine/migration.go:295-317 | the flash channel is closed before the channel of the disks, whoever closes them |
| `MigrationTheorems.CompleteOnlyAfterStateReturned` | server/machine/migration.go:813-853 | no `block-job-complete` is issued before the state goroutine has returned and closed its channel |
| `MigrationTheorems.CompleteFollowsCompletionIffStateOk` | server/machine/migration.go:465 | a `block-job-complete` comes after a completed state migration if and only if the state goroutine ended without error |
| `MigrationProgress.CompleteCanFollowAFailureIff` | server/machine/migration.go:464-475 | a run in which `block-job-complete` is issued although the state has not moved exists if and only if there is anything to mirror: the channel is closed on failure too |
| `MigrationTheorems.SuccessMeansMoved` | server/machine/migration.go:340-347 | `Main` returns nil only if query-migrate answered completed, every mirror was ready, and a `block-job-complete` was issued for each after the state had moved, whether QEMU accepted it or not |
| `MigrationProgress.RefusalIsForgivenIff` | server/machine/migration.go:831-865 | `Main` can return nil although QEMU refused to stop a mirror if and only if there is anything to mirror |
| `MigrationTheorems.SourceQuitsLast` | server/machine/migration.go:349-355 | the source machine is told to quit only after all of that |
| `MigrationTheorems.FlashIsMirroredFirst` | server/machine/migration.go:306-335 | disks are mirrored only once the firmware flash mirror is ready |
| `MigrationTheorems.ClosedAtMostOnce` | server/machine/migration.go:292-302 | a lawful history closes a channel at most once |
| `MigrationTheorems.ChannelsClosedExactlyOnce` | server/machine/migration.go:292-345 | when `Main` has returned, `allDisksReady` was closed exactly once, the flash channel exactly once if there is a flash device, and `vmstateMigrated` exactly once if the state goroutine was started and never otherwise |
| `MigrationTheorems.OnlyFlashClosePanics` | server/machine/migration.go:310-328 | a close can panic only on the flash channel, only while `Main` leaves early under a done context, and then neither `migrate` nor `block-job-complete` has been issued |
| `MigrationTheorems.PanicIffFlash` | server/machine/migration.go:310-328 | a run that panics exists if and only if the machine has a firmware flash device |
| `MigrationTheorems.MovesAreBounded` | server/machine/migration.go:288-347 | over any run, the steps that are not empty polls are paid for by the measure |
| `MigrationTheorems.RunsAreFinite` | server/machine/migration.go:288-347 | apart from empty polling rounds every run takes at most 31 + 6 steps per device, whatever QEMU answers |
| `MigrationProgress.NoDeadlock` | server/machine/migration.go:304-347 | in every reachable state that is neither final nor a crash some goroutine has an enabled step that is no empty poll, no refusal and no new cancellation, so no circular wait exists |
| `MigrationProgress.UnfailedCanMove` | server/machine/migration.go:288-583 | as long as nothing has failed, such a step exists even without noticing a cancellation |
| `MirrorProcessor.ProcCanMove` | server/machine/migration.go:765-866 | a processor depends on other goroutines only while it waits for the machine state |
| `MigrationProgress.CanSucceedIff` | server/machine/migration.go:288-347 | from a reachable state `Main` can still return nil if and only if no goroutine has failed or is bound to; a cancellation that nobody has noticed is not in the way |
| `MigrationProgress.SmoothRun` | server/machine/migration.go:288-347 | and then good answers alone lead there |
| `MigrationProgress.FailureIsFinal` | server/machine/migration.go:288-347 | a failure stays a failure in every continuation |
| `MigrationProgress.StepFailsIff` | server/machine/migration.go:288-583 | the steps after which success is impossible are exactly the refusals (but for mirrors that cannot be stopped) and a goroutine's notice of a done context |
| `MigrationProgress.FatalIsFinal` | server/machine/migration.go:507-576 | after QEMU refused the capabilities, the parameters or the migration, or failed it, and after any other such step, no continuation is a success |
| `MirrorProcessor.ProcFailsIff` | server/machine/migration.go:785-865 | the same for the steps of one processor |
| `MigrationProgress.NoReactionWithoutCause` | server/machine/migration.go:897-902 | nobody reacts to a cancellation unless there was one, or an error in the same group |
| `MigrationProgress.CancellationIsNoticed` | server/machine/migration.go:897-938 | a done context may be noticed wherever a job or the machine state is waited for |
| `MigrationProgress.AnswersOfProcAreFree` | server/machine/migration.go:785-920 | QEMU may answer each request of a processor well or badly |
| `MigrationProgress.LaterAnswersAreFree` | server/machine/migration.go:831-959 | and each request after the mirrors were ready |
| `MigrationProgress.AnswersToStateAreFree` | server/machine/migration.go:481-576 | the same for the requests of the state goroutine |
| `MigrationProgress.RefusedIsIssued` | server/machine/migration.go:544-546 | a command that QEMU refuses has been issued all the same, and shows in the history |
| `MigrationProgress.MigrationCanSucceed` | server/machine/migration.go:288-347 | every machine, with or without disks and flash device, has a run to success |
| `MigrationTheorems.CancelledCanMove` | server/machine/migration.go:897-938 | after any failure or cancellation there is always a goroutine that can move towards its exit |
| `MigrationTheorems.CancelledRunEnds` | server/machine/migration.go:304-347 | after any failure or cancellation, whatever QEMU answers, the scheduler can bring every goroutine to its exit |
| `MigrationTheorems.EveryStateCanEnd` | server/machine/migration.go:304-347 | from every reachable state a cancellation lets everything come to an end |
| `MigrationNames.MigrationTask.NormaliseOverrides` | server/machine/migration.go:204-219 | rebuilds the overrides keyed by path, the path spelling winning over the short name |
| `MigrationNames.MigrationTask.RequestedDisks` | server/machine/migration.go:585-595 | the sizes asked of the destination, keyed by the path each disk will have there |
| `MigrationNames.IncomingTask.StartNBDServer` | server/system/incoming_migration.go:473-521 | succeeds exactly if the server starts, every requested path names a backend and QEMU accepts the resulting names one after the other; then it exports exactly these, the flash device first |
| `MigrationNames.OverridesByEitherName` | server/machine/migration.go:204-219 | after normalisation every moving disk goes to the override given for its path, or else for its short name, or else to its own path |
| `MigrationNames.MirrorTargetsAreExported` | server/machine/migration.go:785-802 | every name a drive-mirror writes to is one the destination exports, for every set of disks and every override map |
| `MigrationNames.FlashTargetIsExported` | server/machine/migration.go:785-802 | the same for the firmware flash device; with an override for its path the export is that of a disk |
| `MigrationNames.SharedExportIff` | server/machine/migration.go:785-802 | once the destination has accepted all names, two mirrors write to one export if and only if their disks were sent to one path by the overrides given, or by default |
| `MigrationNames.FlashHasItsOwnIff` | server/machine/migration.go:785-802 | no disk is mirrored to the export of the flash device if and only if no moving disk with its path has an override |
| `MigrationNames.TwoMirrorsOneExport` | server/machine/migration.go:207-219 | inputs: two disks overridden to one path, which the destination accepts as one, so that both are mirrored to its one export |
| `MigrationNames.ExportsAreTargets` | server/system/incoming_migration.go:490-518 | nothing is exported in vain: every export is the flash device or the target of some moving disk |
| `MigrationNames.SizeAskedFor` | server/machine/migration.go:585-595 | a disk is given its own size unless a later disk of another size goes to the same path |
| `IncomingDisks.IncomingTask.CreateLocalDisks` | server/system/incoming_migration.go:439-471 | creates volumes in the order of iteration up to the first that cannot be created, and remembers the paths |
| `IncomingDisks.IncomingTask.OnFailure` | server/system/incoming_migration.go:344-349 | removes the remembered volumes one by one; one that cannot be removed is skipped |
| `IncomingDisks.IncomingTask.Run` | server/system/incoming_migration.go:145-165 | succeeds exactly if all disks could be created and everything after them works, and then every requested path below /dev has its new volume; a failure leaves the volumes as they were, given paths below /dev and removals that succeed |
| `IncomingDisks.CreatedIffRemembered` | server/system/incoming_migration.go:439-471 | creation succeeds exactly if all paths are remembered in the end; otherwise it has given up at the first one whose volume could not be created |
| `IncomingDisks.EachHasItsVolume` | server/system/incoming_migration.go:462-466 | every remembered path below /dev names a volume that was not there before |
| `IncomingDisks.VolumeIsCreatedIff` | server/system/incoming_migration.go:441-464 | for the path of a volume in a group: it is created exactly if nothing is there and lvcreate does it |
| `IncomingDisks.RollbackIsExact` | server/system/incoming_migration.go:325-350 | whatever point the failure hits, precisely the created volumes are removed, except those lvremove fails on, and no volume that existed before |
| `IncomingDisks.RollbackRestoresIff` | server/system/incoming_migration.go:344-349 | the volumes are restored if and only if every remembered path starts with /dev/ |
| `IncomingDisks.CreatedUnderItsOwnName` | server/system/incoming_migration.go:456-466 | a path below /dev names the very volume that is created for it |
| `IncomingDisks.CreatedElsewhere` | server/system/incoming_migration.go:456-466 | a path that only becomes one below /dev by trimming blanks has its volume created in a volume group called dev |
| `IncomingDisks.BlankPathsLeak` | server/system/incoming_migration.go:344-349 | the volume of such a path is removed for none of the remembered paths |
| `IncomingDisks.BlankPathLeaks` | server/system/incoming_migration.go:439-471 | an input: the path /dev/x with a leading blank, for which a volume is created that the rollback leaves behind |
| `Backup.DiskBackupTask.BeforeStart` | server/machine/backup.go:113-205 | accepts exactly the targets that are not connected to the machine, exist and, when local, are large enough, and then remembers whether the disk has a bitmap |
| `Backup.DiskBackupTask.Copy` | server/machine/backup.go:300-450 | runs exactly the transaction of its mode, and succeeds exactly if that is accepted and the job is completed when polling finds it gone; after a success the target equals the disk of the start if and only if the mode copies everything or the bitmap covered every difference; a failure leaves no job behind |
| `Backup.ResultIff` | server/machine/backup.go:300-357 | any completed job, with any guest writes in between: the target equals the disk as it was at the start if and only if the job was a full one or the bitmap covered the differences |
| `Backup.RoundResult` | server/machine/backup.go:401-445 | between two polling rounds precisely the blocks no longer remaining hold their contents of the start |
| `Backup.StartShape` | server/machine/backup.go:300-357 | what the four modes leave to be copied: all blocks, or the dirty ones |
| `Backup.RequestMeans` | server/machine/backup.go:300-357 | which request is accepted and what it starts, in terms of its options: only an incremental request touches the bitmap, and only one that finds a bitmap it need not clear copies less than everything |
| `BackupHistory.HistoryKeepsInv` | server/machine/backup.go:300-357 | over any history of starts, guest writes, copying, completions and failures for any number of targets, every trusted target differs from the disk only in marked blocks, or in blocks set aside for a running job |
| `BackupHistory.TrustedIsCovered` | server/machine/backup.go:300-357 | between backups the bitmap covers a trusted target, so its next successful incremental backup reproduces the disk |
| `BackupHistory.MarkedOrStillToCopy` | server/machine/backup.go:300-357 | while a job runs, a block of its target that differs from the disk is marked or will still be copied |
| `BackupHistory.CleanHistoryCovers` | server/machine/backup.go:300-357 | if every backup to one target succeeds, then once one of them made a bitmap it covers the target between backups |
| `BackupHistory.CleanBackupsReproduce` | server/machine/backup.go:300-450 | in such a history every backup that completes leaves the disk of its start in the target, whatever is written meanwhile |
| `BackupHistory.PlainFullKeepsOthers` | server/machine/backup.go:351-357 | a plain full backup to one target, however it goes on and ends, leaves every other covered target covered |
| `BackupHistory.RemovedBitmapStartsAnew` | server/machine/backup.go:314-350 | once the bitmap has been removed, the next incremental request copies everything and starts a new one |
| `BackupHistory.FailedFirstFullCoversIff` | server/machine/backup.go:270-283 | when a first full backup fails, at any point and with any guest writes, the bitmap it leaves covers the target if and only if the blocks not copied yet were right before |
| `BackupHistory.NextIncrementalIff` | server/machine/backup.go:342-349 | the same request, when it completes next, reproduces the disk under exactly that condition, or if it resets the bitmap |
| `BackupHistory.FailedFirstFullHarmlessIff` | server/machine/backup.go:342-349 | a first full backup is harmless wherever it fails if and only if the target equals the disk before it starts |
| `BackupHistory.FailedFirstFullDoesHarm` | server/machine/backup.go:270-283 | an input: the first full backup starts and fails, its bitmap stays behind, and the same request, now incremental, completes with the target different from the disk |
| `VxlanPort.CreateBridgeIfNotExist` | internal/hostnet/bridge_port.go:72-101 | its effect on the link table for any call that may fail: `CreateBridge` |
| `VxlanPort.CreateVxlanIfNotExist` | internal/hostnet/vxlan_port.go:105-142 | refuses a link that is no vxlan device of this network, creates a missing one, brings it up |
| `VxlanPort.RemoveLinkIfExist` | internal/hostnet/link.go:11-31 | removes a vlan, vxlan or tap device, does nothing for a missing link and refuses all others |
| `VxlanPort.VxlanPortConfigure` | internal/hostnet/vxlan_port.go:16-61 | does nothing in the second stage, and otherwise the calls of `Configure` up to the first that fails |
| `VxlanPort.VxlanPortDeconfigure` | internal/hostnet/vxlan_port.go:63-103 | removes the port, and the two devices if the scan of the link list finds no other member of the bridge |
| `VxlanTheorems.ConfigureTouchesOnly` | internal/hostnet/vxlan_port.go:16-61 | configuring touches only the port and the two devices of its network, wherever a call fails |
| `VxlanTheorems.DeconfigureTouchesOnly` | internal/hostnet/vxlan_port.go:63-103 | the same for deconfiguring |
| `VxlanTheorems.ConfigureStaysSafe` | internal/hostnet/vxlan_port.go:16-61 | wherever a call fails, every network that has a port still has its vxlan device in its bridge |
| `VxlanTheorems.DeconfigureStaysSafe` | internal/hostnet/vxlan_port.go:63-103 | the same for deconfiguring |
| `VxlanTheorems.ConfigureConnects` | internal/hostnet/vxlan_port.go:16-61 | after a success the port and the vxlan device are members of the bridge |
| `VxlanTheorems.BridgeInUseSurvives` | internal/hostnet/vxlan_port.go:85-91 | a bridge with another member, and the vxlan device in it, survive |
| `VxlanTheorems.ConfigureTidies` | internal/hostnet/vxlan_port.go:16-61 | after a success the network is tidy (devices exist exactly if it has a port), whatever earlier failures left behind |
| `VxlanTheorems.DeconfigureTidies` | internal/hostnet/vxlan_port.go:63-103 | the same, and the port is gone |
| `VxlanTheorems.PortsAlwaysConnected` | internal/hostnet/vxlan_port.go:16-103 | over any run with failures anywhere, a network with a port has its bridge and its vxlan device in it |
| `VxlanTheorems.DevicesExistIffPorts` | internal/hostnet/vxlan_port.go:16-103 | over any run without failures in which a port stays in one network until deconfigured, the bridge and the vxlan device of a network exist if and only if it has a port |
| `VxlanTheorems.MovingAPortTidyIff` | internal/hostnet/vxlan_port.go:44-46 | configuring a port for another network leaves its old one tidy if and only if it was not the last port there |
| `VxlanTheorems.FirstPortSucceeds` | internal/hostnet/vxlan_port.go:16-61 | configuring the first port of a network succeeds if thirteen calls do |
| `VxlanTheorems.MovedLastPortLeavesDevices` | internal/hostnet/vxlan_port.go:44-46 | an input: in a tidy table the only port of network 1 is configured for network 2, which succeeds, and the devices of network 1 stay behind without a port |
| `VxlanResults.ConfigureResult` | internal/hostnet/vxlan_port.go:16-61 | configuring succeeds, given thirteen calls that do, exactly if the port and the devices are of the right kinds, and then the link table is exactly as described |
| `VxlanResults.ConfiguredIsUp` | internal/hostnet/vxlan_port.go:35-58 | after a success the port, the bridge and the vxlan device are up, in the bridge, and have the MTU asked for if it is at least 68; otherwise no MTU changes |
| `VxlanResults.DeconfigureResult` | internal/hostnet/vxlan_port.go:63-103 | deconfiguring succeeds, given seven calls that do, exactly if the port can be removed and, when it was the last one, the vxlan device can; then the link table is exactly as described |
| `VxlanResults.RemoveResult` | internal/hostnet/link.go:11-31 | a link is removed exactly if it is a vlan, vxlan or tap device |
| `CpuHotplug.SortCpus` | kvmrun/instance_qemu.go:371-382 | the listing sorted by socket, then core: the same entries in order, those of one slot in the order they had |
| `CpuHotplug.InstanceQemu.SetActual` | kvmrun/instance_qemu.go:356-437 | success exactly if the value is allowed and no command fails; the counter follows the slots even when QEMU fails part-way; slots go in lowest first and come out highest first, so a prefix stays a prefix; with a right counter success means exactly `value` plugged slots, if there are that many |
| `CpuHotplug.InstanceQemu.Plug` | kvmrun/instance_qemu.go:413-434 | plugs exactly the free slots up to where it stops, and stops at the value, at the last slot or at a failed command |
| `CpuHotplug.InstanceQemu.Unplug` | kvmrun/instance_qemu.go:395-411 | the same from the last slot down |
| `CpuHotplug.OrderPlug` | kvmrun/instance_qemu.go:413-434 | filling a sorted listing from the front takes the lowest free slots and keeps a prefix a prefix |
| `CpuHotplug.OrderUnplug` | kvmrun/instance_qemu.go:395-411 | emptying it from the back gives up the highest slots and keeps a prefix a prefix |
| `Pool.Pool.Append` | kvmrun/internal/pool/pool.go:121-140 | refuses an empty key and, unless replacing, a known one; the pool stays in order (distinct keys, equal to the domain of the map) exactly if it does not replace an existing entry; the new entry comes last |
| `Pool.Pool.Insert` | kvmrun/internal/pool/pool.go:142-171 | the new entry goes to the position, cut to the bounds, and the order of the others stays |
| `Pool.Pool.Remove` | kvmrun/internal/pool/pool.go:173-190 | exactly the key is gone from map and order, or nothing changes |
| `Pool.Pool.Values` | kvmrun/internal/pool/pool.go:37-56 | the values of the keys asked for, in that order, unknown ones yielding nil; of all keys in the order of the pool if none is asked for |
| `Pool.InsertThenRemove` | kvmrun/internal/pool/pool.go:142-190 | removing what was inserted restores the order, wherever it was inserted |
| `Pool.InsertAtPlace` | kvmrun/internal/pool/pool.go:149-167 | the new key stands at the position, or at the nearer end, and those around it are as before |
| `Pool.EntriesInsert` | kvmrun/internal/pool/pool.go:142-171 | as an association list, inserting is inserting one pair |
| `IscsiUri.UniqueName` | kvmrun/backend/iscsi/uri.go:24-89 | the parser of iSCSI URIs: the short name never holds a slash |
| `IscsiUri.NameOfTarget` | kvmrun/backend/iscsi/uri.go:24-89 | a URI of three parts is accepted exactly if portal and unit are well-formed; the short name is what follows the first colon of its target, or empty |
| `IscsiUri.CredentialsArePassed` | kvmrun/backend/iscsi/uri.go:35-45 | credentials in front of the portal are passed over |
| `IscsiUri.PortalForms` | kvmrun/backend/iscsi/uri.go:56-72 | a port has to be a number, and an opening bracket has to be closed |
| `IscsiUri.ThreePartsNeeded` | kvmrun/backend/iscsi/uri.go:48-52 | with fewer or more than three parts it is no such URI |
| `DiskBackend.NamelessTargetIff` | kvmrun/backend/iscsi/uri.go:77-79 | the short name is empty if and only if nothing follows the first colon of the target |
| `DiskBackend.BaseNameIsNoPath` | kvmrun/disks.go:104-117 | the short name of a backend never reads as the path of one |
| `DiskBackend.BackendKinds` | kvmrun/disks.go:104-117 | only the three kinds of paths name a backend, each read by its own parser |
| `DiskBackend.NameOfVolume` | kvmrun/backend/block/device.go:29-31 | a logical volume is known by its own name, whatever its group |
| `DiskPool.Exists` | kvmrun/disks.go:214-227 | finds a disk by short name or by path |
| `DiskPool.Get` | kvmrun/disks.go:192-210 | returns a disk for exactly the spellings that Exists accepts |
| `DiskPool.Remove` | kvmrun/disks.go:289-302 | succeeds for exactly the spellings that Exists accepts, and removes the disk that Get returns for it, leaving the others in order |
| `DiskPool.SpellingsAgree` | kvmrun/disks.go:192-227 | all spellings with one short name mean the same disk, and so does the short name |
| `DiskPool.RemovedIsGone` | kvmrun/disks.go:289-302 | after a removal the spelling that was used finds nothing |
| `DiskAttach.RuntimeAppend` | kvmrun/instance_qemu_i440fx.go:434-550 | adds a hot-pluggable, available, unknown disk with a backend if QEMU goes along, and reports a known one as connected; the pool's own refusal of an empty short name is ignored |
| `ChrootNode.Chroot.Append` | kvmrun/instance_qemu_i440fx.go:471-549 | makes the node of a block device and takes it away when anything fails; a failure leaves the chroot as it was if and only if the node was not there before, because the removal is arranged before mknod |
| `DiskAttach.RuntimeRemove` | kvmrun/instance_qemu_i440fx.go:552-615 | takes out exactly the disk the spelling stands for |
| `DiskAttach.ConfAppend` | kvmrun/instance_conf.go:353-403 | adds an unknown disk at the end or at a position, and reports a known one as connected |
| `DiskAttach.SetReadIops` | kvmrun/instance_qemu.go:713-737 | sets exactly this limit of exactly this disk, or fails and changes nothing; the same for the configuration, where nobody has to consent |
| `DiskAttach.SetWriteIops` | kvmrun/instance_qemu.go:739-763 | the same for writing |
| `DiskAttach.Machine.DiskAttach` | server/machine/disks.go:14-79 | succeeds exactly under the stated conditions, and leaves the running instance and the configuration exactly as described whatever fails: a step that fails does not undo those before it; a position is refused while the machine runs |
| `DiskAttach.SuccessMeansAttached` | server/machine/disks.go:14-79 | after a live success both places hold a disk of the short name with the limits asked for, and if it is new with driver, boot index and path as asked; it has the path asked for, in either place, if and only if no other path of that name was connected there, and the two places agree on the path if and only if they did before |
| `DiskAttach.AttachedPathIff` | kvmrun/instance_conf.go:369-374 | the disk asked for is there afterwards if and only if its short name was free or its own already |
| `DiskAttach.OtherGroupIsUpdated` | server/machine/disks.go:31-41 | inputs: for any two volume groups and a volume name, attaching one while the other is connected succeeds in both places, sets the limits of the connected one, and no disk has the path asked for |
| `DiskAttach.RuntimeAheadIff` | kvmrun/instance_qemu.go:713-763 | a refusal by the running instance has changed it if and only if the write limit was refused after another read limit was set |
| `DiskAttach.Machine.DiskDetach` | server/machine/disks.go:81-112 | succeeds exactly unless the name is blank, QEMU refuses or the configuration cannot be saved; after a live success neither place holds the disk, by whichever spelling, and the others are as before |
| `DiskAttach.AttachedHolds` | server/machine/disks.go:14-79 | a new disk is in the pool with everything as it was asked for; of one whose short name was taken only the limits change, so the path asked for is there unless another one held the name; the others are as before, and attaching once more changes nothing |
| `DiskAttach.AttachedOnce` | server/machine/disks.go:45-50 | the same for the order of the disks |
| `DiskAttach.DetachUndoesAttach` | server/machine/disks.go:14-112 | attaching a new disk and detaching it by any of its spellings restores disks and order |
| `ScsiArgs.ScsiAddrRoundTrip` | kvmrun/disks.go:337-368 | an address printed by the running instance is read back, exactly if its bus has a name; an empty one becomes scsi0 |
| `ScsiArgs.ShortScsiAddr` | kvmrun/disks.go:337-368 | an address may lack its unit, and the PCI address too |
| `ScsiArgs.DiskArgsSay` | kvmrun/cmdline_qemu_i440fx.go:62-110 | what the arguments of a disk tell QEMU, driver by driver: path, name, both limits, boot index, bus, address and unit |
| `ScsiArgs.CdromArgsSay` | kvmrun/cmdline_qemu_i440fx.go:16-60 | the same for a cdrom |
| `ScsiArgs.NoErrorIff` | kvmrun/cmdline_qemu_i440fx.go:356-384 | no device is found fault with exactly if each has a name or path, a known driver, a backend, and no negative number |
| `ScsiArgs.Gen` | kvmrun/cmdline_qemu_i440fx.go:352-403 | stops at the first complaint of the two loops, and otherwise yields the list `Compile` describes for cdroms and disks together |
| `ScsiArgs.CrashesIff` | kvmrun/cmdline_qemu_i440fx.go:62-76 | what `Gen` asks of its caller: it would crash on a disk if and only if that is valid, has no backend, and no earlier disk is found fault with; never on a cdrom |
| `ConfLoader.Unmarshal` | kvmrun/disks.go:304-329 | reads the disks of a file into a pool, in order, up to the first one that the pool refuses; a path without a backend is not noticed |
| `ConfLoader.DisksAreAsSaved` | kvmrun/disks.go:304-329 | everything about a loaded disk is as the file has it, and the short name is that of its path |
| `ConfLoader.Load` | kvmrun/instance_conf.go:46-85 | a file is accepted if and only if every path of a disk names a backend and no short name is empty or occurs twice; then the pool holds its disks in order |
| `ConfLoader.CommandLine` | cmd/launcher/start.go:45-76 | what the launcher does with the disks of either configuration: the command line of an accepted one is that of `Gen`, and no file makes it crash |
| `ConfLoader.NeverCrashes` | kvmrun/instance_conf.go:80-85 | no complaint about an accepted configuration is a crash |
| `ScsiArgs.CompileIsOrdered` | kvmrun/cmdline_qemu_i440fx.go:352-403 | each bus is declared at its first mention with the address given there, never twice and never after a device on it; the devices' own arguments stay as they are and in order |
| `ScsiArgs.OrderedByPosition` | kvmrun/cmdline_qemu_i440fx.go:352-403 | in such a list each SCSI device finds its bus further left, and no bus repeats an earlier name |
| `ScsiArgs.MentionsAreExact` | kvmrun/cmdline_qemu_i440fx.go:361-396 | the buses declared are exactly those that some SCSI device asks for |
| `ScsiArgs.MentionsHaveFirstAddress` | kvmrun/cmdline_qemu_i440fx.go:361-396 | each bus is declared with the address that the first device on it has |
| `ScsiArgs.GeneratedListIsSound` | kvmrun/cmdline_qemu_i440fx.go:352-403 | for every machine: declaration before use, each bus declared once across both loops, nothing else lost or reordered |
| `Dotenv.LocateKeyName` | internal/dotenv/parser.go:74-124 | the scan over the name, against `KeyName` |
| `Dotenv.KeyName` | internal/dotenv/parser.go:74-124 | what is left for the value is strictly shorter than the statement, or at least does not begin with a line end |
| `Dotenv.ExtractVarValue` | internal/dotenv/parser.go:127-202 | the scans for a comment and for the closing quote, against `VarValue` |
| `Dotenv.VarValue` | internal/dotenv/parser.go:127-202 | panics if and only if an unquoted value begins with a comment sign; otherwise the rest is shorter |
| `Dotenv.StatementStart` | internal/dotenv/parser.go:53-71 | a statement found begins neither with white space nor with a comment sign and is no longer than the text |
| `Dotenv.ParseBytes` | internal/dotenv/parser.go:21-48 | terminates on every ASCII text, each round leaving a strictly shorter rest, with the outcome of `Parse`: the assignments made, and end, error or panic |
| `DotenvTheorems.FileRoundTrip` | internal/dotenv/parser.go:21-48 | any list of well-formed lines (assignments with optional export, either separator, spaces, bare or quoted values, comments, blank lines), ended either way, is read back to what it means, whatever the expansions do |
| `DotenvTheorems.PlainFileRoundTrip` | internal/dotenv/parser.go:21-48 | a value without dollar signs and backslashes is read back literally |
| `DotenvTheorems.LinesAreRead` | internal/dotenv/parser.go:21-48 | the same for unix line ends and any variables given before |
| `DotenvTheorems.LastAssignmentWins` | internal/dotenv/parser.go:43 | in what a list of lines means, the last assignment to a name wins, its value expanded with the variables known up to there |
| `DotenvTheorems.OthersKeep` | internal/dotenv/parser.go:43 | what no line assigns stays as given |
| `DotenvTheorems.UnixLines` | internal/dotenv/parser.go:22 | the replacement of line ends turns the one rendering into the other |
| `DotenvTheorems.NameOfStatement` | internal/dotenv/parser.go:74-124 | the name of a rendered statement is found, the keyword export being dropped in front of it but not when it is the name itself |
| `DotenvTheorems.BadNameIff` | internal/dotenv/parser.go:89-113 | a name is refused exactly if a character that belongs neither in nor around it comes before any separator |
| `DotenvTheorems.NoSeparatorMeansNoName` | internal/dotenv/parser.go:87-123 | a last line without any separator has an empty name, and all of it is the value |
| `DotenvTheorems.BareValue` | internal/dotenv/parser.go:130-168 | a bare value is found without the space and comment behind it, and its variables are expanded |
| `DotenvTheorems.QuotedValue` | internal/dotenv/parser.go:170-193 | a quoted value is found, even over several lines and with its quote escaped inside; in double quotes escapes are expanded first and variables next, in single quotes nothing |
| `DotenvTheorems.BadQuoteIff` | internal/dotenv/parser.go:170-201 | a quoted value is refused exactly if every further quote follows a backslash |
| `DotenvTheorems.ErrorsEndIt` | internal/dotenv/parser.go:33-41 | a refused name or value ends the reading with that error, keeping what was read before |
| `DotenvTheorems.CrashesIff` | internal/dotenv/parser.go:155-163 | among such lines and lines with a comment after an empty value, the parser panics if and only if there is one of the latter, and the lines before the first of them have taken effect |
| `VacantUid.GetVacantUid` | internal/osuser/osuser.go:39-87 | the least UID in 1024..65534 that no line uses; none if and only if all are used; a line without a third field crashes and one without a number fails, whichever comes first |
| `VacantUid.ReadUids` | internal/osuser/osuser.go:48-62 | the UIDs that matter, each once, after the sentinel below the range |
| `VacantUid.LineIsRead` | internal/osuser/osuser.go:50-52 | a line whose third field is a number is read as that number, whatever the other fields |
| `VacantUid.ShortLineCrashes` | internal/osuser/osuser.go:51 | a line with fewer fields makes the program crash |
| `VacantUid.NoNumberFails` | internal/osuser/osuser.go:52-55 | a third field that is no number is an error |
| `Decimal.AtoiOfRender` | internal/osuser/osuser.go:52 | reading a number undoes writing it, with or without a sign, within 64 bits, and fails beyond |
| `Decimal.AtoiIff` | internal/osuser/osuser.go:52-55 | nothing but digits behind an optional sign is read as a number |
| `VacantUid.FirstGap` | internal/osuser/osuser.go:66-86 | the first gap of an increasing list behind the sentinel |
| `VacantUid.Contains` | internal/osuser/osuser.go:30-37 | membership |
| `VacantUid.SortedIsIncreasing` | internal/osuser/osuser.go:64 | sorting distinct numbers yields the same numbers, strictly increasing |
| `IpMath.LastIPv4IsInside` | internal/ipmath/ipmath.go:9-27 | the last address shares the prefix, for every length from 0 to 32 |
| `IpMath.LastIPv4IsGreatest` | internal/ipmath/ipmath.go:9-27 | no address that shares the prefix is greater (section 3.1 of RFC 4632) |
| `IpMath.LastIPv6IsInside` | internal/ipmath/ipmath.go:29-64 | the same for IPv6 and every length from 0 to 128 |
| `IpMath.LastIPv6IsGreatest` | internal/ipmath/ipmath.go:29-64 | no address that shares the prefix is greater (section 2.3 of RFC 4291) |
| `VRouter.GatewayIsUsable` | internal/hostnet/vrouter.go:257-271 | up to /30 the gateway lies inside the network and is neither its first nor its last address |
| `VRouter.GatewayIsSecondLast` | internal/hostnet/vrouter.go:257-271 | it comes right before the last, hence greatest, address |
| `VRouter.RouterAddrIs` | internal/hostnet/vrouter.go:257-290 | every network but the smallest gets an address of the router: the gateway, or for IPv6 the last address |
| `VRouter.AnnouncesIs` | internal/hostnet/vrouter.go:347-366 | what is announced for networks of either size and version |
| `VRouter.FirstIsLeast` | internal/hostnet/vrouter.go:257-271 | what counts as the first address is indeed the least of the network |
| `VRouter.Link.AddRoute` | internal/hostnet/vrouter.go:244-309 | gives the router its address in a network that is large enough; IPv6 beyond /64 and refusals of the kernel fail |
| `VRouter.Link.AnnounceGateways` | internal/hostnet/vrouter.go:340-375 | announces the gateways of the IPv4 networks, the common one for those that are too small |
| `VRouter.Link.ConfigureAddrs` | internal/hostnet/vrouter.go:219-242 | succeeds exactly if no network fails, and only then announces |
| `VRouter.AnnouncedExactly` | internal/hostnet/vrouter.go:340-375 | the addresses announced are exactly those gateways, each once |
| `VRouter.ConfiguredIsAnnounced` | internal/hostnet/vrouter.go:257-271 | every IPv4 address the router takes is announced |
| `PciAddress.AddressFromHex` | internal/pci/address.go:16-70 | the switch with its fall-through, against `Parse`; whatever is accepted has a device up to 31 and a function up to 7 |
| `PciAddress.RoundTrip` | internal/pci/address.go:16-74 | what is printed is read back if and only if the address is one the bus can have |
| `PciAddress.StringShape` | internal/pci/address.go:72-74 | every address that the bus can have is printed with twelve characters, the separators at their places |
| `PciAddress.HexWidth` | internal/pci/address.go:72-74 | a number is padded to exactly the digits asked for, if it fits |
| `PciAddress.CaseIsIgnored` | internal/pci/address.go:23-51 | capital hexadecimal letters mean the same |
| `PciAddress.BlankDomain` | internal/pci/address.go:22-30 | the domain may be left out or blank, and is the first one then |
| `PciAddress.NoFunction` | internal/pci/address.go:39-59 | the function may be left out, and is 0 then |
| `PciAddress.StringIsInjective` | internal/pci/address.go:72-74 | no two addresses print alike |
| `PciAddress.NormalForm` | internal/pci/address.go:16-74 | printing an accepted spelling yields a spelling that is read as the same address and printed as itself |
| `PciAddress.SameNormalForm` | internal/pci/address.go:16-74 | two accepted spellings have one normal form if and only if they are one address |
| `PciAddress.ManyDotsMeanZero` | internal/pci/address.go:39-59 | with two dots or more behind the last colon, whatever is in front: the spelling is accepted exactly if it is with a plain zero there, and then means device 0, function 0 |

## Left out

- Live migration: the return of a processor, the recording of its error by the errgroup, the cancellation that this causes and its end are one step; timeouts and ticks are possible steps, not times; progress, speed and log output are not modelled, nor is what `OnFailure` sends to QEMU and to the destination.
- Live migration: QEMU's block jobs and state migration are only the answers they give; that a mirror which was ready stays so is QEMU's promise.
- MigrationNames: manifest JSON, extra files and the requests between the hosts are not part of this model; both sides name disks by the same parser.
- IncomingDisks: users, configuration directories and the systemd unit, which the rollback removes even if they existed before; sizes of volumes; the cleaning of `..` and repeated slashes in paths.
- IncomingDisks.IncomingTask.Run: promises restored volumes for paths below /dev and removals that succeed; `RollbackIsExact` and `RollbackRestoresIff` state the rest.
- Backup: the wait for the job to run, the mapping into the chroot and the status file; a failed wait counts as running out of polling rounds. QEMU reports a job's end as the last event seen.
- Backup.DiskBackupTask.Copy: contains the cancellation that `OnFailure` sends, and takes for granted that it works.
- VXLAN ports: links refer to their bridge by name instead of by index, both being unique among the links that exist; addresses and indexes of devices, and the narrowing of the MTU, are not modelled.
- CPU hotplug: a plug or unplug that QEMU accepts takes effect at once; the CPU type and thread are not modelled.
- CpuHotplug.InstanceQemu.SetActual: takes for granted that QEMU lists each slot once.
- Pool: `RemoveN`, JSON, reflection and the mutex; disks in a pool are values, so two pools that share a pointer are not captured.
- DiskBackend: the parser of NBD URLs, which relies on Go's, is a parameter that yields the export name; of an iSCSI URI only the short name is kept.
- DiskAttach: the chroot node, the SCSI bus and the QEMU commands behind an attachment are one answer there; `ChrootNode` models the node, assuming that its removal works, and what a failed attachment leaves in QEMU is not modelled.
- ConfLoader: the checks of flash, cdrom, cloud-init and host-PCI devices, the user lookup, and which of the two configurations the launcher finds; both check their disks alike.
- ScsiArgs: the other arguments of the command line, and the text of the modelled ones: they are records, so a comma in a name is harmless here.
- Dotenv: what the regular expressions for variables and escapes do to `$` and `\`, which are parameters that leave other text alone; characters beyond ASCII.
- VacantUid: reading the file, the lock and `useradd`; integers are 64 bits wide.
- IpMath: the byte order of addresses and the two errors for an address of the other version; networks carry their version.
- VRouter: `ip rule` and the route are one answer of the kernel for each network; spellings of the common gateway that differ only as text.
- Network scheme JSON, cloud-init, gRPC, the pool of background jobs and the CLI are not part of this model.
