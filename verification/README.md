# Host provisioning, modelled and proved

Baseline provisions a Proxmox host: it prepares a drive, walks the host through its first boot, runs containers whose
data outlives their operating system, scans what it ships, and keeps its own configuration and identity. This project
models the parts of it where a wrong step destroys something or vouches for something untrue, and proves what they keep.

## How the model is built

Python code that works step by step is a Dafny class or method with the same steps and branches; beside it stands a
function that says what the steps amount to, and the method is proved to end as the function says. The theorems are
about the functions. External tools (`pct`, `pvesh`, `sgdisk`, `mkfs`, `lsblk`, `openssl`, `apt`, the network repair) are
not modelled inside. What they do is played from a *tape*: one event for every tool call and every durable save, saying
whether the call succeeds, fails, or the process dies in it, and how much of its effect has taken place by then. A
theorem that speaks of every tape speaks of every interruption.

- **Containers** (`ContainerModel`, `ContainerProtocol`, `ContainerSafety`, `ContainerRecovery`,
  `ContainerContinuation`, `ContainerAdmission`, `ContainerProgress`, `ContainerHost`): the journalled rebuild. `destroy`
  is taken at its worst: it deletes every retained directory that is still listed as a mount. Other users take free
  container ids before any call, also between the destroy and the clone. A log records the guests that came and what
  every call met.
- **First boot** (`FirstBootModel`, `FirstBootSafety`, `FirstBootProgress`, `FirstBootStory`, `FirstBootLifeline`,
  `FirstBootHost`): the authorization machine over any sequence of boots, with crashes inside each durable write and with
  lost or unreadable journals. A trace records what was shown, read, written, checked, installed and verified. The
  lifeline facts are those the check can return.
- **Drives**: sizing (`DriveSizing`), partition layout for GPT, section 5.3 of the UEFI Specification (`DriveLayout`,
  `DrivePlan`), the old volume names (`VolumeNames`), reading and judging a drive (`DriveGuard`, `DriveOwnership`),
  stamping and laying out (`DriveProtocol`, `DriveSafety`, `DriveRecovery`, `DriveHost`). A new partition may show
  whatever file system was there before. A log records every tool started and the drive it met.
- **Scanning**: byte searches (`Bytes`), UTF-8 of RFC 3629, section 3 (`Utf8`), the bounded log (`BoundedLog`), the
  denylist scan of a file and of a tree (`Scanner`, `TreeScan`), the canary scan of an image (`CanaryScan`).
- **Round trips**: `smartd.conf` (`Smartd`), encrypted fields (`ConfigTree`, `ConfigCrypto`, `ConfigRoundTrip`), PPM to
  PNG, sections 3.2, 4.1.1 and 6.2 of RFC 2083 (`PpmToPng`).
- **Graphs and paths**: import closure (`ImportClosure`), overlay targets and leaks (`Overlays`, `AppIsolation`), install
  identity and lineage (`InstallIdentity`, `FleetLineage`).
- Shared: `Basics`, `Arithmetic`, `Text`.

## Where the code does not do what its words promise

The model follows the code. Each of these has a lemma with the exact condition or a concrete case.

- A rebuild whose fatal call deletes mounts of the old container, or fails to destroy it afterwards, can never be carried
  on: every operation refuses from then on. Nothing is lost, but an operator has to step in. After all other
  interruptions that leave no torn guest, some undisturbed operations finish the container
  (`ContainerContinuation.HistoryFinishesExactly`, `ContainerContinuation.RebuildFinishesExactly`; a container that gets
  stuck: `ContainerContinuation.KilledAtDestroyIsStuck`).
- The lifeline check stops at the first fact that fails, and health asks only for an address and a gateway that did not
  fail: a list that stops at the network card, its driver or its carrier counts as healthy. So a machine whose network
  card is not seen can complete its first boot (`FirstBootLifeline.HealthyMeansObservedExactly`,
  `FirstBootLifeline.NoCardCommits`).
- Two personas that differ only in case share their volume names: the sizes are computed for one of them and the
  partitions laid out for both; on the smallest drive that gets a plan they end 68 GiB and more beyond it
  (`DriveLayout.PersonaPlansStayExactly`, `DriveLayout.RepeatedPersonaOverruns`).
- A layout interrupted after partitioning can be repeated if and only if every partition then shows one of Baseline's
  labels. On a drive that showed nothing before it cannot, and from then on neither the layout nor the stamp touches the
  drive again; on a Baseline drive laid out anew the old labels save it
  (`DriveRecovery.InterruptedLayOutRecoversExactly`, `DriveRecovery.HalfwayIsStuck`, `DriveRecovery.FreshDriveGetsStuck`,
  `DriveRecovery.OldLabelsSaveTheDrive`).
- A persona whose name has anything but letters, digits and underscores up front gets labels that the guard does not
  recognise as Baseline's, so its drive can never be laid out again (`DriveRecovery.PersonaLayOutRepeatsExactly`). Such
  names, and names that differ only in case, come only through the `personas` parameter: the layout action uses the
  default pair, which fits every drive and can be repeated (`DriveLayout.DefaultPlansFit`,
  `DriveRecovery.DefaultLayOutRepeats`).
- A persona called "persistence", or anything starting with "persistence_", has volumes whose current names are taken for
  old ones (`VolumeNames.PersonaLabelStableExactly`).
- The canary scan carries only the previous chunk's tail, and its report is keyed by the text a canary decodes to, so that
  of canaries that decode alike the last one speaks for all. The report is right about every canary, whatever the image
  holds, if and only if no middle chunk is more than one byte shorter than any canary that fits into the image, and no
  such canary decodes as another one does (`CanaryScan.FaithfulExactly`). The bytes FF and FE decode alike
  (`CanaryScan.AlikeInvalidBytes`); text never does (`CanaryScan.TextIsApart`).
- The denylist scan sizes its carried tail in characters but cuts it in bytes: a term is hidden by no content if and only
  if its encoding is at most one byte longer than the tail, whatever the size of the reads
  (`Scanner.NeverHiddenExactly`). ASCII terms and terms of at most 64 characters always are
  (`Scanner.FitsWhenAsciiOrShort`).
- Dropping malformed bytes makes text appear that is not in the file, if and only if a malformed part lies between two
  characters (`Utf8.AddsNothingExactly`, `Utf8.DroppedByteJoins`).
- A file that cannot be read counts as fully scanned with no bytes: a clean result vouches only for what was read before
  the failure (`TreeScan.CleanExactly`), and a tree whose only file holds a term but cannot be opened is clean
  (`TreeScan.UnreadableTreeIsClean`).
- An encrypted field that was not text (a number, a section) comes back as text, and a carriage return in a text comes
  back as a newline (`ConfigRoundTrip.RestoresExactly`, `ConfigRoundTrip.CarriageReturnComesBackChanged`).
- A truncated screen dump is converted without complaint into a PNG with too little data
  (`PpmToPng.ScanlinesCompleteExactly`, `PpmToPng.DumpIsShownExactly`).
- The conflict check reports a single overlay on the root directory as meeting itself (`AppIsolation.RootMeetsItself`).
  Plans made from validated targets hold no root, so for them every report is about two overlays
  (`AppIsolation.ValidatedConflictExactly`).

## Model

| member | source | states |
|---|---|---|
| ContainerSafety.HistorySafe | baseline/lib/distro_containers.py:186-394 | over every history of rebuild, recover, start and shutdown, with a failure or crash in any save or tool call and strangers taking free ids at any moment, also within an operation: no retained directory is lost, the container keeps id, base and storage, every guest not made by Baseline under this id stays exactly as it was, every guest that came meanwhile is still there as it came, and every call that would change a guest went to this id and met it free or held by the container Baseline made, except a clone that the tool refused because the id had just been taken |
| ContainerSafety.RebuildSafe | baseline/lib/distro_containers.py:286-298 | the same for one rebuild, from any state and however interrupted |
| ContainerSafety.RecoverSafe | baseline/lib/distro_containers.py:386-394 | the same for one recovery |
| ContainerSafety.StartStopSafe | baseline/lib/distro_containers.py:272-284 | the same for start and shutdown |
| ContainerSafety.ManagedIsOurs | baseline/lib/distro_containers.py:245-270 | a container that passes the ownership check was made by Baseline, whatever strangers do |
| ContainerRecovery.RecoverExactly | baseline/lib/distro_containers.py:329-394 | fault-free recovery succeeds if and only if the journal and base are intact and the id is free without leftover volumes or held by a stopped clone carrying the journal's token; otherwise it changes nothing |
| ContainerRecovery.RebuildClean | baseline/lib/distro_containers.py:286-298 | a rebuild interrupted anywhere, in which no clone or destroy leaves a torn guest behind and nobody takes the id, ends in one of four situations: untouched, journalled before the destroy, resumable, or finished |
| ContainerRecovery.RetriesClean | baseline/lib/distro_containers.py:272-284 | under the same conditions interrupted retries of recover, start and shutdown, also those that set only some mounts, keep a resumable rebuild resumable, or finish it |
| ContainerRecovery.EveryCrashConverges | baseline/lib/distro_containers.py:186-216 | once the old container is gone, after any number of interrupted retries one fault-free recovery (after a shutdown if it runs) ends ready and running with the same id, base and mounts |
| ContainerRecovery.BeforeDestroyIsRefused | baseline/lib/distro_containers.py:354-358 | while the old container is still there recovery refuses and changes nothing |
| ContainerRecovery.DeletedMountsNeedInspection | baseline/lib/distro_containers.py:245-270 | with its mounts deleted and not yet destroyed, a container is refused by every operation, whatever happens |
| ContainerContinuation.StuckForever | baseline/lib/distro_containers.py:245-270 | and by every history of operations: record and container stay as they are |
| ContainerContinuation.RebuildLeaves | baseline/lib/distro_containers.py:286-298 | an interrupted rebuild that leaves no torn guest leaves that situation if and only if the fatal call is the deletion of the mounts and deleted some, or the destroy and did not destroy; else a rebuild can begin again, or recovery can go on, or all is finished |
| ContainerContinuation.RebuildFinishesExactly | baseline/lib/distro_containers.py:286-394 | so after an interrupted rebuild some undisturbed operations end with the same container ready and running if and only if the fatal call is neither of those |
| ContainerContinuation.HistoryFinishesExactly | baseline/lib/distro_containers.py:186-394 | and the same after every history of interrupted rebuilds, recoveries, starts and shutdowns: it can be finished if and only if it is not stuck, and keeps its identity |
| ContainerContinuation.KilledAtDestroyIsStuck | baseline/lib/distro_containers.py:286-298 | a given stopped container whose rebuild dies at the destroy is stuck |
| ContainerRecovery.QuietRebuild | baseline/lib/distro_containers.py:286-298 | undisturbed, a rebuild of a stopped managed container ends ready and running, with its identity kept and its id held by the clone that carries the new token |
| ContainerAdmission.RebuildExactly | baseline/lib/distro_containers.py:245-298 | undisturbed, a rebuild succeeds if and only if the container and its base are as demanded, field by field, the container is stopped and not locked; otherwise it changes nothing, or, if only the lock stands in the way, saves its journal |
| ContainerAdmission.RebuildGo | baseline/lib/distro_containers.py:286-298 | whenever a rebuild succeeds, disturbed or not, the demands were met and what runs under the id is exactly the fresh unprivileged container of that base, with the record ready and nothing else changed |
| ContainerAdmission.RebuildNeedsChecks | baseline/lib/distro_containers.py:286-292 | whatever happens, nothing is saved and no guest is set, destroyed or cloned unless the container and its base were met as demanded |
| ContainerAdmission.RecoverAllowedExactly | baseline/lib/distro_containers.py:329-394 | undisturbed, a recovery succeeds if and only if journal, base and the clone or the free id are as demanded, field by field, and otherwise changes nothing |
| ContainerAdmission.RecoverGo | baseline/lib/distro_containers.py:386-394 | whenever a recovery succeeds, what runs is the fresh container of the base, or the clone it found, configured |
| ContainerAdmission.RecoverNeedsChecks | baseline/lib/distro_containers.py:329-374 | whatever happens, a recovery saves and calls nothing unless its demands were met |
| ContainerAdmission.SwitchExactly | baseline/lib/distro_containers.py:272-284 | undisturbed, a start succeeds if and only if the record is ready and its own container is stopped and unlocked, a shutdown if and only if it runs and is unlocked; otherwise nothing changes |
| ContainerAdmission.StartGo | baseline/lib/distro_containers.py:278-284 | whenever a start succeeds the container runs and nothing else has changed |
| ContainerAdmission.ShutdownGo | baseline/lib/distro_containers.py:272-276 | whenever a shutdown succeeds the container is stopped and nothing else has changed |
| ContainerAdmission.HistoryConfined | baseline/lib/distro_containers.py:186-394 | over every history no privileged container is made or changed: what is left running is unprivileged or was there before |
| ContainerAdmission.FailedPasswordStops | baseline/lib/distro_containers.py:206-211 | when the password could not be set and the stop that follows is not disturbed, the container does not run |
| ContainerProgress.RebuildProgress | baseline/lib/distro_containers.py:186-298 | for each of the fourteen calls that may stop a rebuild, exactly which record is on disk and which container is there: nothing is touched before the journal, every phase is on disk before its first call, and ready comes after the password and the status check |
| ContainerProgress.RecoverProgress | baseline/lib/distro_containers.py:329-394 | the same for a recovery, from a free id or from the clone it finds |
| ContainerHost.DistroContainers.Rebuild | baseline/lib/distro_containers.py:286-298 | the stepwise rebuild ends exactly as the protocol says, for every tape; when that is a success and what it leaves is `ContainerAdmission.RebuildExactly` and `ContainerAdmission.RebuildGo` |
| ContainerHost.DistroContainers.Recover | baseline/lib/distro_containers.py:386-394 | the stepwise recovery ends exactly as the protocol says |
| ContainerHost.DistroContainers.Inspect | baseline/lib/distro_containers.py:329-374 | the inventory reads decide absent, partial clone or refusal as the protocol says |
| ContainerHost.DistroContainers.CloneAndFinish | baseline/lib/distro_containers.py:186-194 | journal, clone, then finish, as the protocol says |
| ContainerHost.DistroContainers.FinishClone | baseline/lib/distro_containers.py:196-216 | journal, configure, start, set the password or stop again, check, commit, as the protocol says |
| ContainerHost.DistroContainers.Start | baseline/lib/distro_containers.py:278-284 | only a managed, ready container is started |
| ContainerHost.DistroContainers.Shutdown | baseline/lib/distro_containers.py:272-276 | only a managed container is shut down, and only a stopped one counts as success |
| ContainerHost.DistroContainers.RunHistory | baseline/lib/distro_containers.py:186-394 | a whole history of calls ends as the protocol says, with everything that `ContainerSafety.HistorySafe` promises, arrivals and calls included |
| FirstBootSafety.BootsKeep | baseline/lib/firstboot_statemachine.py:367-510 | over every sequence of boots, crashes and journal losses the history is a prefix of the one success path or stops at a failed repair, the state is its last entry, and no act in the trace came before the one that authorizes it |
| FirstBootSafety.MarkerNeedsEveryGate | baseline/lib/firstboot_statemachine.py:367-510 | a completion marker exists only if CONFIRM was read, then the network evidence was genuine, then installation succeeded, then verification succeeded, in that order since the journal was last lost |
| FirstBootSafety.InOrderReachesFour | baseline/lib/firstboot_statemachine.py:472-505 | those four acts in order are exactly what opens the last gate |
| FirstBootSafety.CommittedImpliesMarker | baseline/lib/firstboot_statemachine.py:205-220 | a journal that says committed implies the marker, and no look-up of an earlier entry ever fails |
| FirstBootSafety.NetworkWritesWereConfirmed | baseline/lib/firstboot_statemachine.py:402-443 | whatever is written to the network, after any number of restarts, is the diagnosis last shown before CONFIRM was read |
| FirstBootSafety.LastFinds | baseline/lib/firstboot_statemachine.py:215-220 | every entry of a well-shaped history is found by its state |
| FirstBootLifeline.HealthyExactly | baseline/lib/network.py:323-383 | a list the lifeline check returns counts as healthy if and only if address and gateway were both observed, or the check stopped at the card, its driver or its carrier; never both |
| FirstBootLifeline.EarlyExactly | baseline/lib/network.py:323-383 | the check stopped that early if and only if one of the first three things it looks at failed |
| FirstBootLifeline.HealthyMeansObservedExactly | baseline/lib/firstboot_network_repair.py:36-47 | so a healthy verdict means an observed address and gateway if and only if the list does not end in a failure of one of those three |
| FirstBootLifeline.NoCardIsHealthy | baseline/lib/firstboot_network_repair.py:36-47 | without a network card the list is one failed fact, which counts as healthy and is genuine evidence for every named target |
| FirstBootLifeline.NoCardCommits | baseline/lib/firstboot_statemachine.py:402-510 | from the factory state such a machine writes the marker when consent, installation and verification are given and a default route names a device |
| FirstBootProgress.HealthyFactsAreEvidence | baseline/lib/firstboot_network_repair.py:36-47 | facts are genuine evidence for every named target if and only if they count as a healthy lifeline |
| FirstBootProgress.FailuresAbsorb | baseline/lib/firstboot_statemachine.py:464-503 | after a recorded failure any number of boots changes nothing, prompts nobody and writes nothing |
| FirstBootProgress.FailureSticks | baseline/lib/firstboot_statemachine.py:458-503 | every failure a run reports is recorded so that later runs keep it |
| FirstBootProgress.CompletionIsFinal | baseline/lib/firstboot_statemachine.py:135-148 | once the marker exists nothing removes it and no boot does anything more |
| FirstBootProgress.BootCommitsExactly | baseline/lib/firstboot_statemachine.py:402-510 | from every reachable state, an uninterrupted boot writes the marker if and only if consent, a possible repair, genuine evidence, installation and verification are all given, now or on record |
| FirstBootStory.BootTellsExactly | baseline/lib/firstboot_statemachine.py:367-510 | from every reachable state a boot leaves exactly the entries, acts, marker and report of one story told from the journal and what the boot meets, or, cut short, a beginning of it |
| FirstBootStory.ReportsMean | baseline/lib/firstboot_statemachine.py:367-515 | for every run, cut short or not: completion is reported only with the marker and a committed entry, a decline only after the proposal was shown and nothing else done, and each failure only with its own last entry and no marker |
| FirstBootStory.DeclinedExactly | baseline/lib/firstboot_statemachine.py:402-424 | an uninterrupted boot is declined if and only if nothing was confirmed before, the proposal could be carried out and CONFIRM is not typed |
| FirstBootHost.WaitForConfirmation | baseline/lib/firstboot_network_repair.py:143-164 | consent is given if and only if some line reads CONFIRM after stripping |
| FirstBootHost.FirstBoot.Run | baseline/lib/firstboot_statemachine.py:367-510 | the stepwise run leaves the world and reports the action the model says; what each report means is `FirstBootStory.ReportsMean` |
| FirstBootHost.FirstBoot.RecordTransition | baseline/lib/firstboot_statemachine.py:205-213 | a transition is written durably or not at all, around a crash before or after |
| FirstBootHost.FirstBoot.RecordRepaired | baseline/lib/firstboot_statemachine.py:165-202 | a repaired network is recorded only with genuine evidence |
| FirstBootHost.FirstBoot.Boots | baseline/lib/firstboot_statemachine.py:149-162 | any sequence of boots and journal losses keeps the invariant |
| DriveSizing.ComputeAdaptivePlan | baseline/lib/drive_installer.py:450-487 | the plan has a size for every label and no other: nothing when the minimums do not fit, else minimum plus proportional share up to the maximum |
| DriveSizing.AsDict | baseline/lib/drive_installer.py:465-467 | later volumes of a label replace earlier ones in place |
| DriveSizing.SizesInRange | baseline/lib/drive_installer.py:450-487 | every volume is 0, or every volume lies between its minimum and maximum |
| DriveSizing.SizesAreTight | baseline/lib/drive_installer.py:473-487 | the total never exceeds the usable GiB, and either every volume is at its maximum or less than one GiB a volume is left over |
| DriveSizing.SizesAreMonotone | baseline/lib/drive_installer.py:450-487 | more free space never shrinks a volume |
| DrivePlan.ProportionalExactly | baseline/lib/drive_installer.py:473-487 | between minimum and maximum a volume gets the whole units of its proportional share, and its maximum only when that is its share |
| DriveLayout.PlanPartitions | baseline/lib/baseline_drive_layout.py:59-74 | a plan is refused exactly when every size is 0; otherwise partition i has number i + 1, the planned size, and starts where all before it end; which volume stands where is `DrivePlan.PlanInOrder` |
| DrivePlan.PlanInOrder | baseline/lib/drive_installer.py:132-147 | partition k + 1 is the k-th of the four shared volumes by name, then the personas' own volumes in their order, then their application data in the same order; the first starts at 1 MiB and each other one where the one before it ends |
| DrivePlan.VolumesExactly | baseline/lib/drive_installer.py:84-147 | every volume with its place, name, least and greatest size |
| DrivePlan.DefaultSizesExactly | baseline/lib/baseline_drive_layout.py:59-64 | with the default personas a drive gets a plan if and only if it has 203 GiB; there every volume has its minimum, and from 1103 GiB on its maximum |
| DriveLayout.PartitionsDisjointAndAligned | baseline/lib/baseline_drive_layout.py:62-89 | partitions are contiguous, disjoint and 1 MiB aligned, and each file system fills exactly its partition |
| DriveLayout.DistinctVolumes | baseline/lib/drive_installer.py:132-147 | volume names are distinct if and only if the personas differ ignoring case |
| DriveLayout.RepeatsTakeMore | baseline/lib/baseline_drive_layout.py:62-74 | the partitions take as much as was planned if and only if no name repeats; otherwise more |
| DriveLayout.FitsWhenUsable | baseline/lib/baseline_drive_layout.py:59-74 | a plan leaves 2 GiB less 1 MiB at the end of the drive if and only if its total is at most the usable GiB |
| DriveLayout.FitsExactlyWhenDistinct | baseline/lib/baseline_drive_layout.py:59-74 | plans leave that margin on drives of every size if and only if no volume name repeats |
| DriveLayout.PersonaPlansFitExactly | baseline/lib/drive_installer.py:132-147 | and for a set of personas if and only if no two agree but for case |
| DriveLayout.PersonaPlansStayExactly | baseline/lib/baseline_drive_layout.py:59-74 | partitions for a set of personas stay on drives of every size if and only if no two agree but for case |
| DriveLayout.RepeatedPersonaOverruns | baseline/lib/baseline_drive_layout.py:59-74 | else the plan for the smallest drive that gets one ends at least 68 GiB beyond it |
| DriveLayout.DefaultPlansFit | baseline/lib/drive_installer.py:81 | plans for the default personas leave the margin on drives of every size |
| VolumeNames.OldNameLeadsBack | baseline/lib/drive_installer.py:335-345 | the old name of a current name is mapped back to it |
| VolumeNames.RenamedTo | baseline/lib/drive_installer.py:322-345 | the four names that were renamed as a whole, and the two prefixes |
| VolumeNames.RenamedExactly | baseline/lib/drive_installer.py:322-349 | a name is changed if and only if it is the old name of what it becomes, so no two names become one |
| VolumeNames.PersonaLabelStableExactly | baseline/lib/baseline_drive_layout.py:97-115 | a persona's current label is left alone if and only if the persona is not "persistence" and does not start with "persistence_" |
| DriveGuard.ReadDriveState | baseline/lib/drive_guard.py:71-97 | the row loop computes the parse of the report; a failed, malformed or ambiguous report is unknown and counts as data |
| DriveGuard.TruthfulReport | baseline/lib/drive_guard.py:71-97 | a truthful report of any drive, trailing empty columns printed or not, reads back as what is on the drive |
| DriveOwnership.ReportKnownExactly | baseline/lib/drive_guard.py:71-97 | a drive is known if and only if the command succeeded, every line that is not blank has two fields and exactly one is a disk; otherwise it counts as holding data |
| DriveOwnership.OwnLabelExactly | baseline/lib/drive_guard.py:29-31 | a label is Baseline's own if and only if it, or the current name of what it used to be called, is the name of a shared volume, of a persona's volume or of its application data |
| DriveOwnership.DataIsForeign | baseline/lib/drive_guard.py:29-31 | a partition called DATA is not |
| DriveOwnership.AdoptableExactly | baseline/lib/drive_guard.py:105-112 | a drive may be adopted if and only if it is bare, or has partitions and all of them bear such names |
| DriveOwnership.MayEraseExactly | baseline/lib/drive_guard.py:114-156 | it may be erased if and only if it is bare, or bears only such names and carries a plain GUID that is on record |
| DriveSafety.StampSafe | baseline/lib/drive_guard.py:159-178 | stamping changes nothing but the identifier, only of a drive that is empty or all Baseline's, and registers it only for a drive that was read again and carries it |
| DriveSafety.ApplySafe | baseline/lib/baseline_drive_layout.py:118-138 | nothing is changed unless the drive was empty, or all Baseline's with a registered identifier |
| DriveSafety.LayOutSafe | baseline/lib/drive_admin.py:1096-1130 | the same for the whole layout action, which also needs the confirmed serial |
| DriveSafety.RegisteredGuidsWereAdopted | baseline/lib/drive_guard.py:159-178 | over every run, each registered identifier was registered by some step for a drive that was empty or all Baseline's and carries it |
| DriveSafety.ErasedDrivesWereAdopted | baseline/lib/drive_guard.py:105-156 | over every run, whenever an operation starts a tool that erases, also one that ends with the same labels as before, the drive was empty, or all Baseline's with an identifier an earlier step registered |
| DriveSafety.ForeignDriveUntouched | baseline/lib/drive_guard.py:114-121 | no tool is ever started on a drive that may not be adopted, and nothing is registered for it |
| DriveOwnership.StrangersDriveUntouched | baseline/lib/drive_guard.py:114-121 | that is, on a drive with a file system and no partition, or with any partition that does not bear the name of a volume |
| DriveOwnership.BlindTouchesNothing | baseline/lib/drive_guard.py:144-178 | no tool is started unless every read before it has shown the drive |
| DriveRecovery.StampAllowsExactly | baseline/lib/drive_guard.py:144-178 | after an undisturbed stamp a drive may be erased if and only if it was empty or all Baseline's |
| DriveRecovery.InterruptedLayOut | baseline/lib/baseline_drive_layout.py:127-138 | a layout that fails or dies at any call, with any part of that call done and any old file systems showing in the new partitions, leaves the drive exactly as far as its steps got, and registers nothing |
| DriveRecovery.InterruptedLayOutRecoversExactly | baseline/lib/drive_admin.py:1115-1130 | it can be stamped and laid out again if and only if there was no new partition table yet or every partition shows one of Baseline's labels |
| DriveRecovery.HalfwayIsStuck | baseline/lib/drive_guard.py:105-111 | if some partition shows any other label, no sequence of operations starts a tool on the drive or changes it any more |
| DriveRecovery.FreshDriveGetsStuck | baseline/lib/drive_guard.py:105-111 | that is every interruption between the partition table and the last file system when the new partitions show nothing |
| DriveRecovery.OldLabelsSaveTheDrive | baseline/lib/drive_guard.py:105-111 | and none when the partitions still show the labels a former layout gave them |
| DriveRecovery.LayOutRepeatsExactly | baseline/lib/drive_admin.py:1115-1130 | an undisturbed layout succeeds, and can be repeated if and only if every label it wrote is one of Baseline's |
| DriveRecovery.PersonaLayOutRepeatsExactly | baseline/lib/baseline_drive_layout.py:59-74 | which, for a set of personas, is if and only if each is non-empty and plain in its first eleven characters |
| DriveRecovery.DefaultLayOutRepeats | baseline/lib/drive_admin.py:1115-1130 | a layout for the default personas can be repeated |
| DriveOwnership.SuccessMeansLaidOut | baseline/lib/drive_admin.py:1115-1130 | when a layout reports success and no tool reported a success it did not have, the drive holds one ext4 file system for every planned volume, in order and by name, and nothing else |
| DriveHost.DriveAdmin.StampInstallerIdentity | baseline/lib/drive_guard.py:159-178 | the stepwise stamp ends as the protocol says and keeps the drive's contents; which drives it adopts is `DriveOwnership.AdoptableExactly` |
| DriveHost.DriveAdmin.Apply | baseline/lib/baseline_drive_layout.py:118-138 | the two checks and the validated step loop end as the protocol says |
| DriveHost.DriveAdmin.RunSteps | baseline/lib/baseline_drive_layout.py:130-137 | each destructive step follows a validation, and the first failure ends the loop |
| DriveHost.DriveAdmin.LayOutBaselineDrive | baseline/lib/drive_admin.py:1096-1130 | the stepwise layout ends as the protocol says; the drive changes only if confirmed and erasable |
| DriveHost.DriveAdmin.RunAll | baseline/lib/drive_admin.py:1096-1130 | a run of operations, with others changing the drive between them, goes through the states the theorems speak of |
| BoundedLog.ClosedForm | tools/bounded_log.py:46-69 | after n occurrences a signature has left min(n, 1 + early) records plus the periodic ones up to n, and the rest is suppressed |
| BoundedLog.TotalIsSum | tools/bounded_log.py:91-97 | the number of records is the sum over the signatures |
| BoundedLog.RecordsExactly | tools/bounded_log.py:46-69 | which occurrences of which signature have a record, and what it is called |
| BoundedLog.TimesExactly | tools/bounded_log.py:46-69 | the first and last time and the number of occurrences kept for a signature are those of the events |
| BoundedLog.BoundedEventLog.Record | tools/bounded_log.py:46-69 | one occurrence updates the log as the model says and tells whether it left a record |
| BoundedLog.BoundedEventLog.Finalize | tools/bounded_log.py:75-89 | one summary per signature in order, with what was suppressed |
| Utf8.DecodeKeepsText | tools/scan_denylist.py:160-163 | decoding with ignored errors hides no text: a term whose encoding occurs in the bytes occurs in what they decode to |
| Utf8.AddsNothingExactly | tools/scan_denylist.py:160-163 | it makes no text appear that is not there if and only if no malformed part lies between two decoded characters |
| Utf8.DroppedByteJoins | tools/scan_denylist.py:160-163 | the smallest case in which it does |
| Utf8.SliceIsSolid | tools/scan_denylist.py:160-163 | in well-formed bytes it never does, wherever a window is cut out of them |
| Scanner.WindowHolds | tools/scan_denylist.py:150-166 | for any chunks, whatever takes at most one byte more than is carried lies whole in some window |
| Scanner.SeenIsReal | tools/scan_denylist.py:150-166 | in well-formed content a term shown by a window is in what was read |
| Scanner.SeenExactly | tools/scan_denylist.py:150-166 | for well-formed content and terms that fit, some window shows a term if and only if one is in what was read |
| Scanner.FileContainsAnyTerm | tools/scan_denylist.py:140-172 | within its byte budget: matched if and only if some window up to the budget, the end or a failing read shows a term, with the bytes read up to the first such window; capped if and only if not matched and what can be read meets the budget; otherwise everything was read, or nothing is counted because a read failed |
| Scanner.NeverHiddenExactly | tools/scan_denylist.py:150-166 | no content, read in chunks of a given size, hides a term from every window if and only if the term's encoding is at most one byte longer than the carried tail |
| Scanner.FitsWhenAsciiOrShort | tools/scan_denylist.py:148-149 | which holds of every ASCII term of the denylist and of every term of at most 64 characters |
| TreeScan.ScanTree | tools/scan_denylist.py:175-248 | for every scan, complete or not: the findings are, in order, exactly the candidates that show a term within their allowance, which comes from what was really read of all before; all counters, the reason and the status follow from that; every finding is justified, a complete scan reports or clears every candidate, and it is clean if and only if every candidate passes |
| TreeScan.CaughtExactly | tools/scan_denylist.py:206-222 | a text candidate is reported if and only if it is not excluded by name, the budget was not used up before it, it has a status, and what its allowance lets be read of it holds a term |
| TreeScan.CaughtListed | tools/scan_denylist.py:221-222 | such a candidate is among the findings whatever happened before or after it |
| TreeScan.CaughtSome | tools/scan_denylist.py:221-222 | and there are findings only if there is one |
| TreeScan.CleanExactly | tools/scan_denylist.py:175-248 | for text content and terms that fit, a scan is clean if and only if every candidate not excluded is met before the budget is used up and, if it has a status, what can be read of it stays under its allowance and holds no term |
| TreeScan.UnreadablePasses | tools/scan_denylist.py:168-172 | a file whose first read fails passes, whatever it holds |
| TreeScan.UnreadableTreeIsClean | tools/scan_denylist.py:168-172 | the scan of one file that holds a term and cannot be opened is clean |
| TreeScan.JoinStatus | tools/scan_denylist.py:462-468 | findings win, then incomplete, and clean only if every scope is clean or not in scope |
| TreeScan.RunFullScan | tools/scan_denylist.py:429-471 | the overall result is clean if and only if every candidate of every scope passes and the history is clean or not in scope; it is findings if and only if some scope caught a candidate or the history has findings |
| CanaryScan.ScanForForbiddenBytes | baseline/lib/drive_setup_install.py:436-454 | the report says, for each text that canaries decode to, whether some window showed the last of them |
| CanaryScan.ReportMeans | baseline/lib/drive_setup_install.py:454 | a text is in the report if and only if some canary decodes to it, and the last such canary decides |
| CanaryScan.ReportedExactly | baseline/lib/drive_setup_install.py:441-453 | for any image and chunks, a canary is shown by a window if and only if it occurs somewhere without covering a middle chunk and more on both sides |
| CanaryScan.ReportedIsReal | baseline/lib/drive_setup_install.py:441-453 | a canary that a window shows is in the image, whatever the chunking |
| CanaryScan.RealIsReported | baseline/lib/drive_setup_install.py:441-453 | a canary of the image is shown by a window when no middle chunk is more than one byte shorter than it |
| CanaryScan.NeverMissedExactly | baseline/lib/drive_setup_install.py:441-453 | for given chunk sizes, no image hides a canary that fits into it if and only if no middle chunk is more than one byte shorter |
| CanaryScan.NeverMissesExactly | baseline/lib/drive_setup_install.py:441-453 | and none hides any canary up to a given length if and only if every middle chunk is at least that length less one byte |
| CanaryScan.FaithfulExactly | baseline/lib/drive_setup_install.py:436-454 | the report is right about every canary of the list, for all images of the given chunk sizes, if and only if the middle chunks are long enough for every canary that fits and none that fits decodes as another one does |
| CanaryScan.MissesNothingExactly | baseline/lib/drive_setup_install.py:436-454 | every canary of an image is reported, for all images, if and only if each one, wherever it is put, brings along a visible occurrence of the last canary that decodes as it does |
| CanaryScan.ApartMissesNothingExactly | baseline/lib/drive_setup_install.py:436-454 | which, when no two decode alike, is if and only if the middle chunks are long enough for every canary that fits |
| CanaryScan.AlikeIsMissed | baseline/lib/drive_setup_install.py:454 | a canary that fits and does not hold the last one that decodes as it does is missed by some image |
| CanaryScan.AlikeInvalidBytes | baseline/lib/drive_setup_install.py:454 | of the canaries FF and FE the first is reported absent from an image that is FF |
| CanaryScan.AlikeButHeld | baseline/lib/drive_setup_install.py:454 | decoding alike is not always a miss: a truncated character holds its own first byte |
| CanaryScan.TextIsApart | baseline/lib/drive_setup_install.py:454 | canaries that are well-formed text never decode alike |
| Smartd.BuildSmartdConf | baseline/lib/config_apply.py:60-91 | the printed file is the banner and one line of parts in their fixed order, or an error when a value cannot be joined |
| Smartd.ReadCurrentSmartdConfig | baseline/lib/config_diff.py:42-70 | the cursor over the tokens computes what they add to the defaults |
| Smartd.PartsScan | baseline/lib/config_diff.py:53-69 | the parts of any settings scan back to those settings, even when a value looks like an option |
| Smartd.RoundTripExactly | baseline/lib/config_diff.py:42-70 | reading the built file back gives the config's normal form if and only if no written value holds whitespace |
| Smartd.SettingsReachTheFile | baseline/lib/config_apply.py:60-91 | built and read again, the file holds both flags as switched, on or off for the two modes, schedule and address as they are, and the frequency if there is an address |
| Smartd.BuildsExactly | baseline/lib/config_apply.py:60-91 | the file can be built unless a schedule, an address, or a frequency next to an address is just true |
| Smartd.FullLine | baseline/lib/config_apply.py:60-91 | with everything set, the options in their order |
| Smartd.NormalIsIdempotent | baseline/lib/config_apply.py:60-91 | a normal form is its own normal form |
| Smartd.DiffConfig | baseline/lib/config_diff.py:123-135 | one row a desired setting, in order, changed if and only if the values differ |
| Smartd.ApplyThenDiff | baseline/lib/config_diff.py:123-135 | right after applying, the diff is empty if and only if every listed setting is in normal form |
| ConfigTree.GetDotted | baseline/lib/config_crypto.py:79-83 | walking the parts reaches the value at the path, or nothing where a step fails |
| ConfigTree.PutAt | baseline/lib/config_crypto.py:86-91 | setting a path of the original in a tree with replacements is one more replacement |
| ConfigCrypto.EncryptJsonFields | baseline/lib/config_crypto.py:117-137 | the loop seals each named field whose encryption succeeds, and stops at a path that does not exist |
| ConfigRoundTrip.EncryptStopsExactly | baseline/lib/config_crypto.py:117-137 | encryption of unrelated paths stops if and only if one of them does not exist |
| ConfigRoundTrip.SealedFieldExactly | baseline/lib/config_crypto.py:130-136 | what stands in place of a sealed field: marker, cipher name and the stripped sealed text |
| ConfigRoundTrip.FailedFieldStays | baseline/lib/config_crypto.py:135-136 | a field whose encryption fails stays as it is |
| ConfigCrypto.DecryptJsonFields | baseline/lib/config_crypto.py:140-174 | the loop opens each field found encrypted, putting back what a text-mode read makes of it, and collects those that fail |
| ConfigCrypto.SealedOpens | baseline/lib/config_crypto.py:131-167 | stripping the armoured text and giving it back its newline loses nothing |
| ConfigRoundTrip.FindIsMarked | baseline/lib/config_crypto.py:94-105 | exactly the sealed fields are found, in document order |
| ConfigRoundTrip.RoundTrip | baseline/lib/config_crypto.py:117-174 | decryption after encryption always ends, and its errors are, in document order, exactly the sealed fields that could not be opened |
| ConfigRoundTrip.EncryptedFieldComesBack | baseline/lib/config_crypto.py:140-174 | each sealed field comes back as its text with the line ends of a text-mode read, or stays sealed exactly as it was |
| ConfigRoundTrip.OtherFieldsUntouched | baseline/lib/config_crypto.py:117-137 | a field apart from the named ones is the same before, between and after |
| ConfigRoundTrip.RestoresExactly | baseline/lib/config_crypto.py:117-174 | the original comes back if and only if every sealed field could be opened, was text to begin with and holds no carriage return |
| ConfigRoundTrip.CarriageReturnComesBackChanged | baseline/lib/repair.py:103-104 | a text of two lines ended as on Windows comes back with newlines |
| PpmToPng.ReadInt | baseline/lib/drive_setup_install.py:506-523 | skipping whitespace and comments byte by byte reads the number the header has there |
| PpmToPng.HeaderIsRead | baseline/lib/drive_setup_install.py:506-530 | any valid header, however spaced and commented, gives its numbers and its pixels |
| PpmToPng.ParseExactly | baseline/lib/drive_setup_install.py:506-530 | a file is read if and only if it begins with P6 and three numbers with whitespace and comments between them |
| PpmToPng.Convert | baseline/lib/drive_setup_install.py:493-542 | the conversion is signature, header, data and end chunk, or an error |
| PpmToPng.ScanlinesCompleteExactly | baseline/lib/drive_setup_install.py:535-539 | the uncompressed data has the required length if and only if the file holds every pixel its header promises |
| PpmToPng.ConversionReadsBack | baseline/lib/drive_setup_install.py:532-542 | a PNG reader gets three sound chunks, the size, and after removing the filter bytes the original pixels |
| PpmToPng.DumpIsShownExactly | baseline/lib/drive_setup_install.py:493-542 | a valid P6 file is converted if and only if its numbers and its compressed data fit four bytes, and then a PNG reader shows the size and the pixels if and only if the file holds every pixel its header promises |
| ImportClosure.TransitiveClosure | tools/check_provision_deploys_all_imports.py:47-60 | the worklist ends, though modules may wait on it repeatedly, with exactly the modules reachable from the entries |
| ImportClosure.FindMissingLibDependencies | tools/check_provision_deploys_all_imports.py:63-92 | missing is exactly what a copied script or copied module reaches and is not copied |
| ImportClosure.NothingMissingExactly | tools/check_provision_deploys_all_imports.py:63-92 | nothing is missing if and only if the copied set is closed under one step of imports from copied scripts and modules |
| Overlays.NormalizePath | baseline/lib/appdata.py:387 | the component loop computes the normal form of a path |
| Overlays.NormPathIdempotent | baseline/lib/appdata.py:541-543 | normalizing an already normalized target, as the conflict check does, changes nothing |
| Overlays.NormPathLeadsThere | baseline/lib/appdata.py:387 | a normalized path leads where the path leads, from the root or from wherever one is |
| Overlays.ValidatedTarget | baseline/lib/appdata.py:379-389 | a validated target is in normal form, is no root, and its directory name has at most 255 characters |
| Overlays.ValidateExactly | baseline/lib/appdata.py:379-389 | a target is accepted if and only if it is absolute or in the home directory, no root, without a step up, a second leading slash, commas, colons and control characters, and its normal form takes at most 124 bytes |
| Overlays.EscapeInjective | baseline/lib/appdata.py:392-395 | two targets share a directory name only if they are the same |
| Overlays.BelowExactly | baseline/lib/appdata.py:547-548 | for absolute targets the string test for nesting holds if and only if the directories are nested |
| AppIsolation.TargetConflicts | baseline/lib/appdata.py:534-551 | exactly the contended targets are reported, with exactly the applications that meet there |
| AppIsolation.NoConflictExactly | baseline/lib/appdata.py:534-551 | nothing is reported if and only if all targets are distinct and none is inside another or a root |
| AppIsolation.RootMeetsItself | baseline/lib/appdata.py:544-548 | a single mount at the root is reported as meeting itself |
| AppIsolation.ValidatedConflictExactly | baseline/lib/appdata.py:534-551 | for plans made from validated targets nothing is reported if and only if no two mounts share a target or lie one inside the other |
| AppIsolation.CrossAppLeaks | baseline/lib/appdata.py:554-568 | exactly the layers of an application that lie in another's tree are listed, under both names |
| AppIsolation.LeaksExactly | baseline/lib/appdata.py:446-475 | under one root, planned layers leak into another application if and only if both were given the same identifier |
| AppIsolation.LayersApart | baseline/lib/appdata.py:446-475 | an application's layers lie in its own tree, no upper layer is a work directory, and two overlays share one only if they have the same target |
| InstallIdentity.Substrate.EnsureIdentity | baseline/lib/install_identity.py:162-191 | a stored identity is never replaced, and other hardware, or hardware that cannot be told, is reported; a missing one is minted with its parent's generation plus one and opens the history |
| InstallIdentity.Substrate.AdoptHardware | baseline/lib/install_identity.py:194-205 | only the fingerprint changes, the change is in the history, and the next check finds it fitting |
| InstallIdentity.Substrate.ForkIdentity | baseline/lib/install_identity.py:208-223 | a new identity one generation on whose parent is the one the disk had, appended to the history |
| InstallIdentity.Substrate.SetAlias | baseline/lib/install_identity.py:226-237 | only the alias changes, and the change is in the history |
| FleetLineage.RunKeeps | baseline/lib/install_identity.py:162-237 | over every run of a fleet each disk's identity is one that was minted, with the parent and generation it claims, and its history ends with it |
| FleetLineage.LineageIsATree | baseline/lib/install_identity.py:184-220 | no install descends from itself, and its generation is the number of steps to an origin |
| FleetLineage.IdChangesOnlyByFork | baseline/lib/install_identity.py:162-237 | over every run of a fleet a disk keeps its id as long as it is neither forked nor overwritten by a copy of another disk |
| FleetLineage.ForkSeparates | baseline/lib/install_identity.py:208-223 | a fork leaves no other disk with the same id |
| FleetLineage.SharedIdsWereCopied | baseline/lib/install_identity.py:162-223 | two disks have one id only if one of them got it by a copy of a disk that had it, and kept it since |
| FleetLineage.UncopiedIdsAreDistinct | baseline/lib/install_identity.py:162-223 | without whole-disk copies no two disks ever have one id |

## Left out

- Page rendering, HTTP handlers, job registries, catalogues and the command-line entry points: plumbing.
- Creating and listing containers, preparing base images and resetting logins: straight-line code whose steps are the
  ones modelled here.
- What strangers may do is limited to what their lack of knowledge implies: they take free container ids, never mount
  Baseline's retained directories, and do not know the current recovery token. Guests that exist are not changed by
  others between calls.
- A rebuild's recovery token is one that no guest carries yet, as `uuid4` makes it.
- ContainerRecovery.RebuildClean: asks that no clone is left locked and no destroy leaves its volume behind, and that nobody takes the id; recovery refuses those, as `ContainerRecovery.RecoverExactly` says.
- ContainerContinuation.HistoryFinishesExactly: the same conditions for every operation of the history, and tokens not used before.
- ContainerProgress.RebuildProgress: the same conditions; a password that could not be set is followed by a stop, whose outcome is stated, too.
- Journals that parse but were forged, and clocks: the first-boot theorems are about journals the machine wrote itself,
  or lost.
- The configurator settings that a finished first boot applies on every later boot: they write nothing the theorems
  speak of.
- Float rounding in the proportional share: exact integer division, which agrees for the magnitudes of drives.
- Upper- and lower-casing outside ASCII, and the 16-character label for characters outside ASCII.
- A drive replaced by another during one layout: the code validates path, serial and size before each step; here such a
  mismatch is a failed validation, and the drive may change between operations.
- The mount list, the serial list and the recent-backup rule of the layout action: outcomes of a check.
- Rows of `lsblk` other than disks and partitions are data but are not judged by name, as in the code.
- DriveHost.DriveAdmin.ReadState: takes what a truthful report reads back as, by `DriveGuard.TruthfulReport`, rather than printing and parsing again.
- TreeScan.ScanTree: physical sizes are taken as reported, the walk over directories is a given list, and memory limits, time limits and worker processes are not modelled.
- TreeScan.RunFullScan: the history scan enters with its status only.
- Smartd.DiffConfig: Python's equality of numbers and booleans is not modelled; values are booleans, text or nothing.
- ConfigCrypto.EncryptJsonFields: the dictionary is a value, so the deep copy, aliasing and the removal of temporary files are not visible; the cipher, its salt and its failures are parameters.
- ConfigRoundTrip.RoundTrip: keys without dots, non-empty top-level keys, no marker in the original, and named fields that do not contain one another.
- PpmToPng.ReadInt: Python also accepts signs and underscores in a number; here such a header is malformed. The `maxval` is read and ignored, as in the code, and a width or height of zero is not refused.
- AppIsolation.TargetConflicts: conflicts and owners are sets; their sorted order is not modelled.
- AppIsolation.LeaksExactly: one persona's root and identifiers without slashes; the alias checks of `naming` are not part of this model.
- ImportClosure.FindMissingLibDependencies: the files' import statements and the copy list are given as sets; parsing Python and shell, and the sorting of the result, are left out.
- Reading an unreadable identity file, and a crash between writing an identity and appending to its history.
- FleetLineage.SharedIdsWereCopied: ids are fresh as `uuid4` makes them, and replication manifests name a real parent and its generation.
- `repair`, `repair_additive`, `registry`, `naming` and `physical_device_safety` are not part of this model beyond the outcomes they report.
