# The disk manager service, modelled and proved in Dafny

The disk manager service follows block devices as they come and go, keeps a registry of disks and
volumes, mounts volumes through a storage daemon, remembers for each data-disk filesystem which of
1000 mount slots it owns, and unloads itself when idle. This project models that logic and proves
what holds over whole runs of it, with the storage daemon, the event bus and the file system free to
fail. What they answer is an argument of each call, so a statement over all arguments is a statement
over all failures of those answers. In the slot store these are every existence query, open, write and
rename; the mount pipeline's own calls to the store take its files to be readable.

`dafny verify dfyconfig.toml` checks everything.

## How it is laid out

- **Slot store.** `SlotMap` (the table and its allocation), `StoreModel` (a state machine over the
  table and what the two files say, with crashes), `StoreFiles` (what a file means when loaded),
  `VoldataStore` (the class, file step by file step, with a ghost trail of every instant a crash
  could leave behind; each public method refines one step of the machine), `SlotCalls` (the same
  calls as the mount pipeline sees them).
- **Registry and mount pipeline.** `Volumes` (every call as one transition over registry, kernel
  mounts, FUSE notifications, slots and event logs), `EventOrder`, `VolumeInvariants`, `VolumeCalls`
  (the core every call keeps), `MountTable` (the mounts of mounted volumes), `VolumeRuns`,
  `MountPaths` (safety over all runs), `RefreshRuns` (runs that need the one hypothesis those make),
  `MountOutcomes` and `FormatOutcomes` (when each call succeeds, and what then holds), `MountLedger`
  (the mount table to the mount, over all runs),
  `Dedup` (UUIDs), `RegistrySteps` and `DiskManager` (the class: copies, write-backs, intermediate
  states and rollbacks, holding a real `VoldataUuidStore`; each public method is proved to be its one
  transition of `Volumes`).
- **Discovery.** `PartitionTable` (the parser), `Discovery` (ownership of volumes by partitions as
  uevents arrive), `DeviceNumbers` (machines with several disks), `RegistryOwners`,
  `DiscoveryCalls` (which registry calls a discovery makes and what they come to) and
  `UeventBootstrap` (the class with its loops over a real `DiskManager`; each handler refines a
  discovery step and is shown to be a run of registry calls, so the run theorems apply to it).
- **Provider.** `Unload` and `BusyFlag`: step machines over any number of threads.
- **Values.** `Text` and `Ids` (validators, id printing and parsing), `Sectors` and `Divisors`
  (partition parameters on 64-bit integers), `Parcels` (what crosses the process boundary),
  `Decimal` and `Maps` (shared facts).

## What the proofs found

Where a promise does not hold of the code as it stands, the code is modelled as it is, the failing
case is exhibited, and the exact condition is proved where there is one.

- Unload: a success does not close the service for good. The timer keeps ticking, and a later failed
  attempt lowers the flag; a uevent body runs if and only if the last attempt did not succeed.
- Partition parameters: the alignment test multiplies by the sector size first, so it asks only for a
  multiple of alignment / gcd(alignment, sector size); with the default table, sector 2052 passes.
- Slot store: a start keeps the table of an intact main file if and only if it can read it, or finds
  the same in the backup, or there is nothing in it. One failed open after a save that did not reach
  the backup puts the older table back for good; one failed existence query empties both files. A main
  file that is absent, cut to nothing, or changed into another array is believed: the backup is
  consulted only if main cannot be opened or parsed.
- An eviction is not undone by the removal that follows a failed mount, and does not look whether slot
  1 is mounted: a mount that takes a new slot from a full store lands on another volume's path if and
  only if one is mounted there. A file the store did not write puts two UUIDs in one slot if and only
  if two of its items in force name one.
- A valid UUID that is taken stays valid under a suffix if and only if it has at most 128 characters
  and a suffix up to 9999 is free.
- Partitions of two disks share a volume id if and only if they have one device number; past the
  fifteenth the disk drops out of it, so equal numbers collide on any two disks.
- Discovery stays in step if and only if no number that stays listed loses a record without gaining
  one; a number listed twice can. A whole-disk volume stays when partitions appear, and if they go
  again its metadata is refreshed even while MOUNTED.
- Giving a MOUNTED volume another UUID, as that refresh can, keeps states, event order and UUIDs in
  order, but can take another volume's mount away or make two volumes share a path; a refresh that
  keeps the UUID cannot.
- The kernel's mount table is exactly that of the MOUNTED volumes if and only if each failing mount
  takes back its FUSE mount, no FUSE unmount stops half-way, and no volume is removed while its mount
  stays: the code itself removes a volume whose forced unmount failed.
- A FUSE unmount that fails leaves the volume MOUNTED, and its mount in place if and only if its first
  step was the one that failed.
- A volume's error flag is written to the parcel but not kept by the reader; a partition table's last
  usable sector does not travel.
- The documentation has BAD_REMOVAL follow UNMOUNTED: it does if and only if the forced unmount is
  allowed and succeeds. The documentation has every mount pass through CHECKING: it does if and only
  if the volume is f2fs on an internal data disk.

## Model

| member | source | states |
|---|---|---|
| SlotMap.SlotPathRoundTrip | services/disk_manager/src/db/voldata_uuid_store.cpp:44-106 | Parsing the slot out of a mount path inverts building it on 1..1000, and the path of any other number is refused. |
| SlotMap.SomeSlotFree | services/disk_manager/src/db/voldata_uuid_store.cpp:293-308 | Pigeonhole: a well-formed table below 1000 entries has a free slot in 1..1000, so the closing `return 1U` of the search is never reached. |
| SlotMap.FullUsesSlotOne | services/disk_manager/src/db/voldata_uuid_store.cpp:274-291 | A full well-formed table has an entry in slot 1, so the eviction's fallback on an arbitrary entry is never reached. |
| SlotMap.LeastFreeSpec | services/disk_manager/src/db/voldata_uuid_store.cpp:293-308 | The search ends on a free slot with every earlier one taken, or on the closing `return 1U` with none free. |
| SlotMap.LeastFreeIsLeast | services/disk_manager/src/db/voldata_uuid_store.cpp:293-308 | A free slot with every earlier one taken is what the search returns. |
| SlotMap.AllocateSpec | services/disk_manager/src/db/voldata_uuid_store.cpp:274-316 | Allocation for an unmapped UUID keeps at most 1000 entries with distinct slots, gives it the least slot that is free, and drops exactly the slot-1 entry when the table was full and nothing otherwise. |
| SlotMap.ReplaceSpec | services/disk_manager/src/db/voldata_uuid_store.cpp:214-257 | Replacing a UUID moves one key, keeps its slot and path, and leaves every other entry as it was. |
| SlotMap.AllocateThenRemove | services/disk_manager/src/db/voldata_uuid_store.cpp:184-212 | Removing a mapping just created restores the table if and only if it was not full: an eviction is not undone. |
| StoreFiles.ListedRoundTrip | services/disk_manager/src/db/voldata_uuid_store.cpp:318-364 | Loading any listing of a well-formed table, in any order, gives that table back. |
| StoreFiles.LoadItemsLoadable | services/disk_manager/src/db/voldata_uuid_store.cpp:349-360 | Whatever a file holds, what is loaded from it has each key equal to its entry's UUID, valid UUIDs, slots in 1..1000 that match their paths, and at most 1000 entries. |
| StoreFiles.LoadedIs | services/disk_manager/src/db/voldata_uuid_store.cpp:349-360 | What a file loads as: for each UUID its last accepted item among those read before the table is full. |
| StoreFiles.LoadedSlotsDistinctExactly | services/disk_manager/src/db/voldata_uuid_store.cpp:349-360 | For every file, the loaded slots are distinct if and only if no two items name one slot, among those read and accepted that no later item overrides: loading itself rejects no duplicate. |
| StoreFiles.ForeignFileMayShareSlots | services/disk_manager/src/db/voldata_uuid_store.cpp:349-360 | The smallest file on which that condition fails. |
| StoreModel.RunKeeps | services/disk_manager/src/db/voldata_uuid_store.cpp:108-257 | Over every run of Init, UnInit, Resolve, Remove, Replace and crashes, with any file query, open or save failing: at most 1000 entries, distinct slots in 1..1000, paths that match, table equal to the main file while initialised, backup equal to the last table backed up. |
| StoreModel.StepKeeps | services/disk_manager/src/db/voldata_uuid_store.cpp:108-257 | Each single call, restart or crash keeps that invariant. |
| StoreModel.CrashRecovers | services/disk_manager/src/db/voldata_uuid_store.cpp:366-404 | A start after a crash that can read main: the main file as it was, or the table whose main rename was done. That no other instant of a save needs considering is the last clause of `SaveToFile` below. |
| StoreModel.StartsInInv | services/disk_manager/src/db/voldata_uuid_store.cpp:97-106 | A store over files it wrote starts in the invariant that the runs keep. |
| StoreModel.BrokenMainRecovers | services/disk_manager/src/db/voldata_uuid_store.cpp:389-404 | If the main file cannot be parsed, the next start that can read the backup recovers exactly the table of the latest save whose backup write succeeded. |
| StoreFiles.DamagedMainRecoversExactly | services/disk_manager/src/db/voldata_uuid_store.cpp:318-404 | Whatever file stands where main was, a start that can read both files has that table if and only if main cannot be parsed, or is missing while that table is empty, or is an array that reads as that table. |
| StoreFiles.EmptiedMainLosesTable | services/disk_manager/src/db/voldata_uuid_store.cpp:329-331 | A main file cut to nothing: the start succeeds with an empty table and does not look at a good backup, and the next save overwrites that backup. |
| StoreModel.StartKeepsTableExactly | services/disk_manager/src/db/voldata_uuid_store.cpp:366-404 | With an intact main file that holds m, a start has m if and only if main is read, or is found but not opened and the backup, read, holds m, or m is empty; main itself is left as it was if and only if that holds or the start cannot save. |
| StoreModel.FailedOpenLosesTable | services/disk_manager/src/db/voldata_uuid_store.cpp:318-404 | The losing start: after a save that did not reach the backup, one failed open of the intact main file loads the older table, writes it over main and reports success. |
| StoreModel.MissingMainLosesTable | services/disk_manager/src/db/voldata_uuid_store.cpp:366-376 | If the main file is absent, or the query for it fails, the table starts empty, the main file is written so, and a good backup is overwritten as well if that write succeeds. |
| StoreModel.RecoversBackupExactly | services/disk_manager/src/db/voldata_uuid_store.cpp:366-404 | Without a readable main file a start has the table of the backup if and only if main is damaged rather than absent, or that table is empty. |
| StoreModel.StepKeepsMapping | services/disk_manager/src/db/voldata_uuid_store.cpp:141-257 | One operation keeps the path of a mapped UUID if and only if it does not save its removal, its replacement, its eviction from slot 1 of a full table, or a load that could not read main and found no such mapping in the backup. |
| StoreModel.MappingIsStable | services/disk_manager/src/db/voldata_uuid_store.cpp:141-257 | Over every run of calls, restarts and crashes with any failures, a mapped UUID keeps its path throughout if and only if no operation does one of those. |
| VoldataStore.ParseVoldataSlotFromMountPath | services/disk_manager/src/db/voldata_uuid_store.cpp:44-66 | The digit loop computes the slot of exactly the paths built from 1..1000. |
| VoldataStore.FromJsonItem | services/disk_manager/src/db/voldata_uuid_store.cpp:69-86 | An item is accepted exactly when it is a record with a valid UUID and a path of a slot. |
| VoldataStore.Restart | services/disk_manager/src/db/voldata_uuid_store.cpp:366-404 | A process that starts on the files any instant left behind has the table its reads give; if it can read both, exactly the table those files recover, so after a crash inside a call the one from before, the one the call loaded, or the one from after. |
| StoreModel.TableIsMainExactly | services/disk_manager/src/db/voldata_uuid_store.cpp:108-257 | After every call that reaches initialising, successful or failed and whatever could be read, the table in memory is what the main file says if and only if initialising succeeded, or loaded what main holds anyway. |
| VoldataStore.VoldataUuidStore.constructor | services/disk_manager/src/db/voldata_uuid_store.cpp:97-101 | A store starts empty and uninitialised over the files it finds, and in the invariant if it wrote them. |
| VoldataStore.VoldataUuidStore.SaveJsonToFile | services/disk_manager/src/db/voldata_uuid_store.cpp:427-470 | Temp write plus rename: the target holds the new items exactly when every file call succeeded and is untouched otherwise, at every instant in between as well. |
| VoldataStore.VoldataUuidStore.ToJsonArray | services/disk_manager/src/db/voldata_uuid_store.cpp:406-426 | Writes every entry once; reading the items back gives the table. |
| VoldataStore.VoldataUuidStore.SaveToFile | services/disk_manager/src/db/voldata_uuid_store.cpp:406-426 | Main file then backup: at every instant of the save the files recover the previous table or the new one, and at the end exactly what the reply says; every instant reads as the start, the end, or main renamed with the old backup. |
| VoldataStore.VoldataUuidStore.LoadJsonFromPath | services/disk_manager/src/db/voldata_uuid_store.cpp:318-364 | The table in memory becomes what the file lists, or is left alone when the file cannot be opened or parsed. |
| VoldataStore.VoldataUuidStore.LoadFromFile | services/disk_manager/src/db/voldata_uuid_store.cpp:366-404 | Loads main if it is found and can be opened and parsed, else the backup if main is found, else nothing, rewriting the files as needed; having succeeded the files recover the table loaded, having failed what they did before, and with both files readable they are the same. |
| VoldataStore.VoldataUuidStore.FindMinimumFreeSlotLocked | services/disk_manager/src/db/voldata_uuid_store.cpp:293-308 | The nested search loops return the least slot that no entry uses. |
| VoldataStore.VoldataUuidStore.EvictSlotOneIfFullLocked | services/disk_manager/src/db/voldata_uuid_store.cpp:274-291 | Below 1000 entries nothing happens; at 1000 exactly one entry goes, the slot-1 one for a table the store wrote. |
| VoldataStore.VoldataUuidStore.AllocateNextSlotLocked | services/disk_manager/src/db/voldata_uuid_store.cpp:310-316 | Eviction followed by the least free slot. |
| VoldataStore.VoldataUuidStore.Init | services/disk_manager/src/db/voldata_uuid_store.cpp:108-126 | Idempotent; refines the start of the machine for all replies of the file system. With both files readable it loads what a restart would recover and never changes that. |
| VoldataStore.VoldataUuidStore.UnInit | services/disk_manager/src/db/voldata_uuid_store.cpp:128-139 | Forgets the table in memory and leaves the files. |
| VoldataStore.VoldataUuidStore.SaveOrRestore | services/disk_manager/src/db/voldata_uuid_store.cpp:166-181 | When the main file cannot be written the previous table is back in memory; in memory and on file the two agree either way. |
| VoldataStore.VoldataUuidStore.ResolveMountPath | services/disk_manager/src/db/voldata_uuid_store.cpp:141-182 | Refines the Resolve step; reports a path only for a UUID that is mapped, reports creation exactly when the table it loaded did not map it, and at every instant the files recover the table from before, the one it loaded, or the one from after. |
| VoldataStore.VoldataUuidStore.RemoveByFsUuid | services/disk_manager/src/db/voldata_uuid_store.cpp:184-212 | Refines the Remove step and is crash-safe in the same sense; after success the UUID is unmapped. |
| VoldataStore.VoldataUuidStore.ReplaceFsUuid | services/disk_manager/src/db/voldata_uuid_store.cpp:214-257 | Refines the Replace step and is crash-safe in the same sense. |
| VoldataStore.VoldataUuidStore.TryGetMountPath | services/disk_manager/src/db/voldata_uuid_store.cpp:259-272 | Finds exactly the valid UUIDs in memory, without initialising. |
| SlotCalls.StartCommitted | services/disk_manager/src/db/voldata_uuid_store.cpp:108-126 | A start that succeeds makes the table it loaded the one a restart would load; one that fails changes nothing. |
| SlotCalls.StartSucceedsExactly | services/disk_manager/src/db/voldata_uuid_store.cpp:108-126 | A start succeeds if and only if the store has started before, can read an intact main file, or can write one. |
| SlotCalls.StartChangesExactly | services/disk_manager/src/db/voldata_uuid_store.cpp:108-126 | Initialising leaves what a restart would load as it was if and only if its reads give what the files hold, or it cannot save. |
| SlotCalls.WholeStart | services/disk_manager/src/db/voldata_uuid_store.cpp:108-126 | With both files readable it does. |
| SlotCalls.ResolveCommitted | services/disk_manager/src/db/voldata_uuid_store.cpp:141-182 | What a restart would load changes by one allocation exactly when a valid unmapped UUID was saved; the path returned is the one it then has. |
| SlotCalls.RemoveCommitted | services/disk_manager/src/db/voldata_uuid_store.cpp:184-212 | What a restart would load loses the UUID exactly when the call reports success, which it does if and only if the UUID is valid, the store starts, and it is unmapped or its removal is saved. |
| SlotCalls.ReplaceCommitted | services/disk_manager/src/db/voldata_uuid_store.cpp:214-257 | What a restart would load has one key moved exactly when both UUIDs are valid, the old is mapped, the new is not, and the save succeeded. The call reports success if and only if both are valid and they are equal, or the store starts and the old is unmapped, or the move was made and saved. |
| Text.Find | utils/src/disk_manager_utils.cpp:104-122 | Finds the first occurrence from a position, or says there is none. |
| Text.FindLast | utils/src/disk_manager_utils.cpp:104-122 | Finds the last occurrence, or says there is none. |
| Text.DotDotIsComponent | utils/src/disk_manager_utils.cpp:104-122 | `..` standing alone between separators, in a string with a '/', is the same as a component equal to `..` when the string is split on '/'. |
| Text.ScanForDotDot | utils/src/disk_manager_utils.cpp:104-122 | The skip-by-three scan plus the tail test flag a string exactly when it contains '/' and one of its '/'-components is `..`, so the skipping misses nothing. |
| Text.ScanForBackslash | utils/src/disk_manager_utils.cpp:124-131 | Flags a string exactly when some backslash has `..` right before it. |
| Text.IsFilePathInvalid | utils/src/disk_manager_utils.cpp:104-154 | The whole validator agrees with its declarative meaning: empty, a `..` component, `..\`, an encoded traversal pattern or a null byte. |
| Text.IsPureDigitsInRange | utils/src/disk_manager_utils.cpp:156-170 | True exactly for digit strings whose length is in range. |
| Ids.DiskIdRoundTrip | services/disk_manager/src/disk/uevent_bootstrap.cpp:155-169 | Parsing a printed disk id returns both numbers, for all pairs of 32-bit numbers. |
| Ids.VolIdInjective | services/disk_manager/src/disk/uevent_bootstrap.cpp:171-174 | Distinct devices print as distinct volume ids. |
| Ids.VolIdReads | services/disk_manager/src/disk/uevent_bootstrap.cpp:171-174 | A printed volume id reads back as major, dash, minor in this order, for every device. |
| Ids.DiskIdValidExactly | utils/src/disk_manager_utils.cpp:222-249 | The validator accepts a printed disk id exactly when both numbers are at most 9999. |
| Ids.VolIdValidExactly | utils/src/disk_manager_utils.cpp:185-220 | The same for printed volume ids. |
| Ids.PartitionIdsCollide | services/disk_manager/src/disk/uevent_bootstrap.cpp:181-187 | Two partitions of a disk share a volume id if and only if they are equal, or the disk has major 259 and a low partition lands on a high one's minor. |
| Ids.VolumeIdsCollideExactly | services/disk_manager/src/disk/uevent_bootstrap.cpp:171-187 | Partitions of any two disks share a volume id if and only if: both are past the fifteenth and equal; or one is, and the other disk has major 259 and lands on its minor; or neither is, with equal majors and equal minor sums modulo 2^32. |
| Ids.ApartExactly | services/disk_manager/src/disk/uevent_bootstrap.cpp:181-187 | Two disks never collide on themselves and their first fifteen partitions if and only if their majors differ or their minors are at least sixteen apart. |
| Dedup.IsUuidOccupiedUnlocked | services/disk_manager/src/disk/disk_manager.cpp:446-454 | True exactly when another volume has the UUID. |
| Dedup.TakenNamesBound | services/disk_manager/src/disk/disk_manager.cpp:456-469 | Pigeonhole: if every candidate up to n is taken, n is at most the number of other volumes minus one. |
| Dedup.DedupFsUuidUnlocked | services/disk_manager/src/disk/disk_manager.cpp:456-469 | The unbounded loop ends; the result is the UUID itself if free, else its least free suffix, with a number no larger than the number of other volumes. |
| Dedup.StoreResolvedKeepsDistinct | services/disk_manager/src/disk/disk_manager.cpp:1628-1648 | Storing a resolved UUID keeps the non-empty UUIDs pairwise distinct. |
| Dedup.LookupVolumeByUuid | services/disk_manager/src/disk/disk_manager.cpp:433-444 | Finds a volume exactly when one has the UUID; with distinct UUIDs it is the only one. |
| Dedup.CandidateValidExactly | utils/src/disk_manager_utils.cpp:251-273 | A suffixed valid UUID is valid if and only if it had at most 128 characters and the number at most four digits. |
| Dedup.ResolvedValidExactly | utils/src/disk_manager_utils.cpp:251-273 | Resolving a valid UUID gives a valid one if and only if it was free, or has at most 128 characters and a free suffix up to 9999. |
| Dedup.ResolvedIsValid | utils/src/disk_manager_utils.cpp:251-273 | With fewer than 10000 volumes, a valid UUID of at most 128 characters resolves to a valid one. |
| VolumeRuns.DoCore | services/disk_manager/src/disk/disk_manager.cpp:722-1182 | Every registry call, in every state and with any replies, keeps the core: visible states only, a path exactly while MOUNTED, distinct UUIDs, event logs in order, a well-formed slot table. |
| VolumeRuns.RunCore | services/disk_manager/src/disk/disk_manager.cpp:722-1182 | The same over every run of calls, with no hypothesis on the calls. |
| VolumeRuns.DoKeeps | services/disk_manager/src/disk/disk_manager.cpp:722-1182 | Every call but a refresh that gives a MOUNTED volume another UUID also keeps enough kernel mounts for the volumes mounted, each under its own path. |
| VolumeRuns.RunKeeps | services/disk_manager/src/disk/disk_manager.cpp:722-1182 | The same over every run of such calls. |
| VolumeRuns.MountedMeansMounted | services/disk_manager/src/disk/disk_manager.cpp:750-1076 | In every run whatever fails: only UNMOUNTED, MOUNTED, DAMAGED, REPAIR_FINISH_FAIL and FORMAT_FINISH_FAIL are seen between calls, and a volume has a path exactly while MOUNTED. In every run that gives no MOUNTED volume another UUID, the path of a volume MOUNTED outside FUSE is in the mount table of the kernel. |
| RefreshRuns.RefreshLosesMount | services/disk_manager/src/disk/disk_manager.cpp:1628-1648 | A run from the start in which a MOUNTED volume is given another UUID and a later unmount of another then takes its mount away: the hypothesis is needed for the mount table. |
| RefreshRuns.RefreshSharesPath | services/disk_manager/src/disk/disk_manager.cpp:1628-1648 | A run from the start in which that makes two MOUNTED volumes share a path: it is needed there too. |
| VolumeRuns.EventsAreOrdered | services/disk_manager/src/notification/common_event_publisher.cpp:47-53 | In every run a volume's events obey: UNMOUNTED directly after a successful EJECT, an EJECT between two MOUNTED, a terminal event only as the last one and never for a registered volume, BAD_REMOVAL directly after UNMOUNTED or a failed EJECT. |
| EventOrder.AcceptedIsOrdered | services/disk_manager/src/notification/common_event_publisher.cpp:47-53 | Every log the order automaton accepts satisfies the order stated over positions. |
| VolumeRuns.TerminalEventIsExact | services/disk_manager/src/disk/uevent_bootstrap.cpp:209-242 | A removal whose node goes ends the log with REMOVED if the volume was UNMOUNTED as it began, publishing nothing else, and with BAD_REMOVAL otherwise. |
| VolumeRuns.BadRemovalOrderExactly | services/disk_manager/src/notification/common_event_publisher.cpp:47-53 | The documented EJECT, UNMOUNTED, BAD_REMOVAL is what a removal without safe eject publishes if and only if its forced unmount is allowed and succeeds; otherwise it is EJECT, EJECT, BAD_REMOVAL. |
| VolumeRuns.UndocumentedRemoval | services/disk_manager/src/disk/uevent_bootstrap.cpp:209-242 | A mounted external volume pulled out while the daemon cannot unmount it: the documented order fails. |
| VolumeRuns.CheckedExactly | services/disk_manager/src/disk/disk_manager.cpp:807-858 | A mount passes through CHECKING if and only if it gets as far as a UUID and the volume is f2fs on an internal data disk. |
| VolumeRuns.FailedRemovalKeepsVolume | services/disk_manager/src/disk/uevent_bootstrap.cpp:232-236 | A removal whose node stays keeps the volume and publishes no terminal event. |
| VolumeRuns.UuidsStayDistinct | services/disk_manager/src/disk/disk_manager.cpp:446-469 | In every run the non-empty UUIDs are pairwise distinct. |
| VolumeRuns.DamagedExactlyByMarking | services/disk_manager/src/disk/disk_manager.cpp:722-748 | Over every call: a volume becomes DAMAGED if and only if the call marks it and it is UNMOUNTED, and then with exactly one abnormal event and nothing else changed; marking a volume in any other state changes nothing. |
| VolumeRuns.MountLeavesDamaged | services/disk_manager/src/disk/disk_manager.cpp:750-777 | Mount refuses a DAMAGED volume and changes nothing. |
| VolumeRuns.FailedFuseUnmount | services/disk_manager/src/disk/disk_manager.cpp:646-662 | When a FUSE unmount fails the record still says MOUNTED at its path, while that mount is untouched if and only if the first step was the one that failed. |
| VolumeRuns.OwnershipKept | services/disk_manager/src/disk/disk_manager.cpp:722-1182 | No call moves a volume to another disk or partition. |
| VolumeCalls.MountCore | services/disk_manager/src/disk/disk_manager.cpp:750-806 | Mount keeps the core. |
| VolumeCalls.DoUnmountCore | services/disk_manager/src/disk/disk_manager.cpp:1027-1076 | Unmount and forced unmount keep the core, including when they fail half way. |
| VolumeCalls.RefreshCore | services/disk_manager/src/disk/disk_manager.cpp:1628-1648 | A metadata refresh in any state keeps the core. |
| VolumeCalls.FormatCore | services/disk_manager/src/disk/disk_manager.cpp:1078-1136 | Format, and formatting one partition, keep the core. |
| VolumeCalls.TryToFixCore | services/disk_manager/src/disk/disk_manager.cpp:1138-1180 | TryToFix keeps the core. |
| VolumeCalls.DestroyCore | services/disk_manager/src/disk/uevent_bootstrap.cpp:209-242 | Removing a volume keeps the core. |
| VolumeCalls.PurgeCore | services/disk_manager/src/disk/disk_manager.cpp:1244-1283 | Purging a disk keeps the core. |
| MountTable.UnmountRoom | services/disk_manager/src/disk/disk_manager.cpp:642-682 | An unmount, whole or partial, takes no mount away that another volume needs. |
| MountTable.MountSeated | services/disk_manager/src/disk/disk_manager.cpp:750-806 | Mount leaves every mounted volume its mount and gives the new one its own. |
| MountTable.DoUnmountSeated | services/disk_manager/src/disk/disk_manager.cpp:1027-1076 | Unmounting leaves every other mounted volume its mount. |
| MountTable.TryToFixSeated | services/disk_manager/src/disk/disk_manager.cpp:1138-1180 | So does TryToFix. |
| MountTable.RefreshSeatedExactly | services/disk_manager/src/disk/disk_manager.cpp:1628-1648 | A refresh leaves every mounted volume under its own path if and only if the volume is not MOUNTED, keeps its UUID, or is mounted on a slot and keeps some UUID. |
| VolumeInvariants.MountEntryOk | services/disk_manager/src/disk/disk_manager.cpp:807-858 | From a mountable volume the pipeline ends in a visible state with a path exactly when MOUNTED, a UUID no other volume has, no kernel mount of anyone else lost, and a legal event sequence. |
| MountPaths.NoSharedMountPath | services/disk_manager/src/disk/disk_manager.cpp:860-872 | In every run that gives no MOUNTED volume another UUID and evicts no slot on which a volume is mounted, no two MOUNTED volumes share a mount path. |
| MountPaths.NeverFullSpares | services/disk_manager/src/db/voldata_uuid_store.cpp:274-291 | A slot store that stays below 1000 entries evicts none, so that hypothesis holds of every run with such a store. |
| MountPaths.EvictionSharesExactly | services/disk_manager/src/db/voldata_uuid_store.cpp:274-291 | A mount that takes a new slot from a full store lands on the path of another MOUNTED volume if and only if one is mounted on slot 1. |
| MountPaths.RunLinked | services/disk_manager/src/disk/disk_manager.cpp:860-872 | In such a run a volume mounted on a slot path owns that slot in the store. |
| MountPaths.FailedMountRestores | services/disk_manager/src/disk/disk_manager.cpp:938-971 | If mounting the filesystem fails at any stage and the undo calls succeed, kernel mounts are as before, FUSE notifications are too unless the volume was already notified, and the slots are if and only if the mount did not evict one from a full store. |
| MountOutcomes.MountExactly | services/disk_manager/src/disk/disk_manager.cpp:750-858 | Over the record before and every reply: the volume is MOUNTED after the call if and only if the service lets it begin, it has or can read a valid UUID, the check of f2fs on a data disk passes or asks for a repair that succeeds, the FUSE steps wanted succeed, a slot wanted is had, and the daemon mounts. Then it says UUID, type, path, mounts, notifications, slots and events. A refused check or repair is returned as it came, leaves REPAIR_FINISH_FAIL with nothing outside changed, and is the last event. |
| MountOutcomes.EntryExactly | services/disk_manager/src/disk/disk_manager.cpp:807-858 | The same for the pipeline alone, from any record that is not MOUNTED, with the record and events a failing mount leaves. |
| MountOutcomes.FilesystemExactly | services/disk_manager/src/disk/disk_manager.cpp:938-971 | Mounting the filesystem succeeds if and only if the slot, the FUSE steps and the mount do, and adds exactly one mount, or two through FUSE. |
| MountOutcomes.PathExactly | services/disk_manager/src/disk/disk_manager.cpp:411-431 | The root by disk kind and type: the slot for f2fs on a data disk, the DVR root on a DVR disk, the FUSE root where FUSE is on for neither of those, else the external root; no path exactly if a slot cannot be had. |
| MountOutcomes.AnyCaseOfF2fs | services/disk_manager/src/disk/disk_manager.cpp:217-225 | The type counts as f2fs in any mixture of upper and lower case and for no other name. |
| MountOutcomes.ForceUnmountExactly | services/disk_manager/src/disk/disk_manager.cpp:1027-1076 | A forced unmount succeeds if and only if a data disk may be unmounted and every unmount call the volume needs succeeds; then the kernel mounts are the old ones minus one at the old path, through FUSE also minus one at its external path and minus the notification, the record is UNMOUNTED without a path, and nothing else changed. Otherwise the record is as before. |
| MountOutcomes.UnmountExactly | services/disk_manager/src/disk/disk_manager.cpp:985-1008 | A plain unmount does exactly that for a MOUNTED volume and refuses any other untouched. |
| MountOutcomes.PointsExactly | services/disk_manager/src/disk/disk_manager.cpp:642-682 | The unmount calls succeed together or not; on success exactly the mounts and the notification of this volume are gone, and if the first call fails nothing is. |
| MountOutcomes.AskedAboutItsMount | services/disk_manager/src/disk/disk_manager.cpp:349-368 | The path asked about before a data disk is unmounted is the one the volume is mounted at, or would be mounted at next. |
| MountOutcomes.FixExactly | services/disk_manager/src/disk/disk_manager.cpp:1138-1180 | TryToFix ends MOUNTED with success if and only if a MOUNTED volume comes down, repair and check succeed and the volume mounts again, as MountExactly says; a failed repair leaves it down with exactly its mounts gone, a failed eject leaves the record as it was. |
| FormatOutcomes.FormatExactly | services/disk_manager/src/disk/disk_manager.cpp:1078-1136 | A format succeeds if and only if disk and state allow it, the daemon formats and a valid UUID is read back; then the volume is UNMOUNTED with the type asked for and a UUID no other volume has. If f2fs on a data disk, with both UUIDs valid and different, the old one mapped, the new one not, and the save good, the new UUID has the old slot and path and the old none; for another type a valid old UUID loses its slot if saved; every other entry, and in any other case the table, stays. |
| FormatOutcomes.SlotsFollowFormat | services/disk_manager/src/disk/disk_manager.cpp:384-409 | Those three cases for the slot table alone. |
| FormatOutcomes.FormatKeepsPlace | services/disk_manager/src/disk/disk_manager.cpp:384-409 | Formatted as f2fs again and mounted, a volume of a data disk lands on the path its old UUID had. |
| FormatOutcomes.FormatPartitionExactly | services/disk_manager/src/disk/disk_manager.cpp:2520-2583 | Formatting one partition of an SD or USB disk: when it is refused, when it only reports a failure, and what record and slots it leaves. |
| FormatOutcomes.PurgeExactly | services/disk_manager/src/disk/disk_manager.cpp:1244-1283 | The purge changes nothing unless every volume of the disk is UNMOUNTED; else exactly the disk's volumes go, and a UUID loses its slot if and only if it is valid, one of them had it and that could be saved. |
| MountLedger.DoExactly | services/disk_manager/src/disk/disk_manager.cpp:722-1182 | Each call, with any replies, keeps the mount table exact, one mount per MOUNTED volume at its path plus one at the external path per volume FUSE was told of and no other, if and only if a failing mount takes back the FUSE mount and notification it made, no unmount stops half-way, and no volume is removed with its mount still there. |
| MountLedger.RunExactly | services/disk_manager/src/disk/disk_manager.cpp:722-1182 | Over every run that gives no MOUNTED volume another UUID, the table is exact after each call if and only if each call is clean in that sense. |
| MountLedger.MountTableIsExact | services/disk_manager/src/disk/disk_manager.cpp:722-1182 | From an empty table, in every run of clean calls: the number of mounts at every path is the number of volumes MOUNTED there plus that of FUSE volumes whose external path it is; every mount is that of a MOUNTED volume, and every MOUNTED volume, through FUSE too, has its mount. |
| MountLedger.PointsBalance | services/disk_manager/src/disk/disk_manager.cpp:642-682 | An unmount accounts for exactly the mounts it removed, unless it stops half-way. |
| MountLedger.EntryBalance | services/disk_manager/src/disk/disk_manager.cpp:807-858 | A mount accounts for exactly the mounts it added or took back, if and only if a FUSE mount made for a failing mount is undone. |
| DiskManagers.DiskManager.constructor | services/disk_manager/src/disk/disk_manager.cpp:712-714 | The service starts with no disks or volumes over a store it wrote itself, the state the run theorems start from. |
| DiskManagers.DiskManager.SetVolumeStateLocked | services/disk_manager/src/disk/disk_manager.cpp:2608-2615 | Changes the state of that one record, if it exists. |
| DiskManagers.DiskManager.ResolveVoldataMountPath | services/disk_manager/src/disk/disk_manager.cpp:296-328 | On the real slot store: path, creation flag and what a restart would load are those of the slot policy. |
| DiskManagers.DiskManager.UpdateVoldataMappingAfterFormat | services/disk_manager/src/disk/disk_manager.cpp:384-409 | On the real slot store: forget the old UUID, or move its slot to the new one; that this is what happens to the table, entry by entry, is `FormatOutcomes.SlotsFollowFormat`. |
| DiskManagers.DiskManager.MountUsbFuseIfNeeded | services/disk_manager/src/disk/disk_manager.cpp:580-621 | Mounts and notifies, or undoes the mount when the notification fails. |
| DiskManagers.DiskManager.RollbackFuseMount | services/disk_manager/src/disk/disk_manager.cpp:623-640 | Undoes the FUSE mount if it is there, and the notification. |
| DiskManagers.DiskManager.BuildMountDataPath | services/disk_manager/src/disk/disk_manager.cpp:860-872 | One of the four roots, or the slot path, by policy. |
| DiskManagers.DiskManager.MountVolumeSetPath | services/disk_manager/src/disk/disk_manager.cpp:874-884 | Fails exactly when the volume is gone. |
| DiskManagers.DiskManager.ExecuteVolumeDataMount | services/disk_manager/src/disk/disk_manager.cpp:886-936 | Mounts the data, or gives back the slot and the FUSE mount; refines the pipeline's last stage. |
| DiskManagers.DiskManager.MountVolumeFilesystem | services/disk_manager/src/disk/disk_manager.cpp:938-971 | FUSE, path and data mount with their rollbacks refine the one transition `MountFilesystem`. |
| DiskManagers.DiskManager.EnsureFsUuidReady | services/disk_manager/src/disk/disk_manager.cpp:539-578 | Either an error and nothing changed, or success; a UUID read on the way is one no other volume has. After success the UUID is valid if and only if the record had one before, or the one read was free or short enough for a free suffix. |
| DiskManagers.DiskManager.CheckBeforeMount | services/disk_manager/src/disk/disk_manager.cpp:817-850 | CHECKING, REPAIR_START and REPAIRING are entered and left; which answers end UNMOUNTED and which end REPAIR_FINISH_FAIL with the error passed on is said by `MountOutcomes.CheckExactly` and `MountOutcomes.MountExactly`. |
| MountOutcomes.CheckExactly | services/disk_manager/src/disk/disk_manager.cpp:817-850 | The check passes if and only if it answers 0, or asks for a repair that succeeds; otherwise REPAIR_FINISH_FAIL, the error of the repair if one was asked for and else of the check, and RepairFailed last. |
| DiskManagers.DiskManager.MountVolumeEntry | services/disk_manager/src/disk/disk_manager.cpp:807-858 | UUID, check and mount refine `MountEntry`; after success the record in the map is in a state from which the write-back is accepted. |
| DiskManagers.DiskManager.Mount | services/disk_manager/src/disk/disk_manager.cpp:750-805 | Refines the Mount transition; the `state changed during mount` exit is unreachable when calls are serialised. |
| DiskManagers.DiskManager.NotifyVolumeEjecting | services/disk_manager/src/disk/disk_manager.cpp:2734-2751 | Record and map go to EJECTING, one EJECT event, the previous state returned. |
| DiskManagers.DiskManager.UnmountVolumeMountPoints | services/disk_manager/src/disk/disk_manager.cpp:642-682 | Data path, FUSE path and notification in that order, stopping at the first failure; that the mounts are then gone, and no others, is `MountOutcomes.PointsExactly`. |
| DiskManagers.DiskManager.ResolveQueryUsbIsInUseMountPath | services/disk_manager/src/disk/disk_manager.cpp:351-368 | The path of the record, else the slot path the store has in memory for an f2fs volume, else the external path of a valid UUID, else none; none exactly when the table on file would give none either. |
| DiskManagers.DiskManager.ResolveUnmountForceFlag | services/disk_manager/src/disk/disk_manager.cpp:684-711 | Refuses a data disk that is in use, cannot be queried or has no path, and nothing else. |
| DiskManagers.DiskManager.DoUnmountVolume | services/disk_manager/src/disk/disk_manager.cpp:1027-1076 | Refines the unmount transition: UNMOUNTED with EJECT and UNMOUNTED events, or the previous state with two EJECT events. |
| DiskManagers.DiskManager.Unmount | services/disk_manager/src/disk/disk_manager.cpp:985-1008 | Refines Unmount, with its state guard. |
| DiskManagers.DiskManager.ForceUnmount | services/disk_manager/src/disk/disk_manager.cpp:1010-1025 | Refines ForceUnmount, which has none. |
| DiskManagers.DiskManager.PublishFormatFailEvent | services/disk_manager/src/disk/disk_manager.cpp:2629-2637 | FORMAT_FINISH_FAIL in the map and one event. |
| DiskManagers.DiskManager.UpdateVolumeAfterFormat | services/disk_manager/src/disk/disk_manager.cpp:2639-2665 | New UUID, slot mapping and UNMOUNTED state, or an error and no change. |
| DiskManagers.DiskManager.Format | services/disk_manager/src/disk/disk_manager.cpp:1078-1136 | Refines Format on registry and slot store together. |
| DiskManagers.DiskManager.RepairAndCheckVolume | services/disk_manager/src/disk/disk_manager.cpp:2701-2732 | CHECKING is left for UNMOUNTED or REPAIR_FINISH_FAIL with two events. |
| DiskManagers.DiskManager.TryToFix | services/disk_manager/src/disk/disk_manager.cpp:1138-1180 | Eject, repair, check and mount refine TryToFix. |
| DiskManagers.DiskManager.MarkVolumeAbnormal | services/disk_manager/src/disk/disk_manager.cpp:722-748 | Refines the marking transition. |
| DiskManagers.DiskManager.OnDiskCreated | services/disk_manager/src/disk/disk_manager.cpp:1372-1383 | Adds a disk exactly when it is unknown. |
| DiskManagers.DiskManager.OnDiskDestroyed | services/disk_manager/src/disk/disk_manager.cpp:1407-1416 | Drops a known disk, leaving its volumes. |
| DiskManagers.DiskManager.OnVolumeCreated | services/disk_manager/src/disk/disk_manager.cpp:1418-1428 | Inserts a volume, whatever its disk, without overwriting one. |
| DiskManagers.DiskManager.UpdateVolumeMetadata | services/disk_manager/src/disk/disk_manager.cpp:1628-1648 | Refines the metadata refresh, with the resolved UUID. |
| DiskManagers.DiskManager.DestroyVolume | services/disk_manager/src/disk/uevent_bootstrap.cpp:218-241 | Forced unmount unless UNMOUNTED, node, terminal event, record: refines the removal transition. |
| DiskManagers.DiskManager.DestroyVolumeByDiskIdAndPartNum | services/disk_manager/src/disk/disk_manager.cpp:2782-2825 | Removes a volume of that partition exactly when there is one and the disk is known. |
| DiskManagers.DiskManager.PurgeVolumesForDisk | services/disk_manager/src/disk/disk_manager.cpp:1244-1283 | An unknown disk is refused; of a known one exactly the volumes leave the registry and exactly their savable UUIDs the store. |
| DiskManagers.DiskManager.IsDiskNotReady | services/disk_manager/src/disk/disk_manager.cpp:2406-2427 | True exactly when the disk is unknown or has a volume that is not UNMOUNTED. |
| DiskManagers.DiskManager.PreparePartition | services/disk_manager/src/disk/disk_manager.cpp:1332-1352 | Refines the guarded purge that starts Partition. |
| PartitionTable.Trim | services/disk_manager/src/disk/partition_table_parser.cpp:50-61 | Blanks on both sides and nothing else are removed; the words of the line stay the same. |
| PartitionTable.ParseSgdiskDump | services/disk_manager/src/disk/partition_table_parser.cpp:84-138 | The line loop computes the fold of its lines, and succeeds exactly when a table type was named. |
| PartitionTable.ListedExactly | services/disk_manager/src/disk/partition_table_parser.cpp:84-138 | The listing is exactly the PART lines with a number from 1 up below a GPT table, or below an MBR table with a supported type, each once and in order, under the last table type named. |
| PartitionTable.ListedPartitions | services/disk_manager/src/disk/partition_table_parser.cpp:84-138 | Every partition listed has a number in 1..2^32-1, an MBR or GPT table, a supported type if MBR, and a PART line that names it. |
| PartitionTable.DumpIsGoodTable | services/disk_manager/src/disk/partition_table_parser.cpp:84-138 | A dump without a repeated number is a table that discovery keeps in step with. |
| DeviceNumbers.NoCollisionExactly | services/disk_manager/src/disk/uevent_bootstrap.cpp:171-187 | With volumes named by their devices, an event meets no collision if and only if no two partitions it names share a device number and none shares one with a volume that stands for another partition, of this disk or any other. |
| DeviceNumbers.MachineFollowsTables | services/disk_manager/src/disk/uevent_bootstrap.cpp:946-1115 | On a machine with any number of disks sixteen minors apart, over every run of events with up to fifteen partitions a disk and no number listed twice, the partition numbers that own a volume are those of the last table seen. |
| Discovery.DiffNumbers | services/disk_manager/src/disk/uevent_bootstrap.cpp:946-970 | Old numbers minus removed plus added are the new numbers if and only if no number that stays listed loses a record without gaining one. |
| Discovery.StepExactly | services/disk_manager/src/disk/uevent_bootstrap.cpp:1012-1115 | After an event whose device numbers are in order, volumes and snapshots are in step if and only if no number that stays listed lost a record without gaining one. |
| Discovery.RunExactly | services/disk_manager/src/disk/uevent_bootstrap.cpp:946-1115 | Over every run of such events, they are in step after each one if and only if that holds of each. |
| Discovery.VolumesFollowTable | services/disk_manager/src/disk/uevent_bootstrap.cpp:946-1115 | Over every run of events with working node calls, no device collision and no repeated number, the partition numbers that own a volume on a disk are exactly those of its snapshot, one volume each. |
| Discovery.RepeatedNumberBreaks | services/disk_manager/src/disk/uevent_bootstrap.cpp:1080-1085 | So a table that listed a number twice and now lists one of the two records leaves the service out of step. |
| Discovery.WholeDiskVolumeStays | services/disk_manager/src/disk/uevent_bootstrap.cpp:1087-1095 | A whole-disk volume is not removed when partitions appear. |
| RegistryOwners.OwnersKept | services/disk_manager/src/disk/disk_manager.cpp:722-1648 | No registry call but creation, removal and purge changes which volumes exist or what they stand for. |
| RegistryOwners.OwnersDestroyed | services/disk_manager/src/disk/uevent_bootstrap.cpp:209-242 | A removal takes away exactly that volume if its node goes, and none otherwise. |
| UeventBootstraps.UeventBootstrap.ContainsPartition | services/disk_manager/src/disk/uevent_bootstrap.cpp:939-943 | True exactly when a record with the same three fields is in the list. |
| UeventBootstraps.UeventBootstrap.ComputePartitionDiff | services/disk_manager/src/disk/uevent_bootstrap.cpp:946-970 | Added and removed records in order, and the snapshot replaced. |
| UeventBootstraps.UeventBootstrap.EvaluateVolumeMetadataAbnormal | services/disk_manager/src/disk/uevent_bootstrap.cpp:523-543 | Says abnormal exactly for unreadable, empty or unknown metadata of a detectable type outside the user-data disk, and then makes exactly one marking call, else none. |
| UeventBootstraps.UeventBootstrap.MountDiscoveredVolume | services/disk_manager/src/disk/uevent_bootstrap.cpp:546-568 | Without metadata no call; otherwise exactly one mount, followed by exactly one marking call if it failed for a detectable type outside the user-data disk. |
| UeventBootstraps.UeventBootstrap.FormatDiscoveredVolume | services/disk_manager/src/disk/uevent_bootstrap.cpp:664-671 | While the disk is being partitioned: exactly one format to f2fs. |
| UeventBootstraps.UeventBootstrap.CreateAndSetupVolume | services/disk_manager/src/disk/uevent_bootstrap.cpp:462-494 | Creates the volume exactly when the node was made and the disk is known, and never overwrites one. |
| UeventBootstraps.UeventBootstrap.DiscoverSinglePartitionVolume | services/disk_manager/src/disk/uevent_bootstrap.cpp:644-676 | The calls made, exactly: none for a MOUNTED volume, a node that cannot be made or an unknown disk; else the creation, the refresh if and only if the metadata is read with a valid UUID, and then the format while partitioning, else the marking if it looks abnormal, else the mount. The partition owns its volume, and no MOUNTED volume is given another UUID. |
| UeventBootstraps.UeventBootstrap.DiscoverWholeDiskVolume | services/disk_manager/src/disk/uevent_bootstrap.cpp:678-729 | The calls made, exactly: none if the disk cannot be read and is not being partitioned, or the node cannot be made; else the creation, and then the format, or the refresh and the marking or mount. The disk owns its volume; the calls are ones the mount-table theorems cover if and only if the refresh, where there is one, gives no MOUNTED volume another UUID. |
| UeventBootstraps.UeventBootstrap.DestroyRemoved | services/disk_manager/src/disk/uevent_bootstrap.cpp:1080-1085 | Each removed partition loses exactly its volume. |
| UeventBootstraps.UeventBootstrap.DiscoverAdded | services/disk_manager/src/disk/uevent_bootstrap.cpp:1087-1090 | Each listed partition gets its volume; with good answers each is MOUNTED at the end of the loop, or formatted as f2fs while the disk is being partitioned. |
| DiscoveryCalls.PartitionIsDone | services/disk_manager/src/disk/uevent_bootstrap.cpp:644-676 | With the node made, known metadata, good mount answers and fewer than 9999 volumes, the calls for a partition end with its volume MOUNTED, or while partitioning with it UNMOUNTED and f2fs, and touch no other volume. |
| DiscoveryCalls.WholeDiskIsDone | services/disk_manager/src/disk/uevent_bootstrap.cpp:678-729 | The same for the volume of a whole disk, which stays MOUNTED if it was. |
| DiscoveryCalls.NewPartitionState | services/disk_manager/src/disk/uevent_bootstrap.cpp:644-676 | For any answers, the state a new partition of a registered disk ends in outside partitioning: DAMAGED for unreadable, empty or unknown metadata of a type that can be abnormal, MOUNTED exactly if MountExactly says so, REPAIR_FINISH_FAIL for a refused check, DAMAGED for any other failed mount of such a type, else UNMOUNTED; the user-data disk is never marked and no other volume is touched. |
| UeventBootstraps.UeventBootstrap.DiscoverUnpartitioned | services/disk_manager/src/disk/uevent_bootstrap.cpp:1092-1094 | A disk that is new or has lost its partitions has its one volume MOUNTED, or formatted, if the answers are good. |
| UeventBootstraps.UeventBootstrap.DestroyALLVolume | services/disk_manager/src/disk/uevent_bootstrap.cpp:209-242 | Exactly the disk's volumes go. |
| UeventBootstraps.UeventBootstrap.UpsertDisk | services/disk_manager/src/disk/uevent_bootstrap.cpp:368-371 | The disk is registered when it is new. |
| UeventBootstraps.UeventBootstrap.DiscoverRegistered | services/disk_manager/src/disk/uevent_bootstrap.cpp:1067-1095 | A data disk being partitioned gets a volume for every partition, without comparison or snapshot; any other disk is brought in step. |
| UeventBootstraps.UeventBootstrap.DiscoverPartitionsAndVolumes | services/disk_manager/src/disk/uevent_bootstrap.cpp:1027-1097 | Refines the discovery step over the real registry, by a run of registry calls to which the run theorems apply. |
| UeventBootstraps.UeventBootstrap.HandleDiskAdd | services/disk_manager/src/disk/uevent_bootstrap.cpp:1099-1106 | The same for an add event; and with good answers every partition not seen before is MOUNTED afterwards, or formatted while the disk is being partitioned, and so is the volume of an unpartitioned new disk. |
| UeventBootstraps.UeventBootstrap.HandleDiskChange | services/disk_manager/src/disk/uevent_bootstrap.cpp:1108-1122 | The same for a change event, except that a known data disk being partitioned is left as it is. |
| UeventBootstraps.UeventBootstrap.HandleDiskRemove | services/disk_manager/src/disk/uevent_bootstrap.cpp:1012-1025 | Volumes, disk and snapshot go together, by an allowed run of registry calls. |
| Unload.RunKeeps | services/disk_manager/src/ipc/disk_manager_provider.cpp:188-229 | Over every interleaving of uevents, callbacks and ticks: one mutex holder, exact pending count, flag equal to the last attempt's success except while an attempt is under way. |
| Unload.PendingIsExact | services/disk_manager/src/ipc/disk_manager_provider.cpp:188-196 | The pending counter equals the number of threads between Begin and End. |
| Unload.UnloadOnlyWhenIdle | services/disk_manager/src/ipc/disk_manager_provider.cpp:198-229 | Whenever an unload call is out, no uevent-created disk or volume exists and no uevent is at work. |
| Unload.TickCallsExactly | services/disk_manager/src/ipc/disk_manager_provider.cpp:198-222 | In every state any run reaches with a tick holding the mutex, and whatever other threads do between its steps, it goes on to call the unload if and only if the monitor was not stopped when it looked at that, no disk or volume of either kind existed when it looked at those, and no thread was between Begin and End when it looked at the counter. |
| Unload.PendingHoldsBack | services/disk_manager/src/ipc/disk_manager_provider.cpp:209-213 | A callback or uevent between Begin and End keeps every tick that has not yet looked at the counter from calling the unload, however the threads are interleaved. |
| Unload.NoBodyAfterSuccess | services/disk_manager/src/ipc/disk_manager_provider.cpp:579-615 | While the last attempt stands as a success, no uevent is at work. |
| Unload.LockedBodyExactly | services/disk_manager/src/ipc/disk_manager_provider.cpp:579-615 | In every state any run reaches with a uevent holding the mutex before its second look at the flag, and whatever other threads do between its next steps, it enters its body, being accepted, if and only if the last unload attempt did not succeed. |
| Unload.BodyRunsExactly | services/disk_manager/src/ipc/disk_manager_provider.cpp:579-615 | With the mutex free and nothing else running, an arriving accepted uevent runs its body if and only if the last unload attempt did not succeed. |
| Unload.FailedRetryReopens | services/disk_manager/src/ipc/disk_manager_provider.cpp:214-228 | From every idle state after a success, a failing further attempt lets the next uevent run its body. |
| Unload.BodyAfterSuccessIsReachable | services/disk_manager/src/ipc/disk_manager_provider.cpp:198-229 | A run from the start in which an unload succeeds and a uevent body runs afterwards. |
| BusyFlag.BusyExactly | services/disk_manager/src/ipc/disk_manager_provider.cpp:363-402 | Over every interleaving the flag is up exactly when one caller is between its winning exchange and its release, and never are there two. |
| BusyFlag.OperationsNeverOverlap | services/disk_manager/src/ipc/disk_manager_provider.cpp:538-577 | Two data-disk operations never overlap, whether Format or Partition. |
| BusyFlag.OnlyWinnerReleases | services/disk_manager/src/ipc/disk_manager_provider.cpp:378-400 | A step lowers the flag if and only if it is the winner leaving; a refused caller never does. |
| BusyFlag.EveryCallerFinishes | services/disk_manager/src/ipc/disk_manager_provider.cpp:363-402 | However the others interleave and however authorisation and operation end, a caller that keeps getting steps finishes, outside the flag. |
| Sectors.ConvertExactly | services/disk_manager/src/disk/disk_manager.cpp:171-191 | Exactly 1..INT32_MAX-1 can be read, each from its own decimal form. |
| Sectors.DefinedExactly | services/disk_manager/src/disk/disk_manager.cpp:2429-2447 | On a parsed table the check overflows or divides by zero on no input if and only if the table has no usable aligned sector or last usable sector times sector size is below 2^63. |
| Sectors.SmallDiskIsDefined | services/disk_manager/src/disk/disk_manager.cpp:2429-2447 | In particular when the usable area ends below 2^63 bytes. |
| Sectors.AcceptedExactly | services/disk_manager/src/disk/disk_manager.cpp:2429-2468 | Accepted if and only if alignment <= start <= end <= last usable, size at least the filesystem's minimum, and start a multiple of alignment / gcd(alignment, sector size). |
| Sectors.AlignmentIsExact | services/disk_manager/src/disk/disk_manager.cpp:2436-2439 | The alignment test means whole aligned sectors if and only if alignment and sector size are coprime. |
| Sectors.MisalignedAccepted | services/disk_manager/src/disk/disk_manager.cpp:2436-2439 | With 512-byte sectors and 2048-sector alignment, start sector 2052 is accepted. |
| Divisors.DividesProduct | services/disk_manager/src/disk/disk_manager.cpp:2436-2439 | a divides k*b exactly when a / gcd(a, b) divides k. |
| Parcels.PartitionRoundTrip | interfaces/innerkits/src/partition_types.cpp:101-145 | A partition comes back whole if and only if both strings fit in 4096, and the cursor stops right after it. |
| Parcels.TableRoundTrip | interfaces/innerkits/src/partition_types.cpp:234-306 | A table with its partitions comes back if and only if its strings, its list of at most 256 and its partitions fit; the last usable sector comes back as 0; the rest of the parcel is unread. |
| Parcels.DiskRoundTrip | interfaces/innerkits/src/disk.cpp:298-386 | A disk comes back if and only if its strings and at most 256 volume ids fit; local fields come back at their defaults. |
| Parcels.CoreRoundTrip | interfaces/innerkits/src/volume_core.cpp:95-186 | A volume core comes back if and only if its four strings fit. |
| Parcels.VolumeRoundTrip | interfaces/innerkits/src/volume_external.cpp:195-271 | A volume comes back, but for the error flag and the local fields, if and only if its core's strings fit. |
| Parcels.MarshalPartition | interfaces/innerkits/src/partition_types.cpp:101-122 | Appends exactly the partition's tokens, or reports that there was no room. |
| Parcels.MarshalTable | interfaces/innerkits/src/partition_types.cpp:234-267 | Appends exactly the table's tokens; refuses more than 256 partitions. |
| Parcels.UnmarshalPartition | interfaces/innerkits/src/partition_types.cpp:124-145 | Reads what the pure reader reads, moving only the cursor. |
| Parcels.UnmarshalTable | interfaces/innerkits/src/partition_types.cpp:269-306 | The same for a table, partition by partition. |
| Parcels.MarshalDisk | interfaces/innerkits/src/disk.cpp:298-340 | Appends exactly the disk's tokens, with no limit on the list. |
| Parcels.UnmarshalDisk | interfaces/innerkits/src/disk.cpp:342-386 | Reads what the pure reader reads. |
| Parcels.UnmarshalCore | interfaces/innerkits/src/volume_core.cpp:156-186 | Reads what the pure reader reads. |
| Parcels.MarshalVolume | interfaces/innerkits/src/volume_external.cpp:220-271 | Appends exactly the core's and the volume's tokens. |
| Parcels.UnmarshalVolume | interfaces/innerkits/src/volume_external.cpp:195-218 | Reads what the pure reader reads. |

## Left out

- Language bindings under interfaces/kits, permission and caller checks, radar, audit and log output: no state to reason about.
- The storage daemon, its adapter and proxies, the enterprise-management, encryption and USB FUSE policy libraries: only their answers appear, as arbitrary values.
- JSON text, regular expressions and parcel bytes: items, decimal strings and typed tokens stand for them; that the JSON library returns what it wrote is taken as the meaning of an intact file.
- A read that stops part-way after the file was opened: what the stream library then returns is not modelled.
- File reads during mount pipeline calls: `DiskManager` takes the slot files to be readable. A store initialised at service start reads nothing later (`SlotCalls.StartAgain`); for one that was not, `StoreModel` and `VoldataStore` say what a failed read does.
- Power loss below the level of rename: a renamed file is taken to hold what was written to its temporary.
- Crypt volumes, media-transfer volumes and optical burn, erase and eject: they bypass the registry rules. In `Unload`, media-transfer callbacks appear only as threads that hold the pending counter and change other resources.
- Concurrency of registry calls: they are serialised. A failing mount that overlaps another call can write back a stale record.
- Partition beyond its guarded purge and the discovery it triggers: the daemon call in between, and waiting for the partition event. The purge leaves the snapshot, and a data disk being partitioned is discovered without one, so the discovery theorems are stated for runs of uevents outside partitioning.
- Sysfs walking, configuration matching, disk classification, the MBR type table and the choice of device-mapper device numbers: they enter as the disk kind, the `supported` predicate and the naming function.
- Fields that no property is about: descriptions, flags, free size, the unmount result, mount options.
- Formatting one partition of a disk has its transition in `Volumes.FormatPartition` and in the run theorems, but no step-by-step method.
- The 32-bit width of the pending counter and of the sequence number of a UUID suffix: both are unbounded here; the proofs bound them by the number of threads and of volumes.
- The cast of a partition number to a signed 32-bit integer: both sides of each comparison are cast alike, so numbers are natural here.
- `PartitionParams` and `FormatParams` parcels, and the registry's query calls: they would only add easy members.
