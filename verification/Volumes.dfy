/**
 * The volume registry and the mount pipeline of `DiskManager` for block volumes, call by call.
 * What the storage daemon, the USB FUSE adapter and the slot store answer is an argument of each
 * call, so every statement over all replies is a statement over all failures.
 */
module Volumes {
  import opened Text
  import opened SlotMap
  import Dedup

  // ---------- error codes ----------

  const E_OK := 0
  const DISK_MGR_ERR := -1
  const E_PARAMS_INVALID := 13600002
  const E_NON_EXIST := 13600004
  const E_NOT_SUPPORT := 13600007
  const E_VOL_STATE := 13601701
  const E_VOL_MOUNT_ERR := 13601702
  const E_VOL_UMOUNT_ERR := 13601703
  const E_UMOUNT_BUSY := 13601704
  const E_VOL_NEED_FIX := 13601730

  // ---------- data ----------

  const EXTERNAL_ROOT := "/mnt/data/external/"
  const FUSE_ROOT := "/mnt/data/external_fuse/"
  const DVR_ROOT := "/mnt/data/dvr/"

  function ExternalPath(uuid: string): string { EXTERNAL_ROOT + uuid }

  function FusePath(uuid: string): string { FUSE_ROOT + uuid }

  function DvrPath(uuid: string): string { DVR_ROOT + uuid }

  predicate IsFusePath(path: string) { StartsWith(path, FUSE_ROOT) }

  datatype VolumeState =
    | Unmounted | Checking | Mounted | Ejecting | Damaged | DamagedMounted
    | EncryptedAndLocked | EncryptedAndUnlocked | Decrypting
    | RepairFinishFail | FormatFinishFail | RepairStart | Repairing

  datatype DiskKind = Sd | Usb | Cd | DataSsd | DataHdd | DvrUsb | Unknown

  datatype Volume = Volume(
    diskId: string, partitionNum: nat, state: VolumeState, path: string, uuid: string, fsType: string)

  /** A published event of one volume. `Eject(true)` carries the result "umountFail". */
  datatype Event =
    | MountedEvent | Eject(failed: bool) | UnmountedEvent | Removed | BadRemoval
    | Abnormal | CheckingEvent | RepairStarted | RepairFailed | RepairSucceeded | FormatFailed

  /** What the pipeline changes outside the registry: kernel mounts, FUSE notifications, slots. */
  datatype Side = Side(mounts: multiset<string>, fuse: set<string>, slots: Slots)

  datatype World = World(
    disks: map<string, DiskKind>,
    volumes: map<string, Volume>,
    side: Side,
    log: map<string, seq<Event>>)

  predicate IsInternalDataDisk(disks: map<string, DiskKind>, diskId: string) {
    diskId in disks && disks[diskId] in {DataSsd, DataHdd}
  }

  function Uuids(volumes: map<string, Volume>): map<string, string> {
    map id | id in volumes :: volumes[id].uuid
  }

  function LowerChar(c: char): char {
    if 'A' <= c <= 'Z' then (c as int + 32) as char else c
  }

  function Lower(s: string): string {
    if s == "" then "" else [LowerChar(s[0])] + Lower(s[1..])
  }

  /** The block filesystem types the service knows; anything else reads back as "undefined". */
  function FsTypeOf(name: string): string {
    if name in {"ntfs", "exfat", "vfat", "hmfs", "f2fs", "udf", "iso9660", "ext4"} then name else "undefined"
  }

  // ---------- replies ----------

  datatype MountReplies = MountReplies(
    disabled: bool, edmIntercepts: bool,
    meta: int, metaUuid: string, metaType: string,
    check: int, repair: int,
    fuseOn: bool, fuseStillOn: bool, fuseMount: int, fuseNotify: int,
    undoFuseUnmount: int, procMountsUnreadable: bool, undoFuseNotify: int,
    storeReady: bool, slotSaved: bool, slotUndone: bool,
    mount: int, undoMount: int)

  datatype UnmountReplies = UnmountReplies(query: int, inUse: bool, data: int, fuse: int, notify: int)

  datatype FormatReplies = FormatReplies(format: int, metaUuid: string, storeReady: bool, slotSaved: bool)

  datatype FixReplies = FixReplies(unmount: UnmountReplies, repair: int, check: int, mount: MountReplies)

  datatype DestroyReplies = DestroyReplies(unmount: UnmountReplies, node: int)

  // ---------- mount policy and path ----------

  datatype Policy = Policy(voldata: bool, fuse: bool, dvr: bool)

  predicate UsesVoldata(disks: map<string, DiskKind>, diskId: string, fsType: string) {
    IsInternalDataDisk(disks, diskId) && Lower(fsType) == "f2fs"
  }

  function PolicyFor(disks: map<string, DiskKind>, diskId: string, fsType: string, fuseOn: bool): Policy {
    var voldata := UsesVoldata(disks, diskId, fsType);
    var dvr := diskId in disks && disks[diskId] == DvrUsb;
    var bypass := IsInternalDataDisk(disks, diskId) && Lower(fsType) != "f2fs";
    Policy(voldata, !voldata && !dvr && !bypass && fuseOn, dvr)
  }

  /** `ResolveVoldataMountPath`: the slot of a UUID, taking a new one when it has none. */
  ghost function TakeSlot(slots: Slots, uuid: string, ready: bool, saved: bool): (Slots, string, bool) {
    if !ready then (slots, "", false)
    else if IsUuidValid(uuid) && uuid in slots then (slots, slots[uuid].mountPath, false)
    else if !IsUuidValid(uuid) || !saved then (slots, "", false)
    else
      var m := Allocate(slots, uuid);
      (m, m[uuid].mountPath, true)
  }

  /** The mount path of a volume; a new slot may be taken for it. Empty when none can be had. */
  ghost function DataPath(side: Side, uuid: string, p: Policy, r: MountReplies): (Side, string, bool) {
    if p.voldata then
      var (slots, path, created) := TakeSlot(side.slots, uuid, r.storeReady, r.slotSaved);
      (side.(slots := slots), path, created)
    else if p.dvr then (side, DvrPath(uuid), false)
    else if p.fuse then (side, FusePath(uuid), false)
    else (side, ExternalPath(uuid), false)
  }

  // ---------- daemon calls ----------

  function AddMount(side: Side, path: string): Side {
    side.(mounts := side.mounts + multiset{path})
  }

  function DropMount(side: Side, path: string): Side {
    side.(mounts := side.mounts - multiset{path})
  }

  /** `RollbackFuseMount`. */
  function UndoFuse(side: Side, id: string, uuid: string, r: MountReplies): Side {
    var path := ExternalPath(uuid);
    if !IsUuidValid(uuid) then side
    else if path in side.mounts || r.procMountsUnreadable then
      if r.undoFuseUnmount != 0 then side
      else
        var s := DropMount(side, path);
        if r.undoFuseNotify == 0 then s.(fuse := s.fuse - {id}) else s
    else if r.undoFuseNotify == 0 then side.(fuse := side.fuse - {id})
    else side
  }

  function UndoSlot(side: Side, uuid: string, created: bool, r: MountReplies): Side {
    if created && r.slotUndone then side.(slots := Remove(side.slots, uuid)) else side
  }

  // ---------- mounting ----------

  datatype MountResult = MountResult(side: Side, vol: Volume, events: seq<Event>, err: int)

  /** `MountVolumeFilesystem`; `present` says whether the volume is still registered at the end. */
  ghost function MountFilesystem(side: Side, present: bool, id: string, v: Volume, p: Policy, r: MountReplies)
    : MountResult
  {
    var wantsFuse := p.fuse && r.fuseStillOn;
    var fusePath := ExternalPath(v.uuid);
    if wantsFuse && !IsUuidValid(v.uuid) then MountResult(side, v, [], E_PARAMS_INVALID)
    else if wantsFuse && r.fuseMount != 0 then MountResult(side, v, [], r.fuseMount)
    else if wantsFuse && r.fuseNotify != 0 then
      var mounted := AddMount(side, fusePath);
      MountResult(if r.undoFuseUnmount == 0 then DropMount(mounted, fusePath) else mounted, v, [], r.fuseNotify)
    else
      var s := if wantsFuse then AddMount(side, fusePath).(fuse := side.fuse + {id}) else side;
      MountData(s, present, wantsFuse, id, v, p, r)
  }

  /** The data mount, with the FUSE mount already in place when `fuseMounted`. */
  ghost function MountData(side: Side, present: bool, fuseMounted: bool, id: string, v: Volume, p: Policy,
                           r: MountReplies)
    : MountResult
  {
    var (s, path, created) := DataPath(side, v.uuid, p, r);
    if path == "" then
      MountResult(if fuseMounted then UndoFuse(s, id, v.uuid, r) else s, v.(state := Unmounted), [], DISK_MGR_ERR)
    else FinishMount(s, present, fuseMounted, id, v, path, created, r)
  }

  /** `ExecuteVolumeDataMount`: mount at the path, or undo the slot and the FUSE mount taken for it. */
  function FinishMount(
    side: Side, present: bool, fuseMounted: bool, id: string, v: Volume, path: string, created: bool, r: MountReplies)
    : MountResult
  {
    if r.mount != 0 then
      var t := UndoSlot(side, v.uuid, created, r);
      MountResult(if fuseMounted then UndoFuse(t, id, v.uuid, r) else t, v.(state := Unmounted), [], r.mount)
    else if !present then
      var t := AddMount(side, path);
      var u := UndoSlot(if r.undoMount == 0 then DropMount(t, path) else t, v.uuid, created, r);
      MountResult(if fuseMounted then UndoFuse(u, id, v.uuid, r) else u,
                  v.(path := path, state := Unmounted), [], E_NON_EXIST)
    else
      MountResult(AddMount(side, path), v.(path := path, state := Mounted), [MountedEvent], E_OK)
  }

  /** `EnsureFsUuidReady`: the record with its UUID, and the error. */
  ghost function EnsureUuid(volumes: map<string, Volume>, id: string, v: Volume, r: MountReplies): (Volume, int) {
    if v.uuid != "" then (v, if IsUuidValid(v.uuid) then E_OK else E_PARAMS_INVALID)
    else if r.meta != 0 then (v, r.meta)
    else if !IsUuidValid(r.metaUuid) then (v, E_PARAMS_INVALID)
    else (v.(uuid := Dedup.Resolve(Uuids(volumes), id, r.metaUuid), fsType := FsTypeOf(r.metaType)), E_OK)
  }

  /** The check, and the repair it may ask for, before a volume of a data disk is mounted. */
  function CheckAndRepair(r: MountReplies): (VolumeState, seq<Event>, int) {
    if r.check == E_VOL_NEED_FIX then
      if r.repair != 0 then (RepairFinishFail, [CheckingEvent, RepairStarted, RepairFailed], r.repair)
      else (Unmounted, [CheckingEvent, RepairStarted, RepairSucceeded], E_OK)
    else if r.check != 0 then (RepairFinishFail, [CheckingEvent, RepairFailed], r.check)
    else (Unmounted, [CheckingEvent, RepairSucceeded], E_OK)
  }

  /** `MountVolumeEntry`. */
  ghost function MountEntry(w: World, side: Side, id: string, v: Volume, r: MountReplies): MountResult {
    var (u, err) := EnsureUuid(w.volumes, id, v, r);
    if err != E_OK then MountResult(side, u.(state := Unmounted), [], err)
    else
      var p := PolicyFor(w.disks, u.diskId, u.fsType, r.fuseOn);
      var (state, events, checkErr) := if p.voldata then CheckAndRepair(r) else (u.state, [], E_OK);
      if checkErr != E_OK then MountResult(side, u.(state := state), events, checkErr)
      else
        var m := MountFilesystem(side, id in w.volumes, id, u.(state := state), p, r);
        MountResult(m.side, if m.err == E_OK then m.vol else m.vol.(state := Unmounted), events + m.events, m.err)
  }

  // ---------- the registry ----------

  /** Write back a volume together with what the call did outside the registry. */
  function Put(w: World, id: string, v: Volume, side: Side, events: seq<Event>): World
    requires id in w.log
  {
    w.(volumes := w.volumes[id := v], side := side, log := w.log[id := w.log[id] + events])
  }

  /** Every registered volume has an event log. */
  predicate Logged(w: World) {
    forall id :: id in w.volumes ==> id in w.log
  }

  ghost function Mount(w: World, id: string, r: MountReplies): (World, int)
    requires Logged(w)
  {
    if r.disabled || id !in w.volumes then (w, E_NON_EXIST)
    else if w.volumes[id].state !in {Unmounted, Decrypting, FormatFinishFail} then (w, E_VOL_MOUNT_ERR)
    else if r.edmIntercepts then (w, E_OK)
    else
      var m := MountEntry(w, w.side, id, w.volumes[id], r);
      (Put(w, id, m.vol, m.side, m.events), m.err)
  }

  // ---------- unmounting ----------

  /** `UnmountVolumeMountPoints`. */
  function UnmountPoints(side: Side, id: string, v: Volume, r: UnmountReplies): (Side, int) {
    if v.path != "" && IsFusePath(v.path) then
      if r.data != 0 then (side, r.data)
      else
        var s := DropMount(side, v.path);
        if IsUuidValid(v.uuid) && r.fuse != 0 then (s, r.fuse)
        else
          var t := if IsUuidValid(v.uuid) then DropMount(s, ExternalPath(v.uuid)) else s;
          if r.notify != 0 then (t, r.notify) else (t.(fuse := t.fuse - {id}), E_OK)
    else if v.path != "" then
      if r.data != 0 then (side, r.data) else (DropMount(side, v.path), E_OK)
    else (side, E_OK)
  }

  /** The path the daemon is asked about before a data disk is unmounted. */
  function InUseQueryPath(slots: Slots, v: Volume): string {
    if v.path != "" then v.path
    else if !IsUuidValid(v.uuid) then ""
    else if Lower(v.fsType) == "f2fs" && v.uuid in slots then slots[v.uuid].mountPath
    else ExternalPath(v.uuid)
  }

  function UnmountAllowed(w: World, v: Volume, r: UnmountReplies): int {
    if !IsInternalDataDisk(w.disks, v.diskId) then E_OK
    else if InUseQueryPath(w.side.slots, v) == "" then E_PARAMS_INVALID
    else if r.query != 0 then r.query
    else if r.inUse then E_UMOUNT_BUSY
    else E_OK
  }

  /** `DoUnmountVolume`: either the volume ends UNMOUNTED, or its state is put back. */
  function DoUnmount(w: World, id: string, r: UnmountReplies): (World, int)
    requires Logged(w) && id in w.volumes
  {
    var v := w.volumes[id];
    var refused := UnmountAllowed(w, v, r);
    if refused != E_OK then (Put(w, id, v, w.side, [Eject(false), Eject(true)]), refused)
    else
      var (s, err) := UnmountPoints(w.side, id, v, r);
      if err != E_OK then (Put(w, id, v, s, [Eject(false), Eject(true)]), err)
      else (Put(w, id, v.(path := "", state := Unmounted), s, [Eject(false), UnmountedEvent]), E_OK)
  }

  function Unmount(w: World, id: string, r: UnmountReplies): (World, int)
    requires Logged(w)
  {
    if id !in w.volumes then (w, E_NON_EXIST)
    else if w.volumes[id].state !in {Mounted, DamagedMounted, EncryptedAndLocked, EncryptedAndUnlocked} then
      (w, E_VOL_UMOUNT_ERR)
    else DoUnmount(w, id, r)
  }

  function ForceUnmount(w: World, id: string, r: UnmountReplies): (World, int)
    requires Logged(w)
  {
    if id !in w.volumes then (w, E_NON_EXIST) else DoUnmount(w, id, r)
  }

  // ---------- formatting ----------

  /** `UpdateVoldataMappingAfterFormat`. */
  function SlotsAfterFormat(w: World, diskId: string, prior: string, next: string, fsType: string, r: FormatReplies)
    : Slots
  {
    var slots := w.side.slots;
    var saved := r.storeReady && r.slotSaved;
    if !UsesVoldata(w.disks, diskId, fsType) then
      if IsUuidValid(prior) && saved then Remove(slots, prior) else slots
    else if !IsUuidValid(prior) || !IsUuidValid(next) || prior == next || !saved then slots
    else if prior !in slots || next in slots then slots
    else Replace(slots, prior, next)
  }

  /** `UpdateVolumeAfterFormat`. */
  ghost function AfterFormat(w: World, id: string, fsType: string, r: FormatReplies): (World, int)
    requires Logged(w) && id in w.volumes
  {
    if !IsUuidValid(r.metaUuid) then (w, E_PARAMS_INVALID)
    else
      var v := w.volumes[id];
      var uuid := Dedup.Resolve(Uuids(w.volumes), id, r.metaUuid);
      var slots := SlotsAfterFormat(w, v.diskId, v.uuid, uuid, fsType, r);
      (Put(w, id, v.(uuid := uuid, fsType := FsTypeOf(fsType), state := Unmounted), w.side.(slots := slots), []), E_OK)
  }

  ghost function Format(w: World, id: string, fsType: string, r: FormatReplies): (World, int)
    requires Logged(w)
  {
    if id !in w.volumes then (w, E_NON_EXIST)
    else
      var v := w.volumes[id];
      if v.diskId !in w.disks || w.disks[v.diskId] == Cd then (w, E_NOT_SUPPORT)
      else if v.state !in {Unmounted, FormatFinishFail, Damaged} then (w, E_VOL_STATE)
      else if r.format != 0 then
        (Put(w, id, v.(state := FormatFinishFail), w.side, [FormatFailed]), r.format)
      else AfterFormat(w, id, fsType, r)
  }

  /** `FormatPartition` once the partition's volume is known; a failed refresh is only logged. */
  ghost function FormatPartition(w: World, id: string, fsType: string, r: FormatReplies): World
    requires Logged(w)
  {
    if id !in w.volumes then w
    else
      var v := w.volumes[id];
      if v.diskId !in w.disks || w.disks[v.diskId] !in {Sd, Usb} || v.state != Unmounted
         || fsType !in {"ext4", "exfat", "vfat"} then w
      else if r.format != 0 then Put(w, id, v, w.side, [FormatFailed])
      else AfterFormat(w, id, fsType, r).0
  }

  // ---------- repair ----------

  ghost function TryToFix(w: World, id: string, r: FixReplies): (World, int)
    requires Logged(w)
  {
    if id !in w.volumes then (w, E_NON_EXIST)
    else
      var v := w.volumes[id];
      if v.state in {Mounted, DamagedMounted} then
        var (s, err) := UnmountPoints(w.side, id, v, r.unmount);
        if err != E_OK then (Put(w, id, v, s, [Eject(false)]), err)
        else FixAndMount(w, id, v.(path := "", state := Unmounted), s, [Eject(false)], r)
      else FixAndMount(w, id, v, w.side, [], r)
  }

  /** `RepairAndCheckVolume` followed by `MountVolumeEntry`. */
  ghost function FixAndMount(w: World, id: string, v: Volume, side: Side, before: seq<Event>, r: FixReplies)
    : (World, int)
    requires Logged(w) && id in w.volumes
  {
    var checks := UsesVoldata(w.disks, v.diskId, v.fsType);
    var err := if r.repair != 0 then r.repair else if checks then r.check else E_OK;
    if err != E_OK then
      (Put(w, id, v.(state := RepairFinishFail), side, before + [CheckingEvent, RepairFailed]), err)
    else
      var m := MountEntry(w, side, id, v.(state := Unmounted), r.mount);
      (Put(w, id, m.vol, m.side, before + [CheckingEvent, RepairSucceeded] + m.events), m.err)
  }

  /** `MarkVolumeAbnormal`. */
  function MarkAbnormal(w: World, id: string): (World, int)
    requires Logged(w)
  {
    if id !in w.volumes then (w, E_NON_EXIST)
    else if w.volumes[id].state == Damaged then (w, E_OK)
    else if w.volumes[id].state != Unmounted then (w, E_VOL_STATE)
    else (Put(w, id, w.volumes[id].(state := Damaged), w.side, [Abnormal]), E_OK)
  }

  // ---------- creation, metadata, removal ----------

  /** `OnVolumeCreated`: an existing volume is left as it is. */
  function Create(w: World, id: string, diskId: string, part: nat): World {
    if id in w.volumes then w
    else
      w.(volumes := w.volumes[id := Volume(diskId, part, Unmounted, "", "", "undefined")],
         log := w.log[id := []])
  }

  /** `UpdateVolumeMetadata`. */
  ghost function Refresh(w: World, id: string, uuid: string, fsType: string): World
    requires Logged(w)
  {
    if id !in w.volumes then w
    else
      var v := w.volumes[id].(uuid := Dedup.Resolve(Uuids(w.volumes), id, uuid), fsType := FsTypeOf(fsType));
      Put(w, id, v, w.side, [])
  }

  /** Removal of one volume, by `DestroyALLVolume` or `DestroyVolumeByDiskIdAndPartNum`. */
  function Destroy(w: World, id: string, r: DestroyReplies): World
    requires Logged(w)
  {
    if id !in w.volumes then w
    else
      var safe := w.volumes[id].state == Unmounted;
      var u := if safe then w else ForceUnmount(w, id, r.unmount).0;
      if r.node != 0 then u
      else
        u.(volumes := u.volumes - {id},
           log := u.log[id := u.log[id] + [if safe then Removed else BadRemoval]])
  }

  /** The volumes of a disk and the slots of their UUIDs, as `PurgeVolumesForDisk` drops them. */
  function OnDisk(w: World, diskId: string): set<string> {
    set id | id in w.volumes && w.volumes[id].diskId == diskId
  }

  function PurgedUuids(w: World, diskId: string, unsaved: set<string>): set<string> {
    set id | id in OnDisk(w, diskId) && IsUuidValid(w.volumes[id].uuid) && w.volumes[id].uuid !in unsaved
      :: w.volumes[id].uuid
  }

  /** The purge that starts `Partition`: refused unless every volume of the disk is UNMOUNTED. */
  function Purge(w: World, diskId: string, unsaved: set<string>): World {
    if diskId !in w.disks || w.disks[diskId] == Cd then w
    else if exists id :: id in OnDisk(w, diskId) && w.volumes[id].state != Unmounted then w
    else
      w.(volumes := w.volumes - OnDisk(w, diskId),
         side := w.side.(slots := w.side.slots - PurgedUuids(w, diskId, unsaved)))
  }
}
