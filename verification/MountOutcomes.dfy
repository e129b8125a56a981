/**
 * What mounting, unmounting and repairing achieve, said over the registry before, the registry after
 * and the daemon's replies: when a call succeeds, and what then holds of the record, the kernel's
 * mounts, the FUSE notifications, the slots and the log.
 */
module MountOutcomes {
  import opened Text
  import opened SlotMap
  import opened Volumes
  import opened VolumeInvariants
  import opened MountTable
  import opened VolumeRuns
  import opened MountPaths
  import Dedup

  // ---------- unmounting ----------

  /** A data disk is asked about first: something must name its mount, and it must not be in use. */
  predicate MayUnmount(w: World, v: Volume, r: UnmountReplies) {
    IsInternalDataDisk(w.disks, v.diskId) ==>
      (v.path != "" || IsUuidValid(v.uuid)) && r.query == 0 && !r.inUse
  }

  /** Every unmount call the volume needs succeeds. */
  predicate ComesDown(v: Volume, r: UnmountReplies) {
    v.path != "" ==>
      && r.data == 0
      && (IsFusePath(v.path) ==> (IsUuidValid(v.uuid) ==> r.fuse == 0) && r.notify == 0)
  }

  /** The mounts without those of a volume: the one at its path, and under FUSE the one at its external path. */
  function MountsWithout(mounts: multiset<string>, v: Volume): multiset<string> {
    if v.path == "" then mounts
    else if IsFusePath(v.path) && IsUuidValid(v.uuid) then mounts - multiset{v.path} - multiset{ExternalPath(v.uuid)}
    else mounts - multiset{v.path}
  }

  function SideWithout(side: Side, id: string, v: Volume): Side {
    Side(MountsWithout(side.mounts, v), if v.path != "" && IsFusePath(v.path) then side.fuse - {id} else side.fuse,
         side.slots)
  }

  /** The volume is down: no path, UNMOUNTED, its mounts gone, and nothing else changed. */
  predicate IsDown(w: World, e: World, id: string)
    requires id in w.volumes && id in w.log
  {
    && e.volumes == w.volumes[id := w.volumes[id].(path := "", state := Unmounted)]
    && e.side == SideWithout(w.side, id, w.volumes[id])
    && e.log == w.log[id := w.log[id] + [Eject(false), UnmountedEvent]]
    && e.disks == w.disks
  }

  lemma PointsExactly(side: Side, id: string, v: Volume, r: UnmountReplies)
    ensures var (s, err) := UnmountPoints(side, id, v, r);
            && (err == E_OK <==> ComesDown(v, r))
            && (err == E_OK ==> s == SideWithout(side, id, v))
            && (r.data != 0 ==> s == side)
  {
    hide IsUuidValid, IsFusePath, ExternalPath;
  }

  lemma MayUnmountExactly(w: World, v: Volume, r: UnmountReplies)
    requires WellFormed(w.side.slots)
    ensures UnmountAllowed(w, v, r) == E_OK <==> MayUnmount(w, v, r)
  {
    hide IsUuidValid, SlotPath, Lower;
    assert ExternalPath(v.uuid) != "" by { RootChars(v.uuid); }
    if v.uuid in w.side.slots {
      SlotPathNotEmpty(w.side.slots, v.uuid);
    }
  }

  /**
   * The path the daemon is asked about is the one a data disk's volume is mounted at, or, while it has
   * none, the one its next mount would land on, as long as that needs no new slot.
   */
  lemma AskedAboutItsMount(w: World, v: Volume, r: MountReplies)
    requires IsInternalDataDisk(w.disks, v.diskId) && IsUuidValid(v.uuid)
    requires v.path == "" && UsesVoldata(w.disks, v.diskId, v.fsType) ==> v.uuid in w.side.slots
    ensures var path := InUseQueryPath(w.side.slots, v);
            && (v.path != "" ==> path == v.path)
            && (v.path == "" ==> LandsAt(w, w.side.slots, v.diskId, v.uuid, v.fsType, r, path))
  {
    hide IsUuidValid, Lower;
  }

  /** Type names are compared without regard to the case of ASCII letters. */
  lemma AnyCaseOfF2fs(name: string)
    ensures Lower(name) == "f2fs"
            <==> |name| == 4 && name[0] in {'f', 'F'} && name[1] == '2' && name[2] in {'f', 'F'}
                 && name[3] in {'s', 'S'}
  {
    hide Lower, LowerChar;
    LowerAt(name);
    LowerLetters();
    if |name| == 4 {
      assert Lower(name) == [LowerChar(name[0]), LowerChar(name[1]), LowerChar(name[2]), LowerChar(name[3])];
    }
  }

  lemma LowerLetters()
    ensures forall c {:trigger LowerChar(c)} ::
              && (LowerChar(c) == 'f' <==> c in {'f', 'F'})
              && (LowerChar(c) == 's' <==> c in {'s', 'S'})
              && (LowerChar(c) == '2' <==> c == '2')
  {
  }

  lemma {:induction false} LowerAt(s: string)
    ensures |Lower(s)| == |s| && forall i :: 0 <= i < |s| ==> Lower(s)[i] == LowerChar(s[i])
  {
    hide LowerChar;
    if s != "" {
      LowerAt(s[1..]);
    }
  }

  /**
   * A forced unmount succeeds exactly when the data disk may be unmounted and every unmount call it
   * needs succeeds; then the kernel has lost exactly the volume's mounts. Otherwise the record is as
   * before and the log has a failed EJECT.
   */
  lemma ForceUnmountExactly(w: World, id: string, r: UnmountReplies)
    requires Core(w) && id in w.volumes
    ensures Logged(w)
    ensures var (e, err) := ForceUnmount(w, id, r); var v := w.volumes[id];
            && e == Do(w, ForceUnmountCall(id, r))
            && (err == E_OK <==> MayUnmount(w, v, r) && ComesDown(v, r))
            && (err == E_OK ==> IsDown(w, e, id))
            && (err != E_OK ==> e == w.(side := e.side, log := w.log[id := w.log[id] + [Eject(false), Eject(true)]]))
            && (err != E_OK && (!MayUnmount(w, v, r) || r.data != 0) ==> e.side == w.side)
  {
    hide IsUuidValid, WellFormed, LogOk, Dedup.Distinct, AllTidy, UnmountPoints, UnmountAllowed, MayUnmount, ComesDown,
      SideWithout;
    CoreLogged(w);
    PointsExactly(w.side, id, w.volumes[id], r);
    MayUnmountExactly(w, w.volumes[id], r);
    assert w.volumes[id := w.volumes[id]] == w.volumes;
  }

  /** A plain unmount does the same for a MOUNTED volume, and refuses any other without touching it. */
  lemma UnmountExactly(w: World, id: string, r: UnmountReplies)
    requires Core(w) && id in w.volumes
    ensures Logged(w)
    ensures var (e, err) := Unmount(w, id, r); var v := w.volumes[id];
            && e == Do(w, UnmountCall(id, r))
            && (err == E_OK <==> v.state == Mounted && MayUnmount(w, v, r) && ComesDown(v, r))
            && (err == E_OK ==> IsDown(w, e, id))
            && (v.state != Mounted ==> e == w && err == E_VOL_UMOUNT_ERR)
  {
    hide IsUuidValid, WellFormed, LogOk, Dedup.Distinct, DoUnmount, MayUnmount, ComesDown, IsDown;
    CoreLogged(w);
    ForceUnmountExactly(w, id, r);
    assert Tidy(w.volumes[id]);
  }

  // ---------- mounting ----------

  /** The service lets the mount begin: it is on, and the volume is in a state to mount from. */
  predicate MayMount(w: World, id: string, r: MountReplies) {
    && !r.disabled && !r.edmIntercepts && id in w.volumes
    && w.volumes[id].state in {Unmounted, Decrypting, FormatFinishFail}
  }

  /** The volume has a valid UUID, or none and one can be read from its metadata. */
  predicate HasUuid(v: Volume, r: MountReplies) {
    if v.uuid != "" then IsUuidValid(v.uuid) else r.meta == 0 && IsUuidValid(r.metaUuid)
  }

  /** The UUID it is mounted with: its own, or the one read, made distinct from every other volume's. */
  ghost function UuidFor(w: World, id: string, v: Volume, r: MountReplies): string {
    if v.uuid != "" then v.uuid else Dedup.Resolve(Uuids(w.volumes), id, r.metaUuid)
  }

  function TypeFor(v: Volume, r: MountReplies): string {
    if v.uuid != "" then v.fsType else FsTypeOf(r.metaType)
  }

  predicate PassesCheck(r: MountReplies) {
    r.check == 0 || (r.check == E_VOL_NEED_FIX && r.repair == 0)
  }

  /** FUSE is for volumes that are neither on an internal data disk nor on a DVR disk. */
  predicate ThroughFuse(disks: map<string, DiskKind>, diskId: string, r: MountReplies) {
    r.fuseOn && !(diskId in disks && disks[diskId] in {DataSsd, DataHdd, DvrUsb})
  }

  predicate FuseComesUp(uuid: string, r: MountReplies) {
    r.fuseStillOn ==> IsUuidValid(uuid) && r.fuseMount == 0 && r.fuseNotify == 0
  }

  /** The store answers, and has a slot for the UUID or saves a new one. */
  predicate SlotComes(slots: Slots, uuid: string, r: MountReplies) {
    r.storeReady && IsUuidValid(uuid) && (uuid in slots || r.slotSaved)
  }

  /** What must succeed once the UUID is had. */
  predicate ComesUp(w: World, slots: Slots, diskId: string, uuid: string, fsType: string, r: MountReplies) {
    && (UsesVoldata(w.disks, diskId, fsType) ==> PassesCheck(r) && SlotComes(slots, uuid, r))
    && (ThroughFuse(w.disks, diskId, r) ==> FuseComesUp(uuid, r))
    && r.mount == 0
  }

  /**
   * The root a mount lands on: f2fs on an internal data disk the slot of its UUID, a DVR disk the DVR
   * root, a volume that goes through FUSE the FUSE root, and every other, such as another type on a
   * data disk, the external root.
   */
  predicate LandsAt(w: World, slots: Slots, diskId: string, uuid: string, fsType: string, r: MountReplies,
                    path: string)
  {
    if UsesVoldata(w.disks, diskId, fsType) then uuid in slots && path == slots[uuid].mountPath
    else if diskId in w.disks && w.disks[diskId] == DvrUsb then path == DvrPath(uuid)
    else if ThroughFuse(w.disks, diskId, r) then path == FusePath(uuid)
    else path == ExternalPath(uuid)
  }

  /** The mounts and notifications a mount at `path` adds. */
  function SideWith(side: Side, id: string, uuid: string, fuse: bool, path: string, slots: Slots): Side {
    Side(if fuse then side.mounts + multiset{ExternalPath(uuid)} + multiset{path} else side.mounts + multiset{path},
         if fuse then side.fuse + {id} else side.fuse, slots)
  }

  /** Only a volume on slots takes one, and one that has a slot keeps the table as it is. */
  ghost predicate SlotTaken(slots: Slots, after: Slots, uuid: string, voldata: bool) {
    if voldata && uuid !in slots then after == Allocate(slots, uuid) else after == slots
  }

  lemma PolicyExactly(disks: map<string, DiskKind>, diskId: string, fsType: string, r: MountReplies)
    ensures var p := PolicyFor(disks, diskId, fsType, r.fuseOn);
            && (p.voldata <==> UsesVoldata(disks, diskId, fsType))
            && (p.dvr <==> diskId in disks && disks[diskId] == DvrUsb)
            && (p.fuse <==> ThroughFuse(disks, diskId, r))
            && !(p.voldata && p.dvr) && !(p.fuse && (p.voldata || p.dvr))
  {
    hide Lower;
  }

  lemma PathExactly(w: World, side: Side, diskId: string, uuid: string, fsType: string, r: MountReplies)
    requires WellFormed(side.slots)
    ensures var p := PolicyFor(w.disks, diskId, fsType, r.fuseOn);
            var (s, path, created) := DataPath(side, uuid, p, r);
            && s == side.(slots := s.slots)
            && (path == "" <==> p.voldata && !SlotComes(side.slots, uuid, r))
            && (path != "" ==> LandsAt(w, s.slots, diskId, uuid, fsType, r, path)
                               && SlotTaken(side.slots, s.slots, uuid, p.voldata))
  {
    hide IsUuidValid, Allocate, WellFormed, Lower, UsesVoldata, PolicyFor;
    PolicyExactly(w.disks, diskId, fsType, r);
    RootChars(uuid);
    AllocatedPathNotEmpty(side.slots, uuid);
    if uuid in side.slots {
      SlotPathNotEmpty(side.slots, uuid);
    }
  }

  /** Mounting the filesystem, once the UUID is had and the check is passed. */
  lemma FilesystemExactly(w: World, side: Side, id: string, v: Volume, r: MountReplies)
    requires WellFormed(side.slots)
    ensures var p := PolicyFor(w.disks, v.diskId, v.fsType, r.fuseOn);
            var m := MountFilesystem(side, true, id, v, p, r);
            var voldata := UsesVoldata(w.disks, v.diskId, v.fsType);
            var fused := ThroughFuse(w.disks, v.diskId, r);
            && (m.err == E_OK <==> (voldata ==> SlotComes(side.slots, v.uuid, r))
                                   && (fused ==> FuseComesUp(v.uuid, r)) && r.mount == 0)
            && m.events == (if m.err == E_OK then [MountedEvent] else [])
            && (m.err == E_OK ==>
                  && m.vol == v.(path := m.vol.path, state := Mounted)
                  && LandsAt(w, m.side.slots, v.diskId, v.uuid, v.fsType, r, m.vol.path)
                  && SlotTaken(side.slots, m.side.slots, v.uuid, voldata)
                  && m.side == SideWith(side, id, v.uuid, fused && r.fuseStillOn, m.vol.path, m.side.slots))
            && (m.err != E_OK ==> m.vol == v.(state := m.vol.state))
  {
    hide IsUuidValid, WellFormed, DataPath, UsesVoldata, PolicyFor, UndoFuse, UndoSlot, SlotTaken, LandsAt,
      ExternalPath, ThroughFuse, SlotComes;
    PolicyExactly(w.disks, v.diskId, v.fsType, r);
    PathExactly(w, side, v.diskId, v.uuid, v.fsType, r);
    var s := AddMount(side, ExternalPath(v.uuid)).(fuse := side.fuse + {id});
    PathExactly(w, s, v.diskId, v.uuid, v.fsType, r);
  }

  /** The check of a data disk is made and refused. */
  predicate Refused(w: World, v: Volume, r: MountReplies) {
    HasUuid(v, r) && UsesVoldata(w.disks, v.diskId, TypeFor(v, r)) && !PassesCheck(r)
  }

  /** A volume with this record, and the slots as they are, can be mounted. */
  ghost predicate Mounts(w: World, slots: Slots, id: string, v: Volume, r: MountReplies) {
    HasUuid(v, r) && ComesUp(w, slots, v.diskId, UuidFor(w, id, v, r), TypeFor(v, r), r)
  }

  /** What the mount of an f2fs volume on a data disk reports of its check. */
  function CheckEvents(voldata: bool, r: MountReplies): seq<Event> {
    if !voldata then []
    else [CheckingEvent]
         + (if r.check == E_VOL_NEED_FIX then [RepairStarted] else [])
         + [if PassesCheck(r) then RepairSucceeded else RepairFailed]
  }

  lemma CheckExactly(r: MountReplies)
    ensures var (state, events, err) := CheckAndRepair(r);
            && (err == E_OK <==> PassesCheck(r))
            && state == (if PassesCheck(r) then Unmounted else RepairFinishFail)
            && (err != E_OK ==> err == if r.check == E_VOL_NEED_FIX then r.repair else r.check)
            && events == CheckEvents(true, r)
  {
  }

  /** The record a mounted volume ends with. */
  ghost predicate IsUp(w: World, side: Side, id: string, v: Volume, r: MountReplies, side': Side, v': Volume) {
    var uuid, fsType := UuidFor(w, id, v, r), TypeFor(v, r);
    && v' == v.(uuid := uuid, fsType := fsType, state := Mounted, path := v'.path)
    && LandsAt(w, side'.slots, v.diskId, uuid, fsType, r, v'.path)
    && SlotTaken(side.slots, side'.slots, uuid, UsesVoldata(w.disks, v.diskId, fsType))
    && side' == SideWith(side, id, uuid, ThroughFuse(w.disks, v.diskId, r) && r.fuseStillOn, v'.path, side'.slots)
  }

  lemma UuidExactly(w: World, id: string, v: Volume, r: MountReplies)
    ensures var (u, err) := EnsureUuid(w.volumes, id, v, r);
            && (err == E_OK <==> HasUuid(v, r))
            && (err == E_OK ==> u == v.(uuid := UuidFor(w, id, v, r), fsType := TypeFor(v, r)))
            && (err != E_OK ==> u == v)
  {
    hide IsUuidValid, Dedup.Resolve, FsTypeOf;
  }

  /**
   * The pipeline succeeds exactly when the volume has or can read a UUID, passes the check a data
   * disk makes, gets its FUSE mount if it goes through FUSE, gets a slot if it needs one, and is
   * mounted by the daemon. A refused check ends in REPAIR_FINISH_FAIL with nothing else changed.
   */
  lemma EntryExactly(w: World, side: Side, id: string, v: Volume, r: MountReplies)
    requires WellFormed(side.slots) && id in w.volumes && v.state != Mounted
    ensures var m := MountEntry(w, side, id, v, r);
            var checks := HasUuid(v, r) && UsesVoldata(w.disks, v.diskId, TypeFor(v, r));
            && (m.err == E_OK <==> Mounts(w, side.slots, id, v, r))
            && (m.err == E_OK <==> m.vol.state == Mounted)
            && (m.err == E_OK ==> IsUp(w, side, id, v, r, m.side, m.vol))
            && m.events == CheckEvents(checks, r) + (if m.err == E_OK then [MountedEvent] else [])
            && (m.err != E_OK ==>
                  m.vol == (if HasUuid(v, r) then v.(uuid := UuidFor(w, id, v, r), fsType := TypeFor(v, r)) else v)
                           .(state := if Refused(w, v, r) then RepairFinishFail else Unmounted))
            && (Refused(w, v, r) ==>
                  m.err != E_OK && m.side == side
                  && m.err == if r.check == E_VOL_NEED_FIX then r.repair else r.check)
  {
    hide IsUuidValid, WellFormed, EnsureUuid, UsesVoldata, PolicyFor, MountFilesystem, SlotTaken, LandsAt, ThroughFuse,
      SlotComes, PassesCheck, CheckAndRepair, CheckEvents, FuseComesUp, SideWith, UuidFor, TypeFor, HasUuid;
    UuidExactly(w, id, v, r);
    CheckExactly(r);
    NoCheckEvents(r);
    var (u, err) := EnsureUuid(w.volumes, id, v, r);
    if err == E_OK {
      PolicyExactly(w.disks, u.diskId, u.fsType, r);
      var voldata := UsesVoldata(w.disks, u.diskId, u.fsType);
      var state := if voldata then CheckAndRepair(r).0 else u.state;
      FilesystemExactly(w, side, id, u.(state := state), r);
      assert CheckEvents(voldata, r) + [] == CheckEvents(voldata, r);
    }
  }

  lemma NoCheckEvents(r: MountReplies)
    ensures CheckEvents(false, r) == []
  {
  }

  /** Other volumes, their logs and the disks are as they were. */
  predicate Elsewhere(w: World, e: World, id: string) {
    && id in e.volumes && e.volumes == w.volumes[id := e.volumes[id]]
    && id in e.log && e.log == w.log[id := e.log[id]]
    && e.disks == w.disks
  }

  /**
   * `Mount` turns a volume MOUNTED exactly when it may begin and the pipeline succeeds, and then says
   * where it lands. A refused check or repair is returned as it came, leaves REPAIR_FINISH_FAIL and
   * everything outside the registry unchanged, and is the last thing reported.
   */
  lemma MountExactly(w: World, id: string, r: MountReplies)
    requires Logged(w) && WellFormed(w.side.slots) && id in w.volumes && w.volumes[id].state != Mounted
    ensures var (e, err) := Mount(w, id, r); var v := w.volumes[id];
            && e == Do(w, MountCall(id, r)) && Elsewhere(w, e, id)
            && (e.volumes[id].state == Mounted <==> MayMount(w, id, r) && Mounts(w, w.side.slots, id, v, r))
            && (e.volumes[id].state == Mounted ==> err == E_OK && IsUp(w, w.side, id, v, r, e.side, e.volumes[id]))
            && (e.volumes[id].state == Mounted ==>
                  e.log[id] == w.log[id]
                               + (CheckEvents(UsesVoldata(w.disks, v.diskId, TypeFor(v, r)), r) + [MountedEvent]))
            && (!MayMount(w, id, r) ==> e == w)
            && (MayMount(w, id, r) ==> (err == E_OK <==> e.volumes[id].state == Mounted))
            && (MayMount(w, id, r) && err != E_OK && !Refused(w, v, r) ==> e.volumes[id].state == Unmounted)
            && (r.disabled ==> err != E_OK)
            && (!r.disabled && r.edmIntercepts && v.state == Unmounted ==> err == E_OK)
    ensures var (e, err) := Mount(w, id, r);
            MayMount(w, id, r) && Refused(w, w.volumes[id], r) ==>
              && err == (if r.check == E_VOL_NEED_FIX then r.repair else r.check)
              && e.volumes[id].state == RepairFinishFail && e.side == w.side
              && e.log[id] == w.log[id] + CheckEvents(true, r) && e.log[id][|e.log[id]| - 1] == RepairFailed
  {
    hide WellFormed, MountEntry, Refused, IsUp, ComesUp, HasUuid, UsesVoldata, CheckEvents, TypeFor, UuidFor;
    EntryExactly(w, w.side, id, w.volumes[id], r);
    if MayMount(w, id, r) && Refused(w, w.volumes[id], r) {
      RefusedEvents(w, w.volumes[id], r, w.log[id]);
    }
    assert w.volumes[id := w.volumes[id]] == w.volumes && w.log[id := w.log[id]] == w.log;
  }

  lemma RefusedEvents(w: World, v: Volume, r: MountReplies, log: seq<Event>)
    requires Refused(w, v, r)
    ensures HasUuid(v, r) && UsesVoldata(w.disks, v.diskId, TypeFor(v, r))
    ensures var events := CheckEvents(true, r);
            events + [] == events && events != [] && (log + events)[|log + events| - 1] == RepairFailed
  {
    hide HasUuid, UsesVoldata, TypeFor;
    assert CheckEvents(true, r) + [] == CheckEvents(true, r);
  }

  // ---------- repairing ----------

  /** The record and what is outside once `TryToFix` has taken a MOUNTED volume down. */
  function Ejected(v: Volume): Volume {
    v.(path := "", state := Unmounted)
  }

  /** Before the repair a MOUNTED volume must come down; then repair and check must succeed. */
  predicate Repaired(w: World, v: Volume, r: FixReplies) {
    r.repair == 0 && (UsesVoldata(w.disks, v.diskId, v.fsType) ==> r.check == 0)
  }

  lemma FixAndMountExactly(w: World, id: string, v: Volume, side: Side, before: seq<Event>, r: FixReplies)
    requires Logged(w) && id in w.volumes && WellFormed(side.slots)
    ensures var (e, err) := FixAndMount(w, id, v, side, before, r); var u := v.(state := Unmounted);
            && Elsewhere(w, e, id)
            && (err == E_OK <==> Repaired(w, v, r) && Mounts(w, side.slots, id, u, r.mount))
            && (err == E_OK <==> e.volumes[id].state == Mounted)
            && (err == E_OK ==> IsUp(w, side, id, u, r.mount, e.side, e.volumes[id]))
            && (!Repaired(w, v, r) ==>
                  && e.volumes[id] == v.(state := RepairFinishFail) && e.side == side
                  && err == (if r.repair != 0 then r.repair else r.check)
                  && e.log[id] == w.log[id] + (before + [CheckingEvent, RepairFailed]))
  {
    hide WellFormed, MountEntry, Mounts, Refused, IsUp, UsesVoldata, CheckEvents, HasUuid, TypeFor, UuidFor;
    EntryExactly(w, side, id, v.(state := Unmounted), r.mount);
  }

  /**
   * `TryToFix` ends MOUNTED and reports success exactly when a volume that was MOUNTED comes down, the
   * repair and the check of a data disk succeed, and the volume mounts again. A MOUNTED volume that
   * does not come down stays as it is; a failed repair leaves it down.
   */
  lemma FixExactly(w: World, id: string, r: FixReplies)
    requires Core(w) && id in w.volumes
    ensures Logged(w)
    ensures var (e, err) := TryToFix(w, id, r); var v := w.volumes[id];
            var was := v.state == Mounted;
            var u := if was then Ejected(v) else v.(state := Unmounted);
            var side := if was then SideWithout(w.side, id, v) else w.side;
            && e == Do(w, FixCall(id, r)) && Elsewhere(w, e, id)
            && (err == E_OK <==> (was ==> ComesDown(v, r.unmount)) && Repaired(w, v, r)
                                 && Mounts(w, w.side.slots, id, u, r.mount))
            && (err == E_OK ==> e.volumes[id].state == Mounted && IsUp(w, side, id, u, r.mount, e.side, e.volumes[id]))
            && (err != E_OK && e.volumes[id].state == Mounted ==> e.volumes[id] == v && !ComesDown(v, r.unmount))
            && ((was ==> ComesDown(v, r.unmount)) && !Repaired(w, v, r) ==>
                  e.volumes[id] == u.(state := RepairFinishFail) && e.side == side)
  {
    hide WellFormed, LogOk, Dedup.Distinct, Mounts, IsUp, FixAndMount, UnmountPoints, SideWithout, ComesDown, Repaired;
    CoreLogged(w);
    var v := w.volumes[id];
    assert Tidy(v);
    PointsExactly(w.side, id, v, r.unmount);
    SameSlots(w.side, id, v);
    FixAndMountExactly(w, id, v, w.side, [], r);
    FixAndMountExactly(w, id, Ejected(v), SideWithout(w.side, id, v), [Eject(false)], r);
    SameRepair(w, v, r);
    assert w.volumes[id := v] == w.volumes;
  }

  lemma SameSlots(side: Side, id: string, v: Volume)
    ensures SideWithout(side, id, v).slots == side.slots
  {
  }

  lemma SameRepair(w: World, v: Volume, r: FixReplies)
    ensures Repaired(w, Ejected(v), r) <==> Repaired(w, v, r)
  {
  }
}
