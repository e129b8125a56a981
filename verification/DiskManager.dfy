/**
 * `DiskManager` step by step: records copied out of the volume map, changed, written back, states
 * published on the way, and every resource taken given back when a later step fails. Each public
 * call is proved to be the one transition of `Volumes` that its name says. Daemon answers are
 * arguments; the slot store is the real `VoldataUuidStore`.
 */
module DiskManagers {
  import opened Maps
  import opened Text
  import opened SlotMap
  import opened Volumes
  import opened SlotCalls
  import opened RegistrySteps
  import opened VoldataStore
  import opened VolumeRuns
  import StoreModel
  import Dedup

  class DiskManager {
    var diskMap: map<string, DiskKind>
    var volumeMap: map<string, Volume>
    const store: VoldataUuidStore

    // the world outside: kernel mounts, volumes the FUSE daemon was told about, published events
    var mounts: multiset<string>
    var fuse: set<string>
    ghost var log: map<string, seq<Event>>

    ghost function Outside(): Side
      reads this, store
    {
      Side(mounts, fuse, Committed(store.Model()))
    }

    ghost function Now(): World
      reads this, store
    {
      World(diskMap, volumeMap, Outside(), log)
    }

    ghost predicate Valid()
      reads this, store
    {
      store.Valid() && Sound(store.Model()) && Logged(Now())
    }

    constructor (store: VoldataUuidStore)
      requires store.Valid() && store.OwnFiles()
      ensures this.store == store && Valid()
      ensures Now() == World(map[], map[], Side(multiset{}, {}, Committed(store.Model())), map[])
    {
      this.store := store;
      diskMap, volumeMap, mounts, fuse, log := map[], map[], multiset{}, {}, map[];
    }

    method Publish(id: string, e: Event)
      requires id in log
      modifies this`log
      ensures log == Append(old(log), id, [e])
    {
      log := Append(log, id, [e]);
    }

    method SetVolumeStateLocked(id: string, state: VolumeState)
      modifies this`volumeMap
      ensures volumeMap == WithState(old(volumeMap), id, state)
    {
      if id in volumeMap {
        volumeMap := volumeMap[id := volumeMap[id].(state := state)];
      }
    }

    // ---------- the slot store ----------

    method ResolveVoldataMountPath(uuid: string, c: SlotReplies) returns (path: string, created: bool)
      requires store.Valid() && Sound(store.Model())
      modifies store
      ensures store.Valid() && Sound(store.Model())
      ensures created ==> store.initialized && IsUuidValid(uuid)
      ensures (Committed(store.Model()), path, created)
              == TakeSlot(old(Committed(store.Model())), uuid,
                          StoreModel.Start(old(store.Model()), AsBoot(Readable(c.load))).1, AsSave(c.save).mainOk)
    {
      hide WellFormed, IsUuidValid, StoreModel.Start, StoreModel.ResolveStep, Sound, Allocate;
      ghost var s0 := store.Model();
      StartCommitted(s0, AsBoot(Readable(c.load)));
      WholeStart(s0, AsBoot(Readable(c.load)));
      var ok := store.Init(Readable(c.load));
      created := false;
      if !ok {
        return "", false;
      }
      var found;
      found, path := store.TryGetMountPath(uuid);
      if found {
        return;
      }
      ghost var s1 := store.Model();
      SoundIsOwn(s1);
      StartAgain(s1, AsBoot(Readable(c.load)));
      WholeStart(s1, AsBoot(Readable(c.load)));
      ResolveCommitted(s1, uuid, AsBoot(Readable(c.load)), AsSave(c.save));
      ok, path, created := store.ResolveMountPath(uuid, Readable(c.load), c.save);
      if !ok {
        return "", false;
      }
    }

    /** Give back a slot this mount created. */
    method UndoVoldataMapping(uuid: string, created: bool, c: SlotReplies)
      requires store.Valid() && Sound(store.Model())
      requires created ==> store.initialized && IsUuidValid(uuid)
      modifies store
      ensures store.Valid() && Sound(store.Model())
      ensures Committed(store.Model())
              == var m := old(Committed(store.Model())); if created && AsSave(c.undo).mainOk then Remove(m, uuid) else m
    {
      hide WellFormed, IsUuidValid, Sound;
      if created {
        WholeStart(store.Model(), AsBoot(Readable(c.load)));
        RemoveCommitted(store.Model(), uuid, AsBoot(Readable(c.load)), AsSave(c.undo));
        var ignored := store.RemoveByFsUuid(uuid, Readable(c.load), c.undo);
      }
    }

    method UpdateVoldataMappingAfterFormat(diskId: string, prior: string, next: string, fsType: string,
                                           c: SlotReplies, ghost r: FormatReplies)
      requires Valid()
      modifies store
      ensures Valid()
      ensures var r' := FormatWithStore(r, old(store.Model()), UsesVoldata(diskMap, diskId, fsType), prior, c);
              Committed(store.Model()) == SlotsAfterFormat(old(Now()), diskId, prior, next, fsType, r')
    {
      hide WellFormed, IsUuidValid, Sound, StoreModel.Start, Lower;
      if !UsesVoldata(diskMap, diskId, fsType) {
        if IsUuidValid(prior) {
          WholeStart(store.Model(), AsBoot(Readable(c.load)));
          RemoveCommitted(store.Model(), prior, AsBoot(Readable(c.load)), AsSave(c.save));
          var ignored := store.RemoveByFsUuid(prior, Readable(c.load), c.save);
        }
        return;
      }
      if !IsUuidValid(prior) || !IsUuidValid(next) {
        return;
      }
      var found, unused := store.TryGetMountPath(prior);
      if !found {
        return;
      }
      WholeStart(store.Model(), AsBoot(Readable(c.load)));
      ReplaceCommitted(store.Model(), prior, next, AsBoot(Readable(c.load)), AsSave(c.save));
      var ignored := store.ReplaceFsUuid(prior, next, Readable(c.load), c.save);
    }

    // ---------- FUSE ----------

    method MountUsbFuseIfNeeded(id: string, uuid: string, useFuseData: bool, r: MountReplies)
      returns (err: int, fuseMounted: bool)
      modifies this`mounts, this`fuse
      ensures fuseMounted <==> useFuseData && r.fuseStillOn && err == E_OK
      ensures err == if !useFuseData || !r.fuseStillOn then E_OK
                     else if !IsUuidValid(uuid) then E_PARAMS_INVALID
                     else if r.fuseMount != 0 then r.fuseMount else r.fuseNotify
      ensures Outside()
              == var s := old(Outside());
                 var t := AddMount(s, ExternalPath(uuid));
                 if fuseMounted then t.(fuse := s.fuse + {id})
                 else if err == E_OK || !IsUuidValid(uuid) || r.fuseMount != 0 then s
                 else if r.undoFuseUnmount == 0 then DropMount(t, ExternalPath(uuid)) else t
    {
      hide IsUuidValid, ExternalPath;
      if !useFuseData || !r.fuseStillOn {
        return E_OK, false;
      }
      if !IsUuidValid(uuid) {
        return E_PARAMS_INVALID, false;
      }
      var mountPath := ExternalPath(uuid);
      if r.fuseMount != 0 {
        return r.fuseMount, false;
      }
      mounts := mounts + multiset{mountPath};
      if r.fuseNotify != 0 {
        if r.undoFuseUnmount == 0 {
          mounts := mounts - multiset{mountPath};
        }
        return r.fuseNotify, false;
      }
      fuse := fuse + {id};
      return E_OK, true;
    }

    method RollbackFuseMount(id: string, uuid: string, r: MountReplies) returns (err: int)
      modifies this`mounts, this`fuse
      ensures Outside() == UndoFuse(old(Outside()), id, uuid, r)
    {
      hide IsUuidValid, ExternalPath;
      if !IsUuidValid(uuid) {
        return E_PARAMS_INVALID;
      }
      var fusePath := ExternalPath(uuid);
      if fusePath in mounts || r.procMountsUnreadable {
        if r.undoFuseUnmount != 0 {
          return r.undoFuseUnmount;
        }
        mounts := mounts - multiset{fusePath};
      }
      if r.undoFuseNotify == 0 {
        fuse := fuse - {id};
      }
      return r.undoFuseNotify;
    }

    // ---------- mounting ----------

    method BuildMountDataPath(uuid: string, p: Policy, r: MountReplies, c: SlotReplies)
      returns (path: string, created: bool)
      requires store.Valid() && Sound(store.Model())
      modifies store
      ensures store.Valid() && Sound(store.Model())
      ensures created ==> store.initialized && IsUuidValid(uuid)
      ensures (Outside(), path, created) == DataPath(old(Outside()), uuid, p, WithStore(r, old(store.Model()), c))
    {
      hide IsUuidValid, ExternalPath, DvrPath, FusePath, TakeSlot, Sound, StoreModel.Start, Committed;
      created := false;
      if p.voldata {
        path, created := ResolveVoldataMountPath(uuid, c);
      } else if p.dvr {
        path := DvrPath(uuid);
      } else if p.fuse {
        path := FusePath(uuid);
      } else {
        path := ExternalPath(uuid);
      }
    }

    method MountVolumeSetPath(id: string, path: string) returns (err: int)
      modifies this`volumeMap
      ensures err == if id in old(volumeMap) then E_OK else E_NON_EXIST
      ensures volumeMap == if err == E_OK then old(volumeMap)[id := old(volumeMap)[id].(path := path)]
                           else old(volumeMap)
    {
      if id !in volumeMap {
        return E_NON_EXIST;
      }
      volumeMap := volumeMap[id := volumeMap[id].(path := path)];
      return E_OK;
    }

    /** Give back the slot and the FUSE mount, as every failure after them does. */
    method UndoSlotAndFuse(id: string, uuid: string, created: bool, fuseMounted: bool,
                           r: MountReplies, c: SlotReplies, ghost s0: StoreModel.State)
      requires store.Valid() && Sound(store.Model()) && (created ==> store.initialized && IsUuidValid(uuid))
      modifies this`mounts, this`fuse, store
      ensures store.Valid() && Sound(store.Model())
      ensures Outside()
              == var t := UndoSlot(old(Outside()), uuid, created, WithStore(r, s0, c));
                 if fuseMounted then UndoFuse(t, id, uuid, WithStore(r, s0, c)) else t
    {
      hide IsUuidValid, WithStore, UndoFuse, UndoSlot, Sound, Committed;
      UndoWithStore(r, s0, c, Outside(), id, uuid, created);
      UndoVoldataMapping(uuid, created, c);
      UndoWithStore(r, s0, c, Outside(), id, uuid, created);
      if fuseMounted {
        var ignored := RollbackFuseMount(id, uuid, r);
      }
    }

    method ExecuteVolumeDataMount(id: string, v: Volume, path: string, created: bool, fuseMounted: bool,
                                  r: MountReplies, c: SlotReplies, ghost s0: StoreModel.State)
      returns (vol: Volume, err: int)
      requires Valid() && id in log && (created ==> store.initialized && IsUuidValid(v.uuid))
      modifies this`volumeMap, this`mounts, this`fuse, this`log, store
      ensures Valid()
      ensures var m := FinishMount(old(Outside()), id in old(volumeMap), fuseMounted, id, v, path, created,
                                   WithStore(r, s0, c));
              && vol == m.vol && err == m.err && Outside() == m.side && log == Append(old(log), id, m.events)
      ensures volumeMap
              == if err == E_OK && id in old(volumeMap)
                 then old(volumeMap)[id := old(volumeMap)[id].(path := vol.path)] else old(volumeMap)
    {
      hide IsUuidValid, Sound, WithStore, Committed, UndoSlot, UndoFuse;
      DaemonReplies(r, s0, c);
      AppendNothing(log, id);
      vol := v;
      if r.mount != 0 {
        UndoSlotAndFuse(id, v.uuid, created, fuseMounted, r, c, s0);
        vol := vol.(state := Unmounted);
        return vol, r.mount;
      }
      mounts := mounts + multiset{path};
      vol := vol.(path := path, state := Mounted);
      err := MountVolumeSetPath(id, path);
      if err != E_OK {
        if r.undoMount == 0 {
          mounts := mounts - multiset{path};
        }
        UndoSlotAndFuse(id, v.uuid, created, fuseMounted, r, c, s0);
        vol := vol.(state := Unmounted);
        return;
      }
      Publish(id, MountedEvent);
    }

    method MountVolumeFilesystem(id: string, v: Volume, p: Policy, r: MountReplies, c: SlotReplies)
      returns (vol: Volume, err: int)
      requires Valid() && id in log
      modifies this`volumeMap, this`mounts, this`fuse, this`log, store
      ensures Valid()
      ensures var g := WithStore(r, old(store.Model()), c);
              var m := MountFilesystem(old(Outside()), id in old(volumeMap), id, v, p, g);
              && vol == m.vol && err == m.err && Outside() == m.side && log == Append(old(log), id, m.events)
      ensures volumeMap
              == if err == E_OK && id in old(volumeMap)
                 then old(volumeMap)[id := old(volumeMap)[id].(path := vol.path)] else old(volumeMap)
    {
      hide IsUuidValid, Sound, WithStore, Committed, DataPath, FinishMount, UndoFuse, ExternalPath;
      ghost var s0 := store.Model();
      DaemonReplies(r, s0, c);
      AppendNothing(log, id);
      var fuseErr, fuseMounted := MountUsbFuseIfNeeded(id, v.uuid, p.fuse, r);
      vol := v;
      if fuseErr != E_OK {
        return vol, fuseErr;
      }
      var path, created := BuildMountDataPath(v.uuid, p, r, c);
      if path == "" {
        UndoWithStore(r, s0, c, Outside(), id, v.uuid, created);
        if fuseMounted {
          var ignored := RollbackFuseMount(id, v.uuid, r);
        }
        return vol.(state := Unmounted), DISK_MGR_ERR;
      }
      vol, err := ExecuteVolumeDataMount(id, v, path, created, fuseMounted, r, c, s0);
    }

    method EnsureFsUuidReady(id: string, v: Volume, r: MountReplies) returns (vol: Volume, err: int)
      requires id in volumeMap
      modifies this`volumeMap
      ensures (vol, err) == EnsureUuid(old(volumeMap), id, v, r)
      ensures err != E_OK ==> vol == v && volumeMap == old(volumeMap)
      ensures err == E_OK ==>
                (IsUuidValid(vol.uuid) <==> v.uuid != "" || Dedup.StaysValid(Uuids(old(volumeMap)), id, r.metaUuid))
      ensures err == E_OK && v.uuid == "" ==> !Dedup.Occupied(Uuids(old(volumeMap)), id, vol.uuid)
      ensures OnlyAt(old(volumeMap), volumeMap, id)
      ensures id in volumeMap && volumeMap[id].state == old(volumeMap)[id].state
    {
      hide IsUuidValid, Dedup.Resolve, Dedup.StaysValid, FsTypeOf;
      vol := v;
      if v.uuid != "" {
        return vol, if IsUuidValid(v.uuid) then E_OK else E_PARAMS_INVALID;
      }
      if r.meta != 0 {
        return vol, r.meta;
      }
      if !IsUuidValid(r.metaUuid) {
        return vol, E_PARAMS_INVALID;
      }
      Dedup.ResolvedValidExactly(Uuids(volumeMap), id, r.metaUuid);
      var uuid := Dedup.DedupFsUuidUnlocked(Uuids(volumeMap), id, r.metaUuid);
      volumeMap := volumeMap[id := volumeMap[id].(uuid := uuid)];
      return vol.(uuid := uuid, fsType := FsTypeOf(r.metaType)), E_OK;
    }

    /** Put a record and its copy in the map into a state. */
    method EnterState(id: string, v: Volume, state: VolumeState) returns (vol: Volume)
      modifies this`volumeMap
      ensures vol == v.(state := state) && volumeMap == WithState(old(volumeMap), id, state)
    {
      vol := v.(state := state);
      SetVolumeStateLocked(id, state);
    }

    /** The check of a data-disk volume before its mount, and the repair it may call for. */
    method CheckBeforeMount(id: string, v: Volume, r: MountReplies) returns (vol: Volume, err: int)
      requires id in volumeMap && id in log
      modifies this`volumeMap, this`log
      ensures OnlyAt(old(volumeMap), volumeMap, id) && id in volumeMap && volumeMap[id].state == vol.state
      ensures vol == v.(state := CheckAndRepair(r).0) && err == CheckAndRepair(r).2
      ensures err == E_OK ==> vol.state == Unmounted
      ensures log == Append(old(log), id, CheckAndRepair(r).1)
    {
      hide Append, WithState, OnlyAt;
      ghost var log0, m := log, volumeMap;
      vol := EnterState(id, v, Checking);
      Publish(id, CheckingEvent);
      if r.check == E_VOL_NEED_FIX {
        vol, err := RepairBeforeMount(id, vol, r);
        AppendTwice(log0, id, [CheckingEvent], RepairEvents(r));
        assert [CheckingEvent] + RepairEvents(r) == CheckAndRepair(r).1;
      } else if r.check != 0 {
        vol := EnterState(id, vol, RepairFinishFail);
        Publish(id, RepairFailed);
        AppendOne(log0, id, [CheckingEvent], RepairFailed, [CheckingEvent, RepairFailed]);
        err := r.check;
      } else {
        Publish(id, RepairSucceeded);
        AppendOne(log0, id, [CheckingEvent], RepairSucceeded, [CheckingEvent, RepairSucceeded]);
        vol := EnterState(id, vol, Unmounted);
        err := E_OK;
      }
      WithStateTwice(m, id, Checking, vol.state);
      WithStateOnly(m, id, vol.state);
    }

    method RepairBeforeMount(id: string, v: Volume, r: MountReplies) returns (vol: Volume, err: int)
      requires id in volumeMap && id in log
      modifies this`volumeMap, this`log
      ensures vol == v.(state := if r.repair != 0 then RepairFinishFail else Unmounted) && err == r.repair
      ensures volumeMap == WithState(old(volumeMap), id, vol.state)
      ensures log == Append(old(log), id, RepairEvents(r))
    {
      hide Append, WithState;
      ghost var log0, m := log, volumeMap;
      vol := EnterState(id, v, RepairStart);
      Publish(id, RepairStarted);
      vol := EnterState(id, vol, Repairing);
      WithStateTwice(m, id, RepairStart, Repairing);
      err := r.repair;
      if err != 0 {
        vol := EnterState(id, vol, RepairFinishFail);
        Publish(id, RepairFailed);
        AppendOne(log0, id, [RepairStarted], RepairFailed, RepairEvents(r));
      } else {
        Publish(id, RepairSucceeded);
        AppendOne(log0, id, [RepairStarted], RepairSucceeded, RepairEvents(r));
        vol := EnterState(id, vol, Unmounted);
      }
      WithStateTwice(m, id, Repairing, vol.state);
    }

    method MountVolumeEntry(id: string, v: Volume, r: MountReplies, c: SlotReplies) returns (vol: Volume, err: int)
      requires Valid() && id in volumeMap
      modifies this`volumeMap, this`mounts, this`fuse, this`log, store
      ensures Valid() && OnlyAt(old(volumeMap), volumeMap, id)
      ensures var m := MountEntry(old(Now()), old(Outside()), id, v, WithStore(r, old(store.Model()), c));
              && vol == m.vol && err == m.err && Outside() == m.side && log == Append(old(log), id, m.events)
      ensures err == E_OK ==> volumeMap[id].state in {old(volumeMap)[id].state, Unmounted}
    {
      hide Sound, WithStore, Committed, MountFilesystem, EnsureUuid, CheckAndRepair, PolicyFor, Append, OnlyAt;
      ghost var log0, volumes0 := log, volumeMap;
      RepliesBefore(r, store.Model(), c, volumeMap, id, v);
      AppendNothing(log, id);
      vol, err := EnsureFsUuidReady(id, v, r);
      OnlyAtKeys(volumes0, volumeMap, id);
      if err != E_OK {
        return vol.(state := Unmounted), err;
      }
      ghost var volumes1, events := volumeMap, [];
      var p := PolicyFor(diskMap, vol.diskId, vol.fsType, r.fuseOn);
      if p.voldata {
        events := CheckAndRepair(r).1;
        vol, err := CheckBeforeMount(id, vol, r);
        OnlyAtTwice(volumes0, volumes1, volumeMap, id);
        OnlyAtKeys(volumes0, volumeMap, id);
        if err != E_OK {
          return;
        }
      }
      ghost var volumes2 := volumeMap;
      ghost var m := MountFilesystem(Outside(), true, id, vol, p, WithStore(r, store.Model(), c));
      vol, err := MountVolumeFilesystem(id, vol, p, r, c);
      AppendTwice(log0, id, events, m.events);
      PathOnly(volumes2, id, vol.path);
      OnlyAtTwice(volumes0, volumes2, volumeMap, id);
      if err != E_OK {
        vol := vol.(state := Unmounted);
      }
    }

    method Mount(id: string, r: MountReplies, c: SlotReplies) returns (err: int)
      requires Valid()
      modifies this`volumeMap, this`mounts, this`fuse, this`log, store
      ensures Valid()
      ensures (Now(), err) == Volumes.Mount(old(Now()), id, WithStore(r, old(store.Model()), c))
    {
      hide Sound, WithStore, Committed, MountEntry, Put, Append;
      RepliesBefore(r, store.Model(), c, volumeMap, id, Volume("", 0, Unmounted, "", "", ""));
      if r.disabled || id !in volumeMap {
        return E_NON_EXIST;
      }
      if volumeMap[id].state !in {Unmounted, Decrypting, FormatFinishFail} {
        return E_VOL_MOUNT_ERR;
      }
      var vol := volumeMap[id];
      if r.edmIntercepts {
        return E_OK;
      }
      ghost var w, m := Now(), MountEntry(Now(), Outside(), id, vol, WithStore(r, store.Model(), c));
      vol, err := MountVolumeEntry(id, vol, r, c);
      PutIs(w, id, m.vol, m.side, m.events, volumeMap);
      if err == E_OK && volumeMap[id].state !in {Unmounted, Decrypting, FormatFinishFail} {
        assert false;   // nothing else runs meanwhile, so the state cannot have changed
      }
      volumeMap := volumeMap[id := vol];
    }

    // ---------- unmounting ----------

    method NotifyVolumeEjecting(id: string, v: Volume, failed: bool) returns (vol: Volume, previous: VolumeState)
      requires id in log
      modifies this`volumeMap, this`log
      ensures vol == v.(state := Ejecting) && previous == v.state
      ensures volumeMap == WithState(old(volumeMap), id, Ejecting)
      ensures log == Append(old(log), id, [Eject(failed)])
    {
      previous := v.state;
      vol := EnterState(id, v, Ejecting);
      Publish(id, Eject(failed));
    }

    method UnmountVolumeMountPoints(id: string, v: Volume, r: UnmountReplies) returns (err: int)
      modifies this`mounts, this`fuse
      ensures (Outside(), err) == UnmountPoints(old(Outside()), id, v, r)
    {
      hide IsUuidValid, ExternalPath, IsFusePath;
      if v.path != "" && IsFusePath(v.path) {
        if r.data != 0 {
          return r.data;
        }
        mounts := mounts - multiset{v.path};
        if IsUuidValid(v.uuid) {
          if r.fuse != 0 {
            return r.fuse;
          }
          mounts := mounts - multiset{ExternalPath(v.uuid)};
        }
        if r.notify == 0 {
          fuse := fuse - {id};
        }
        return r.notify;
      }
      if v.path != "" {
        if r.data == 0 {
          mounts := mounts - multiset{v.path};
        }
        return r.data;
      }
      return E_OK;
    }

    method ResolveQueryUsbIsInUseMountPath(v: Volume) returns (path: string)
      requires store.Valid() && Sound(store.Model())
      ensures path == InUseQueryPath(store.uuidMap, v)
      ensures path == "" <==> InUseQueryPath(Committed(store.Model()), v) == ""
    {
      hide IsUuidValid, Lower;
      PathsNotEmpty(store.Model(), v.uuid);
      if v.path != "" {
        return v.path;
      }
      if Lower(v.fsType) == "f2fs" && IsUuidValid(v.uuid) {
        var found, voldata := store.TryGetMountPath(v.uuid);
        if found {
          return voldata;
        }
      }
      if IsUuidValid(v.uuid) {
        return ExternalPath(v.uuid);
      }
      return "";
    }

    method ResolveUnmountForceFlag(v: Volume, r: UnmountReplies) returns (err: int)
      requires store.Valid() && Sound(store.Model())
      ensures err == UnmountAllowed(Now(), v, r)
    {
      hide InUseQueryPath, Sound, Committed;
      if !IsInternalDataDisk(diskMap, v.diskId) {
        return E_OK;
      }
      var path := ResolveQueryUsbIsInUseMountPath(v);
      if path == "" {
        return E_PARAMS_INVALID;
      }
      if r.query != 0 {
        return r.query;
      }
      return if r.inUse then E_UMOUNT_BUSY else E_OK;
    }

    /** Report the failed unmount and put the state back. */
    method UnmountFailed(id: string, v: Volume, previous: VolumeState) returns (vol: Volume)
      requires id in log
      modifies this`volumeMap, this`log
      ensures vol == v.(state := previous) && volumeMap == WithState(old(volumeMap), id, previous)
      ensures log == Append(old(log), id, [Eject(true)])
    {
      hide Append, WithState;
      WithStateTwice(volumeMap, id, Ejecting, previous);
      var ignored;
      vol, ignored := NotifyVolumeEjecting(id, v, true);
      vol := EnterState(id, vol, previous);
    }

    method TryUnmount(id: string, v: Volume, r: UnmountReplies) returns (err: int)
      requires store.Valid() && Sound(store.Model())
      modifies this`mounts, this`fuse
      ensures (Outside(), err) == Attempt(old(Now()), id, v, r)
    {
      hide Sound, Committed, UnmountAllowed, UnmountPoints;
      err := ResolveUnmountForceFlag(v, r);
      if err == E_OK {
        err := UnmountVolumeMountPoints(id, v, r);
      }
    }

    method DoUnmountVolume(id: string, v: Volume, r: UnmountReplies) returns (err: int)
      requires Valid() && id in volumeMap && v == volumeMap[id]
      modifies this`volumeMap, this`mounts, this`fuse, this`log
      ensures Valid() && (Now(), err) == DoUnmount(old(Now()), id, r)
    {
      hide Sound, Committed, Append, WithState, DoUnmount, Attempt;
      ghost var w := Now();
      WithStateTwice(volumeMap, id, Ejecting, v.state);
      WithStateSame(volumeMap, id);
      EjectEvents(w.log, id);
      DoUnmountIs(w, id, r);
      var vol, previous := NotifyVolumeEjecting(id, v, false);
      EjectingSame(w, Now(), id, v, r);
      err := TryUnmount(id, vol, r);
      if err != E_OK {
        vol := UnmountFailed(id, vol, previous);
        return;
      }
      Publish(id, UnmountedEvent);
      ClearIsPut(w.volumes, id, Ejecting);
      volumeMap := volumeMap[id := volumeMap[id].(path := "", state := Unmounted)];
    }

    method Unmount(id: string, r: UnmountReplies) returns (err: int)
      requires Valid()
      modifies this`volumeMap, this`mounts, this`fuse, this`log
      ensures Valid() && (Now(), err) == Volumes.Unmount(old(Now()), id, r)
    {
      hide Sound, Committed, DoUnmount;
      if id !in volumeMap {
        return E_NON_EXIST;
      }
      if volumeMap[id].state !in {Mounted, DamagedMounted, EncryptedAndLocked, EncryptedAndUnlocked} {
        return E_VOL_UMOUNT_ERR;
      }
      err := DoUnmountVolume(id, volumeMap[id], r);
    }

    method ForceUnmount(id: string, r: UnmountReplies) returns (err: int)
      requires Valid()
      modifies this`volumeMap, this`mounts, this`fuse, this`log
      ensures Valid() && (Now(), err) == Volumes.ForceUnmount(old(Now()), id, r)
    {
      hide Sound, Committed, DoUnmount;
      if id !in volumeMap {
        return E_NON_EXIST;
      }
      err := DoUnmountVolume(id, volumeMap[id], r);
    }

    // ---------- formatting ----------

    method PublishFormatFailEvent(id: string)
      requires id in volumeMap && id in log
      modifies this`volumeMap, this`log
      ensures volumeMap == WithState(old(volumeMap), id, FormatFinishFail)
      ensures log == Append(old(log), id, [FormatFailed])
    {
      SetVolumeStateLocked(id, FormatFinishFail);
      Publish(id, FormatFailed);
    }

    method UpdateVolumeAfterFormat(id: string, fsType: string, diskId: string, prior: string,
                                   r: FormatReplies, c: SlotReplies)
      returns (err: int)
      requires Valid() && id in volumeMap && diskId == volumeMap[id].diskId && prior == volumeMap[id].uuid
      modifies this`volumeMap, store
      ensures Valid()
      ensures (Now(), err)
              == var w := old(Now());
                 var voldata := UsesVoldata(w.disks, diskId, fsType);
                 AfterFormat(w, id, fsType, FormatWithStore(r, old(store.Model()), voldata, prior, c))
    {
      hide IsUuidValid, Sound, Committed, SlotsAfterFormat, UsesVoldata, Dedup.Resolve, FsTypeOf, StoreModel.Start,
        Put, Append;
      ghost var w := Now();
      if !IsUuidValid(r.metaUuid) {
        return E_PARAMS_INVALID;
      }
      var uuid := Dedup.DedupFsUuidUnlocked(Uuids(volumeMap), id, r.metaUuid);
      UpdateVoldataMappingAfterFormat(diskId, prior, uuid, fsType, c, r);
      volumeMap := volumeMap[id := volumeMap[id].(uuid := uuid, fsType := FsTypeOf(fsType), state := Unmounted)];
      PutIs(w, id, volumeMap[id], Outside(), [], w.volumes);
      AppendNothing(log, id);
      return E_OK;
    }

    method Format(id: string, fsType: string, r: FormatReplies, c: SlotReplies) returns (err: int)
      requires Valid()
      modifies this`volumeMap, this`log, store
      ensures Valid()
      ensures var g := FormatAnswers(old(Now()), id, fsType, r, old(store.Model()), c);
              (Now(), err) == Volumes.Format(old(Now()), id, fsType, g)
    {
      hide Sound, Committed, AfterFormat, UsesVoldata, StoreModel.Start, Put, Append, WithState, OnlyAt;
      ghost var w := Now();
      if id !in volumeMap {
        return E_NON_EXIST;
      }
      var v := volumeMap[id];
      if v.diskId !in diskMap || diskMap[v.diskId] == Cd {
        return E_NOT_SUPPORT;
      }
      if v.state !in {Unmounted, FormatFinishFail, Damaged} {
        return E_VOL_STATE;
      }
      if r.format != 0 {
        WithStateOnly(volumeMap, id, FormatFinishFail);
        PublishFormatFailEvent(id);
        PutIs(w, id, volumeMap[id], w.side, [FormatFailed], volumeMap);
        return r.format;
      }
      err := UpdateVolumeAfterFormat(id, fsType, v.diskId, v.uuid, r, c);
    }

    // ---------- repair ----------

    method RepairAndCheckVolume(id: string, v: Volume, r: FixReplies) returns (vol: Volume, err: int)
      requires id in volumeMap && id in log
      modifies this`volumeMap, this`log
      ensures err == if r.repair != 0 then r.repair
                     else if UsesVoldata(diskMap, v.diskId, v.fsType) then r.check else E_OK
      ensures vol == v.(state := if err == E_OK then Unmounted else RepairFinishFail)
      ensures volumeMap == WithState(old(volumeMap), id, vol.state)
      ensures log == Append(old(log), id, [CheckingEvent, if err == E_OK then RepairSucceeded else RepairFailed])
    {
      hide Append, WithState, UsesVoldata;
      ghost var log0, m := log, volumeMap;
      vol := EnterState(id, v, Checking);
      Publish(id, CheckingEvent);
      err := r.repair;
      if err == E_OK && UsesVoldata(diskMap, v.diskId, v.fsType) {
        err := r.check;
      }
      if err != E_OK {
        vol := EnterState(id, vol, RepairFinishFail);
        Publish(id, RepairFailed);
        AppendOne(log0, id, [CheckingEvent], RepairFailed, [CheckingEvent, RepairFailed]);
      } else {
        Publish(id, RepairSucceeded);
        AppendOne(log0, id, [CheckingEvent], RepairSucceeded, [CheckingEvent, RepairSucceeded]);
        vol := EnterState(id, vol, Unmounted);
      }
      WithStateTwice(m, id, Checking, vol.state);
    }

    /** Mount and write back, for a record that may be ahead of the registry `w` the call began with. */
    method MountAndWriteBack(id: string, v: Volume, r: MountReplies, c: SlotReplies, ghost w: World,
                             ghost before: seq<Event>)
      returns (err: int)
      requires Valid() && id in volumeMap && Ahead(w, Now(), id, v, before)
      modifies this`volumeMap, this`mounts, this`fuse, this`log, store
      ensures Valid()
      ensures var m := MountEntry(w, old(Outside()), id, v, WithStore(r, old(store.Model()), c));
              Now() == Put(w, id, m.vol, m.side, before + m.events) && err == m.err
    {
      hide Sound, Committed, WithStore, MountEntry, Put, Append, OnlyAt;
      ghost var g, volumes := WithStore(r, store.Model(), c), volumeMap;
      ghost var m := MountEntry(Now(), Outside(), id, v, g);
      MountEntrySame(w, Now(), Outside(), id, v, g);
      var vol;
      vol, err := MountVolumeEntry(id, v, r, c);
      OnlyAtTwice(w.volumes, volumes, volumeMap, id);
      AppendTwice(w.log, id, before, m.events);
      PutIs(w, id, m.vol, m.side, before + m.events, volumeMap);
      volumeMap := volumeMap[id := vol];
    }

    /** The last part of `TryToFix`. */
    method RepairThenMount(id: string, v: Volume, r: FixReplies, c: SlotReplies, ghost w: World,
                           ghost before: seq<Event>)
      returns (err: int)
      requires Valid() && id in volumeMap && Ahead(w, Now(), id, v, before)
      modifies this`volumeMap, this`mounts, this`fuse, this`log, store
      ensures Valid()
      ensures (Now(), err)
              == FixAndMount(w, id, v, old(Outside()), before, r.(mount := WithStore(r.mount, old(store.Model()), c)))
    {
      hide Sound, Committed, WithStore, MountEntry, UsesVoldata, Put, Append, WithState, OnlyAt;
      ghost var volumes, side := volumeMap, Outside();
      var vol;
      vol, err := RepairAndCheckVolume(id, v, r);
      WithStateOnly(volumes, id, vol.state);
      OnlyAtTwice(w.volumes, volumes, volumeMap, id);
      if err != E_OK {
        AppendTwice(w.log, id, before, [CheckingEvent, RepairFailed]);
        PutIs(w, id, vol, side, before + [CheckingEvent, RepairFailed], volumeMap);
        return;
      }
      AppendTwice(w.log, id, before, [CheckingEvent, RepairSucceeded]);
      err := MountAndWriteBack(id, vol, r.mount, c, w, before + [CheckingEvent, RepairSucceeded]);
    }

    /** The eject at the start of `TryToFix`: the record in the map follows, or gets its state back. */
    method EjectForFix(id: string, v: Volume, r: UnmountReplies) returns (vol: Volume, err: int)
      requires Valid() && id in volumeMap && v == volumeMap[id]
      modifies this`volumeMap, this`mounts, this`fuse, this`log
      ensures Valid() && (Outside(), err) == UnmountPoints(old(Outside()), id, v, r)
      ensures vol == if err == E_OK then v.(path := "", state := Unmounted) else v
      ensures volumeMap == old(volumeMap)[id := vol] && log == Append(old(log), id, [Eject(false)])
    {
      hide Sound, Committed, UnmountPoints, Append, WithState;
      ghost var w := Now();
      WithStateTwice(volumeMap, id, Ejecting, v.state);
      WithStateSame(volumeMap, id);
      EjectingSame(w, w, id, v, r);
      var previous;
      vol, previous := NotifyVolumeEjecting(id, v, false);
      err := UnmountVolumeMountPoints(id, vol, r);
      if err != E_OK {
        vol := EnterState(id, vol, previous);
        return;
      }
      vol := vol.(path := "", state := Unmounted);
      ClearIsPut(w.volumes, id, Ejecting);
      volumeMap := volumeMap[id := volumeMap[id].(path := "", state := Unmounted)];
    }

    method TryToFix(id: string, r: FixReplies, c: SlotReplies) returns (err: int)
      requires Valid()
      modifies this`volumeMap, this`mounts, this`fuse, this`log, store
      ensures Valid()
      ensures (Now(), err)
              == Volumes.TryToFix(old(Now()), id, r.(mount := WithStore(r.mount, old(store.Model()), c)))
    {
      hide Sound, Committed, WithStore, FixAndMount, UnmountPoints, Put, Append;
      if id !in volumeMap {
        return E_NON_EXIST;
      }
      ghost var w := Now();
      var v := volumeMap[id];
      AppendNothing(log, id);
      if v.state !in {Mounted, DamagedMounted} {
        err := RepairThenMount(id, v, r, c, w, []);
        return;
      }
      var vol;
      vol, err := EjectForFix(id, v, r.unmount);
      if err != E_OK {
        PutIs(w, id, v, Outside(), [Eject(false)], w.volumes);
        return;
      }
      err := RepairThenMount(id, vol, r, c, w, [Eject(false)]);
    }

    method MarkVolumeAbnormal(id: string) returns (err: int)
      requires Valid()
      modifies this`volumeMap, this`log
      ensures Valid() && (Now(), err) == MarkAbnormal(old(Now()), id)
    {
      hide Sound, Committed;
      if id !in volumeMap {
        return E_NON_EXIST;
      }
      if volumeMap[id].state == Damaged {
        return E_OK;
      }
      if volumeMap[id].state != Unmounted {
        return E_VOL_STATE;
      }
      volumeMap := volumeMap[id := volumeMap[id].(state := Damaged)];
      Publish(id, Abnormal);
      return E_OK;
    }

    // ---------- creation, metadata, removal ----------

    method OnDiskCreated(diskId: string, kind: DiskKind) returns (ok: bool)
      requires Valid()
      modifies this`diskMap
      ensures Valid() && ok == (diskId !in old(diskMap))
      ensures Now() == Do(old(Now()), AddDisk(diskId, kind))
    {
      if diskId in diskMap {
        return false;
      }
      diskMap := diskMap[diskId := kind];
      return true;
    }

    method OnDiskDestroyed(diskId: string) returns (ok: bool)
      requires Valid()
      modifies this`diskMap
      ensures Valid() && ok == (diskId in old(diskMap))
      ensures Now() == Do(old(Now()), DropDisk(diskId))
    {
      if diskId !in diskMap {
        return false;
      }
      diskMap := diskMap - {diskId};
      return true;
    }

    method OnVolumeCreated(id: string, diskId: string, part: nat)
      requires Valid()
      modifies this`volumeMap, this`log
      ensures Valid() && Now() == Create(old(Now()), id, diskId, part)
    {
      hide Sound, Committed;
      if id !in volumeMap {
        volumeMap := volumeMap[id := Volume(diskId, part, Unmounted, "", "", "undefined")];
        log := log[id := []];
      }
    }

    method UpdateVolumeMetadata(id: string, uuid: string, fsType: string) returns (err: int)
      requires Valid()
      modifies this`volumeMap
      ensures Valid() && Now() == Refresh(old(Now()), id, uuid, fsType)
      ensures err == if id in volumeMap then E_OK else E_NON_EXIST
    {
      hide Sound, Committed, Dedup.Resolve, FsTypeOf, Put, Append;
      if id !in volumeMap {
        return E_NON_EXIST;
      }
      ghost var w := Now();
      var resolved := Dedup.DedupFsUuidUnlocked(Uuids(volumeMap), id, uuid);
      volumeMap := volumeMap[id := volumeMap[id].(uuid := resolved, fsType := FsTypeOf(fsType))];
      PutIs(w, id, volumeMap[id], w.side, [], w.volumes);
      AppendNothing(log, id);
      return E_OK;
    }

    /** Remove one volume: a forced unmount unless it is UNMOUNTED, then the node, then the record. */
    method DestroyVolume(id: string, r: DestroyReplies) returns (ok: bool)
      requires Valid() && id in volumeMap
      modifies this`volumeMap, this`mounts, this`fuse, this`log
      ensures Valid() && Now() == Destroy(old(Now()), id, r)
      ensures ok <==> id !in volumeMap
    {
      hide Sound, Committed, DoUnmount, Logged;
      LoggedNow(Now(), id);
      var before := volumeMap[id].state;
      DoUnmountRegistered(Now(), id, r.unmount);
      if before != Unmounted {
        var ignored := ForceUnmount(id, r.unmount);
      }
      if r.node != 0 {
        return false;
      }
      DroppedLogged(Now(), id, Append(log, id, [if before == Unmounted then Removed else BadRemoval]));
      Publish(id, if before == Unmounted then Removed else BadRemoval);
      volumeMap := volumeMap - {id};
      return true;
    }

    method DestroyVolumeByDiskIdAndPartNum(diskId: string, part: nat, r: DestroyReplies)
      returns (ok: bool, ghost id: string)
      requires Valid()
      modifies this`volumeMap, this`mounts, this`fuse, this`log
      ensures Valid()
      ensures if diskId in diskMap && HasPart(old(Now()), diskId, part)
              then id in old(volumeMap)
                   && old(volumeMap)[id].diskId == diskId && old(volumeMap)[id].partitionNum == part
                   && Now() == Destroy(old(Now()), id, r) && (ok <==> id !in volumeMap)
              else !ok && Now() == old(Now())
    {
      hide Sound, Committed, Destroy;
      ok, id := false, "";
      if diskId !in diskMap {
        return;
      }
      var rest := volumeMap.Keys;
      while rest != {}
        invariant rest <= volumeMap.Keys && Valid() && Now() == old(Now())
        invariant forall k :: k in volumeMap && k !in rest ==>
                    volumeMap[k].diskId != diskId || volumeMap[k].partitionNum != part
        decreases rest
      {
        var k :| k in rest;
        if volumeMap[k].diskId == diskId && volumeMap[k].partitionNum == part {
          id := k;
          ok := DestroyVolume(k, r);
          return;
        }
        rest := rest - {k};
      }
    }

    method CollectVolumes(diskId: string) returns (volIds: seq<string>, fsUuids: seq<string>)
      ensures forall k :: k in volIds <==> k in volumeMap && volumeMap[k].diskId == diskId
      ensures forall u :: u in fsUuids <==> IsUuidValid(u) && exists k :: k in volIds && volumeMap[k].uuid == u
    {
      hide IsUuidValid;
      volIds, fsUuids := [], [];
      var rest := volumeMap.Keys;
      while rest != {}
        invariant rest <= volumeMap.Keys
        invariant forall k :: k in volIds <==> k in volumeMap && k !in rest && volumeMap[k].diskId == diskId
        invariant forall u :: u in fsUuids <==> IsUuidValid(u) && exists k :: k in volIds && volumeMap[k].uuid == u
        decreases rest
      {
        var k :| k in rest;
        rest := rest - {k};
        if volumeMap[k].diskId == diskId {
          volIds := volIds + [k];
          if IsUuidValid(volumeMap[k].uuid) {
            fsUuids := fsUuids + [volumeMap[k].uuid];
          }
        }
      }
    }

    method EraseVolumes(volIds: seq<string>)
      modifies this`volumeMap
      ensures volumeMap == old(volumeMap) - SetOf(volIds)
    {
      RemoveNone(volumeMap);
      for i := 0 to |volIds|
        invariant volumeMap == old(volumeMap) - SetOf(volIds[..i])
      {
        SetOfNext(volIds, i);
        RemoveMore(old(volumeMap), SetOf(volIds[..i]), volIds[i]);
        volumeMap := volumeMap - {volIds[i]};
      }
      assert volIds[..|volIds|] == volIds;
    }

    /** Ask the store to forget each UUID; one it could not save stays, and makes the whole call fail. */
    method RemoveMappings(fsUuids: seq<string>, c: string -> SlotReplies) returns (ok: bool, ghost unsaved: set<string>)
      requires store.Valid() && Sound(store.Model())
      modifies store
      ensures store.Valid() && Sound(store.Model())
      ensures Committed(store.Model()) == old(Committed(store.Model())) - (SetOf(fsUuids) - unsaved)
      ensures ok ==> unsaved == {}
    {
      hide IsUuidValid, Sound, Committed, StoreModel.RemoveStep, SetOf;
      ghost var m0, done := Committed(store.Model()), {};
      ok := true;
      RemoveNone(m0);
      SetOfNone(fsUuids);
      for i := 0 to |fsUuids|
        invariant store.Valid() && Sound(store.Model())
        invariant done <= SetOf(fsUuids[..i]) && Committed(store.Model()) == m0 - done
        invariant ok ==> done == SetOf(fsUuids[..i])
      {
        var u := fsUuids[i];
        WholeStart(store.Model(), AsBoot(Readable(c(u).load)));
        RemoveCommitted(store.Model(), u, AsBoot(Readable(c(u).load)), AsSave(c(u).save));
        var removed := store.RemoveByFsUuid(u, Readable(c(u).load), c(u).save);
        SetOfNext(fsUuids, i);
        if removed {
          RemoveMore(m0, done, u);
          done := done + {u};
        } else {
          ok := false;
        }
      }
      assert fsUuids[..|fsUuids|] == fsUuids;
      unsaved := SetOf(fsUuids) - done;
      assert SetOf(fsUuids) - unsaved == done;
    }

    /** Every volume of the disk leaves the registry, then every slot of their UUIDs the store. */
    method PurgeVolumesForDisk(diskId: string, c: string -> SlotReplies) returns (ok: bool, ghost unsaved: set<string>)
      requires Valid()
      modifies this`volumeMap, store
      ensures Valid()
      ensures Now() == var w := old(Now());
                       if diskId !in w.disks then w
                       else
                         w.(volumes := w.volumes - OnDisk(w, diskId),
                            side := w.side.(slots := w.side.slots - PurgedUuids(w, diskId, unsaved)))
      ensures ok ==> diskId in diskMap && unsaved == {}
    {
      hide IsUuidValid, Sound, Committed, StoreModel.Start;
      if diskId !in diskMap {
        return false, {};
      }
      ghost var w := Now();
      var volIds, fsUuids := CollectVolumes(diskId);
      EraseVolumes(volIds);
      ok, unsaved := RemoveMappings(fsUuids, c);
      PurgedIs(w, diskId, volIds, fsUuids, unsaved);
    }

    method IsDiskNotReady(diskId: string) returns (busy: bool)
      ensures busy <==> diskId !in diskMap
                        || exists id :: id in volumeMap && volumeMap[id].diskId == diskId
                                        && volumeMap[id].state != Unmounted
    {
      if diskId !in diskMap {
        return true;
      }
      var rest := volumeMap.Keys;
      while rest != {}
        invariant rest <= volumeMap.Keys
        invariant forall id :: id in volumeMap && id !in rest && volumeMap[id].diskId == diskId ==>
                    volumeMap[id].state == Unmounted
        decreases rest
      {
        var id :| id in rest;
        if volumeMap[id].diskId == diskId && volumeMap[id].state != Unmounted {
          return true;
        }
        rest := rest - {id};
      }
      return false;
    }

    /** The registry's part of `Partition`, up to the daemon call. */
    method PreparePartition(diskId: string, c: string -> SlotReplies) returns (ok: bool, ghost unsaved: set<string>)
      requires Valid()
      modifies this`volumeMap, store
      ensures Valid() && Now() == Purge(old(Now()), diskId, unsaved)
    {
      hide Sound, Committed, PurgedUuids;
      ok, unsaved := false, {};
      if diskId !in diskMap || diskMap[diskId] == Cd {
        return;
      }
      var busy := IsDiskNotReady(diskId);
      if busy {
        return;
      }
      ok, unsaved := PurgeVolumesForDisk(diskId, c);
    }
  }
}
