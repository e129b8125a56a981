/**
 * The kernel's mount table: every volume mounted outside FUSE keeps its own mount, through every
 * call but a refresh that gives a mounted volume another UUID.
 */
module MountTable {
  import opened Maps
  import opened Text
  import opened SlotMap
  import opened Volumes
  import opened VolumeInvariants
  import Dedup

  // ---------- the four roots ----------

  /** The tenth and the eighteenth character tell the roots apart. */
  lemma RootChars(uuid: string)
    ensures |ExternalPath(uuid)| > 18 && ExternalPath(uuid)[10] == 'e' && ExternalPath(uuid)[18] == '/'
    ensures |FusePath(uuid)| > 18 && FusePath(uuid)[10] == 'e' && FusePath(uuid)[18] == '_'
    ensures |DvrPath(uuid)| > 10 && DvrPath(uuid)[10] == 'd'
    ensures IsFusePath(FusePath(uuid))
  {
  }

  lemma SlotPathChars(p: string)
    requires ParseSlot(p).Some?
    ensures |p| > 10 && p[10] == 'v'
  {
    assert p[10] == p[..|VOLDATA_MOUNT_PREFIX|][10];
  }

  lemma SameRootSameUuid(a: string, b: string)
    ensures ExternalPath(a) == ExternalPath(b) ==> a == b
    ensures FusePath(a) == FusePath(b) ==> a == b
    ensures DvrPath(a) == DvrPath(b) ==> a == b
  {
    assert ExternalPath(a)[|EXTERNAL_ROOT|..] == a && ExternalPath(b)[|EXTERNAL_ROOT|..] == b;
    assert FusePath(a)[|FUSE_ROOT|..] == a && FusePath(b)[|FUSE_ROOT|..] == b;
    assert DvrPath(a)[|DVR_ROOT|..] == a && DvrPath(b)[|DVR_ROOT|..] == b;
  }

  /** Only the volume with that UUID can be mounted at its external path. */
  lemma ExternalOwner(path: string, uuid: string, other: string)
    requires PathFits(path, uuid) && path == ExternalPath(other)
    ensures uuid == other
  {
    RootChars(uuid);
    RootChars(other);
    SameRootSameUuid(uuid, other);
    if ParseSlot(path).Some? {
      SlotPathChars(path);
    }
  }

  lemma NoOtherHolder(w: World, id: string)
    requires Inv(w) && id in w.volumes && w.volumes[id].uuid != ""
    ensures Holders(w.volumes - {id}, ExternalPath(w.volumes[id].uuid)) == {}
  {
    hide PathFits, ExternalPath, IsFusePath, WellFormed, LogOk, Tidy;
    var uuid := w.volumes[id].uuid;
    assert Uuids(w.volumes)[id] == uuid;
    forall k | k in w.volumes - {id} ensures !At(w.volumes[k], ExternalPath(uuid)) {
      if At(w.volumes[k], ExternalPath(uuid)) {
        assert Placed(w.volumes[k]);
        assert Uuids(w.volumes)[k] == w.volumes[k].uuid;
        ExternalOwner(w.volumes[k].path, w.volumes[k].uuid, uuid);
      }
    }
  }

  lemma SamePathSameUuid(path: string, a: string, b: string)
    requires PathFits(path, a) && PathFits(path, b) && ParseSlot(path).None?
    ensures a == b
  {
    hide ExternalPath, FusePath, DvrPath, ParseSlot;
    RootChars(a);
    RootChars(b);
    SameRootSameUuid(a, b);
  }

  // ---------- room in the mount table ----------

  lemma RoomNow(w: World, id: string)
    requires Seated(w) && id in w.volumes
    ensures RoomFor(w.volumes, id, w.volumes[id], w.side.mounts)
  {
    hide AllPlaced;
    forall p ensures |Holders(w.volumes - {id}, p)| + One(At(w.volumes[id], p)) <= w.side.mounts[p] {
      HoldersWithout(w.volumes, id, p);
    }
  }

  lemma RoomAfterGrowth(volumes: map<string, Volume>, id: string, v: Volume, a: multiset<string>,
                        m: Volume, b: multiset<string>)
    requires RoomFor(volumes, id, v, a) && Grows(a, b, m)
    ensures RoomFor(volumes, id, m, b)
  {
    forall p ensures |Holders(volumes - {id}, p)| + One(At(m, p)) <= b[p] {
      assert |Holders(volumes - {id}, p)| + One(At(v, p)) <= a[p];
    }
  }

  lemma NoFuseHolder(volumes: map<string, Volume>, p: string)
    requires IsFusePath(p)
    ensures Holders(volumes, p) == {}
  {
  }

  lemma Dropped(side: Side, path: string)
    ensures var s := DropMount(side, path);
            && s.slots == side.slots && side.mounts[path] <= s.mounts[path] + 1
            && forall p :: p != path ==> s.mounts[p] == side.mounts[p]
  {
  }

  lemma UnmountedMounts(side: Side, id: string, v: Volume, r: UnmountReplies)
    ensures var (s, err) := UnmountPoints(side, id, v, r);
            && s.slots == side.slots
            && (v.path == "" ==> s.mounts == side.mounts)
            && (!IsFusePath(v.path) && err != E_OK ==> s.mounts == side.mounts)
            && (!IsFusePath(v.path) ==> forall p :: p != v.path ==> s.mounts[p] == side.mounts[p])
            && (forall p :: p != v.path && p != ExternalPath(v.uuid) ==> s.mounts[p] == side.mounts[p])
            && (!IsFusePath(v.path) ==> side.mounts[v.path] <= s.mounts[v.path] + 1)
  {
    hide IsUuidValid, IsFusePath, ExternalPath, DropMount;
    Dropped(side, v.path);
    Dropped(DropMount(side, v.path), ExternalPath(v.uuid));
  }

  /** Unmounting, in whole or in part, leaves room for the others; if it succeeds, for no more. */
  lemma UnmountRoom(w: World, id: string, r: UnmountReplies)
    requires Inv(w) && id in w.volumes
    ensures var v := w.volumes[id];
            var (s, err) := UnmountPoints(w.side, id, v, r);
            && s.slots == w.side.slots
            && RoomFor(w.volumes, id, if err == E_OK then v.(path := "", state := Unmounted) else v, s.mounts)
  {
    hide IsUuidValid, WellFormed, LogOk, PathFits, IsFusePath, ExternalPath, Dedup.Distinct, Holders, UnmountPoints;
    RoomNow(w, id);
    var v := w.volumes[id];
    assert Tidy(v) && Placed(v);
    UnmountedMounts(w.side, id, v, r);
    var (s, err) := UnmountPoints(w.side, id, v, r);
    if IsFusePath(v.path) && v.path != "" {
      NoOtherHolder(w, id);
      NoFuseHolder(w.volumes - {id}, v.path);
    }
    var v' := if err == E_OK then v.(path := "", state := Unmounted) else v;
    forall p ensures |Holders(w.volumes - {id}, p)| + One(At(v', p)) <= s.mounts[p] {
      assert |Holders(w.volumes - {id}, p)| + One(At(v, p)) <= w.side.mounts[p];
    }
  }

  // ---------- the calls ----------

  lemma MountSeated(w: World, id: string, r: MountReplies)
    requires Inv(w)
    ensures Logged(w) && Seated(Mount(w, id, r).0)
  {
    hide Core, Seated, WellFormed, Placed, MountEntry, Grows, RoomFor, UuidFits, Put;
    CoreLogged(w);
    if Mount(w, id, r).0 != w {
      var v := w.volumes[id];
      CoreOf(w, id);
      MountEntryOk(w, w.side, id, v, r);
      var m := MountEntry(w, w.side, id, v, r);
      RoomNow(w, id);
      RoomAfterGrowth(w.volumes, id, v, w.side.mounts, m.vol, m.side.mounts);
      PutSeated(w, id, m.vol, m.side, m.events);
    }
  }

  lemma PlacedNow(w: World, id: string)
    requires Seated(w) && id in w.volumes
    ensures Placed(w.volumes[id])
  {
  }

  lemma DoUnmountSeated(w: World, id: string, r: UnmountReplies)
    requires Inv(w) && id in w.volumes
    ensures Logged(w) && Seated(DoUnmount(w, id, r).0)
  {
    hide Core, Seated, RoomFor, UnmountPoints, UnmountAllowed, PathFits, Put;
    CoreLogged(w);
    PlacedNow(w, id);
    RoomNow(w, id);
    UnmountRoom(w, id, r);
    var v := w.volumes[id];
    var (s, err) := UnmountPoints(w.side, id, v, r);
    PutSeated(w, id, v, w.side, [Eject(false), Eject(true)]);
    if err != E_OK {
      PutSeated(w, id, v, s, [Eject(false), Eject(true)]);
    } else {
      PutSeated(w, id, v.(path := "", state := Unmounted), s, [Eject(false), UnmountedEvent]);
    }
  }

  lemma RoomUnmounted(volumes: map<string, Volume>, id: string, v: Volume, u: Volume, mounts: multiset<string>)
    requires RoomFor(volumes, id, v, mounts)
    requires u.state != Mounted || (u.state == v.state && u.path == v.path)
    ensures RoomFor(volumes, id, u, mounts)
  {
    hide Holders;
    forall p ensures |Holders(volumes - {id}, p)| + One(At(u, p)) <= mounts[p] {
      assert |Holders(volumes - {id}, p)| + One(At(v, p)) <= mounts[p];
    }
  }

  /** Writing back a volume that is not mounted, or is still where it was under its UUID. */
  lemma PutSameSeat(w: World, id: string, v: Volume, side: Side, events: seq<Event>)
    requires Seated(w) && Logged(w) && id in w.volumes && side.mounts == w.side.mounts
    requires v.state != Mounted || (var u := w.volumes[id]; v == u.(fsType := v.fsType))
    ensures Seated(Put(w, id, v, side, events))
  {
    hide Seated, RoomFor, PathFits, Put;
    PlacedNow(w, id);
    RoomNow(w, id);
    RoomUnmounted(w.volumes, id, w.volumes[id], v, side.mounts);
    PutSeated(w, id, v, side, events);
  }

  lemma FormatSeated(w: World, id: string, fsType: string, r: FormatReplies)
    requires Inv(w)
    ensures Logged(w) && Seated(Format(w, id, fsType, r).0) && Seated(FormatPartition(w, id, fsType, r))
  {
    hide Core, Seated, Put, IsUuidValid, SlotsAfterFormat, Dedup.Resolve, FsTypeOf;
    CoreLogged(w);
    if id in w.volumes {
      var v := w.volumes[id];
      PutSameSeat(w, id, v.(state := FormatFinishFail), w.side, [FormatFailed]);
      PutSameSeat(w, id, v, w.side, [FormatFailed]);
      var uuid := Dedup.Resolve(Uuids(w.volumes), id, r.metaUuid);
      var slots := SlotsAfterFormat(w, v.diskId, v.uuid, uuid, fsType, r);
      PutSameSeat(w, id, v.(uuid := uuid, fsType := FsTypeOf(fsType), state := Unmounted), w.side.(slots := slots), []);
    }
  }

  lemma MarkSeated(w: World, id: string)
    requires Inv(w)
    ensures Logged(w) && Seated(MarkAbnormal(w, id).0)
  {
    hide Core, Seated, Put;
    CoreLogged(w);
    if id in w.volumes {
      PutSameSeat(w, id, w.volumes[id].(state := Damaged), w.side, [Abnormal]);
    }
  }

  /** The refresh leaves a MOUNTED volume with the UUID it has. */
  ghost predicate SameUuid(w: World, id: string, uuid: string) {
    id in w.volumes && w.volumes[id].state == Mounted ==>
      Dedup.Resolve(Uuids(w.volumes), id, uuid) == w.volumes[id].uuid
  }

  lemma RefreshSeated(w: World, id: string, uuid: string, fsType: string)
    requires Inv(w) && SameUuid(w, id, uuid)
    ensures Logged(w) && Seated(Refresh(w, id, uuid, fsType))
  {
    hide Core, Seated, Put, Dedup.Resolve, FsTypeOf;
    CoreLogged(w);
    if id in w.volumes {
      var v := w.volumes[id].(uuid := Dedup.Resolve(Uuids(w.volumes), id, uuid), fsType := FsTypeOf(fsType));
      PutSameSeat(w, id, v, w.side, []);
    }
  }

  /**
   * The exact reach of that: a refresh leaves everyone seated if and only if the volume is not
   * MOUNTED, or keeps its UUID, or is mounted on a slot, which does not carry the UUID in its path.
   */
  lemma RefreshSeatedExactly(w: World, id: string, uuid: string, fsType: string)
    requires Inv(w) && id in w.volumes
    ensures var v, resolved := w.volumes[id], Dedup.Resolve(Uuids(w.volumes), id, uuid);
            Logged(w) &&
            (Seated(Refresh(w, id, uuid, fsType))
             <==> v.state != Mounted || resolved == v.uuid || (ParseSlot(v.path).Some? && resolved != ""))
  {
    hide Core, Covered, RoomFor, PathFits, ParseSlot, Put, Dedup.Resolve, FsTypeOf;
    CoreLogged(w);
    PlacedNow(w, id);
    RoomNow(w, id);
    var v, resolved := w.volumes[id], Dedup.Resolve(Uuids(w.volumes), id, uuid);
    var u := v.(uuid := resolved, fsType := FsTypeOf(fsType));
    RoomUnmounted(w.volumes, id, v, u, w.side.mounts);
    SlotFits(v.path, resolved);
    if Placed(u) {
      PutSeated(w, id, u, w.side, []);
    } else if Seated(Put(w, id, u, w.side, [])) {
      PutPlaces(w, id, u, w.side, []);
    }
    if v.state == Mounted && ParseSlot(v.path).None? && PathFits(v.path, resolved) {
      SamePathSameUuid(v.path, v.uuid, resolved);
    }
  }

  lemma SlotFits(path: string, uuid: string)
    ensures ParseSlot(path).Some? ==> PathFits(path, uuid)
  {
    hide ExternalPath, DvrPath, FusePath, ParseSlot;
  }

  lemma PutPlaces(w: World, id: string, v: Volume, side: Side, events: seq<Event>)
    requires Logged(w) && id in w.volumes && Seated(Put(w, id, v, side, events))
    ensures Placed(v)
  {
    hide Placed, Covered;
    assert Placed(Put(w, id, v, side, events).volumes[id]);
  }

  lemma FixAndMountSeated(w: World, id: string, v: Volume, side: Side, before: seq<Event>, r: FixReplies)
    requires Inv(w) && id in w.volumes && WellFormed(side.slots)
    requires v.path == "" && UuidFits(w.volumes, id, v.uuid) && RoomFor(w.volumes, id, v, side.mounts)
    ensures Logged(w) && Seated(FixAndMount(w, id, v, side, before, r).0)
  {
    hide Core, Seated, MountEntry, UsesVoldata, RoomFor, WellFormed, Put, UuidFits, Placed, Grows;
    CoreLogged(w);
    var failed, u := v.(state := RepairFinishFail), v.(state := Unmounted);
    RoomUnmounted(w.volumes, id, v, failed, side.mounts);
    UnmountedPlaced(failed);
    PutSeated(w, id, failed, side, before + [CheckingEvent, RepairFailed]);
    MountEntryOk(w, side, id, u, r.mount);
    var m := MountEntry(w, side, id, u, r.mount);
    RoomAfterGrowth(w.volumes, id, v, side.mounts, m.vol, m.side.mounts);
    PutSeated(w, id, m.vol, m.side, before + [CheckingEvent, RepairSucceeded] + m.events);
  }

  lemma UnmountedPlaced(v: Volume)
    requires v.state != Mounted
    ensures Placed(v)
  {
  }

  lemma TryToFixSeated(w: World, id: string, r: FixReplies)
    requires Inv(w)
    ensures Logged(w) && Seated(TryToFix(w, id, r).0)
  {
    hide Core, Seated, WellFormed, UnmountPoints, FixAndMount, RoomFor, UuidFits, Put, Placed;
    CoreLogged(w);
    if id in w.volumes {
      CoreOf(w, id);
      PlacedNow(w, id);
      RoomNow(w, id);
      var v := w.volumes[id];
      UnmountRoom(w, id, r.unmount);
      var (s, err) := UnmountPoints(w.side, id, v, r.unmount);
      if v.state !in {Mounted, DamagedMounted} {
        FixAndMountSeated(w, id, v, w.side, [], r);
      } else if err != E_OK {
        PutSeated(w, id, v, s, [Eject(false)]);
      } else {
        FixAndMountSeated(w, id, v.(path := "", state := Unmounted), s, [Eject(false)], r);
      }
    }
  }

  // ---------- creation and removal ----------

  lemma CreateSeated(w: World, id: string, diskId: string, part: nat)
    requires Seated(w)
    ensures Seated(Create(w, id, diskId, part))
  {
    hide PathFits, Holders;
    if Create(w, id, diskId, part) != w {
      var v := Volume(diskId, part, Unmounted, "", "", "undefined");
      WithoutAbsent(w.volumes, id);
      forall p ensures |Holders(w.volumes[id := v], p)| <= w.side.mounts[p] {
        HoldersPut(w.volumes, id, v, p);
      }
    }
  }

  lemma WithoutAbsent(volumes: map<string, Volume>, id: string)
    requires id !in volumes
    ensures volumes - {id} == volumes
  {
  }

  lemma DropSeated(w: World, w': World, gone: set<string>)
    requires Seated(w) && w'.volumes == w.volumes - gone && w'.side.mounts == w.side.mounts
    ensures Seated(w')
  {
    hide Placed;
    forall p ensures |Holders(w'.volumes, p)| <= w.side.mounts[p] {
      SubsetCount(Holders(w'.volumes, p), Holders(w.volumes, p));
    }
  }

  lemma DestroySeated(w: World, id: string, r: DestroyReplies)
    requires Inv(w)
    ensures Logged(w) && Seated(Destroy(w, id, r))
  {
    hide Core, Seated, DoUnmount;
    CoreLogged(w);
    if id in w.volumes {
      DoUnmountSeated(w, id, r.unmount);
      var u := if w.volumes[id].state == Unmounted then w else DoUnmount(w, id, r.unmount).0;
      if r.node == 0 {
        DropSeated(u, Destroy(w, id, r), {id});
      }
    }
  }

  lemma PurgeSeated(w: World, diskId: string, unsaved: set<string>)
    requires Seated(w)
    ensures Seated(Purge(w, diskId, unsaved))
  {
    hide Seated, PurgedUuids;
    if Purge(w, diskId, unsaved) != w {
      DropSeated(w, Purge(w, diskId, unsaved), OnDisk(w, diskId));
    }
  }
}
