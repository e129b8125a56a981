/** What formatting, and the purge that starts a partitioning, achieve. */
module FormatOutcomes {
  import opened Text
  import opened SlotMap
  import opened Volumes
  import opened VolumeInvariants
  import opened VolumeCalls
  import opened VolumeRuns
  import opened MountOutcomes
  import Dedup

  // ---------- formatting ----------

  /** The volume is in a state and on a disk to format. */
  predicate MayFormat(w: World, v: Volume) {
    v.diskId in w.disks && w.disks[v.diskId] != Cd && v.state in {Unmounted, FormatFinishFail, Damaged}
  }

  /** The slot of `prior` moves to `next`. */
  predicate Moves(w: World, diskId: string, prior: string, next: string, fsType: string, r: FormatReplies) {
    && UsesVoldata(w.disks, diskId, fsType) && IsUuidValid(prior) && IsUuidValid(next) && prior != next
    && prior in w.side.slots && next !in w.side.slots && r.storeReady && r.slotSaved
  }

  /** The slot of `prior` is given up. */
  predicate GivesUp(w: World, diskId: string, prior: string, fsType: string, r: FormatReplies) {
    !UsesVoldata(w.disks, diskId, fsType) && IsUuidValid(prior) && r.storeReady && r.slotSaved
  }

  /** From `a` to `b` the UUID `prior` loses its slot and every other entry stays. */
  predicate LosesOnly(a: Slots, b: Slots, prior: string) {
    b.Keys == a.Keys - {prior} && forall u :: u in b ==> b[u] == a[u]
  }

  predicate MovesOnly(a: Slots, b: Slots, prior: string, next: string)
    requires prior in a
  {
    && b.Keys == a.Keys - {prior} + {next}
    && b[next].mountPath == a[prior].mountPath && b[next].slot == a[prior].slot
    && forall u :: u in a && u != prior ==> u in b && b[u] == a[u]
  }

  /** The slots after a format: f2fs on a data disk keeps its place under the new UUID, another type gives it up. */
  predicate SlotsFollow(w: World, after: Slots, diskId: string, prior: string, next: string, fsType: string,
                        r: FormatReplies)
  {
    if Moves(w, diskId, prior, next, fsType, r) then MovesOnly(w.side.slots, after, prior, next)
    else if GivesUp(w, diskId, prior, fsType, r) then LosesOnly(w.side.slots, after, prior)
    else after == w.side.slots
  }

  lemma SlotsFollowFormat(w: World, diskId: string, prior: string, next: string, fsType: string, r: FormatReplies)
    requires WellFormed(w.side.slots)
    ensures SlotsFollow(w, SlotsAfterFormat(w, diskId, prior, next, fsType, r), diskId, prior, next, fsType, r)
  {
    hide IsUuidValid, UsesVoldata, WellFormed, Replace;
    if Moves(w, diskId, prior, next, fsType, r) {
      ReplaceSpec(w.side.slots, prior, next);
    }
  }

  lemma AfterFormatExactly(w: World, id: string, fsType: string, r: FormatReplies)
    requires Logged(w) && WellFormed(w.side.slots) && id in w.volumes && IsUuidValid(r.metaUuid)
    ensures var e := AfterFormat(w, id, fsType, r).0; var v := w.volumes[id];
            && Elsewhere(w, e, id) && e.log == w.log && e.side == w.side.(slots := e.side.slots)
            && e.volumes[id] == v.(state := Unmounted, fsType := FsTypeOf(fsType), uuid := e.volumes[id].uuid)
            && e.volumes[id].uuid == Dedup.Resolve(Uuids(w.volumes), id, r.metaUuid)
            && (forall k :: k in w.volumes && k != id ==> w.volumes[k].uuid != e.volumes[id].uuid)
            && SlotsFollow(w, e.side.slots, v.diskId, v.uuid, e.volumes[id].uuid, fsType, r)
  {
    hide IsUuidValid, WellFormed, SlotsAfterFormat, SlotsFollow, Dedup.Resolve, FsTypeOf;
    var v, uuid := w.volumes[id], Dedup.Resolve(Uuids(w.volumes), id, r.metaUuid);
    SlotsFollowFormat(w, v.diskId, v.uuid, uuid, fsType, r);
    ResolvedIsFree(w.volumes, id, r.metaUuid);
    assert w.log[id] + [] == w.log[id];
    assert w.log[id := w.log[id]] == w.log;
  }

  lemma ResolvedIsFree(volumes: map<string, Volume>, id: string, uuid: string)
    ensures forall k :: k in volumes && k != id ==> volumes[k].uuid != Dedup.Resolve(Uuids(volumes), id, uuid)
  {
    var m := Uuids(volumes);
    assert !Dedup.Occupied(m, id, Dedup.Resolve(m, id, uuid));
    forall k | k in volumes && k != id ensures volumes[k].uuid != Dedup.Resolve(m, id, uuid) {
      assert k in m && m[k] == volumes[k].uuid;
    }
  }

  /**
   * A format succeeds exactly when the volume may be formatted, the daemon formats it and a valid UUID
   * can be read back. Then it is UNMOUNTED with the type asked for and a UUID no other volume has, its
   * slot followed, and nothing else changed. A daemon that fails leaves FORMAT_FINISH_FAIL.
   */
  lemma FormatExactly(w: World, id: string, fsType: string, r: FormatReplies)
    requires Logged(w) && WellFormed(w.side.slots) && id in w.volumes
    ensures var (e, err) := Format(w, id, fsType, r); var v := w.volumes[id];
            && e == Do(w, FormatCall(id, fsType, r))
            && (err == E_OK <==> MayFormat(w, v) && r.format == 0 && IsUuidValid(r.metaUuid))
            && (err == E_OK ==>
                  && Elsewhere(w, e, id) && e.log == w.log && e.side == w.side.(slots := e.side.slots)
                  && e.volumes[id] == v.(state := Unmounted, fsType := FsTypeOf(fsType), uuid := e.volumes[id].uuid)
                  && e.volumes[id].uuid == Dedup.Resolve(Uuids(w.volumes), id, r.metaUuid)
                  && (forall k :: k in w.volumes && k != id ==> w.volumes[k].uuid != e.volumes[id].uuid)
                  && SlotsFollow(w, e.side.slots, v.diskId, v.uuid, e.volumes[id].uuid, fsType, r))
            && (MayFormat(w, v) && r.format != 0 ==>
                  && err == r.format && e.side == w.side && Elsewhere(w, e, id)
                  && e.volumes[id] == v.(state := FormatFinishFail) && e.log[id] == w.log[id] + [FormatFailed])
            && (!MayFormat(w, v) || (r.format == 0 && !IsUuidValid(r.metaUuid)) ==> e == w)
  {
    hide WellFormed, IsUuidValid, SlotsFollow, Dedup.Resolve, FsTypeOf, AfterFormat;
    if IsUuidValid(r.metaUuid) {
      AfterFormatExactly(w, id, fsType, r);
    }
    AfterFormatError(w, id, fsType, r);
  }

  lemma AfterFormatError(w: World, id: string, fsType: string, r: FormatReplies)
    requires Logged(w) && id in w.volumes
    ensures AfterFormat(w, id, fsType, r).1 == E_OK <==> IsUuidValid(r.metaUuid)
    ensures !IsUuidValid(r.metaUuid) ==> AfterFormat(w, id, fsType, r).0 == w
  {
    hide IsUuidValid, SlotsAfterFormat, Dedup.Resolve, FsTypeOf;
  }

  /**
   * So an f2fs volume of a data disk keeps its place: formatted again and mounted, it lands where its
   * old UUID had its slot.
   */
  lemma FormatKeepsPlace(w: World, id: string, r: FormatReplies, m: MountReplies)
    requires Core(w) && id in w.volumes && MayFormat(w, w.volumes[id])
    requires r.format == 0 && IsUuidValid(r.metaUuid) && r.storeReady && r.slotSaved
    requires var v := w.volumes[id];
             && IsInternalDataDisk(w.disks, v.diskId) && v.uuid in w.side.slots && IsUuidValid(v.uuid)
             && var next := Dedup.Resolve(Uuids(w.volumes), id, r.metaUuid);
                next !in w.side.slots && IsUuidValid(next)
    requires !m.disabled && !m.edmIntercepts && PassesCheck(m) && m.storeReady && m.mount == 0
    ensures Logged(w)
    ensures var f := Format(w, id, "f2fs", r).0;
            && Logged(f) && var e := Mount(f, id, m).0;
               && id in e.volumes && e.volumes[id].state == Mounted
               && e.volumes[id].path == w.side.slots[w.volumes[id].uuid].mountPath
  {
    hide Core, WellFormed, IsUuidValid, Format, Mount, Dedup.Resolve;
    CoreLogged(w);
    CoreOf(w, id);
    FormatCoreToo(w, id, r);
    FormatExactly(w, id, "f2fs", r);
    var f := Format(w, id, "f2fs", r).0;
    ValidNotEmpty(f.volumes[id].uuid);
    AnyCaseOfF2fs("f2fs");
    assert FsTypeOf("f2fs") == "f2fs";
    MountExactly(f, id, m);
  }

  lemma FormatCoreToo(w: World, id: string, r: FormatReplies)
    requires Core(w)
    ensures Logged(w) && Logged(Format(w, id, "f2fs", r).0) && WellFormed(Format(w, id, "f2fs", r).0.side.slots)
  {
    hide WellFormed, LogOk;
    FormatCore(w, id, "f2fs", r);
    CoreLogged(Format(w, id, "f2fs", r).0);
  }

  /** Formatting one partition of an external disk, by the same rules; on such a disk the old slot is given up. */
  lemma FormatPartitionExactly(w: World, id: string, fsType: string, r: FormatReplies)
    requires Logged(w) && WellFormed(w.side.slots) && id in w.volumes
    ensures var e := FormatPartition(w, id, fsType, r); var v := w.volumes[id];
            var may := v.diskId in w.disks && w.disks[v.diskId] in {Sd, Usb} && v.state == Unmounted
                       && fsType in {"ext4", "exfat", "vfat"};
            && (!may || (r.format == 0 && !IsUuidValid(r.metaUuid)) ==> e == w)
            && (may && r.format != 0 ==> e == w.(log := w.log[id := w.log[id] + [FormatFailed]]))
            && (may && r.format == 0 && IsUuidValid(r.metaUuid) ==>
                  && Elsewhere(w, e, id) && e.log == w.log && e.side == w.side.(slots := e.side.slots)
                  && e.volumes[id] == v.(fsType := fsType, uuid := Dedup.Resolve(Uuids(w.volumes), id, r.metaUuid))
                  && if IsUuidValid(v.uuid) && r.storeReady && r.slotSaved
                     then LosesOnly(w.side.slots, e.side.slots, v.uuid) else e.side.slots == w.side.slots)
  {
    hide WellFormed, IsUuidValid, Dedup.Resolve, AfterFormat, Lower;
    if IsUuidValid(r.metaUuid) {
      AfterFormatExactly(w, id, fsType, r);
    }
    AfterFormatError(w, id, fsType, r);
    assert w.volumes[id := w.volumes[id]] == w.volumes;
  }

  // ---------- purging ----------

  /** Every volume of the disk is UNMOUNTED, and the disk is one that can be partitioned. */
  predicate MayPurge(w: World, d: string) {
    && d in w.disks && w.disks[d] != Cd
    && forall id :: id in w.volumes && w.volumes[id].diskId == d ==> w.volumes[id].state == Unmounted
  }

  /**
   * The purge is refused, and changes nothing, unless every volume of the disk is UNMOUNTED. Otherwise
   * exactly the disk's volumes go, and a UUID loses its slot exactly if it is valid, one of them had it
   * and the store could save that.
   */
  lemma PurgeExactly(w: World, d: string, unsaved: set<string>)
    ensures Logged(w) ==> Do(w, PurgeCall(d, unsaved)) == Purge(w, d, unsaved)
    ensures var e := Purge(w, d, unsaved);
            && (!MayPurge(w, d) ==> e == w)
            && (MayPurge(w, d) ==>
                  && (forall id :: id in e.volumes <==> id in w.volumes && w.volumes[id].diskId != d)
                  && (forall id :: id in e.volumes ==> e.volumes[id] == w.volumes[id])
                  && (forall u :: u in e.side.slots <==>
                        u in w.side.slots
                        && !(IsUuidValid(u) && u !in unsaved
                             && exists id :: id in w.volumes && w.volumes[id].diskId == d && w.volumes[id].uuid == u))
                  && (forall u :: u in e.side.slots ==> e.side.slots[u] == w.side.slots[u])
                  && e == w.(volumes := e.volumes, side := w.side.(slots := e.side.slots)))
  {
    hide IsUuidValid;
    forall u ensures u in PurgedUuids(w, d, unsaved) <==>
                     IsUuidValid(u) && u !in unsaved
                     && exists id :: id in w.volumes && w.volumes[id].diskId == d && w.volumes[id].uuid == u
    {
      if id :| id in w.volumes && w.volumes[id].diskId == d && w.volumes[id].uuid == u {
        assert id in OnDisk(w, d);
      }
    }
  }
}
