/**
 * `UeventBootstrap`: partition tables are compared with the last one seen, volumes of partitions
 * that went are removed and volumes of new ones are created, given their metadata and mounted.
 */
module UeventBootstraps {
  import opened Text
  import opened Volumes
  import opened RegistrySteps
  import opened SlotCalls
  import opened MountTable
  import opened VolumeRuns
  import opened Discovery
  import opened RegistryOwners
  import opened DiscoveryCalls
  import opened DiskManagers

  lemma {:induction false} MissingFromNothing(a: seq<PartitionRecord>)
    ensures Missing(a, []) == a && Missing([], a) == []
  {
    if a != [] {
      MissingFromNothing(a[..|a| - 1]);
    }
  }

  lemma MissingNext(a: seq<PartitionRecord>, b: seq<PartitionRecord>, i: nat)
    requires i < |a|
    ensures Missing(a[..i + 1], b) == Missing(a[..i], b) + if a[i] in b then [] else [a[i]]
    ensures a[..|a|] == a
  {
    assert a[..i + 1][..i] == a[..i];
  }

  lemma WithoutIs(owners: map<string, Owner>, o: Owner, id: string)
    requires OneOwner(owners) && o.part >= 1
    ensures id in owners && owners[id] == o ==> Without(owners, o) == owners - {id}
    ensures (forall k :: k in owners ==> owners[k] != o) ==> Without(owners, o) == owners
  {
  }

  lemma PartDestroyed(w: World, id: string, r: DestroyReplies, whole: string)
    requires Logged(w) && id in w.volumes
    ensures var v := w.volumes[id];
            r.node == 0 && v.partitionNum >= 1 && OneOwner(OwnersOf(w)) ==>
              OwnersOf(Destroy(w, id, r)) == Without(OwnersOf(w), Owner(v.diskId, v.partitionNum))
    ensures NotMounted(w, whole) ==> NotMounted(Destroy(w, id, r), whole)
  {
    hide Destroy, OneOwner, Without;
    OwnersDestroyed(w, id, r);
    if NotMounted(w, whole) {
      RemovalMountsNothing(w, id, r, whole);
    }
    var o := Owner(w.volumes[id].diskId, w.volumes[id].partitionNum);
    if o.part >= 1 && OneOwner(OwnersOf(w)) {
      WithoutIs(OwnersOf(w), o, id);
    }
  }

  lemma DestroyReached(w: World, w1: World, calls: seq<Call>, id: string, r: DestroyReplies)
    requires Reached(w, w1, calls) && Logged(w1) && id in w1.volumes && Logged(Destroy(w1, id, r))
    ensures Reached(w, Destroy(w1, id, r), calls + [DestroyCall(id, r)])
    ensures AllAllowed(w, calls + [DestroyCall(id, r)]) <==> AllAllowed(w, calls)
  {
    hide Reached, AllAllowed, Destroy;
    ReachedStep(w, w1, calls, DestroyCall(id, r));
  }

  lemma FormatReached(w: World, w1: World, calls: seq<Call>, id: string, fs: string, r: FormatReplies)
    requires Reached(w, w1, calls) && Logged(w1) && Logged(Volumes.Format(w1, id, fs, r).0)
    ensures Reached(w, Volumes.Format(w1, id, fs, r).0, calls + [FormatCall(id, fs, r)])
    ensures AllAllowed(w, calls + [FormatCall(id, fs, r)]) <==> AllAllowed(w, calls)
    ensures OwnersOf(Volumes.Format(w1, id, fs, r).0) == OwnersOf(w1)
  {
    hide Reached, AllAllowed, Volumes.Format;
    OwnersKept(w1, FormatCall(id, fs, r));
    ReachedStep(w, w1, calls, FormatCall(id, fs, r));
  }

  lemma DiskReached(w: World, w1: World, calls: seq<Call>, d: string, kind: DiskKind)
    requires Reached(w, w1, calls) && Logged(w1)
    ensures Reached(w, Do(w1, AddDisk(d, kind)), calls + [AddDisk(d, kind)])
    ensures Reached(w, Do(w1, DropDisk(d)), calls + [DropDisk(d)])
    ensures AllAllowed(w, calls + [AddDisk(d, kind)]) <==> AllAllowed(w, calls)
    ensures AllAllowed(w, calls + [DropDisk(d)]) <==> AllAllowed(w, calls)
    ensures forall c :: c in {AddDisk(d, kind), DropDisk(d)} ==>
              OwnersOf(Do(w1, c)) == OwnersOf(w1) && Do(w1, c).volumes == w1.volumes
  {
    hide Reached, AllAllowed;
    ReachedStep(w, w1, calls, AddDisk(d, kind));
    ReachedStep(w, w1, calls, DropDisk(d));
  }

  lemma KnownIsNumbered(t: Tracker, d: string)
    requires InStep(t)
    ensures Numbered(Known(t, d)) && OneOwner(t.owners)
  {
  }

  lemma KnownSame(t: Tracker, u: Tracker, d: string)
    requires u.snapshots == t.snapshots
    ensures Known(u, d) == Known(t, d)
  {
  }

  lemma SameVolumesNotMounted(w: World, w1: World, id: string)
    requires w1.volumes == w.volumes
    ensures NotMounted(w1, id) == NotMounted(w, id)
  {
  }

  lemma PartAbsent(w: World, d: string, part: nat)
    requires !HasPart(w, d, part)
    ensures Without(OwnersOf(w), Owner(d, part)) == OwnersOf(w)
  {
  }

  /** The owners once some volumes of a disk have been removed, those in `rest` not yet looked at. */
  function Remaining(o: map<string, Owner>, rest: set<string>, d: string): map<string, Owner> {
    map k | k in o && (k in rest || o[k].diskId != d) :: o[k]
  }

  lemma RemainingEnds(o: map<string, Owner>, d: string)
    ensures Remaining(o, o.Keys, d) == o && Remaining(o, {}, d) == WithoutDisk(o, d)
  {
  }

  lemma RemainingNext(o: map<string, Owner>, rest: set<string>, id: string, d: string)
    requires id in rest && rest <= o.Keys
    ensures id in Remaining(o, rest, d) && Remaining(o, rest, d)[id] == o[id]
    ensures Remaining(o, rest - {id}, d) == if o[id].diskId == d then Remaining(o, rest, d) - {id}
                                            else Remaining(o, rest, d)
  {
  }

  lemma EachNext(owners: map<string, Owner>, d: string, recs: seq<PartitionRecord>, i: nat, name: nat -> string)
    requires i < |recs|
    ensures DestroyEach(owners, d, recs[..i + 1])
            == Without(DestroyEach(owners, d, recs[..i]), Owner(d, recs[i].number))
    ensures CreateEach(owners, d, recs[..i + 1], name)
            == Insert(CreateEach(owners, d, recs[..i], name), name(recs[i].number), Owner(d, recs[i].number))
    ensures recs[..|recs|] == recs
  {
    assert recs[..i + 1][..i] == recs[..i];
  }

  lemma DestroyNone(owners: map<string, Owner>, d: string, recs: seq<PartitionRecord>)
    ensures DestroyEach(owners, d, recs[..0]) == owners
  {
  }

  lemma CreateNone(owners: map<string, Owner>, d: string, recs: seq<PartitionRecord>, name: nat -> string)
    ensures CreateEach(owners, d, recs[..0], name) == owners
  {
  }

  lemma OwnersAre(w: World)
    ensures OwnersOf(w).Keys == w.volumes.Keys
    ensures forall id :: id in w.volumes ==> OwnersOf(w)[id] == Owner(w.volumes[id].diskId, w.volumes[id].partitionNum)
  {
  }

  lemma AlreadyOwned(w: World, id: string, o: Owner)
    requires id in w.volumes
    ensures Insert(OwnersOf(w), id, o) == OwnersOf(w)
  {
  }

  predicate NotMounted(w: World, id: string) {
    !IsMounted(w, id)
  }

  lemma NotMountedSameUuid(w: World, id: string, uuid: string)
    requires NotMounted(w, id)
    ensures SameUuid(w, id, uuid)
  {
  }

  lemma NotMountedMayRefresh(w: World, id: string, uuid: string)
    ensures NotMounted(w, id) ==> SameUuid(w, id, uuid)
  {
    hide SameUuid;
    if NotMounted(w, id) {
      NotMountedSameUuid(w, id, uuid);
    }
  }

  /** The kind the disk has once it is registered. */
  function KindOf(disks: map<string, DiskKind>, d: string, kind: DiskKind): DiskKind {
    if d in disks then disks[d] else kind
  }

  predicate IsDataDisk(disks: map<string, DiskKind>, d: string, kind: DiskKind) {
    KindOf(disks, d, kind) in {DataSsd, DataHdd}
  }

  /** An event on a disk; `direct` while a data disk is partitioned, which skips the comparison with the last table. */
  function Sighted(t: Tracker, d: string, table: Table, name: nat -> string, wholeDisk: bool, direct: bool): Tracker {
    if direct && table.Read? then t.(disks := t.disks + {d}, owners := CreateEach(t.owners, d, table.parts, name))
    else Step(t, Seen(d, table, name, wholeDisk))
  }

  /** What becomes of a registered disk whose table was read. */
  function Registered(t: Tracker, d: string, parts: seq<PartitionRecord>, name: nat -> string, wholeDisk: bool,
                      isNew: bool, direct: bool): Tracker
  {
    if direct then t.(owners := CreateEach(t.owners, d, parts, name))
    else t.(owners := DiscoveredOwners(t, d, parts, name, wholeDisk, isNew), snapshots := t.snapshots[d := parts])
  }

  lemma SightedIs(t: Tracker, u: Tracker, d: string, parts: seq<PartitionRecord>, name: nat -> string, wholeDisk: bool,
                  direct: bool)
    requires u == t.(disks := t.disks + {d})
    ensures Registered(u, d, parts, name, wholeDisk, d !in t.disks, direct)
            == Sighted(t, d, Read(parts), name, wholeDisk, direct)
  {
    hide CreateEach, DestroyEach, Missing;
  }

  lemma SightedWithoutTable(t: Tracker, d: string, name: nat -> string, wholeDisk: bool, direct: bool)
    ensures Sighted(t, d, ValidNode, name, wholeDisk, direct) == t.(disks := t.disks + {d})
    ensures Sighted(t, d, Failed, name, wholeDisk, direct)
            == if d !in t.disks then t else t.(owners := WithoutDisk(t.owners, d), snapshots := t.snapshots - {d})
  {
  }

  lemma DataDiskNow(disks: map<string, DiskKind>, d: string, kind: DiskKind)
    ensures d in disks ==> (IsInternalDataDisk(disks, d) <==> IsDataDisk(disks, d, kind))
    ensures d !in disks ==> (IsInternalDataDisk(disks[d := kind], d) <==> IsDataDisk(disks, d, kind))
  {
  }

  lemma UsableNow(before: map<string, DiskKind>, now: map<string, DiskKind>, kind: DiskKind, x: Visit)
    requires now == if x.d in before then before else before[x.d := kind]
    ensures Usable(now, x) <==> !(x.partitioning && KindOf(before, x.d, kind) == Cd)
  {
  }

  lemma NodeWorks(a: Answers, id: string)
    ensures NodesWork(a) ==> a.createNode(id) == 0
  {
  }

  lemma CreatedSameUuid(w: World, id: string, d: string, part: nat, uuid: string)
    ensures SameUuid(Create(w, id, d, part), id, uuid) <==> SameUuid(w, id, uuid)
  {
  }

  class UeventBootstrap {
    const registry: DiskManager
    var snapshots: map<string, seq<PartitionRecord>>

    constructor (registry: DiskManager)
      requires registry.Valid()
      ensures this.registry == registry && snapshots == map[]
    {
      this.registry := registry;
      snapshots := map[];
    }

    ghost function Now(): Tracker
      reads this, registry, registry.store
    {
      Tracker(registry.diskMap.Keys, OwnersOf(registry.Now()), snapshots)
    }

    // ---------- the diff ----------

    method ContainsPartition(list: seq<PartitionRecord>, target: PartitionRecord) returns (found: bool)
      ensures found <==> target in list
    {
      for i := 0 to |list|
        invariant target !in list[..i]
      {
        if list[i] == target {
          return true;
        }
        assert list[..i + 1] == list[..i] + [list[i]];
      }
      assert list[..|list|] == list;
      return false;
    }

    method NotIn(a: seq<PartitionRecord>, b: seq<PartitionRecord>) returns (r: seq<PartitionRecord>)
      ensures r == Missing(a, b)
    {
      r := [];
      for i := 0 to |a|
        invariant r == Missing(a[..i], b)
      {
        var found := ContainsPartition(b, a[i]);
        MissingNext(a, b, i);
        if !found {
          r := r + [a[i]];
        }
      }
      assert a[..|a|] == a;
    }

    method ComputePartitionDiff(d: string, parts: seq<PartitionRecord>)
      returns (added: seq<PartitionRecord>, removed: seq<PartitionRecord>)
      modifies this`snapshots
      ensures added == Missing(parts, Known(old(Now()), d)) && removed == Missing(Known(old(Now()), d), parts)
      ensures snapshots == old(snapshots)[d := parts]
    {
      hide OwnersOf;
      MissingFromNothing(parts);
      if d !in snapshots {
        added, removed := parts, [];
      } else {
        added := NotIn(parts, snapshots[d]);
        removed := NotIn(snapshots[d], parts);
      }
      snapshots := snapshots[d := parts];
    }

    // ---------- discovery ----------

    /** Mark the volume abnormal when its metadata does not describe a filesystem the service handles. */
    method EvaluateVolumeMetadataAbnormal(id: string, userData: bool, uuid: string, fsType: string, metaErr: int,
                                          ghost w: World, ghost calls0: seq<Call>)
      returns (abnormal: bool, ghost calls: seq<Call>)
      requires registry.Valid() && Reached(w, registry.Now(), calls0)
      modifies registry
      ensures abnormal <==> !userData && LooksAbnormal(uuid, fsType, metaErr)
      ensures calls == if abnormal then calls0 + [MarkCall(id)] else calls0
      ensures !abnormal ==> registry.Now() == old(registry.Now())
      ensures registry.Valid() && Reached(w, registry.Now(), calls)
      ensures AllAllowed(w, calls) <==> AllAllowed(w, calls0)
      ensures OwnersOf(registry.Now()) == old(OwnersOf(registry.Now())) && registry.diskMap == old(registry.diskMap)
    {
      hide Reached, AllAllowed, OwnersOf;
      calls := calls0;
      if userData || !IsAbnormalDetectableFsType(fsType) {
        return false, calls;
      }
      if metaErr != 0 || uuid == "" || fsType == "" || FsTypeOf(fsType) == "undefined" {
        calls := Mark(id, w, calls0);
        return true, calls;
      }
      return false, calls;
    }

    method Mark(id: string, ghost w: World, ghost calls0: seq<Call>) returns (ghost calls: seq<Call>)
      requires registry.Valid() && Reached(w, registry.Now(), calls0)
      modifies registry
      ensures calls == calls0 + [MarkCall(id)]
      ensures registry.Valid() && Reached(w, registry.Now(), calls)
      ensures AllAllowed(w, calls) <==> AllAllowed(w, calls0)
      ensures OwnersOf(registry.Now()) == old(OwnersOf(registry.Now())) && registry.diskMap == old(registry.diskMap)
    {
      hide Reached, AllAllowed, OwnersOf, MarkAbnormal;
      ghost var w1 := registry.Now();
      OwnersKept(w1, MarkCall(id));
      var ignored := registry.MarkVolumeAbnormal(id);
      ReachedStep(w, w1, calls0, MarkCall(id));
      calls := calls0 + [MarkCall(id)];
    }

    /** Mount the volume if there is metadata to go by, and mark it abnormal if that fails. */
    method MountDiscoveredVolume(id: string, userData: bool, uuid: string, fsType: string, a: Answers,
                                 ghost w: World, ghost calls0: seq<Call>)
      returns (ghost calls: seq<Call>)
      requires registry.Valid() && Reached(w, registry.Now(), calls0)
      modifies registry, registry.store
      ensures calls == calls0 + MountCalls(old(registry.Now()), id, userData, uuid, fsType,
                                           WithStore(a.mount(id), old(registry.store.Model()), a.slots(id)))
      ensures registry.Valid() && Reached(w, registry.Now(), calls)
      ensures AllAllowed(w, calls) <==> AllAllowed(w, calls0)
      ensures OwnersOf(registry.Now()) == old(OwnersOf(registry.Now())) && registry.diskMap == old(registry.diskMap)
    {
      hide Reached, AllAllowed, OwnersOf, Volumes.Mount, WithStore, MountCalls, Sound, Committed,
        IsAbnormalDetectableFsType;
      ghost var w1, r := registry.Now(), WithStore(a.mount(id), registry.store.Model(), a.slots(id));
      MountCallsAre(w1, id, userData, uuid, fsType, r, calls0);
      calls := calls0;
      if fsType == "" || uuid == "" {
        return;
      }
      ghost var c := MountCall(id, r);
      OwnersKept(w1, c);
      var err := registry.Mount(id, a.mount(id), a.slots(id));
      ReachedStep(w, w1, calls0, c);
      calls := calls0 + [c];
      if err != 0 && !userData && IsAbnormalDetectableFsType(fsType) {
        calls := Mark(id, w, calls);
      }
    }

    /** While its disk is being partitioned a discovered volume is formatted, not mounted. */
    method FormatDiscoveredVolume(id: string, a: Answers, ghost w: World, ghost calls0: seq<Call>)
      returns (ghost calls: seq<Call>)
      requires registry.Valid() && Reached(w, registry.Now(), calls0)
      modifies registry, registry.store
      ensures calls == calls0 + FormatCalls(old(registry.Now()), id, a, old(registry.store.Model()))
      ensures registry.Valid() && Reached(w, registry.Now(), calls)
      ensures AllAllowed(w, calls) <==> AllAllowed(w, calls0)
      ensures OwnersOf(registry.Now()) == old(OwnersOf(registry.Now())) && registry.diskMap == old(registry.diskMap)
    {
      hide Reached, AllAllowed, OwnersOf, Volumes.Format, FormatAnswers;
      ghost var w1 := registry.Now();
      ghost var r := FormatAnswers(w1, id, PARTITION_TARGET_FS_TYPE, a.format(id), registry.store.Model(), a.slots(id));
      ghost var c := FormatCall(id, PARTITION_TARGET_FS_TYPE, r);
      var ignored := registry.Format(id, PARTITION_TARGET_FS_TYPE, a.format(id), a.slots(id));
      FormatReached(w, w1, calls0, id, PARTITION_TARGET_FS_TYPE, r);
      calls := calls0 + [c];
    }

    method CreateAndSetupVolume(d: string, id: string, part: nat, a: Answers, ghost w: World, ghost calls0: seq<Call>)
      returns (ok: bool, ghost calls: seq<Call>)
      requires registry.Valid() && Reached(w, registry.Now(), calls0)
      modifies registry
      ensures registry.Valid() && Reached(w, registry.Now(), calls)
      ensures AllAllowed(w, calls) <==> AllAllowed(w, calls0)
      ensures registry.diskMap == old(registry.diskMap)
      ensures ok <==> a.createNode(id) == 0 && d in registry.diskMap
      ensures calls == if ok then calls0 + [CreateCall(id, d, part)] else calls0
      ensures registry.Now() == if ok then Create(old(registry.Now()), id, d, part) else old(registry.Now())
      ensures OwnersOf(registry.Now())
              == if ok then Insert(old(OwnersOf(registry.Now())), id, Owner(d, part)) else old(OwnersOf(registry.Now()))
    {
      hide Reached, AllAllowed, OwnersOf, Insert;
      calls := calls0;
      if a.createNode(id) != 0 || d !in registry.diskMap {
        return false, calls;
      }
      ghost var w1 := registry.Now();
      OwnersCreated(w1, id, d, part);
      registry.OnVolumeCreated(id, d, part);
      ReachedStep(w, w1, calls0, CreateCall(id, d, part));
      return true, calls0 + [CreateCall(id, d, part)];
    }

    /** Refresh the metadata of a volume; allowed in a run unless it gives a MOUNTED volume another UUID. */
    method Refresh(id: string, uuid: string, fsType: string, ghost w: World, ghost calls0: seq<Call>)
      returns (ghost calls: seq<Call>)
      requires registry.Valid() && Reached(w, registry.Now(), calls0)
      modifies registry
      ensures calls == calls0 + [RefreshCall(id, uuid, fsType)]
      ensures registry.Now() == Volumes.Refresh(old(registry.Now()), id, uuid, fsType)
      ensures registry.Valid() && Reached(w, registry.Now(), calls)
      ensures AllAllowed(w, calls) <==> AllAllowed(w, calls0) && old(SameUuid(registry.Now(), id, uuid))
      ensures OwnersOf(registry.Now()) == old(OwnersOf(registry.Now())) && registry.diskMap == old(registry.diskMap)
    {
      hide Reached, AllAllowed, OwnersOf, Volumes.Refresh, SameUuid;
      ghost var w1 := registry.Now();
      OwnersKept(w1, RefreshCall(id, uuid, fsType));
      var ignored := registry.UpdateVolumeMetadata(id, uuid, fsType);
      ReachedStep(w, w1, calls0, RefreshCall(id, uuid, fsType));
      calls := calls0 + [RefreshCall(id, uuid, fsType)];
    }

    /** What follows the metadata: an abnormal volume is marked, any other mounted. */
    method SettleDiscoveredVolume(id: string, userData: bool, uuid: string, fsType: string, metaErr: int, a: Answers,
                                  ghost w: World, ghost calls0: seq<Call>)
      returns (ghost calls: seq<Call>)
      requires registry.Valid() && Reached(w, registry.Now(), calls0)
      requires uuid == a.uuid(id) && fsType == a.fsType(id)
      modifies registry, registry.store
      ensures calls == calls0 + SettleCalls(old(registry.Now()), id, userData, metaErr, a, old(registry.store.Model()))
      ensures registry.Valid() && Reached(w, registry.Now(), calls)
      ensures AllAllowed(w, calls) <==> AllAllowed(w, calls0)
      ensures OwnersOf(registry.Now()) == old(OwnersOf(registry.Now())) && registry.diskMap == old(registry.diskMap)
    {
      hide Reached, AllAllowed, OwnersOf, MountCalls, LooksAbnormal, WithStore, Sound, Committed, MarkAbnormal;
      var abnormal;
      abnormal, calls := EvaluateVolumeMetadataAbnormal(id, userData, uuid, fsType, metaErr, w, calls0);
      if abnormal {
        return;
      }
      calls := MountDiscoveredVolume(id, userData, uuid, fsType, a, w, calls);
    }

    /** Create the volume if its node can be made, and give it the metadata read if `refreshes`. */
    method PrepareDiscoveredVolume(d: string, id: string, part: nat, refreshes: bool, a: Answers,
                                   ghost w: World, ghost calls0: seq<Call>)
      returns (ok: bool, ghost calls: seq<Call>)
      requires registry.Valid() && Reached(w, registry.Now(), calls0)
      modifies registry
      ensures ok <==> a.createNode(id) == 0 && d in registry.diskMap
      ensures calls == if ok then calls0 + PrepareCalls(d, id, part, refreshes, a) else calls0
      ensures registry.Now() == if ok then Prepared(old(registry.Now()), d, id, part, refreshes, a)
                                else old(registry.Now())
      ensures registry.Valid() && Reached(w, registry.Now(), calls)
      ensures AllAllowed(w, calls) <==>
              AllAllowed(w, calls0) && (ok && refreshes ==> old(SameUuid(registry.Now(), id, a.uuid(id))))
      ensures registry.diskMap == old(registry.diskMap)
      ensures OwnersOf(registry.Now())
              == if ok then Insert(old(OwnersOf(registry.Now())), id, Owner(d, part)) else old(OwnersOf(registry.Now()))
    {
      hide Reached, AllAllowed, OwnersOf, Insert, SameUuid, Sound, Committed, Volumes.Refresh, PrepareCalls;
      PrepareCallsAre(d, id, part, a, calls0);
      CreatedSameUuid(registry.Now(), id, d, part, a.uuid(id));
      ok, calls := CreateAndSetupVolume(d, id, part, a, w, calls0);
      if ok && refreshes {
        calls := Refresh(id, a.uuid(id), a.fsType(id), w, calls);
      }
    }

    /** A MOUNTED volume is left alone; any other is created if need be, given its metadata, and mounted. */
    method DiscoverSinglePartitionVolume(d: string, id: string, part: nat, userData: bool, partitioning: bool,
                                         a: Answers, ghost w: World, ghost calls0: seq<Call>)
      returns (ghost calls: seq<Call>)
      requires registry.Valid() && Reached(w, registry.Now(), calls0)
      modifies registry, registry.store
      ensures calls == calls0 + PartitionCalls(old(registry.Now()), d, id, part, userData, partitioning, a,
                                               old(registry.store.Model()))
      ensures registry.Valid() && Reached(w, registry.Now(), calls)
      ensures AllAllowed(w, calls) <==> AllAllowed(w, calls0)
      ensures registry.diskMap == old(registry.diskMap)
      ensures a.createNode(id) == 0 && d in registry.diskMap ==>
                OwnersOf(registry.Now()) == Insert(old(OwnersOf(registry.Now())), id, Owner(d, part))
    {
      hide Reached, AllAllowed, SameUuid, SettleCalls, FormatCalls, Sound, Committed, PartitionCalls, PrepareCalls,
        Prepared, OwnersOf, IsUuidValid;
      ghost var w0, s := registry.Now(), registry.store.Model();
      PartitionCallsAre(w0, d, id, part, userData, partitioning, a, s, calls0);
      calls := calls0;
      if id in registry.volumeMap && registry.volumeMap[id].state == Mounted {
        AlreadyOwned(w0, id, Owner(d, part));
        return;
      }
      NotMountedSameUuid(w0, id, a.uuid(id));
      var metaErr := a.metaErr(id);
      var ok;
      ok, calls := PrepareDiscoveredVolume(d, id, part, metaErr == 0 && IsUuidValid(a.uuid(id)), a, w, calls);
      if !ok {
        return;
      }
      if partitioning {
        calls := FormatDiscoveredVolume(id, a, w, calls);
        return;
      }
      calls := SettleDiscoveredVolume(id, userData, a.uuid(id), a.fsType(id), metaErr, a, w, calls);
    }

    /**
     * The volume of a disk without partitions. Its metadata is refreshed in any state, so the run is
     * one the mount-table theorems cover exactly if that gives no MOUNTED volume another UUID.
     */
    method DiscoverWholeDiskVolume(d: string, id: string, partitioning: bool, a: Answers, ghost w: World,
                                   ghost calls0: seq<Call>)
      returns (ghost calls: seq<Call>)
      requires registry.Valid() && Reached(w, registry.Now(), calls0)
      modifies registry, registry.store
      ensures calls == calls0 + WholeDiskCalls(old(registry.Now()), d, id, partitioning, a, old(registry.store.Model()))
      ensures registry.Valid() && Reached(w, registry.Now(), calls)
      ensures var refreshes := !partitioning && a.wholeDiskErr == 0 && a.createNode(id) == 0 && d in registry.diskMap;
              AllAllowed(w, calls) <==>
              AllAllowed(w, calls0) && (refreshes ==> old(SameUuid(registry.Now(), id, a.uuid(id))))
      ensures registry.diskMap == old(registry.diskMap)
      ensures NodesWork(a) && d in registry.diskMap ==>
                OwnersOf(registry.Now())
                == var o := old(OwnersOf(registry.Now()));
                   if partitioning || a.wholeDiskErr == 0 then Insert(o, id, Owner(d, 0)) else o
    {
      hide Reached, AllAllowed, OwnersOf, Insert, SameUuid, SettleCalls, FormatCalls, Sound, Committed, WholeDiskCalls,
        PrepareCalls, Prepared;
      ghost var w0, s := registry.Now(), registry.store.Model();
      WholeDiskCallsAre(w0, d, id, partitioning, a, s, calls0);
      calls := calls0;
      if !partitioning && a.wholeDiskErr != 0 {
        return;
      }
      var ok;
      ok, calls := PrepareDiscoveredVolume(d, id, 0, !partitioning, a, w, calls);
      if !ok {
        return;
      }
      if partitioning {
        calls := FormatDiscoveredVolume(id, a, w, calls);
        return;
      }
      calls := SettleDiscoveredVolume(id, false, a.uuid(id), a.fsType(id), 0, a, w, calls);
    }

    // ---------- removal ----------

    method DestroyPartition(d: string, part: nat, a: Answers,
                            ghost w: World, ghost calls0: seq<Call>, ghost whole: string)
      returns (ghost calls: seq<Call>)
      requires registry.Valid() && Reached(w, registry.Now(), calls0)
      modifies registry, registry.store
      ensures registry.Valid() && Reached(w, registry.Now(), calls)
      ensures AllAllowed(w, calls) <==> AllAllowed(w, calls0)
      ensures registry.diskMap == old(registry.diskMap)
      ensures old(NotMounted(registry.Now(), whole)) ==> NotMounted(registry.Now(), whole)
      ensures Shrinks(old(registry.Now()), registry.Now())
      ensures a.destroyPart(part).node == 0 && part >= 1 && d in registry.diskMap && OneOwner(old(Now()).owners) ==>
                OwnersOf(registry.Now()) == Without(old(OwnersOf(registry.Now())), Owner(d, part))
    {
      hide Reached, AllAllowed, Destroy, Without, OneOwner, OwnersOf, NotMounted, HasPart, Shrinks;
      calls := calls0;
      ghost var w1 := registry.Now();
      ShrinksSelf(w1, w1);
      var r := a.destroyPart(part);
      ghost var id;
      var ignored;
      ignored, id := registry.DestroyVolumeByDiskIdAndPartNum(d, part, r);
      if d in w1.disks && HasPart(w1, d, part) {
        PartDestroyed(w1, id, r, whole);
        RemovalShrinks(w1, id, r);
        DestroyReached(w, w1, calls0, id, r);
        calls := calls0 + [DestroyCall(id, r)];
      } else if d in w1.disks {
        PartAbsent(w1, d, part);
      }
    }

    method DestroyRemoved(d: string, recs: seq<PartitionRecord>, a: Answers,
                          ghost w: World, ghost calls0: seq<Call>, ghost whole: string)
      returns (ghost calls: seq<Call>)
      requires registry.Valid() && Reached(w, registry.Now(), calls0)
      modifies registry, registry.store
      ensures registry.Valid() && Reached(w, registry.Now(), calls)
      ensures AllAllowed(w, calls) <==> AllAllowed(w, calls0)
      ensures registry.diskMap == old(registry.diskMap)
      ensures old(NotMounted(registry.Now(), whole)) ==> NotMounted(registry.Now(), whole)
      ensures Shrinks(old(registry.Now()), registry.Now())
      ensures NodesWork(a) && Numbered(recs) && d in registry.diskMap && old(OneOwner(OwnersOf(registry.Now()))) ==>
                OwnersOf(registry.Now()) == DestroyEach(old(OwnersOf(registry.Now())), d, recs)
    {
      hide Reached, AllAllowed, Without, OneOwner, OwnersOf, DestroyEach, CreateEach, NotMounted, Shrinks;
      calls := calls0;
      ghost var w0, o := registry.Now(), OwnersOf(registry.Now());
      ShrinksSelf(w0, w0);
      DestroyNone(o, d, recs);
      for i := 0 to |recs|
        invariant registry.Valid() && Reached(w, registry.Now(), calls)
        invariant AllAllowed(w, calls) <==> AllAllowed(w, calls0)
        invariant registry.diskMap == old(registry.diskMap)
        invariant old(NotMounted(registry.Now(), whole)) ==> NotMounted(registry.Now(), whole)
        invariant Shrinks(w0, registry.Now())
        invariant NodesWork(a) && Numbered(recs) && d in registry.diskMap && OneOwner(o) ==>
                    OwnersOf(registry.Now()) == DestroyEach(o, d, recs[..i])
      {
        EachNext(o, d, recs, i, n => "");
        if OneOwner(o) {
          DestroyKeepsStep(o, d, recs[..i]);
        }
        ghost var w1 := registry.Now();
        calls := DestroyPartition(d, recs[i].number, a, w, calls, whole);
        ShrinksMore(w0, w1, registry.Now());
      }
      assert recs[..|recs|] == recs;
    }

    /** One partition of a list, those before it done. */
    method DiscoverNext(d: string, recs: seq<PartitionRecord>, i: nat, name: nat -> string, userData: bool,
                        partitioning: bool, a: Answers, ghost w: World, ghost calls0: seq<Call>)
      returns (ghost calls: seq<Call>)
      requires registry.Valid() && Reached(w, registry.Now(), calls0) && i < |recs|
      modifies registry, registry.store
      ensures registry.Valid() && Reached(w, registry.Now(), calls)
      ensures AllAllowed(w, calls) <==> AllAllowed(w, calls0)
      ensures registry.diskMap == old(registry.diskMap)
      ensures NodesWork(a) && d in registry.diskMap ==>
                OwnersOf(registry.Now())
                == Insert(old(OwnersOf(registry.Now())), name(recs[i].number), Owner(d, recs[i].number))
      ensures var x := Visit(d, name, partitioning, a);
              Usable(registry.diskMap, x) && Welcome(old(registry.Now()), x, recs[i..])
              && AllDone(old(registry.Now()), x, recs[..i]) ==>
                Welcome(registry.Now(), x, recs[i + 1..]) && AllDone(registry.Now(), x, recs[..i + 1])
    {
      hide Reached, AllAllowed, OwnersOf, Insert, NodesWork, Sound, Committed, Welcome, AllDone, PartitionCalls,
        Ready, GoodFor, SlotMap.WellFormed, Usable, Done;
      var n := recs[i].number;
      NodeWorks(a, name(n));
      ghost var w1, s, x := registry.Now(), registry.store.Model(), Visit(d, name, partitioning, a);
      CommittedOk(s);
      calls := DiscoverSinglePartitionVolume(d, name(n), n, userData, partitioning, a, w, calls0);
      if Usable(registry.diskMap, x) && Welcome(w1, x, recs[i..]) && AllDone(w1, x, recs[..i]) {
        WelcomeNext(w1, x, recs, i);
        PartitionArrives(w, w1, registry.Now(), calls0, x, name(n), n, userData, s);
        WelcomeRest(w1, registry.Now(), x, recs, i);
      }
    }

    /** Every listed partition gets its volume; with good answers it is MOUNTED, or formatted, in the end. */
    method DiscoverAdded(d: string, recs: seq<PartitionRecord>, name: nat -> string, userData: bool, partitioning: bool,
                         a: Answers, ghost w: World, ghost calls0: seq<Call>)
      returns (ghost calls: seq<Call>)
      requires registry.Valid() && Reached(w, registry.Now(), calls0)
      modifies registry, registry.store
      ensures registry.Valid() && Reached(w, registry.Now(), calls)
      ensures AllAllowed(w, calls) <==> AllAllowed(w, calls0)
      ensures registry.diskMap == old(registry.diskMap)
      ensures recs == [] ==> registry.Now() == old(registry.Now())
      ensures NodesWork(a) && d in registry.diskMap ==>
                OwnersOf(registry.Now()) == CreateEach(old(OwnersOf(registry.Now())), d, recs, name)
      ensures var x := Visit(d, name, partitioning, a);
              Usable(registry.diskMap, x) && Welcome(old(registry.Now()), x, recs) ==> AllDone(registry.Now(), x, recs)
    {
      hide Reached, AllAllowed, OwnersOf, DestroyEach, CreateEach, Insert, NodesWork, Sound, Committed, Welcome,
        AllDone, Usable;
      calls := calls0;
      ghost var w0, o, x := registry.Now(), OwnersOf(registry.Now()), Visit(d, name, partitioning, a);
      CreateNone(o, d, recs, name);
      WelcomeEnds(w0, x, recs);
      if recs == [] {
        return;
      }
      for i := 0 to |recs|
        invariant registry.Valid() && Reached(w, registry.Now(), calls)
        invariant AllAllowed(w, calls) <==> AllAllowed(w, calls0)
        invariant registry.diskMap == old(registry.diskMap)
        invariant NodesWork(a) && d in registry.diskMap ==>
                    OwnersOf(registry.Now()) == CreateEach(o, d, recs[..i], name)
        invariant Usable(registry.diskMap, x) && Welcome(w0, x, recs) ==>
                    Welcome(registry.Now(), x, recs[i..]) && AllDone(registry.Now(), x, recs[..i])
      {
        EachNext(o, d, recs, i, name);
        calls := DiscoverNext(d, recs, i, name, userData, partitioning, a, w, calls);
      }
      assert recs[..|recs|] == recs;
    }

    method DestroyALLVolume(d: string, a: Answers, ghost w: World, ghost calls0: seq<Call>)
      returns (ghost calls: seq<Call>)
      requires registry.Valid() && Reached(w, registry.Now(), calls0)
      modifies registry, registry.store
      ensures registry.Valid() && Reached(w, registry.Now(), calls)
      ensures AllAllowed(w, calls) <==> AllAllowed(w, calls0)
      ensures registry.diskMap == old(registry.diskMap)
      ensures NodesWork(a) ==> OwnersOf(registry.Now()) == WithoutDisk(old(OwnersOf(registry.Now())), d)
    {
      hide Reached, AllAllowed, OwnersOf, Destroy, Remaining, WithoutDisk;
      calls := calls0;
      ghost var o := OwnersOf(registry.Now());
      OwnersAre(registry.Now());
      RemainingEnds(o, d);
      var rest := registry.volumeMap.Keys;
      while rest != {}
        invariant registry.Valid() && Reached(w, registry.Now(), calls)
        invariant AllAllowed(w, calls) <==> AllAllowed(w, calls0)
        invariant registry.diskMap == old(registry.diskMap) && rest <= o.Keys
        invariant NodesWork(a) ==> OwnersOf(registry.Now()) == Remaining(o, rest, d)
        decreases rest
      {
        var id :| id in rest;
        ghost var w1 := registry.Now();
        OwnersAre(w1);
        RemainingNext(o, rest, id, d);
        if id in registry.volumeMap && registry.volumeMap[id].diskId == d {
          calls := DestroyOne(id, a, w, calls);
        }
        rest := rest - {id};
      }
    }

    method DestroyOne(id: string, a: Answers, ghost w: World, ghost calls0: seq<Call>) returns (ghost calls: seq<Call>)
      requires registry.Valid() && id in registry.volumeMap && Reached(w, registry.Now(), calls0)
      modifies registry, registry.store
      ensures registry.Valid() && Reached(w, registry.Now(), calls)
      ensures AllAllowed(w, calls) <==> AllAllowed(w, calls0)
      ensures registry.diskMap == old(registry.diskMap)
      ensures NodesWork(a) ==> OwnersOf(registry.Now()) == old(OwnersOf(registry.Now())) - {id}
    {
      hide Reached, AllAllowed, OwnersOf, Destroy;
      ghost var w1 := registry.Now();
      OwnersDestroyed(w1, id, a.destroyVolume(id));
      var ignored := registry.DestroyVolume(id, a.destroyVolume(id));
      DestroyReached(w, w1, calls0, id, a.destroyVolume(id));
      calls := calls0 + [DestroyCall(id, a.destroyVolume(id))];
    }

    // ---------- uevents ----------

    method UpsertDisk(d: string, kind: DiskKind, publishNew: bool, ghost w: World, ghost calls0: seq<Call>)
      returns (ghost calls: seq<Call>)
      requires registry.Valid() && Reached(w, registry.Now(), calls0)
      modifies registry, registry.store
      ensures registry.Valid() && Reached(w, registry.Now(), calls)
      ensures AllAllowed(w, calls) <==> AllAllowed(w, calls0)
      ensures OwnersOf(registry.Now()) == old(OwnersOf(registry.Now())) && registry.volumeMap == old(registry.volumeMap)
      ensures registry.diskMap
              == if publishNew && d !in old(registry.diskMap) then old(registry.diskMap)[d := kind]
                 else old(registry.diskMap)
    {
      hide Reached, AllAllowed, OwnersOf;
      calls := calls0;
      if publishNew {
        ghost var w1 := registry.Now();
        DiskReached(w, w1, calls0, d, kind);
        var ignored := registry.OnDiskCreated(d, kind);
        calls := calls0 + [AddDisk(d, kind)];
        assert registry.Now() == Do(w1, AddDisk(d, kind));
      }
    }

    /** The whole-disk volume, which with good answers is MOUNTED, or formatted, in the end. */
    method DiscoverUnpartitioned(d: string, name: nat -> string, partitioning: bool, a: Answers, ghost w: World,
                                 ghost calls0: seq<Call>)
      returns (ghost calls: seq<Call>)
      requires registry.Valid() && Reached(w, registry.Now(), calls0) && d in registry.diskMap
      modifies registry, registry.store
      ensures registry.Valid() && Reached(w, registry.Now(), calls)
      ensures AllAllowed(w, calls0) && (!partitioning ==> old(SameUuid(registry.Now(), name(0), a.uuid(name(0))))) ==>
                AllAllowed(w, calls)
      ensures registry.diskMap == old(registry.diskMap)
      ensures NodesWork(a) ==>
                OwnersOf(registry.Now())
                == var o := old(OwnersOf(registry.Now()));
                   if partitioning || a.wholeDiskErr == 0 then Insert(o, name(0), Owner(d, 0)) else o
      ensures var x := Visit(d, name, partitioning, a);
              Usable(registry.diskMap, x) && WholeDiskWelcome(old(registry.Now()), x) ==>
                Done(registry.Now(), x, name(0))
    {
      hide Reached, AllAllowed, OwnersOf, Insert, SameUuid, NodesWork, WholeDiskCalls, Sound, Committed, Done, Ready,
        GoodFor, SlotMap.WellFormed, Usable;
      ghost var w1, s, x := registry.Now(), registry.store.Model(), Visit(d, name, partitioning, a);
      CommittedOk(s);
      calls := DiscoverWholeDiskVolume(d, name(0), partitioning, a, w, calls0);
      if Usable(registry.diskMap, x) && WholeDiskWelcome(w1, x) {
        WholeDiskArrives(w, w1, registry.Now(), calls0, x, name(0), s);
      }
    }

    method DiscoverTable(d: string, parts: seq<PartitionRecord>, name: nat -> string, userData: bool,
                         partitioning: bool, publishNew: bool, a: Answers, ghost w: World, ghost calls0: seq<Call>)
      returns (ghost calls: seq<Call>)
      requires registry.Valid() && Reached(w, registry.Now(), calls0) && d in registry.diskMap
      modifies this`snapshots, registry, registry.store
      ensures registry.Valid() && Reached(w, registry.Now(), calls)
      ensures AllAllowed(w, calls0) && (parts != [] || partitioning || old(NotMounted(registry.Now(), name(0)))) ==>
                AllAllowed(w, calls)
      ensures registry.diskMap == old(registry.diskMap) && snapshots == old(snapshots)[d := parts]
      ensures NodesWork(a) && OneOwner(old(Now()).owners) && Numbered(Known(old(Now()), d)) ==>
                var whole := partitioning || a.wholeDiskErr == 0;
                OwnersOf(registry.Now()) == DiscoveredOwners(old(Now()), d, parts, name, whole, publishNew)
      ensures var x := Visit(d, name, partitioning, a);
              Usable(registry.diskMap, x) ==>
                Arrives(old(registry.Now()), registry.Now(), x, Known(old(Now()), d), parts, publishNew, false)
    {
      hide Reached, AllAllowed, OwnersOf, Missing, CreateEach, DestroyEach, Insert, NotMounted, OneOwner, Known,
        NodesWork, Numbered, SameUuid, Welcome, WholeDiskWelcome, AllDone, Done, Arrives, Sound, Committed,
        Shrinks, Usable;
      ghost var w0, known, x := registry.Now(), Known(Now(), d), Visit(d, name, partitioning, a);
      MissingFromNothing(known);
      if Numbered(known) {
        AddedNumbers(known, parts);
      }
      var added, removed := ComputePartitionDiff(d, parts);
      calls := DestroyRemoved(d, removed, a, w, calls0, name(0));
      StillWelcome(w0, registry.Now(), x, added);
      WholeDiskStillWelcome(w0, registry.Now(), x);
      calls := DiscoverAdded(d, added, name, userData, partitioning, a, w, calls);
      if parts == [] && (publishNew || removed != []) {
        NotMountedMayRefresh(registry.Now(), name(0), a.uuid(name(0)));
        calls := DiscoverUnpartitioned(d, name, partitioning, a, w, calls);
      }
      if Usable(registry.diskMap, x) {
        ArrivesIs(w0, registry.Now(), x, known, parts, publishNew);
      }
    }

    /**
     * The partitions of a data disk that is being partitioned all get their volume and are formatted;
     * any other disk is brought in step with its table.
     */
    method DiscoverRegistered(d: string, parts: seq<PartitionRecord>, name: nat -> string, userData: bool,
                              partitioning: bool, publishNew: bool, a: Answers, ghost w: World, ghost calls0: seq<Call>)
      returns (ghost calls: seq<Call>)
      requires registry.Valid() && Reached(w, registry.Now(), calls0) && d in registry.diskMap
      modifies this`snapshots, registry, registry.store
      ensures registry.Valid() && Reached(w, registry.Now(), calls)
      ensures AllAllowed(w, calls0) && (parts != [] || partitioning || old(NotMounted(registry.Now(), name(0)))) ==>
                AllAllowed(w, calls)
      ensures registry.diskMap == old(registry.diskMap)
      ensures NodesWork(a) && OneOwner(old(Now()).owners) && Numbered(Known(old(Now()), d)) ==>
                Now() == Registered(old(Now()), d, parts, name, partitioning || a.wholeDiskErr == 0, publishNew,
                                    partitioning && IsInternalDataDisk(registry.diskMap, d))
      ensures var x := Visit(d, name, partitioning, a);
              Usable(registry.diskMap, x) ==>
                Arrives(old(registry.Now()), registry.Now(), x, Known(old(Now()), d), parts, publishNew,
                        partitioning && IsInternalDataDisk(registry.diskMap, d))
    {
      hide Reached, AllAllowed, OwnersOf, CreateEach, DiscoveredOwners, NotMounted, OneOwner, Known, NodesWork,
        Numbered, Sound, Committed, Arrives, Usable, Welcome, AllDone;
      if partitioning && IsInternalDataDisk(registry.diskMap, d) {
        ghost var w0, known, x := registry.Now(), Known(Now(), d), Visit(d, name, partitioning, a);
        calls := DiscoverAdded(d, parts, name, userData, partitioning, a, w, calls0);
        if Usable(registry.diskMap, x) {
          ArrivesDirectly(w0, registry.Now(), x, known, parts, publishNew);
        }
      } else {
        calls := DiscoverTable(d, parts, name, userData, partitioning, publishNew, a, w, calls0);
      }
    }

    /** The disk is registered if it is new, and then its partitions are. */
    method DiscoverReadTable(d: string, kind: DiskKind, parts: seq<PartitionRecord>, name: nat -> string,
                             userData: bool, partitioning: bool, publishNew: bool, a: Answers)
      returns (ghost calls: seq<Call>)
      requires registry.Valid() && publishNew == (d !in registry.diskMap)
      modifies this`snapshots, registry, registry.store
      ensures registry.Valid() && Reached(old(registry.Now()), registry.Now(), calls)
      ensures parts != [] || partitioning || old(NotMounted(registry.Now(), name(0))) ==>
                AllAllowed(old(registry.Now()), calls)
      ensures NodesWork(a) && InStep(old(Now())) ==>
                Now() == Sighted(old(Now()), d, Read(parts), name, partitioning || a.wholeDiskErr == 0,
                                 partitioning && old(IsDataDisk(registry.diskMap, d, kind)))
      ensures !(partitioning && old(KindOf(registry.diskMap, d, kind)) == Cd) ==>
                Arrives(old(registry.Now()), registry.Now(), Visit(d, name, partitioning, a), Known(old(Now()), d),
                        parts, publishNew, partitioning && old(IsDataDisk(registry.diskMap, d, kind)))
    {
      hide Reached, AllAllowed, OwnersOf, NotMounted, OneOwner, Known, NodesWork, Numbered, Registered, InStep, Sighted,
        Sound, Committed, IsDataDisk, IsInternalDataDisk, Arrives, Usable, KindOf;
      DataDiskNow(registry.diskMap, d, kind);
      ghost var w, t, whole := registry.Now(), Now(), partitioning || a.wholeDiskErr == 0;
      ReachedSelf(w);
      if InStep(t) {
        KnownIsNumbered(t, d);
      }
      calls := UpsertDisk(d, kind, publishNew, w, []);
      KnownSame(t, Now(), d);
      SightedIs(t, Now(), d, parts, name, whole, partitioning && IsInternalDataDisk(registry.diskMap, d));
      SameVolumesNotMounted(w, registry.Now(), name(0));
      ghost var w1 := registry.Now();
      calls := DiscoverRegistered(d, parts, name, userData, partitioning, publishNew, a, w, calls);
      ghost var x := Visit(d, name, partitioning, a);
      UsableNow(w.disks, w1.disks, kind, x);
      if Usable(registry.diskMap, x) {
        ArrivesFrom(w, w1, registry.Now(), x, Known(t, d), parts, publishNew,
                    partitioning && IsInternalDataDisk(registry.diskMap, d));
      }
    }

    method AbandonDisk(d: string, a: Answers) returns (ghost calls: seq<Call>)
      requires registry.Valid()
      modifies this`snapshots, registry, registry.store
      ensures registry.Valid() && Reached(old(registry.Now()), registry.Now(), calls)
      ensures AllAllowed(old(registry.Now()), calls)
      ensures NodesWork(a) ==>
                Now() == old(Now()).(owners := WithoutDisk(old(Now()).owners, d), snapshots := old(snapshots) - {d})
    {
      hide Reached, AllAllowed, OwnersOf, WithoutDisk, NodesWork;
      ReachedSelf(registry.Now());
      calls := DestroyALLVolume(d, a, registry.Now(), []);
      snapshots := snapshots - {d};
    }

    method DiscoverPartitionsAndVolumes(d: string, kind: DiskKind, table: Table, name: nat -> string, userData: bool,
                                        partitioning: bool, publishNew: bool, a: Answers)
      returns (ghost calls: seq<Call>)
      requires registry.Valid() && publishNew == (d !in registry.diskMap)
      modifies this`snapshots, registry, registry.store
      ensures registry.Valid() && Reached(old(registry.Now()), registry.Now(), calls)
      ensures table != Read([]) || partitioning || old(NotMounted(registry.Now(), name(0))) ==>
                AllAllowed(old(registry.Now()), calls)
      ensures NodesWork(a) && InStep(old(Now())) ==>
                Now() == Sighted(old(Now()), d, table, name, partitioning || a.wholeDiskErr == 0,
                                 partitioning && old(IsDataDisk(registry.diskMap, d, kind)))
      ensures table.Read? && !(partitioning && old(KindOf(registry.diskMap, d, kind)) == Cd) ==>
                Arrives(old(registry.Now()), registry.Now(), Visit(d, name, partitioning, a), Known(old(Now()), d),
                        table.parts, publishNew,
                        partitioning && old(IsDataDisk(registry.diskMap, d, kind)))
    {
      hide Reached, AllAllowed, OwnersOf, NotMounted, NodesWork, WithoutDisk, InStep, Sighted, IsDataDisk, Sound,
        Committed, Arrives, KindOf;
      ReachedSelf(registry.Now());
      SightedWithoutTable(Now(), d, name, partitioning || a.wholeDiskErr == 0,
                          partitioning && IsDataDisk(registry.diskMap, d, kind));
      match table
      case ValidNode =>
        calls := UpsertDisk(d, kind, publishNew, registry.Now(), []);
      case Failed =>
        calls := [];
        if !publishNew {
          calls := AbandonDisk(d, a);
        }
      case Read(parts) =>
        calls := DiscoverReadTable(d, kind, parts, name, userData, partitioning, publishNew, a);
    }

    method HandleDiskAdd(d: string, kind: DiskKind, table: Table, name: nat -> string, userData: bool,
                         partitioning: bool, a: Answers)
      returns (ghost calls: seq<Call>)
      requires registry.Valid()
      modifies this`snapshots, registry, registry.store
      ensures registry.Valid() && Reached(old(registry.Now()), registry.Now(), calls)
      ensures table != Read([]) || partitioning || old(NotMounted(registry.Now(), name(0))) ==>
                AllAllowed(old(registry.Now()), calls)
      ensures NodesWork(a) && InStep(old(Now())) ==>
                Now() == Sighted(old(Now()), d, table, name, partitioning || a.wholeDiskErr == 0,
                                 partitioning && old(IsDataDisk(registry.diskMap, d, kind)))
      ensures table.Read? && !(partitioning && old(KindOf(registry.diskMap, d, kind)) == Cd) ==>
                Arrives(old(registry.Now()), registry.Now(), Visit(d, name, partitioning, a), Known(old(Now()), d),
                        table.parts, d !in old(registry.diskMap),
                        partitioning && old(IsDataDisk(registry.diskMap, d, kind)))
    {
      hide Reached, AllAllowed, OwnersOf, NotMounted, NodesWork, InStep, Sighted, Sound, Committed, Arrives;
      var publishNew := d !in registry.diskMap;
      calls := DiscoverPartitionsAndVolumes(d, kind, table, name, userData, partitioning, publishNew, a);
    }

    /** A known data disk that is being partitioned is left alone; otherwise as for an added disk. */
    method HandleDiskChange(d: string, kind: DiskKind, table: Table, name: nat -> string, userData: bool,
                            partitioning: bool, a: Answers)
      returns (ghost calls: seq<Call>)
      requires registry.Valid()
      modifies this`snapshots, registry, registry.store
      ensures registry.Valid() && Reached(old(registry.Now()), registry.Now(), calls)
      ensures table != Read([]) || partitioning || old(NotMounted(registry.Now(), name(0))) ==>
                AllAllowed(old(registry.Now()), calls)
      ensures partitioning && old(IsInternalDataDisk(registry.diskMap, d)) ==> Now() == old(Now())
      ensures !(partitioning && old(IsInternalDataDisk(registry.diskMap, d))) && NodesWork(a) && InStep(old(Now())) ==>
                Now() == Sighted(old(Now()), d, table, name, partitioning || a.wholeDiskErr == 0,
                                 partitioning && old(IsDataDisk(registry.diskMap, d, kind)))
      ensures table.Read? && !(partitioning && old(KindOf(registry.diskMap, d, kind)) == Cd)
              && !(partitioning && old(IsInternalDataDisk(registry.diskMap, d))) ==>
                Arrives(old(registry.Now()), registry.Now(), Visit(d, name, partitioning, a), Known(old(Now()), d),
                        table.parts, d !in old(registry.diskMap),
                        partitioning && old(IsDataDisk(registry.diskMap, d, kind)))
    {
      hide Reached, AllAllowed, OwnersOf, NotMounted, NodesWork, InStep, Sighted, Sound, Committed, Arrives;
      if partitioning && IsInternalDataDisk(registry.diskMap, d) {
        ReachedSelf(registry.Now());
        return [];
      }
      var publishNew := d !in registry.diskMap;
      calls := DiscoverPartitionsAndVolumes(d, kind, table, name, userData, partitioning, publishNew, a);
    }

    method HandleDiskRemove(d: string, a: Answers) returns (ok: bool, ghost calls: seq<Call>)
      requires registry.Valid()
      modifies this`snapshots, registry, registry.store
      ensures registry.Valid() && Reached(old(registry.Now()), registry.Now(), calls)
      ensures AllAllowed(old(registry.Now()), calls)
      ensures NodesWork(a) ==> ok && Now() == Step(old(Now()), Gone(d))
    {
      hide Reached, AllAllowed, OwnersOf, WithoutDisk;
      ghost var w := registry.Now();
      ReachedSelf(w);
      calls := DestroyALLVolume(d, a, w, []);
      if a.destroyDisk != 0 {
        return false, calls;
      }
      ghost var w1 := registry.Now();
      DiskReached(w, w1, calls, d, Unknown);
      var ignored := registry.OnDiskDestroyed(d);
      calls := calls + [DropDisk(d)];
      assert registry.Now() == Do(w1, DropDisk(d));
      snapshots := snapshots - {d};
      return true, calls;
    }
  }
}
