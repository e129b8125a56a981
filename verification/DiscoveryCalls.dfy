/**
 * Which registry calls the discovery of one volume makes, and what they come to: with answers in
 * order, the volume ends MOUNTED.
 */
module DiscoveryCalls {
  import opened Maps
  import opened Text
  import opened SlotMap
  import opened Volumes
  import opened VolumeInvariants
  import opened VoldataStore
  import opened RegistrySteps
  import opened VolumeRuns
  import opened MountOutcomes
  import opened FormatOutcomes
  import Discovery
  import opened RegistryOwners
  import StoreModel
  import Dedup

  type PartitionRecord = Discovery.PartitionRecord

  /** What the daemon answers while one uevent is handled, by volume id or by partition number. */
  datatype Answers = Answers(
    createNode: string -> int,
    destroyVolume: string -> DestroyReplies,
    destroyPart: nat -> DestroyReplies,
    destroyDisk: int,
    metaErr: string -> int, uuid: string -> string, fsType: string -> string,
    wholeDiskErr: int,
    mount: string -> MountReplies, format: string -> FormatReplies, slots: string -> SlotReplies)

  /** Every device node call succeeds. */
  ghost predicate NodesWork(a: Answers) {
    && (forall id :: a.createNode(id) == 0)
    && (forall id :: a.destroyVolume(id).node == 0)
    && (forall n :: a.destroyPart(n).node == 0)
    && a.destroyDisk == 0
  }

  /** Optical and media-transfer filesystems are never reported as abnormal. */
  predicate IsAbnormalDetectableFsType(fsType: string) {
    fsType !in {"udf", "iso9660", "mtp", "ptp"}
  }

  /** Metadata that cannot be read, is not there, or names a filesystem the service does not know. */
  predicate LooksAbnormal(uuid: string, fsType: string, metaErr: int) {
    && IsAbnormalDetectableFsType(fsType)
    && (metaErr != 0 || uuid == "" || fsType == "" || FsTypeOf(fsType) == "undefined")
  }

  const PARTITION_TARGET_FS_TYPE := "f2fs"

  // ---------- the calls ----------

  /** The mount of a volume with metadata to go by, and its marking if that fails on a type that can be abnormal. */
  ghost function MountCalls(w: World, id: string, userData: bool, uuid: string, fsType: string, r: MountReplies)
    : seq<Call>
    requires Logged(w)
  {
    if fsType == "" || uuid == "" then []
    else if Mount(w, id, r).1 != E_OK && !userData && IsAbnormalDetectableFsType(fsType)
    then [MountCall(id, r)] + [MarkCall(id)]
    else [MountCall(id, r)]
  }

  ghost function FormatCalls(w: World, id: string, a: Answers, s: StoreModel.State): seq<Call> {
    [FormatCall(id, PARTITION_TARGET_FS_TYPE,
                FormatAnswers(w, id, PARTITION_TARGET_FS_TYPE, a.format(id), s, a.slots(id)))]
  }

  /** A volume that looks abnormal is marked, any other is mounted. */
  ghost function SettleCalls(w: World, id: string, userData: bool, metaErr: int, a: Answers, s: StoreModel.State)
    : seq<Call>
    requires Logged(w)
  {
    if !userData && LooksAbnormal(a.uuid(id), a.fsType(id), metaErr) then [MarkCall(id)]
    else MountCalls(w, id, userData, a.uuid(id), a.fsType(id), WithStore(a.mount(id), s, a.slots(id)))
  }

  predicate IsMounted(w: World, id: string) {
    id in w.volumes && w.volumes[id].state == Mounted
  }

  /** The world once the volume has been created and, if `refreshes`, given the metadata read. */
  ghost function Prepared(w: World, d: string, id: string, part: nat, refreshes: bool, a: Answers): (e: World)
    requires Logged(w)
    ensures Logged(e)
  {
    hide Dedup.Resolve, FsTypeOf;
    var w1 := Create(w, id, d, part);
    if refreshes then Refresh(w1, id, a.uuid(id), a.fsType(id)) else w1
  }

  function PrepareCalls(d: string, id: string, part: nat, refreshes: bool, a: Answers): seq<Call> {
    [CreateCall(id, d, part)] + if refreshes then [RefreshCall(id, a.uuid(id), a.fsType(id))] else []
  }

  predicate HasMetadata(id: string, a: Answers) {
    a.metaErr(id) == 0 && IsUuidValid(a.uuid(id))
  }

  /**
   * The calls for one partition. A MOUNTED volume, a node that cannot be made and an unknown disk get
   * none; otherwise the volume is created, refreshed if its metadata can be read, and then formatted
   * while its disk is being partitioned, marked if it looks abnormal, and mounted if not.
   */
  ghost function PartitionCalls(w: World, d: string, id: string, part: nat, userData: bool, partitioning: bool,
                                a: Answers, s: StoreModel.State): seq<Call>
    requires Logged(w)
  {
    if IsMounted(w, id) || a.createNode(id) != 0 || d !in w.disks then []
    else
      var w1 := Prepared(w, d, id, part, HasMetadata(id, a), a);
      PrepareCalls(d, id, part, HasMetadata(id, a), a)
      + if partitioning then FormatCalls(w1, id, a, s) else SettleCalls(w1, id, userData, a.metaErr(id), a, s)
  }

  /**
   * The calls for the volume of a whole disk: none if it cannot be read, unless it is being
   * partitioned; otherwise it is created and formatted, or created, refreshed and settled.
   */
  ghost function WholeDiskCalls(w: World, d: string, id: string, partitioning: bool, a: Answers, s: StoreModel.State)
    : seq<Call>
    requires Logged(w)
  {
    if (!partitioning && a.wholeDiskErr != 0) || a.createNode(id) != 0 || d !in w.disks then []
    else
      var w1 := Prepared(w, d, id, 0, !partitioning, a);
      PrepareCalls(d, id, 0, !partitioning, a)
      + if partitioning then FormatCalls(w1, id, a, s) else SettleCalls(w1, id, false, 0, a, s)
  }

  lemma PartitionCallsAre(w: World, d: string, id: string, part: nat, userData: bool, partitioning: bool, a: Answers,
                          s: StoreModel.State, calls: seq<Call>)
    requires Logged(w)
    ensures var all := PartitionCalls(w, d, id, part, userData, partitioning, a, s);
            var w1 := Prepared(w, d, id, part, HasMetadata(id, a), a);
            var first := PrepareCalls(d, id, part, HasMetadata(id, a), a);
            if IsMounted(w, id) || a.createNode(id) != 0 || d !in w.disks then all == [] && calls + all == calls
            else if partitioning then calls + all == calls + first + FormatCalls(w1, id, a, s)
            else calls + all == calls + first + SettleCalls(w1, id, userData, a.metaErr(id), a, s)
  {
    hide Prepared, PrepareCalls, FormatCalls, SettleCalls, HasMetadata;
  }

  lemma WholeDiskCallsAre(w: World, d: string, id: string, partitioning: bool, a: Answers, s: StoreModel.State,
                          calls: seq<Call>)
    requires Logged(w)
    ensures var all := WholeDiskCalls(w, d, id, partitioning, a, s);
            var w1 := Prepared(w, d, id, 0, !partitioning, a);
            var first := PrepareCalls(d, id, 0, !partitioning, a);
            if (!partitioning && a.wholeDiskErr != 0) || a.createNode(id) != 0 || d !in w.disks then
              all == [] && calls + all == calls
            else if partitioning then calls + all == calls + first + FormatCalls(w1, id, a, s)
            else calls + all == calls + first + SettleCalls(w1, id, false, 0, a, s)
  {
    hide Prepared, PrepareCalls, FormatCalls, SettleCalls;
  }

  lemma MountCallsAre(w: World, id: string, userData: bool, uuid: string, fsType: string, r: MountReplies,
                      calls: seq<Call>)
    requires Logged(w)
    ensures var all := MountCalls(w, id, userData, uuid, fsType, r);
            if fsType == "" || uuid == "" then calls + all == calls
            else if Mount(w, id, r).1 != E_OK && !userData && IsAbnormalDetectableFsType(fsType) then
              calls + all == calls + [MountCall(id, r)] + [MarkCall(id)]
            else calls + all == calls + [MountCall(id, r)]
  {
    hide Mount;
  }

  lemma PrepareCallsAre(d: string, id: string, part: nat, a: Answers, calls: seq<Call>)
    ensures calls + PrepareCalls(d, id, part, false, a) == calls + [CreateCall(id, d, part)]
    ensures calls + PrepareCalls(d, id, part, true, a)
            == calls + [CreateCall(id, d, part)] + [RefreshCall(id, a.uuid(id), a.fsType(id))]
  {
    assert [CreateCall(id, d, part)] + [] == [CreateCall(id, d, part)];
  }

  // ---------- runs in parts ----------

  lemma {:induction false} RunInParts(w: World, a: seq<Call>, b: seq<Call>)
    requires Logged(w) && Logged(Run(w, a))
    ensures Run(w, a + b) == Run(Run(w, a), b)
    decreases |a|
  {
    hide Do;
    if a == [] {
      assert a + b == b;
    } else {
      assert (a + b)[1..] == a[1..] + b;
      if Logged(Do(w, a[0])) {
        RunInParts(Do(w, a[0]), a[1..], b);
      }
    }
  }

  lemma ReachedRest(w: World, w1: World, w2: World, a: seq<Call>, b: seq<Call>)
    requires Reached(w, w1, a) && Reached(w, w2, a + b)
    ensures Reached(w1, w2, b)
  {
    hide Run, Logged;
    RunInParts(w, a, b);
  }

  // ---------- what they come to ----------

  /** One uevent on a disk: how its partitions are named, whether it is being partitioned, and the answers. */
  datatype Visit = Visit(d: string, name: nat -> string, partitioning: bool, a: Answers)

  /** Answers with which a volume is mounted, or formatted while its disk is being partitioned. */
  predicate GoodFor(x: Visit, id: string) {
    && x.a.createNode(id) == 0
    && if x.partitioning then x.a.format(id).format == 0 && IsUuidValid(x.a.format(id).metaUuid)
       else
         && HasMetadata(id, x.a) && |x.a.uuid(id)| <= UUID_MAX_LEN && FsTypeOf(x.a.fsType(id)) != "undefined"
         && (var r := x.a.mount(id);
             && !r.disabled && !r.edmIntercepts && r.check == 0 && r.fuseMount == 0 && r.fuseNotify == 0
             && r.mount == 0)
         && AsSave(x.a.slots(id).load).mainOk && AsSave(x.a.slots(id).save).mainOk
  }

  /** The volume does not exist yet, or is in a state to mount or to format; or it is MOUNTED and need not be. */
  predicate Ready(w: World, x: Visit, id: string) {
    id in w.volumes ==>
      var v := w.volumes[id];
      if x.partitioning then v.diskId == x.d && v.state in {Unmounted, FormatFinishFail, Damaged}
      else v.state in {Unmounted, Decrypting, FormatFinishFail, Mounted}
  }

  /** What discovery is for: a MOUNTED volume, or while its disk is being partitioned one formatted as f2fs. */
  predicate Done(w: World, x: Visit, id: string) {
    && id in w.volumes
    && var v := w.volumes[id];
       if x.partitioning then v.diskId == x.d && v.state == Unmounted && v.fsType == PARTITION_TARGET_FS_TYPE
       else v.state == Mounted
  }

  /** The disk is registered, and can be formatted if that is what is done. */
  predicate Usable(disks: map<string, DiskKind>, x: Visit) {
    x.d in disks && (x.partitioning ==> disks[x.d] != Cd)
  }

  predicate OnlyTouches(w: World, e: World, id: string) {
    id in e.volumes && e.volumes == w.volumes[id := e.volumes[id]]
  }

  lemma CreatedIs(w: World, x: Visit, id: string, part: nat)
    requires Logged(w)
    ensures var e := Create(w, id, x.d, part);
            && Logged(e) && OnlyTouches(w, e, id) && e.side == w.side && e.disks == w.disks
            && |e.volumes| <= |w.volumes| + 1 && (Ready(w, x, id) ==> Ready(e, x, id))
  {
    MoreVolumes(w.volumes, id, Create(w, id, x.d, part).volumes[id]);
    assert id in w.volumes ==> w.volumes[id := w.volumes[id]] == w.volumes;
  }

  lemma RefreshedIs(w: World, x: Visit, id: string, uuid: string, fsType: string)
    requires Logged(w) && id in w.volumes
    ensures var e := Refresh(w, id, uuid, fsType);
            && OnlyTouches(w, e, id) && e.side == w.side && e.disks == w.disks && |e.volumes| == |w.volumes|
            && e.volumes[id].uuid == Dedup.Resolve(Uuids(w.volumes), id, uuid)
            && (Ready(w, x, id) ==> Ready(e, x, id))
  {
    hide Dedup.Resolve, FsTypeOf;
    SameKeyCount(w.volumes, id, Refresh(w, id, uuid, fsType).volumes[id]);
  }

  lemma PreparedIs(w: World, x: Visit, id: string, part: nat, refreshes: bool)
    requires Logged(w)
    ensures var e := Prepared(w, x.d, id, part, refreshes, x.a);
            && OnlyTouches(w, e, id) && e.side == w.side && e.disks == w.disks && |e.volumes| <= |w.volumes| + 1
            && (Ready(w, x, id) ==> Ready(e, x, id))
            && (refreshes && !x.partitioning && GoodFor(x, id) && |w.volumes| + 1 < 10000 ==>
                  IsUuidValid(e.volumes[id].uuid))
  {
    hide Dedup.Resolve, FsTypeOf, IsUuidValid, Create, Refresh, Logged, OnlyTouches, Ready;
    var d, a := x.d, x.a;
    CreatedIs(w, x, id, part);
    var w1 := Create(w, id, d, part);
    TouchedHas(w, w1, id);
    RefreshedIs(w1, x, id, a.uuid(id), a.fsType(id));
    TouchesOnward(w, w1, Refresh(w1, id, a.uuid(id), a.fsType(id)), id);
    TouchedHas(w, Refresh(w1, id, a.uuid(id), a.fsType(id)), id);
    if !x.partitioning && GoodFor(x, id) && |w.volumes| + 1 < 10000 {
      SameCount(w1.volumes);
      Dedup.ResolvedIsValid(Uuids(w1.volumes), id, a.uuid(id));
    }
  }

  lemma TouchedHas(w: World, e: World, id: string)
    requires OnlyTouches(w, e, id)
    ensures id in e.volumes
  {
  }

  lemma TouchesOnward(w: World, w1: World, w2: World, id: string)
    requires OnlyTouches(w, w1, id) && OnlyTouches(w1, w2, id)
    ensures OnlyTouches(w, w2, id)
  {
  }

  lemma MoreVolumes(m: map<string, Volume>, id: string, v: Volume)
    ensures |m[id := v]| <= |m| + 1
  {
    if id in m {
      assert m[id := v].Keys == m.Keys;
    } else {
      assert m[id := v].Keys == m.Keys + {id};
    }
  }

  lemma SameKeyCount(m: map<string, Volume>, id: string, v: Volume)
    requires id in m
    ensures |m[id := v]| == |m|
  {
    assert m[id := v].Keys == m.Keys;
  }

  lemma SameCount(m: map<string, Volume>)
    ensures |Uuids(m)| == |m|
  {
    assert Uuids(m).Keys == m.Keys;
  }

  lemma StoreAnswers(r: MountReplies, s: StoreModel.State, c: SlotReplies)
    requires AsSave(c.load).mainOk && AsSave(c.save).mainOk
    ensures WithStore(r, s, c) == r.(storeReady := true, slotSaved := true, slotUndone := AsSave(c.undo).mainOk)
  {
  }

  /** Settling a volume that has good metadata mounts it; one that is MOUNTED stays so. */
  lemma Settles(w: World, x: Visit, id: string, userData: bool, s: StoreModel.State)
    requires Logged(w) && WellFormed(w.side.slots) && id in w.volumes
    requires !x.partitioning && Ready(w, x, id) && GoodFor(x, id) && IsUuidValid(w.volumes[id].uuid)
    ensures var e := Run(w, SettleCalls(w, id, userData, 0, x.a, s)); Done(e, x, id) && OnlyTouches(w, e, id)
  {
    hide Mount, WellFormed, IsUuidValid, FsTypeOf, WithStore, Run, UsesVoldata, ThroughFuse;
    var a := x.a;
    ValidNotEmpty(a.uuid(id));
    ValidNotEmpty(w.volumes[id].uuid);
    NoType();
    StoreAnswers(a.mount(id), s, a.slots(id));
    var r := WithStore(a.mount(id), s, a.slots(id));
    RunOne(w, MountCall(id, r));
    if w.volumes[id].state == Mounted {
      MountedStays(w, id, r);
    } else {
      MountExactly(w, id, r);
    }
  }

  lemma NoType()
    ensures FsTypeOf("") == "undefined"
  {
  }

  lemma MountedStays(w: World, id: string, r: MountReplies)
    requires Logged(w) && IsMounted(w, id)
    ensures Mount(w, id, r).0 == w && MarkAbnormal(w, id).0 == w
    ensures Run(w, [MountCall(id, r)]) == w && Run(w, [MountCall(id, r)] + [MarkCall(id)]) == w
    ensures w.volumes == w.volumes[id := w.volumes[id]]
  {
    hide Run, MountEntry;
    RunOne(w, MountCall(id, r));
    RunOneMore(w, [MountCall(id, r)], MarkCall(id));
  }

  /** Formatting a volume that can be leaves it UNMOUNTED and f2fs. */
  lemma FormatsToo(w: World, x: Visit, id: string, s: StoreModel.State)
    requires Logged(w) && WellFormed(w.side.slots) && id in w.volumes
    requires x.partitioning && Usable(w.disks, x) && Ready(w, x, id) && GoodFor(x, id)
    ensures var e := Run(w, FormatCalls(w, id, x.a, s)); Done(e, x, id) && OnlyTouches(w, e, id)
  {
    hide Format, WellFormed, IsUuidValid, FormatAnswers, Run, SlotsFollow, Dedup.Resolve;
    var r := FormatAnswers(w, id, PARTITION_TARGET_FS_TYPE, x.a.format(id), s, x.a.slots(id));
    SameFormatAnswers(w, id, x.a.format(id), s, x.a.slots(id));
    RunOne(w, FormatCall(id, PARTITION_TARGET_FS_TYPE, r));
    FormatExactly(w, id, PARTITION_TARGET_FS_TYPE, r);
  }

  lemma SameFormatAnswers(w: World, id: string, r: FormatReplies, s: StoreModel.State, c: SlotReplies)
    ensures var g := FormatAnswers(w, id, PARTITION_TARGET_FS_TYPE, r, s, c);
            g.format == r.format && g.metaUuid == r.metaUuid
  {
    hide StoreModel.Start, UsesVoldata;
  }

  lemma PrepareRuns(w: World, d: string, id: string, part: nat, refreshes: bool, a: Answers)
    requires Logged(w)
    ensures Run(w, PrepareCalls(d, id, part, refreshes, a)) == Prepared(w, d, id, part, refreshes, a)
  {
    hide Run, Dedup.Resolve, FsTypeOf;
    var c := CreateCall(id, d, part);
    RunOne(w, c);
    assert [c] + [] == [c];
    if refreshes {
      RunOneMore(w, [c], RefreshCall(id, a.uuid(id), a.fsType(id)));
    }
  }

  /** A volume that is prepared and then settled or formatted. */
  lemma PreparedIsDone(w: World, x: Visit, id: string, part: nat, refreshes: bool, userData: bool, s: StoreModel.State)
    requires Logged(w) && WellFormed(w.side.slots) && Usable(w.disks, x)
    requires Ready(w, x, id) && GoodFor(x, id) && |w.volumes| + 1 < 10000 && (!x.partitioning ==> refreshes)
    ensures var w1 := Prepared(w, x.d, id, part, refreshes, x.a);
            var last := if x.partitioning then FormatCalls(w1, id, x.a, s)
                        else SettleCalls(w1, id, userData, 0, x.a, s);
            var e := Run(w, PrepareCalls(x.d, id, part, refreshes, x.a) + last);
            Done(e, x, id) && OnlyTouches(w, e, id) && |e.volumes| <= |w.volumes| + 1
  {
    hide Run, SettleCalls, FormatCalls, Prepared, PrepareCalls, WellFormed, GoodFor, Done, Usable, Ready, OnlyTouches;
    var w1 := Prepared(w, x.d, id, part, refreshes, x.a);
    PreparedIs(w, x, id, part, refreshes);
    TouchedHas(w, w1, id);
    PrepareRuns(w, x.d, id, part, refreshes, x.a);
    var last := if x.partitioning then FormatCalls(w1, id, x.a, s) else SettleCalls(w1, id, userData, 0, x.a, s);
    RunInParts(w, PrepareCalls(x.d, id, part, refreshes, x.a), last);
    if x.partitioning {
      FormatsToo(w1, x, id, s);
    } else {
      Settles(w1, x, id, userData, s);
    }
    TouchesOnward(w, w1, Run(w1, last), id);
    TouchedCount(w1, Run(w1, last), id);
  }

  lemma TouchedCount(w: World, e: World, id: string)
    requires id in w.volumes && OnlyTouches(w, e, id)
    ensures |e.volumes| == |w.volumes|
  {
    SameKeyCount(w.volumes, id, e.volumes[id]);
  }

  /**
   * With good answers a partition of a registered disk is MOUNTED in the end, or formatted while the
   * disk is being partitioned, and no other volume is touched.
   */
  lemma PartitionIsDone(w: World, x: Visit, id: string, part: nat, userData: bool, s: StoreModel.State)
    requires Logged(w) && WellFormed(w.side.slots) && Usable(w.disks, x)
    requires Ready(w, x, id) && GoodFor(x, id) && |w.volumes| + 1 < 10000
    ensures var e := Run(w, PartitionCalls(w, x.d, id, part, userData, x.partitioning, x.a, s));
            Done(e, x, id) && OnlyTouches(w, e, id) && |e.volumes| <= |w.volumes| + 1
  {
    hide Run, SettleCalls, FormatCalls, Prepared, PrepareCalls, WellFormed, IsUuidValid, FsTypeOf;
    if IsMounted(w, id) {
      RunNone(w);
      assert w.volumes == w.volumes[id := w.volumes[id]];
    } else {
      PreparedIsDone(w, x, id, part, HasMetadata(id, x.a), userData, s);
    }
  }

  /** So is the volume of a whole disk. */
  lemma WholeDiskIsDone(w: World, x: Visit, id: string, s: StoreModel.State)
    requires Logged(w) && WellFormed(w.side.slots) && Usable(w.disks, x) && (x.partitioning || x.a.wholeDiskErr == 0)
    requires Ready(w, x, id) && GoodFor(x, id) && |w.volumes| + 1 < 10000
    ensures Done(Run(w, WholeDiskCalls(w, x.d, id, x.partitioning, x.a, s)), x, id)
  {
    hide Run, SettleCalls, FormatCalls, Prepared, PrepareCalls, WellFormed, IsUuidValid, FsTypeOf, Done, OnlyTouches;
    PreparedIsDone(w, x, id, 0, !x.partitioning, false, s);
  }

  lemma RunNone(w: World)
    ensures Run(w, []) == w
  {
  }

  /** The same, for registries reached along one run. */
  lemma PartitionArrives(w: World, w1: World, w2: World, calls: seq<Call>, x: Visit, id: string, part: nat,
                         userData: bool, s: StoreModel.State)
    requires Logged(w1) && Reached(w, w1, calls)
    requires Reached(w, w2, calls + PartitionCalls(w1, x.d, id, part, userData, x.partitioning, x.a, s))
    requires WellFormed(w1.side.slots) && Usable(w1.disks, x)
    requires Ready(w1, x, id) && GoodFor(x, id) && |w1.volumes| + 1 < 10000
    ensures Done(w2, x, id) && OnlyTouches(w1, w2, id) && |w2.volumes| <= |w1.volumes| + 1
  {
    hide Run, PartitionCalls, WellFormed, GoodFor, Ready, Logged, Done, OnlyTouches, Usable;
    ReachedRest(w, w1, w2, calls, PartitionCalls(w1, x.d, id, part, userData, x.partitioning, x.a, s));
    PartitionIsDone(w1, x, id, part, userData, s);
  }

  lemma WholeDiskArrives(w: World, w1: World, w2: World, calls: seq<Call>, x: Visit, id: string, s: StoreModel.State)
    requires Logged(w1) && Reached(w, w1, calls)
    requires Reached(w, w2, calls + WholeDiskCalls(w1, x.d, id, x.partitioning, x.a, s))
    requires WellFormed(w1.side.slots) && Usable(w1.disks, x) && (x.partitioning || x.a.wholeDiskErr == 0)
    requires Ready(w1, x, id) && GoodFor(x, id) && |w1.volumes| + 1 < 10000
    ensures Done(w2, x, id)
  {
    hide Run, WholeDiskCalls, WellFormed, GoodFor, Ready, Logged, Done, Usable;
    ReachedRest(w, w1, w2, calls, WholeDiskCalls(w1, x.d, id, x.partitioning, x.a, s));
    WholeDiskIsDone(w1, x, id, s);
  }

  // ---------- what they come to with any answers ----------

  /**
   * The state discovery leaves an UNMOUNTED volume in, outside partitioning and for any answers. A type
   * that is neither optical nor media-transfer is DAMAGED if its metadata cannot be read, is empty or
   * names no known filesystem, and if its mount fails otherwise than by a refused check. The user-data
   * disk is never marked.
   */
  ghost function StateFor(w: World, id: string, userData: bool, uuid: string, fsType: string, metaErr: int,
                          r: MountReplies): VolumeState
    requires id in w.volumes
  {
    var marks := !userData && fsType !in {"udf", "iso9660", "mtp", "ptp"};
    var v := w.volumes[id];
    if marks && (metaErr != 0 || uuid == "" || FsTypeOf(fsType) == "undefined") then Damaged
    else if uuid == "" || fsType == "" || (r.edmIntercepts && !r.disabled) then Unmounted
    else if !r.disabled && Mounts(w, w.side.slots, id, v, r) then Mounted
    else if !r.disabled && Refused(w, v, r) then RepairFinishFail
    else if marks then Damaged else Unmounted
  }

  lemma SettledState(w: World, id: string, userData: bool, metaErr: int, a: Answers, s: StoreModel.State)
    requires Logged(w) && WellFormed(w.side.slots) && id in w.volumes && w.volumes[id].state == Unmounted
    ensures var e := Run(w, SettleCalls(w, id, userData, metaErr, a, s));
            var r := WithStore(a.mount(id), s, a.slots(id));
            && OnlyTouches(w, e, id)
            && e.volumes[id].state == StateFor(w, id, userData, a.uuid(id), a.fsType(id), metaErr, r)
  {
    hide Mount, MarkAbnormal, WellFormed, FsTypeOf, WithStore, Run, Mounts, Refused, OnlyTouches, Elsewhere, IsUp,
      SettleCalls, CheckEvents;
    var r := WithStore(a.mount(id), s, a.slots(id));
    NoType();
    MountExactly(w, id, r);
    var m := Mount(w, id, r).0;
    TouchedLogged(w, m, id);
    MarkedIs(w, w, id);
    MarkedIs(w, m, id);
    SettleRuns(w, id, userData, metaErr, a, s);
  }

  lemma SettleRuns(w: World, id: string, userData: bool, metaErr: int, a: Answers, s: StoreModel.State)
    requires Logged(w)
    requires var r := WithStore(a.mount(id), s, a.slots(id)); Logged(Mount(w, id, r).0)
    ensures var r := WithStore(a.mount(id), s, a.slots(id));
            var (m, err) := Mount(w, id, r);
            var marks := !userData && IsAbnormalDetectableFsType(a.fsType(id));
            Run(w, SettleCalls(w, id, userData, metaErr, a, s))
            == if !userData && LooksAbnormal(a.uuid(id), a.fsType(id), metaErr) then MarkAbnormal(w, id).0
               else if a.fsType(id) == "" || a.uuid(id) == "" then w
               else if err != E_OK && marks then MarkAbnormal(m, id).0 else m
  {
    hide Mount, MarkAbnormal, WithStore, Run, LooksAbnormal, IsAbnormalDetectableFsType, Logged;
    var r := WithStore(a.mount(id), s, a.slots(id));
    RunNone(w);
    RunOne(w, MarkCall(id));
    RunOne(w, MountCall(id, r));
    RunOneMore(w, [MountCall(id, r)], MarkCall(id));
  }

  lemma TouchedLogged(w: World, e: World, id: string)
    requires Logged(w) && Elsewhere(w, e, id)
    ensures Logged(e) && OnlyTouches(w, e, id) && id in e.volumes
    ensures id in w.volumes ==> OnlyTouches(w, w, id)
  {
    assert id in w.volumes ==> w.volumes[id := w.volumes[id]] == w.volumes;
  }

  lemma MarkedIs(w: World, m: World, id: string)
    requires Logged(m) && OnlyTouches(w, m, id)
    ensures var e := MarkAbnormal(m, id).0;
            && OnlyTouches(w, e, id) && id in e.volumes && id in m.volumes
            && e.volumes[id].state == if m.volumes[id].state == Unmounted then Damaged else m.volumes[id].state
  {
  }

  /** A new partition of a registered disk, whatever is answered, ends in that state with no other volume touched. */
  lemma NewPartitionState(w: World, d: string, id: string, part: nat, userData: bool, a: Answers, s: StoreModel.State)
    requires Logged(w) && WellFormed(w.side.slots) && d in w.disks && id !in w.volumes && a.createNode(id) == 0
    ensures var e := Run(w, PartitionCalls(w, d, id, part, userData, false, a, s));
            var w1 := Prepared(w, d, id, part, HasMetadata(id, a), a);
            var r := WithStore(a.mount(id), s, a.slots(id));
            && OnlyTouches(w, e, id) && id in w1.volumes
            && e.volumes[id].state == StateFor(w1, id, userData, a.uuid(id), a.fsType(id), a.metaErr(id), r)
  {
    hide Run, SettleCalls, Prepared, PrepareCalls, WellFormed, HasMetadata, StateFor, OnlyTouches;
    var refreshes := HasMetadata(id, a);
    var w1 := Prepared(w, d, id, part, refreshes, a);
    PreparedNew(w, d, id, part, refreshes, a);
    PrepareRuns(w, d, id, part, refreshes, a);
    var last := SettleCalls(w1, id, userData, a.metaErr(id), a, s);
    RunInParts(w, PrepareCalls(d, id, part, refreshes, a), last);
    SettledState(w1, id, userData, a.metaErr(id), a, s);
    TouchesOnward(w, w1, Run(w1, last), id);
    TouchedHas(w, Run(w1, last), id);
  }

  lemma PreparedNew(w: World, d: string, id: string, part: nat, refreshes: bool, a: Answers)
    requires Logged(w) && id !in w.volumes
    ensures var e := Prepared(w, d, id, part, refreshes, a);
            && OnlyTouches(w, e, id) && id in e.volumes && e.side == w.side && e.volumes[id].state == Unmounted
  {
    hide Dedup.Resolve, FsTypeOf;
  }

  // ---------- a list of partitions ----------

  ghost predicate AllDone(w: World, x: Visit, recs: seq<PartitionRecord>) {
    forall i :: 0 <= i < |recs| ==> Done(w, x, x.name(recs[i].number))
  }

  /** Discovery can do its work for every listed partition, with the answers that will come. */
  ghost predicate Welcome(w: World, x: Visit, recs: seq<PartitionRecord>) {
    && |w.volumes| + |recs| < 10000
    && forall i :: 0 <= i < |recs| ==> Ready(w, x, x.name(recs[i].number)) && GoodFor(x, x.name(recs[i].number))
  }

  /** Nothing becomes unready, and no volume is added. */
  ghost predicate Shrinks(w: World, e: World) {
    |e.volumes| <= |w.volumes| && forall x, id :: Ready(w, x, id) ==> Ready(e, x, id)
  }

  lemma RemovalShrinks(w: World, id: string, r: DestroyReplies)
    requires Logged(w) && id in w.volumes
    ensures Shrinks(w, Destroy(w, id, r))
  {
    hide UnmountAllowed, UnmountPoints;
    SubsetCount(Destroy(w, id, r).volumes.Keys, w.volumes.Keys);
  }

  lemma ShrinksSelf(w: World, e: World)
    requires e.volumes == w.volumes
    ensures Shrinks(w, e)
  {
  }

  lemma ShrinksMore(w: World, w1: World, w2: World)
    requires Shrinks(w, w1) && Shrinks(w1, w2)
    ensures Shrinks(w, w2)
  {
    hide Ready;
  }

  /** The first of the partitions left. */
  lemma WelcomeNext(w: World, x: Visit, recs: seq<PartitionRecord>, i: nat)
    requires i < |recs| && Welcome(w, x, recs[i..])
    ensures var id := x.name(recs[i].number); Ready(w, x, id) && GoodFor(x, id) && |w.volumes| + 1 < 10000
  {
    hide Ready, GoodFor;
    assert recs[i..][0] == recs[i];
  }

  lemma WelcomeEnds(w: World, x: Visit, recs: seq<PartitionRecord>)
    ensures recs[0..] == recs && recs[..|recs|] == recs && AllDone(w, x, recs[..0])
  {
  }

  /** The partitions left once the first is done. */
  lemma WelcomeRest(w: World, e: World, x: Visit, recs: seq<PartitionRecord>, i: nat)
    requires i < |recs| && Welcome(w, x, recs[i..]) && AllDone(w, x, recs[..i])
    requires var id := x.name(recs[i].number); OnlyTouches(w, e, id) && Done(e, x, id)
    requires |e.volumes| <= |w.volumes| + 1
    ensures Welcome(e, x, recs[i + 1..]) && AllDone(e, x, recs[..i + 1])
  {
    hide GoodFor;
    var rest := recs[i + 1..];
    forall j | 0 <= j < |rest| ensures Ready(e, x, x.name(rest[j].number)) && GoodFor(x, x.name(rest[j].number)) {
      assert rest[j] == recs[i..][j + 1];
    }
    assert forall j :: 0 <= j < i ==> recs[..i + 1][j] == recs[..i][j];
  }

  lemma StillWelcome(w: World, e: World, x: Visit, recs: seq<PartitionRecord>)
    requires Shrinks(w, e)
    ensures Welcome(w, x, recs) ==> Welcome(e, x, recs)
  {
    hide Ready, GoodFor;
  }

  /** The volume of a whole disk can be mounted or formatted. */
  predicate WholeDiskWelcome(w: World, x: Visit) {
    var id := x.name(0);
    Ready(w, x, id) && GoodFor(x, id) && (x.partitioning || x.a.wholeDiskErr == 0) && |w.volumes| + 1 < 10000
  }

  lemma WholeDiskStillWelcome(w: World, e: World, x: Visit)
    requires Shrinks(w, e)
    ensures WholeDiskWelcome(w, x) ==> WholeDiskWelcome(e, x)
  {
    hide GoodFor, Ready;
  }

  /**
   * What a discovery comes to. The partitions looked at are those not seen before, or all of them when
   * the comparison with the last table is skipped; if they can all be done, they all are. If there are
   * none, and the disk is new or has lost them, so is its one volume.
   */
  ghost predicate Arrives(w: World, e: World, x: Visit, known: seq<PartitionRecord>, parts: seq<PartitionRecord>,
                          isNew: bool, direct: bool)
  {
    var looked := if direct then parts else Discovery.Missing(parts, known);
    && (Welcome(w, x, looked) ==> AllDone(e, x, looked))
    && (!direct && parts == [] && (isNew || known != []) && WholeDiskWelcome(w, x) ==> Done(e, x, x.name(0)))
  }

  lemma ArrivesIs(w: World, e: World, x: Visit, known: seq<PartitionRecord>, parts: seq<PartitionRecord>, isNew: bool)
    requires var added := Discovery.Missing(parts, known); parts != [] && Welcome(w, x, added) ==> AllDone(e, x, added)
    requires parts == [] && (isNew || known != []) && WholeDiskWelcome(w, x) ==> Done(e, x, x.name(0))
    ensures Arrives(w, e, x, known, parts, isNew, false)
  {
    hide Welcome, WholeDiskWelcome, Done;
    assert parts == [] ==> Discovery.Missing(parts, known) == [];
  }

  lemma ArrivesDirectly(w: World, e: World, x: Visit, known: seq<PartitionRecord>,
                        parts: seq<PartitionRecord>, isNew: bool)
    requires Welcome(w, x, parts) ==> AllDone(e, x, parts)
    ensures Arrives(w, e, x, known, parts, isNew, true)
  {
  }

  lemma ArrivesFrom(w: World, w1: World, e: World, x: Visit, known: seq<PartitionRecord>, parts: seq<PartitionRecord>,
                    isNew: bool, direct: bool)
    requires Arrives(w1, e, x, known, parts, isNew, direct) && w1.volumes == w.volumes
    ensures Arrives(w, e, x, known, parts, isNew, direct)
  {
    hide AllDone, Welcome, WholeDiskWelcome, Done;
    ShrinksSelf(w, w1);
    StillWelcome(w, w1, x, if direct then parts else Discovery.Missing(parts, known));
    WholeDiskStillWelcome(w, w1, x);
  }
}
