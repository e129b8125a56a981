/** Safety over whole runs of registry calls, each with any replies. */
module VolumeRuns {
  import opened Text
  import opened SlotMap
  import opened Volumes
  import opened EventOrder
  import opened VolumeInvariants
  import opened VolumeCalls
  import opened MountTable
  import Dedup

  datatype Call =
    | AddDisk(diskId: string, kind: DiskKind)
    | DropDisk(diskId: string)
    | CreateCall(id: string, diskId: string, part: nat)
    | RefreshCall(id: string, uuid: string, fsType: string)
    | MountCall(id: string, mountReplies: MountReplies)
    | UnmountCall(id: string, unmountReplies: UnmountReplies)
    | ForceUnmountCall(id: string, unmountReplies: UnmountReplies)
    | FormatCall(id: string, fsType: string, formatReplies: FormatReplies)
    | FormatPartitionCall(id: string, fsType: string, formatReplies: FormatReplies)
    | FixCall(id: string, fixReplies: FixReplies)
    | MarkCall(id: string)
    | DestroyCall(id: string, destroyReplies: DestroyReplies)
    | PurgeCall(diskId: string, unsaved: set<string>)

  ghost function Do(w: World, c: Call): World
    requires Logged(w)
  {
    match c
    case AddDisk(d, kind) => if d in w.disks then w else w.(disks := w.disks[d := kind])
    case DropDisk(d) => w.(disks := w.disks - {d})
    case CreateCall(id, d, part) => Create(w, id, d, part)
    case RefreshCall(id, uuid, fs) => Refresh(w, id, uuid, fs)
    case MountCall(id, r) => Mount(w, id, r).0
    case UnmountCall(id, r) => Unmount(w, id, r).0
    case ForceUnmountCall(id, r) => ForceUnmount(w, id, r).0
    case FormatCall(id, fs, r) => Format(w, id, fs, r).0
    case FormatPartitionCall(id, fs, r) => FormatPartition(w, id, fs, r)
    case FixCall(id, r) => TryToFix(w, id, r).0
    case MarkCall(id) => MarkAbnormal(w, id).0
    case DestroyCall(id, r) => Destroy(w, id, r)
    case PurgeCall(d, unsaved) => Purge(w, d, unsaved)
  }

  lemma DisksDoNotMatter(w: World, w': World)
    requires Core(w) && w' == w.(disks := w'.disks)
    ensures Core(w') && (Seated(w) ==> Seated(w'))
  {
    hide WellFormed, Dedup.Distinct, ReadFrom;
  }

  /** Every call, with any replies and on any registry in order, keeps the core. */
  lemma DoCore(w: World, c: Call)
    requires Core(w)
    ensures Logged(w) && Core(Do(w, c))
  {
    hide Core, Mount, DoUnmount, Format, FormatPartition, TryToFix, MarkAbnormal, Create, Refresh, Destroy, Purge;
    CoreLogged(w);
    match c
    case AddDisk(_, _) => DisksDoNotMatter(w, Do(w, c));
    case DropDisk(_) => DisksDoNotMatter(w, Do(w, c));
    case CreateCall(id, d, part) => CreateCore(w, id, d, part);
    case RefreshCall(id, uuid, fs) => RefreshCore(w, id, uuid, fs);
    case MountCall(id, r) => MountCore(w, id, r);
    case UnmountCall(id, r) => if id in w.volumes { DoUnmountCore(w, id, r); }
    case ForceUnmountCall(id, r) => if id in w.volumes { DoUnmountCore(w, id, r); }
    case FormatCall(id, fs, r) => FormatCore(w, id, fs, r);
    case FormatPartitionCall(id, fs, r) => FormatCore(w, id, fs, r);
    case FixCall(id, r) => TryToFixCore(w, id, r);
    case MarkCall(id) => MarkCore(w, id);
    case DestroyCall(id, r) => DestroyCore(w, id, r);
    case PurgeCall(d, unsaved) => PurgeCore(w, d, unsaved);
  }

  /** The call gives no MOUNTED volume another UUID; partition discovery never does. */
  ghost predicate Allowed(w: World, c: Call) {
    c.RefreshCall? ==> SameUuid(w, c.id, c.uuid)
  }

  /** Every other call also keeps each mounted volume in its seat in the mount table. */
  lemma DoKeeps(w: World, c: Call)
    requires Inv(w) && Allowed(w, c)
    ensures Logged(w) && Inv(Do(w, c))
  {
    hide Core, Seated, Mount, DoUnmount, Format, FormatPartition, TryToFix, MarkAbnormal, Create, Refresh, Destroy,
      Purge, SameUuid;
    DoCore(w, c);
    match c
    case AddDisk(_, _) => DisksDoNotMatter(w, Do(w, c));
    case DropDisk(_) => DisksDoNotMatter(w, Do(w, c));
    case CreateCall(id, d, part) => CreateSeated(w, id, d, part);
    case RefreshCall(id, uuid, fs) => RefreshSeated(w, id, uuid, fs);
    case MountCall(id, r) => MountSeated(w, id, r);
    case UnmountCall(id, r) => if id in w.volumes { DoUnmountSeated(w, id, r); }
    case ForceUnmountCall(id, r) => if id in w.volumes { DoUnmountSeated(w, id, r); }
    case FormatCall(id, fs, r) => FormatSeated(w, id, fs, r);
    case FormatPartitionCall(id, fs, r) => FormatSeated(w, id, fs, r);
    case FixCall(id, r) => TryToFixSeated(w, id, r);
    case MarkCall(id) => MarkSeated(w, id);
    case DestroyCall(id, r) => DestroySeated(w, id, r);
    case PurgeCall(d, unsaved) => PurgeSeated(w, d, unsaved);
  }

  /** The registry a run reaches; a call on a registry without logs never happens. */
  ghost function Run(w: World, calls: seq<Call>): World
    decreases |calls|
  {
    if calls == [] || !Logged(w) then w else Run(Do(w, calls[0]), calls[1..])
  }

  ghost predicate AllAllowed(w: World, calls: seq<Call>)
    decreases |calls|
  {
    calls == [] || !Logged(w) || (Allowed(w, calls[0]) && AllAllowed(Do(w, calls[0]), calls[1..]))
  }

  lemma RunOne(w: World, c: Call)
    requires Logged(w)
    ensures Run(w, [c]) == Do(w, c)
    ensures AllAllowed(w, [c]) <==> Allowed(w, c)
  {
    hide Do, Allowed;
    assert [c][1..] == [];
    assert Run(Do(w, c), []) == Do(w, c);
    assert AllAllowed(Do(w, c), []);
  }

  lemma {:induction false} RunOneMore(w: World, calls: seq<Call>, c: Call)
    requires Logged(w) && Logged(Run(w, calls))
    ensures Run(w, calls + [c]) == Do(Run(w, calls), c)
    ensures AllAllowed(w, calls + [c]) <==> AllAllowed(w, calls) && Allowed(Run(w, calls), c)
    decreases |calls|
  {
    hide Do, Allowed;
    if calls == [] {
      RunOne(w, c);
      assert calls + [c] == [c];
    } else {
      assert (calls + [c])[1..] == calls[1..] + [c];
      if Logged(Do(w, calls[0])) {
        RunOneMore(Do(w, calls[0]), calls[1..], c);
      }
    }
  }

  /** The service at start: no disks, no volumes, nothing mounted by it, the slots it loaded. */
  predicate Fresh(w: World) {
    w.disks == map[] && w.volumes == map[] && w.log == map[] && WellFormed(w.side.slots)
  }

  lemma {:induction false} RunCore(w: World, calls: seq<Call>)
    requires Core(w)
    ensures Core(Run(w, calls))
    decreases |calls|
  {
    hide Core, Do;
    if calls != [] {
      DoCore(w, calls[0]);
      RunCore(Do(w, calls[0]), calls[1..]);
    }
  }

  lemma {:induction false} RunKeeps(w: World, calls: seq<Call>)
    requires Inv(w) && AllAllowed(w, calls)
    ensures Inv(Run(w, calls))
    decreases |calls|
  {
    hide Core, Seated, Do;
    if calls != [] {
      CoreLogged(w);
      DoKeeps(w, calls[0]);
      RunKeeps(Do(w, calls[0]), calls[1..]);
    }
  }

  lemma FreshInv(w: World)
    requires Fresh(w)
    ensures Inv(w)
  {
    hide WellFormed;
    assert forall p :: Holders(w.volumes, p) == {};
  }

  // ---------- what that means ----------

  /**
   * In every run the only states seen between calls are UNMOUNTED, MOUNTED, DAMAGED,
   * REPAIR_FINISH_FAIL and FORMAT_FINISH_FAIL, and a volume has a path exactly while MOUNTED. If no
   * MOUNTED volume is given another UUID, the path of a volume MOUNTED outside FUSE is in the
   * kernel's mount table.
   */
  lemma MountedMeansMounted(w: World, calls: seq<Call>, id: string)
    requires Fresh(w) && id in Run(w, calls).volumes
    ensures var v := Run(w, calls).volumes[id]; Visible(v.state) && (v.state == Mounted <==> v.path != "")
    ensures var e := Run(w, calls); var v := e.volumes[id];
            AllAllowed(w, calls) && v.state == Mounted && !IsFusePath(v.path) ==> v.path in e.side.mounts
  {
    hide Run, AllAllowed, Fresh, WellFormed, PathFits, IsFusePath, LogOk;
    FreshInv(w);
    RunCore(w, calls);
    var e := Run(w, calls);
    var v := e.volumes[id];
    assert Tidy(v);
    if AllAllowed(w, calls) && v.state == Mounted && !IsFusePath(v.path) {
      RunKeeps(w, calls);
      assert id in Holders(e.volumes, v.path);
      assert |Holders(e.volumes, v.path)| <= e.side.mounts[v.path];
    }
  }

  /** In every run the events of each volume are published in the documented order. */
  lemma EventsAreOrdered(w: World, calls: seq<Call>, id: string)
    requires Fresh(w) && id in Run(w, calls).log
    ensures var e := Run(w, calls);
            && Ordered(e.log[id])
            && (id in e.volumes ==> forall i :: 0 <= i < |e.log[id]| ==> !Terminal(e.log[id][i]))
  {
    hide Core, Seated, Fresh, Run, ReadFrom, Ordered;
    FreshInv(w);
    RunCore(w, calls);
    var e := Run(w, calls);
    LogsRead(e);
    AcceptedIsOrdered(e.log[id]);
    if id in e.volumes {
      NoTerminal(e.log[id]);
    }
  }

  lemma NoTerminal(t: seq<Event>)
    requires Ordered(t) && Remembers(ReadAll(t), t) && ReadAll(t).last != Ended
    ensures forall i :: 0 <= i < |t| ==> !Terminal(t[i])
  {
    hide ReadFrom;
  }

  /** In every run the non-empty UUIDs are pairwise distinct. */
  lemma UuidsStayDistinct(w: World, calls: seq<Call>, a: string, b: string)
    requires Fresh(w)
    requires var e := Run(w, calls); a in e.volumes && b in e.volumes && a != b
    ensures var e := Run(w, calls); e.volumes[a].uuid == e.volumes[b].uuid ==> e.volumes[a].uuid == ""
  {
    hide Fresh, Run, WellFormed, LogOk, AllTidy, Seated;
    FreshInv(w);
    RunCore(w, calls);
    var e := Run(w, calls);
    assert Uuids(e.volumes)[a] == e.volumes[a].uuid && Uuids(e.volumes)[b] == e.volumes[b].uuid;
  }

  /** The terminal event of a removal says whether the volume was UNMOUNTED when it began. */
  lemma TerminalEventIsExact(w: World, id: string, r: DestroyReplies)
    requires Logged(w) && id in w.volumes && r.node == 0
    ensures var e := Destroy(w, id, r); var t := e.log[id];
            && id !in e.volumes && t != []
            && t[|t| - 1] == (if w.volumes[id].state == Unmounted then Removed else BadRemoval)
            && (w.volumes[id].state == Unmounted ==> t == w.log[id] + [Removed])
  {
  }

  /**
   * Removing a volume that was not safely ejected publishes EJECT, UNMOUNTED, BAD_REMOVAL, as
   * documented, exactly when its forced unmount is allowed and succeeds; otherwise a second EJECT
   * stands in the place of UNMOUNTED.
   */
  lemma BadRemovalOrderExactly(w: World, id: string, r: DestroyReplies)
    requires Logged(w) && id in w.volumes && w.volumes[id].state != Unmounted && r.node == 0
    ensures var v := w.volumes[id];
            var err := UnmountPoints(w.side, id, v, r.unmount).1;
            var unmounts := UnmountAllowed(w, v, r.unmount) == E_OK && err == E_OK;
            Destroy(w, id, r).log[id]
            == w.log[id] + [Eject(false), if unmounts then UnmountedEvent else Eject(true), BadRemoval]
  {
    hide UnmountAllowed, UnmountPoints;
    var before := w.log[id];
    assert before + [Eject(false), Eject(true)] + [BadRemoval] == before + [Eject(false), Eject(true), BadRemoval];
    assert before + [Eject(false), UnmountedEvent] + [BadRemoval]
           == before + [Eject(false), UnmountedEvent, BadRemoval];
  }

  /** A mounted external volume pulled out while the daemon cannot unmount it. */
  lemma UndocumentedRemoval(w: World, id: string, r: DestroyReplies)
    requires Logged(w) && id in w.volumes && r.node == 0 && r.unmount.data != 0
    requires var v := w.volumes[id]; v.state == Mounted && v.path != "" && !IsInternalDataDisk(w.disks, v.diskId)
    ensures Destroy(w, id, r).log[id] == w.log[id] + [Eject(false), Eject(true), BadRemoval]
  {
    hide IsUuidValid, IsFusePath, ExternalPath;
    BadRemovalOrderExactly(w, id, r);
  }

  /**
   * A mount passes through CHECKING exactly when it gets as far as a UUID and the volume is f2fs on
   * an internal data disk: any other goes from UNMOUNTED straight to MOUNTED.
   */
  lemma CheckedExactly(w: World, side: Side, id: string, v: Volume, r: MountReplies)
    ensures var (u, err) := EnsureUuid(w.volumes, id, v, r);
            CheckingEvent in MountEntry(w, side, id, v, r).events
            <==> err == E_OK && UsesVoldata(w.disks, u.diskId, u.fsType)
  {
    hide EnsureUuid, MountFilesystem, UsesVoldata, Lower;
    var (u, err) := EnsureUuid(w.volumes, id, v, r);
    var p := PolicyFor(w.disks, u.diskId, u.fsType, r.fuseOn);
    var state := if p.voldata then CheckAndRepair(r).0 else u.state;
    MountEvents(side, id in w.volumes, id, u.(state := state), p, r);
  }

  lemma MountEvents(side: Side, present: bool, id: string, v: Volume, p: Policy, r: MountReplies)
    ensures CheckingEvent !in MountFilesystem(side, present, id, v, p, r).events
  {
    hide IsUuidValid, DataPath, UndoFuse, UndoSlot, ExternalPath;
  }

  /** Without its device node gone, a removal publishes no terminal event and keeps the volume. */
  lemma FailedRemovalKeepsVolume(w: World, id: string, r: DestroyReplies)
    requires Core(w) && id in w.volumes && r.node != 0
    ensures Logged(w) && id in Destroy(w, id, r).volumes && id in Destroy(w, id, r).log
    ensures var q := ReadAll(Destroy(w, id, r).log[id]); q.Reading? && q.last != Ended
  {
    hide Core, DoUnmount, ReadFrom;
    CoreLogged(w);
    DestroyCore(w, id, r);
    DoUnmountCore(w, id, r.unmount);
    CoreOf(Destroy(w, id, r), id);
  }

  /**
   * Why FUSE volumes are left out of the mount-table claim: when their unmount fails, the record
   * still says MOUNTED at its path, and the mount is all there exactly if its first step failed.
   */
  lemma FailedFuseUnmount(w: World, id: string, r: UnmountReplies)
    requires Logged(w) && id in w.volumes
    requires var v := w.volumes[id]; v.state == Mounted && IsFusePath(v.path) && v.path != "" && v.path in w.side.mounts
    requires UnmountAllowed(w, w.volumes[id], r) == E_OK && DoUnmount(w, id, r).1 != E_OK
    ensures var v := w.volumes[id]; var e := DoUnmount(w, id, r).0;
            e.volumes[id] == v && (e.side.mounts[v.path] == w.side.mounts[v.path] <==> r.data != 0)
  {
    hide UnmountAllowed, IsUuidValid, ExternalPath, IsFusePath, DropMount;
    var v := w.volumes[id];
    OneLess(w.side, v.path, v.path);
    OneLess(DropMount(w.side, v.path), ExternalPath(v.uuid), v.path);
  }

  lemma OneLess(side: Side, path: string, q: string)
    ensures var s := DropMount(side, path);
            s.mounts[q] <= side.mounts[q] && (q == path && q in side.mounts ==> s.mounts[q] < side.mounts[q])
  {
  }

  // ---------- DAMAGED ----------

  predicate IsDamaged(w: World, id: string) {
    id in w.volumes && w.volumes[id].state == Damaged
  }

  /** No mount pipeline ends in DAMAGED. */
  lemma MountNotDamaged(w: World, side: Side, id: string, v: Volume, r: MountReplies)
    requires v.state != Damaged
    ensures MountEntry(w, side, id, v, r).vol.state != Damaged
    ensures MountEntry(w, side, id, v, r).vol.diskId == v.diskId
    ensures MountEntry(w, side, id, v, r).vol.partitionNum == v.partitionNum
  {
    hide IsUuidValid, Dedup.Resolve, PolicyFor, DataPath, UndoFuse, UndoSlot;
  }

  /** The volume did not become DAMAGED and did not change its disk or partition. */
  predicate Quiet(w: World, e: World, id: string) {
    id in e.volumes ==>
      if id !in w.volumes then e.volumes[id].state != Damaged
      else
        && e.volumes[id].diskId == w.volumes[id].diskId
        && e.volumes[id].partitionNum == w.volumes[id].partitionNum
        && (e.volumes[id].state == Damaged ==> w.volumes[id].state == Damaged)
  }

  lemma PutQuiet(w: World, i: string, v: Volume, side: Side, events: seq<Event>, id: string)
    requires i in w.log && i in w.volumes
    requires v.diskId == w.volumes[i].diskId && v.partitionNum == w.volumes[i].partitionNum
    requires v.state == Damaged ==> w.volumes[i].state == Damaged
    ensures Quiet(w, Put(w, i, v, side, events), id)
  {
  }

  lemma MountQuiet(w: World, i: string, r: MountReplies, id: string)
    requires Logged(w)
    ensures Quiet(w, Mount(w, i, r).0, id)
  {
    hide MountEntry, Put, Quiet;
    QuietNow(w, id);
    if i in w.volumes && w.volumes[i].state in {Unmounted, Decrypting, FormatFinishFail} {
      MountNotDamaged(w, w.side, i, w.volumes[i], r);
      var m := MountEntry(w, w.side, i, w.volumes[i], r);
      PutQuiet(w, i, m.vol, m.side, m.events, id);
    }
  }

  lemma QuietNow(w: World, id: string)
    ensures Quiet(w, w, id)
  {
  }

  lemma DoUnmountQuiet(w: World, i: string, r: UnmountReplies, id: string)
    requires Logged(w) && i in w.volumes
    ensures Quiet(w, DoUnmount(w, i, r).0, id)
  {
    hide UnmountPoints, UnmountAllowed;
  }

  lemma FormatQuiet(w: World, i: string, fs: string, r: FormatReplies, id: string)
    requires Logged(w)
    ensures Quiet(w, Format(w, i, fs, r).0, id) && Quiet(w, FormatPartition(w, i, fs, r), id)
  {
    hide SlotsAfterFormat, IsUuidValid, Dedup.Resolve, FsTypeOf;
  }

  lemma FixQuiet(w: World, i: string, r: FixReplies, id: string)
    requires Logged(w)
    ensures Quiet(w, TryToFix(w, i, r).0, id)
  {
    hide MountEntry, Put, Quiet, UnmountPoints, UsesVoldata;
    QuietNow(w, id);
    if i in w.volumes {
      var v := w.volumes[i];
      var (s, err) := UnmountPoints(w.side, i, v, r.unmount);
      PutQuiet(w, i, v, s, [Eject(false)], id);
      FixAndMountQuiet(w, i, v, w.side, [], r, id);
      FixAndMountQuiet(w, i, v.(path := "", state := Unmounted), s, [Eject(false)], r, id);
    }
  }

  lemma FixAndMountQuiet(w: World, i: string, v: Volume, side: Side, before: seq<Event>, r: FixReplies, id: string)
    requires Logged(w) && i in w.volumes
    requires v.diskId == w.volumes[i].diskId && v.partitionNum == w.volumes[i].partitionNum
    ensures Quiet(w, FixAndMount(w, i, v, side, before, r).0, id)
  {
    hide MountEntry, Put, Quiet, UsesVoldata;
    PutQuiet(w, i, v.(state := RepairFinishFail), side, before + [CheckingEvent, RepairFailed], id);
    MountNotDamaged(w, side, i, v.(state := Unmounted), r.mount);
    var m := MountEntry(w, side, i, v.(state := Unmounted), r.mount);
    PutQuiet(w, i, m.vol, m.side, before + [CheckingEvent, RepairSucceeded] + m.events, id);
  }

  lemma OtherQuiet(w: World, c: Call, id: string)
    requires Logged(w)
    requires c.AddDisk? || c.DropDisk? || c.CreateCall? || c.RefreshCall? || c.PurgeCall?
    ensures Quiet(w, Do(w, c), id)
  {
    hide Dedup.Resolve, FsTypeOf, PurgedUuids;
  }

  lemma DoQuiet(w: World, c: Call, id: string)
    requires Logged(w) && !c.MarkCall?
    ensures Quiet(w, Do(w, c), id)
  {
    hide Quiet, DoUnmount, Format, FormatPartition, Mount, TryToFix;
    QuietNow(w, id);
    match c
    case MountCall(i, r) => MountQuiet(w, i, r, id);
    case UnmountCall(i, r) => if i in w.volumes { DoUnmountQuiet(w, i, r, id); }
    case ForceUnmountCall(i, r) => if i in w.volumes { DoUnmountQuiet(w, i, r, id); }
    case FormatCall(i, fs, r) => FormatQuiet(w, i, fs, r, id);
    case FormatPartitionCall(i, fs, r) => FormatQuiet(w, i, fs, r, id);
    case FixCall(i, r) => FixQuiet(w, i, r, id);
    case DestroyCall(i, r) => DestroyQuiet(w, i, r, id);
    case _ => OtherQuiet(w, c, id);
  }

  lemma DestroyQuiet(w: World, i: string, r: DestroyReplies, id: string)
    requires Logged(w)
    ensures Quiet(w, Destroy(w, i, r), id)
  {
    hide DoUnmount;
    if i in w.volumes {
      DoUnmountQuiet(w, i, r.unmount, id);
    }
  }

  /**
   * A volume becomes DAMAGED exactly by the marking call on an UNMOUNTED volume, with one abnormal
   * event and nothing else changed. Marking a volume in another state changes nothing.
   */
  lemma DamagedExactlyByMarking(w: World, c: Call, id: string)
    requires Logged(w) && !IsDamaged(w, id)
    ensures IsDamaged(Do(w, c), id) <==> c == MarkCall(id) && id in w.volumes && w.volumes[id].state == Unmounted
    ensures IsDamaged(Do(w, c), id) ==>
              Do(w, c) == w.(volumes := w.volumes[id := w.volumes[id].(state := Damaged)],
                             log := w.log[id := w.log[id] + [Abnormal]])
    ensures c == MarkCall(id) && !IsDamaged(Do(w, c), id) ==> Do(w, c) == w
  {
    if !c.MarkCall? {
      DoQuiet(w, c, id);
    }
  }

  /** Mounting leaves a DAMAGED volume exactly as it is. */
  lemma MountLeavesDamaged(w: World, id: string, r: MountReplies)
    requires Logged(w) && IsDamaged(w, id)
    ensures Mount(w, id, r).0 == w && Mount(w, id, r).1 != E_OK
  {
  }

  /** No call moves a volume to another disk or partition. */
  lemma OwnershipKept(w: World, c: Call, id: string)
    requires Logged(w) && id in w.volumes && id in Do(w, c).volumes
    ensures Do(w, c).volumes[id].diskId == w.volumes[id].diskId
    ensures Do(w, c).volumes[id].partitionNum == w.volumes[id].partitionNum
  {
    if !c.MarkCall? {
      DoQuiet(w, c, id);
    }
  }
}
