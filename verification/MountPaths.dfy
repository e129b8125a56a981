/** No two mounted volumes share a path, and a failed mount undoes what it did. */
module MountPaths {
  import opened Decimal
  import opened Text
  import opened SlotMap
  import opened Volumes
  import opened VolumeInvariants
  import opened MountTable
  import opened VolumeRuns
  import Dedup

  // ---------- mounted slots are owned ----------

  predicate LinkOk(v: Volume, slots: Slots) {
    v.state == Mounted && ParseSlot(v.path).Some? ==> v.uuid in slots && slots[v.uuid].mountPath == v.path
  }

  /** A volume mounted on a slot path owns that slot in the store. */
  predicate Linked(w: World) {
    forall id :: id in w.volumes ==> LinkOk(w.volumes[id], w.side.slots)
  }

  /** Every entry stays; a full table may lose the one in slot 1. */
  predicate Keeps(a: Slots, b: Slots) {
    forall u :: u in a && (|a| < MAX_SLOTS || a[u].slot != 1) ==> u in b && b[u] == a[u]
  }

  predicate KeepsExcept(a: Slots, b: Slots, gone: set<string>) {
    forall u :: u in a && u !in gone ==> u in b && b[u] == a[u]
  }

  lemma AllocateKeepsAll(m: Slots, u: string)
    requires WellFormed(m) && IsUuidValid(u) && u !in m
    ensures Keeps(m, Allocate(m, u)) && Keeps(m, Remove(Allocate(m, u), u))
  {
    hide Allocate, Evict, IsUuidValid, SlotsDistinct, EntryOk;
    AllocateSpec(m, u);
    EvictSpec(m);
    var r := Allocate(m, u);
    forall x | x in m && (|m| < MAX_SLOTS || m[x].slot != 1)
      ensures x in Remove(r, u) && Remove(r, u)[x] == m[x] && x in r && r[x] == m[x]
    {
      assert x in Evict(m);
    }
  }

  lemma RootIsNoSlot(uuid: string)
    ensures ParseSlot(ExternalPath(uuid)).None? && ParseSlot(DvrPath(uuid)).None? && ParseSlot(FusePath(uuid)).None?
  {
    RootChars(uuid);
    if ParseSlot(ExternalPath(uuid)).Some? { SlotPathChars(ExternalPath(uuid)); }
    if ParseSlot(DvrPath(uuid)).Some? { SlotPathChars(DvrPath(uuid)); }
    if ParseSlot(FusePath(uuid)).Some? { SlotPathChars(FusePath(uuid)); }
  }

  lemma EmptyIsNoSlot()
    ensures ParseSlot("").None?
  {
  }

  lemma DataPathLinks(side: Side, uuid: string, p: Policy, r: MountReplies)
    requires WellFormed(side.slots)
    ensures var (s, path, created) := DataPath(side, uuid, p, r);
            && Keeps(side.slots, s.slots)
            && (ParseSlot(path).Some? ==> uuid in s.slots && s.slots[uuid].mountPath == path)
            && Keeps(side.slots, UndoSlot(s, uuid, created, r).slots)
  {
    hide IsUuidValid, ParseSlot, WellFormed, ExternalPath, DvrPath, FusePath;
    RootIsNoSlot(uuid);
    EmptyIsNoSlot();
    if p.voldata && IsUuidValid(uuid) && uuid !in side.slots {
      AllocateKeepsAll(side.slots, uuid);
      AllocateSpec(side.slots, uuid);
    }
  }

  lemma MountLinks(side: Side, present: bool, id: string, v: Volume, p: Policy, r: MountReplies)
    requires WellFormed(side.slots) && v.state != Mounted
    ensures var m := MountFilesystem(side, present, id, v, p, r);
            && Keeps(side.slots, m.side.slots) && LinkOk(m.vol, m.side.slots) && m.vol.uuid == v.uuid
  {
    hide IsUuidValid, ParseSlot, WellFormed, ExternalPath, MountData;
    var s := AddMount(side, ExternalPath(v.uuid)).(fuse := side.fuse + {id});
    MountDataLinks(side, present, false, id, v, p, r);
    MountDataLinks(s, present, true, id, v, p, r);
  }

  lemma MountDataLinks(side: Side, present: bool, fuseMounted: bool, id: string, v: Volume, p: Policy, r: MountReplies)
    requires WellFormed(side.slots) && v.state != Mounted
    ensures var m := MountData(side, present, fuseMounted, id, v, p, r);
            && Keeps(side.slots, m.side.slots) && LinkOk(m.vol, m.side.slots) && m.vol.uuid == v.uuid
  {
    hide IsUuidValid, ParseSlot, WellFormed, ExternalPath, DataPath, UndoFuse, UndoSlot;
    DataPathLinks(side, v.uuid, p, r);
    var (s, path, created) := DataPath(side, v.uuid, p, r);
    UndoFuseOk(s, id, v.uuid, r);
    UndoFuseOk(UndoSlot(s, v.uuid, created, r), id, v.uuid, r);
    var t := if r.undoMount == 0 then DropMount(AddMount(s, path), path) else AddMount(s, path);
    UndoFuseOk(UndoSlot(t, v.uuid, created, r), id, v.uuid, r);
    SameSlotsUndo(s, t, v.uuid, created, r);
  }

  lemma SameSlotsUndo(s: Side, t: Side, uuid: string, created: bool, r: MountReplies)
    requires s.slots == t.slots
    ensures UndoSlot(s, uuid, created, r).slots == UndoSlot(t, uuid, created, r).slots
  {
  }

  lemma MountEntryLinks(w: World, side: Side, id: string, v: Volume, r: MountReplies)
    requires WellFormed(side.slots) && v.state != Mounted
    ensures var m := MountEntry(w, side, id, v, r);
            Keeps(side.slots, m.side.slots) && LinkOk(m.vol, m.side.slots)
  {
    hide IsUuidValid, ParseSlot, WellFormed, MountFilesystem, PolicyFor, FsTypeOf, Dedup.Resolve;
    var (u, err) := EnsureUuid(w.volumes, id, v, r);
    if err == E_OK {
      var p := PolicyFor(w.disks, u.diskId, u.fsType, r.fuseOn);
      var (state, events, checkErr) := if p.voldata then CheckAndRepair(r) else (u.state, [], E_OK);
      MountLinks(side, id in w.volumes, id, u.(state := state), p, r);
    }
  }

  // ---------- the calls ----------

  /** The store has room, or no volume but this one is mounted on the slot that would be evicted. */
  predicate SlotOneSpared(w: World, id: string) {
    |w.side.slots| < MAX_SLOTS ||
    forall k :: k in w.volumes && k != id ==> w.volumes[k].state != Mounted || w.volumes[k].path != SlotPath(1)
  }

  lemma PutLinked(w: World, id: string, v: Volume, side: Side, events: seq<Event>)
    requires Inv(w) && Linked(w) && id in w.volumes
    requires LinkOk(v, side.slots)
    requires || (Keeps(w.side.slots, side.slots) && SlotOneSpared(w, id))
             || KeepsExcept(w.side.slots, side.slots, if w.volumes[id].uuid == "" then {} else {w.volumes[id].uuid})
    ensures Logged(w) && Linked(Put(w, id, v, side, events))
  {
    hide ParseSlot, WellFormed, PathFits, Covered, LogOk, SlotPath;
    CoreLogged(w);
    forall k | k in w.volumes && k != id ensures LinkOk(w.volumes[k], side.slots) {
      SlotPathNotEmpty(w.side.slots, w.volumes[k].uuid);
      assert Placed(w.volumes[k]) && LinkOk(w.volumes[k], w.side.slots);
      assert Uuids(w.volumes)[k] == w.volumes[k].uuid && Uuids(w.volumes)[id] == w.volumes[id].uuid;
    }
  }

  lemma MountLinked(w: World, id: string, r: MountReplies)
    requires Inv(w) && Linked(w) && SlotOneSpared(w, id)
    ensures Logged(w) && Linked(Mount(w, id, r).0)
  {
    hide Linked, LinkOk, MountEntry, Put, WellFormed, AllTidy, AllPlaced, Covered, LogOk, Dedup.Distinct, Keeps,
      KeepsExcept;
    CoreLogged(w);
    if id in w.volumes && w.volumes[id].state in {Unmounted, Decrypting, FormatFinishFail} {
      MountEntryLinks(w, w.side, id, w.volumes[id], r);
      var m := MountEntry(w, w.side, id, w.volumes[id], r);
      PutLinked(w, id, m.vol, m.side, m.events);
    }
  }

  lemma DoUnmountLinked(w: World, id: string, r: UnmountReplies)
    requires Inv(w) && Linked(w) && id in w.volumes
    ensures Logged(w) && Linked(DoUnmount(w, id, r).0)
  {
    hide UnmountPoints, UnmountAllowed, WellFormed, AllTidy, AllPlaced, Covered, LogOk, Dedup.Distinct, ParseSlot,
      Linked, Put;
    CoreLogged(w);
    var v := w.volumes[id];
    LinkNow(w, id);
    UnmountedMounts(w.side, id, v, r);
    var (s, err) := UnmountPoints(w.side, id, v, r);
    PutLinked(w, id, v, w.side, [Eject(false), Eject(true)]);
    PutLinked(w, id, v, s, [Eject(false), Eject(true)]);
    PutLinked(w, id, v.(path := "", state := Unmounted), s, [Eject(false), UnmountedEvent]);
  }

  lemma SlotsAfterFormatKeeps(w: World, diskId: string, prior: string, next: string, fsType: string, r: FormatReplies)
    ensures KeepsExcept(w.side.slots, SlotsAfterFormat(w, diskId, prior, next, fsType, r),
                        if prior == "" then {} else {prior})
  {
    hide IsUuidValid, UsesVoldata;
    if IsUuidValid(prior) {
      ValidNotEmpty(prior);
    }
  }

  lemma AfterFormatLinked(w: World, id: string, fsType: string, r: FormatReplies)
    requires Inv(w) && Linked(w) && id in w.volumes
    ensures Logged(w) && Linked(AfterFormat(w, id, fsType, r).0)
  {
    hide IsUuidValid, WellFormed, AllTidy, AllPlaced, Covered, LogOk, Dedup.Distinct, Dedup.Resolve, SlotsAfterFormat,
      FsTypeOf, Put, Linked, KeepsExcept;
    CoreLogged(w);
    if IsUuidValid(r.metaUuid) {
      var v := w.volumes[id];
      var uuid := Dedup.Resolve(Uuids(w.volumes), id, r.metaUuid);
      SlotsAfterFormatKeeps(w, v.diskId, v.uuid, uuid, fsType, r);
      var slots := SlotsAfterFormat(w, v.diskId, v.uuid, uuid, fsType, r);
      PutLinked(w, id, v.(uuid := uuid, fsType := FsTypeOf(fsType), state := Unmounted), w.side.(slots := slots), []);
    }
  }

  /** Moving to a state other than MOUNTED, or changing nothing but the log. */
  lemma SimplePutLinked(w: World, id: string, v: Volume, events: seq<Event>)
    requires Inv(w) && Linked(w) && id in w.volumes && (v.state != Mounted || v == w.volumes[id].(fsType := v.fsType))
    ensures Logged(w) && Linked(Put(w, id, v, w.side, events))
  {
    CoreLogged(w);
    assert LinkOk(w.volumes[id], w.side.slots);
    PutLinked(w, id, v, w.side, events);
  }

  lemma FixLinked(w: World, id: string, r: FixReplies)
    requires Inv(w) && Linked(w) && SlotOneSpared(w, id)
    ensures Logged(w) && Linked(TryToFix(w, id, r).0)
  {
    hide UnmountPoints, WellFormed, AllTidy, AllPlaced, Covered, LogOk, Dedup.Distinct, ParseSlot, Linked, Put,
      FixAndMount;
    CoreLogged(w);
    if id in w.volumes {
      var v := w.volumes[id];
      UnmountedMounts(w.side, id, v, r.unmount);
      var (s, err) := UnmountPoints(w.side, id, v, r.unmount);
      if v.state in {Mounted, DamagedMounted} {
        if err != E_OK {
          LinkNow(w, id);
          PutLinked(w, id, v, s, [Eject(false)]);
        } else {
          FixAndMountLinked(w, id, v.(path := "", state := Unmounted), s, [Eject(false)], r);
        }
      } else {
        FixAndMountLinked(w, id, v, w.side, [], r);
      }
    }
  }

  lemma LinkNow(w: World, id: string)
    requires Linked(w) && id in w.volumes
    ensures LinkOk(w.volumes[id], w.side.slots)
  {
  }

  lemma FixAndMountLinked(w: World, id: string, v: Volume, side: Side, before: seq<Event>, r: FixReplies)
    requires Inv(w) && Linked(w) && id in w.volumes && side.slots == w.side.slots && SlotOneSpared(w, id)
    ensures Logged(w) && Linked(FixAndMount(w, id, v, side, before, r).0)
  {
    hide WellFormed, AllTidy, AllPlaced, Covered, LogOk, Dedup.Distinct, ParseSlot, Linked, Put, MountEntry,
      UsesVoldata;
    CoreLogged(w);
    PutLinked(w, id, v.(state := RepairFinishFail), side, before + [CheckingEvent, RepairFailed]);
    MountEntryLinks(w, side, id, v.(state := Unmounted), r.mount);
    var m := MountEntry(w, side, id, v.(state := Unmounted), r.mount);
    PutLinked(w, id, m.vol, m.side, before + [CheckingEvent, RepairSucceeded] + m.events);
  }

  lemma DestroyLinked(w: World, id: string, r: DestroyReplies)
    requires Inv(w) && Linked(w)
    ensures Logged(w) && Linked(Destroy(w, id, r))
  {
    hide DoUnmount, LinkOk, Core, Seated;
    CoreLogged(w);
    if id in w.volumes {
      DoUnmountLinked(w, id, r.unmount);
    }
  }

  lemma PurgeLinked(w: World, diskId: string, unsaved: set<string>)
    requires Inv(w) && Linked(w)
    ensures Linked(Purge(w, diskId, unsaved))
  {
    hide WellFormed, PathFits, ParseSlot, IsUuidValid, Covered, LogOk;
    var e := Purge(w, diskId, unsaved);
    if e != w {
      forall k | k in e.volumes ensures LinkOk(e.volumes[k], e.side.slots) {
        assert Placed(w.volumes[k]) && LinkOk(w.volumes[k], w.side.slots);
        if w.volumes[k].state == Mounted {
          UuidNotPurged(w, k, diskId, unsaved);
        }
      }
    }
  }

  lemma UuidNotPurged(w: World, k: string, diskId: string, unsaved: set<string>)
    requires Dedup.Distinct(Uuids(w.volumes)) && k in w.volumes && k !in OnDisk(w, diskId) && w.volumes[k].uuid != ""
    ensures w.volumes[k].uuid !in PurgedUuids(w, diskId, unsaved)
  {
    hide IsUuidValid;
    assert Uuids(w.volumes)[k] == w.volumes[k].uuid;
    forall i | i in OnDisk(w, diskId) ensures w.volumes[i].uuid != w.volumes[k].uuid {
      assert Uuids(w.volumes)[i] == w.volumes[i].uuid;
    }
  }

  /** A call that may mount evicts no slot on which another volume is mounted. */
  predicate Spares(w: World, c: Call) {
    c.MountCall? || c.FixCall? ==> SlotOneSpared(w, c.id)
  }

  lemma SameLinked(w: World, w': World)
    requires Linked(w) && w'.volumes == w.volumes && w'.side == w.side
    ensures Linked(w')
  {
  }

  lemma DoLinked(w: World, c: Call)
    requires Inv(w) && Linked(w) && Allowed(w, c) && Spares(w, c)
    ensures Logged(w) && Linked(Do(w, c))
  {
    hide LinkOk, Linked, Core, Seated, DoUnmount, Format, FormatPartition, TryToFix, Mount, MarkAbnormal, Refresh,
      Destroy, Purge, Create;
    CoreLogged(w);
    match c
    case AddDisk(_, _) => SameLinked(w, Do(w, c));
    case DropDisk(_) => SameLinked(w, Do(w, c));
    case CreateCall(id, d, part) => CreateLinked(w, id, d, part);
    case RefreshCall(id, uuid, fs) => RefreshLinked(w, id, uuid, fs);
    case MountCall(id, r) => MountLinked(w, id, r);
    case UnmountCall(id, r) => if id in w.volumes { DoUnmountLinked(w, id, r); }
    case ForceUnmountCall(id, r) => if id in w.volumes { DoUnmountLinked(w, id, r); }
    case FormatCall(id, fs, r) => FormatLinked(w, id, fs, r);
    case FormatPartitionCall(id, fs, r) => FormatLinked(w, id, fs, r);
    case FixCall(id, r) => FixLinked(w, id, r);
    case MarkCall(id) => MarkLinked(w, id);
    case DestroyCall(id, r) => DestroyLinked(w, id, r);
    case PurgeCall(d, unsaved) => PurgeLinked(w, d, unsaved);
  }

  lemma RefreshLinked(w: World, id: string, uuid: string, fs: string)
    requires Inv(w) && Linked(w) && SameUuid(w, id, uuid)
    ensures Logged(w) && Linked(Refresh(w, id, uuid, fs))
  {
    hide LinkOk, Linked, Core, Seated, Put, Dedup.Resolve, FsTypeOf;
    CoreLogged(w);
    if id in w.volumes {
      var resolved := Dedup.Resolve(Uuids(w.volumes), id, uuid);
      SimplePutLinked(w, id, w.volumes[id].(uuid := resolved, fsType := FsTypeOf(fs)), []);
    }
  }

  lemma FormatLinked(w: World, id: string, fs: string, r: FormatReplies)
    requires Inv(w) && Linked(w)
    ensures Logged(w) && Linked(Format(w, id, fs, r).0) && Linked(FormatPartition(w, id, fs, r))
  {
    hide LinkOk, Linked, Core, Seated, Put, AfterFormat;
    CoreLogged(w);
    if id in w.volumes {
      SimplePutLinked(w, id, w.volumes[id].(state := FormatFinishFail), [FormatFailed]);
      SimplePutLinked(w, id, w.volumes[id], [FormatFailed]);
      AfterFormatLinked(w, id, fs, r);
    }
  }

  lemma MarkLinked(w: World, id: string)
    requires Inv(w) && Linked(w)
    ensures Logged(w) && Linked(MarkAbnormal(w, id).0)
  {
    hide LinkOk, Linked, Core, Seated, Put;
    CoreLogged(w);
    if id in w.volumes {
      SimplePutLinked(w, id, w.volumes[id].(state := Damaged), [Abnormal]);
    }
  }

  lemma CreateLinked(w: World, id: string, diskId: string, part: nat)
    requires Linked(w)
    ensures Linked(Create(w, id, diskId, part))
  {
    hide ParseSlot;
  }

  // ---------- no shared mount path ----------

  /** No call of the run evicts the slot of a mounted volume; a store that never fills up evicts none. */
  ghost predicate AllSpare(w: World, calls: seq<Call>)
    decreases |calls|
  {
    calls == [] || !Logged(w) || (Spares(w, calls[0]) && AllSpare(Do(w, calls[0]), calls[1..]))
  }

  lemma {:induction false} RunLinked(w: World, calls: seq<Call>)
    requires Inv(w) && Linked(w) && AllAllowed(w, calls) && AllSpare(w, calls)
    ensures Inv(Run(w, calls)) && Linked(Run(w, calls))
    decreases |calls|
  {
    hide Core, Seated, Linked, Do, Allowed, Spares;
    if calls != [] {
      CoreLogged(w);
      DoKeeps(w, calls[0]);
      DoLinked(w, calls[0]);
      RunLinked(Do(w, calls[0]), calls[1..]);
    }
  }

  lemma PathsUnshared(w: World, a: string, b: string)
    requires Inv(w) && Linked(w) && a in w.volumes && b in w.volumes && a != b
    requires w.volumes[a].state == Mounted && w.volumes[b].state == Mounted
    ensures w.volumes[a].path != w.volumes[b].path
  {
    hide PathFits, ParseSlot, Covered, LogOk, IsUuidValid, ToString;
    var x, y := w.volumes[a], w.volumes[b];
    assert Placed(x) && Placed(y) && LinkOk(x, w.side.slots) && LinkOk(y, w.side.slots);
    assert Uuids(w.volumes)[a] == x.uuid && Uuids(w.volumes)[b] == y.uuid;
    if x.path == y.path {
      if ParseSlot(x.path).Some? {
        var m := w.side.slots;
        assert EntryOk(x.uuid, m[x.uuid]) && EntryOk(y.uuid, m[y.uuid]);
        SlotPathRoundTrip(m[x.uuid].slot);
        SlotPathRoundTrip(m[y.uuid].slot);
      } else {
        SamePathSameUuid(x.path, x.uuid, y.uuid);
      }
    }
  }

  /**
   * In every run that evicts no mounted volume's slot and gives no mounted volume another UUID, no
   * two MOUNTED volumes share a mount path: the UUIDs are distinct, the slots are distinct, and the
   * four roots never overlap.
   */
  lemma NoSharedMountPath(w: World, calls: seq<Call>, a: string, b: string)
    requires Fresh(w) && AllAllowed(w, calls) && AllSpare(w, calls)
    requires var e := Run(w, calls);
             a in e.volumes && b in e.volumes && a != b && e.volumes[a].state == e.volumes[b].state == Mounted
    ensures Run(w, calls).volumes[a].path != Run(w, calls).volumes[b].path
  {
    hide Core, Seated, Run, AllAllowed, AllSpare, LinkOk;
    FreshInv(w);
    RunLinked(w, calls);
    PathsUnshared(Run(w, calls), a, b);
  }

  /** The slot store stays below its capacity before every call of the run. */
  ghost predicate NeverFull(w: World, calls: seq<Call>)
    decreases |calls|
  {
    calls == [] || !Logged(w) || (|w.side.slots| < MAX_SLOTS && NeverFull(Do(w, calls[0]), calls[1..]))
  }

  lemma {:induction false} NeverFullSpares(w: World, calls: seq<Call>)
    requires NeverFull(w, calls)
    ensures AllSpare(w, calls)
    decreases |calls|
  {
    hide Do;
    if calls != [] && Logged(w) {
      NeverFullSpares(Do(w, calls[0]), calls[1..]);
    }
  }

  /** Every step of this mount that leads to a new slot succeeds, and so does the mount. */
  predicate TakesNewSlot(w: World, id: string, r: MountReplies) {
    && id in w.volumes
    && var v := w.volumes[id];
       && v.state == Unmounted && v.uuid != "" && UsesVoldata(w.disks, v.diskId, v.fsType)
       && IsUuidValid(v.uuid) && v.uuid !in w.side.slots
       && !r.disabled && !r.edmIntercepts && r.check == 0 && r.storeReady && r.slotSaved && r.mount == 0
  }

  /**
   * A mount that takes a new slot from a full store lands on the path of another MOUNTED volume
   * exactly when one is mounted on slot 1: the eviction does not look.
   */
  lemma EvictionSharesExactly(w: World, id: string, r: MountReplies)
    requires Inv(w) && TakesNewSlot(w, id, r) && |w.side.slots| == MAX_SLOTS
    ensures Logged(w) && id in Mount(w, id, r).0.volumes && Mount(w, id, r).0.volumes[id].state == Mounted
    ensures var e := Mount(w, id, r).0;
            (exists k :: k in e.volumes && k != id && e.volumes[k].state == Mounted
                         && e.volumes[k].path == e.volumes[id].path)
            <==> !SlotOneSpared(w, id)
  {
    hide Core, Seated, IsUuidValid, Allocate, SlotPath, Lower, WellFormed;
    CoreLogged(w);
    CoreOf(w, id);
    var v, m := w.volumes[id], Allocate(w.side.slots, w.volumes[id].uuid);
    AllocateSpec(w.side.slots, v.uuid);
    SlotPathNotEmpty(m, v.uuid);
    var e := Mount(w, id, r).0;
    assert e.volumes[id].path == SlotPath(1) && e.volumes[id].state == Mounted;
    assert forall k :: k in e.volumes && k != id ==> k in w.volumes && e.volumes[k] == w.volumes[k];
  }

  // ---------- a failed mount undoes itself ----------

  predicate UndoSucceeds(r: MountReplies) {
    r.undoFuseUnmount == 0 && r.undoFuseNotify == 0 && r.slotUndone && r.undoMount == 0
  }

  lemma UndoFuseExact(side: Side, id: string, uuid: string, r: MountReplies, slots: Slots)
    requires UndoSucceeds(r) && IsUuidValid(uuid)
    ensures UndoFuse(AddMount(side, ExternalPath(uuid)).(fuse := side.fuse + {id}, slots := slots), id, uuid, r)
            == side.(fuse := side.fuse - {id}, slots := slots)
  {
    hide IsUuidValid, ExternalPath;
    var t := AddMount(side, ExternalPath(uuid)).(fuse := side.fuse + {id}, slots := slots);
    assert ExternalPath(uuid) in t.mounts;
    assert t.mounts - multiset{ExternalPath(uuid)} == side.mounts;
    assert side.fuse + {id} - {id} == side.fuse - {id};
  }

  /** The mount takes a new slot from a full store, which costs the owner of slot 1 its own. */
  predicate Evicts(slots: Slots, uuid: string, p: Policy, r: MountReplies) {
    && p.voldata && r.storeReady && r.slotSaved
    && IsUuidValid(uuid) && uuid !in slots && |slots| >= MAX_SLOTS
  }

  lemma DataPathUndone(side: Side, uuid: string, p: Policy, r: MountReplies)
    requires WellFormed(side.slots) && UndoSucceeds(r)
    ensures var (s, path, created) := DataPath(side, uuid, p, r);
            var u := UndoSlot(s, uuid, created, r);
            && s == side.(slots := s.slots) && u == side.(slots := u.slots)
            && (u.slots == side.slots <==> !Evicts(side.slots, uuid, p, r))
            && (path == "" ==> s == side && !Evicts(side.slots, uuid, p, r))
  {
    hide IsUuidValid, Allocate, SlotsDistinct;
    if p.voldata && IsUuidValid(uuid) && uuid !in side.slots {
      AllocateThenRemove(side.slots, uuid);
      AllocatedPathNotEmpty(side.slots, uuid);
    } else if p.voldata && IsUuidValid(uuid) {
      SlotPathNotEmpty(side.slots, uuid);
    }
  }

  lemma AllocatedPathNotEmpty(m: Slots, uuid: string)
    ensures uuid in Allocate(m, uuid) && Allocate(m, uuid)[uuid].mountPath != ""
  {
    assert VOLDATA_MOUNT_PREFIX[0] == '/';
  }

  /** The data mount is reached: no FUSE mount is wanted, or it was made. */
  predicate ReachesData(uuid: string, p: Policy, r: MountReplies) {
    p.fuse && r.fuseStillOn ==> IsUuidValid(uuid) && r.fuseMount == 0 && r.fuseNotify == 0
  }

  /**
   * If mounting the filesystem fails at any stage and the undo calls succeed, then the kernel mounts
   * and the FUSE notifications are back to what they were (a volume that was already notified is no
   * longer), and the slots are exactly if the mount did not evict one.
   */
  lemma FailedMountRestores(side: Side, present: bool, id: string, v: Volume, p: Policy, r: MountReplies)
    requires WellFormed(side.slots) && UndoSucceeds(r)
    requires MountFilesystem(side, present, id, v, p, r).err != E_OK
    ensures var after := MountFilesystem(side, present, id, v, p, r).side;
            && after.mounts == side.mounts
            && (after.fuse == side.fuse || after.fuse == side.fuse - {id})
            && (id !in side.fuse ==> after.fuse == side.fuse)
            && (after.slots == side.slots <==> !(ReachesData(v.uuid, p, r) && Evicts(side.slots, v.uuid, p, r)))
  {
    hide IsUuidValid, WellFormed, MountData, UndoFuse, ExternalPath, Evicts;
    var wantsFuse := p.fuse && r.fuseStillOn;
    var path := ExternalPath(v.uuid);
    AddDrop(side, path);
    if !wantsFuse {
      DataUndone(side, present, id, v, p, r);
    } else if IsUuidValid(v.uuid) && r.fuseMount == 0 && r.fuseNotify == 0 {
      var s := AddMount(side, path).(fuse := side.fuse + {id});
      DataUndone(s, present, id, v, p, r);
      UndoFuseExact(side, id, v.uuid, r, DataSlots(s, v, p, r));
    }
    assert id !in side.fuse ==> side.fuse - {id} == side.fuse;
  }

  /** The slots once a failing data mount has undone what it did. */
  ghost function DataSlots(side: Side, v: Volume, p: Policy, r: MountReplies): Slots {
    var (s, path, created) := DataPath(side, v.uuid, p, r);
    UndoSlot(s, v.uuid, created, r).slots
  }

  /** The data part of a failing mount: nothing is left but the FUSE mount it was given. */
  lemma DataUndone(side: Side, present: bool, id: string, v: Volume, p: Policy, r: MountReplies)
    requires WellFormed(side.slots) && UndoSucceeds(r)
    ensures var slots := DataSlots(side, v, p, r);
            && (slots == side.slots <==> !Evicts(side.slots, v.uuid, p, r))
            && (var m := MountData(side, present, false, id, v, p, r);
                m.err != E_OK ==> m.side == side.(slots := slots))
            && (var m := MountData(side, present, true, id, v, p, r);
                m.err != E_OK ==> m.side == UndoFuse(side.(slots := slots), id, v.uuid, r))
  {
    hide IsUuidValid, WellFormed, DataPath, UndoFuse, Evicts;
    DataPathUndone(side, v.uuid, p, r);
    var (s, path, created) := DataPath(side, v.uuid, p, r);
    AddDrop(s, path);
    EmptyUndo(side, v.uuid, p, r);
  }

  /** Where no path can be had, no slot was taken. */
  lemma EmptyUndo(side: Side, uuid: string, p: Policy, r: MountReplies)
    ensures var (s, path, created) := DataPath(side, uuid, p, r); path == "" ==> !created
  {
    hide IsUuidValid, Allocate, ExternalPath, DvrPath, FusePath;
    AllocatedPathNotEmpty(side.slots, uuid);
  }

  lemma AddDrop(s: Side, path: string)
    ensures DropMount(AddMount(s, path), path) == s
  {
    assert s.mounts + multiset{path} - multiset{path} == s.mounts;
  }
}
