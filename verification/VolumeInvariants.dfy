/**
 * What every registry call keeps: the core, whatever is called, and the seats of mounted volumes in
 * the kernel's mount table, as long as no mounted volume gets another UUID.
 */
module VolumeInvariants {
  import opened Text
  import opened SlotMap
  import opened Volumes
  import opened EventOrder
  import Dedup

  // ---------- one volume ----------

  predicate Visible(s: VolumeState) {
    s in {Unmounted, Mounted, Damaged, RepairFinishFail, FormatFinishFail}
  }

  /** A mounted volume sits under one of the four roots, at its UUID or at a slot. */
  predicate PathFits(path: string, uuid: string) {
    || path == ExternalPath(uuid)
    || path == DvrPath(uuid)
    || path == FusePath(uuid)
    || ParseSlot(path).Some?
  }

  /** Between calls: a visible state, and a path exactly while MOUNTED. */
  predicate Tidy(v: Volume) {
    Visible(v.state) && (v.state == Mounted <==> v.path != "")
  }

  predicate Placed(v: Volume) {
    v.state == Mounted ==> v.uuid != "" && PathFits(v.path, v.uuid)
  }

  // ---------- the mount table ----------

  /** v is mounted at p, not through FUSE. */
  predicate At(v: Volume, p: string) {
    v.state == Mounted && v.path == p && !IsFusePath(p)
  }

  function Holders(volumes: map<string, Volume>, p: string): set<string> {
    set id | id in volumes && At(volumes[id], p)
  }

  function One(b: bool): nat {
    if b then 1 else 0
  }

  /** The kernel has at least one mount for every volume mounted at p outside FUSE. */
  ghost predicate Covered(volumes: map<string, Volume>, mounts: multiset<string>) {
    forall p :: |Holders(volumes, p)| <= mounts[p]
  }

  lemma HoldersWithout(volumes: map<string, Volume>, id: string, p: string)
    requires id in volumes
    ensures |Holders(volumes, p)| == |Holders(volumes - {id}, p)| + One(At(volumes[id], p))
  {
    if At(volumes[id], p) {
      assert Holders(volumes, p) == Holders(volumes - {id}, p) + {id};
    } else {
      assert Holders(volumes, p) == Holders(volumes - {id}, p);
    }
  }

  lemma HoldersPut(volumes: map<string, Volume>, id: string, v: Volume, p: string)
    ensures |Holders(volumes[id := v], p)| == |Holders(volumes - {id}, p)| + One(At(v, p))
  {
    HoldersWithout(volumes[id := v], id, p);
    assert volumes[id := v] - {id} == volumes - {id};
  }

  // ---------- the whole ----------

  predicate AllTidy(w: World) {
    forall id :: id in w.volumes ==> Tidy(w.volumes[id])
  }

  predicate AllPlaced(w: World) {
    forall id :: id in w.volumes ==> Placed(w.volumes[id])
  }

  predicate LogOk(w: World) {
    && (forall id :: id in w.log ==> ReadAll(w.log[id]).Reading?)
    && (forall id :: id in w.volumes ==>
          id in w.log && LogFits(ReadAll(w.log[id]), w.volumes[id].state))
  }

  /** The log of a registered volume has no terminal event, and is open only while MOUNTED. */
  predicate LogFits(q: Reader, s: VolumeState) {
    q.Reading? && q.last != Ended && (s != Mounted ==> !q.open)
  }

  predicate Core(w: World) {
    && AllTidy(w)
    && Dedup.Distinct(Uuids(w.volumes))
    && LogOk(w)
    && WellFormed(w.side.slots)
  }

  ghost predicate Seated(w: World) {
    AllPlaced(w) && Covered(w.volumes, w.side.mounts)
  }

  ghost predicate Inv(w: World) {
    Core(w) && Seated(w)
  }

  lemma CoreLogged(w: World)
    requires Core(w)
    ensures Logged(w)
  {
  }

  lemma CoreOf(w: World, id: string)
    requires Core(w) && id in w.volumes
    ensures Tidy(w.volumes[id]) && UuidFits(w.volumes, id, w.volumes[id].uuid)
    ensures id in w.log && LogFits(ReadAll(w.log[id]), w.volumes[id].state)
    ensures WellFormed(w.side.slots)
  {
    hide WellFormed, ReadFrom;
    OwnUuidFits(w.volumes, id);
  }

  // ---------- writing back one volume ----------

  predicate UuidFits(volumes: map<string, Volume>, id: string, uuid: string) {
    uuid == "" || !Dedup.Occupied(Uuids(volumes), id, uuid)
  }

  lemma OwnUuidFits(volumes: map<string, Volume>, id: string)
    requires id in volumes && Dedup.Distinct(Uuids(volumes))
    ensures UuidFits(volumes, id, volumes[id].uuid)
  {
    assert Uuids(volumes)[id] == volumes[id].uuid;
  }

  lemma DistinctPut(volumes: map<string, Volume>, id: string, v: Volume)
    requires Dedup.Distinct(Uuids(volumes)) && UuidFits(volumes, id, v.uuid)
    ensures Dedup.Distinct(Uuids(volumes[id := v]))
  {
    var m, n := Uuids(volumes), Uuids(volumes[id := v]);
    forall a, b | a in n && b in n && a != b && n[a] == n[b] ensures n[a] == "" {
      if a != id && b != id {
        assert m[a] == m[b];
      } else {
        var k := if a == id then b else a;
        assert k in m && m[k] == v.uuid;
      }
    }
  }

  /** Room in the mount table for the other volumes and for `v`. */
  ghost predicate RoomFor(volumes: map<string, Volume>, id: string, v: Volume, mounts: multiset<string>) {
    forall p :: |Holders(volumes - {id}, p)| + One(At(v, p)) <= mounts[p]
  }

  lemma PutCore(w: World, id: string, v: Volume, side: Side, events: seq<Event>)
    requires Core(w) && id in w.volumes
    requires Tidy(v) && UuidFits(w.volumes, id, v.uuid) && WellFormed(side.slots)
    requires LogFits(ReadFrom(ReadAll(w.log[id]), events), v.state)
    ensures Logged(w) && Core(Put(w, id, v, side, events))
  {
    hide Tidy, WellFormed, ReadFrom, Read;
    DistinctPut(w.volumes, id, v);
    ReadAppend(Reading(false, Nothing), w.log[id], events);
  }

  lemma PutSeated(w: World, id: string, v: Volume, side: Side, events: seq<Event>)
    requires Seated(w) && Logged(w) && id in w.volumes
    requires Placed(v) && RoomFor(w.volumes, id, v, side.mounts)
    ensures Seated(Put(w, id, v, side, events))
  {
    hide Placed;
    forall p ensures |Holders(w.volumes[id := v], p)| <= side.mounts[p] {
      HoldersPut(w.volumes, id, v, p);
    }
  }

  // ---------- the mount pipeline ----------

  /** From `a` to `b` no mount is lost, and one is gained where `v` is mounted. */
  ghost predicate Grows(a: multiset<string>, b: multiset<string>, v: Volume) {
    forall p :: a[p] + One(At(v, p)) <= b[p]
  }

  lemma ValidNotEmpty(uuid: string)
    requires IsUuidValid(uuid)
    ensures uuid != ""
  {
  }

  lemma DataPathOk(side: Side, uuid: string, p: Policy, r: MountReplies)
    requires WellFormed(side.slots)
    ensures var (s, path, created) := DataPath(side, uuid, p, r);
            && WellFormed(s.slots) && s.mounts == side.mounts && s.fuse == side.fuse
            && (path != "" ==> PathFits(path, uuid))
  {
    hide IsUuidValid, ParseSlot;
    if p.voldata && IsUuidValid(uuid) {
      if uuid in side.slots {
        assert EntryOk(uuid, side.slots[uuid]);
        SlotPathRoundTrip(side.slots[uuid].slot);
      } else {
        AllocateSpec(side.slots, uuid);
        var m := Allocate(side.slots, uuid);
        assert EntryOk(uuid, m[uuid]);
        SlotPathRoundTrip(m[uuid].slot);
      }
    }
  }

  lemma UndoSlotOk(side: Side, uuid: string, created: bool, r: MountReplies)
    requires WellFormed(side.slots)
    ensures WellFormed(UndoSlot(side, uuid, created, r).slots)
    ensures UndoSlot(side, uuid, created, r).mounts == side.mounts
  {
    hide WellFormed;
    RemoveKeeps(side.slots, uuid);
  }

  lemma UndoFuseOk(side: Side, id: string, uuid: string, r: MountReplies)
    ensures UndoFuse(side, id, uuid, r).slots == side.slots
    ensures forall p :: side.mounts[p] <= UndoFuse(side, id, uuid, r).mounts[p] + One(p == ExternalPath(uuid))
  {
    hide IsUuidValid, ExternalPath;
  }

  /** Undoing the slot and the FUSE mount leaves at least the mounts there were before them. */
  lemma UndoBothOk(base: multiset<string>, side: Side, fuseMounted: bool, id: string, uuid: string,
                   created: bool, r: MountReplies)
    requires WellFormed(side.slots)
    requires forall q :: base[q] + One(fuseMounted && q == ExternalPath(uuid)) <= side.mounts[q]
    ensures var t := UndoSlot(side, uuid, created, r);
            var u := if fuseMounted then UndoFuse(t, id, uuid, r) else t;
            WellFormed(u.slots) && forall q :: base[q] <= u.mounts[q]
  {
    hide WellFormed, UndoSlot, UndoFuse, ExternalPath;
    UndoSlotOk(side, uuid, created, r);
    var t := UndoSlot(side, uuid, created, r);
    UndoFuseOk(t, id, uuid, r);
    forall q ensures base[q] <= (if fuseMounted then UndoFuse(t, id, uuid, r) else t).mounts[q] {
      assert t.mounts[q] <= UndoFuse(t, id, uuid, r).mounts[q] + One(q == ExternalPath(uuid));
    }
  }

  lemma MountDataOk(base: multiset<string>, side: Side, present: bool, fuseMounted: bool,
                    id: string, v: Volume, p: Policy, r: MountReplies)
    requires WellFormed(side.slots) && v.path == ""
    requires forall q :: base[q] + One(fuseMounted && q == ExternalPath(v.uuid)) <= side.mounts[q]
    ensures var m := MountData(side, present, fuseMounted, id, v, p, r);
            && WellFormed(m.side.slots) && m.vol.uuid == v.uuid && m.vol.diskId == v.diskId
            && (forall q :: base[q] + One(m.err == E_OK && m.vol.path == q) <= m.side.mounts[q])
            && (m.err == E_OK ==> m.vol.state == Mounted && m.vol.path != "" && PathFits(m.vol.path, v.uuid))
            && (present && m.err != E_OK ==> m.vol.path == "")
            && m.events == if m.err == E_OK then [MountedEvent] else []
  {
    hide IsUuidValid, WellFormed, PathFits, DataPath, UndoFuse, ExternalPath, FinishMount;
    DataPathOk(side, v.uuid, p, r);
    var (s, path, created) := DataPath(side, v.uuid, p, r);
    if path == "" {
      UndoFuseOk(s, id, v.uuid, r);
    } else {
      FinishMountOk(base, s, present, fuseMounted, id, v, path, created, r);
    }
  }

  lemma FinishMountOk(base: multiset<string>, side: Side, present: bool, fuseMounted: bool,
                      id: string, v: Volume, path: string, created: bool, r: MountReplies)
    requires WellFormed(side.slots) && v.path == ""
    requires forall q :: base[q] + One(fuseMounted && q == ExternalPath(v.uuid)) <= side.mounts[q]
    ensures var m := FinishMount(side, present, fuseMounted, id, v, path, created, r);
            && WellFormed(m.side.slots) && m.vol.uuid == v.uuid && m.vol.diskId == v.diskId
            && (forall q :: base[q] + One(m.err == E_OK && m.vol.path == q) <= m.side.mounts[q])
            && (m.err == E_OK ==> m.vol.state == Mounted && m.vol.path == path)
            && (present && m.err != E_OK ==> m.vol.path == "")
            && m.events == if m.err == E_OK then [MountedEvent] else []
  {
    hide IsUuidValid, WellFormed, UndoSlot, UndoFuse, ExternalPath;
    if r.mount != 0 {
      UndoBothOk(base, side, fuseMounted, id, v.uuid, created, r);
    } else if !present {
      var t := if r.undoMount == 0 then DropMount(AddMount(side, path), path) else AddMount(side, path);
      UndoBothOk(base, t, fuseMounted, id, v.uuid, created, r);
    }
  }

  lemma MountFilesystemOk(side: Side, present: bool, id: string, v: Volume, p: Policy, r: MountReplies)
    requires WellFormed(side.slots) && v.path == ""
    ensures var m := MountFilesystem(side, present, id, v, p, r);
            && WellFormed(m.side.slots) && m.vol.uuid == v.uuid && m.vol.diskId == v.diskId
            && (forall q :: side.mounts[q] + One(m.err == E_OK && m.vol.path == q) <= m.side.mounts[q])
            && (m.err == E_OK ==> m.vol.state == Mounted && m.vol.path != "" && PathFits(m.vol.path, v.uuid))
            && (present && m.err != E_OK ==> m.vol.path == "")
            && m.events == if m.err == E_OK then [MountedEvent] else []
  {
    hide IsUuidValid, WellFormed, PathFits, MountData, ExternalPath;
    var wantsFuse := p.fuse && r.fuseStillOn;
    if !wantsFuse {
      MountDataOk(side.mounts, side, present, false, id, v, p, r);
    } else if r.fuseMount == 0 && r.fuseNotify == 0 {
      var s := AddMount(side, ExternalPath(v.uuid)).(fuse := side.fuse + {id});
      MountDataOk(side.mounts, s, present, true, id, v, p, r);
    }
  }

  lemma EnsureUuidOk(volumes: map<string, Volume>, id: string, v: Volume, r: MountReplies)
    requires UuidFits(volumes, id, v.uuid)
    ensures var (u, err) := EnsureUuid(volumes, id, v, r);
            && UuidFits(volumes, id, u.uuid)
            && (err == E_OK ==> u.uuid != "")
            && u == v.(uuid := u.uuid, fsType := u.fsType)
  {
    if IsUuidValid(r.metaUuid) {
      ValidNotEmpty(r.metaUuid);
    }
  }

  /** The state a call may start mounting from. */
  predicate Mountable(v: Volume) {
    v.path == "" && v.state in {Unmounted, Decrypting, FormatFinishFail}
  }

  lemma MountEntryOk(w: World, side: Side, id: string, v: Volume, r: MountReplies)
    requires id in w.volumes && Mountable(v) && WellFormed(side.slots)
    requires UuidFits(w.volumes, id, v.uuid)
    ensures var m := MountEntry(w, side, id, v, r);
            && Tidy(m.vol) && Placed(m.vol) && UuidFits(w.volumes, id, m.vol.uuid) && WellFormed(m.side.slots)
            && Grows(side.mounts, m.side.mounts, m.vol)
            && MountingEvents(m.events, m.vol.state == Mounted)
  {
    hide IsUuidValid, WellFormed, PathFits, MountFilesystem, PolicyFor, IsFusePath, EnsureUuid, UuidFits,
      CheckAndRepair, Neutral, MountingEvents;
    var (u, err) := EnsureUuid(w.volumes, id, v, r);
    EnsureUuidOk(w.volumes, id, v, r);
    CheckAndRepairOk(r);
    EventsThenMounted([], false);
    if err == E_OK {
      var p := PolicyFor(w.disks, u.diskId, u.fsType, r.fuseOn);
      var (state, events, checkErr) := if p.voldata then CheckAndRepair(r) else (u.state, [], E_OK);
      EventsThenMounted(events, true);
      EventsThenMounted(events, false);
      if checkErr == E_OK {
        MountFilesystemOk(side, true, id, u.(state := state), p, r);
      }
    }
  }

  lemma CheckAndRepairOk(r: MountReplies)
    ensures var (state, events, err) := CheckAndRepair(r);
            Neutral(events) && state == if err == E_OK then Unmounted else RepairFinishFail
    ensures Neutral([])
  {
  }

  lemma EventsThenMounted(events: seq<Event>, ok: bool)
    requires Neutral(events)
    ensures MountingEvents(events + if ok then [MountedEvent] else [], ok)
    ensures events + [] == events
  {
    assert (events + [MountedEvent])[..|events|] == events;
    assert events + [] == events;
  }
}
