/** Each registry call keeps the core, whatever the daemon answers and whatever state it finds. */
module VolumeCalls {
  import opened Maps
  import opened Text
  import opened SlotMap
  import opened Volumes
  import opened EventOrder
  import opened VolumeInvariants
  import Dedup

  // ---------- calls on one volume ----------

  lemma MountCore(w: World, id: string, r: MountReplies)
    requires Core(w)
    ensures Logged(w) && Core(Mount(w, id, r).0)
  {
    hide Core, WellFormed, Placed, MountEntry, ReadFrom, Grows, UuidFits, Put;
    CoreLogged(w);
    if Mount(w, id, r).0 != w {
      var v := w.volumes[id];
      CoreOf(w, id);
      MountEntryOk(w, w.side, id, v, r);
      var m := MountEntry(w, w.side, id, v, r);
      ReadMounting(ReadAll(w.log[id]), m.events, m.vol.state == Mounted);
      PutCore(w, id, m.vol, m.side, m.events);
    }
  }

  lemma UnmountKeepsSlots(side: Side, id: string, v: Volume, r: UnmountReplies)
    ensures UnmountPoints(side, id, v, r).0.slots == side.slots
  {
    hide IsUuidValid, IsFusePath, ExternalPath;
  }

  lemma DoUnmountCore(w: World, id: string, r: UnmountReplies)
    requires Core(w) && id in w.volumes
    ensures Logged(w) && Core(DoUnmount(w, id, r).0)
    ensures id in DoUnmount(w, id, r).0.volumes
  {
    hide Core, UnmountPoints, UnmountAllowed, WellFormed, ReadFrom, UuidFits;
    CoreLogged(w);
    CoreOf(w, id);
    var v := w.volumes[id];
    UnmountKeepsSlots(w.side, id, v, r);
    var (s, err) := UnmountPoints(w.side, id, v, r);
    var q := ReadAll(w.log[id]);
    ReadTwo(q, Eject(false), Eject(true));
    ReadTwo(q, Eject(false), UnmountedEvent);
    PutCore(w, id, v, w.side, [Eject(false), Eject(true)]);
    PutCore(w, id, v, s, [Eject(false), Eject(true)]);
    PutCore(w, id, v.(path := "", state := Unmounted), s, [Eject(false), UnmountedEvent]);
  }

  lemma SlotsAfterFormatOk(w: World, diskId: string, prior: string, next: string, fsType: string, r: FormatReplies)
    requires WellFormed(w.side.slots)
    ensures WellFormed(SlotsAfterFormat(w, diskId, prior, next, fsType, r))
  {
    hide IsUuidValid, WellFormed, UsesVoldata, Remove, Replace;
    RemoveKeeps(w.side.slots, prior);
    if prior in w.side.slots && next !in w.side.slots && IsUuidValid(next) {
      ReplaceSpec(w.side.slots, prior, next);
    }
  }

  lemma ResolvedFits(volumes: map<string, Volume>, id: string, uuid: string)
    ensures UuidFits(volumes, id, Dedup.Resolve(Uuids(volumes), id, uuid))
  {
  }

  lemma AfterFormatCore(w: World, id: string, fsType: string, r: FormatReplies)
    requires Core(w) && id in w.volumes && w.volumes[id].state != Mounted
    ensures Logged(w) && Core(AfterFormat(w, id, fsType, r).0)
  {
    hide Core, IsUuidValid, WellFormed, SlotsAfterFormat, Dedup.Resolve, FsTypeOf, UuidFits, Put;
    CoreLogged(w);
    CoreOf(w, id);
    if IsUuidValid(r.metaUuid) {
      var v := w.volumes[id];
      var uuid := Dedup.Resolve(Uuids(w.volumes), id, r.metaUuid);
      ResolvedFits(w.volumes, id, r.metaUuid);
      SlotsAfterFormatOk(w, v.diskId, v.uuid, uuid, fsType, r);
      var side := w.side.(slots := SlotsAfterFormat(w, v.diskId, v.uuid, uuid, fsType, r));
      PutCore(w, id, v.(uuid := uuid, fsType := FsTypeOf(fsType), state := Unmounted), side, []);
    }
  }

  /** A call that only moves an unmounted volume to another such state, reporting it. */
  lemma StateChangeCore(w: World, id: string, s: VolumeState, e: Event)
    requires Core(w) && id in w.volumes && w.volumes[id].state != Mounted
    requires Visible(s) && s != Mounted && Neutral([e])
    ensures Logged(w) && Core(Put(w, id, w.volumes[id].(state := s), w.side, [e]))
  {
    hide Core, WellFormed, ReadFrom, UuidFits;
    CoreLogged(w);
    CoreOf(w, id);
    ReadNeutral(ReadAll(w.log[id]), [e]);
    PutCore(w, id, w.volumes[id].(state := s), w.side, [e]);
  }

  lemma FormatCore(w: World, id: string, fsType: string, r: FormatReplies)
    requires Core(w)
    ensures Logged(w) && Core(Format(w, id, fsType, r).0) && Core(FormatPartition(w, id, fsType, r))
  {
    hide Core, AfterFormat;
    CoreLogged(w);
    if id in w.volumes && w.volumes[id].state in {Unmounted, FormatFinishFail, Damaged} {
      StateChangeCore(w, id, FormatFinishFail, FormatFailed);
      StateChangeCore(w, id, w.volumes[id].state, FormatFailed);
      AfterFormatCore(w, id, fsType, r);
    }
  }

  lemma MarkCore(w: World, id: string)
    requires Core(w)
    ensures Logged(w) && Core(MarkAbnormal(w, id).0)
  {
    hide Core;
    CoreLogged(w);
    if id in w.volumes && w.volumes[id].state == Unmounted {
      StateChangeCore(w, id, Damaged, Abnormal);
    }
  }

  /** Metadata may be replaced in any state. */
  lemma RefreshCore(w: World, id: string, uuid: string, fsType: string)
    requires Core(w)
    ensures Logged(w) && Core(Refresh(w, id, uuid, fsType))
  {
    hide Core, WellFormed, Dedup.Resolve, FsTypeOf, UuidFits, Put;
    CoreLogged(w);
    if id in w.volumes {
      CoreOf(w, id);
      ResolvedFits(w.volumes, id, uuid);
      ReadNothing(ReadAll(w.log[id]));
      var v := w.volumes[id].(uuid := Dedup.Resolve(Uuids(w.volumes), id, uuid), fsType := FsTypeOf(fsType));
      PutCore(w, id, v, w.side, []);
    }
  }

  // ---------- repair ----------

  lemma FixAndMountCore(w: World, id: string, v: Volume, side: Side, before: seq<Event>, r: FixReplies)
    requires Core(w) && id in w.volumes && WellFormed(side.slots)
    requires v.path == "" && UuidFits(w.volumes, id, v.uuid)
    requires id in w.log && LogFits(ReadFrom(ReadAll(w.log[id]), before), Unmounted)
    ensures Logged(w) && Core(FixAndMount(w, id, v, side, before, r).0)
  {
    hide Core, MountEntry, UsesVoldata, WellFormed, Put, ReadFrom, UuidFits, Placed, Grows;
    CoreLogged(w);
    var q, u := ReadAll(w.log[id]), v.(state := Unmounted);
    var failed, done := [CheckingEvent, RepairFailed], [CheckingEvent, RepairSucceeded];
    ReadAppend(q, before, failed);
    ReadNeutral(ReadFrom(q, before), failed);
    PutCore(w, id, v.(state := RepairFinishFail), side, before + failed);
    MountEntryOk(w, side, id, u, r.mount);
    var m := MountEntry(w, side, id, u, r.mount);
    ReadAppend(q, before, done);
    ReadNeutral(ReadFrom(q, before), done);
    ReadAppend(q, before + done, m.events);
    ReadMounting(ReadFrom(q, before + done), m.events, m.vol.state == Mounted);
    PutCore(w, id, m.vol, m.side, before + done + m.events);
  }

  lemma TryToFixCore(w: World, id: string, r: FixReplies)
    requires Core(w)
    ensures Logged(w) && Core(TryToFix(w, id, r).0)
  {
    hide Core, WellFormed, UnmountPoints, FixAndMount, ReadFrom, UuidFits, Put;
    CoreLogged(w);
    if id in w.volumes {
      CoreOf(w, id);
      var v, q := w.volumes[id], ReadAll(w.log[id]);
      UnmountKeepsSlots(w.side, id, v, r.unmount);
      var (s, err) := UnmountPoints(w.side, id, v, r.unmount);
      ReadOne(q, Eject(false));
      ReadNothing(q);
      if v.state !in {Mounted, DamagedMounted} {
        FixAndMountCore(w, id, v, w.side, [], r);
      } else if err != E_OK {
        PutCore(w, id, v, s, [Eject(false)]);
      } else {
        FixAndMountCore(w, id, v.(path := "", state := Unmounted), s, [Eject(false)], r);
      }
    }
  }

  lemma ReadNothing(q: Reader)
    ensures ReadFrom(q, []) == q
  {
  }

  // ---------- creation and removal ----------

  lemma CreateCore(w: World, id: string, diskId: string, part: nat)
    requires Core(w)
    ensures Core(Create(w, id, diskId, part))
  {
    hide WellFormed, ReadFrom, Dedup.Distinct, UuidFits;
    if Create(w, id, diskId, part) != w {
      ReadNothing(Reading(false, Nothing));
      EmptyUuidFits(w.volumes, id);
      DistinctPut(w.volumes, id, Volume(diskId, part, Unmounted, "", "", "undefined"));
    }
  }

  lemma EmptyUuidFits(volumes: map<string, Volume>, id: string)
    ensures UuidFits(volumes, id, "")
  {
  }

  lemma LogsRead(w: World)
    requires Core(w)
    ensures Logged(w)
    ensures forall id :: id in w.log ==> ReadAll(w.log[id]).Reading?
    ensures forall id :: id in w.volumes ==> LogFits(ReadAll(w.log[id]), w.volumes[id].state)
  {
  }

  /** Dropping volumes and appending to the log of one of them. */
  lemma DropCore(w: World, gone: set<string>, log: map<string, seq<Event>>)
    requires Core(w)
    requires forall id :: id in log ==> ReadAll(log[id]).Reading?
    requires forall id :: id in w.volumes && id !in gone ==> id in log && id in w.log && log[id] == w.log[id]
    ensures Core(w.(volumes := w.volumes - gone, log := log))
  {
    hide WellFormed, Tidy, ReadAll;
    var rest := w.volumes - gone;
    assert forall a :: a in Uuids(rest) ==> a in Uuids(w.volumes) && Uuids(rest)[a] == Uuids(w.volumes)[a];
  }

  /** After a forced unmount the last event is UNMOUNTED or a failed EJECT. */
  lemma ForcedUnmountEnds(w: World, id: string, r: UnmountReplies)
    requires Core(w) && id in w.volumes
    ensures Logged(w) && ReadAll(DoUnmount(w, id, r).0.log[id]).Reading?
    ensures ReadAll(DoUnmount(w, id, r).0.log[id]).last in {UnmountDone, EjectFailed}
  {
    hide UnmountPoints, UnmountAllowed, ReadFrom, Core;
    CoreLogged(w);
    CoreOf(w, id);
    var q := ReadAll(w.log[id]);
    var start := Reading(false, Nothing);
    ReadAppend(start, w.log[id], [Eject(false), Eject(true)]);
    ReadAppend(start, w.log[id], [Eject(false), UnmountedEvent]);
    ReadTwo(q, Eject(false), Eject(true));
    ReadTwo(q, Eject(false), UnmountedEvent);
  }

  lemma DestroyCore(w: World, id: string, r: DestroyReplies)
    requires Core(w)
    ensures Logged(w) && Core(Destroy(w, id, r))
  {
    hide Core, DoUnmount, ReadFrom;
    LogsRead(w);
    if id in w.volumes {
      DoUnmountCore(w, id, r.unmount);
      ForcedUnmountEnds(w, id, r.unmount);
      var safe := w.volumes[id].state == Unmounted;
      var u := if safe then w else DoUnmount(w, id, r.unmount).0;
      LogsRead(u);
      var e := if safe then Removed else BadRemoval;
      ReadAppend(Reading(false, Nothing), u.log[id], [e]);
      ReadOne(ReadAll(u.log[id]), e);
      DropCore(u, {id}, u.log[id := u.log[id] + [e]]);
    }
  }

  lemma WithoutKeysWellFormed(m: Slots, gone: set<string>)
    requires WellFormed(m)
    ensures WellFormed(m - gone)
  {
    hide IsUuidValid;
    SubsetCount((m - gone).Keys, m.Keys);
  }

  lemma PurgeCore(w: World, diskId: string, unsaved: set<string>)
    requires Core(w)
    ensures Core(Purge(w, diskId, unsaved))
  {
    if Purge(w, diskId, unsaved) != w {
      WithoutKeysWellFormed(w.side.slots, PurgedUuids(w, diskId, unsaved));
      DropCore(w, OnDisk(w, diskId), w.log);
    }
  }
}
