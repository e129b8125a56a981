/** Small facts about records, logs and replies that the methods of `DiskManager` compose. */
module RegistrySteps {
  import opened Maps
  import opened Text
  import opened SlotMap
  import opened Volumes
  import opened SlotCalls
  import opened VoldataStore
  import StoreModel
  import Dedup

  /** What the file system answers the slot store's saves during one call; the slot files themselves can be read. */
  datatype SlotReplies = SlotReplies(load: SaveReply, save: SaveReply, undo: SaveReply)

  /** The replies of a mount once the slot store has had its own. */
  ghost function WithStore(r: MountReplies, s: StoreModel.State, c: SlotReplies): MountReplies {
    r.(storeReady := StoreModel.Start(s, AsBoot(Readable(c.load))).1,
       slotSaved := AsSave(c.save).mainOk,
       slotUndone := AsSave(c.undo).mainOk)
  }

  lemma UndoWithStore(r: MountReplies, s: StoreModel.State, c: SlotReplies, side: Side, id: string, uuid: string,
                      created: bool)
    ensures UndoFuse(side, id, uuid, WithStore(r, s, c)) == UndoFuse(side, id, uuid, r)
    ensures UndoSlot(side, uuid, created, WithStore(r, s, c)).slots
            == if created && AsSave(c.undo).mainOk then Remove(side.slots, uuid) else side.slots
    ensures var u := UndoSlot(side, uuid, created, WithStore(r, s, c)); u == side.(slots := u.slots)
  {
    hide IsUuidValid, ExternalPath, StoreModel.Start;
  }

  /** The daemon's replies are not the store's. */
  lemma DaemonReplies(r: MountReplies, s: StoreModel.State, c: SlotReplies)
    ensures var g := WithStore(r, s, c);
            && g.fuseStillOn == r.fuseStillOn && g.fuseMount == r.fuseMount && g.fuseNotify == r.fuseNotify
            && g.undoFuseUnmount == r.undoFuseUnmount && g.mount == r.mount && g.undoMount == r.undoMount
  {
    hide StoreModel.Start;
  }

  lemma RepliesBefore(r: MountReplies, s: StoreModel.State, c: SlotReplies, volumes: map<string, Volume>, id: string,
                      v: Volume)
    ensures var g := WithStore(r, s, c);
            && EnsureUuid(volumes, id, v, g) == EnsureUuid(volumes, id, v, r)
            && CheckAndRepair(g) == CheckAndRepair(r)
            && g.fuseOn == r.fuseOn && g.disabled == r.disabled && g.edmIntercepts == r.edmIntercepts
  {
    hide IsUuidValid, StoreModel.Start, Dedup.Resolve, FsTypeOf;
  }

  /** After a format the store is asked only about a UUID it holds in memory, or to forget one. */
  ghost function FormatWithStore(r: FormatReplies, s: StoreModel.State, voldata: bool, prior: string, c: SlotReplies)
    : FormatReplies
  {
    r.(storeReady := (voldata ==> prior in s.table) && StoreModel.Start(s, AsBoot(Readable(c.load))).1,
       slotSaved := AsSave(c.save).mainOk)
  }

  ghost function FormatAnswers(w: World, id: string, fsType: string, r: FormatReplies, s: StoreModel.State,
                               c: SlotReplies)
    : FormatReplies
  {
    if id !in w.volumes then r
    else FormatWithStore(r, s, UsesVoldata(w.disks, w.volumes[id].diskId, fsType), w.volumes[id].uuid, c)
  }

  function Append(log: map<string, seq<Event>>, id: string, events: seq<Event>): (r: map<string, seq<Event>>)
    requires id in log
    ensures r.Keys == log.Keys
  {
    log[id := log[id] + events]
  }

  lemma AppendTwice(log: map<string, seq<Event>>, id: string, a: seq<Event>, b: seq<Event>)
    requires id in log
    ensures Append(Append(log, id, a), id, b) == Append(log, id, a + b)
  {
    assert log[id] + a + b == log[id] + (a + b);
  }

  lemma AppendOne(log: map<string, seq<Event>>, id: string, a: seq<Event>, e: Event, b: seq<Event>)
    requires id in log && b == a + [e]
    ensures Append(Append(log, id, a), id, [e]) == Append(log, id, b)
  {
    hide Append;
    AppendTwice(log, id, a, [e]);
  }

  lemma EjectEvents(log: map<string, seq<Event>>, id: string)
    requires id in log
    ensures var l := Append(log, id, [Eject(false)]);
            && Append(l, id, [Eject(true)]) == Append(log, id, [Eject(false), Eject(true)])
            && Append(l, id, [UnmountedEvent]) == Append(log, id, [Eject(false), UnmountedEvent])
  {
    hide Append;
    AppendOne(log, id, [Eject(false)], Eject(true), [Eject(false), Eject(true)]);
    AppendOne(log, id, [Eject(false)], UnmountedEvent, [Eject(false), UnmountedEvent]);
  }

  lemma AppendNothing(log: map<string, seq<Event>>, id: string)
    requires id in log
    ensures Append(log, id, []) == log
  {
    assert log[id] + [] == log[id];
  }

  /** Only the record of `id` may differ. */
  predicate OnlyAt(a: map<string, Volume>, b: map<string, Volume>, id: string) {
    id in a && id in b && b == a[id := b[id]]
  }

  lemma PathOnly(m: map<string, Volume>, id: string, path: string)
    requires id in m
    ensures OnlyAt(m, m, id) && OnlyAt(m, m[id := m[id].(path := path)], id)
  {
  }

  lemma OnlyAtKeys(a: map<string, Volume>, b: map<string, Volume>, id: string)
    requires OnlyAt(a, b, id)
    ensures a.Keys == b.Keys
  {
  }

  lemma OnlyAtTwice(a: map<string, Volume>, b: map<string, Volume>, c: map<string, Volume>, id: string)
    requires OnlyAt(a, b, id) && OnlyAt(b, c, id)
    ensures OnlyAt(a, c, id)
  {
    assert c == a[id := c[id]];
  }

  function WithState(m: map<string, Volume>, id: string, state: VolumeState): (r: map<string, Volume>)
    ensures r.Keys == m.Keys
  {
    if id in m then m[id := m[id].(state := state)] else m
  }

  lemma WithStateTwice(m: map<string, Volume>, id: string, a: VolumeState, b: VolumeState)
    ensures WithState(WithState(m, id, a), id, b) == WithState(m, id, b)
  {
  }

  lemma WithStateOnly(m: map<string, Volume>, id: string, s: VolumeState)
    requires id in m
    ensures OnlyAt(m, WithState(m, id, s), id) && WithState(m, id, s)[id] == m[id].(state := s)
  {
  }

  lemma WithStateSame(m: map<string, Volume>, id: string)
    requires id in m
    ensures WithState(m, id, m[id].state) == m
  {
  }

  lemma ClearIsPut(m: map<string, Volume>, id: string, s: VolumeState)
    requires id in m
    ensures var n := WithState(m, id, s);
            n[id := n[id].(path := "", state := Unmounted)] == m[id := m[id].(path := "", state := Unmounted)]
  {
  }

  /** Ask whether the volume may be unmounted, and unmount it if so. */
  function Attempt(w: World, id: string, v: Volume, r: UnmountReplies): (Side, int) {
    var refused := UnmountAllowed(w, v, r);
    if refused != E_OK then (w.side, refused) else UnmountPoints(w.side, id, v, r)
  }

  /** Unmounting looks at every field of a record but its state. */
  lemma EjectingSame(w: World, w': World, id: string, v: Volume, r: UnmountReplies)
    requires w'.disks == w.disks && w'.side == w.side
    ensures var u := v.(state := Ejecting);
            && UnmountPoints(w.side, id, u, r) == UnmountPoints(w.side, id, v, r)
            && Attempt(w', id, u, r) == Attempt(w, id, v, r)
  {
    hide IsUuidValid, IsFusePath, ExternalPath, Lower;
  }

  lemma DoUnmountIs(w: World, id: string, r: UnmountReplies)
    requires Logged(w) && id in w.volumes
    ensures var v := w.volumes[id];
            var (s, err) := Attempt(w, id, v, r);
            DoUnmount(w, id, r)
            == if err != E_OK then (World(w.disks, w.volumes, s, Append(w.log, id, [Eject(false), Eject(true)])), err)
               else (World(w.disks, w.volumes[id := v.(path := "", state := Unmounted)], s,
                           Append(w.log, id, [Eject(false), UnmountedEvent])), E_OK)
  {
    hide UnmountAllowed, UnmountPoints;
    assert w.volumes[id := w.volumes[id]] == w.volumes;
  }

  lemma PutIs(w: World, id: string, v: Volume, side: Side, events: seq<Event>, volumes: map<string, Volume>)
    requires id in w.log && (OnlyAt(w.volumes, volumes, id) || (id in w.volumes && volumes == w.volumes))
    ensures Put(w, id, v, side, events) == World(w.disks, volumes[id := v], side, Append(w.log, id, events))
    ensures id in volumes && volumes[id] == v ==>
              Put(w, id, v, side, events) == World(w.disks, volumes, side, Append(w.log, id, events))
  {
    assert volumes[id := v] == w.volumes[id := v];
    assert id in volumes && volumes[id] == v ==> volumes[id := v] == volumes;
  }

  /** `now` is `w` after some events of volume `id` and changes to its record that keep its UUID. */
  predicate Ahead(w: World, now: World, id: string, v: Volume, events: seq<Event>) {
    && Logged(w) && OnlyAt(w.volumes, now.volumes, id)
    && now.volumes[id] == v && v.uuid == w.volumes[id].uuid
    && now.disks == w.disks && now.log == Append(w.log, id, events)
  }

  /** Mounting looks at the disks and at the UUIDs of the registry. */
  lemma MountEntrySame(w: World, w': World, side: Side, id: string, v: Volume, r: MountReplies)
    requires w'.disks == w.disks && OnlyAt(w.volumes, w'.volumes, id) && w'.volumes[id].uuid == w.volumes[id].uuid
    ensures MountEntry(w', side, id, v, r) == MountEntry(w, side, id, v, r)
  {
    hide MountFilesystem, PolicyFor, CheckAndRepair, IsUuidValid, Dedup.Resolve, FsTypeOf;
    assert Uuids(w'.volumes) == Uuids(w.volumes);
  }

  lemma PathsNotEmpty(s: StoreModel.State, u: string)
    requires Sound(s)
    ensures u in s.table ==> s.table[u].mountPath != ""
    ensures u in Committed(s) ==> Committed(s)[u].mountPath != ""
    ensures ExternalPath(u) != ""
  {
    hide IsUuidValid, WellFormed;
    CommittedOk(s);
    SlotPathNotEmpty(s.table, u);
    SlotPathNotEmpty(Committed(s), u);
    assert EXTERNAL_ROOT[0] == '/';
  }

  lemma PurgedIs(w: World, diskId: string, volIds: seq<string>, fsUuids: seq<string>, unsaved: set<string>)
    requires forall k :: k in volIds <==> k in w.volumes && w.volumes[k].diskId == diskId
    requires forall u :: u in fsUuids <==> IsUuidValid(u) && exists k :: k in volIds && w.volumes[k].uuid == u
    ensures OnDisk(w, diskId) == SetOf(volIds)
    ensures PurgedUuids(w, diskId, unsaved) == SetOf(fsUuids) - unsaved
  {
    hide IsUuidValid;
  }

  lemma DoUnmountRegistered(w: World, id: string, r: UnmountReplies)
    requires Logged(w) && id in w.volumes
    ensures id in DoUnmount(w, id, r).0.volumes && id in DoUnmount(w, id, r).0.log
  {
    hide UnmountAllowed, UnmountPoints;
  }

  lemma LoggedNow(w: World, id: string)
    requires Logged(w) && id in w.volumes
    ensures id in w.log
  {
  }

  lemma DroppedLogged(w: World, id: string, log: map<string, seq<Event>>)
    requires Logged(w) && log.Keys == w.log.Keys
    ensures Logged(w.(volumes := w.volumes - {id}, log := log))
  {
  }

  /** Some volume stands for this partition. */
  predicate HasPart(w: World, diskId: string, part: nat) {
    exists id :: id in w.volumes && w.volumes[id].diskId == diskId && w.volumes[id].partitionNum == part
  }

  function RepairEvents(r: MountReplies): seq<Event> {
    [RepairStarted, if r.repair != 0 then RepairFailed else RepairSucceeded]
  }
}
