/**
 * `VoldataUuidStore`: the table in memory and the four files it lives in. Each file call may fail,
 * as its reply says; `trail` records the files at every instant a crash could leave behind.
 */
module VoldataStore {
  import opened Wrappers
  import opened Maps
  import opened Text
  import opened SlotMap
  import opened StoreModel
  import opened StoreFiles

  /** What the file system answers while one file is being written. */
  datatype WriteReply = WriteReply(dirOk: bool, openOk: bool, writeOk: bool, written: File, renameOk: bool)

  datatype SaveReply = SaveReply(main: WriteReply, backup: WriteReply)

  /** What the file system answers while the store loads. */
  datatype LoadReply = LoadReply(mainRead: Read, backupRead: Read, save: SaveReply)

  predicate Written(r: WriteReply) {
    r.dirOk && r.openOk && r.writeOk && r.renameOk
  }

  function AsSave(r: SaveReply): Save {
    Save(Written(r.main), Written(r.backup))
  }

  function AsBoot(r: LoadReply): Boot {
    Boot(r.mainRead, r.backupRead, AsSave(r.save))
  }

  predicate BothRead(r: LoadReply) {
    Whole(r.mainRead) && Whole(r.backupRead)
  }

  /** Both files can be read, whatever becomes of the save. */
  function Readable(r: SaveReply): LoadReply {
    LoadReply(Read(true, true), Read(true, true), r)
  }

  datatype Target = Main | Backup

  function WithFile(d: Files, t: Target, f: File): Files {
    if t == Main then d.(main := f) else d.(backup := f)
  }

  function WithTemp(d: Files, t: Target, f: File): Files {
    if t == Main then d.(mainTemp := f) else d.(backupTemp := f)
  }

  /** The same files apart from the temporary ones. */
  predicate SameFiles(d: Files, e: Files) {
    d.main == e.main && d.backup == e.backup
  }

  /** The table a process starting on these files ends up with, if it can read them. */
  function Recovered(d: Files): Slots {
    Opened(ViewOf(d.main), ViewOf(d.backup))
  }

  function Views(d: Files): (View, View) {
    (ViewOf(d.main), ViewOf(d.backup))
  }

  method FromJsonItem(item: Item) returns (entry: Option<Entry>)
    ensures entry == FromJson(item)
  {
    match item
    case Junk => return None;
    case Record(u, p) =>
      var slot := ParseVoldataSlotFromMountPath(p);
      if slot.None? || !IsUuidValid(u) {
        return None;
      }
      return Some(Entry(u, p, slot.value));
  }

  method ParseVoldataSlotFromMountPath(path: string) returns (slot: Option<nat>)
    ensures slot == ParseSlot(path)
  {
    var n := |VOLDATA_MOUNT_PREFIX|;
    if |path| <= n || path[..n] != VOLDATA_MOUNT_PREFIX {
      return None;
    }
    for i := n to |path|
      invariant forall j :: n <= j < i ==> Decimal.IsDigit(path[j])
    {
      if !Decimal.IsDigit(path[i]) {
        return None;
      }
    }
    var parsed := Decimal.Value(path[n..]);
    if parsed < 1 || parsed > MAX_SLOTS {
      return None;
    }
    return Some(parsed);
  }

  class VoldataUuidStore {
    var uuidMap: Slots
    var initialized: bool
    var files: Files
    ghost var saves: seq<(Slots, Save)>
    ghost var trail: seq<Files>

    ghost function Model(): State
      reads this
    {
      State(uuidMap, initialized, ViewOf(files.main), ViewOf(files.backup), saves)
    }

    /** The table a call goes on with once it has initialised the store. */
    ghost function Loaded(load: LoadReply): Slots
      reads this
    {
      Start(Model(), AsBoot(load)).0.table
    }

    /** The table can be written and read back, and once initialised it is what the main file says. */
    ghost predicate Valid()
      reads this
    {
      Loadable(uuidMap) && (initialized ==> ViewOf(files.main) == Holds(uuidMap))
    }

    /** Everything the files and the table hold was written by the store. */
    ghost predicate OwnFiles()
      reads this
    {
      OwnFilesAt(Model())
    }

    /** Every instant since `from` recovers one of the two tables. */
    ghost predicate CrashSafe(from: nat, before: Slots, after: Slots)
      requires from <= |trail|
      reads this
    {
      CrashSafeVia(from, before, before, after)
    }

    /** Every instant since `from` recovers one of the three tables. */
    ghost predicate CrashSafeVia(from: nat, before: Slots, loaded: Slots, after: Slots)
      requires from <= |trail|
      reads this
    {
      forall k :: from <= k < |trail| ==> Recovered(trail[k]) in {before, loaded, after}
    }

    constructor (files: Files)
      ensures Valid() && Model() == State(map[], false, ViewOf(files.main), ViewOf(files.backup), [])
      ensures this.files == files && trail == [files]
      ensures ViewOk(ViewOf(files.main)) && ViewOk(ViewOf(files.backup)) ==>
                StoreModel.Inv(Model(), ViewOf(files.backup))
    {
      uuidMap := map[];
      initialized := false;
      this.files := files;
      saves := [];
      trail := [files];
      new;
      if ViewOk(ViewOf(files.main)) && ViewOk(ViewOf(files.backup)) {
        StartsInInv(ViewOf(files.main), ViewOf(files.backup));
      }
    }

    // ---------- one file ----------

    method Instant(d: Files)
      modifies this`files, this`trail
      ensures files == d && trail == old(trail) + [d]
    {
      files := d;
      trail := trail + [d];
    }

    /**
     * Temp file, write, rename. The target changes only with the rename, so at every instant it is
     * either untouched or complete, and the other file is untouched throughout.
     */
    method SaveJsonToFile(t: Target, items: seq<Item>, r: WriteReply) returns (ok: bool)
      modifies this`files, this`trail
      ensures ok == Written(r)
      ensures SameFiles(files, if ok then WithFile(old(files), t, Array(items)) else old(files))
      ensures |old(trail)| <= |trail| && trail[..|old(trail)|] == old(trail)
      ensures forall k :: |old(trail)| <= k < |trail| ==>
                SameFiles(trail[k], old(files)) || (ok && SameFiles(trail[k], files))
    {
      if !r.dirOk || !r.openOk {
        return false;
      }
      Instant(WithTemp(files, t, Array([])));
      Instant(WithTemp(files, t, r.written));
      if !r.writeOk {
        Instant(WithTemp(files, t, Absent));
        return false;
      }
      Instant(WithTemp(files, t, Array(items)));
      if !r.renameOk {
        Instant(WithTemp(files, t, Absent));
        return false;
      }
      Instant(WithTemp(WithFile(files, t, Array(items)), t, Absent));
      return true;
    }

    // ---------- both files ----------

    /** The JSON array: one object per entry, in whatever order the table is walked. */
    method ToJsonArray() returns (items: seq<Item>)
      requires Loadable(uuidMap)
      ensures Array(items).Array? && ViewOf(Array(items)) == Holds(uuidMap)
    {
      hide Loadable, LoadableEntry, FromJson;
      items := [];
      var rest := uuidMap;
      ghost var seen: Slots := map[];
      AddNothing(uuidMap);
      while rest != map[]
        invariant seen + rest == uuidMap
        invariant forall u :: u in rest ==> u !in seen
        invariant Lists(items, seen)
        decreases rest.Keys
      {
        var u :| u in rest;
        KeyOfLoadable(uuidMap, u);
        ListsAppend(items, seen, u, rest[u]);
        MoveEntry(seen, rest, u);
        items := items + [ToJson(rest[u])];
        seen := seen[u := rest[u]];
        rest := rest - {u};
      }
      AddNothing(seen);
      ListedRoundTrip(items, uuidMap);
    }

    method SaveToFile(r: SaveReply) returns (ok: bool)
      requires Loadable(uuidMap)
      modifies this`files, this`trail, this`saves
      ensures Model() == StoreModel.SaveToFile(old(Model()), AsSave(r)) && ok == AsSave(r).mainOk
      ensures |old(trail)| <= |trail| && trail[..|old(trail)|] == old(trail)
      ensures CrashSafe(|old(trail)|, Recovered(old(files)), Recovered(files))
      ensures Recovered(files) == if ok then uuidMap else Recovered(old(files))
      ensures forall k :: |old(trail)| <= k < |trail| ==>
                || Views(trail[k]) == Views(old(files))
                || (ok && Views(trail[k]) == (Holds(uuidMap), ViewOf(old(files).backup)))
                || Views(trail[k]) == Views(files)
    {
      var items := ToJsonArray();
      var d0, n := files, |trail|;
      ok := SaveJsonToFile(Main, items, r.main);
      saves := saves + [(uuidMap, AsSave(r))];
      if !ok {
        return;
      }
      var d1, n1 := files, |trail|;
      ghost var t1 := trail;
      var backupOk := SaveJsonToFile(Backup, items, r.backup);
      assert forall k :: n <= k < n1 ==> trail[k] == t1[k];
    }

    // ---------- loading ----------

    method LoadJsonFromPath(f: File, readable: bool) returns (ok: bool)
      requires uuidMap == map[]
      modifies this`uuidMap
      ensures Loadable(uuidMap)
      ensures ok == Seen(ViewOf(f), Read(true, readable)).Holds?
      ensures uuidMap == if ok then ViewOf(f).table else map[]
    {
      if !readable || !f.Array? {
        return false;
      }
      var i := 0;
      while i < |f.items|
        invariant 0 <= i <= |f.items|
        invariant Loadable(uuidMap)
        invariant LoadItems(f.items[i..], uuidMap) == LoadItems(f.items, map[])
      {
        if |uuidMap| >= MAX_SLOTS {
          break;
        }
        LoadItemsLoadable([f.items[i]], uuidMap);
        assert f.items[i..][1..] == f.items[i + 1..];
        var entry := FromJsonItem(f.items[i]);
        if entry.Some? {
          uuidMap := uuidMap[entry.value.fsUuid := entry.value];
        }
        i := i + 1;
      }
      return true;
    }

    /**
     * Main if it can be read, else the backup, else nothing. A load that succeeds leaves files that
     * recover its table; one that fails leaves them recovering what they did.
     */
    method LoadFromFile(r: LoadReply) returns (ok: bool)
      requires !initialized
      modifies this
      ensures Loadable(uuidMap) && !initialized
      ensures (Model(), ok) == Load(old(Model()), AsBoot(r))
      ensures Recovered(files) == if ok then uuidMap else Recovered(old(files))
      ensures BothRead(r) ==> uuidMap == Recovered(old(files)) == Recovered(files)
      ensures |old(trail)| <= |trail| && trail[..|old(trail)|] == old(trail)
      ensures CrashSafe(|old(trail)|, Recovered(old(files)), Recovered(files))
    {
      hide Loadable, LoadItems, AsSave, Views;
      uuidMap := map[];
      EmptyLoadable();
      if files.main.Absent? || !r.mainRead.seen {
        ok := SaveToFile(r.save);
        return;
      }
      ok := LoadJsonFromPath(files.main, r.mainRead.readable);
      if ok {
        if files.backup.Absent? || !r.backupRead.seen {
          var ignored := SaveToFile(r.save);
        }
        return;
      }
      if !files.backup.Absent? && r.backupRead.seen {
        var recovered := LoadJsonFromPath(files.backup, r.backupRead.readable);
      }
      ok := SaveToFile(r.save);
    }

    // ---------- slots ----------

    method FindMinimumFreeSlotLocked() returns (slot: nat)
      ensures slot == LeastFreeFrom(uuidMap, 1)
    {
      for s := 1 to MAX_SLOTS + 1
        invariant LeastFreeFrom(uuidMap, 1) == LeastFreeFrom(uuidMap, s)
      {
        var used := false;
        var rest := uuidMap.Keys;
        while rest != {} && !used
          invariant rest <= uuidMap.Keys
          invariant used ==> !Free(uuidMap, s)
          invariant !used ==> forall u :: u in uuidMap && u !in rest ==> uuidMap[u].slot != s
          decreases rest, !used
        {
          var u :| u in rest;
          if uuidMap[u].slot == s {
            used := true;
          } else {
            rest := rest - {u};
          }
        }
        if !used {
          return s;
        }
      }
      return 1;
    }

    /** On a full table: erase the entry of slot 1, or any entry when no one has slot 1. */
    method EvictSlotOneIfFullLocked()
      requires Loadable(uuidMap)
      modifies this`uuidMap
      ensures Loadable(uuidMap) && |uuidMap| < MAX_SLOTS
      ensures |old(uuidMap)| < MAX_SLOTS ==> uuidMap == old(uuidMap)
      ensures |old(uuidMap)| == MAX_SLOTS ==>
                exists u :: u in old(uuidMap) && uuidMap == old(uuidMap) - {u}
                            && (old(uuidMap)[u].slot == 1 || Free(old(uuidMap), 1))
      ensures WellFormed(old(uuidMap)) ==> uuidMap == Evict(old(uuidMap))
    {
      hide LoadableEntry, IsUuidValid;
      ghost var before := uuidMap;
      if |uuidMap| < MAX_SLOTS {
        return;
      }
      var rest := uuidMap.Keys;
      while rest != {}
        invariant rest <= uuidMap.Keys && uuidMap == before
        invariant forall u :: u in uuidMap && u !in rest ==> uuidMap[u].slot != 1
        decreases rest
      {
        var u :| u in rest;
        if uuidMap[u].slot == 1 {
          RemoveCount(uuidMap, u);
          uuidMap := uuidMap - {u};
          return;
        }
        rest := rest - {u};
      }
      if WellFormed(before) {
        var w := FullUsesSlotOne(before);
        assert false;
      }
      var any :| any in uuidMap;
      RemoveCount(uuidMap, any);
      uuidMap := uuidMap - {any};
    }

    method AllocateNextSlotLocked() returns (slot: nat)
      requires Loadable(uuidMap)
      modifies this`uuidMap
      ensures Loadable(uuidMap) && |uuidMap| < MAX_SLOTS && 1 <= slot <= MAX_SLOTS
      ensures uuidMap.Keys <= old(uuidMap.Keys)
      ensures slot == LeastFreeFrom(uuidMap, 1)
      ensures WellFormed(old(uuidMap)) ==> uuidMap == Evict(old(uuidMap))
    {
      EvictSlotOneIfFullLocked();
      slot := FindMinimumFreeSlotLocked();
      LeastFreeSpec(uuidMap, 1);
    }

    // ---------- public calls ----------

    method Init(r: LoadReply) returns (ok: bool)
      requires Valid()
      modifies this
      ensures Valid() && ok == initialized
      ensures (Model(), ok) == Start(old(Model()), AsBoot(r))
      ensures Recovered(files) == if ok then uuidMap else Recovered(old(files))
      ensures BothRead(r) ==>
                uuidMap == (if old(initialized) then old(uuidMap) else Recovered(old(files))) == Recovered(files)
      ensures |old(trail)| <= |trail| && trail[..|old(trail)|] == old(trail)
      ensures CrashSafe(|old(trail)|, Recovered(old(files)), Recovered(files))
    {
      if initialized {
        return true;
      }
      ok := LoadFromFile(r);
      initialized := ok;
    }

    method UnInit()
      requires Valid()
      modifies this`uuidMap, this`initialized
      ensures Valid()
      ensures Model() == Step(old(Model()), StoreModel.UnInit)
    {
      if !initialized {
        return;
      }
      uuidMap := map[];
      initialized := false;
    }

    /** Save the table; when the main file cannot be written, put the previous table back. */
    method SaveOrRestore(previous: Slots, r: SaveReply) returns (ok: bool)
      requires Loadable(uuidMap) && Loadable(previous)
      requires initialized && ViewOf(files.main) == Holds(previous)
      modifies this
      ensures Valid() && initialized && ok == AsSave(r).mainOk
      ensures Model() == Commit(old(Model()).(table := previous), old(uuidMap), AsSave(r))
      ensures |old(trail)| <= |trail| && trail[..|old(trail)|] == old(trail)
      ensures CrashSafe(|old(trail)|, previous, uuidMap) && Recovered(files) == uuidMap
    {
      ok := SaveToFile(r);
      if !ok {
        uuidMap := previous;
      }
    }

    method ResolveMountPath(u: string, load: LoadReply, r: SaveReply)
      returns (ok: bool, path: string, created: bool)
      requires Valid()
      modifies this
      ensures Valid()
      ensures old(OwnFiles()) ==>
                (Model(), if ok then Some(path) else None) == ResolveStep(old(Model()), u, AsBoot(load), AsSave(r))
      ensures ok ==> initialized && u in uuidMap && uuidMap[u].mountPath == path
      ensures created <==> ok && u !in old(Loaded(load))
      ensures |old(trail)| <= |trail| && trail[..|old(trail)|] == old(trail)
      ensures CrashSafeVia(|old(trail)|, Recovered(old(files)), old(Loaded(load)), Recovered(files))
      ensures BothRead(load) ==> CrashSafe(|old(trail)|, Recovered(old(files)), Recovered(files))
    {
      hide Loadable, IsUuidValid, WellFormed, LeastFreeFrom, ViewOf, Evict, StoreModel.Load;
      ghost var s0 := Model();
      created, path := false, "";
      StartWhole(s0, load);
      if !IsUuidValid(u) {
        return false, path, false;
      }
      ok := Init(load);
      if !ok {
        return;
      }
      if u in uuidMap {
        path := uuidMap[u].mountPath;
        return;
      }
      ghost var n1, t1 := |trail|, trail;
      var previous := uuidMap;
      var slot := AllocateNextSlotLocked();
      var entry := Entry(u, SlotPath(slot), slot);
      NewEntryLoadable(uuidMap, entry);
      uuidMap := uuidMap[u := entry];
      ok := SaveOrRestore(previous, r);
      assert forall k :: 0 <= k < n1 ==> trail[k] == t1[k];
      if ok {
        path, created := entry.mountPath, true;
      }
      if OwnFilesAt(s0) {
        StartWellFormed(s0, AsBoot(load));
      }
    }

    method RemoveByFsUuid(u: string, load: LoadReply, r: SaveReply) returns (ok: bool)
      requires Valid()
      modifies this
      ensures Valid()
      ensures (Model(), ok) == RemoveStep(old(Model()), u, AsBoot(load), AsSave(r))
      ensures ok ==> initialized && u !in uuidMap
      ensures |old(trail)| <= |trail| && trail[..|old(trail)|] == old(trail)
      ensures CrashSafeVia(|old(trail)|, Recovered(old(files)), old(Loaded(load)), Recovered(files))
      ensures BothRead(load) ==> CrashSafe(|old(trail)|, Recovered(old(files)), Recovered(files))
    {
      hide LoadableEntry, IsUuidValid, ViewOf, StoreModel.Load;
      StartWhole(Model(), load);
      if !IsUuidValid(u) {
        return false;
      }
      ok := Init(load);
      if !ok || u !in uuidMap {
        return;
      }
      ghost var n1, t1 := |trail|, trail;
      var previous := uuidMap;
      RemoveCount(uuidMap, u);
      uuidMap := uuidMap - {u};
      ok := SaveOrRestore(previous, r);
      assert forall k :: 0 <= k < n1 ==> trail[k] == t1[k];
    }

    method ReplaceFsUuid(prior: string, next: string, load: LoadReply, r: SaveReply) returns (ok: bool)
      requires Valid()
      modifies this
      ensures Valid()
      ensures (Model(), ok) == ReplaceStep(old(Model()), prior, next, AsBoot(load), AsSave(r))
      ensures |old(trail)| <= |trail| && trail[..|old(trail)|] == old(trail)
      ensures CrashSafeVia(|old(trail)|, Recovered(old(files)), old(Loaded(load)), Recovered(files))
      ensures BothRead(load) ==> CrashSafe(|old(trail)|, Recovered(old(files)), Recovered(files))
    {
      hide Loadable, IsUuidValid, ViewOf, StoreModel.Load;
      StartWhole(Model(), load);
      if !IsUuidValid(prior) || !IsUuidValid(next) {
        return false;
      }
      if prior == next {
        return true;
      }
      ok := Init(load);
      if !ok || prior !in uuidMap {
        return;
      }
      if next in uuidMap {
        return false;
      }
      ghost var n1, t1 := |trail|, trail;
      var previous := uuidMap;
      var entry := uuidMap[prior].(fsUuid := next);
      ReplacedLoadable(uuidMap, prior, next);
      uuidMap := uuidMap - {prior};
      uuidMap := uuidMap[next := entry];
      ok := SaveOrRestore(previous, r);
      assert forall k :: 0 <= k < n1 ==> trail[k] == t1[k];
    }

    method TryGetMountPath(u: string) returns (found: bool, path: string)
      ensures found <==> IsUuidValid(u) && u in uuidMap
      ensures found ==> path == uuidMap[u].mountPath
    {
      if !IsUuidValid(u) || u !in uuidMap {
        return false, "";
      }
      return true, uuidMap[u].mountPath;
    }
  }

  /**
   * A process that starts on the files some instant left behind and can read them has exactly the
   * table they recover: with the crash guarantees of the calls above, the one before the interrupted
   * call, the one it loaded, or the one after it.
   */
  method Restart(files: Files, r: LoadReply) returns (s: VoldataUuidStore, ok: bool)
    ensures fresh(s) && s.Valid() && ok == s.initialized
    ensures s.uuidMap == Opened(Seen(ViewOf(files.main), r.mainRead), Seen(ViewOf(files.backup), r.backupRead))
    ensures BothRead(r) ==> s.uuidMap == Recovered(files)
  {
    s := new VoldataUuidStore(files);
    ok := s.Init(r);
  }

  lemma EmptyLoadable()
    ensures Loadable(map[])
  {
  }

  lemma StartWhole(s: State, r: LoadReply)
    requires s.initialized ==> s.main == Holds(s.table)
    ensures BothRead(r) ==> Start(s, AsBoot(r)).0.table == Opened(s.main, s.backup)
  {
  }

  lemma KeyOfLoadable(m: Slots, u: string)
    requires Loadable(m) && u in m
    ensures m[u].fsUuid == u
  {
    assert LoadableEntry(u, m[u]);
  }

  predicate OwnFilesAt(s: State) {
    WellFormed(s.table) && ViewOk(s.main) && ViewOk(s.backup)
  }

  lemma StartWellFormed(s: State, r: Boot)
    requires OwnFilesAt(s)
    ensures WellFormed(Start(s, r).0.table)
  {
    hide WellFormed;
    EmptyWellFormed();
  }

  lemma NewEntryLoadable(m: Slots, e: Entry)
    requires Loadable(m) && |m| < MAX_SLOTS
    requires IsUuidValid(e.fsUuid) && 1 <= e.slot <= MAX_SLOTS && e.mountPath == SlotPath(e.slot)
    ensures Loadable(m[e.fsUuid := e])
  {
    hide IsUuidValid, ParseSlot;
    SlotPathRoundTrip(e.slot);
    assert m[e.fsUuid := e].Keys == m.Keys + {e.fsUuid};
  }

  lemma ReplacedLoadable(m: Slots, prior: string, next: string)
    requires Loadable(m) && prior in m && next !in m && IsUuidValid(next)
    ensures Loadable(Replace(m, prior, next))
  {
    hide IsUuidValid, ParseSlot;
    RemoveCount(m, prior);
    AddCount(m - {prior}, next, m[prior].(fsUuid := next));
    assert LoadableEntry(prior, m[prior]);
  }
}
