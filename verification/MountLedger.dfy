/**
 * The kernel's mount table, to the mount: one for every MOUNTED volume at its path, one more at the
 * external path for every volume the FUSE daemon was told of, and no other. Which calls keep it so is
 * decided call by call, exactly.
 */
module MountLedger {
  import opened Maps
  import opened Text
  import opened SlotMap
  import opened Volumes
  import opened VolumeInvariants
  import opened MountTable
  import opened VolumeRuns
  import opened MountOutcomes
  import Dedup

  predicate Sits(v: Volume, p: string) {
    v.state == Mounted && v.path == p
  }

  predicate Lends(v: Volume, told: bool, p: string) {
    told && ExternalPath(v.uuid) == p
  }

  function Sitting(volumes: map<string, Volume>, p: string): set<string> {
    set id | id in volumes && Sits(volumes[id], p)
  }

  function Lending(volumes: map<string, Volume>, fuse: set<string>, p: string): set<string> {
    set id | id in volumes && Lends(volumes[id], id in fuse, p)
  }

  /** The FUSE daemon is told only of volumes that are MOUNTED through it. */
  predicate MayBeTold(v: Volume) {
    v.state == Mounted && IsFusePath(v.path) && IsUuidValid(v.uuid)
  }

  predicate ToldOk(volumes: map<string, Volume>, fuse: set<string>) {
    forall id :: id in fuse ==> id in volumes && MayBeTold(volumes[id])
  }

  ghost predicate Counted(volumes: map<string, Volume>, side: Side) {
    forall p :: side.mounts[p] == |Sitting(volumes, p)| + |Lending(volumes, side.fuse, p)|
  }

  ghost predicate Exact(w: World) {
    Counted(w.volumes, w.side) && ToldOk(w.volumes, w.side.fuse)
  }

  // ---------- one volume at a time ----------

  /** How many mounts at p a volume accounts for. */
  function Weight(v: Volume, told: bool, p: string): nat {
    One(Sits(v, p)) + One(Lends(v, told, p))
  }

  /** From `a` to `b` the table moves by what the volume's account moves from `v` to `u`. */
  ghost predicate Balanced(a: Side, v: Volume, b: Side, u: Volume, id: string) {
    && (id in b.fuse ==> MayBeTold(u))
    && forall p :: b.mounts[p] + Weight(v, id in a.fuse, p) == a.mounts[p] + Weight(u, id in b.fuse, p)
  }

  lemma SplitOff(volumes: map<string, Volume>, fuse: set<string>, id: string, p: string)
    requires id in volumes
    ensures |Sitting(volumes, p)| + |Lending(volumes, fuse, p)|
            == |Sitting(volumes - {id}, p)| + |Lending(volumes - {id}, fuse, p)| + Weight(volumes[id], id in fuse, p)
  {
    var v, rest := volumes[id], volumes - {id};
    assert Sitting(volumes, p) == if Sits(v, p) then Sitting(rest, p) + {id} else Sitting(rest, p);
    assert Lending(volumes, fuse, p)
        == if Lends(v, id in fuse, p) then Lending(rest, fuse, p) + {id} else Lending(rest, fuse, p);
  }

  lemma SameRest(volumes: map<string, Volume>, a: set<string>, b: set<string>, id: string, p: string)
    requires a - {id} == b - {id}
    ensures Lending(volumes - {id}, a, p) == Lending(volumes - {id}, b, p)
  {
    assert forall k :: k != id ==> (k in a <==> k in a - {id}) && (k in b <==> k in b - {id});
  }

  /** Writing back one volume keeps the table exact exactly if the books balance. */
  lemma PutExact(w: World, id: string, u: Volume, side: Side, events: seq<Event>)
    requires Exact(w) && Logged(w) && id in w.volumes && side.fuse - {id} == w.side.fuse - {id}
    ensures Exact(Put(w, id, u, side, events)) <==> Balanced(w.side, w.volumes[id], side, u, id)
  {
    hide Sitting, Lending, Weight, MayBeTold;
    var after := w.volumes[id := u];
    assert after - {id} == w.volumes - {id};
    forall p
      ensures side.mounts[p] == |Sitting(after, p)| + |Lending(after, side.fuse, p)|
              <==> side.mounts[p] + Weight(w.volumes[id], id in w.side.fuse, p)
                   == w.side.mounts[p] + Weight(u, id in side.fuse, p)
    {
      SplitOff(w.volumes, w.side.fuse, id, p);
      SplitOff(after, side.fuse, id, p);
      SameRest(w.volumes, w.side.fuse, side.fuse, id, p);
    }
    ToldPut(w.volumes, w.side.fuse, side.fuse, id, u);
  }

  lemma ToldPut(volumes: map<string, Volume>, a: set<string>, b: set<string>, id: string, u: Volume)
    requires ToldOk(volumes, a) && a - {id} == b - {id}
    ensures ToldOk(volumes[id := u], b) <==> (id in b ==> MayBeTold(u))
    ensures ToldOk(volumes - {id}, b) <==> id !in b
  {
    hide MayBeTold;
    assert forall k :: k != id ==> (k in a <==> k in a - {id}) && (k in b <==> k in b - {id});
  }

  /** Dropping a volume is, for the table, the same as unmounting it. */
  lemma DropExact(w: World, e: World, id: string)
    requires Exact(w) && id in w.volumes && e.volumes == w.volumes - {id}
    requires e.side.fuse - {id} == w.side.fuse - {id}
    ensures Exact(e) <==> Balanced(w.side, w.volumes[id], e.side, Ejected(w.volumes[id]), id)
  {
    hide Sitting, Lending;
    var u := Ejected(w.volumes[id]);
    if id !in e.side.fuse {
      forall p
        ensures e.side.mounts[p] == |Sitting(e.volumes, p)| + |Lending(e.volumes, e.side.fuse, p)|
                <==> e.side.mounts[p] + Weight(w.volumes[id], id in w.side.fuse, p)
                     == w.side.mounts[p] + Weight(u, false, p)
      {
        SplitOff(w.volumes, w.side.fuse, id, p);
        SameRest(w.volumes, w.side.fuse, e.side.fuse, id, p);
      }
    }
    ToldPut(w.volumes, w.side.fuse, e.side.fuse, id, u);
  }

  /** Nothing a volume accounts for changes. */
  lemma Idle(w: World, id: string, u: Volume)
    requires Exact(w) && id in w.volumes
    requires var v := w.volumes[id];
             (v.state != Mounted && u.state != Mounted) || (u.state == v.state && u.path == v.path && u.uuid == v.uuid)
    ensures Balanced(w.side, w.volumes[id], w.side, u, id)
  {
    hide Sitting, Lending, IsUuidValid, IsFusePath, ExternalPath;
  }

  // ---------- unmounting ----------

  /** The unmount stops half-way: the data mount is gone, a later step of the FUSE unmount failed. */
  predicate Torn(v: Volume, r: UnmountReplies) {
    v.path != "" && r.data == 0 && !ComesDown(v, r)
  }

  /** A MOUNTED volume's own mounts are there, and no other volume has one at its external path. */
  lemma Present(w: World, id: string)
    requires Inv(w) && Exact(w) && id in w.volumes && w.volumes[id].state == Mounted
    ensures var v := w.volumes[id]; var p, x := v.path, ExternalPath(v.uuid);
            && w.side.mounts[p] >= 1
            && (id in w.side.fuse ==> w.side.mounts[x] >= 1 && x != p)
            && (id !in w.side.fuse && IsFusePath(p) ==> w.side.mounts[x] == 0)
  {
    hide Core, Seated, Sitting, Lending, IsUuidValid, IsFusePath, ExternalPath;
    var v := w.volumes[id];
    var p, x := v.path, ExternalPath(v.uuid);
    SplitOff(w.volumes, w.side.fuse, id, p);
    SplitOff(w.volumes, w.side.fuse, id, x);
    ExternalIsNotFuse(v.uuid);
    if id !in w.side.fuse && IsFusePath(p) {
      NoneAtExternal(w, id);
    }
  }

  lemma ExternalIsNotFuse(uuid: string)
    ensures !IsFusePath(ExternalPath(uuid))
  {
    RootChars(uuid);
  }

  lemma NoneAtExternal(w: World, id: string)
    requires Inv(w) && Exact(w) && id in w.volumes && w.volumes[id].state == Mounted
    requires id !in w.side.fuse && IsFusePath(w.volumes[id].path)
    ensures var x := ExternalPath(w.volumes[id].uuid);
            Sitting(w.volumes, x) == {} && Lending(w.volumes, w.side.fuse, x) == {}
  {
    hide Core, Covered, LogOk, PathFits, IsUuidValid, IsFusePath, ExternalPath, Counted;
    var uuid := w.volumes[id].uuid;
    PlacedNow(w, id);
    NoOtherHolder(w, id);
    ExternalIsNotFuse(uuid);
    forall k | k in w.volumes ensures !Sits(w.volumes[k], ExternalPath(uuid))
      ensures !Lends(w.volumes[k], k in w.side.fuse, ExternalPath(uuid))
    {
      if k != id {
        assert Sits(w.volumes[k], ExternalPath(uuid)) ==> k in Holders(w.volumes - {id}, ExternalPath(uuid));
        UuidsApart(w, id, k);
        SameRootSameUuid(uuid, w.volumes[k].uuid);
      }
    }
  }

  lemma UuidsApart(w: World, a: string, b: string)
    requires Core(w) && a in w.volumes && b in w.volumes && a != b && w.volumes[a].uuid != ""
    ensures w.volumes[a].uuid != w.volumes[b].uuid
  {
    hide LogOk, AllTidy, WellFormed;
    assert Uuids(w.volumes)[a] == w.volumes[a].uuid && Uuids(w.volumes)[b] == w.volumes[b].uuid;
  }

  /** Taking down the mounts a MOUNTED volume accounts for, which are there, settles its account. */
  lemma Settled(m: multiset<string>, v: Volume, told: bool)
    requires v.state == Mounted && m[v.path] >= 1
    requires told ==> m[ExternalPath(v.uuid)] >= 1 && ExternalPath(v.uuid) != v.path
    ensures !told ==> forall q :: (m - multiset{v.path})[q] + Weight(v, told, q) == m[q]
    ensures told || m[ExternalPath(v.uuid)] == 0 ==>
              forall q :: (m - multiset{v.path} - multiset{ExternalPath(v.uuid)})[q] + Weight(v, told, q) == m[q]
  {
    hide ExternalPath;
  }

  lemma Down(a: Side, v: Volume, b: Side, id: string)
    ensures Balanced(a, v, b, Ejected(v), id)
            <==> id !in b.fuse && forall p :: b.mounts[p] + Weight(v, id in a.fuse, p) == a.mounts[p]
  {
    hide ExternalPath, IsUuidValid;
  }

  lemma Unsettled(a: Side, v: Volume, b: Side, u: Volume, id: string)
    requires v.state == Mounted && (u == v || u == Ejected(v)) && (id in b.fuse <==> id in a.fuse)
    requires if u == v then b.mounts[v.path] < a.mounts[v.path] else b.mounts[v.path] >= a.mounts[v.path]
    ensures !Balanced(a, v, b, u, id)
  {
    hide ExternalPath, IsUuidValid, IsFusePath;
    assert u != v && id !in b.fuse ==> Weight(u, false, v.path) == 0 && Weight(v, id in a.fuse, v.path) >= 1;
    assert Balanced(a, v, b, u, id) ==>
             b.mounts[v.path] + Weight(v, id in a.fuse, v.path) == a.mounts[v.path] + Weight(u, id in b.fuse, v.path);
  }

  lemma Lessened(m: multiset<string>, p: string, x: string)
    requires m[p] >= 1
    ensures (m - multiset{p})[p] < m[p] && (m - multiset{p} - multiset{x})[p] < m[p]
  {
  }

  /**
   * Unmounting keeps the books, with the record it ends with, unless it stops half-way; it keeps them
   * for a volume that is gone if it succeeds, or if it stops half-way on one FUSE was not told of.
   */
  lemma PointsBalance(w: World, id: string, r: UnmountReplies)
    requires Inv(w) && Exact(w) && id in w.volumes && w.volumes[id].state == Mounted
    ensures var v := w.volumes[id];
            var (s, err) := UnmountPoints(w.side, id, v, r);
            && s.fuse - {id} == w.side.fuse - {id}
            && (Balanced(w.side, v, s, if err == E_OK then Ejected(v) else v, id) <==> !Torn(v, r))
            && (Balanced(w.side, v, s, Ejected(v), id)
                <==> ComesDown(v, r) || (Torn(v, r) && id !in w.side.fuse))
  {
    hide Core, Seated, Exact, IsUuidValid, IsFusePath, ExternalPath, Balanced, Weight, ComesDown, UnmountPoints,
      MountsWithout;
    var v := w.volumes[id];
    var p, x, m := v.path, ExternalPath(v.uuid), w.side.mounts;
    TidyNow(w, id);
    Present(w, id);
    ToldNow(w, id);
    Settled(m, v, id in w.side.fuse);
    Lessened(m, p, x);
    PointsExactly(w.side, id, v, r);
    DownSide(w.side, id, v);
    var (s, err) := UnmountPoints(w.side, id, v, r);
    Down(w.side, v, s, id);
    Idle(w, id, v);
    if r.data != 0 {
      DataFirst(v, r);
      Unsettled(w.side, v, s, Ejected(v), id);
    } else if Torn(v, r) {
      TornSide(w.side, id, v, r);
      Unsettled(w.side, v, s, v, id);
    }
  }

  lemma DataFirst(v: Volume, r: UnmountReplies)
    requires r.data != 0 && v.path != ""
    ensures !ComesDown(v, r)
  {
  }

  /** What an unmount that stops half-way has done. */
  lemma TornSide(side: Side, id: string, v: Volume, r: UnmountReplies)
    requires Torn(v, r)
    ensures var s := UnmountPoints(side, id, v, r).0;
            && IsFusePath(v.path) && s.fuse == side.fuse
            && s.mounts in {side.mounts - multiset{v.path},
                            side.mounts - multiset{v.path} - multiset{ExternalPath(v.uuid)}}
  {
    hide IsUuidValid, IsFusePath, ExternalPath;
  }

  lemma DownSide(side: Side, id: string, v: Volume)
    requires v.path != ""
    ensures var s := SideWithout(side, id, v);
            && s.fuse == (if IsFusePath(v.path) then side.fuse - {id} else side.fuse)
            && s.fuse - {id} == side.fuse - {id}
            && s.mounts == if IsFusePath(v.path) && IsUuidValid(v.uuid)
                           then side.mounts - multiset{v.path} - multiset{ExternalPath(v.uuid)}
                           else side.mounts - multiset{v.path}
  {
    hide IsUuidValid, IsFusePath, ExternalPath;
  }

  lemma TidyNow(w: World, id: string)
    requires Core(w) && id in w.volumes
    ensures Tidy(w.volumes[id])
  {
  }

  lemma ToldNow(w: World, id: string)
    requires Exact(w) && id in w.volumes
    ensures id in w.side.fuse ==> MayBeTold(w.volumes[id])
  {
  }

  // ---------- mounting ----------

  /** A FUSE mount was made for a mount that then failed. */
  predicate MustUndo(uuid: string, fuse: bool, r: MountReplies) {
    fuse && r.fuseStillOn && IsUuidValid(uuid) && r.fuseMount == 0 && (r.fuseNotify != 0 || r.mount != 0)
  }

  /** The FUSE mount is taken back, and so is the notification if it had been made. */
  predicate Undoes(r: MountReplies) {
    r.undoFuseUnmount == 0 && (r.fuseNotify == 0 ==> r.undoFuseNotify == 0)
  }

  /** What a failing mount that does not have to undo anything, or undoes it, leaves as it was; and what it leaves. */
  lemma FailedSide(side: Side, id: string, v: Volume, p: Policy, r: MountReplies)
    requires WellFormed(side.slots) && id !in side.fuse && (p.fuse ==> !p.voldata && !p.dvr)
    requires MountFilesystem(side, true, id, v, p, r).err != E_OK
    ensures var s := MountFilesystem(side, true, id, v, p, r).side;
            && (!MustUndo(v.uuid, p.fuse, r) || Undoes(r) ==> s.mounts == side.mounts && s.fuse == side.fuse)
            && (MustUndo(v.uuid, p.fuse, r) && !Undoes(r) ==>
                  || (s.mounts == side.mounts + multiset{ExternalPath(v.uuid)} && s.fuse == side.fuse)
                  || s.fuse == side.fuse + {id})
  {
    hide IsUuidValid, WellFormed, MountData, ExternalPath;
    var path := ExternalPath(v.uuid);
    AddDropMounts(side.mounts, path);
    DataLeaves(side, false, id, v, p, r);
    if p.fuse && IsUuidValid(v.uuid) {
      DataLeaves(AddMount(side, path).(fuse := side.fuse + {id}), true, id, v, p, r);
    }
    assert side.fuse + {id} - {id} == side.fuse;
  }

  lemma AddDropMounts(m: multiset<string>, p: string)
    ensures m + multiset{p} - multiset{p} == m
  {
  }

  /** The data part of a failing mount. */
  lemma DataLeaves(side: Side, fuseMounted: bool, id: string, v: Volume, p: Policy, r: MountReplies)
    requires WellFormed(side.slots)
    requires fuseMounted ==>
               p.fuse && !p.voldata && !p.dvr && IsUuidValid(v.uuid) && ExternalPath(v.uuid) in side.mounts
    ensures var m := MountData(side, true, fuseMounted, id, v, p, r);
            m.err != E_OK ==>
              && (!fuseMounted ==> m.side.mounts == side.mounts && m.side.fuse == side.fuse)
              && (fuseMounted ==>
                    && r.mount != 0
                    && m.side.mounts == (if r.undoFuseUnmount == 0 then side.mounts - multiset{ExternalPath(v.uuid)}
                                         else side.mounts)
                    && m.side.fuse == if r.undoFuseUnmount == 0 && r.undoFuseNotify == 0 then side.fuse - {id}
                                      else side.fuse)
  {
    hide IsUuidValid, WellFormed, ExternalPath, TakeSlot;
    DataPathOk(side, v.uuid, p, r);
    RootChars(v.uuid);
  }

  lemma FailedBalance(a: Side, v: Volume, b: Side, u: Volume, id: string, x: string)
    requires v.state != Mounted && u.state != Mounted && id !in a.fuse
    ensures b.mounts == a.mounts && b.fuse == a.fuse ==> Balanced(a, v, b, u, id)
    ensures b.mounts == a.mounts + multiset{x} || id in b.fuse ==> !Balanced(a, v, b, u, id)
  {
    hide IsUuidValid, IsFusePath, ExternalPath;
    if b.mounts == a.mounts + multiset{x} && id !in b.fuse {
      assert b.mounts[x] == a.mounts[x] + 1 && Weight(u, false, x) == 0;
    }
  }

  /** A mount that succeeds adds what the MOUNTED volume accounts for. */
  lemma UpBalance(a: Side, v: Volume, b: Side, u: Volume, id: string, fused: bool)
    requires v.state != Mounted && u.state == Mounted && id !in a.fuse
    requires b.mounts == (if fused then a.mounts + multiset{ExternalPath(u.uuid)} + multiset{u.path}
                          else a.mounts + multiset{u.path})
    requires b.fuse == if fused then a.fuse + {id} else a.fuse
    requires fused ==> MayBeTold(u)
    ensures Balanced(a, v, b, u, id)
  {
    hide IsUuidValid, IsFusePath, ExternalPath;
  }

  lemma FilesystemBalance(w: World, side: Side, id: string, v: Volume, r: MountReplies)
    requires WellFormed(side.slots) && v.state != Mounted && id !in side.fuse
    ensures var p := PolicyFor(w.disks, v.diskId, v.fsType, r.fuseOn);
            var m := MountFilesystem(side, true, id, v, p, r);
            var u := if m.err == E_OK then m.vol else m.vol.(state := Unmounted);
            && m.side.fuse - {id} == side.fuse - {id}
            && (Balanced(side, v, m.side, u, id)
                <==> MustUndo(v.uuid, ThroughFuse(w.disks, v.diskId, r), r) ==> Undoes(r))
  {
    hide IsUuidValid, WellFormed, MountFilesystem, PolicyFor, ThroughFuse, UsesVoldata, ExternalPath, SlotComes,
      SlotTaken, Balanced;
    var p := PolicyFor(w.disks, v.diskId, v.fsType, r.fuseOn);
    PolicyExactly(w.disks, v.diskId, v.fsType, r);
    FilesystemExactly(w, side, id, v, r);
    var m := MountFilesystem(side, true, id, v, p, r);
    if m.err == E_OK {
      var fused := ThroughFuse(w.disks, v.diskId, r);
      if fused {
        RootChars(v.uuid);
      }
      UpBalance(side, v, m.side, m.vol, id, fused && r.fuseStillOn);
    } else {
      FailedSide(side, id, v, p, r);
      FailedBalance(side, v, m.side, m.vol.(state := Unmounted), id, ExternalPath(v.uuid));
    }
  }

  /** A mount from this record leaves no FUSE mount or notification behind when it fails. */
  ghost predicate CleansUp(w: World, id: string, v: Volume, r: MountReplies) {
    HasUuid(v, r) && MustUndo(UuidFor(w, id, v, r), ThroughFuse(w.disks, v.diskId, r), r) ==> Undoes(r)
  }

  lemma SameStart(a: Side, v: Volume, u: Volume, b: Side, x: Volume, id: string)
    requires v.state != Mounted && u.state != Mounted && id !in a.fuse
    ensures Balanced(a, v, b, x, id) <==> Balanced(a, u, b, x, id)
  {
    hide IsUuidValid, IsFusePath, ExternalPath;
    assert forall p :: Weight(v, id in a.fuse, p) == 0 && Weight(u, id in a.fuse, p) == 0;
  }

  lemma Onward(a: Side, v: Volume, b: Side, u: Volume, c: Side, x: Volume, id: string)
    requires Balanced(a, v, b, u, id)
    ensures Balanced(a, v, c, x, id) <==> Balanced(b, u, c, x, id)
  {
    hide Weight, MayBeTold;
    forall p ensures c.mounts[p] + Weight(v, id in a.fuse, p) == a.mounts[p] + Weight(x, id in c.fuse, p)
                     <==> c.mounts[p] + Weight(u, id in b.fuse, p) == b.mounts[p] + Weight(x, id in c.fuse, p)
    {
      assert b.mounts[p] + Weight(v, id in a.fuse, p) == a.mounts[p] + Weight(u, id in b.fuse, p);
    }
  }

  lemma NoFuseOnDataDisk(w: World, v: Volume, fsType: string, r: MountReplies)
    ensures UsesVoldata(w.disks, v.diskId, fsType) ==> !ThroughFuse(w.disks, v.diskId, r)
  {
    hide Lower;
  }

  lemma EntryBalance(w: World, side: Side, id: string, v: Volume, r: MountReplies)
    requires WellFormed(side.slots) && v.state != Mounted && id !in side.fuse && id in w.volumes
    ensures var m := MountEntry(w, side, id, v, r);
            && m.side.fuse - {id} == side.fuse - {id}
            && (Balanced(side, v, m.side, m.vol, id) <==> CleansUp(w, id, v, r))
  {
    hide IsUuidValid, WellFormed, MountFilesystem, PolicyFor, ThroughFuse, UsesVoldata, ExternalPath, EnsureUuid,
      Balanced, CheckAndRepair, HasUuid, UuidFor, TypeFor, MustUndo, Undoes;
    UuidExactly(w, id, v, r);
    CheckExactly(r);
    var (u, err) := EnsureUuid(w.volumes, id, v, r);
    NoFuseOnDataDisk(w, v, u.fsType, r);
    PolicyExactly(w.disks, u.diskId, u.fsType, r);
    var m := MountEntry(w, side, id, v, r);
    if m.side == side && m.vol.state != Mounted {
      FailedBalance(side, v, side, m.vol, id, "");
    }
    NoUndo(u.uuid, r);
    if err == E_OK {
      var p := PolicyFor(w.disks, u.diskId, u.fsType, r.fuseOn);
      var state := if p.voldata then CheckAndRepair(r).0 else u.state;
      var u' := u.(state := state);
      FilesystemBalance(w, side, id, u', r);
      SameStart(side, v, u', m.side, m.vol, id);
    }
  }

  lemma NoUndo(uuid: string, r: MountReplies)
    ensures !MustUndo(uuid, false, r)
  {
  }

  // ---------- the calls ----------

  /** The calls that keep the table exact, said of the replies and the registry before. */
  ghost predicate Clean(w: World, c: Call) {
    match c
    case MountCall(id, r) => MayMount(w, id, r) ==> CleansUp(w, id, w.volumes[id], r)
    case UnmountCall(id, r) => id in w.volumes ==> UnmountsClean(w, w.volumes[id], r)
    case ForceUnmountCall(id, r) => id in w.volumes ==> UnmountsClean(w, w.volumes[id], r)
    case FixCall(id, r) => id in w.volumes ==> FixesClean(w, id, w.volumes[id], r)
    case DestroyCall(id, r) => id in w.volumes && w.volumes[id].state == Mounted ==> RemovesClean(w, id, r)
    case _ => true
  }

  /** The unmount does not stop half-way. */
  predicate UnmountsClean(w: World, v: Volume, r: UnmountReplies) {
    MayUnmount(w, v, r) ==> !Torn(v, r)
  }

  ghost predicate FixesClean(w: World, id: string, v: Volume, r: FixReplies) {
    && (v.state == Mounted ==> !Torn(v, r.unmount))
    && ((v.state == Mounted ==> ComesDown(v, r.unmount)) && Repaired(w, v, r) ==>
          CleansUp(w, id, v.(path := "", state := Unmounted), r.mount))
  }

  /** A volume whose node goes is unmounted first, or at least its mount is, if FUSE was not told of it. */
  predicate RemovesClean(w: World, id: string, r: DestroyReplies)
    requires id in w.volumes
  {
    var v := w.volumes[id];
    if r.node != 0 then UnmountsClean(w, v, r.unmount)
    else MayUnmount(w, v, r.unmount) && (ComesDown(v, r.unmount) || (Torn(v, r.unmount) && id !in w.side.fuse))
  }

  lemma MountExact(w: World, id: string, r: MountReplies)
    requires Inv(w) && Exact(w)
    ensures Logged(w) && (Exact(Mount(w, id, r).0) <==> Clean(w, MountCall(id, r)))
  {
    hide Core, Seated, Exact, WellFormed, MountEntry, Put, Balanced, CleansUp;
    CoreLogged(w);
    if MayMount(w, id, r) {
      CoreOf(w, id);
      ToldNow(w, id);
      EntryBalance(w, w.side, id, w.volumes[id], r);
      var m := MountEntry(w, w.side, id, w.volumes[id], r);
      PutExact(w, id, m.vol, m.side, m.events);
    }
  }

  /** What an unmount does to the books, whatever state the volume is in. */
  lemma AnyPointsBalance(w: World, id: string, r: UnmountReplies)
    requires Inv(w) && Exact(w) && id in w.volumes
    ensures var v := w.volumes[id];
            var (s, err) := UnmountPoints(w.side, id, v, r);
            && s.fuse - {id} == w.side.fuse - {id}
            && (Balanced(w.side, v, s, if err == E_OK then Ejected(v) else v, id) <==> !Torn(v, r))
            && (v.state != Mounted ==> s == w.side && err == E_OK && !Torn(v, r))
  {
    hide Core, Seated, Exact, Balanced, IsFusePath, IsUuidValid, UnmountPoints, ComesDown;
    TidyNow(w, id);
    if w.volumes[id].state == Mounted {
      PointsBalance(w, id, r);
    } else {
      Idle(w, id, Ejected(w.volumes[id]));
      NoPoints(w.side, id, w.volumes[id], r);
    }
  }

  lemma NoPoints(side: Side, id: string, v: Volume, r: UnmountReplies)
    requires v.path == ""
    ensures UnmountPoints(side, id, v, r) == (side, E_OK)
  {
  }

  lemma DoUnmountExact(w: World, id: string, r: UnmountReplies)
    requires Inv(w) && Exact(w) && id in w.volumes
    ensures Logged(w) && (Exact(DoUnmount(w, id, r).0) <==> UnmountsClean(w, w.volumes[id], r))
  {
    hide Core, Seated, Exact, WellFormed, UnmountPoints, UnmountAllowed, MayUnmount, Put, Balanced, Torn;
    CoreLogged(w);
    CoreOf(w, id);
    var v := w.volumes[id];
    MayUnmountExactly(w, v, r);
    AnyPointsBalance(w, id, r);
    Idle(w, id, v);
    var (s, err) := UnmountPoints(w.side, id, v, r);
    PutExact(w, id, v, w.side, [Eject(false), Eject(true)]);
    PutExact(w, id, v, s, [Eject(false), Eject(true)]);
    PutExact(w, id, Ejected(v), s, [Eject(false), UnmountedEvent]);
  }

  lemma UnmountExact(w: World, id: string, r: UnmountReplies)
    requires Inv(w) && Exact(w) && id in w.volumes
    ensures Logged(w) && (Exact(Unmount(w, id, r).0) <==> UnmountsClean(w, w.volumes[id], r))
  {
    hide Core, Seated, Exact, DoUnmount, UnmountPoints, ComesDown, MayUnmount;
    CoreLogged(w);
    TidyNow(w, id);
    DoUnmountExact(w, id, r);
  }

  lemma FixAndMountExact(w: World, id: string, v: Volume, side: Side, before: seq<Event>, r: FixReplies)
    requires Inv(w) && Exact(w) && id in w.volumes && WellFormed(side.slots) && id !in side.fuse
    requires v.state != Mounted && side.fuse - {id} == w.side.fuse - {id}
    requires Balanced(w.side, w.volumes[id], side, v, id)
    ensures Logged(w)
    ensures Exact(FixAndMount(w, id, v, side, before, r).0)
            <==> (Repaired(w, v, r) ==> CleansUp(w, id, v.(state := Unmounted), r.mount))
  {
    hide Core, Seated, Exact, WellFormed, MountEntry, Put, Balanced, CleansUp, UsesVoldata;
    CoreLogged(w);
    var failed, u := v.(state := RepairFinishFail), v.(state := Unmounted);
    FailedBalance(side, v, side, failed, id, "");
    Onward(w.side, w.volumes[id], side, v, side, failed, id);
    PutExact(w, id, failed, side, before + [CheckingEvent, RepairFailed]);
    EntryBalance(w, side, id, u, r.mount);
    var m := MountEntry(w, side, id, u, r.mount);
    SameStart(side, v, u, m.side, m.vol, id);
    Onward(w.side, w.volumes[id], side, v, m.side, m.vol, id);
    PutExact(w, id, m.vol, m.side, before + [CheckingEvent, RepairSucceeded] + m.events);
  }

  lemma FixExact(w: World, id: string, r: FixReplies)
    requires Inv(w) && Exact(w) && id in w.volumes
    ensures Logged(w) && (Exact(TryToFix(w, id, r).0) <==> FixesClean(w, id, w.volumes[id], r))
  {
    hide Core, Seated, Exact, WellFormed, UnmountPoints, Put, Balanced, CleansUp, FixAndMount, Torn, ComesDown,
      Repaired;
    CoreLogged(w);
    CoreOf(w, id);
    ToldNow(w, id);
    var v := w.volumes[id];
    AnyPointsBalance(w, id, r.unmount);
    PointsExactly(w.side, id, v, r.unmount);
    SameSlots(w.side, id, v);
    SameRepair(w, v, r);
    var (s, err) := UnmountPoints(w.side, id, v, r.unmount);
    if v.state != Mounted {
      Idle(w, id, v);
      FixAndMountExact(w, id, v, w.side, [], r);
    } else if err != E_OK {
      PutExact(w, id, v, s, [Eject(false)]);
    } else {
      NotTornDown(v, r.unmount);
      Down(w.side, v, s, id);
      FixAndMountExact(w, id, Ejected(v), s, [Eject(false)], r);
    }
  }

  lemma NotTornDown(v: Volume, r: UnmountReplies)
    requires ComesDown(v, r)
    ensures !Torn(v, r)
  {
  }

  /** What a removal whose node goes leaves of the registry and the table. */
  lemma RemovedSide(w: World, id: string, r: DestroyReplies)
    requires Core(w) && id in w.volumes && r.node == 0
    ensures Logged(w)
    ensures var e := Destroy(w, id, r); var v := w.volumes[id];
            && e.volumes == w.volumes - {id}
            && e.side == if v.state == Unmounted || !MayUnmount(w, v, r.unmount) then w.side
                         else UnmountPoints(w.side, id, v, r.unmount).0
  {
    hide Core, WellFormed, UnmountPoints, UnmountAllowed, MayUnmount;
    CoreLogged(w);
    CoreOf(w, id);
    MayUnmountExactly(w, w.volumes[id], r.unmount);
    assert w.volumes[id := w.volumes[id]] - {id} == w.volumes - {id};
    assert w.volumes[id := Ejected(w.volumes[id])] - {id} == w.volumes - {id};
  }

  lemma DestroyExact(w: World, id: string, r: DestroyReplies)
    requires Inv(w) && Exact(w) && id in w.volumes
    ensures Logged(w) && (Exact(Destroy(w, id, r)) <==> Clean(w, DestroyCall(id, r)))
  {
    hide Core, Seated, Exact, WellFormed, UnmountPoints, MayUnmount, Balanced, ComesDown, DoUnmount;
    CoreLogged(w);
    TidyNow(w, id);
    var v, e := w.volumes[id], Destroy(w, id, r);
    AnyPointsBalance(w, id, r.unmount);
    if r.node != 0 {
      DoUnmountExact(w, id, r.unmount);
    } else {
      RemovedSide(w, id, r);
      DropExact(w, e, id);
      if v.state != Mounted {
        Idle(w, id, Ejected(v));
      } else if MayUnmount(w, v, r.unmount) {
        PointsBalance(w, id, r.unmount);
      } else {
        Unsettled(w.side, v, e.side, Ejected(v), id);
      }
    }
  }

  lemma PutIdle(w: World, id: string, u: Volume, side: Side, events: seq<Event>)
    requires Exact(w) && Logged(w) && id in w.volumes && side.mounts == w.side.mounts && side.fuse == w.side.fuse
    requires var v := w.volumes[id];
             (v.state != Mounted && u.state != Mounted) || (u.state == v.state && u.path == v.path && u.uuid == v.uuid)
    ensures Exact(Put(w, id, u, side, events))
  {
    hide Exact, Put;
    Idle(w, id, u);
    SameTable(w.side, w.volumes[id], side, u, id);
    PutExact(w, id, u, side, events);
  }

  lemma SameTable(a: Side, v: Volume, b: Side, u: Volume, id: string)
    requires Balanced(a, v, a, u, id) && b.mounts == a.mounts && b.fuse == a.fuse
    ensures Balanced(a, v, b, u, id)
  {
    hide Weight, MayBeTold;
  }

  lemma FormatExact(w: World, id: string, fsType: string, r: FormatReplies)
    requires Inv(w) && Exact(w)
    ensures Logged(w) && Exact(Format(w, id, fsType, r).0) && Exact(FormatPartition(w, id, fsType, r))
  {
    hide Core, Seated, Exact, Put, IsUuidValid, SlotsAfterFormat, Dedup.Resolve, FsTypeOf;
    CoreLogged(w);
    if id in w.volumes && w.volumes[id].state != Mounted {
      var v := w.volumes[id];
      PutIdle(w, id, v.(state := FormatFinishFail), w.side, [FormatFailed]);
      PutIdle(w, id, v, w.side, [FormatFailed]);
      var uuid := Dedup.Resolve(Uuids(w.volumes), id, r.metaUuid);
      var slots := SlotsAfterFormat(w, v.diskId, v.uuid, uuid, fsType, r);
      PutIdle(w, id, v.(uuid := uuid, fsType := FsTypeOf(fsType), state := Unmounted), w.side.(slots := slots), []);
    }
  }

  lemma MarkExact(w: World, id: string)
    requires Inv(w) && Exact(w)
    ensures Logged(w) && Exact(MarkAbnormal(w, id).0)
  {
    hide Core, Seated, Exact, Put;
    CoreLogged(w);
    if id in w.volumes && w.volumes[id].state != Mounted {
      PutIdle(w, id, w.volumes[id].(state := Damaged), w.side, [Abnormal]);
    }
  }

  lemma RefreshExact(w: World, id: string, uuid: string, fsType: string)
    requires Inv(w) && Exact(w) && SameUuid(w, id, uuid)
    ensures Logged(w) && Exact(Refresh(w, id, uuid, fsType))
  {
    hide Core, Seated, Exact, Put, Dedup.Resolve, FsTypeOf;
    CoreLogged(w);
    if id in w.volumes {
      var v := w.volumes[id].(uuid := Dedup.Resolve(Uuids(w.volumes), id, uuid), fsType := FsTypeOf(fsType));
      PutIdle(w, id, v, w.side, []);
    }
  }

  /** Volumes that account for nothing come and go without the table. */
  lemma SameBooks(w: World, e: World)
    requires Exact(w) && e.side.mounts == w.side.mounts && e.side.fuse == w.side.fuse
    requires forall id :: id in w.volumes && w.volumes[id].state == Mounted ==>
               id in e.volumes && e.volumes[id] == w.volumes[id]
    requires forall id :: id in e.volumes && (id !in w.volumes || e.volumes[id] != w.volumes[id]) ==>
               e.volumes[id].state != Mounted
    ensures Exact(e)
  {
    hide IsUuidValid, IsFusePath, ExternalPath;
    forall p ensures e.side.mounts[p] == |Sitting(e.volumes, p)| + |Lending(e.volumes, e.side.fuse, p)| {
      assert Sitting(e.volumes, p) == Sitting(w.volumes, p);
      assert Lending(e.volumes, e.side.fuse, p) == Lending(w.volumes, w.side.fuse, p);
    }
  }

  /**
   * Each call, with any replies, keeps the table exact if and only if it is clean: a failing mount
   * takes back the FUSE mount it made, no unmount stops half-way, and no volume is removed while its
   * mount stays.
   */
  lemma DoExactly(w: World, c: Call)
    requires Inv(w) && Exact(w) && Allowed(w, c)
    ensures Logged(w) && (Exact(Do(w, c)) <==> Clean(w, c))
  {
    hide Inv, Exact, Mount, Unmount, DoUnmount, Format, FormatPartition, TryToFix, MarkAbnormal, Refresh, Destroy,
      UnmountsClean, FixesClean, RemovesClean, CleansUp, SameUuid, MayMount;
    InvLogged(w);
    match c
    case MountCall(id, r) => MountExact(w, id, r);
    case UnmountCall(id, r) => if id in w.volumes { UnmountExact(w, id, r); } else { Absent(w, id, r); }
    case ForceUnmountCall(id, r) => if id in w.volumes { DoUnmountExact(w, id, r); }
    case FormatCall(id, fs, r) => FormatExact(w, id, fs, r);
    case FormatPartitionCall(id, fs, r) => FormatExact(w, id, fs, r);
    case FixCall(id, r) => if id in w.volumes { FixExact(w, id, r); } else { FixAbsent(w, id, r); }
    case MarkCall(id) => MarkExact(w, id);
    case RefreshCall(id, uuid, fs) => RefreshExact(w, id, uuid, fs);
    case DestroyCall(id, r) => if id in w.volumes { DestroyExact(w, id, r); } else { DestroyAbsent(w, id, r); }
    case _ => SameBooks(w, Do(w, c));
  }

  lemma InvLogged(w: World)
    requires Inv(w)
    ensures Logged(w)
  {
    hide Core, Seated;
    CoreLogged(w);
  }

  lemma Absent(w: World, id: string, r: UnmountReplies)
    requires Logged(w) && id !in w.volumes
    ensures Unmount(w, id, r).0 == w
  {
  }

  lemma FixAbsent(w: World, id: string, r: FixReplies)
    requires Logged(w) && id !in w.volumes
    ensures TryToFix(w, id, r).0 == w
  {
  }

  lemma DestroyAbsent(w: World, id: string, r: DestroyReplies)
    requires Logged(w) && id !in w.volumes
    ensures Destroy(w, id, r) == w
  {
  }

  // ---------- runs ----------

  ghost predicate AllClean(w: World, calls: seq<Call>)
    decreases |calls|
  {
    calls == [] || !Logged(w) || (Clean(w, calls[0]) && AllClean(Do(w, calls[0]), calls[1..]))
  }

  /** Exact after each of the calls. */
  ghost predicate AlwaysExact(w: World, calls: seq<Call>)
    decreases |calls|
  {
    calls == [] || !Logged(w) || (Exact(Do(w, calls[0])) && AlwaysExact(Do(w, calls[0]), calls[1..]))
  }

  /**
   * Over every run that gives no MOUNTED volume another UUID, the table is exact after each call if and
   * only if each call is clean.
   */
  lemma {:induction false} RunExactly(w: World, calls: seq<Call>)
    requires Inv(w) && Exact(w) && AllAllowed(w, calls)
    ensures AlwaysExact(w, calls) <==> AllClean(w, calls)
    ensures AllClean(w, calls) ==> Exact(Run(w, calls))
    decreases |calls|
  {
    hide Inv, Exact, Do, Clean, Allowed;
    if calls != [] {
      InvLogged(w);
      DoExactly(w, calls[0]);
      DoKeeps(w, calls[0]);
      if Clean(w, calls[0]) {
        RunExactly(Do(w, calls[0]), calls[1..]);
      }
    }
  }

  /**
   * From a start with nothing mounted, in every run of clean calls, the kernel has at every path as
   * many mounts as there are volumes MOUNTED at it, plus one for each volume FUSE was told of whose
   * external path it is; FUSE was told only of volumes MOUNTED below its root. So every mount is that
   * of a MOUNTED volume, and every MOUNTED volume has its mount, also through FUSE.
   */
  lemma MountTableIsExact(w: World, calls: seq<Call>)
    requires Fresh(w) && w.side.mounts == multiset{} && w.side.fuse == {} && AllAllowed(w, calls) && AllClean(w, calls)
    ensures var e := Run(w, calls); var v := e.volumes;
            && (forall p :: e.side.mounts[p]
                            == |set id | id in v && v[id].state == Mounted && v[id].path == p|
                               + |set id | id in v && id in e.side.fuse && ExternalPath(v[id].uuid) == p|)
            && (forall id :: id in e.side.fuse ==> id in v && v[id].state == Mounted && IsFusePath(v[id].path))
            && (forall id :: id in v && v[id].state == Mounted ==> v[id].path in e.side.mounts)
            && (forall p :: p in e.side.mounts ==>
                  exists id :: id in v && v[id].state == Mounted
                               && (v[id].path == p || (IsFusePath(v[id].path) && ExternalPath(v[id].uuid) == p)))
  {
    hide Inv, Run, AllClean, AllAllowed, IsUuidValid, IsFusePath, ExternalPath, WellFormed;
    FreshInv(w);
    FreshExact(w);
    RunExactly(w, calls);
    var e := Run(w, calls);
    var v := e.volumes;
    forall p
      ensures e.side.mounts[p] == |set id | id in v && v[id].state == Mounted && v[id].path == p|
                                  + |set id | id in v && id in e.side.fuse && ExternalPath(v[id].uuid) == p|
    {
      assert Sitting(v, p) == set id | id in v && v[id].state == Mounted && v[id].path == p;
      assert Lending(v, e.side.fuse, p) == set id | id in v && id in e.side.fuse && ExternalPath(v[id].uuid) == p;
    }
    forall id | id in v && v[id].state == Mounted ensures v[id].path in e.side.mounts {
      assert id in Sitting(v, v[id].path);
    }
    forall p | p in e.side.mounts
      ensures exists id :: id in v && v[id].state == Mounted
                           && (v[id].path == p || (IsFusePath(v[id].path) && ExternalPath(v[id].uuid) == p))
    {
      Owner(e, p);
    }
  }

  lemma Owner(w: World, p: string)
    requires Exact(w) && p in w.side.mounts
    ensures exists id :: id in w.volumes && w.volumes[id].state == Mounted
                         && (w.volumes[id].path == p
                             || (IsFusePath(w.volumes[id].path) && ExternalPath(w.volumes[id].uuid) == p))
  {
    hide IsUuidValid, IsFusePath, ExternalPath;
    if Sitting(w.volumes, p) != {} {
      var id :| id in Sitting(w.volumes, p);
    } else {
      assert Lending(w.volumes, w.side.fuse, p) != {};
      var id :| id in Lending(w.volumes, w.side.fuse, p);
    }
  }

  lemma FreshExact(w: World)
    requires Fresh(w) && w.side.mounts == multiset{} && w.side.fuse == {}
    ensures Exact(w)
  {
    hide WellFormed;
    assert forall p :: Sitting(w.volumes, p) == {} && Lending(w.volumes, w.side.fuse, p) == {};
  }
}
