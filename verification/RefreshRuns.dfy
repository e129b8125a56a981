/**
 * Why the mount-table and mount-path theorems ask that no MOUNTED volume be given another UUID: two
 * runs of the service, from its start, that do so and break them.
 */
module RefreshRuns {
  import opened Text
  import opened Volumes
  import opened MountTable
  import opened VolumeRuns
  import Dedup

  /** Replies of a mount on which everything asked for succeeds. */
  predicate Succeeds(r: MountReplies) {
    !r.disabled && !r.edmIntercepts && r.mount == 0 && r.fuseMount == 0 && r.fuseNotify == 0 && r.fuseStillOn
  }

  // ---------- single calls ----------

  lemma Created(w: World, id: string, d: string, part: nat)
    requires Logged(w) && id !in w.volumes
    ensures var e := Do(w, CreateCall(id, d, part));
            && Logged(e) && e.disks == w.disks && e.side == w.side
            && e.volumes == w.volumes[id := Volume(d, part, Unmounted, "", "", "undefined")]
  {
  }

  lemma Refreshed(w: World, id: string, uuid: string, fs: string)
    requires Logged(w) && id in w.volumes && !Dedup.Occupied(Uuids(w.volumes), id, uuid)
    ensures var e := Do(w, RefreshCall(id, uuid, fs));
            && Logged(e) && e.disks == w.disks && e.side == w.side
            && e.volumes == w.volumes[id := w.volumes[id].(uuid := uuid, fsType := FsTypeOf(fs))]
  {
    hide FsTypeOf;
  }

  /** A USB volume mounts below the external root, or below the FUSE root with a FUSE mount beside it. */
  lemma MountedUsb(w: World, id: string, r: MountReplies)
    requires Logged(w) && id in w.volumes && Succeeds(r)
    requires var v := w.volumes[id];
             && v.state == Unmounted && IsUuidValid(v.uuid) && v.uuid != ""
             && v.diskId in w.disks && w.disks[v.diskId] == Usb
    ensures var e := Do(w, MountCall(id, r)); var v := w.volumes[id];
            var path := if r.fuseOn then FusePath(v.uuid) else ExternalPath(v.uuid);
            var mounts := if r.fuseOn then w.side.mounts + multiset{ExternalPath(v.uuid)} else w.side.mounts;
            && Logged(e) && e.disks == w.disks
            && e.volumes == w.volumes[id := v.(path := path, state := Mounted)]
            && e.side.mounts == mounts + multiset{path}
  {
    hide IsUuidValid, Lower, ExternalPath, FusePath;
    var v := w.volumes[id];
    PathsNotEmpty(v.uuid);
    assert PolicyFor(w.disks, v.diskId, v.fsType, r.fuseOn) == Policy(false, r.fuseOn, false);
  }

  lemma PathsNotEmpty(uuid: string)
    ensures ExternalPath(uuid) != "" && FusePath(uuid) != ""
  {
    RootChars(uuid);
  }

  lemma Unoccupied(volumes: map<string, Volume>, a: string, b: string, uuid: string)
    requires forall id :: id in volumes ==> id == a || (id == b && volumes[b].uuid != uuid)
    ensures !Dedup.Occupied(Uuids(volumes), a, uuid)
  {
  }

  // ---------- a shared path ----------

  /** A disk with volume a, mounted for UUID x. */
  function OneMounted(d: string, a: string, x: string, fs: string, r: MountReplies): seq<Call> {
    [AddDisk(d, Usb)] + [CreateCall(a, d, 1)] + [RefreshCall(a, x, fs)] + [MountCall(a, r)]
  }

  lemma RunOneMounted(w: World, d: string, a: string, x: string, fs: string, r: MountReplies)
    requires Fresh(w) && IsUuidValid(x) && x != "" && Succeeds(r)
    ensures var e := Run(w, OneMounted(d, a, x, fs, r));
            var path := if r.fuseOn then FusePath(x) else ExternalPath(x);
            var mounts := if r.fuseOn then w.side.mounts + multiset{ExternalPath(x)} else w.side.mounts;
            && Logged(w) && Logged(e) && e.disks == map[d := Usb] && e.side.mounts == mounts + multiset{path}
            && e.volumes == map[a := Volume(d, 1, Mounted, path, x, FsTypeOf(fs))]
  {
    hide Do, Run, IsUuidValid, ExternalPath, FusePath, FsTypeOf, Dedup.Occupied;
    DiskAdded(w, d);
    var c1, c2 := [AddDisk(d, Usb)], [AddDisk(d, Usb)] + [CreateCall(a, d, 1)];
    RunOne(w, AddDisk(d, Usb));
    Created(Run(w, c1), a, d, 1);
    RunOneMore(w, c1, CreateCall(a, d, 1));
    Unoccupied(Run(w, c2).volumes, a, a, x);
    Refreshed(Run(w, c2), a, x, fs);
    RunOneMore(w, c2, RefreshCall(a, x, fs));
    var c3 := c2 + [RefreshCall(a, x, fs)];
    MountedUsb(Run(w, c3), a, r);
    RunOneMore(w, c3, MountCall(a, r));
  }

  /** A second volume beside the first, mounted for UUID z. */
  lemma RunSecondMounted(w: World, calls: seq<Call>, d: string, a: string, b: string, z: string, fs: string,
                         r: MountReplies)
    requires Logged(w) && Logged(Run(w, calls)) && a != b && IsUuidValid(z) && z != "" && Succeeds(r) && !r.fuseOn
    requires var e := Run(w, calls); e.disks == map[d := Usb] && e.volumes.Keys == {a} && e.volumes[a].uuid != z
    ensures var e := Run(w, calls);
            var e' := Run(w, calls + [CreateCall(b, d, 2)] + [RefreshCall(b, z, fs)] + [MountCall(b, r)]);
            && Logged(e') && e'.disks == e.disks && e'.side.mounts == e.side.mounts + multiset{ExternalPath(z)}
            && e'.volumes == e.volumes[b := Volume(d, 2, Mounted, ExternalPath(z), z, FsTypeOf(fs))]
  {
    hide Do, Run, IsUuidValid, ExternalPath, FusePath, FsTypeOf, Dedup.Occupied;
    var c1 := calls + [CreateCall(b, d, 2)];
    var c2 := c1 + [RefreshCall(b, z, fs)];
    Created(Run(w, calls), b, d, 2);
    RunOneMore(w, calls, CreateCall(b, d, 2));
    Unoccupied(Run(w, c1).volumes, b, a, z);
    Refreshed(Run(w, c1), b, z, fs);
    RunOneMore(w, c1, RefreshCall(b, z, fs));
    MountedUsb(Run(w, c2), b, r);
    RunOneMore(w, c2, MountCall(b, r));
  }

  /** Volume a, mounted for UUID x, is given UUID y; then b is given x and mounts on the same path. */
  lemma RefreshSharesPath(w: World, d: string, a: string, b: string, x: string, y: string, fs: string, r: MountReplies)
    requires Fresh(w) && a != b && x != y && IsUuidValid(x) && x != "" && Succeeds(r) && !r.fuseOn
    ensures var calls := OneMounted(d, a, x, fs, r) + [RefreshCall(a, y, fs)];
            var e := Run(w, calls + [CreateCall(b, d, 2)] + [RefreshCall(b, x, fs)] + [MountCall(b, r)]);
            && a in e.volumes && b in e.volumes && e.volumes[a].state == e.volumes[b].state == Mounted
            && e.volumes[a].path == e.volumes[b].path
  {
    hide Do, Run, OneMounted, IsUuidValid, ExternalPath, FusePath, FsTypeOf, Dedup.Occupied;
    RunOneMounted(w, d, a, x, fs, r);
    var one := OneMounted(d, a, x, fs, r);
    Unoccupied(Run(w, one).volumes, a, a, y);
    Refreshed(Run(w, one), a, y, fs);
    RunOneMore(w, one, RefreshCall(a, y, fs));
    RunSecondMounted(w, one + [RefreshCall(a, y, fs)], d, a, b, x, fs, r);
  }

  // ---------- a mount lost ----------

  lemma UnmountedFuse(w: World, id: string, u: UnmountReplies)
    requires Logged(w) && id in w.volumes && u.data == 0 && u.fuse == 0 && u.notify == 0
    requires var v := w.volumes[id];
             && v.state == Mounted && v.diskId in w.disks && w.disks[v.diskId] == Usb
             && v.path != "" && IsFusePath(v.path) && IsUuidValid(v.uuid)
    ensures var e := Do(w, UnmountCall(id, u)); var v := w.volumes[id];
            && Logged(e) && e.volumes == w.volumes[id := v.(path := "", state := Unmounted)]
            && e.side.mounts == w.side.mounts - multiset{v.path} - multiset{ExternalPath(v.uuid)}
  {
    hide IsUuidValid, IsFusePath, ExternalPath;
  }

  /**
   * Volume a is mounted through FUSE for UUID x and volume c plainly for UUID y. c is given UUID z
   * and a is given y; unmounting a then takes c's mount away, and c stays MOUNTED.
   */
  lemma RefreshLosesMount(w: World, d: string, a: string, c: string, x: string, y: string, z: string, fs: string,
                          fused: MountReplies, plain: MountReplies, u: UnmountReplies)
    requires Fresh(w) && w.side.mounts == multiset{} && a != c && x != y && z !in {x, y}
    requires IsUuidValid(x) && IsUuidValid(y) && x != "" && y != ""
    requires Succeeds(fused) && Succeeds(plain) && fused.fuseOn && !plain.fuseOn
    requires u.data == 0 && u.fuse == 0 && u.notify == 0
    ensures var one := OneMounted(d, a, x, fs, fused);
            var mounted := one + [CreateCall(c, d, 2)] + [RefreshCall(c, y, fs)] + [MountCall(c, plain)];
            var e := Run(w, mounted + [RefreshCall(c, z, fs)] + [RefreshCall(a, y, fs)] + [UnmountCall(a, u)]);
            c in e.volumes && e.volumes[c].state == Mounted && e.volumes[c].path == ExternalPath(y)
            && !IsFusePath(e.volumes[c].path) && e.volumes[c].path !in e.side.mounts
  {
    hide Do, Run, OneMounted, IsUuidValid, ExternalPath, FusePath, IsFusePath, FsTypeOf, Dedup.Occupied;
    RunOneMounted(w, d, a, x, fs, fused);
    var one := OneMounted(d, a, x, fs, fused);
    RunSecondMounted(w, one, d, a, c, y, fs, plain);
    var mounted := one + [CreateCall(c, d, 2)] + [RefreshCall(c, y, fs)] + [MountCall(c, plain)];
    Unoccupied(Run(w, mounted).volumes, c, a, z);
    Refreshed(Run(w, mounted), c, z, fs);
    RunOneMore(w, mounted, RefreshCall(c, z, fs));
    var c1 := mounted + [RefreshCall(c, z, fs)];
    Unoccupied(Run(w, c1).volumes, a, c, y);
    Refreshed(Run(w, c1), a, y, fs);
    RunOneMore(w, c1, RefreshCall(a, y, fs));
    var c2 := c1 + [RefreshCall(a, y, fs)];
    FuseFacts(x, y);
    UnmountedFuse(Run(w, c2), a, u);
    RunOneMore(w, c2, UnmountCall(a, u));
    MountsLeft(x, y);
  }

  lemma FuseFacts(x: string, y: string)
    ensures FusePath(x) != "" && IsFusePath(FusePath(x)) && !IsFusePath(ExternalPath(y))
  {
    RootChars(x);
    RootChars(y);
  }

  lemma MountsLeft(x: string, y: string)
    requires x != y
    ensures var mounts := multiset{} + multiset{ExternalPath(x)} + multiset{FusePath(x)} + multiset{ExternalPath(y)};
            ExternalPath(y) !in mounts - multiset{FusePath(x)} - multiset{ExternalPath(y)}
  {
    hide ExternalPath, FusePath;
    RootChars(x);
    RootChars(y);
    SameRootSameUuid(x, y);
  }

  lemma DiskAdded(w: World, d: string)
    requires Fresh(w)
    ensures var e := Do(w, AddDisk(d, Usb));
            Logged(w) && Logged(e) && e.disks == map[d := Usb] && e.side == w.side && e.volumes == map[]
  {
  }
}
