/** Which partition each registered volume stands for, and which registry calls can change that. */
module RegistryOwners {
  import opened Text
  import opened Volumes
  import opened VolumeRuns
  import opened Discovery
  import Dedup

  function OwnersOf(w: World): map<string, Owner> {
    map id | id in w.volumes :: Owner(w.volumes[id].diskId, w.volumes[id].partitionNum)
  }

  lemma UnmountKeys(w: World, id: string, r: UnmountReplies)
    requires Logged(w) && id in w.volumes
    ensures DoUnmount(w, id, r).0.volumes.Keys == w.volumes.Keys
    ensures DoUnmount(w, id, r).0.log.Keys == w.log.Keys && DoUnmount(w, id, r).0.disks == w.disks
  {
    hide UnmountAllowed, UnmountPoints;
  }

  lemma MountKeys(w: World, id: string, r: MountReplies)
    requires Logged(w)
    ensures Mount(w, id, r).0.volumes.Keys == w.volumes.Keys
  {
    hide MountEntry;
  }

  lemma FormatKeys(w: World, id: string, fs: string, r: FormatReplies)
    requires Logged(w)
    ensures Format(w, id, fs, r).0.volumes.Keys == w.volumes.Keys
    ensures FormatPartition(w, id, fs, r).volumes.Keys == w.volumes.Keys
  {
    hide SlotsAfterFormat, IsUuidValid, Dedup.Resolve, FsTypeOf;
  }

  lemma FixKeys(w: World, id: string, r: FixReplies)
    requires Logged(w)
    ensures TryToFix(w, id, r).0.volumes.Keys == w.volumes.Keys
  {
    hide MountEntry, UnmountPoints, UsesVoldata;
  }

  /** No call but creation, removal and purge changes which volumes there are or what they stand for. */
  lemma OwnersKept(w: World, c: Call)
    requires Logged(w) && !c.CreateCall? && !c.DestroyCall? && !c.PurgeCall?
    ensures OwnersOf(Do(w, c)) == OwnersOf(w)
  {
    hide Mount, DoUnmount, Format, FormatPartition, TryToFix, Dedup.Resolve, FsTypeOf;
    assert Do(w, c).volumes.Keys == w.volumes.Keys by {
      match c
      case MountCall(i, r) => MountKeys(w, i, r);
      case UnmountCall(i, r) => if i in w.volumes { UnmountKeys(w, i, r); }
      case ForceUnmountCall(i, r) => if i in w.volumes { UnmountKeys(w, i, r); }
      case FormatCall(i, fs, r) => FormatKeys(w, i, fs, r);
      case FormatPartitionCall(i, fs, r) => FormatKeys(w, i, fs, r);
      case FixCall(i, r) => FixKeys(w, i, r);
      case _ =>
    }
    forall id | id in w.volumes ensures OwnersOf(Do(w, c))[id] == OwnersOf(w)[id] {
      OwnershipKept(w, c, id);
    }
  }

  lemma OwnersCreated(w: World, id: string, d: string, part: nat)
    ensures OwnersOf(Create(w, id, d, part)) == Insert(OwnersOf(w), id, Owner(d, part))
  {
  }

  /** Removing a volume, if its node goes, takes exactly that volume away. */
  lemma OwnersDestroyed(w: World, id: string, r: DestroyReplies)
    requires Logged(w) && id in w.volumes
    ensures OwnersOf(Destroy(w, id, r)) == if r.node == 0 then OwnersOf(w) - {id} else OwnersOf(w)
    ensures Destroy(w, id, r).disks == w.disks
  {
    hide DoUnmount;
    UnmountKeys(w, id, r.unmount);
    OwnersKept(w, ForceUnmountCall(id, r.unmount));
    var u := DoUnmount(w, id, r.unmount).0;
    assert forall k :: k in OwnersOf(u) ==> OwnersOf(u)[k] == OwnersOf(w)[k];
  }

  /** A volume that is not MOUNTED does not become so while another, or it, is being removed. */
  lemma RemovalMountsNothing(w: World, id: string, r: DestroyReplies, k: string)
    requires Logged(w) && (k in w.volumes ==> w.volumes[k].state != Mounted)
    ensures var e := Destroy(w, id, r); k in e.volumes ==> e.volumes[k].state != Mounted
  {
    hide UnmountAllowed, UnmountPoints;
  }

  // ---------- the calls behind a change ----------

  /** `w'` is reached from `w` by these registry calls. */
  ghost predicate Reached(w: World, w': World, calls: seq<Call>) {
    Logged(w) && Logged(w') && w' == VolumeRuns.Run(w, calls)
  }

  lemma ReachedSelf(w: World)
    requires Logged(w)
    ensures Reached(w, w, []) && AllAllowed(w, [])
  {
  }

  lemma ReachedStep(w: World, w': World, calls: seq<Call>, c: Call)
    requires Reached(w, w', calls) && Logged(Do(w', c))
    ensures Reached(w, Do(w', c), calls + [c])
    ensures AllAllowed(w, calls + [c]) <==> AllAllowed(w, calls) && Allowed(w', c)
  {
    hide Do, AllAllowed, Allowed, VolumeRuns.Run;
    RunOneMore(w, calls, c);
  }
}
