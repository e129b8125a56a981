/** When the device numbers of several disks keep their volumes apart, as discovery needs. */
module DeviceNumbers {
  import opened Ids
  import opened Discovery

  /** The volume id of partition n of a disk; the disk itself is its partition 0. */
  function DeviceName(disk: Dev, n: nat): string {
    VolIdFromDev(PartitionDev(disk.major, disk.minor, n))
  }

  predicate Same(a: Dev, p: nat, b: Dev, q: nat) {
    SameDevice(a.major, a.minor, p, b.major, b.minor, q)
  }

  lemma SameNameExactly(a: Dev, p: nat, b: Dev, q: nat)
    ensures DeviceName(a, p) == DeviceName(b, q) <==> Same(a, p, b, q)
  {
    VolumeIdsCollideExactly(a.major, a.minor, p, b.major, b.minor, q);
  }

  /** Every volume carries the device name of the partition it stands for. */
  predicate Named(owners: map<string, Owner>, devs: map<string, Dev>) {
    forall id :: id in owners ==>
      owners[id].diskId in devs && id == DeviceName(devs[owners[id].diskId], owners[id].part)
  }

  ghost predicate Names(name: nat -> string, disk: Dev) {
    forall n: nat :: name(n) == DeviceName(disk, n)
  }

  /**
   * With volumes named by their devices, an event of disk d finds no collision exactly when no two
   * partitions it names share a device number, and none shares one with a volume of another.
   */
  lemma NoCollisionExactly(owners: map<string, Owner>, devs: map<string, Dev>, d: string, parts: seq<PartitionRecord>,
                           name: nat -> string)
    requires Named(owners, devs) && d in devs && Names(name, devs[d])
    ensures NoCollision(owners, d, parts, name)
            <==> && (forall i, j :: i in Numbers(parts) + {0} && j in Numbers(parts) + {0} ==>
                       (Same(devs[d], i, devs[d], j) ==> i == j))
                 && (forall id, i :: id in owners && i in Numbers(parts) + {0} ==>
                       (Same(devs[owners[id].diskId], owners[id].part, devs[d], i) ==> owners[id] == Owner(d, i)))
  {
    hide DeviceName, Same;
    var used := Numbers(parts) + {0};
    forall i, j | i in used && j in used ensures name(i) == name(j) <==> Same(devs[d], i, devs[d], j) {
      SameNameExactly(devs[d], i, devs[d], j);
    }
    forall id, i | id in owners && i in used
      ensures id == name(i) <==> Same(devs[owners[id].diskId], owners[id].part, devs[d], i)
    {
      SameNameExactly(devs[owners[id].diskId], owners[id].part, devs[d], i);
    }
  }

  // ---------- a machine with several disks ----------

  /** Disks sixteen minors apart, as the kernel hands them out. */
  predicate Machine(devs: map<string, Dev>) {
    && (forall d :: d in devs ==> devs[d].minor + MAX_SCSI_VOLUMES < UINT32_RANGE)
    && (forall d, e :: d in devs && e in devs && d != e ==>
          Apart(devs[d].major, devs[d].minor, devs[e].major, devs[e].minor))
  }

  predicate Low(recs: seq<PartitionRecord>) {
    GoodTable(recs) && forall r :: r in recs ==> r.number <= MAX_SCSI_VOLUMES
  }

  /** An event of one of the machine's disks, under its device names, with at most fifteen partitions. */
  ghost predicate OnMachine(devs: map<string, Dev>, e: Uevent) {
    e.diskId in devs && (e.Seen? ==> Names(e.name, devs[e.diskId]) && (e.table.Read? ==> Low(e.table.parts)))
  }

  predicate NamedLow(owners: map<string, Owner>, devs: map<string, Dev>) {
    Named(owners, devs) && forall id :: id in owners ==> owners[id].part <= MAX_SCSI_VOLUMES
  }

  lemma LowDevicesDiffer(devs: map<string, Dev>, d: string, p: nat, e: string, q: nat)
    requires Machine(devs) && d in devs && e in devs && p <= MAX_SCSI_VOLUMES && q <= MAX_SCSI_VOLUMES
    ensures Same(devs[d], p, devs[e], q) ==> d == e && p == q
  {
    if d != e {
      ApartExactly(devs[d].major, devs[d].minor, devs[e].major, devs[e].minor);
    }
  }

  lemma EventIsRegular(devs: map<string, Dev>, t: Tracker, e: Uevent)
    requires Machine(devs) && OnMachine(devs, e) && NamedLow(t.owners, devs)
    ensures Regular(t, e)
  {
    hide Machine, Same;
    if e.Seen? && e.table.Read? {
      var d, used := e.diskId, Numbers(e.table.parts) + {0};
      forall i, j | i in used && j in used ensures Same(devs[d], i, devs[d], j) ==> i == j {
        LowDevicesDiffer(devs, d, i, d, j);
      }
      forall id, i | id in t.owners && i in used
        ensures Same(devs[t.owners[id].diskId], t.owners[id].part, devs[d], i) ==> t.owners[id] == Owner(d, i)
      {
        LowDevicesDiffer(devs, t.owners[id].diskId, t.owners[id].part, d, i);
      }
      NoCollisionExactly(t.owners, devs, d, e.table.parts, e.name);
    }
  }

  lemma {:induction false} CreatedAreNamed(owners: map<string, Owner>, devs: map<string, Dev>, d: string,
                                           recs: seq<PartitionRecord>, name: nat -> string)
    requires NamedLow(owners, devs) && d in devs && Names(name, devs[d])
    requires forall r :: r in recs ==> r.number <= MAX_SCSI_VOLUMES
    ensures NamedLow(CreateEach(owners, d, recs, name), devs)
  {
    hide DeviceName;
    if recs != [] {
      CreatedAreNamed(owners, devs, d, recs[..|recs| - 1], name);
    }
  }

  lemma StepIsNamed(devs: map<string, Dev>, t: Tracker, e: Uevent)
    requires OnMachine(devs, e) && NamedLow(t.owners, devs)
    ensures NamedLow(Step(t, e).owners, devs)
  {
    hide DeviceName, DestroyEach, CreateEach, Missing;
    if e.Seen? && e.table.Read? {
      var known, parts := Known(t, e.diskId), e.table.parts;
      DestroyEachIs(t.owners, e.diskId, Missing(known, parts));
      MissingIs(parts, known);
      CreatedAreNamed(DestroyEach(t.owners, e.diskId, Missing(known, parts)), devs, e.diskId, Missing(parts, known),
                      e.name);
    }
  }

  lemma {:induction false} RunIsRegular(devs: map<string, Dev>, t: Tracker, events: seq<Uevent>)
    requires Machine(devs) && NamedLow(t.owners, devs) && forall i :: 0 <= i < |events| ==> OnMachine(devs, events[i])
    ensures AllRegular(t, events)
    decreases |events|
  {
    hide Machine, OnMachine, NamedLow, Regular, Step;
    if events != [] {
      EventIsRegular(devs, t, events[0]);
      StepIsNamed(devs, t, events[0]);
      RunIsRegular(devs, Step(t, events[0]), events[1..]);
    }
  }

  /**
   * So on a machine with any number of disks sixteen minors apart, over every run of events with up
   * to fifteen partitions a disk and no number listed twice, volumes follow the partition tables.
   */
  lemma MachineFollowsTables(devs: map<string, Dev>, events: seq<Uevent>, d: string)
    requires Machine(devs) && forall i :: 0 <= i < |events| ==> OnMachine(devs, events[i])
    ensures var t := Run(NOTHING_SEEN, events); Parts(t.owners, d) == Numbers(Known(t, d))
  {
    hide Machine, OnMachine, Run, AllRegular;
    RunIsRegular(devs, NOTHING_SEEN, events);
    VolumesFollowTable(events, d);
  }
}
