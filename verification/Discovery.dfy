/**
 * Which volume belongs to which partition of which disk, as block-device uevents come in: the
 * volumes of a disk follow the last partition table read from it.
 */
module Discovery {

  /** A partition as the table lists it; the diff compares exactly these three fields. */
  datatype PartitionRecord = PartitionRecord(number: nat, table: string, fsTypeRaw: string)

  datatype Owner = Owner(diskId: string, part: nat)

  datatype Tracker = Tracker(
    disks: set<string>,
    owners: map<string, Owner>,                      // volume id to the partition it stands for
    snapshots: map<string, seq<PartitionRecord>>)    // last partition table seen, by disk

  /** What reading the partition table gives: nothing but a usable disk, an error, or a table. */
  datatype Table = ValidNode | Failed | Read(parts: seq<PartitionRecord>)

  datatype Uevent =
    | Seen(diskId: string, table: Table, name: nat -> string, wholeDisk: bool)   // "add" or "change"
    | Gone(diskId: string)                                                       // "remove"

  // ---------- transitions ----------

  /** The records of `a` that are not in `b`, in order. */
  function Missing(a: seq<PartitionRecord>, b: seq<PartitionRecord>): seq<PartitionRecord> {
    if a == [] then []
    else
      var n := |a| - 1;
      Missing(a[..n], b) + if a[n] in b then [] else [a[n]]
  }

  function Known(t: Tracker, d: string): seq<PartitionRecord> {
    if d in t.snapshots then t.snapshots[d] else []
  }

  function Without(owners: map<string, Owner>, o: Owner): map<string, Owner> {
    map id | id in owners && owners[id] != o :: owners[id]
  }

  function WithoutDisk(owners: map<string, Owner>, d: string): map<string, Owner> {
    map id | id in owners && owners[id].diskId != d :: owners[id]
  }

  /** An existing entry stays, as with `std::map::insert`. */
  function Insert(owners: map<string, Owner>, id: string, o: Owner): map<string, Owner> {
    if id in owners then owners else owners[id := o]
  }

  function DestroyEach(owners: map<string, Owner>, d: string, recs: seq<PartitionRecord>): map<string, Owner> {
    if recs == [] then owners
    else
      var n := |recs| - 1;
      Without(DestroyEach(owners, d, recs[..n]), Owner(d, recs[n].number))
  }

  function CreateEach(owners: map<string, Owner>, d: string, recs: seq<PartitionRecord>, name: nat -> string)
    : map<string, Owner>
  {
    if recs == [] then owners
    else
      var n := |recs| - 1;
      var number := recs[n].number;
      Insert(CreateEach(owners, d, recs[..n], name), name(number), Owner(d, number))
  }

  /** Removed partitions lose their volume first, then added ones get theirs, then the disk itself may. */
  function DiscoveredOwners(t: Tracker, d: string, parts: seq<PartitionRecord>, name: nat -> string, wholeDisk: bool,
                            isNew: bool)
    : map<string, Owner>
  {
    var removed, added := Missing(Known(t, d), parts), Missing(parts, Known(t, d));
    var owners := CreateEach(DestroyEach(t.owners, d, removed), d, added, name);
    if parts == [] && (isNew || removed != []) && wholeDisk then Insert(owners, name(0), Owner(d, 0)) else owners
  }

  /** `DiscoverPartitionsAndVolumes` once the table has been read. */
  function Discover(t: Tracker, d: string, parts: seq<PartitionRecord>, name: nat -> string, wholeDisk: bool): Tracker {
    Tracker(t.disks + {d}, DiscoveredOwners(t, d, parts, name, wholeDisk, d !in t.disks), t.snapshots[d := parts])
  }

  function Step(t: Tracker, e: Uevent): Tracker {
    match e
    case Gone(d) => Tracker(t.disks - {d}, WithoutDisk(t.owners, d), t.snapshots - {d})
    case Seen(d, ValidNode, _, _) => t.(disks := t.disks + {d})
    case Seen(d, Failed, _, _) =>
      if d in t.disks then t.(owners := WithoutDisk(t.owners, d), snapshots := t.snapshots - {d}) else t
    case Seen(d, Read(parts), name, wholeDisk) => Discover(t, d, parts, name, wholeDisk)
  }

  // ---------- in step ----------

  /** The partition numbers, from 1 up, that own a volume on the disk. */
  function Parts(owners: map<string, Owner>, d: string): set<nat> {
    set id | id in owners && owners[id].diskId == d && owners[id].part >= 1 :: owners[id].part
  }

  function Numbers(recs: seq<PartitionRecord>): set<nat> {
    set r | r in recs :: r.number
  }

  predicate OneOwner(owners: map<string, Owner>) {
    forall i, j :: i in owners && j in owners && owners[i] == owners[j] && owners[i].part >= 1 ==> i == j
  }

  /** A table as the parser yields it. */
  predicate Numbered(recs: seq<PartitionRecord>) {
    forall r :: r in recs ==> r.number >= 1
  }

  /** A table without a repeated partition number. */
  predicate GoodTable(recs: seq<PartitionRecord>) {
    && Numbered(recs)
    && (forall r, q :: r in recs && q in recs && r.number == q.number ==> r == q)
  }

  /** On every disk the partition numbers that own a volume are those of the last table seen. */
  ghost predicate InStep(t: Tracker) {
    && OneOwner(t.owners)
    && t.snapshots.Keys <= t.disks
    && (forall d :: d in t.snapshots ==> Numbered(t.snapshots[d]))
    && (forall d :: Parts(t.owners, d) == Numbers(Known(t, d)))
  }

  /** No two partitions, on this disk or another, get the same device number. */
  predicate NoCollision(owners: map<string, Owner>, d: string, parts: seq<PartitionRecord>, name: nat -> string) {
    var used := Numbers(parts) + {0};
    && (forall i, j :: i in used && j in used && name(i) == name(j) ==> i == j)
    && (forall i :: i in used && name(i) in owners ==> owners[name(i)] == Owner(d, i))
  }

  /** A partition of an added record that keeps its volume is found under the name it has. */
  predicate SameName(owners: map<string, Owner>, d: string, known: seq<PartitionRecord>, parts: seq<PartitionRecord>,
                     name: nat -> string)
  {
    forall id :: id in owners && owners[id].diskId == d ==>
      var n := owners[id].part;
      n !in Numbers(Missing(known, parts)) && n in Numbers(Missing(parts, known)) ==> id == name(n)
  }

  /** The device numbers of this event are in order. */
  predicate Clear(t: Tracker, e: Uevent) {
    e.Seen? && e.table.Read? ==>
      && Numbered(e.table.parts)
      && NoCollision(t.owners, e.diskId, e.table.parts, e.name)
      && SameName(t.owners, e.diskId, Known(t, e.diskId), e.table.parts, e.name)
  }

  /** No number that stays listed loses a record without gaining one. */
  predicate NumbersKept(known: seq<PartitionRecord>, parts: seq<PartitionRecord>) {
    forall n :: n in Numbers(Missing(known, parts)) && n in Numbers(parts) ==> n in Numbers(Missing(parts, known))
  }

  predicate Kept(t: Tracker, e: Uevent) {
    e.Seen? && e.table.Read? ==> NumbersKept(Known(t, e.diskId), e.table.parts)
  }

  lemma NoneMissing(a: seq<PartitionRecord>, b: seq<PartitionRecord>)
    requires forall r :: r in a ==> r in b
    ensures Missing(a, b) == []
  {
    MissingIs(a, b);
    if Missing(a, b) != [] {
      assert Missing(a, b)[0] in Missing(a, b);
    }
  }

  lemma {:induction false} MissingIs(a: seq<PartitionRecord>, b: seq<PartitionRecord>)
    ensures forall r :: r in Missing(a, b) <==> r in a && r !in b
  {
    if a != [] {
      var n := |a| - 1;
      MissingIs(a[..n], b);
      assert a == a[..n] + [a[n]];
    }
  }

  /** What the diff drops and adds turns the old numbers into the new ones exactly when none is lost. */
  lemma DiffNumbers(a: seq<PartitionRecord>, b: seq<PartitionRecord>)
    ensures Numbers(a) - Numbers(Missing(a, b)) + Numbers(Missing(b, a)) == Numbers(b) <==> NumbersKept(a, b)
  {
    hide Missing;
    MissingIs(a, b);
    MissingIs(b, a);
    var n := Numbers(a) - Numbers(Missing(a, b)) + Numbers(Missing(b, a));
    forall k | k in n ensures k in Numbers(b) {
      if k in Numbers(Missing(b, a)) {
        var r :| r in Missing(b, a) && r.number == k;
        assert r in b;
      } else {
        var r :| r in a && r.number == k;
        assert r in Missing(a, b) || r in b;
      }
    }
    if NumbersKept(a, b) {
      forall k | k in Numbers(b) ensures k in n {
        var r :| r in b && r.number == k;
        assert r in a || r in Missing(b, a);
      }
    }
  }

  /** Tables without a repeated number lose none, and what they add was not there. */
  lemma GoodTablesKeepNumbers(a: seq<PartitionRecord>, b: seq<PartitionRecord>)
    requires GoodTable(a) && GoodTable(b)
    ensures NumbersKept(a, b)
    ensures (Numbers(a) - Numbers(Missing(a, b))) !! Numbers(Missing(b, a))
  {
    hide Missing;
    MissingIs(a, b);
    MissingIs(b, a);
    forall k | k in Numbers(Missing(a, b)) && k in Numbers(b) ensures k in Numbers(Missing(b, a)) {
      var r :| r in b && r.number == k;
      assert r in Missing(b, a) || r in a;
    }
  }

  lemma {:induction false} DestroyEachIs(owners: map<string, Owner>, d: string, recs: seq<PartitionRecord>)
    ensures var r := DestroyEach(owners, d, recs);
            && (forall id :: id in r <==> id in owners && !(owners[id].diskId == d && owners[id].part in Numbers(recs)))
            && (forall id :: id in r ==> r[id] == owners[id])
  {
    if recs != [] {
      var n := |recs| - 1;
      DestroyEachIs(owners, d, recs[..n]);
      assert recs == recs[..n] + [recs[n]];
      assert Numbers(recs) == Numbers(recs[..n]) + {recs[n].number};
    }
  }

  /** Creating volumes under clear names adds exactly the listed partitions. */
  lemma {:induction false} CreateEachIs(owners: map<string, Owner>, d: string, recs: seq<PartitionRecord>,
                                        name: nat -> string)
    requires NoCollision(owners, d, recs, name)
    ensures var r := CreateEach(owners, d, recs, name);
            && (forall id :: id in owners ==> id in r && r[id] == owners[id])
            && (forall id :: id in r && id !in owners ==>
                  exists k :: k in Numbers(recs) && id == name(k) && r[id] == Owner(d, k))
            && (forall k :: k in Numbers(recs) ==> name(k) in r && r[name(k)] == Owner(d, k))
  {
    hide Insert;
    if recs != [] {
      var n := |recs| - 1;
      assert recs == recs[..n] + [recs[n]];
      assert Numbers(recs) == Numbers(recs[..n]) + {recs[n].number};
      NarrowedNames(owners, owners, d, recs, recs[..n], name);
      CreateEachIs(owners, d, recs[..n], name);
      InsertIs(owners, CreateEach(owners, d, recs[..n], name), d, Numbers(recs[..n]), recs[n].number, name);
    }
  }

  lemma InsertIs(owners: map<string, Owner>, o: map<string, Owner>, d: string, ks: set<nat>, k: nat,
                 name: nat -> string)
    requires forall i :: i in ks && name(i) == name(k) ==> i == k
    requires name(k) in owners ==> owners[name(k)] == Owner(d, k)
    requires forall id :: id in owners ==> id in o && o[id] == owners[id]
    requires forall id :: id in o && id !in owners ==> exists i :: i in ks && id == name(i) && o[id] == Owner(d, i)
    requires forall i :: i in ks ==> name(i) in o && o[name(i)] == Owner(d, i)
    ensures var r := Insert(o, name(k), Owner(d, k));
            && (forall id :: id in owners ==> id in r && r[id] == owners[id])
            && (forall id :: id in r && id !in owners ==>
                  exists i :: i in ks + {k} && id == name(i) && r[id] == Owner(d, i))
            && (forall i :: i in ks + {k} ==> name(i) in r && r[name(i)] == Owner(d, i))
  {
    var r := Insert(o, name(k), Owner(d, k));
    forall id | id in r && id !in owners ensures exists i :: i in ks + {k} && id == name(i) && r[id] == Owner(d, i) {
      if id in o {
        var i :| i in ks && id == name(i) && o[id] == Owner(d, i);
        assert i in ks + {k};
      } else {
        assert k in ks + {k};
      }
    }
  }

  lemma DestroyKeepsStep(owners: map<string, Owner>, d: string, recs: seq<PartitionRecord>)
    requires OneOwner(owners)
    ensures var r := DestroyEach(owners, d, recs);
            && OneOwner(r) && Parts(r, d) == Parts(owners, d) - Numbers(recs)
            && forall e :: e != d ==> Parts(r, e) == Parts(owners, e)
  {
    hide DestroyEach, Numbers;
    DestroyEachIs(owners, d, recs);
    var r := DestroyEach(owners, d, recs);
    forall e, k | k in Parts(owners, e) && !(e == d && k in Numbers(recs)) ensures k in Parts(r, e) {
      var id :| id in owners && owners[id] == Owner(e, k);
      assert id in r;
    }
  }

  lemma CreateKeepsStep(owners: map<string, Owner>, d: string, recs: seq<PartitionRecord>, name: nat -> string)
    requires OneOwner(owners) && NoCollision(owners, d, recs, name) && Numbered(recs)
    requires forall id :: id in owners && owners[id].diskId == d && owners[id].part in Numbers(recs) ==>
               id == name(owners[id].part)
    ensures var r := CreateEach(owners, d, recs, name);
            && OneOwner(r) && Parts(r, d) == Parts(owners, d) + Numbers(recs)
            && forall e :: e != d ==> Parts(r, e) == Parts(owners, e)
  {
    hide CreateEach, NoCollision, OneOwner;
    CreateEachIs(owners, d, recs, name);
    var r := CreateEach(owners, d, recs, name);
    forall k | k in Numbers(recs) ensures k in Parts(r, d) {
      assert r[name(k)] == Owner(d, k);
    }
    forall e, k | k in Parts(owners, e) ensures k in Parts(r, e) {
      var id :| id in owners && owners[id] == Owner(e, k);
      assert id in r;
    }
    CreateOneOwner(owners, d, recs, name);
  }

  lemma CreateOneOwner(owners: map<string, Owner>, d: string, recs: seq<PartitionRecord>, name: nat -> string)
    requires OneOwner(owners) && NoCollision(owners, d, recs, name)
    requires forall id :: id in owners && owners[id].diskId == d && owners[id].part in Numbers(recs) ==>
               id == name(owners[id].part)
    ensures OneOwner(CreateEach(owners, d, recs, name))
  {
    hide CreateEach, NoCollision;
    CreateEachIs(owners, d, recs, name);
  }

  lemma WholeDiskKeepsStep(owners: map<string, Owner>, id: string, d: string)
    requires OneOwner(owners)
    ensures OneOwner(Insert(owners, id, Owner(d, 0)))
    ensures forall e :: Parts(Insert(owners, id, Owner(d, 0)), e) == Parts(owners, e)
  {
    var r := Insert(owners, id, Owner(d, 0));
    forall e, k | k in Parts(owners, e) ensures k in Parts(r, e) {
      var i :| i in owners && owners[i] == Owner(e, k);
      assert i in r;
    }
  }

  lemma NarrowedNames(owners: map<string, Owner>, o: map<string, Owner>, d: string,
                      parts: seq<PartitionRecord>, recs: seq<PartitionRecord>, name: nat -> string)
    requires NoCollision(owners, d, parts, name) && Numbers(recs) <= Numbers(parts)
    requires forall id :: id in o ==> id in owners && o[id] == owners[id]
    ensures NoCollision(o, d, recs, name)
  {
  }

  lemma DiscoverExactly(t: Tracker, d: string, parts: seq<PartitionRecord>, name: nat -> string, wholeDisk: bool)
    requires InStep(t) && Clear(t, Seen(d, Read(parts), name, wholeDisk))
    ensures InStep(Discover(t, d, parts, name, wholeDisk)) <==> NumbersKept(Known(t, d), parts)
    ensures Parts(Discover(t, d, parts, name, wholeDisk).owners, d) == Numbers(parts)
            <==> NumbersKept(Known(t, d), parts)
  {
    hide OneOwner, Parts, Missing, DestroyEach, CreateEach, NoCollision, Numbers, Insert, NumbersKept;
    var known := Known(t, d);
    var removed, added := Missing(known, parts), Missing(parts, known);
    DiffNumbers(known, parts);
    DestroyKeepsStep(t.owners, d, removed);
    DestroyEachIs(t.owners, d, removed);
    var o1 := DestroyEach(t.owners, d, removed);
    AddedNumbers(parts, known);
    NarrowedNames(t.owners, o1, d, parts, added, name);
    CreateKeepsStep(o1, d, added, name);
    var o2 := CreateEach(o1, d, added, name);
    WholeDiskKeepsStep(o2, name(0), d);
    var t' := Discover(t, d, parts, name, wholeDisk);
    assert Parts(t'.owners, d) == Numbers(known) - Numbers(removed) + Numbers(added);
    assert Known(t', d) == parts;
    forall e | e != d ensures Parts(t'.owners, e) == Numbers(Known(t', e)) {
      assert Parts(t.owners, e) == Numbers(Known(t, e));
    }
  }

  lemma AddedNumbers(a: seq<PartitionRecord>, b: seq<PartitionRecord>)
    requires Numbered(a)
    ensures Numbers(Missing(a, b)) <= Numbers(a) && Numbered(Missing(a, b))
  {
    MissingIs(a, b);
  }

  lemma DiskDropped(owners: map<string, Owner>, d: string)
    requires OneOwner(owners)
    ensures var r := WithoutDisk(owners, d);
            OneOwner(r) && Parts(r, d) == {} && forall e :: e != d ==> Parts(r, e) == Parts(owners, e)
  {
    var r := WithoutDisk(owners, d);
    forall e, k | e != d && k in Parts(owners, e) ensures k in Parts(r, e) {
      var id :| id in owners && owners[id] == Owner(e, k);
      assert id in r;
    }
  }

  /** After an event whose device numbers are in order the service is in step exactly if no number was lost. */
  lemma StepExactly(t: Tracker, e: Uevent)
    requires InStep(t) && Clear(t, e)
    ensures InStep(Step(t, e)) <==> Kept(t, e)
  {
    hide OneOwner, Parts, Discover, NoCollision, SameName, NumbersKept, WithoutDisk;
    var t' := Step(t, e);
    match e
    case Seen(d, Read(parts), name, wholeDisk) => DiscoverExactly(t, d, parts, name, wholeDisk);
    case Seen(_, ValidNode, _, _) =>
      assert forall x :: Known(t', x) == Known(t, x);
    case _ =>
      DiskDropped(t.owners, e.diskId);
      forall x ensures Parts(t'.owners, x) == Numbers(Known(t', x)) {
        assert Parts(t.owners, x) == Numbers(Known(t, x));
      }
  }

  // ---------- runs ----------

  function Run(t: Tracker, events: seq<Uevent>): Tracker
    decreases |events|
  {
    if events == [] then t else Run(Step(t, events[0]), events[1..])
  }

  predicate AllClear(t: Tracker, events: seq<Uevent>)
    decreases |events|
  {
    events == [] || (Clear(t, events[0]) && AllClear(Step(t, events[0]), events[1..]))
  }

  predicate AllKept(t: Tracker, events: seq<Uevent>)
    decreases |events|
  {
    events == [] || (Kept(t, events[0]) && AllKept(Step(t, events[0]), events[1..]))
  }

  /** In step after each of the events. */
  ghost predicate AlwaysInStep(t: Tracker, events: seq<Uevent>)
    decreases |events|
  {
    events == [] || (InStep(Step(t, events[0])) && AlwaysInStep(Step(t, events[0]), events[1..]))
  }

  /**
   * Over every run of add, change and remove events whose device numbers are in order, the service
   * is in step after each event if and only if no event loses a number that stays listed.
   */
  lemma {:induction false} RunExactly(t: Tracker, events: seq<Uevent>)
    requires InStep(t) && AllClear(t, events)
    ensures AlwaysInStep(t, events) <==> AllKept(t, events)
    decreases |events|
  {
    hide InStep, Clear, Kept, Step;
    if events != [] {
      StepExactly(t, events[0]);
      if Kept(t, events[0]) {
        RunExactly(Step(t, events[0]), events[1..]);
      }
    }
  }

  // ---------- tables without a repeated number ----------

  predicate Regular(t: Tracker, e: Uevent) {
    e.Seen? && e.table.Read? ==> GoodTable(e.table.parts) && NoCollision(t.owners, e.diskId, e.table.parts, e.name)
  }

  predicate GoodSnapshots(t: Tracker) {
    forall d :: d in t.snapshots ==> GoodTable(t.snapshots[d])
  }

  lemma RegularIsClear(t: Tracker, e: Uevent)
    requires InStep(t) && GoodSnapshots(t) && Regular(t, e)
    ensures Clear(t, e) && Kept(t, e) && GoodSnapshots(Step(t, e))
  {
    if e.Seen? && e.table.Read? {
      var d, parts := e.diskId, e.table.parts;
      GoodTablesKeepNumbers(Known(t, d), parts);
      AddedNumbers(parts, Known(t, d));
      var added := Missing(parts, Known(t, d));
      forall id | id in t.owners && t.owners[id].diskId == d && t.owners[id].part in Numbers(added)
        ensures t.owners[id].part in Numbers(Missing(Known(t, d), parts))
      {
        assert t.owners[id].part in Parts(t.owners, d);
      }
    }
  }

  predicate AllRegular(t: Tracker, events: seq<Uevent>)
    decreases |events|
  {
    events == [] || (Regular(t, events[0]) && AllRegular(Step(t, events[0]), events[1..]))
  }

  lemma {:induction false} RunKeeps(t: Tracker, events: seq<Uevent>)
    requires InStep(t) && GoodSnapshots(t) && AllRegular(t, events)
    ensures InStep(Run(t, events))
    decreases |events|
  {
    hide InStep, Regular, Clear, Kept, Step, GoodSnapshots;
    if events != [] {
      RegularIsClear(t, events[0]);
      StepExactly(t, events[0]);
      RunKeeps(Step(t, events[0]), events[1..]);
    }
  }

  const NOTHING_SEEN := Tracker({}, map[], map[])

  lemma StartsInStep()
    ensures InStep(NOTHING_SEEN) && GoodSnapshots(NOTHING_SEEN)
  {
    assert forall x :: Parts(NOTHING_SEEN.owners, x) == {};
  }

  /**
   * Over every run of add, change and remove events from an empty service, after each event the
   * partition numbers that own a volume on a disk are exactly those of the last table seen there.
   */
  lemma VolumesFollowTable(events: seq<Uevent>, d: string)
    requires AllRegular(NOTHING_SEEN, events)
    ensures var t := Run(NOTHING_SEEN, events);
            && Parts(t.owners, d) == Numbers(Known(t, d))
            && forall n :: n in Numbers(Known(t, d)) ==>
                 exists id :: id in t.owners && t.owners[id] == Owner(d, n)
                              && forall j :: j in t.owners && t.owners[j] == Owner(d, n) ==> j == id
  {
    hide Run, AllRegular;
    StartsInStep();
    RunKeeps(NOTHING_SEEN, events);
    var t := Run(NOTHING_SEEN, events);
    forall n | n in Numbers(Known(t, d))
      ensures exists id :: id in t.owners && t.owners[id] == Owner(d, n)
                           && forall j :: j in t.owners && t.owners[j] == Owner(d, n) ==> j == id
    {
      assert n in Parts(t.owners, d);
      var id :| id in t.owners && t.owners[id] == Owner(d, n);
    }
  }

  // ---------- where the condition fails ----------

  /**
   * A table that listed a number twice and now lists one of the two records: the volume goes, while
   * the number stays listed.
   */
  lemma RepeatedNumberBreaks(t: Tracker, d: string, a: PartitionRecord, b: PartitionRecord, name: nat -> string)
    requires InStep(t) && a.number == b.number && a != b
    requires d in t.snapshots && t.snapshots[d] == [a, b]
    requires NoCollision(t.owners, d, [a], name)
    ensures !InStep(Step(t, Seen(d, Read([a]), name, false)))
  {
    hide InStep, NoCollision, Step;
    var e := Seen(d, Read([a]), name, false);
    MissingIs([a, b], [a]);
    NoneMissing([a], [a, b]);
    assert b in Missing([a, b], [a]) && b.number in Numbers(Missing([a, b], [a])) by {
      assert b in [a, b];
    }
    assert a.number in Numbers([a]) by {
      assert a in [a];
    }
    assert Numbered([a]) by {
      SnapshotNumbered(t, d, a);
    }
    StepExactly(t, e);
  }

  lemma SnapshotNumbered(t: Tracker, d: string, r: PartitionRecord)
    requires InStep(t) && d in t.snapshots && r in t.snapshots[d]
    ensures r.number >= 1
  {
    assert Numbered(t.snapshots[d]);
  }

  /** A volume that stands for the whole disk stays when partitions appear beside it. */
  lemma WholeDiskVolumeStays(t: Tracker, d: string, id: string, parts: seq<PartitionRecord>, name: nat -> string,
                             wholeDisk: bool)
    requires id in t.owners && t.owners[id] == Owner(d, 0)
    requires Numbered(Known(t, d))
    ensures var t' := Step(t, Seen(d, Read(parts), name, wholeDisk)); id in t'.owners && t'.owners[id] == Owner(d, 0)
  {
    var removed, added := Missing(Known(t, d), parts), Missing(parts, Known(t, d));
    AddedNumbers(Known(t, d), parts);
    DestroyEachIs(t.owners, d, removed);
    hide DestroyEach, Missing;
    CreateKeepsEntries(DestroyEach(t.owners, d, removed), d, added, name, id);
  }

  lemma {:induction false} CreateKeepsEntries(owners: map<string, Owner>, d: string, recs: seq<PartitionRecord>,
                                              name: nat -> string, id: string)
    requires id in owners
    ensures id in CreateEach(owners, d, recs, name) && CreateEach(owners, d, recs, name)[id] == owners[id]
  {
    if recs != [] {
      CreateKeepsEntries(owners, d, recs[..|recs| - 1], name, id);
    }
  }
}
