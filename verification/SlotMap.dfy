/** The value types shared by the modules. */
module Wrappers {
  datatype Option<+T> = None | Some(value: T)
}

/**
 * The slot table of `VoldataUuidStore`: at most 1000 filesystem UUIDs, each owning one mount path
 * /mnt/data/voldata/dataN.
 */
module SlotMap {
  import opened Wrappers
  import opened Maps
  import opened Decimal
  import opened Text

  const MAX_SLOTS := 1000
  const VOLDATA_MOUNT_PREFIX := "/mnt/data/voldata/data"

  datatype Entry = Entry(fsUuid: string, mountPath: string, slot: nat)

  type Slots = map<string, Entry>

  function SlotPath(slot: nat): string {
    VOLDATA_MOUNT_PREFIX + ToString(slot)
  }

  function ParseSlot(path: string): Option<nat> {
    var n := |VOLDATA_MOUNT_PREFIX|;
    if |path| > n && path[..n] == VOLDATA_MOUNT_PREFIX && AllDigits(path[n..])
       && 1 <= Value(path[n..]) <= MAX_SLOTS
    then Some(Value(path[n..])) else None
  }

  /** Parsing inverts path building on 1..1000, and the path of any other number is refused. */
  lemma SlotPathRoundTrip(slot: nat)
    ensures ParseSlot(SlotPath(slot)) == if 1 <= slot <= MAX_SLOTS then Some(slot) else None
  {
    var n := |VOLDATA_MOUNT_PREFIX|;
    assert SlotPath(slot)[..n] == VOLDATA_MOUNT_PREFIX;
    assert SlotPath(slot)[n..] == ToString(slot);
    ValueOfToString(slot);
  }

  // ---------- the invariant ----------

  predicate EntryOk(u: string, e: Entry) {
    && e.fsUuid == u && IsUuidValid(u)
    && 1 <= e.slot <= MAX_SLOTS
    && e.mountPath == SlotPath(e.slot)
  }

  predicate SlotsDistinct(m: Slots) {
    forall u, v :: u in m && v in m && m[u].slot == m[v].slot ==> u == v
  }

  predicate WellFormed(m: Slots) {
    && |m| <= MAX_SLOTS
    && (forall u :: u in m ==> EntryOk(u, m[u]))
    && SlotsDistinct(m)
  }

  predicate Free(m: Slots, slot: nat) {
    forall u :: u in m ==> m[u].slot != slot
  }

  // ---------- pigeonhole ----------

  ghost function Used(m: Slots): set<nat> {
    set u | u in m :: m[u].slot
  }

  lemma {:induction false} UsedCount(m: Slots)
    requires SlotsDistinct(m)
    ensures |Used(m)| == |m|
  {
    if m != map[] {
      var u :| u in m;
      var rest := m - {u};
      UsedCount(rest);
      assert Used(m) == Used(rest) + {m[u].slot};
      RemoveCount(m, u);
    }
  }

  ghost function Range(lo: nat, hi: nat): (r: set<nat>)
    requires lo <= hi
    ensures forall i :: i in r <==> lo <= i < hi
    ensures |r| == hi - lo
    decreases hi
  {
    if lo == hi then {} else Range(lo, hi - 1) + {hi - 1}
  }

  /** A table that is not full leaves some slot of 1..1000 free. */
  lemma SomeSlotFree(m: Slots) returns (slot: nat)
    requires WellFormed(m) && |m| < MAX_SLOTS
    ensures 1 <= slot <= MAX_SLOTS && Free(m, slot)
  {
    var all := Range(1, MAX_SLOTS + 1);
    UsedCount(m);
    if all <= Used(m) {
      SubsetCount(all, Used(m));
    }
    slot :| slot in all && slot !in Used(m);
  }

  /** A full table uses every slot, in particular slot 1: the eviction always finds its victim. */
  lemma FullUsesSlotOne(m: Slots) returns (u: string)
    requires WellFormed(m) && |m| == MAX_SLOTS
    ensures u in m && m[u].slot == 1
  {
    UsedCount(m);
    if Free(m, 1) {
      SubsetCount(Used(m), Range(2, MAX_SLOTS + 1));
    }
    u :| u in m && m[u].slot == 1;
  }

  // ---------- allocation ----------

  /** The minimum free slot, 1 when there is none. */
  function LeastFreeFrom(m: Slots, slot: nat): nat
    decreases MAX_SLOTS + 1 - slot
  {
    if slot > MAX_SLOTS then 1 else if Free(m, slot) then slot else LeastFreeFrom(m, slot + 1)
  }

  lemma {:induction false} LeastFreeIsLeast(m: Slots, from: nat, slot: nat)
    requires from <= slot <= MAX_SLOTS && Free(m, slot)
    requires forall i :: from <= i < slot ==> !Free(m, i)
    ensures LeastFreeFrom(m, from) == slot
    decreases slot - from
  {
    if from < slot {
      LeastFreeIsLeast(m, from + 1, slot);
    }
  }

  lemma {:induction false} LeastFreeSpec(m: Slots, from: nat)
    ensures var s := LeastFreeFrom(m, from);
            || (from <= s <= MAX_SLOTS && Free(m, s) && forall i :: from <= i < s ==> !Free(m, i))
            || (s == 1 && forall i :: from <= i <= MAX_SLOTS ==> !Free(m, i))
    decreases MAX_SLOTS + 1 - from
  {
    if from <= MAX_SLOTS && !Free(m, from) {
      LeastFreeSpec(m, from + 1);
    }
  }

  /** A full table loses its slot-1 entry; failing that, any entry. */
  ghost function Evict(m: Slots): Slots {
    if |m| < MAX_SLOTS then m
    else if exists u :: u in m && m[u].slot == 1 then
      var u :| u in m && m[u].slot == 1; m - {u}
    else
      var u :| u in m; m - {u}
  }

  ghost function Allocate(m: Slots, u: string): Slots {
    var kept := Evict(m);
    var slot := LeastFreeFrom(kept, 1);
    kept[u := Entry(u, SlotPath(slot), slot)]
  }

  function Remove(m: Slots, u: string): Slots {
    m - {u}
  }

  function Replace(m: Slots, prior: string, next: string): Slots
    requires prior in m
  {
    (m - {prior})[next := m[prior].(fsUuid := next)]
  }

  lemma RemoveKeeps(m: Slots, u: string)
    requires WellFormed(m)
    ensures WellFormed(Remove(m, u))
  {
    if u in m {
      RemoveCount(m, u);
    } else {
      assert Remove(m, u) == m;
    }
  }

  /**
   * Evicting from a full table removes exactly the owner of slot 1 and frees exactly slot 1;
   * a table with room is left alone.
   */
  lemma EvictSpec(m: Slots)
    requires WellFormed(m)
    ensures WellFormed(Evict(m)) && |Evict(m)| < MAX_SLOTS
    ensures |m| < MAX_SLOTS ==> Evict(m) == m
    ensures |m| == MAX_SLOTS ==>
              && Free(Evict(m), 1)
              && exists u :: u in m && m[u].slot == 1 && Evict(m) == m - {u}
  {
    if |m| == MAX_SLOTS {
      var w := FullUsesSlotOne(m);
      assert Evict(m) == m - {w};
      RemoveKeeps(m, w);
      RemoveCount(m, w);
    }
  }

  lemma SlotPathNotEmpty(m: Slots, u: string)
    requires WellFormed(m)
    ensures u in m ==> m[u].mountPath != "" && m[u].mountPath == SlotPath(m[u].slot)
  {
    hide IsUuidValid;
    if u in m {
      assert EntryOk(u, m[u]);
      assert VOLDATA_MOUNT_PREFIX[0] == '/';
    }
  }

  lemma AddKeeps(m: Slots, u: string, slot: nat)
    requires WellFormed(m) && |m| < MAX_SLOTS && IsUuidValid(u) && u !in m
    requires 1 <= slot <= MAX_SLOTS && Free(m, slot)
    ensures var r := m[u := Entry(u, SlotPath(slot), slot)];
            WellFormed(r) && Remove(r, u) == m
  {
    hide IsUuidValid;
    var r := m[u := Entry(u, SlotPath(slot), slot)];
    AddCount(m, u, r[u]);
    assert Remove(r, u) == m;
  }

  /**
   * Allocation for an unmapped UUID keeps the invariant and gives it the least slot that is free.
   * Every other entry stays, unless the table was full: then exactly the slot-1 entry goes.
   */
  lemma AllocateSpec(m: Slots, u: string)
    requires WellFormed(m) && IsUuidValid(u) && u !in m
    ensures WellFormed(Allocate(m, u))
    ensures u in Allocate(m, u)
    ensures Remove(Allocate(m, u), u) == Evict(m)
    ensures var s := Allocate(m, u)[u].slot;
            1 <= s <= MAX_SLOTS && Free(Evict(m), s) && forall i :: 1 <= i < s ==> !Free(Evict(m), i)
    ensures |m| == MAX_SLOTS ==> Allocate(m, u)[u].slot == 1
  {
    EvictSpec(m);
    var kept := Evict(m);
    var free := SomeSlotFree(kept);
    LeastFreeSpec(kept, 1);
    AddKeeps(kept, u, LeastFreeFrom(kept, 1));
  }

  /** Replacing moves one key, keeps its slot and path, and touches no other entry. */
  lemma ReplaceSpec(m: Slots, prior: string, next: string)
    requires WellFormed(m) && prior in m && next !in m && IsUuidValid(next)
    ensures WellFormed(Replace(m, prior, next))
    ensures var r := Replace(m, prior, next);
            && r.Keys == m.Keys - {prior} + {next}
            && r[next].slot == m[prior].slot && r[next].mountPath == m[prior].mountPath
            && forall u :: u in m && u != prior ==> u in r && r[u] == m[u]
  {
    hide IsUuidValid, SlotPath;
    RemoveCount(m, prior);
    AddCount(m - {prior}, next, m[prior].(fsUuid := next));
    assert EntryOk(prior, m[prior]);
  }

  /** Adding a mapping and removing it again restores a table that was not full. */
  lemma AllocateThenRemove(m: Slots, u: string)
    requires WellFormed(m) && IsUuidValid(u) && u !in m
    ensures Remove(Allocate(m, u), u) == m <==> |m| < MAX_SLOTS
  {
    AllocateSpec(m, u);
    EvictSpec(m);
  }
}
