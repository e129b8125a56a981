/** What the store writes to and reads from its two JSON files. */
module StoreFiles {
  import opened Wrappers
  import opened Maps
  import opened Text
  import opened SlotMap
  import opened StoreModel

  /** An element of the JSON array: an object with the two string fields, or anything else. */
  datatype Item = Junk | Record(fsUuid: string, mountPath: string)

  /** A file: missing, not a JSON array, or an array. An empty text reads like an empty array. */
  datatype File = Absent | Unparsable | Array(items: seq<Item>)

  /** The four files of the store's directory. */
  datatype Files = Files(main: File, mainTemp: File, backup: File, backupTemp: File)

  function FromJson(item: Item): Option<Entry> {
    match item
    case Junk => None
    case Record(u, p) =>
      match ParseSlot(p)
      case None => None
      case Some(slot) => if IsUuidValid(u) then Some(Entry(u, p, slot)) else None
  }

  function ToJson(e: Entry): Item {
    Record(e.fsUuid, e.mountPath)
  }

  /** Read the items in order on top of `acc`, stopping once the table is full. */
  function LoadItems(items: seq<Item>, acc: Slots): Slots {
    if items == [] || |acc| >= MAX_SLOTS then acc
    else
      match FromJson(items[0])
      case None => LoadItems(items[1..], acc)
      case Some(e) => LoadItems(items[1..], acc[e.fsUuid := e])
  }

  function ViewOf(f: File): View {
    match f
    case Absent => Gone
    case Unparsable => Broken
    case Array(items) => Holds(LoadItems(items, map[]))
  }

  /** A table whose entries survive being written and read back; every loaded table is one. */
  predicate Loadable(m: Slots) {
    |m| <= MAX_SLOTS && forall u :: u in m ==> LoadableEntry(u, m[u])
  }

  predicate LoadableEntry(u: string, e: Entry) {
    e.fsUuid == u && FromJson(ToJson(e)) == Some(e)
  }

  lemma {:induction false} LoadItemsLoadable(items: seq<Item>, acc: Slots)
    requires Loadable(acc)
    ensures Loadable(LoadItems(items, acc))
    decreases |items|
  {
    hide IsUuidValid, ParseSlot;
    if items != [] && |acc| < MAX_SLOTS {
      match FromJson(items[0])
      case None => LoadItemsLoadable(items[1..], acc);
      case Some(e) =>
        assert acc[e.fsUuid := e].Keys == acc.Keys + {e.fsUuid};
        LoadItemsLoadable(items[1..], acc[e.fsUuid := e]);
    }
  }

  // ---------- writing a table and reading it back ----------

  /** `items` lists the entries of `m`, each exactly once, in some order. */
  ghost predicate Lists(items: seq<Item>, m: Slots) {
    if items == [] then m == map[]
    else
      && items[0].Record?
      && var u := items[0].fsUuid;
         u in m && items[0] == ToJson(m[u]) && Lists(items[1..], m - {u})
  }

  lemma {:induction false} ListsAppend(items: seq<Item>, m: Slots, u: string, e: Entry)
    requires Lists(items, m) && u !in m && e.fsUuid == u
    ensures Lists(items + [ToJson(e)], m[u := e])
  {
    if items == [] {
      assert m[u := e] - {u} == map[];
    } else {
      var v := items[0].fsUuid;
      ListsAppend(items[1..], m - {v}, u, e);
      assert (items + [ToJson(e)])[1..] == items[1..] + [ToJson(e)];
      assert m[u := e] - {v} == (m - {v})[u := e];
    }
  }

  lemma {:induction false} LoadListed(items: seq<Item>, m: Slots, acc: Slots)
    requires Lists(items, m) && |acc| + |m| <= MAX_SLOTS
    requires forall u :: u in m ==> u !in acc && LoadableEntry(u, m[u])
    ensures LoadItems(items, acc) == acc + m
    decreases |items|
  {
    hide IsUuidValid, ParseSlot, FromJson;
    if items == [] {
      AddNothing(acc);
    } else {
      var u := items[0].fsUuid;
      MoveEntry(acc, m, u);
      AddCount(acc, u, m[u]);
      RemoveCount(m, u);
      LoadListed(items[1..], m - {u}, acc[u := m[u]]);
      assert LoadableEntry(u, m[u]);
    }
  }

  /** Whatever order the table is written in, reading it back gives the same table. */
  lemma ListedRoundTrip(items: seq<Item>, m: Slots)
    requires Loadable(m) && Lists(items, m)
    ensures LoadItems(items, map[]) == m
  {
    hide IsUuidValid, ParseSlot, FromJson;
    LoadListed(items, m, map[]);
    AddNothing(m);
  }

  // ---------- a main file changed behind the store's back ----------

  /**
   * Whatever file stands where main was: a start that can read both files has the last backed-up
   * table if and only if main cannot be parsed, or is missing while that table is empty, or is an
   * array that reads as that table. Any other array is believed, and the backup is not looked at.
   */
  lemma DamagedMainRecoversExactly(s: State, start: View, f: File, b: Boot)
    requires BackupIsLast(s, start) && Whole(b.main) && Whole(b.backup)
    ensures var t := Start(s.(initialized := false, main := ViewOf(f)), b).0;
            t.table == LastTable(s, start)
            <==> match f
                 case Unparsable => true
                 case Absent => LastTable(s, start) == map[]
                 case Array(items) => LoadItems(items, map[]) == LastTable(s, start)
  {
    hide LoadItems;
  }

  /**
   * A main file cut to nothing reads as an empty array: the start reports success with an empty table
   * and leaves a good backup alone, until the next save overwrites that too.
   */
  lemma EmptiedMainLosesTable(s: State, b: Boot, u: string, r: Save)
    requires !s.initialized && s.main == ViewOf(Array([])) && s.backup.Holds? && Whole(b.main) && Whole(b.backup)
    requires IsUuidValid(u) && r.mainOk && r.backupOk
    ensures Start(s, b) == (s.(table := map[], initialized := true), true)
    ensures ResolveStep(s, u, b, r).0.backup == Holds(Allocate(map[], u))
  {
    hide IsUuidValid, Allocate;
  }

  // ---------- files the store did not write ----------

  /** How many items are read before the table is full. */
  function Taken(items: seq<Item>, acc: Slots): nat {
    if items == [] || |acc| >= MAX_SLOTS then 0
    else
      var e := FromJson(items[0]);
      1 + Taken(items[1..], if e.None? then acc else acc[e.value.fsUuid := e.value])
  }

  predicate Gives(item: Item, u: string) {
    FromJson(item).Some? && FromJson(item).value.fsUuid == u
  }

  /** The last of the first n items that gives u is the i-th. */
  predicate LastGives(items: seq<Item>, n: nat, i: nat, u: string)
    requires n <= |items|
  {
    i < n && Gives(items[i], u) && forall j :: i < j < n ==> !Gives(items[j], u)
  }

  /** r holds for each UUID its last accepted item among the first n, else what acc held. */
  ghost predicate LoadedAs(items: seq<Item>, n: nat, acc: Slots, r: Slots)
    requires n <= |items|
  {
    && (forall u :: u in r <==> u in acc || exists i :: 0 <= i < n && Gives(items[i], u))
    && (forall i: nat, u :: LastGives(items, n, i, u) ==> u in r && Some(r[u]) == FromJson(items[i]))
    && (forall u :: u in acc && (forall i :: 0 <= i < n ==> !Gives(items[i], u)) ==> r[u] == acc[u])
  }

  lemma {:induction false} LoadedIs(items: seq<Item>, acc: Slots)
    ensures Taken(items, acc) <= |items| && LoadedAs(items, Taken(items, acc), acc, LoadItems(items, acc))
    decreases |items|
  {
    hide FromJson, LoadedAs;
    if items == [] || |acc| >= MAX_SLOTS {
      NothingLoaded(items, acc);
    } else {
      var e := FromJson(items[0]);
      var next := if e.None? then acc else acc[e.value.fsUuid := e.value];
      LoadedIs(items[1..], next);
      LoadedNext(items, Taken(items[1..], next), acc, next, LoadItems(items[1..], next));
    }
  }

  lemma NothingLoaded(items: seq<Item>, acc: Slots)
    ensures LoadedAs(items, 0, acc, acc)
  {
    hide FromJson;
  }

  lemma LoadedNext(items: seq<Item>, n: nat, acc: Slots, next: Slots, r: Slots)
    requires items != [] && n < |items| && LoadedAs(items[1..], n, next, r)
    requires var e := FromJson(items[0]); next == if e.None? then acc else acc[e.value.fsUuid := e.value]
    ensures LoadedAs(items, n + 1, acc, r)
  {
    hide FromJson;
    var rest := items[1..];
    forall u ensures u in r <==> u in acc || exists i :: 0 <= i < n + 1 && Gives(items[i], u) {
      GivenNext(items, n, u);
    }
    forall i: nat, u | LastGives(items, n + 1, i, u) ensures u in r && Some(r[u]) == FromJson(items[i]) {
      if i > 0 {
        LastNext(items, n, i, u);
      } else {
        GivenNext(items, n, u);
        assert forall j :: 0 <= j < n ==> !Gives(rest[j], u) by {
          assert forall j :: 0 <= j < n ==> rest[j] == items[j + 1];
        }
      }
    }
    forall u | u in acc && forall i :: 0 <= i < n + 1 ==> !Gives(items[i], u) ensures r[u] == acc[u] {
      assert !Gives(items[0], u);
      assert forall j :: 0 <= j < n ==> rest[j] == items[j + 1];
    }
  }

  lemma GivenNext(items: seq<Item>, n: nat, u: string)
    requires n < |items|
    ensures (exists i :: 0 <= i < n + 1 && Gives(items[i], u))
            <==> Gives(items[0], u) || exists i :: 0 <= i < n && Gives(items[1..][i], u)
  {
    hide Gives;
    var rest := items[1..];
    if i :| 0 <= i < n && Gives(rest[i], u) {
      assert Gives(items[i + 1], u);
    }
    if i :| 0 < i < n + 1 && Gives(items[i], u) {
      assert Gives(rest[i - 1], u);
    }
  }

  lemma LastNext(items: seq<Item>, n: nat, i: nat, u: string)
    requires n < |items| && 0 < i && LastGives(items, n + 1, i, u)
    ensures LastGives(items[1..], n, i - 1, u)
  {
    hide Gives;
    assert forall j :: 0 <= j < n ==> items[1..][j] == items[j + 1];
  }

  lemma {:induction false} SomeLastGives(items: seq<Item>, n: nat, i: nat, u: string) returns (k: nat)
    requires i < n <= |items| && Gives(items[i], u)
    ensures LastGives(items, n, k, u)
    decreases n - i
  {
    if j :| i < j < n && Gives(items[j], u) {
      k := SomeLastGives(items, n, j, u);
    } else {
      k := i;
    }
  }

  /** Two items that are both in force name one slot. */
  predicate Clash(items: seq<Item>, n: nat, i: nat, j: nat)
    requires n <= |items|
  {
    && i < j < n && FromJson(items[i]).Some? && FromJson(items[j]).Some?
    && LastGives(items, n, i, FromJson(items[i]).value.fsUuid)
    && LastGives(items, n, j, FromJson(items[j]).value.fsUuid)
    && FromJson(items[i]).value.slot == FromJson(items[j]).value.slot
  }

  /**
   * Loading rejects no file for it, so the slots of a loaded table are distinct exactly when no two
   * items name one slot, among the items read and accepted that no later one overrides.
   */
  lemma LoadedSlotsDistinctExactly(items: seq<Item>)
    ensures Taken(items, map[]) <= |items|
    ensures SlotsDistinct(LoadItems(items, map[]))
            <==> forall i: nat, j: nat :: !Clash(items, Taken(items, map[]), i, j)
  {
    hide FromJson, LoadItems, Taken, LoadedAs, Clash;
    LoadedIs(items, map[]);
    var n, m := Taken(items, map[]), LoadItems(items, map[]);
    if i: nat, j: nat :| Clash(items, n, i, j) {
      ClashShares(items, n, m, i, j);
    }
    if u, v :| u in m && v in m && m[u].slot == m[v].slot && u != v {
      var i, j := SharedClash(items, n, m, u, v);
    }
  }

  lemma ClashShares(items: seq<Item>, n: nat, m: Slots, i: nat, j: nat)
    requires n <= |items| && LoadedAs(items, n, map[], m) && Clash(items, n, i, j)
    ensures !SlotsDistinct(m)
  {
    hide FromJson;
    var u, v := FromJson(items[i]).value.fsUuid, FromJson(items[j]).value.fsUuid;
    assert u in m && v in m && m[u].slot == m[v].slot;
  }

  lemma SharedClash(items: seq<Item>, n: nat, m: Slots, u: string, v: string) returns (i: nat, j: nat)
    requires n <= |items| && LoadedAs(items, n, map[], m)
    requires u in m && v in m && m[u].slot == m[v].slot && u != v
    ensures Clash(items, n, i, j)
  {
    hide FromJson;
    var a :| 0 <= a < n && Gives(items[a], u);
    var b :| 0 <= b < n && Gives(items[b], v);
    i := SomeLastGives(items, n, a, u);
    j := SomeLastGives(items, n, b, v);
    if i > j {
      i, j := j, i;
    }
  }

  /** The smallest such file. */
  lemma ForeignFileMayShareSlots()
    ensures !SlotsDistinct(LoadItems([Record("a", SlotPath(1)), Record("b", SlotPath(1))], map[]))
  {
    hide IsUuidValid, ParseSlot, LoadItems;
    SlotPathRoundTrip(1);
    ShortUuidValid("a");
    ShortUuidValid("b");
    var second := [Record("b", SlotPath(1))];
    var items := [Record("a", SlotPath(1)), Record("b", SlotPath(1))];
    assert items[1..] == second && second[1..] == [];
    var a := Entry("a", SlotPath(1), 1);
    assert Taken(second, map["a" := a]) == 1;
    assert Taken(items, map[]) == 2;
    LoadedSlotsDistinctExactly(items);
    assert Clash(items, 2, 0, 1);
  }

  lemma ShortUuidValid(u: string)
    requires u == "a" || u == "b"
    ensures IsUuidValid(u)
  {
    forall k, i | 0 <= k < |ENCODED_PATTERNS| ensures !OccursAt(u, ENCODED_PATTERNS[k], i) {
      OccurrenceChar(u, ENCODED_PATTERNS[k], i, 0);
    }
    assert LastIndex(u, '_') == -1;
  }
}
