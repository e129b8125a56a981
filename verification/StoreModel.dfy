/**
 * The store as a state machine over what its two files say when they are read back: the table in
 * memory, the main file and the backup file. Every query, open and write of a file may fail, and the
 * process may die between any two file steps.
 */
module StoreModel {
  import opened Wrappers
  import opened Text
  import opened SlotMap

  /** A file as the loader sees it. */
  datatype View = Gone | Broken | Holds(table: Slots)

  /** Which of the two file writes of one save succeed. */
  datatype Save = Save(mainOk: bool, backupOk: bool)

  /** Whether the query for a file that exists finds it, and whether it can then be opened. */
  datatype Read = Read(seen: bool, readable: bool)

  /** What the file system answers while the store loads: both reads, and the save that may follow. */
  datatype Boot = Boot(main: Read, backup: Read, save: Save)

  datatype State = State(
    table: Slots,
    initialized: bool,
    main: View,
    backup: View,
    saves: seq<(Slots, Save)>    // every save so far, for stating what the backup holds
  )

  datatype Op =
    | Init(load: Boot)
    | UnInit
    | Resolve(uuid: string, load: Boot, save: Save)
    | RemoveUuid(uuid: string, load: Boot, save: Save)
    | ReplaceUuid(prior: string, next: string, load: Boot, save: Save)
    | Crash(during: CrashPoint)

  /** Where a dying process was: outside a save, or inside one after its main file was renamed. */
  datatype CrashPoint = Idle | MainRenamed(table: Slots)

  // ---------- transitions ----------

  function SaveToFile(s: State, r: Save): State {
    if !r.mainOk then s.(saves := s.saves + [(s.table, r)])
    else s.(main := Holds(s.table),
            backup := if r.backupOk then Holds(s.table) else s.backup,
            saves := s.saves + [(s.table, r)])
  }

  /** A file as a load finds it: one that cannot be seen is taken for missing, one that cannot be opened for broken. */
  function Seen(v: View, r: Read): View {
    if v.Gone? || !r.seen then Gone else if !r.readable then Broken else v
  }

  predicate Whole(r: Read) {
    r.seen && r.readable
  }

  /** The table a load ends up with: main if it can be read, else the backup if main is there, else nothing. */
  function Opened(main: View, backup: View): Slots {
    match main
    case Gone => map[]
    case Holds(m) => m
    case Broken => if backup.Holds? then backup.table else map[]
  }

  /** `LoadFromFile`: the new state and whether the load is reported as successful. */
  function Load(s: State, b: Boot): (State, bool) {
    var main, backup := Seen(s.main, b.main), Seen(s.backup, b.backup);
    var t := s.(table := Opened(main, backup));
    if !main.Holds? then (SaveToFile(t, b.save), b.save.mainOk)
    else if backup.Gone? then (SaveToFile(t, b.save), true)
    else (t, true)
  }

  function Start(s: State, b: Boot): (State, bool) {
    if s.initialized then (s, true)
    else var (t, ok) := Load(s, b); (t.(initialized := ok), ok)
  }

  /** Commit a new table: keep it when the main file was written, otherwise roll back. */
  function Commit(s: State, m: Slots, r: Save): State {
    SaveToFile(s.(table := m), r).(table := if r.mainOk then m else s.table)
  }

  ghost function ResolveStep(s: State, u: string, load: Boot, r: Save): (State, Option<string>) {
    if !IsUuidValid(u) then (s, None)
    else
      var (t, ok) := Start(s, load);
      if !ok then (t, None)
      else if u in t.table then (t, Some(t.table[u].mountPath))
      else
        var m := Allocate(t.table, u);
        (Commit(t, m, r), if r.mainOk then Some(m[u].mountPath) else None)
  }

  function RemoveStep(s: State, u: string, load: Boot, r: Save): (State, bool) {
    if !IsUuidValid(u) then (s, false)
    else
      var (t, ok) := Start(s, load);
      if !ok then (t, false)
      else if u !in t.table then (t, true)
      else (Commit(t, Remove(t.table, u), r), r.mainOk)
  }

  function ReplaceStep(s: State, prior: string, next: string, load: Boot, r: Save): (State, bool) {
    if !IsUuidValid(prior) || !IsUuidValid(next) then (s, false)
    else if prior == next then (s, true)
    else
      var (t, ok) := Start(s, load);
      if !ok then (t, false)
      else if prior !in t.table then (t, true)
      else if next in t.table then (t, false)
      else (Commit(t, Replace(t.table, prior, next), r), r.mainOk)
  }

  ghost function Step(s: State, op: Op): State {
    match op
    case Init(load) => Start(s, load).0
    case UnInit => if s.initialized then s.(table := map[], initialized := false) else s
    case Resolve(u, load, r) => ResolveStep(s, u, load, r).0
    case RemoveUuid(u, load, r) => RemoveStep(s, u, load, r).0
    case ReplaceUuid(p, n, load, r) => ReplaceStep(s, p, n, load, r).0
    case Crash(Idle) => s.(table := map[], initialized := false)
    case Crash(MainRenamed(m)) =>
      s.(table := map[], initialized := false, main := Holds(m), saves := s.saves + [(m, Save(true, false))])
  }

  /** A crash inside a save happens while committing the table of some call on this state. */
  ghost predicate CrashPossible(s: State, op: Op) {
    op.Crash? && op.during.MainRenamed? ==> CommitTarget(s, op.during.table)
  }

  ghost predicate CommitTarget(s: State, m: Slots) {
    || (exists u :: s.initialized && u !in s.table && IsUuidValid(u) && m == Allocate(s.table, u))
    || (exists u :: s.initialized && m == Remove(s.table, u))
    || (exists u, v :: s.initialized && u in s.table && v !in s.table && IsUuidValid(v) && m == Replace(s.table, u, v))
    || (exists b :: !s.initialized && m == Load(s, b).0.table)
  }

  ghost function Run(s: State, ops: seq<Op>): State
    decreases |ops|
  {
    if ops == [] then s else Run(Step(s, ops[0]), ops[1..])
  }

  ghost predicate Possible(s: State, ops: seq<Op>)
    decreases |ops|
  {
    ops == [] || (CrashPossible(s, ops[0]) && Possible(Step(s, ops[0]), ops[1..]))
  }

  // ---------- the invariant ----------

  /** The table of the last save whose backup write succeeded. */
  function LastBackedUp(saves: seq<(Slots, Save)>): Option<Slots> {
    if saves == [] then None
    else
      var (m, r) := saves[|saves| - 1];
      if r.mainOk && r.backupOk then Some(m) else LastBackedUp(saves[..|saves| - 1])
  }

  predicate ViewOk(v: View) {
    v.Holds? ==> WellFormed(v.table)
  }

  /** The backup holds the last table backed up since `start`, or what it held at `start`. */
  predicate BackupIsLast(s: State, start: View) {
    s.backup == match LastBackedUp(s.saves) case None => start case Some(m) => Holds(m)
  }

  predicate Inv(s: State, start: View) {
    && WellFormed(s.table)
    && ViewOk(s.main) && ViewOk(s.backup)
    && (s.initialized ==> s.main == Holds(s.table))
    && BackupIsLast(s, start)
  }

  lemma SaveKeeps(s: State, r: Save, start: View)
    requires WellFormed(s.table) && ViewOk(s.main) && ViewOk(s.backup) && BackupIsLast(s, start)
    ensures var t := SaveToFile(s, r);
            && WellFormed(t.table) && ViewOk(t.main) && ViewOk(t.backup) && BackupIsLast(t, start)
  {
    hide WellFormed;
    var saves := s.saves + [(s.table, r)];
    assert saves[..|saves| - 1] == s.saves;
  }

  lemma EmptyWellFormed()
    ensures WellFormed(map[])
  {
  }

  lemma OpenedOk(s: State, b: Boot)
    requires ViewOk(s.main) && ViewOk(s.backup)
    ensures WellFormed(Opened(Seen(s.main, b.main), Seen(s.backup, b.backup)))
  {
    hide WellFormed;
    EmptyWellFormed();
  }

  lemma StartKeeps(s: State, b: Boot, start: View)
    requires Inv(s, start)
    ensures Inv(Start(s, b).0, start)
    ensures Start(s, b).1 <==> Start(s, b).0.initialized
  {
    hide WellFormed, LastBackedUp;
    if !s.initialized {
      OpenedOk(s, b);
      SaveKeeps(s.(table := Opened(Seen(s.main, b.main), Seen(s.backup, b.backup))), b.save, start);
    }
  }

  lemma TableOk(s: State, b: Boot, start: View)
    requires Inv(s, start)
    ensures WellFormed(Start(s, b).0.table)
  {
    StartKeeps(s, b, start);
  }

  lemma CommitKeeps(s: State, m: Slots, r: Save, start: View)
    requires Inv(s, start) && s.initialized && WellFormed(m)
    ensures Inv(Commit(s, m, r), start) && Commit(s, m, r).initialized
  {
    hide WellFormed;
    SaveKeeps(s.(table := m), r, start);
  }

  lemma ResolveKeeps(s: State, u: string, load: Boot, r: Save, start: View)
    requires Inv(s, start)
    ensures Inv(ResolveStep(s, u, load, r).0, start)
  {
    hide Inv, Start, Commit, IsUuidValid, WellFormed, Allocate;
    StartKeeps(s, load, start);
    TableOk(s, load, start);
    var t := Start(s, load).0;
    if IsUuidValid(u) && t.initialized && u !in t.table {
      AllocateSpec(t.table, u);
      CommitKeeps(t, Allocate(t.table, u), r, start);
    }
  }

  lemma RemoveUuidKeeps(s: State, u: string, load: Boot, r: Save, start: View)
    requires Inv(s, start)
    ensures Inv(RemoveStep(s, u, load, r).0, start)
  {
    hide Inv, Start, Commit, IsUuidValid, WellFormed, Allocate;
    StartKeeps(s, load, start);
    TableOk(s, load, start);
    var t := Start(s, load).0;
    if t.initialized {
      RemoveKeeps(t.table, u);
      CommitKeeps(t, Remove(t.table, u), r, start);
    }
  }

  lemma ReplaceUuidKeeps(s: State, p: string, n: string, load: Boot, r: Save, start: View)
    requires Inv(s, start)
    ensures Inv(ReplaceStep(s, p, n, load, r).0, start)
  {
    hide Inv, Start, Commit, IsUuidValid, WellFormed, Allocate;
    StartKeeps(s, load, start);
    TableOk(s, load, start);
    var t := Start(s, load).0;
    if IsUuidValid(n) && t.initialized && p in t.table && n !in t.table {
      ReplaceSpec(t.table, p, n);
      CommitKeeps(t, Replace(t.table, p, n), r, start);
    }
  }

  lemma CommitTargetOk(s: State, m: Slots, start: View)
    requires Inv(s, start) && CommitTarget(s, m)
    ensures WellFormed(m)
  {
    if u :| s.initialized && u !in s.table && IsUuidValid(u) && m == Allocate(s.table, u) {
      AllocateSpec(s.table, u);
    } else if u :| s.initialized && m == Remove(s.table, u) {
      RemoveKeeps(s.table, u);
    } else if u, v :| s.initialized && u in s.table && v !in s.table && IsUuidValid(v) && m == Replace(s.table, u, v) {
      ReplaceSpec(s.table, u, v);
    } else {
      var b :| !s.initialized && m == Load(s, b).0.table;
      StartKeeps(s, b, start);
    }
  }

  lemma StepKeeps(s: State, op: Op, start: View)
    requires Inv(s, start) && CrashPossible(s, op)
    ensures Inv(Step(s, op), start)
  {
    EmptyWellFormed();
    match op
    case Init(load) => StartKeeps(s, load, start);
    case UnInit =>
    case Resolve(u, load, r) => ResolveKeeps(s, u, load, r, start);
    case RemoveUuid(u, load, r) => RemoveUuidKeeps(s, u, load, r, start);
    case ReplaceUuid(p, n, load, r) => ReplaceUuidKeeps(s, p, n, load, r, start);
    case Crash(Idle) =>
    case Crash(MainRenamed(m)) =>
      CommitTargetOk(s, m, start);
      var saves := s.saves + [(m, Save(true, false))];
      assert saves[..|saves| - 1] == s.saves;
  }

  /**
   * Over every run of calls, restarts and crashes with arbitrary read and write failures: at most 1000
   * entries, distinct slots in 1..1000, each path the one of its slot, the table equal to what the
   * main file says whenever the store is initialised, and the backup equal to the table of the
   * last save whose backup write succeeded.
   */
  lemma {:induction false} RunKeeps(s: State, ops: seq<Op>, start: View)
    requires Inv(s, start) && Possible(s, ops)
    ensures Inv(Run(s, ops), start)
    decreases |ops|
  {
    if ops != [] {
      StepKeeps(s, ops[0], start);
      RunKeeps(Step(s, ops[0]), ops[1..], start);
    }
  }

  // ---------- recovery ----------

  /** The state a process finds when it starts again after dying at the given point. */
  ghost function Restarted(s: State, at: CrashPoint): State {
    Step(s, Crash(at))
  }

  /**
   * Dying outside a save, or inside the save of a table m, initialised or not: the next start that
   * can read the main file has the table that file held, or m.
   */
  lemma CrashRecovers(s: State, at: CrashPoint, b: Boot)
    requires (s.main.Holds? || at.MainRenamed?) && Whole(b.main)
    ensures var (t, ok) := Start(Restarted(s, at), b);
            ok && t.table == match at case Idle => s.main.table case MainRenamed(m) => m
  {
  }

  /** What the backup says: the table of the last save that reached it, or what it held before, or nothing. */
  function LastTable(s: State, start: View): Slots {
    match LastBackedUp(s.saves)
    case Some(m) => m
    case None => if start.Holds? then start.table else map[]
  }

  /** If the main file cannot be parsed, the next start recovers exactly that table. */
  lemma BrokenMainRecovers(s: State, start: View, b: Boot)
    requires BackupIsLast(s, start) && Whole(b.backup) && b.main.seen
    ensures var (t, ok) := Start(s.(initialized := false, main := Broken), b);
            ok == b.save.mainOk && t.table == LastTable(s, start) && (ok ==> t.main == Holds(t.table))
  {
  }

  /**
   * A main file that is missing, or that the query does not find, is not recovered: the table starts
   * empty, is saved so, and replaces a good backup as well if that write succeeds.
   */
  lemma MissingMainLosesTable(s: State, b: Boot)
    requires !s.initialized && (s.main == Gone || !b.main.seen)
    ensures var (t, ok) := Start(s, b);
            && t.table == map[] && ok == b.save.mainOk
            && t.main == (if ok then Holds(map[]) else s.main)
            && t.backup == (if ok && b.save.backupOk then Holds(map[]) else s.backup)
  {
  }

  /** Without a loadable main file a start has the backup's table exactly if main is damaged or that table is empty. */
  lemma RecoversBackupExactly(s: State, b: Boot)
    requires !s.initialized && !s.main.Holds? && s.backup.Holds? && Whole(b.main) && Whole(b.backup)
    ensures Start(s, b).0.table == s.backup.table <==> s.main.Broken? || s.backup.table == map[]
  {
  }

  /** Main is read; or it is seen and the backup, read, holds the same table; or that table is empty. */
  predicate ReadsBack(s: State, b: Boot)
    requires s.main.Holds?
  {
    if Whole(b.main) then true
    else if b.main.seen && Whole(b.backup) && s.backup.Holds? then s.backup.table == s.main.table
    else s.main.table == map[]
  }

  /** A start has the table of an intact main file exactly then; the file keeps it then, or if no save succeeds. */
  lemma StartKeepsTableExactly(s: State, b: Boot)
    requires !s.initialized && s.main.Holds?
    ensures var (t, ok) := Start(s, b);
            && (t.table == s.main.table <==> ReadsBack(s, b))
            && (t.main == s.main <==> ReadsBack(s, b) || !b.save.mainOk)
  {
  }

  /**
   * The losing start: after a save that did not reach the backup, one failed open of the intact main
   * file loads the older table and writes it over main, and reports success.
   */
  lemma FailedOpenLosesTable(s: State, b: Boot)
    requires !s.initialized && s.main.Holds? && s.backup.Holds? && s.backup.table != s.main.table
    requires b.main.seen && !b.main.readable && Whole(b.backup) && b.save.mainOk
    ensures var (t, ok) := Start(s, b); ok && t.table == s.backup.table && t.main == s.backup
  {
  }

  /** A store over files it wrote starts in the invariant. */
  lemma StartsInInv(main: View, backup: View)
    requires ViewOk(main) && ViewOk(backup)
    ensures Inv(State(map[], false, main, backup, []), backup)
  {
    hide WellFormed;
    EmptyWellFormed();
  }

  /** The call gets past its checks on UUIDs, and so to initialising the store. */
  predicate ReachesInit(op: Op) {
    match op
    case Init(_) => true
    case Resolve(u, _, _) => IsUuidValid(u)
    case RemoveUuid(u, _, _) => IsUuidValid(u)
    case ReplaceUuid(p, n, _, _) => IsUuidValid(p) && IsUuidValid(n) && p != n
    case _ => false
  }

  /** What a start leaves in memory is what main says if it succeeded, or if main said so before. */
  lemma StartMatchesMain(s: State, b: Boot)
    requires s.initialized ==> s.main == Holds(s.table)
    ensures var (t, ok) := Start(s, b);
            t.initialized == ok && (t.main == Holds(t.table) <==> ok || s.main == Holds(t.table))
  {
  }

  lemma CommitMatchesMain(s: State, m: Slots, r: Save)
    requires s.initialized && s.main == Holds(s.table)
    ensures var t := Commit(s, m, r); t.initialized && t.main == Holds(t.table)
  {
  }

  /**
   * After every call that gets as far as initialising, whether it succeeds or fails, the table in
   * memory is what the main file says if and only if initialising succeeded, or loaded what an intact
   * main file holds anyway.
   */
  lemma TableIsMainExactly(s: State, op: Op, start: View)
    requires Inv(s, start) && ReachesInit(op)
    ensures var (t, ok) := Start(s, op.load);
            && Step(s, op).initialized == ok
            && (Step(s, op).main == Holds(Step(s, op).table) <==> ok || s.main == Holds(t.table))
  {
    hide Start, Commit, IsUuidValid, WellFormed, BackupIsLast, Allocate, Replace;
    var (t, ok) := Start(s, op.load);
    StartMatchesMain(s, op.load);
    if ok {
      match op
      case Init(_) =>
      case Resolve(u, _, r) => CommitMatchesMain(t, Allocate(t.table, u), r);
      case RemoveUuid(u, _, r) => CommitMatchesMain(t, Remove(t.table, u), r);
      case ReplaceUuid(p, n, _, r) =>
        if p in t.table {
          CommitMatchesMain(t, Replace(t.table, p, n), r);
        }
    }
  }

  // ---------- stability of a mapping ----------

  predicate Maps(m: Slots, u: string, p: string) {
    u in m && m[u].mountPath == p
  }

  /** The committed table maps u to p: on disk, and in memory whenever the store is initialised. */
  predicate Mapped(s: State, u: string, p: string) {
    s.main.Holds? && Maps(s.main.table, u, p) && (s.initialized ==> s.table == s.main.table)
  }

  /** The load overwrites an intact main file that it could not read with a table that does not map u to p. */
  predicate Forgets(s: State, b: Boot, u: string, p: string) {
    && !s.initialized && !Whole(b.main) && b.save.mainOk
    && !(b.main.seen && Whole(b.backup) && s.backup.Holds? && Maps(s.backup.table, u, p))
  }

  /**
   * The operation takes the mapping away: by a load that forgets it, or by a save that succeeds of its
   * removal, of its replacement, or of an eviction from slot 1 of a full table.
   */
  ghost predicate Drops(s: State, op: Op, u: string, p: string) {
    || (ReachesInit(op) && Forgets(s, op.load, u, p))
    || match op
       case RemoveUuid(v, load, r) => IsUuidValid(v) && u == v && Start(s, load).1 && r.mainOk
       case ReplaceUuid(v, n, load, r) =>
         && IsUuidValid(v) && IsUuidValid(n) && u == v && v != n && n !in Start(s, load).0.table
         && Start(s, load).1 && r.mainOk
       case Resolve(v, load, r) =>
         var t := Start(s, load).0.table;
         && IsUuidValid(v) && v !in t && |t| >= MAX_SLOTS && u in t && t[u].slot == 1
         && Start(s, load).1 && r.mainOk
       case Crash(MainRenamed(m)) => !Maps(m, u, p)
       case _ => false
  }

  /** No operation of the run takes the mapping away. */
  ghost predicate NeverDropped(s: State, ops: seq<Op>, u: string, p: string)
    decreases |ops|
  {
    ops == [] || (!Drops(s, ops[0], u, p) && NeverDropped(Step(s, ops[0]), ops[1..], u, p))
  }

  /** The mapping is there once the operation has initialised the store, and after it. */
  ghost predicate Kept(s: State, op: Op, u: string, p: string) {
    (ReachesInit(op) ==> Mapped(Start(s, op.load).0, u, p)) && Mapped(Step(s, op), u, p)
  }

  ghost predicate AlwaysMapped(s: State, ops: seq<Op>, u: string, p: string)
    decreases |ops|
  {
    ops == [] || (Kept(s, ops[0], u, p) && AlwaysMapped(Step(s, ops[0]), ops[1..], u, p))
  }

  /** A start keeps the mapping on file exactly if it does not forget it; having succeeded, also in memory. */
  lemma StartKeepsMapping(s: State, b: Boot, start: View, u: string, p: string)
    requires Inv(s, start) && Mapped(s, u, p)
    ensures Mapped(Start(s, b).0, u, p) <==> !Forgets(s, b, u, p)
    ensures Start(s, b).1 ==> (Maps(Start(s, b).0.table, u, p) <==> !Forgets(s, b, u, p))
  {
    hide WellFormed, BackupIsLast;
  }

  lemma CommitMapped(s: State, m: Slots, r: Save, u: string, p: string)
    requires s.initialized && s.main == Holds(s.table)
    ensures Mapped(Commit(s, m, r), u, p) <==> Maps(if r.mainOk then m else s.table, u, p)
  {
  }

  /** Allocation moves no mapping but that of the slot it evicts, and the new one. */
  lemma AllocateMaps(m: Slots, v: string, u: string, p: string)
    requires WellFormed(m) && IsUuidValid(v) && v !in m && Maps(m, u, p)
    ensures Maps(Allocate(m, v), u, p) <==> !(|m| >= MAX_SLOTS && m[u].slot == 1)
  {
    hide IsUuidValid, Allocate, Evict, EntryOk;
    AllocateSpec(m, v);
    EvictSpec(m);
    var r := Allocate(m, v);
    assert forall x :: x != v ==> (x in r <==> x in Evict(m)) && (x in r ==> r[x] == Evict(m)[x]) by {
      assert forall x :: x in Remove(r, v) <==> x in r && x != v;
    }
  }

  lemma StepKeepsMapping(s: State, op: Op, u: string, p: string, start: View)
    requires Inv(s, start) && Mapped(s, u, p)
    ensures Kept(s, op, u, p) <==> !Drops(s, op, u, p)
  {
    hide Start, Commit, IsUuidValid, WellFormed, BackupIsLast, Allocate, Forgets;
    if ReachesInit(op) {
      StartKeepsMapping(s, op.load, start, u, p);
      StartKeeps(s, op.load, start);
      var (t, ok) := Start(s, op.load);
      if ok && !Forgets(s, op.load, u, p) {
        match op
        case Init(_) =>
        case Resolve(v, _, r) =>
          if v !in t.table {
            AllocateMaps(t.table, v, u, p);
            CommitMapped(t, Allocate(t.table, v), r, u, p);
          }
        case RemoveUuid(v, _, r) => CommitMapped(t, Remove(t.table, v), r, u, p);
        case ReplaceUuid(v, n, _, r) =>
          if v in t.table {
            CommitMapped(t, Replace(t.table, v, n), r, u, p);
          }
      }
    }
  }

  /**
   * Over every run of calls, restarts and crashes with any failures, a mapped UUID keeps its mount
   * path throughout if and only if no operation drops it: removes it, replaces it, evicts it from
   * slot 1 of a full table, or loads without being able to read the main file and saves that.
   */
  lemma {:induction false} MappingIsStable(s: State, ops: seq<Op>, u: string, p: string, start: View)
    requires Inv(s, start) && Possible(s, ops) && Mapped(s, u, p)
    ensures AlwaysMapped(s, ops, u, p) <==> NeverDropped(s, ops, u, p)
    decreases |ops|
  {
    hide Inv, Step, Drops, Mapped, ReachesInit, CrashPossible;
    if ops != [] {
      StepKeeps(s, ops[0], start);
      StepKeepsMapping(s, ops[0], u, p, start);
      if !Drops(s, ops[0], u, p) {
        MappingIsStable(Step(s, ops[0]), ops[1..], u, p, start);
      }
    }
  }
}
