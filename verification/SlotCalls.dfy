/** What the slot store's calls do to the table a restart would load, as the mount pipeline sees it. */
module SlotCalls {
  import opened Wrappers
  import opened Text
  import opened SlotMap
  import opened StoreModel
  import opened VoldataStore

  /** The table a process starting on the files of `s` ends up with, if it can read them. */
  function Committed(s: State): Slots {
    Opened(s.main, s.backup)
  }

  /** The same once a call has initialised the store, or failed to. */
  function Started(s: State, b: Boot): Slots {
    if Start(s, b).1 then Start(s, b).0.table else Committed(s)
  }

  predicate Sound(s: State) {
    && WellFormed(s.table) && ViewOk(s.main) && ViewOk(s.backup)
    && (s.initialized ==> s.main == Holds(s.table))
  }

  lemma SoundIsOwn(s: State)
    requires Sound(s)
    ensures OwnFilesAt(s)
  {
    hide WellFormed;
  }

  lemma CommittedOk(s: State)
    requires Sound(s)
    ensures WellFormed(Committed(s))
  {
    EmptyWellFormed();
    hide WellFormed;
  }

  /** A start that succeeds commits the table it loads; one that fails commits nothing. */
  lemma StartCommitted(s: State, b: Boot)
    requires Sound(s)
    ensures var (t, ok) := Start(s, b);
            && Sound(t) && WellFormed(t.table) && WellFormed(Started(s, b)) && t.initialized == ok
            && Committed(t) == Started(s, b) && (ok ==> t.table == Started(s, b))
  {
    hide WellFormed;
    CommittedOk(s);
    OpenedOk(s, b);
  }

  /** The reads of a load give what the files hold. */
  predicate ReadsAll(s: State, b: Boot) {
    match s.main
    case Gone => true
    case Holds(_) => ReadsBack(s, b)
    case Broken => Committed(s) == map[] || (b.main.seen && Whole(b.backup))
  }

  /** Initialising leaves what a restart would load as it was exactly if its reads give that, or it cannot save. */
  lemma StartChangesExactly(s: State, b: Boot)
    requires !s.initialized
    ensures Started(s, b) == Committed(s) <==> ReadsAll(s, b) || !b.save.mainOk
  {
  }

  /** In particular it does if both files can be read. */
  lemma WholeStart(s: State, b: Boot)
    requires Sound(s) && Whole(b.main) && Whole(b.backup)
    ensures Started(s, b) == Committed(s)
  {
    hide WellFormed;
  }

  /** A start succeeds exactly if the store has started before, can read its main file, or can write it. */
  lemma StartSucceedsExactly(s: State, b: Boot)
    ensures Start(s, b).1 <==> s.initialized || (s.main.Holds? && Whole(b.main)) || b.save.mainOk
  {
  }

  lemma StartAgain(s: State, b: Boot)
    requires s.initialized
    ensures Start(s, b) == (s, true)
  {
  }

  lemma CommitCommitted(s: State, m: Slots, r: Save)
    requires Sound(s) && s.initialized && WellFormed(m)
    ensures var t := Commit(s, m, r);
            Sound(t) && t.initialized && Committed(t) == if r.mainOk then m else Committed(s)
  {
    hide WellFormed;
  }

  lemma ResolveCommitted(s: State, u: string, load: Boot, r: Save)
    requires Sound(s)
    ensures var (t, path) := ResolveStep(s, u, load, r);
            var m := if IsUuidValid(u) then Started(s, load) else Committed(s);
            var ready := IsUuidValid(u) && Start(s, load).1;
            && Sound(t) && (path.Some? ==> t.initialized)
            && Committed(t) == (if ready && u !in m && r.mainOk then Allocate(m, u) else m)
            && path == (if !ready then None
                        else if u in m then Some(m[u].mountPath)
                        else if r.mainOk then Some(Allocate(m, u)[u].mountPath) else None)
  {
    hide WellFormed, IsUuidValid, Start, Commit, Sound, Committed, Started;
    StartCommitted(s, load);
    CommittedOk(s);
    var t := Start(s, load).0;
    if IsUuidValid(u) && Start(s, load).1 && u !in t.table {
      AllocateSpec(t.table, u);
      CommitCommitted(t, Allocate(t.table, u), r);
    }
  }

  lemma RemoveCommitted(s: State, u: string, load: Boot, r: Save)
    requires Sound(s)
    ensures var t := RemoveStep(s, u, load, r).0;
            var m := if IsUuidValid(u) then Started(s, load) else Committed(s);
            && Sound(t)
            && Committed(t) == if IsUuidValid(u) && Start(s, load).1 && r.mainOk then Remove(m, u) else m
    ensures Committed(RemoveStep(s, u, load, r).0)
            == var m := if IsUuidValid(u) then Started(s, load) else Committed(s);
               if RemoveStep(s, u, load, r).1 then Remove(m, u) else m
    ensures RemoveStep(s, u, load, r).1
            <==> IsUuidValid(u) && Start(s, load).1 && (u in Started(s, load) ==> r.mainOk)
  {
    hide WellFormed, IsUuidValid, Start, Commit, Sound, Committed, Started;
    StartCommitted(s, load);
    CommittedOk(s);
    var t := Start(s, load).0;
    if IsUuidValid(u) && Start(s, load).1 && u in t.table {
      RemoveKeeps(t.table, u);
      CommitCommitted(t, Remove(t.table, u), r);
    }
    assert u !in Started(s, load) ==> Remove(Started(s, load), u) == Started(s, load);
  }

  lemma ReplaceCommitted(s: State, prior: string, next: string, load: Boot, r: Save)
    requires Sound(s)
    ensures var t := ReplaceStep(s, prior, next, load, r).0;
            var reaches := IsUuidValid(prior) && IsUuidValid(next) && prior != next;
            var m := if reaches then Started(s, load) else Committed(s);
            && Sound(t)
            && Committed(t)
               == if reaches && Start(s, load).1 && prior in m && next !in m && r.mainOk
                  then Replace(m, prior, next) else m
    ensures var m := Started(s, load);
            ReplaceStep(s, prior, next, load, r).1
            <==> && IsUuidValid(prior) && IsUuidValid(next)
                 && (prior != next ==>
                       Start(s, load).1 && (prior in m ==> next !in m && r.mainOk))
  {
    hide WellFormed, IsUuidValid, Start, Commit, Sound, Committed, Started;
    StartCommitted(s, load);
    CommittedOk(s);
    var t := Start(s, load).0;
    if IsUuidValid(next) && Start(s, load).1 && prior in t.table && next !in t.table {
      ReplaceSpec(t.table, prior, next);
      CommitCommitted(t, Replace(t.table, prior, next), r);
    }
  }
}
