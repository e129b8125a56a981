/**
 * The flag that keeps data-disk formats and partitionings apart: any number of Format and Partition
 * callers of `DiskManagerProvider`, interleaved one atomic step at a time.
 */
module BusyFlag {

  datatype Request = Format | Partition

  /** What a finished call told its caller. */
  datatype Outcome = Busy | AuthorizationDenied | Done(err: int)

  /** Where a caller is. `dataDisk` says whether its target is a data disk, which it looks up once. */
  datatype Pc =
    | Start(request: Request, dataDisk: bool)
    | Won(request: Request)                       // its exchange found the flag down
    | Denied(request: Request)                    // authorization failed, flag not yet lowered
    | Operating(request: Request, dataDisk: bool)
    | Releasing(request: Request, err: int)       // operation over, flag not yet lowered
    | Finished(outcome: Outcome)

  datatype State = State(threads: map<nat, Pc>, busy: bool)

  datatype Action =
    | Arrive(t: nat, request: Request, dataDisk: bool)
    | Move(t: nat, authorized: bool, err: int)

  function At(s: State, t: nat, pc: Pc): State {
    s.(threads := s.threads[t := pc])
  }

  function MoveThread(s: State, t: nat, pc: Pc, authorized: bool, err: int): State {
    match pc
    case Start(q, dataDisk) =>
      if !dataDisk then At(s, t, Operating(q, false))
      else if s.busy then At(s, t, Finished(Busy))
      else At(s, t, Won(q)).(busy := true)
    case Won(q) => At(s, t, if authorized then Operating(q, true) else Denied(q))
    case Denied(_) => At(s, t, Finished(AuthorizationDenied)).(busy := false)
    case Operating(q, dataDisk) => At(s, t, if dataDisk then Releasing(q, err) else Finished(Done(err)))
    case Releasing(_, e) => At(s, t, Finished(Done(e))).(busy := false)
    case Finished(_) => s
  }

  function Do(s: State, a: Action): State {
    match a
    case Arrive(t, q, dataDisk) => if t in s.threads then s else At(s, t, Start(q, dataDisk))
    case Move(t, authorized, err) => if t in s.threads then MoveThread(s, t, s.threads[t], authorized, err) else s
  }

  function Run(s: State, actions: seq<Action>): State
    decreases |actions|
  {
    if actions == [] then s else Run(Do(s, actions[0]), actions[1..])
  }

  predicate Initial(s: State) {
    s.threads == map[] && !s.busy
  }

  /** The caller is between its winning exchange and its release. */
  predicate Inside(pc: Pc) {
    pc.Won? || pc.Denied? || pc.Releasing? || (pc.Operating? && pc.dataDisk)
  }

  function Insiders(threads: map<nat, Pc>): set<nat> {
    set t | t in threads && Inside(threads[t])
  }

  predicate Inv(s: State) {
    |Insiders(s.threads)| == if s.busy then 1 else 0
  }

  lemma InsidersAt(threads: map<nat, Pc>, t: nat, pc: Pc)
    ensures var before := if t in threads && Inside(threads[t]) then 1 else 0;
            var after := if Inside(pc) then 1 else 0;
            |Insiders(threads[t := pc])| == |Insiders(threads)| - before + after
  {
    var rest := Insiders(threads) - {t};
    assert Insiders(threads[t := pc]) == if Inside(pc) then rest + {t} else rest;
    assert Insiders(threads) == if t in threads && Inside(threads[t]) then rest + {t} else rest;
  }

  lemma InsiderMeansBusy(s: State, t: nat)
    requires Inv(s) && t in s.threads && Inside(s.threads[t])
    ensures s.busy
  {
    assert t in Insiders(s.threads);
  }

  lemma DoKeeps(s: State, a: Action)
    requires Inv(s)
    ensures Inv(Do(s, a))
  {
    hide Insiders;
    if a.t in s.threads && Inside(s.threads[a.t]) {
      InsiderMeansBusy(s, a.t);
    }
    var s' := Do(s, a);
    if a.t in s'.threads {
      InsidersAt(s.threads, a.t, s'.threads[a.t]);
    }
    assert a.t in s.threads ==> s.threads[a.t := s.threads[a.t]] == s.threads;
  }

  lemma {:induction false} RunKeeps(s: State, actions: seq<Action>)
    requires Inv(s)
    ensures Inv(Run(s, actions))
    decreases |actions|
  {
    if actions != [] {
      DoKeeps(s, actions[0]);
      RunKeeps(Do(s, actions[0]), actions[1..]);
    }
  }

  lemma Reached(s: State, actions: seq<Action>)
    requires Initial(s)
    ensures Inv(Run(s, actions))
  {
    assert Insiders(s.threads) == {};
    RunKeeps(s, actions);
  }

  /** The flag is up exactly when one caller is inside, and never are there two. */
  lemma BusyExactly(s: State, actions: seq<Action>)
    requires Initial(s)
    ensures var e := Run(s, actions);
            e.busy <==> exists t :: t in e.threads && Inside(e.threads[t])
                                    && forall u :: u in e.threads && Inside(e.threads[u]) ==> u == t
    ensures var e := Run(s, actions);
            forall t, u :: t in e.threads && u in e.threads && Inside(e.threads[t]) && Inside(e.threads[u]) ==> t == u
  {
    hide Run;
    Reached(s, actions);
    var e := Run(s, actions);
    var inside := Insiders(e.threads);
    forall t, u | t in e.threads && u in e.threads && Inside(e.threads[t]) && Inside(e.threads[u]) ensures t == u {
      assert {t, u} <= inside;
      if t != u {
        TwoElements(inside, t, u);
      }
    }
    if e.busy {
      var t :| t in inside;
    } else {
      forall t | t in e.threads ensures !Inside(e.threads[t]) {
        assert inside == {} && t !in inside;
      }
    }
  }

  lemma TwoElements(s: set<nat>, t: nat, u: nat)
    requires t in s && u in s && t != u
    ensures |s| >= 2
  {
    assert s == (s - {t, u}) + {t, u};
  }

  /** Two data-disk operations never overlap, whichever of Format and Partition they are. */
  lemma OperationsNeverOverlap(s: State, actions: seq<Action>, t: nat, u: nat)
    requires Initial(s)
    requires var e := Run(s, actions);
             t in e.threads && u in e.threads && e.threads[t].Operating? && e.threads[u].Operating?
             && e.threads[t].dataDisk && e.threads[u].dataDisk
    ensures t == u
  {
    hide Run;
    BusyExactly(s, actions);
  }

  /** Only the caller inside lowers the flag, and only by leaving: a refused caller never does. */
  lemma OnlyWinnerReleases(s: State, actions: seq<Action>, a: Action)
    requires Initial(s)
    ensures var e := Run(s, actions);
            e.busy && !Do(e, a).busy
            <==> a.Move? && a.t in e.threads && Inside(e.threads[a.t]) && !Inside(Do(e, a).threads[a.t])
  {
    hide Run;
    Reached(s, actions);
    var e := Run(s, actions);
    if a.t in e.threads && Inside(e.threads[a.t]) {
      InsiderMeansBusy(e, a.t);
    }
  }

  /** How many of its own steps a caller still has to make. */
  function StepsLeft(pc: Pc): nat {
    match pc
    case Start(_, _) => 4
    case Won(_) => 3
    case Operating(_, dataDisk) => if dataDisk then 2 else 1
    case Denied(_) => 1
    case Releasing(_, _) => 1
    case Finished(_) => 0
  }

  function OwnSteps(actions: seq<Action>, t: nat): nat
    decreases |actions|
  {
    if actions == [] then 0
    else (if actions[0].Move? && actions[0].t == t then 1 else 0) + OwnSteps(actions[1..], t)
  }

  /**
   * However the others interleave and however its authorization and operation end, a caller that
   * gets four steps of its own is finished, and no longer inside.
   */
  lemma {:induction false} EveryCallerFinishes(s: State, actions: seq<Action>, t: nat)
    requires t in s.threads && OwnSteps(actions, t) >= StepsLeft(s.threads[t])
    ensures t in Run(s, actions).threads && Run(s, actions).threads[t].Finished?
    decreases |actions|
  {
    if actions != [] {
      EveryCallerFinishes(Do(s, actions[0]), actions[1..], t);
    }
  }
}
