/**
 * Idle unload against uevents in `DiskManagerProvider`: any number of uevent calls, daemon
 * callbacks and timer ticks, interleaved one atomic step at a time.
 */
module Unload {
  import opened Wrappers

  /** Where a thread is; each step of the machine moves one thread by one of these. */
  datatype Pc =
    | UeventStart | UeventWaiting | UeventLocked | UeventPassed
    | UeventPending | UeventBody | UeventEnding | UeventLeaving
    | CallbackStart | CallbackPending
    | TimerStart | TimerLocked | TimerRunning | TimerSawIdle | TimerSawNoPending
    | TimerCalling | TimerFailed | TimerLeaving
    | Finished

  datatype Attempt = Never | Succeeded | Failed

  datatype State = State(
    threads: map<nat, Pc>,
    mutex: Option<nat>,        // unloadUeventMutex_
    unloading: bool,           // isUnloading_
    pending: int,              // pendingStorageDaemonCallbackCount_
    stopped: bool,             // idleMonitorStopped_
    ueventResources: nat,      // disks and volumes that uevents created
    otherResources: nat,       // those that came another way, such as media-transfer volumes
    lastAttempt: Attempt)      // how the last UnloadSystemAbility call ended

  /** What a step finds when it looks outside. */
  datatype Oracle = Oracle(accepted: bool, done: bool, resources: nat, unloadOk: bool)

  datatype Action =
    | Arrive(t: nat, start: Pc)       // a call or a tick begins
    | Move(t: nat, sees: Oracle)
    | SetStopped(b: bool)
    | UserCall(left: nat)             // a caller's request, which creates nothing where there is no disk

  // ---------- steps ----------

  function At(s: State, t: nat, pc: Pc): State {
    s.(threads := s.threads[t := pc])
  }

  /** A waiting thread takes the mutex when it is free, and otherwise stays where it is. */
  function Lock(s: State, t: nat, pc: Pc): State {
    if s.mutex.None? then At(s, t, pc).(mutex := Some(t)) else s
  }

  function MoveUevent(s: State, t: nat, pc: Pc, o: Oracle): State {
    match pc
    case UeventStart => At(s, t, if s.unloading then Finished else UeventWaiting)
    case UeventWaiting => Lock(s, t, UeventLocked)
    case UeventLocked => At(s, t, if s.unloading then UeventLeaving else UeventPassed)
    case UeventPassed => At(s, t, UeventPending).(pending := s.pending + 1)
    case UeventPending => At(s, t, if o.accepted then UeventBody else UeventEnding)
    case UeventBody => At(s, t, if o.done then UeventEnding else UeventBody).(ueventResources := o.resources)
    case UeventEnding => At(s, t, UeventLeaving).(pending := s.pending - 1)
    case UeventLeaving => At(s, t, Finished).(mutex := None)
    case _ => s
  }

  function MoveTimer(s: State, t: nat, pc: Pc, o: Oracle): State {
    match pc
    case TimerStart => Lock(s, t, TimerLocked)
    case TimerLocked => At(s, t, if s.stopped then TimerLeaving else TimerRunning)
    case TimerRunning => At(s, t, if s.ueventResources + s.otherResources > 0 then TimerLeaving else TimerSawIdle)
    case TimerSawIdle => At(s, t, if s.pending > 0 then TimerLeaving else TimerSawNoPending)
    case TimerSawNoPending => At(s, t, TimerCalling).(unloading := true)
    case TimerCalling =>
      At(s, t, if o.unloadOk then TimerLeaving else TimerFailed)
      .(lastAttempt := if o.unloadOk then Succeeded else Failed)
    case TimerFailed => At(s, t, TimerLeaving).(unloading := false)
    case TimerLeaving => At(s, t, Finished).(mutex := None)
    case _ => s
  }

  function MoveThread(s: State, t: nat, pc: Pc, o: Oracle): State {
    match pc
    case CallbackStart => At(s, t, CallbackPending).(pending := s.pending + 1)
    case CallbackPending =>
      if o.done then At(s, t, Finished).(pending := s.pending - 1) else s.(otherResources := o.resources)
    case _ => if IsUevent(pc) then MoveUevent(s, t, pc, o) else MoveTimer(s, t, pc, o)
  }

  function Do(s: State, a: Action): State {
    match a
    case Arrive(t, start) =>
      if t !in s.threads && start in {UeventStart, CallbackStart, TimerStart} then At(s, t, start) else s
    case Move(t, o) => if t in s.threads then MoveThread(s, t, s.threads[t], o) else s
    case SetStopped(b) => s.(stopped := b)
    case UserCall(left) => if s.ueventResources > 0 || left == 0 then s.(ueventResources := left) else s
  }

  function Run(s: State, actions: seq<Action>): State
    decreases |actions|
  {
    if actions == [] then s else Run(Do(s, actions[0]), actions[1..])
  }

  predicate Initial(s: State) {
    && s.threads == map[] && s.mutex == None && !s.unloading && s.pending == 0
    && s.ueventResources == 0 && s.lastAttempt == Never
  }

  // ---------- the invariant ----------

  predicate IsUevent(pc: Pc) {
    pc in {UeventStart, UeventWaiting, UeventLocked, UeventPassed,
           UeventPending, UeventBody, UeventEnding, UeventLeaving}
  }

  /** The thread holds the mutex. */
  predicate Holding(pc: Pc) {
    pc in {UeventLocked, UeventPassed, UeventPending, UeventBody, UeventEnding, UeventLeaving,
           TimerLocked, TimerRunning, TimerSawIdle, TimerSawNoPending, TimerCalling, TimerFailed, TimerLeaving}
  }

  /** The thread is between Begin and End of the pending-callback counter. */
  predicate Between(pc: Pc) {
    pc in {UeventPending, UeventBody, UeventEnding, CallbackPending}
  }

  /** The uevent passed its second look at the flag and has not finished its work. */
  predicate Working(pc: Pc) {
    pc in {UeventPassed, UeventPending, UeventBody, UeventEnding}
  }

  function Pending(threads: map<nat, Pc>): set<nat> {
    set t | t in threads && Between(threads[t])
  }

  predicate MutexOk(s: State) {
    && (s.mutex.Some? ==> s.mutex.value in s.threads && Holding(s.threads[s.mutex.value]))
    && (forall t :: t in s.threads && Holding(s.threads[t]) ==> s.mutex == Some(t))
  }

  /** What the thread that holds the mutex can rely on, and what holds when there is none. */
  predicate HolderOk(s: State, pc: Pc) {
    && (pc in {TimerCalling, TimerFailed} ==> s.unloading)
    && (pc == TimerFailed ==> s.lastAttempt == Failed)
    && (pc !in {TimerCalling, TimerFailed} ==> s.unloading == (s.lastAttempt == Succeeded))
    && (Working(pc) ==> !s.unloading)
    && (pc in {TimerSawIdle, TimerSawNoPending, TimerCalling} ==> s.ueventResources == 0)
  }

  predicate Inv(s: State) {
    && MutexOk(s)
    && s.pending == |Pending(s.threads)|
    && HolderOk(s, if s.mutex.Some? then s.threads[s.mutex.value] else Finished)
  }

  lemma PendingAt(threads: map<nat, Pc>, t: nat, pc: Pc)
    ensures var before := if t in threads && Between(threads[t]) then 1 else 0;
            var after := if Between(pc) then 1 else 0;
            |Pending(threads[t := pc])| == |Pending(threads)| - before + after
  {
    var rest := Pending(threads) - {t};
    assert Pending(threads[t := pc]) == if Between(pc) then rest + {t} else rest;
    assert Pending(threads) == if t in threads && Between(threads[t]) then rest + {t} else rest;
  }

  lemma UeventKeeps(s: State, t: nat, o: Oracle)
    requires Inv(s) && t in s.threads && IsUevent(s.threads[t])
    ensures Inv(MoveUevent(s, t, s.threads[t], o))
  {
    hide Pending;
    var s' := MoveUevent(s, t, s.threads[t], o);
    PendingAt(s.threads, t, if t in s'.threads then s'.threads[t] else Finished);
    assert s.threads[t := s.threads[t]] == s.threads;
  }

  lemma TimerKeeps(s: State, t: nat, o: Oracle)
    requires Inv(s) && t in s.threads && !IsUevent(s.threads[t]) && s.threads[t] !in {CallbackStart, CallbackPending}
    ensures Inv(MoveTimer(s, t, s.threads[t], o))
  {
    hide Pending;
    var s' := MoveTimer(s, t, s.threads[t], o);
    PendingAt(s.threads, t, if t in s'.threads then s'.threads[t] else Finished);
    assert s.threads[t := s.threads[t]] == s.threads;
  }

  lemma DoKeeps(s: State, a: Action)
    requires Inv(s)
    ensures Inv(Do(s, a))
  {
    hide Pending, MoveUevent, MoveTimer;
    match a
    case Arrive(t, start) => PendingAt(s.threads, t, start);
    case Move(t, o) =>
      if t in s.threads {
        var pc := s.threads[t];
        if IsUevent(pc) {
          UeventKeeps(s, t, o);
        } else if pc !in {CallbackStart, CallbackPending} {
          TimerKeeps(s, t, o);
        } else {
          PendingAt(s.threads, t, CallbackPending);
          PendingAt(s.threads, t, Finished);
        }
      }
    case _ =>
  }

  lemma {:induction false} RunKeeps(s: State, actions: seq<Action>)
    requires Inv(s)
    ensures Inv(Run(s, actions))
    decreases |actions|
  {
    if actions != [] {
      DoKeeps(s, actions[0]);
      RunKeeps(Do(s, actions[0]), actions[1..]);
    }
  }

  lemma InitialInv(s: State)
    requires Initial(s)
    ensures Inv(s)
  {
    assert Pending(s.threads) == {};
  }

  // ---------- what that means ----------

  /** The pending counter is always the number of threads between Begin and End. */
  lemma PendingIsExact(s: State, actions: seq<Action>)
    requires Initial(s)
    ensures Run(s, actions).pending == |Pending(Run(s, actions).threads)|
  {
    InitialInv(s);
    RunKeeps(s, actions);
  }

  /** Whenever the unload call is out, no uevent-created resource exists and no uevent is at work. */
  lemma UnloadOnlyWhenIdle(s: State, actions: seq<Action>, t: nat)
    requires Initial(s)
    requires var e := Run(s, actions); t in e.threads && e.threads[t] == TimerCalling
    ensures var e := Run(s, actions);
            e.ueventResources == 0 && forall u :: u in e.threads ==> !Working(e.threads[u])
  {
    InitialInv(s);
    RunKeeps(s, actions);
  }

  /**
   * In every state a run reaches with a tick holding the mutex before its looks, and whatever the other
   * threads do between its steps: it goes on to call the unload if and only if the monitor was not
   * stopped when it looked at that, no disk or volume of either kind existed when it looked at those,
   * and no thread was between Begin and End when it looked at the counter.
   */
  lemma TickCallsExactly(s: State, actions: seq<Action>, t: nat, o: Oracle, a: seq<Action>, b: seq<Action>,
                         c: seq<Action>)
    requires Initial(s) && Leaves(a, t) && Leaves(b, t) && Leaves(c, t)
    requires var e := Run(s, actions); t in e.threads && e.threads[t] == TimerLocked
    ensures var e := Run(s, actions);
            var e1 := Run(Do(e, Move(t, o)), a);
            var e2 := Run(Do(e1, Move(t, o)), b);
            var e3 := Run(Do(e2, Move(t, o)), c);
            var called := Do(e3, Move(t, o));
            && t in called.threads
            && (called.threads[t] == TimerCalling
                <==> !e.stopped && e1.ueventResources == 0 && e1.otherResources == 0 && Pending(e2.threads) == {})
            && (called.threads[t] == TimerCalling ==> called.unloading)
  {
    hide Run, Leaves, Inv, Pending, Do;
    InitialInv(s);
    RunKeeps(s, actions);
    var e := Run(s, actions);
    TickStep(e, t, o);
    DoKeeps(e, Move(t, o));
    Waits(Do(e, Move(t, o)), a, t);
    RunKeeps(Do(e, Move(t, o)), a);
    var e1 := Run(Do(e, Move(t, o)), a);
    TickStep(e1, t, o);
    DoKeeps(e1, Move(t, o));
    Waits(Do(e1, Move(t, o)), b, t);
    RunKeeps(Do(e1, Move(t, o)), b);
    var e2 := Run(Do(e1, Move(t, o)), b);
    TickStep(e2, t, o);
    CountedAt(e2);
    Waits(Do(e2, Move(t, o)), c, t);
    TickStep(Run(Do(e2, Move(t, o)), c), t, o);
  }

  lemma CountedAt(s: State)
    requires Inv(s)
    ensures s.pending > 0 <==> Pending(s.threads) != {}
  {
  }

  /** The tick has not looked at the counter yet, or has found it up. */
  predicate Held(pc: Pc) {
    pc in {TimerStart, TimerLocked, TimerRunning, TimerSawIdle, TimerLeaving, Finished}
  }

  /**
   * So a callback or uevent between Begin and End holds every tick back that has not looked at the
   * counter: however the threads are interleaved, as long as that one does not move, such a tick does
   * not call the unload.
   */
  lemma {:induction false} PendingHoldsBack(s: State, actions: seq<Action>, t: nat, u: nat)
    requires Inv(s) && t in s.threads && Held(s.threads[t])
    requires u in s.threads && Between(s.threads[u]) && Leaves(actions, u)
    ensures t in Run(s, actions).threads && Held(Run(s, actions).threads[t])
    decreases |actions|
  {
    hide Pending, Inv, Do, Held, Between;
    if actions != [] {
      assert !(actions[0].Move? && actions[0].t == u);
      InPending(s.threads, u);
      CountedAt(s);
      HeldStep(s, actions[0], t);
      Stays(s, actions[0], u);
      DoKeeps(s, actions[0]);
      PendingHoldsBack(Do(s, actions[0]), actions[1..], t, u);
    }
  }

  lemma InPending(threads: map<nat, Pc>, u: nat)
    requires u in threads && Between(threads[u])
    ensures u in Pending(threads)
  {
  }

  lemma HeldStep(s: State, a: Action, t: nat)
    requires t in s.threads && Held(s.threads[t]) && s.pending > 0
    ensures t in Do(s, a).threads && Held(Do(s, a).threads[t])
  {
    hide Do;
    if a.Move? && a.t == t {
      TickStep(s, t, a.sees);
    } else {
      Stays(s, a, t);
    }
  }

  /** While the last unload attempt stands as a success, no uevent is at work. */
  lemma NoBodyAfterSuccess(s: State, actions: seq<Action>, u: nat)
    requires Initial(s)
    requires var e := Run(s, actions); e.lastAttempt == Succeeded && u in e.threads
    ensures !Working(Run(s, actions).threads[u])
  {
    InitialInv(s);
    RunKeeps(s, actions);
  }

  /** No action of these moves the thread. */
  predicate Leaves(actions: seq<Action>, t: nat) {
    forall i :: 0 <= i < |actions| ==> !(actions[i].Move? && actions[i].t == t)
  }

  /** A thread is moved by its own steps only. */
  lemma {:induction false} Waits(s: State, actions: seq<Action>, t: nat)
    requires t in s.threads && Leaves(actions, t)
    ensures t in Run(s, actions).threads && Run(s, actions).threads[t] == s.threads[t]
    decreases |actions|
  {
    hide Do;
    if actions != [] {
      assert !(actions[0].Move? && actions[0].t == t);
      Stays(s, actions[0], t);
      Waits(Do(s, actions[0]), actions[1..], t);
    }
  }

  lemma Stays(s: State, a: Action, t: nat)
    requires t in s.threads && !(a.Move? && a.t == t)
    ensures t in Do(s, a).threads && Do(s, a).threads[t] == s.threads[t]
  {
  }

  /** Where the next step of a tick takes it. */
  lemma TickStep(s: State, t: nat, o: Oracle)
    requires t in s.threads
    ensures var s', pc := Do(s, Move(t, o)), s.threads[t];
            && t in s'.threads
            && (pc == TimerStart ==> s'.threads[t] in {TimerStart, TimerLocked})
            && (pc == TimerLocked ==> s'.threads[t] == if s.stopped then TimerLeaving else TimerRunning)
            && (pc == TimerRunning ==>
                  s'.threads[t] == if s.ueventResources == 0 && s.otherResources == 0 then TimerSawIdle
                                   else TimerLeaving)
            && (pc == TimerSawIdle ==> s'.threads[t] == if s.pending > 0 then TimerLeaving else TimerSawNoPending)
            && (pc == TimerSawNoPending ==> s'.threads[t] == TimerCalling && s'.unloading)
            && (pc in {TimerLeaving, Finished} ==> s'.threads[t] == Finished)
  {
  }

  /**
   * In every state a run reaches with a uevent holding the mutex before its second look at the flag,
   * and whatever the other threads do between its next three steps: it enters its body, being
   * accepted, if and only if the last unload attempt at that point did not succeed.
   */
  lemma LockedBodyExactly(s: State, actions: seq<Action>, t: nat, o: Oracle, a: seq<Action>, b: seq<Action>)
    requires Initial(s) && o.accepted && Leaves(a, t) && Leaves(b, t)
    requires var e := Run(s, actions); t in e.threads && e.threads[t] == UeventLocked
    ensures var e := Run(s, actions);
            var e1 := Run(Do(e, Move(t, o)), a);
            var e2 := Run(Do(e1, Move(t, o)), b);
            var e3 := Do(e2, Move(t, o));
            t in e3.threads && (e3.threads[t] == UeventBody <==> e.lastAttempt != Succeeded)
  {
    hide Run, Leaves, Inv;
    InitialInv(s);
    RunKeeps(s, actions);
    var e := Run(s, actions);
    LockedFlag(e, t);
    Waits(Do(e, Move(t, o)), a, t);
    var e1 := Run(Do(e, Move(t, o)), a);
    Waits(Do(e1, Move(t, o)), b, t);
  }

  lemma LockedFlag(s: State, t: nat)
    requires Inv(s) && t in s.threads && s.threads[t] == UeventLocked
    ensures s.unloading == (s.lastAttempt == Succeeded)
  {
    assert Holding(s.threads[t]);
  }

  /** The steps of one thread, from its arrival, with nothing else running. */
  function Alone(t: nat, start: Pc, o: Oracle, n: nat): seq<Action> {
    if n == 0 then [Arrive(t, start)] else Alone(t, start, o, n - 1) + [Move(t, o)]
  }

  lemma {:induction false} RunAppend(s: State, a: seq<Action>, b: seq<Action>)
    ensures Run(s, a + b) == Run(Run(s, a), b)
    decreases |a|
  {
    if a == [] {
      assert a + b == b;
    } else {
      assert (a + b)[1..] == a[1..] + b;
      RunAppend(Do(s, a[0]), a[1..], b);
    }
  }

  lemma RunOne(s: State, a: Action)
    ensures Run(s, [a]) == Do(s, a)
  {
    assert [a][1..] == [];
    assert Run(Do(s, a), []) == Do(s, a);
  }

  /** One more step of a thread that runs alone. */
  lemma AloneNext(s: State, t: nat, start: Pc, o: Oracle, n: nat)
    ensures Run(s, Alone(t, start, o, n + 1)) == Do(Run(s, Alone(t, start, o, n)), Move(t, o))
  {
    RunAppend(s, Alone(t, start, o, n), [Move(t, o)]);
    RunOne(Run(s, Alone(t, start, o, n)), Move(t, o));
  }

  /**
   * With the mutex free, a uevent that arrives and is accepted runs its body exactly when the last
   * unload attempt did not succeed.
   */
  lemma BodyRunsExactly(s: State, t: nat, o: Oracle)
    requires Inv(s) && s.mutex == None && t !in s.threads && o.accepted
    ensures var e := Run(s, Alone(t, UeventStart, o, 5));
            t in e.threads && (e.threads[t] == UeventBody <==> s.lastAttempt != Succeeded)
  {
    hide Run, Alone, Inv, Do;
    FlagNow(s);
    AloneZero(t, UeventStart, o);
    RunOne(s, Arrive(t, UeventStart));
    ArriveKeeps(s, t);
    AloneNext(s, t, UeventStart, o, 0);
    UeventStep(Run(s, Alone(t, UeventStart, o, 0)), t, o);
    AloneNext(s, t, UeventStart, o, 1);
    UeventStep(Run(s, Alone(t, UeventStart, o, 1)), t, o);
    AloneNext(s, t, UeventStart, o, 2);
    UeventStep(Run(s, Alone(t, UeventStart, o, 2)), t, o);
    AloneNext(s, t, UeventStart, o, 3);
    UeventStep(Run(s, Alone(t, UeventStart, o, 3)), t, o);
    AloneNext(s, t, UeventStart, o, 4);
    UeventStep(Run(s, Alone(t, UeventStart, o, 4)), t, o);
  }

  lemma ArriveKeeps(s: State, t: nat)
    requires t !in s.threads
    ensures Do(s, Arrive(t, UeventStart)) == At(s, t, UeventStart)
  {
  }

  /** Where the next step of an accepted uevent takes it. */
  lemma UeventStep(s: State, t: nat, o: Oracle)
    requires t in s.threads && o.accepted
    ensures var s', pc := Do(s, Move(t, o)), s.threads[t];
            && t in s'.threads
            && (pc == UeventStart ==> s'.threads[t] == if s.unloading then Finished else UeventWaiting)
            && (pc in {UeventStart, UeventWaiting} ==> s'.unloading == s.unloading)
            && (pc == UeventStart ==> s'.mutex == s.mutex)
            && (pc == UeventWaiting && s.mutex == None ==> s'.threads[t] == UeventLocked)
            && (pc == UeventLocked ==> s'.threads[t] == if s.unloading then UeventLeaving else UeventPassed)
            && (pc == UeventPassed ==> s'.threads[t] == UeventPending)
            && (pc == UeventPending ==> s'.threads[t] == UeventBody)
            && (pc == Finished ==> s'.threads[t] == Finished)
  {
  }

  lemma AloneZero(t: nat, start: Pc, o: Oracle)
    ensures Alone(t, start, o, 0) == [Arrive(t, start)]
  {
  }

  lemma FlagNow(s: State)
    requires Inv(s) && s.mutex == None
    ensures s.unloading == (s.lastAttempt == Succeeded)
  {
  }

  /**
   * So a success does not close the service for good: the timer keeps ticking, and if the tick
   * after a success fails, the next uevent runs its body.
   */
  lemma FailedRetryReopens(s: State, timer: nat, uevent: nat, fails: Oracle, accepted: Oracle)
    requires Inv(s) && s.lastAttempt == Succeeded && s.mutex == None
    requires !s.stopped && s.ueventResources == 0 && s.otherResources == 0 && s.pending == 0
    requires timer !in s.threads && uevent !in s.threads && timer != uevent
    requires !fails.unloadOk && accepted.accepted
    ensures var e := Run(Run(s, Alone(timer, TimerStart, fails, 8)), Alone(uevent, UeventStart, accepted, 5));
            uevent in e.threads && e.threads[uevent] == UeventBody
  {
    hide Inv, Run, Alone;
    FailedTick(s, timer, fails);
    RunKeeps(s, Alone(timer, TimerStart, fails, 8));
    BodyRunsExactly(Run(s, Alone(timer, TimerStart, fails, 8)), uevent, accepted);
  }

  /** A tick on an idle service, up to the end of its looks. */
  lemma TickLooks(s: State, t: nat, o: Oracle)
    requires s.mutex == None && t !in s.threads
    requires !s.stopped && s.ueventResources == 0 && s.otherResources == 0 && s.pending == 0
    ensures Run(s, Alone(t, TimerStart, o, 4)) == At(s.(mutex := Some(t)), t, TimerSawNoPending)
  {
    hide Run, Alone, Do, At;
    AloneZero(t, TimerStart, o);
    RunOne(s, Arrive(t, TimerStart));
    AloneNext(s, t, TimerStart, o, 0);
    AloneNext(s, t, TimerStart, o, 1);
    AloneNext(s, t, TimerStart, o, 2);
    AloneNext(s, t, TimerStart, o, 3);
    ArriveMove(s, t);
    LockMoves(s, t, o);
  }

  /** A tick on an idle service whose unload call fails. */
  lemma FailedTick(s: State, t: nat, o: Oracle)
    requires s.mutex == None && t !in s.threads && !o.unloadOk
    requires !s.stopped && s.ueventResources == 0 && s.otherResources == 0 && s.pending == 0
    ensures Run(s, Alone(t, TimerStart, o, 8))
            == s.(threads := s.threads[t := Finished], unloading := false, lastAttempt := Failed)
  {
    hide Run, Alone, Do, At;
    TickLooks(s, t, o);
    AloneNext(s, t, TimerStart, o, 4);
    AloneNext(s, t, TimerStart, o, 5);
    AloneNext(s, t, TimerStart, o, 6);
    AloneNext(s, t, TimerStart, o, 7);
    var locked := s.(mutex := Some(t));
    CallMoves(locked, t, o);
    var failed := locked.(unloading := false, lastAttempt := Failed);
    LeaveMove(failed, t, o);
    assert failed.(mutex := None) == s.(unloading := false, lastAttempt := Failed);
    AtIs(failed.(mutex := None), t, Finished);
  }

  /** A tick on an idle service whose unload call succeeds. */
  lemma SucceedingTick(s: State, t: nat, o: Oracle)
    requires s.mutex == None && t !in s.threads && o.unloadOk
    requires !s.stopped && s.ueventResources == 0 && s.otherResources == 0 && s.pending == 0
    ensures Run(s, Alone(t, TimerStart, o, 7))
            == s.(threads := s.threads[t := Finished], unloading := true, lastAttempt := Succeeded)
  {
    hide Run, Alone, Do, At;
    TickLooks(s, t, o);
    AloneNext(s, t, TimerStart, o, 4);
    AloneNext(s, t, TimerStart, o, 5);
    AloneNext(s, t, TimerStart, o, 6);
    var locked := s.(mutex := Some(t));
    SuccessMoves(locked, t, o);
    var done := locked.(unloading := true, lastAttempt := Succeeded);
    LeaveMove(done, t, o);
    assert done.(mutex := None) == s.(unloading := true, lastAttempt := Succeeded);
    AtIs(done.(mutex := None), t, Finished);
  }

  /** From a fresh service: a tick that unloads, a tick that fails, and then a uevent whose body runs. */
  lemma BodyAfterSuccessIsReachable(s: State, yes: Oracle, no: Oracle, accepted: Oracle)
    requires Initial(s) && !s.stopped && s.otherResources == 0
    requires yes.unloadOk && !no.unloadOk && accepted.accepted
    ensures var unloaded := Run(s, Alone(0, TimerStart, yes, 7));
            var e := Run(Run(unloaded, Alone(1, TimerStart, no, 8)), Alone(2, UeventStart, accepted, 5));
            unloaded.lastAttempt == Succeeded && 2 in e.threads && e.threads[2] == UeventBody
  {
    hide Run, Alone, Inv;
    InitialInv(s);
    SucceedingTick(s, 0, yes);
    RunKeeps(s, Alone(0, TimerStart, yes, 7));
    FailedRetryReopens(Run(s, Alone(0, TimerStart, yes, 7)), 1, 2, no, accepted);
  }

  lemma AtIs(s: State, t: nat, pc: Pc)
    ensures At(s, t, pc) == s.(threads := s.threads[t := pc])
  {
  }

  lemma AtAt(s: State, t: nat, a: Pc, b: Pc)
    ensures At(At(s, t, a), t, b) == At(s, t, b)
  {
  }

  lemma ArriveMove(s: State, t: nat)
    requires t !in s.threads
    ensures Do(s, Arrive(t, TimerStart)) == At(s, t, TimerStart)
  {
  }

  lemma LockMoves(s: State, t: nat, o: Oracle)
    requires s.mutex == None && !s.stopped && s.ueventResources == 0 && s.otherResources == 0 && s.pending == 0
    ensures var l := s.(mutex := Some(t));
            && Do(At(s, t, TimerStart), Move(t, o)) == At(l, t, TimerLocked)
            && Do(At(l, t, TimerLocked), Move(t, o)) == At(l, t, TimerRunning)
            && Do(At(l, t, TimerRunning), Move(t, o)) == At(l, t, TimerSawIdle)
            && Do(At(l, t, TimerSawIdle), Move(t, o)) == At(l, t, TimerSawNoPending)
  {
    AtAt(s, t, TimerStart, TimerLocked);
    AtAt(s.(mutex := Some(t)), t, TimerLocked, TimerRunning);
    AtAt(s.(mutex := Some(t)), t, TimerRunning, TimerSawIdle);
    AtAt(s.(mutex := Some(t)), t, TimerSawIdle, TimerSawNoPending);
  }

  lemma CallMoves(s: State, t: nat, o: Oracle)
    requires !o.unloadOk
    ensures var up := s.(unloading := true);
            && Do(At(s, t, TimerSawNoPending), Move(t, o)) == At(up, t, TimerCalling)
            && Do(At(up, t, TimerCalling), Move(t, o)) == At(up.(lastAttempt := Failed), t, TimerFailed)
            && Do(At(up.(lastAttempt := Failed), t, TimerFailed), Move(t, o))
               == At(s.(unloading := false, lastAttempt := Failed), t, TimerLeaving)
  {
    AtAt(s, t, TimerSawNoPending, TimerCalling);
    AtAt(s, t, TimerCalling, TimerFailed);
    AtAt(s, t, TimerFailed, TimerLeaving);
  }

  lemma SuccessMoves(s: State, t: nat, o: Oracle)
    requires o.unloadOk
    ensures var up := s.(unloading := true);
            && Do(At(s, t, TimerSawNoPending), Move(t, o)) == At(up, t, TimerCalling)
            && Do(At(up, t, TimerCalling), Move(t, o)) == At(up.(lastAttempt := Succeeded), t, TimerLeaving)
  {
    AtAt(s, t, TimerSawNoPending, TimerCalling);
    AtAt(s, t, TimerCalling, TimerLeaving);
  }

  lemma LeaveMove(s: State, t: nat, o: Oracle)
    ensures Do(At(s, t, TimerLeaving), Move(t, o)) == At(s.(mutex := None), t, Finished)
  {
    AtAt(s, t, TimerLeaving, Finished);
  }
}
