/**
 What the steps of timer/timer.c do to a timer, told by their outcome: a firing, the calls of timer_add,
 timer_del and timer_mod, the end of a callback; and what follows for a timer over whole runs.
 */
module TimerCalls {
  import opened Wrappers
  import opened TimerModel
  import opened TimerProofs
  import opened TimerSignals
  import opened TimerFirings

  // ---- a firing ----

  /** Only what concerns `t` has changed in the timers and the tree. */
  ghost predicate OnlyTimer(s: State, s': State, t: TimerId) {
    && s'.timers.Keys == s.timers.Keys && s'.table - {t} == s.table - {t}
    && forall u :: u in s.timers && u != t ==> s'.timers[u] == s.timers[u]
  }

  /** A cyclic timer is due again one interval later, any other one is out of the tree. */
  ghost predicate Rearmed(x: Timer, y: Timer) {
    && (y.mounted <==> x.cycle) && y.expire == (if x.cycle then x.expire + x.interval else x.expire)
    && y.interval == x.interval && y.cycle == x.cycle && y.threaded == x.threaded
    && y.active == x.active && y.waiting == x.waiting && y.detach == x.detach
  }

  /** A timer still queued or running is left alone; a threaded one is queued last; any other one runs at once. */
  ghost predicate HandedOver(s: State, s': State, t: TimerId)
    requires t in s.timers && t in s'.timers
  {
    var x, y := s.timers[t], s'.timers[t];
    if Busy(x) then y.pending == x.pending && y.executing == x.executing && s'.expired == s.expired
    else if x.threaded then y.pending && !y.executing && s'.expired == s.expired + [t]
    else
      && y.executing && !y.pending && y.thread == INSPECTOR && s'.expired == s.expired
      && INSPECTOR in s'.threads && s'.threads[INSPECTOR] == IExec(t)
  }

  lemma ReinsertDoes(s: State, t: TimerId)
    requires t in s.timers && KeysOk(s) && FlagsOk(s)
    ensures var s1 := Remove(SetPc(s.(phase := Shooting), INSPECTOR, ITop), t);
      var s2 := if s.timers[t].cycle then Insert(s1, t) else s1;
      && OnlyTimer(s, s2, t) && Rearmed(s.timers[t], s2.timers[t]) && (t in s2.table <==> s.timers[t].cycle)
      && s2.timers[t].pending == s.timers[t].pending && s2.timers[t].executing == s.timers[t].executing
      && s2.expired == s.expired && s2.running == s.running && s2.phase == Shooting
  {
    var s1 := Remove(SetPc(s.(phase := Shooting), INSPECTOR, ITop), t);
    assert KeysOk(s1);
    InsertSucceeds(s1, t);
  }

  lemma QueueDoes(s: State, t: TimerId, pick: Option<ThreadId>, made: ThreadId)
    requires t in s.timers
    ensures var s' := Queue(s, t, pick, made);
      && s'.timers == s.timers[t := s.timers[t].(pending := true)] && s'.expired == s.expired + [t]
      && s'.table == s.table && s'.running == s.running && s'.phase == s.phase
  {
  }

  lemma ExecuteDoes(s: State, t: TimerId)
    requires t in s.timers
    ensures var s' := Execute(s, t, INSPECTOR, IExec(t));
      && s'.timers == s.timers[t := s.timers[t].(executing := true, thread := INSPECTOR)] && s'.expired == s.expired
      && s'.threads == s.threads[INSPECTOR := IExec(t)]
      && s'.table == s.table && s'.running == s.running && s'.phase == s.phase
  {
  }

  lemma OnlyTimerOn(s: State, s2: State, t: TimerId, s': State)
    requires OnlyTimer(s, s2, t) && t in s2.timers && t in s'.timers && s'.table == s2.table
    requires s'.timers == s2.timers[t := s'.timers[t]]
    ensures OnlyTimer(s, s', t)
  {
  }

  lemma HandOverDoes(s: State, s2: State, t: TimerId, pick: Option<ThreadId>, made: ThreadId, s': State)
    requires t in s.timers && t in s2.timers && OnlyTimer(s, s2, t) && Rearmed(s.timers[t], s2.timers[t])
    requires s2.timers[t].pending == s.timers[t].pending && s2.timers[t].executing == s.timers[t].executing
    requires s2.expired == s.expired && s2.phase == Shooting
    requires s' == if s.timers[t].pending || s.timers[t].executing then s2
                   else if s.timers[t].threaded then Queue(s2, t, pick, made)
                   else Execute(s2, t, INSPECTOR, IExec(t))
    ensures OnlyTimer(s, s', t) && Rearmed(s.timers[t], s'.timers[t]) && HandedOver(s, s', t)
    ensures s'.table == s2.table && s'.running == s2.running && s'.phase == Shooting
  {
    QueueDoes(s2, t, pick, made);
    ExecuteDoes(s2, t);
    if !Busy(s.timers[t]) {
      OnlyTimerOn(s, s2, t, s');
    }
  }

  /** What a firing does, whichever way the inspector came to it. */
  lemma FiringDoes(s: State, a: Action, s': State, t: TimerId)
    requires SafetyInv(s) && Step(s, a, s') && Fires(s, a, t)
    ensures OnlyTimer(s, s', t) && Rearmed(s.timers[t], s'.timers[t]) && HandedOver(s, s', t)
    ensures (t in s'.table <==> s.timers[t].cycle) && s'.running == None && s'.phase == Shooting
  {
    FiresMeans(s, a, s', t);
    var s0 := s.(running := None);
    ReinsertDoes(s0, t);
    var s1 := Remove(SetPc(s0.(phase := Shooting), INSPECTOR, ITop), t);
    var s2 := if s.timers[t].cycle then Insert(s1, t) else s1;
    HandOverDoes(s0, s2, t, a.pick, a.made, s');
  }

  /** Only a mounted timer fires. */
  lemma FiresMounted(s: State, a: Action, t: TimerId)
    requires SafetyInv(s) && Fires(s, a, t)
    ensures s.timers[t].mounted && s.timers[t].active
  {
    assert t in s.table;
  }

  /** A firing at the top of the loop takes the timer due first, and of several due together the one armed first. */
  lemma FiresFirst(s: State, a: Action, t: TimerId, u: TimerId)
    requires Fires(s, a, t) && a.AInspectorRound? && u in s.table && u in s.timers
    ensures s.timers[t].expire <= s.timers[u].expire
    ensures s.timers[t].expire == s.timers[u].expire ==> s.timers[t].timerid <= s.timers[u].timerid
  {
  }

  // ---- the callers ----

  ghost predicate SameRest(s: State, s': State) {
    && s'.expired == s.expired && s'.threads == s.threads && s'.phase == s.phase && s'.nthreads == s.nthreads
    && s'.idle == s.idle && s'.opt == s.opt
  }

  /** timer_add succeeds exactly on a working base for a timer not active, and arms it as told. */
  lemma AddDoes(s: State, s': State, t: TimerId, cycle: bool, threaded: bool, interval: nat, now: nat)
    requires SafetyInv(s) && Add(s, s', t, cycle, threaded, interval, now)
    ensures if s.nthreads > 0 && s.phase != Destroy && !s.timers[t].active then
              && OnlyTimer(s, s', t) && SameRest(s, s') && t in s'.table && s'.running == s.running
              && s'.deleters == s.deleters && !Busy(s.timers[t])
              && var y := s'.timers[t];
                 && y.active && y.mounted && y.expire == now + interval && y.interval == interval
                 && y.cycle == cycle && y.threaded == threaded && !Busy(y) && !y.waiting && !y.detach
            else s' == s
  {
    if Working(s) && !s.timers[t].active {
      assert !s.timers[t].mounted && !Busy(s.timers[t]);
      AddArms(s, s', t, cycle, threaded, interval, now);
    }
  }

  /** timer_mod succeeds exactly on a working base for an active timer, and only moves its expiry. */
  lemma ModifyDoes(s: State, s': State, t: TimerId, interval: nat, now: nat)
    requires SafetyInv(s) && Modify(s, s', t, interval, now)
    ensures if s.nthreads > 0 && s.phase != Destroy && s.timers[t].active then
              && OnlyTimer(s, s', t) && SameRest(s, s') && t in s'.table && s'.running == s.running
              && s'.deleters == s.deleters
              && s'.timers[t] == s.timers[t].(mounted := true, expire := now + interval, interval := interval,
                                              timerid := s'.timers[t].timerid)
            else s' == s
  {
    SearchFinds(s, t);
    if Working(s) && s.timers[t].active {
      ModifyArms(s, s', t, interval, now);
      ModifiedDoes(s, t, interval, now);
    }
  }

  lemma ModifiedDoes(s: State, t: TimerId, interval: nat, now: nat)
    requires t in s.timers
    ensures var s' := Insert(Retimed(s, t, interval, now), t);
      && SameRest(s, s') && s'.deleters == s.deleters && OnlyTimer(s, s', t)
      && s'.timers[t] ==
         s.timers[t].(mounted := true, expire := now + interval, interval := interval, timerid := s.nextId)
  {
    RetimedDoes(s, t, interval, now);
    InsertedDoes(Retimed(s, t, interval, now), t);
    OnlyTimerTwice(s, Retimed(s, t, interval, now), Insert(Retimed(s, t, interval, now), t), t);
  }

  lemma OnlyTimerTwice(s: State, s1: State, s2: State, t: TimerId)
    requires OnlyTimer(s, s1, t) && OnlyTimer(s1, s2, t)
    ensures OnlyTimer(s, s2, t)
  {
  }

  lemma InsertedDoes(s: State, t: TimerId)
    requires t in s.timers
    ensures var s' := Insert(s, t);
      && SameRest(s, s') && s'.deleters == s.deleters && OnlyTimer(s, s', t)
      && s'.timers[t] ==
         s.timers[t].(mounted := true, expire := s.timers[t].expire + s.timers[t].interval, timerid := s.nextId)
  {
  }

  lemma RetimedDoes(s: State, t: TimerId, interval: nat, now: nat)
    requires t in s.timers
    ensures var s1 := Retimed(s, t, interval, now);
      && OnlyTimer(s, s1, t)
      && s1.timers[t] == s.timers[t].(mounted := false, interval := interval, expire := now)
      && SameRest(s, s1) && s1.deleters == s.deleters && s1.running == s.running && s1.nextId == s.nextId
  {
    var s0 := if s.timers[t].mounted then Remove(s, t) else s;
    assert OnlyTimer(s, s0, t) && s0.timers[t] == s.timers[t].(mounted := false);
    OnlyTimerOn(s, s0, t, Retimed(s, t, interval, now));
  }

  /**
   timer_del succeeds exactly on a working base for an active timer: it is out of the tree, and then the
   callback's own call leaves the rest to the cleanup, another one waits exactly while it is busy.
   */
  lemma DeleteDoes(s: State, s': State, t: TimerId, call: CallId, self: Option<ThreadId>)
    requires SafetyInv(s) && Delete(s, s', t, call, self)
    ensures if s.nthreads > 0 && s.phase != Destroy && s.timers[t].active then
              && OnlyTimer(s, s', t) && SameRest(s, s') && t !in s'.table
              && s'.running == (if s.running == Some(t) then None else s.running)
              && var x, own := s.timers[t], s.timers[t].executing && self == Some(s.timers[t].thread);
                 && s'.timers[t] == x.(active := false, mounted := false, detach := x.detach || own,
                                       waiting := x.waiting || (Busy(x) && !own))
                 && s'.deleters == if Busy(x) && !own then s.deleters[call := DWait(t)] else s.deleters
            else s' == s
  {
    SearchFinds(s, t);
    if Working(s) && s.timers[t].active {
      UnmountedDoes(s, t);
      ExitDoes(s, Unmounted(s, t), s', t, call, self);
    }
  }

  lemma UnmountedDoes(s: State, t: TimerId)
    requires t in s.timers && FlagsOk(s) && RunningOk(s)
    ensures var s1 := Unmounted(s, t);
      && OnlyTimer(s, s1, t) && SameRest(s, s1) && t !in s1.table && s1.deleters == s.deleters
      && s1.timers[t] == s.timers[t].(mounted := false)
      && s1.running == if s.running == Some(t) then None else s.running
  {
  }

  lemma ExitDoes(s: State, s1: State, s': State, t: TimerId, call: CallId, self: Option<ThreadId>)
    requires t in s.timers && t in s1.timers && TimerExit(s1, s', t, call, self) && OnlyTimer(s, s1, t)
    requires s1.timers[t] == s.timers[t].(mounted := false)
    ensures var x, own := s.timers[t], s.timers[t].executing && self == Some(s.timers[t].thread);
      && OnlyTimer(s, s', t) && SameRest(s1, s') && s'.table == s1.table && s'.running == s1.running
      && s'.timers[t] == x.(active := false, mounted := false, detach := x.detach || own,
                            waiting := x.waiting || (Busy(x) && !own))
      && s'.deleters == if Busy(x) && !own then s1.deleters[call := DWait(t)] else s1.deleters
  {
    assert s'.table == s1.table && t in s'.timers && s'.timers == s1.timers[t := s'.timers[t]];
    OnlyTimerOn(s, s1, t, s');
  }

  /** A woken deleter returns exactly if the timer is busy no more, and otherwise waits again. */
  lemma DeleterDoes(s: State, s': State, call: CallId)
    requires SafetyInv(s) && DeleterBack(s, s', call)
    ensures var t := s.deleters[call].timer;
      && t in s.timers
      && (call !in s'.deleters <==> !Busy(s.timers[t]))
      && (Busy(s.timers[t]) ==> s'.deleters == s.deleters[call := DWait(t)] && t in s'.timers && s'.timers[t].waiting)
  {
  }

  /** The end of a callback wakes all who wait for the timer, and completes its own delete. */
  lemma CallbackEnds(s: State, a: Action, s': State, h: ThreadId)
    requires SafetyInv(s) && Step(s, a, s') && h in s.threads && Runs(s.threads[h]).Some?
    requires (a == AInspectorDone && h == INSPECTOR) || a == AExecutorDone(h)
    ensures var t := Runs(s.threads[h]).value;
      && OnlyTimer(s, s', t) && t in s.timers && s'.table == s.table && s'.expired == s.expired
      && s'.timers[t] == s.timers[t].(executing := false, waiting := false,
                                      active := s.timers[t].active && !s.timers[t].detach)
      && h in s'.threads && Runs(s'.threads[h]).None?
      && s'.deleters.Keys == s.deleters.Keys
      && forall d :: d in s.deleters ==>
           s'.deleters[d] == if s.deleters[d] == DWait(t) then DWoken(t) else s.deleters[d]
  {
    var t := Runs(s.threads[h]).value;
    assert !s.timers[t].waiting ==> forall d :: d in s.deleters ==> s.deleters[d] != DWait(t);
    CleanupDoes(s, t);
  }

  lemma CleanupDoes(s: State, t: TimerId)
    requires t in s.timers && (!s.timers[t].waiting ==> forall d :: d in s.deleters ==> s.deleters[d] != DWait(t))
    ensures var s' := Cleanup(s, t);
      && OnlyTimer(s, s', t) && s'.table == s.table && s'.expired == s.expired
      && s'.timers[t] == s.timers[t].(executing := false, waiting := false,
                                      active := s.timers[t].active && !s.timers[t].detach)
      && s'.deleters.Keys == s.deleters.Keys
      && forall d :: d in s.deleters ==>
           s'.deleters[d] == if s.deleters[d] == DWait(t) then DWoken(t) else s.deleters[d]
  {
  }

  /** timer_destroy: the phase is set and every waiting executor is woken, if the base works. */
  lemma DestroyDoes(s: State, s': State)
    requires DestroyBegins(s, s')
    ensures if s.nthreads > 0 && s.phase != Destroy then
              && s'.phase == Destroy && s'.destroying && s'.timers == s.timers && s'.table == s.table
              && s'.threads.Keys == s.threads.Keys && s'.nthreads == s.nthreads && s'.expired == s.expired
              && forall h :: h in s.threads ==>
                   s'.threads[h] == if s.threads[h].EWait? then EWoken(s.threads[h].to) else s.threads[h]
            else s' == s
  {
  }

  // ---- the queue of expired timers ----

  /** First in, first out: firings append, and an executor runs the first. */
  lemma ExpiredInTurn(s: State, a: Action, s': State)
    requires SafetyInv(s) && Step(s, a, s')
    ensures s'.expired == s.expired
      || (exists t :: Fires(s, a, t) && s'.expired == s.expired + [t])
      || (a.AExecutorDrain? && s.expired != [] && s'.expired == s.expired[1..]
          && a.h in s'.threads && Runs(s'.threads[a.h]) == Some(s.expired[0]))
  {
    if t :| Fires(s, a, t) {
      FiringDoes(s, a, s', t);
    } else if ByInspector(a) {
      NotFiring(s, a, s');
    } else if a.AExecutorDrain? && s.expired != [] {
      Popped(s, s', a.h);
    } else if ByExecutor(a) {
      OthersExpired(s, a, s');
    } else {
      CallersExpired(s, a, s');
    }
  }

  lemma NotFiring(s: State, a: Action, s': State)
    requires SafetyInv(s) && Step(s, a, s') && ByInspector(a) && forall t :: !Fires(s, a, t)
    ensures s'.expired == s.expired
  {
    match a
    case AInspectorRound(now, pick, made) =>
      if s.phase != Destroy && s.table != {} {
        var u :| IsFirst(s, u) && InspectorLooks(s, s', u, now, pick, made);
        assert !Fires(s, a, u);
      }
    case AInspectorBack(timedOut, now, pick, made) =>
      assert !Fires(s, a, s.threads[INSPECTOR].timer);
    case _ =>
  }

  lemma OthersExpired(s: State, a: Action, s': State)
    requires Step(s, a, s') && ByExecutor(a) && !(a.AExecutorDrain? && s.expired != [])
    ensures s'.expired == s.expired
  {
  }

  lemma CallersExpired(s: State, a: Action, s': State)
    requires SafetyInv(s) && Step(s, a, s') && !ByInspector(a) && !ByExecutor(a)
    ensures s'.expired == s.expired
  {
    match a
    case AAdd(t, cycle, threaded, interval, now) => AddDoes(s, s', t, cycle, threaded, interval, now);
    case AModify(t, interval, now) => ModifyDoes(s, s', t, interval, now);
    case ADelete(t, call, self) => DeleteDoes(s, s', t, call, self);
    case _ =>
  }

  // ---- the pool ----

  /** A thread leaves exactly in a destroy, or timed out with nothing queued and the pool above its minimum. */
  lemma LeavesIf(s: State, s': State, h: ThreadId)
    requires h in s.threads && (ExecutorRound(s, s', h) || ExecutorDrain(s, s', h))
    ensures h !in s'.threads <==>
      || (s.threads[h].ETop? && s.phase == Destroy)
      || (s.threads[h].EDrain? && s.expired == [] && s.threads[h].to && s.nthreads > s.opt.threadMin)
  {
    if s.threads[h].EDrain? && s.expired != [] {
      Popped(s, s', h);
    }
  }

  /** An executor with nothing to do waits: with a limit exactly if the pool is above its minimum and lets it linger. */
  lemma WaitsHow(s: State, s': State, h: ThreadId)
    requires ExecutorRound(s, s', h) && s.phase != Destroy && h in s'.threads
    ensures s'.threads[h].EWait? <==> s.expired == [] && (s.nthreads <= s.opt.threadMin || s.opt.linger > 0)
    ensures s'.threads[h].EWait? ==> (s'.threads[h].timed <==> s.nthreads > s.opt.threadMin) && s'.idle == s.idle + 1
    ensures !s'.threads[h].EWait? ==> s'.threads[h] == EDrain(s.threads[h].to || s.expired == []) && s'.idle == s.idle
  {
  }

  /** No step brings the pool above its maximum, or changes the options. */
  lemma PoolGrows(s: State, a: Action, s': State)
    requires SafetyInv(s) && Step(s, a, s') && s.nthreads <= s.opt.threadMax
    ensures s'.nthreads <= s'.opt.threadMax && s'.opt == s.opt
  {
    if ByInspector(a) {
      InspectorGrows(s, a, s');
    } else if ByExecutor(a) {
      ExecutorGrows(s, a, s');
    } else {
      CallersGrow(s, a, s');
    }
  }

  lemma FireGrows(s: State, t: TimerId, pick: Option<ThreadId>, made: ThreadId)
    requires t in s.timers && s.nthreads <= s.opt.threadMax
    ensures var s' := Fire(s, t, pick, made); s'.nthreads <= s'.opt.threadMax && s'.opt == s.opt
  {
    var s1 := Remove(SetPc(s.(phase := Shooting), INSPECTOR, ITop), t);
    var s2 := if s.timers[t].cycle then Insert(s1, t) else s1;
    assert s2.nthreads == s.nthreads && s2.opt == s.opt;
  }

  lemma InspectorGrows(s: State, a: Action, s': State)
    requires Step(s, a, s') && ByInspector(a) && s.nthreads <= s.opt.threadMax
    ensures s'.nthreads <= s'.opt.threadMax && s'.opt == s.opt
  {
    match a
    case AInspectorRound(now, pick, made) =>
      if s.phase != Destroy && s.table != {} {
        var t :| IsFirst(s, t) && InspectorLooks(s, s', t, now, pick, made);
        if now >= s.timers[t].expire {
          FireGrows(s, t, pick, made);
        }
      }
    case AInspectorBack(timedOut, now, pick, made) =>
      if s.running.Some? && timedOut {
        FireGrows(s.(running := None), s.threads[INSPECTOR].timer, pick, made);
      }
    case _ =>
  }

  lemma ExecutorGrows(s: State, a: Action, s': State)
    requires Step(s, a, s') && ByExecutor(a)
    ensures s'.nthreads <= s.nthreads && s'.opt == s.opt
  {
    match a
    case AExecutorRound(h) => RoundGrows(s, s', h);
    case AExecutorDrain(h) => DrainGrows(s, s', h);
    case _ =>
  }

  lemma RoundGrows(s: State, s': State, h: ThreadId)
    requires ExecutorRound(s, s', h)
    ensures s'.nthreads <= s.nthreads && s'.opt == s.opt
  {
  }

  lemma DrainGrows(s: State, s': State, h: ThreadId)
    requires ExecutorDrain(s, s', h)
    ensures s'.nthreads <= s.nthreads && s'.opt == s.opt
  {
  }

  lemma CallersGrow(s: State, a: Action, s': State)
    requires SafetyInv(s) && Step(s, a, s') && !ByInspector(a) && !ByExecutor(a)
    ensures s'.nthreads == s.nthreads && s'.opt == s.opt
  {
    match a
    case AAdd(u, cycle, threaded, interval, now) => AddDoes(s, s', u, cycle, threaded, interval, now);
    case AModify(u, interval, now) => ModifyDoes(s, s', u, interval, now);
    case ADelete(u, call, self) => DeleteDoes(s, s', u, call, self);
    case _ =>
  }

  /** In every reachable state the pool is within its maximum. */
  lemma {:induction false} PoolBounded(ss: seq<State>, actions: seq<Action>, n: nat)
    requires IsRun(ss, actions) && Init(ss[0]) && n <= |actions|
    ensures ss[n].nthreads <= ss[n].opt.threadMax && ss[n].opt == ss[0].opt
  {
    if n > 0 {
      var m := n - 1;
      PoolBounded(ss, actions, m);
      RunSafe(ss, actions, m);
      assert Step(ss[m], actions[m], ss[m + 1]);
      PoolGrows(ss[m], actions[m], ss[n]);
    }
  }

  // ---- over whole runs ----

  ghost predicate Beating(s: State, t: TimerId) {
    t in s.timers && s.timers[t].cycle && s.timers[t].mounted && s.timers[t].active
  }

  /** A step that is no successful delete of it leaves a cyclic timer mounted. */
  lemma BeatGoesOn(s: State, a: Action, s': State, t: TimerId)
    requires SafetyInv(s) && Step(s, a, s') && Beating(s, t) && !(a.ADelete? && a.t == t && Working(s))
    ensures Beating(s', t)
    ensures !(a.AModify? && a.t == t && Working(s)) ==>
      && s'.timers[t].interval == s.timers[t].interval
      && s'.timers[t].expire == s.timers[t].expire + if Fires(s, a, t) then s.timers[t].interval else 0
  {
    if ByInspector(a) {
      BeatInspected(s, a, s', t);
    } else if ByExecutor(a) {
      ExecutorsKeep(s, a, s', t);
    } else {
      BeatCalled(s, a, s', t);
    }
  }

  lemma BeatInspected(s: State, a: Action, s': State, t: TimerId)
    requires SafetyInv(s) && Step(s, a, s') && Beating(s, t) && ByInspector(a)
    ensures Beating(s', t) && s'.timers[t].interval == s.timers[t].interval
    ensures s'.timers[t].expire == s.timers[t].expire + if Fires(s, a, t) then s.timers[t].interval else 0
  {
    if u :| Fires(s, a, u) {
      FiringDoes(s, a, s', u);
      BeatFired(s, a, s', u, t);
    } else if a.AInspectorDone? {
      CallbackEnds(s, a, s', INSPECTOR);
    } else {
      NoneFires(s, a, s');
    }
  }

  lemma BeatFired(s: State, a: Action, s': State, u: TimerId, t: TimerId)
    requires Beating(s, t) && Fires(s, a, u) && OnlyTimer(s, s', u) && Rearmed(s.timers[u], s'.timers[u])
    ensures Beating(s', t) && s'.timers[t].interval == s.timers[t].interval
    ensures s'.timers[t].expire == s.timers[t].expire + if Fires(s, a, t) then s.timers[t].interval else 0
  {
    OneFires(s, a, u, t);
  }

  lemma OneFires(s: State, a: Action, u: TimerId, t: TimerId)
    requires Fires(s, a, u)
    ensures Fires(s, a, t) <==> u == t
  {
  }

  lemma NoneFires(s: State, a: Action, s': State)
    requires Step(s, a, s') && ByInspector(a) && !a.AInspectorDone? && forall t :: !Fires(s, a, t)
    ensures s'.timers == s.timers
  {
    match a
    case AInspectorRound(now, pick, made) =>
      if s.phase != Destroy && s.table != {} {
        var u :| IsFirst(s, u) && InspectorLooks(s, s', u, now, pick, made);
        assert !Fires(s, a, u);
      }
    case AInspectorBack(timedOut, now, pick, made) =>
      assert !Fires(s, a, s.threads[INSPECTOR].timer);
    case _ =>
  }

  /** Executors do not touch the timing of a timer. */
  lemma ExecutorsKeep(s: State, a: Action, s': State, t: TimerId)
    requires Step(s, a, s') && ByExecutor(a) && t in s.timers
    ensures t in s'.timers && SameTiming(s.timers[t], s'.timers[t])
  {
    match a
    case AExecutorDone(h) => DoneKeeps(s, s', h, t);
    case AExecutorDrain(h) => DrainKeeps(s, s', h, t);
    case AExecutorRound(h) => RoundLeaves(s, s', h);
    case _ => MovesLeave(s, a, s');
  }

  lemma DoneKeeps(s: State, s': State, h: ThreadId, t: TimerId)
    requires ExecutorDone(s, s', h) && t in s.timers
    ensures t in s'.timers && SameTiming(s.timers[t], s'.timers[t])
  {
  }

  lemma DrainKeeps(s: State, s': State, h: ThreadId, t: TimerId)
    requires ExecutorDrain(s, s', h) && t in s.timers
    ensures t in s'.timers && SameTiming(s.timers[t], s'.timers[t])
  {
    if s.expired != [] {
      Popped(s, s', h);
    }
  }

  lemma MovesLeave(s: State, a: Action, s': State)
    requires Step(s, a, s') && (a.AExecutorStart? || a.AExecutorWakes? || a.AExecutorBack?)
    ensures s'.timers == s.timers
  {
  }

  predicate SameTiming(x: Timer, y: Timer) {
    && y.mounted == x.mounted && y.cycle == x.cycle && y.interval == x.interval && y.expire == x.expire
    && (x.active && !x.detach ==> y.active)
  }

  lemma BeatCalled(s: State, a: Action, s': State, t: TimerId)
    requires SafetyInv(s) && Step(s, a, s') && Beating(s, t) && !ByInspector(a) && !ByExecutor(a)
    requires !(a.ADelete? && a.t == t && Working(s))
    ensures Beating(s', t)
    ensures !(a.AModify? && a.t == t && Working(s)) ==>
      s'.timers[t].interval == s.timers[t].interval && s'.timers[t].expire == s.timers[t].expire
  {
    match a
    case AAdd(u, cycle, threaded, interval, now) => AddDoes(s, s', u, cycle, threaded, interval, now);
    case AModify(u, interval, now) => ModifyDoes(s, s', u, interval, now);
    case ADelete(u, call, self) => DeleteDoes(s, s', u, call, self);
    case _ =>
  }

  /** How often the timer fires from step `i` to step `n`. */
  ghost function Firings(ss: seq<State>, actions: seq<Action>, i: nat, n: nat, t: TimerId): nat
    requires i <= n < |ss| && |ss| == |actions| + 1
    decreases n
  {
    if n == i then 0 else Firings(ss, actions, i, n - 1, t) + if Fires(ss[n - 1], actions[n - 1], t) then 1 else 0
  }

  ghost predicate Undeleted(ss: seq<State>, actions: seq<Action>, i: nat, n: nat, t: TimerId)
    requires i <= n < |ss| && |ss| == |actions| + 1
  {
    forall k {:trigger actions[k]} :: i <= k < n ==> !(actions[k].ADelete? && actions[k].t == t && Working(ss[k]))
  }

  ghost predicate Unmodified(ss: seq<State>, actions: seq<Action>, i: nat, n: nat, t: TimerId)
    requires i <= n < |ss| && |ss| == |actions| + 1
  {
    forall k {:trigger actions[k]} :: i <= k < n ==> !(actions[k].AModify? && actions[k].t == t && Working(ss[k]))
  }

  lemma BeatAt(ss: seq<State>, actions: seq<Action>, k: nat, t: TimerId)
    requires IsRun(ss, actions) && Init(ss[0]) && k < |actions| && Beating(ss[k], t)
    requires !(actions[k].ADelete? && actions[k].t == t && Working(ss[k]))
    ensures Beating(ss[k + 1], t)
    ensures !(actions[k].AModify? && actions[k].t == t && Working(ss[k])) ==>
      && ss[k + 1].timers[t].interval == ss[k].timers[t].interval
      && ss[k + 1].timers[t].expire ==
         ss[k].timers[t].expire + if Fires(ss[k], actions[k], t) then ss[k].timers[t].interval else 0
  {
    RunSafe(ss, actions, k);
    BeatGoesOn(ss[k], actions[k], ss[k + 1], t);
  }

  /** From its add to its delete a cyclic timer stays mounted, however often it fires or is modified. */
  lemma {:induction false} CyclicStays(ss: seq<State>, actions: seq<Action>, i: nat, n: nat, t: TimerId)
    requires IsRun(ss, actions) && Init(ss[0]) && i <= n < |ss| && Beating(ss[i], t) && Undeleted(ss, actions, i, n, t)
    ensures Beating(ss[n], t)
  {
    if n > i {
      var m := n - 1;
      CyclicStays(ss, actions, i, m, t);
      assert !(actions[m].ADelete? && actions[m].t == t && Working(ss[m]));
      BeatAt(ss, actions, m, t);
    }
  }

  ghost predicate OneBeat(s: State, a: Action, s': State, t: TimerId) {
    Beating(s, t) ==>
      && Beating(s', t) && s'.timers[t].interval == s.timers[t].interval
      && s'.timers[t].expire == s.timers[t].expire + if Fires(s, a, t) then s.timers[t].interval else 0
  }

  lemma {:induction false} SumOfBeats(ss: seq<State>, actions: seq<Action>, i: nat, n: nat, t: TimerId)
    requires |ss| == |actions| + 1 && i <= n < |ss| && Beating(ss[i], t)
    requires forall k {:trigger actions[k]} :: i <= k < n ==> OneBeat(ss[k], actions[k], ss[k + 1], t)
    ensures Beating(ss[n], t) && ss[n].timers[t].interval == ss[i].timers[t].interval
    ensures ss[n].timers[t].expire ==
      ss[i].timers[t].expire + ss[i].timers[t].interval * Firings(ss, actions, i, n, t)
  {
    if n > i {
      var m := n - 1;
      SumOfBeats(ss, actions, i, m, t);
      assert OneBeat(ss[m], actions[m], ss[n], t);
      Distribute(ss[i].timers[t].interval, Firings(ss, actions, i, m, t));
    }
  }

  lemma Distribute(a: nat, b: nat)
    ensures a * (b + 1) == a * b + a
  {
  }

  /** And each firing moves its expiry by one interval: it keeps its beat. */
  lemma KeepsBeat(ss: seq<State>, actions: seq<Action>, i: nat, n: nat, t: TimerId)
    requires IsRun(ss, actions) && Init(ss[0]) && i <= n < |ss| && Beating(ss[i], t)
    requires Undeleted(ss, actions, i, n, t) && Unmodified(ss, actions, i, n, t)
    ensures Beating(ss[n], t) && ss[n].timers[t].interval == ss[i].timers[t].interval
    ensures ss[n].timers[t].expire ==
      ss[i].timers[t].expire + ss[i].timers[t].interval * Firings(ss, actions, i, n, t)
  {
    forall k {:trigger actions[k]} | i <= k < n
      ensures OneBeat(ss[k], actions[k], ss[k + 1], t)
    {
      if Beating(ss[k], t) {
        BeatAt(ss, actions, k, t);
      }
    }
    SumOfBeats(ss, actions, i, n, t);
  }

  // ---- one-shot timers ----

  /** A timer out of the tree stays out until timer_add or timer_mod succeeds on it. */
  lemma StaysOut(s: State, a: Action, s': State, t: TimerId)
    requires SafetyInv(s) && Step(s, a, s') && t in s.timers && !s.timers[t].mounted
    requires !((a.AAdd? || a.AModify?) && a.t == t && Working(s))
    ensures t in s'.timers && !s'.timers[t].mounted && !Fires(s, a, t)
  {
    if Fires(s, a, t) {
      FiresMounted(s, a, t);
    }
    if ByInspector(a) {
      OutInspected(s, a, s', t);
    } else if ByExecutor(a) {
      ExecutorsKeep(s, a, s', t);
    } else {
      OutCalled(s, a, s', t);
    }
  }

  lemma OutInspected(s: State, a: Action, s': State, t: TimerId)
    requires SafetyInv(s) && Step(s, a, s') && ByInspector(a) && t in s.timers && !s.timers[t].mounted
    requires !Fires(s, a, t)
    ensures t in s'.timers && !s'.timers[t].mounted
  {
    if u :| Fires(s, a, u) {
      FiringDoes(s, a, s', u);
    } else if a.AInspectorDone? {
      CallbackEnds(s, a, s', INSPECTOR);
    } else {
      NoneFires(s, a, s');
    }
  }

  lemma OutCalled(s: State, a: Action, s': State, t: TimerId)
    requires SafetyInv(s) && Step(s, a, s') && !ByInspector(a) && !ByExecutor(a)
    requires t in s.timers && !s.timers[t].mounted
    requires !((a.AAdd? || a.AModify?) && a.t == t && Working(s))
    ensures t in s'.timers && !s'.timers[t].mounted
  {
    match a
    case AAdd(u, cycle, threaded, interval, now) => AddDoes(s, s', u, cycle, threaded, interval, now);
    case AModify(u, interval, now) => ModifyDoes(s, s', u, interval, now);
    case ADelete(u, call, self) => DeleteDoes(s, s', u, call, self);
    case _ =>
  }

  ghost predicate NotRearmed(ss: seq<State>, actions: seq<Action>, i: nat, n: nat, t: TimerId)
    requires i <= n < |ss| && |ss| == |actions| + 1
  {
    forall k {:trigger actions[k]} :: i <= k < n ==>
      !((actions[k].AAdd? || actions[k].AModify?) && actions[k].t == t && Working(ss[k]))
  }

  lemma OutAt(ss: seq<State>, actions: seq<Action>, k: nat, t: TimerId)
    requires IsRun(ss, actions) && Init(ss[0]) && k < |actions| && t in ss[k].timers && !ss[k].timers[t].mounted
    requires !((actions[k].AAdd? || actions[k].AModify?) && actions[k].t == t && Working(ss[k]))
    ensures t in ss[k + 1].timers && !ss[k + 1].timers[t].mounted && !Fires(ss[k], actions[k], t)
  {
    RunSafe(ss, actions, k);
    StaysOut(ss[k], actions[k], ss[k + 1], t);
  }

  ghost predicate Out(s: State, t: TimerId) {
    t in s.timers && !s.timers[t].mounted
  }

  ghost predicate OneQuiet(s: State, a: Action, s': State, t: TimerId) {
    Out(s, t) ==> Out(s', t) && !Fires(s, a, t)
  }

  lemma {:induction false} QuietSum(ss: seq<State>, actions: seq<Action>, i: nat, n: nat, t: TimerId)
    requires |ss| == |actions| + 1 && i <= n < |ss| && Out(ss[i], t)
    requires forall k {:trigger actions[k]} :: i <= k < n ==> OneQuiet(ss[k], actions[k], ss[k + 1], t)
    ensures Out(ss[n], t) && Firings(ss, actions, i, n, t) == 0
  {
    if n > i {
      var m := n - 1;
      QuietSum(ss, actions, i, m, t);
      assert OneQuiet(ss[m], actions[m], ss[n], t);
    }
  }

  lemma FiredOut(ss: seq<State>, actions: seq<Action>, i: nat, t: TimerId)
    requires IsRun(ss, actions) && Init(ss[0]) && i < |actions| && Fires(ss[i], actions[i], t) && !ss[i].timers[t].cycle
    ensures Out(ss[i + 1], t)
  {
    RunSafe(ss, actions, i);
    FiringDoes(ss[i], actions[i], ss[i + 1], t);
  }

  /** A one-shot timer that fires at step `i` does not fire again until it is re-armed. */
  lemma OneShot(ss: seq<State>, actions: seq<Action>, i: nat, n: nat, t: TimerId)
    requires IsRun(ss, actions) && Init(ss[0]) && i < n < |ss| && Fires(ss[i], actions[i], t) && !ss[i].timers[t].cycle
    requires NotRearmed(ss, actions, i, n, t)
    ensures Out(ss[n], t) && Firings(ss, actions, i + 1, n, t) == 0
  {
    FiredOut(ss, actions, i, t);
    forall k {:trigger actions[k]} | i + 1 <= k < n
      ensures OneQuiet(ss[k], actions[k], ss[k + 1], t)
    {
      if Out(ss[k], t) {
        OutAt(ss, actions, k, t);
      }
    }
    QuietSum(ss, actions, i + 1, n, t);
  }
}
