/**
 When the inspector of timer/timer.c fires: never before the time, unless timer_mod puts off the very
 timer it waits for; and a firing after that wait undoes a timer_destroy.
 */
module TimerFirings {
  import opened Wrappers
  import opened TimerModel
  import opened TimerProofs
  import opened TimerSignals

  /** The step reaches line 392 with the timer `t`. */
  ghost predicate Fires(s: State, a: Action, t: TimerId) {
    && t in s.timers && INSPECTOR in s.threads
    && match a
       case AInspectorRound(now, _, _) =>
         s.threads[INSPECTOR] == ITop && s.phase != Destroy && IsFirst(s, t) && s.timers[t].expire <= now
       case AInspectorBack(timedOut, _, _, _) =>
         s.threads[INSPECTOR].ITimed? && s.threads[INSPECTOR].timer == t && s.running.Some? && timedOut
       case _ => false
  }

  /** Such a step runs lines 392 to 405. */
  lemma FiresMeans(s: State, a: Action, s': State, t: TimerId)
    requires RunningOk(s) && Step(s, a, s') && Fires(s, a, t)
    ensures s' == Fire(s.(running := None), t, a.pick, a.made)
  {
    if a.AInspectorRound? {
      var u :| IsFirst(s, u) && InspectorLooks(s, s', u, a.now, a.pick, a.made);
      assert u == t;
      assert s.running == None;
      assert s.(running := None) == s;
    }
  }

  predicate Busy(x: Timer) {
    x.pending || x.executing
  }

  /** And there is no other way to a callback. */
  lemma OnlyByFiring(s: State, a: Action, s': State, t: TimerId)
    requires SafetyInv(s) && Step(s, a, s') && t in s.timers && !Busy(s.timers[t]) && t in s'.timers
    requires Busy(s'.timers[t])
    ensures Fires(s, a, t)
  {
    if ByInspector(a) {
      InspectorFires(s, a, s', t);
    } else if ByExecutor(a) {
      ExecutorsLeave(s, a, s', t);
    } else {
      CallersLeave(s, a, s', t);
    }
  }

  lemma InspectorFires(s: State, a: Action, s': State, t: TimerId)
    requires Step(s, a, s') && ByInspector(a) && RunningOk(s)
    requires t in s.timers && !Busy(s.timers[t]) && t in s'.timers && Busy(s'.timers[t])
    ensures Fires(s, a, t)
  {
    match a
    case AInspectorRound(now, pick, made) =>
      if s.phase != Destroy && s.table != {} {
        var u :| IsFirst(s, u) && InspectorLooks(s, s', u, now, pick, made);
        if now >= s.timers[u].expire && u != t {
          FireOther(s, u, pick, made, t);
        }
      }
    case AInspectorBack(timedOut, now, pick, made) =>
      if s.running.Some? && timedOut && s.threads[INSPECTOR].timer != t {
        FireOther(s.(running := None), s.threads[INSPECTOR].timer, pick, made, t);
      }
    case _ =>
  }

  lemma ExecutorsLeave(s: State, a: Action, s': State, t: TimerId)
    requires Step(s, a, s') && ByExecutor(a) && ListOk(s) && t in s.timers && !Busy(s.timers[t])
    ensures t in s'.timers && !Busy(s'.timers[t])
  {
    match a
    case AExecutorDrain(h) =>
      if s.expired != [] {
        assert s.timers[s.expired[0]].pending;
        Popped(s, s', h);
      }
    case AExecutorDone(h) => DoneLeaves(s, s', h, t);
    case AExecutorRound(h) => RoundLeaves(s, s', h);
    case _ =>
  }

  lemma DoneLeaves(s: State, s': State, h: ThreadId, t: TimerId)
    requires ExecutorDone(s, s', h) && t in s.timers && !Busy(s.timers[t])
    ensures t in s'.timers && !Busy(s'.timers[t])
  {
  }

  lemma RoundLeaves(s: State, s': State, h: ThreadId)
    requires ExecutorRound(s, s', h)
    ensures s'.timers == s.timers
  {
  }

  lemma InsertLeaves(s: State, u: TimerId, t: TimerId)
    requires u in s.timers && t in s.timers
    ensures t in Insert(s, u).timers && Busy(Insert(s, u).timers[t]) == Busy(s.timers[t])
    ensures t in Remove(s, u).timers && Busy(Remove(s, u).timers[t]) == Busy(s.timers[t])
  {
  }

  lemma AddLeaves(s: State, a: Action, s': State, t: TimerId)
    requires Step(s, a, s') && a.AAdd? && t in s.timers && !Busy(s.timers[t])
    ensures t in s'.timers && !Busy(s'.timers[t])
  {
    var u := a.t;
    if AddSucceeds(s, u) {
      var x := Timer(true, false, false, false, false, false, a.cycle, a.threaded, a.interval, a.now,
                     s.timers[u].timerid, s.timers[u].thread);
      InsertLeaves(s.(timers := s.timers[u := x]), u, t);
    }
  }

  lemma ModifyLeaves(s: State, a: Action, s': State, t: TimerId)
    requires Step(s, a, s') && a.AModify? && t in s.timers && !Busy(s.timers[t])
    ensures t in s'.timers && !Busy(s'.timers[t])
  {
    if !DeleteFails(s, a.t) {
      InsertLeaves(s, a.t, t);
      InsertLeaves(Retimed(s, a.t, a.interval, a.now), a.t, t);
    }
  }

  lemma CallersLeave(s: State, a: Action, s': State, t: TimerId)
    requires Step(s, a, s') && !ByInspector(a) && !ByExecutor(a) && t in s.timers && !Busy(s.timers[t])
    ensures t in s'.timers && !Busy(s'.timers[t])
  {
    if a.AAdd? {
      AddLeaves(s, a, s', t);
    } else if a.AModify? {
      ModifyLeaves(s, a, s', t);
    } else if a.ADelete? {
      DeleteLeavesIdle(s, a, s', t);
    }
  }

  lemma DeleteLeavesIdle(s: State, a: Action, s': State, t: TimerId)
    requires Step(s, a, s') && a.ADelete? && t in s.timers && !Busy(s.timers[t])
    ensures t in s'.timers && !Busy(s'.timers[t])
  {
    if !DeleteFails(s, a.t) {
      UnmountedIdle(s, a.t, t);
      ExitIdle(Unmounted(s, a.t), s', a.t, a.call, a.self, t);
    }
  }

  lemma UnmountedIdle(s: State, u: TimerId, t: TimerId)
    requires u in s.timers && t in s.timers && !Busy(s.timers[t])
    ensures u in Unmounted(s, u).timers && t in Unmounted(s, u).timers && !Busy(Unmounted(s, u).timers[t])
  {
  }

  lemma ExitIdle(s: State, s': State, u: TimerId, call: CallId, self: Option<ThreadId>, t: TimerId)
    requires u in s.timers && TimerExit(s, s', u, call, self) && t in s.timers && !Busy(s.timers[t])
    ensures t in s'.timers && !Busy(s'.timers[t])
  {
  }

  // ---- the timer waited for ----

  ghost predicate Waits(s: State, t: TimerId) {
    INSPECTOR in s.threads && s.threads[INSPECTOR].ITimed? && s.threads[INSPECTOR].timer == t && s.running == Some(t)
  }

  /** A timer_mod that succeeds on it. */
  ghost predicate PutOff(s: State, a: Action, t: TimerId) {
    a.AModify? && a.t == t && t in s.timers && !DeleteFails(s, t) && Waits(s, t)
  }

  /** The wait begins. */
  lemma WaitBegins(s: State, a: Action, s': State, t: TimerId)
    requires Step(s, a, s') && ByInspector(a) && Waits(s', t)
    ensures t in s'.timers && s'.threads[INSPECTOR].deadline == s'.timers[t].expire
  {
    match a
    case AInspectorRound(now, pick, made) =>
      if s.phase != Destroy && s.table != {} {
        var u :| IsFirst(s, u) && InspectorLooks(s, s', u, now, pick, made);
        if now >= s.timers[u].expire {
          FireAwake(s, u, pick, made);
        }
      }
    case AInspectorBack(timedOut, now, pick, made) =>
      if s.running.Some? && timedOut {
        FireAwake(s.(running := None), s.threads[INSPECTOR].timer, pick, made);
      }
    case _ =>
  }

  lemma ModifyExpire(s: State, s': State, t: TimerId, interval: nat, now: nat)
    requires Modify(s, s', t, interval, now) && !DeleteFails(s, t)
    ensures t in s'.timers && s'.timers[t].expire == now + interval
  {
  }

  /** While it lasts only timer_mod changes the timer's expiry. */
  lemma WaitLasts(s: State, a: Action, s': State, t: TimerId)
    requires SafetyInv(s) && Step(s, a, s') && !ByInspector(a) && Waits(s', t)
    ensures Waits(s, t) && s'.threads[INSPECTOR] == s.threads[INSPECTOR] && t in s.timers && t in s'.timers
    ensures s'.timers[t].expire == if PutOff(s, a, t) then a.now + a.interval else s.timers[t].expire
  {
    if a.AModify? {
      ModifyWaits(s, a, s', t);
    } else if a.AAdd? {
      AddArms(s, s', a.t, a.cycle, a.threaded, a.interval, a.now);
    } else if a.ADelete? {
      DeleteLeaves(s, s', a.t, a.call, a.self);
    } else if !a.ADestroy? {
      OthersSame(s, a, s');
    }
  }

  lemma ModifyWaits(s: State, a: Action, s': State, t: TimerId)
    requires KeysOk(s) && RunningOk(s) && s.table <= s.timers.Keys && a.AModify? && Step(s, a, s') && Waits(s', t)
    ensures Waits(s, t) && s'.threads[INSPECTOR] == s.threads[INSPECTOR] && t in s.timers && t in s'.timers
    ensures s'.timers[t].expire == if PutOff(s, a, t) then a.now + a.interval else s.timers[t].expire
  {
    ModifyArms(s, s', a.t, a.interval, a.now);
    if !DeleteFails(s, a.t) {
      ModifyExpire(s, s', a.t, a.interval, a.now);
    }
  }

  // ---- never early ----

  /** Step `j` put the timer off, and up to step `n` neither the inspector nor another timer_mod intervened. */
  ghost predicate LastPutOff(ss: seq<State>, actions: seq<Action>, j: nat, n: nat, t: TimerId)
    requires n < |ss| && |ss| == |actions| + 1
  {
    && j < n && PutOff(ss[j], actions[j], t)
    && forall k :: j < k < n ==> !ByInspector(actions[k]) && !PutOff(ss[k], actions[k], t)
  }

  /** The expiry of the timer waited for is the deadline, or what the last timer_mod since made of it. */
  ghost predicate Explained(ss: seq<State>, actions: seq<Action>, n: nat, t: TimerId)
    requires n < |ss| && |ss| == |actions| + 1
  {
    && t in ss[n].timers && INSPECTOR in ss[n].threads && ss[n].threads[INSPECTOR].ITimed?
    && (forall j: nat :: LastPutOff(ss, actions, j, n, t) ==>
          ss[n].timers[t].expire == actions[j].now + actions[j].interval)
    && ((forall j: nat :: !LastPutOff(ss, actions, j, n, t)) ==>
          ss[n].timers[t].expire == ss[n].threads[INSPECTOR].deadline)
  }

  lemma {:induction false} WaitHistory(ss: seq<State>, actions: seq<Action>, n: nat, t: TimerId)
    requires IsRun(ss, actions) && Init(ss[0]) && n < |ss| && Waits(ss[n], t)
    ensures Explained(ss, actions, n, t)
  {
    if n > 0 {
      assert Step(ss[n - 1], actions[n - 1], ss[n]);
      if ByInspector(actions[n - 1]) {
        WaitBegins(ss[n - 1], actions[n - 1], ss[n], t);
        NoneYet(ss, actions, n, t);
      } else {
        RunSafe(ss, actions, n - 1);
        WaitLasts(ss[n - 1], actions[n - 1], ss[n], t);
        WaitHistory(ss, actions, n - 1, t);
        HistoryGoesOn(ss, actions, n, t);
      }
    }
  }

  lemma NoneYet(ss: seq<State>, actions: seq<Action>, n: nat, t: TimerId)
    requires 0 < n < |ss| && |ss| == |actions| + 1 && ByInspector(actions[n - 1])
    ensures forall j: nat :: !LastPutOff(ss, actions, j, n, t)
  {
    forall j: nat
      ensures !LastPutOff(ss, actions, j, n, t)
    {
      assert j < n - 1 ==> ByInspector(actions[n - 1]);
    }
  }

  lemma HistoryGoesOn(ss: seq<State>, actions: seq<Action>, n: nat, t: TimerId)
    requires 0 < n < |ss| && |ss| == |actions| + 1 && !ByInspector(actions[n - 1]) && Explained(ss, actions, n - 1, t)
    requires t in ss[n].timers && INSPECTOR in ss[n].threads && ss[n].threads[INSPECTOR] == ss[n - 1].threads[INSPECTOR]
    requires ss[n].timers[t].expire ==
      if PutOff(ss[n - 1], actions[n - 1], t) then actions[n - 1].now + actions[n - 1].interval
      else ss[n - 1].timers[t].expire
    ensures Explained(ss, actions, n, t)
  {
    OneMore(ss, actions, n, t);
    if PutOff(ss[n - 1], actions[n - 1], t) {
      assert LastPutOff(ss, actions, n - 1, n, t);
    } else if forall j: nat :: !LastPutOff(ss, actions, j, n, t) {
      var m := n - 1;
      forall j: nat
        ensures !LastPutOff(ss, actions, j, m, t)
      {
        assert !LastPutOff(ss, actions, j, n, t);
      }
    }
  }

  lemma OneMore(ss: seq<State>, actions: seq<Action>, n: nat, t: TimerId)
    requires 0 < n < |ss| && |ss| == |actions| + 1 && !ByInspector(actions[n - 1])
    ensures PutOff(ss[n - 1], actions[n - 1], t) ==> forall j: nat :: LastPutOff(ss, actions, j, n, t) <==> j == n - 1
    ensures !PutOff(ss[n - 1], actions[n - 1], t) ==>
      forall j: nat :: LastPutOff(ss, actions, j, n, t) <==> LastPutOff(ss, actions, j, n - 1, t)
  {
    forall j: nat | PutOff(ss[n - 1], actions[n - 1], t)
      ensures LastPutOff(ss, actions, j, n, t) <==> j == n - 1
    {
    }
    forall j: nat | !PutOff(ss[n - 1], actions[n - 1], t)
      ensures LastPutOff(ss, actions, j, n, t) <==> LastPutOff(ss, actions, j, n - 1, t)
    {
    }
  }

  /** The timed wait has run out, and the last timer_mod during it had put the timer off beyond now. */
  ghost predicate PutOffBeyond(ss: seq<State>, actions: seq<Action>, j: nat, n: nat, t: TimerId)
    requires n < |actions| && |ss| == |actions| + 1
  {
    && actions[n].AInspectorBack? && LastPutOff(ss, actions, j, n, t)
    && actions[j].now + actions[j].interval > actions[n].now
  }

  /** In every run a timer fires at or after its expiry, exactly if it was not put off like that. */
  lemma NeverEarly(ss: seq<State>, actions: seq<Action>, n: nat, t: TimerId)
    requires IsRun(ss, actions) && Init(ss[0]) && n < |actions| && Fires(ss[n], actions[n], t)
    ensures ss[n].timers[t].expire <= actions[n].now <==> !exists j: nat :: PutOffBeyond(ss, actions, j, n, t)
  {
    if actions[n].AInspectorBack? {
      RunSafe(ss, actions, n);
      assert Step(ss[n], actions[n], ss[n + 1]);
      WaitHistory(ss, actions, n, t);
      if j: nat :| LastPutOff(ss, actions, j, n, t) {
        assert PutOffBeyond(ss, actions, j, n, t) <==> ss[n].timers[t].expire > actions[n].now;
      }
    }
  }

  // ---- destroy ----

  /** A timed wait that has run out for a timer still there. */
  ghost predicate RunsOut(s: State, a: Action) {
    a.AInspectorBack? && a.timedOut && s.running.Some?
  }

  lemma DestroyedRound(s: State, a: Action, s': State)
    requires Step(s, a, s') && ByInspector(a) && s.phase == Destroy && !RunsOut(s, a)
    ensures s'.phase == Destroy
  {
  }

  lemma FireShoots(s: State, t: TimerId, pick: Option<ThreadId>, made: ThreadId)
    requires t in s.timers
    ensures Fire(s, t, pick, made).phase == Shooting
  {
    var s1 := Remove(SetPc(s.(phase := Shooting), INSPECTOR, ITop), t);
    var s2 := if s.timers[t].cycle then Insert(s1, t) else s1;
    assert s2.phase == Shooting && Queue(s2, t, pick, made).phase == Shooting;
  }

  /** Line 393 overwrites DESTROY, and nothing else does; that is also the only firing then. */
  lemma DestroyKept(s: State, a: Action, s': State)
    requires SafetyInv(s) && Step(s, a, s') && s.phase == Destroy
    ensures s'.phase == Destroy <==> !RunsOut(s, a)
    ensures (exists t :: Fires(s, a, t)) <==> RunsOut(s, a)
  {
    if RunsOut(s, a) {
      var t := s.threads[INSPECTOR].timer;
      assert Fires(s, a, t);
      FireShoots(s.(running := None), t, a.pick, a.made);
    } else if ByInspector(a) {
      DestroyedRound(s, a, s');
    } else {
      CallersPhase(s, a, s');
    }
  }

  /** Only the inspector and timer_destroy change the phase. */
  lemma CallersPhase(s: State, a: Action, s': State)
    requires SafetyInv(s) && Step(s, a, s') && !ByInspector(a)
    ensures s'.phase == s.phase || (a.ADestroy? && s'.phase == Destroy)
    ensures INSPECTOR in s.threads ==> INSPECTOR in s'.threads && s'.threads[INSPECTOR] == s.threads[INSPECTOR]
  {
    if a.AAdd? {
      AddArms(s, s', a.t, a.cycle, a.threaded, a.interval, a.now);
    } else if a.AModify? {
      ModifyArms(s, s', a.t, a.interval, a.now);
    } else if a.ADelete? {
      DeleteLeaves(s, s', a.t, a.call, a.self);
    } else if !a.ADestroy? {
      OthersSame(s, a, s');
    }
  }

  ghost predicate Lasts(ss: seq<State>, i: nat, n: nat)
    requires n < |ss|
  {
    forall k :: i <= k <= n ==> ss[k].phase == Destroy
  }

  ghost predicate NoneRunsOut(ss: seq<State>, actions: seq<Action>, i: nat, n: nat)
    requires n < |ss| && |ss| == |actions| + 1
  {
    forall k :: i <= k < n ==> !RunsOut(ss[k], actions[k])
  }

  lemma KeptAt(ss: seq<State>, actions: seq<Action>, k: nat)
    requires IsRun(ss, actions) && Init(ss[0]) && k < |actions| && ss[k].phase == Destroy
    ensures ss[k + 1].phase == Destroy <==> !RunsOut(ss[k], actions[k])
    ensures (exists t :: Fires(ss[k], actions[k], t)) <==> RunsOut(ss[k], actions[k])
  {
    RunSafe(ss, actions, k);
    DestroyKept(ss[k], actions[k], ss[k + 1]);
  }

  ghost predicate Kept(s: State, a: Action, s': State) {
    s.phase == Destroy ==> (s'.phase == Destroy <==> !RunsOut(s, a))
  }

  lemma {:induction false} LastsWhile(ss: seq<State>, actions: seq<Action>, i: nat, n: nat)
    requires |ss| == |actions| + 1 && i <= n < |ss| && ss[i].phase == Destroy
    requires forall k {:trigger actions[k]} :: i <= k < n ==> Kept(ss[k], actions[k], ss[k + 1])
    ensures Lasts(ss, i, n) <==> NoneRunsOut(ss, actions, i, n)
  {
    if n > i {
      var m := n - 1;
      LastsWhile(ss, actions, i, m);
      assert Kept(ss[m], actions[m], ss[n]);
      assert Lasts(ss, i, n) <==> Lasts(ss, i, m) && ss[n].phase == Destroy;
      assert NoneRunsOut(ss, actions, i, n) <==> NoneRunsOut(ss, actions, i, m) && !RunsOut(ss[m], actions[m]);
    }
  }

  /** Over a run: a destroy lasts exactly as long as no timed wait runs out. */
  lemma DestroyLasts(ss: seq<State>, actions: seq<Action>, i: nat, n: nat)
    requires IsRun(ss, actions) && Init(ss[0]) && i <= n < |ss| && ss[i].phase == Destroy
    ensures Lasts(ss, i, n) <==> NoneRunsOut(ss, actions, i, n)
  {
    forall k {:trigger actions[k]} | i <= k < n
      ensures Kept(ss[k], actions[k], ss[k + 1])
    {
      if ss[k].phase == Destroy {
        KeptAt(ss, actions, k);
      }
    }
    LastsWhile(ss, actions, i, n);
  }

  /** And as long as it lasts no timer fires. */
  lemma DestroyQuiet(ss: seq<State>, actions: seq<Action>, i: nat, n: nat, k: nat, t: TimerId)
    requires IsRun(ss, actions) && Init(ss[0]) && i <= k < n < |ss| && Lasts(ss, i, n)
    ensures !Fires(ss[k], actions[k], t)
  {
    KeptAt(ss, actions, k);
    assert ss[k + 1].phase == Destroy;
  }

  lemma FireStays(s: State, t: TimerId, pick: Option<ThreadId>, made: ThreadId)
    requires t in s.timers && INSPECTOR in s.threads && MayFire(s, pick, made) && !s.threads[INSPECTOR].EWait?
    ensures INSPECTOR in Fire(s, t, pick, made).threads && Fire(s, t, pick, made).phase == Shooting
  {
    FireShoots(s, t, pick, made);
    var s1 := Remove(SetPc(s.(phase := Shooting), INSPECTOR, ITop), t);
    var s2 := if s.timers[t].cycle then Insert(s1, t) else s1;
    assert s2.threads == s.threads[INSPECTOR := ITop] && INSPECTOR in Staffed(Enlisted(s2, t), pick, made).threads;
  }

  /** Once it is overwritten the inspector goes on, whatever happens, until somebody destroys again. */
  lemma InspectorGoesOn(s: State, a: Action, s': State)
    requires SafetyInv(s) && Step(s, a, s') && s.phase != Destroy && INSPECTOR in s.threads && !a.ADestroy?
    ensures s'.phase != Destroy && INSPECTOR in s'.threads
  {
    if ByInspector(a) {
      RoundGoesOn(s, a, s');
    } else {
      CallersPhase(s, a, s');
    }
  }

  lemma RoundGoesOn(s: State, a: Action, s': State)
    requires Step(s, a, s') && ByInspector(a) && s.phase != Destroy
    ensures s'.phase != Destroy && INSPECTOR in s'.threads
  {
    match a
    case AInspectorRound(now, pick, made) =>
      if s.table != {} {
        var t :| IsFirst(s, t) && InspectorLooks(s, s', t, now, pick, made);
        if now >= s.timers[t].expire {
          FireStays(s, t, pick, made);
        }
      }
    case AInspectorBack(timedOut, now, pick, made) =>
      if s.running.Some? && timedOut {
        FireStays(s.(running := None), s.threads[INSPECTOR].timer, pick, made);
      }
    case _ =>
  }

  /** So timer_destroy, which waits until no thread is left, never returns. */
  lemma {:induction false} DestroyHangs(ss: seq<State>, actions: seq<Action>, i: nat, n: nat)
    requires IsRun(ss, actions) && Init(ss[0]) && i <= n < |ss| && ss[i].phase != Destroy && INSPECTOR in ss[i].threads
    requires forall k :: i <= k < n ==> !actions[k].ADestroy?
    ensures ss[n].phase != Destroy && INSPECTOR in ss[n].threads
  {
    if n > i {
      DestroyHangs(ss, actions, i, n - 1);
      RunSafe(ss, actions, n - 1);
      InspectorGoesOn(ss[n - 1], actions[n - 1], ss[n]);
    }
  }

  // ---- two runs ----

  /** Two timers and an inspector; the first timer is in use. */
  function Base(x: Timer, y: Timer, nextId: nat, running: Option<TimerId>, phase: Phase, pc: Pc, destroying: bool)
    : State
  {
    State(map[1 := x, 2 := y], (if x.mounted then {1} else {}) + (if y.mounted then {2} else {}), [],
          nextId, running, phase, 1, 0,
          map[INSPECTOR := pc], map[], Options(1, 2, 0), destroying)
  }

  const Start: State := Base(Idle, Idle, 0, None, Initial, ITop, false)
  const Added: State := Base(Armed5, Idle, 1, None, Initial, ITop, false)
  const Timed: State := Base(Armed5, Idle, 1, Some(1), Timing, ITimed(1, 5), false)

  lemma RunThenStep(ss: seq<State>, actions: seq<Action>, a: Action, s: State)
    requires IsRun(ss, actions) && Step(ss[|ss| - 1], a, s)
    ensures IsRun(ss + [s], actions + [a])
  {
    var ss', actions' := ss + [s], actions + [a];
    forall i | 0 <= i < |actions'|
      ensures Step(ss'[i], actions'[i], ss'[i + 1])
    {
      if i < |actions| {
        assert Step(ss[i], actions[i], ss[i + 1]);
      }
    }
  }

  lemma UpToTheWait()
    ensures Init(Start) && IsRun([Start, Added, Timed], [AAdd(1, false, false, 5, 0), AInspectorRound(0, None, 1)])
  {
    var x := Timer(true, false, false, false, false, false, false, false, 5, 0, 0, 0);
    assert Insert(Start.(timers := Start.timers[1 := x]), 1) == Added;
    assert IsFirst(Added, 1);
    assert InspectorLooks(Added, Timed, 1, 0, None, 1);
    assert Step(Start, AAdd(1, false, false, 5, 0), Added) && Step(Added, AInspectorRound(0, None, 1), Timed);
  }

  const Later: Timer := Armed5.(expire := 9, timerid := 1)
  const Late: State := Base(Later, Idle, 2, Some(1), Timing, ITimed(1, 5), false)
  const Early: State := Base(Later.(mounted := false, executing := true), Idle, 2, None, Shooting, IExec(1), false)

  lemma EarlySteps()
    ensures Step(Timed, AModify(1, 5, 4), Late) && Step(Late, AInspectorBack(true, 5, None, 1), Early)
  {
    assert !DeleteFails(Timed, 1);
    assert Insert(Retimed(Timed, 1, 5, 4), 1) == Late;
    assert Fire(Late.(running := None), 1, None, 1) == Early;
  }

  /** A timer due at 5 is put off to 9 at 4; the wait, which has run out at 5, fires it. */
  lemma EarlyRun() returns (ss: seq<State>, actions: seq<Action>)
    ensures IsRun(ss, actions) && |actions| == 4 && Init(ss[0]) && Fires(ss[3], actions[3], 1)
    ensures actions[3].now == 5 && ss[3].timers[1].expire == 9
  {
    UpToTheWait();
    EarlySteps();
    ss, actions := [Start, Added, Timed], [AAdd(1, false, false, 5, 0), AInspectorRound(0, None, 1)];
    RunThenStep(ss, actions, AModify(1, 5, 4), Late);
    ss, actions := ss + [Late], actions + [AModify(1, 5, 4)];
    RunThenStep(ss, actions, AInspectorBack(true, 5, None, 1), Early);
    ss, actions := ss + [Early], actions + [AInspectorBack(true, 5, None, 1)];
  }

  const Doomed: State := Base(Armed5, Idle, 1, Some(1), Destroy, ITimed(1, 5), true)
  const Undone: State := Base(Shot, Idle, 1, None, Shooting, IExec(1), true)
  const Reused: State := Base(Shot, Armed5.(expire := 11, timerid := 1), 2, None, Shooting, IExec(1), true)

  lemma DestroySteps()
    ensures Step(Timed, ADestroy, Doomed) && Step(Doomed, AInspectorBack(true, 5, None, 1), Undone)
  {
    assert Fire(Doomed.(running := None), 1, None, 1) == Undone;
  }

  lemma ReuseStep()
    ensures Step(Undone, AAdd(2, false, false, 5, 6), Reused)
  {
    var x := Timer(true, false, false, false, false, false, false, false, 5, 6, 0, 0);
    assert Insert(Undone.(timers := Undone.timers[2 := x]), 2) == Reused;
  }

  /** A destroy is overwritten by the wait running out: the base works on, and takes a new timer. */
  lemma UndoneRun() returns (ss: seq<State>, actions: seq<Action>)
    ensures IsRun(ss, actions) && |actions| == 5 && Init(ss[0]) && actions[2] == ADestroy && ss[3].phase == Destroy
    ensures ss[4].phase != Destroy && INSPECTOR in ss[4].threads && 2 in ss[5].table
  {
    UpToTheWait();
    DestroySteps();
    ReuseStep();
    ss, actions := [Start, Added, Timed], [AAdd(1, false, false, 5, 0), AInspectorRound(0, None, 1)];
    RunThenStep(ss, actions, ADestroy, Doomed);
    ss, actions := ss + [Doomed], actions + [ADestroy];
    RunThenStep(ss, actions, AInspectorBack(true, 5, None, 1), Undone);
    ss, actions := ss + [Undone], actions + [AInspectorBack(true, 5, None, 1)];
    RunThenStep(ss, actions, AAdd(2, false, false, 5, 6), Reused);
    ss, actions := ss + [Reused], actions + [AAdd(2, false, false, 5, 6)];
  }
}
