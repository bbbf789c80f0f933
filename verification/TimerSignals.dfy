/**
 The signals on work_cond, which wake the inspector of timer/timer.c: when it sleeps, is there
 nothing mounted that expires before the time it sleeps until?
 */
module TimerSignals {
  import opened Wrappers
  import opened TimerModel
  import opened TimerProofs

  /** A state, and whether the inspector, while it waits, has been signalled. */
  datatype Watch = Watch(s: State, signalled: bool)

  ghost predicate Asleep(s: State) {
    INSPECTOR in s.threads && (s.threads[INSPECTOR].IWait? || s.threads[INSPECTOR].ITimed?)
  }

  /** timer_add gets past its checks (lines 544 to 554). */
  ghost predicate AddSucceeds(s: State, t: TimerId)
    requires t in s.timers
  {
    Working(s) && !s.timers[t].active && !(s.timers[t].mounted && Search(s, t))
  }

  /** The timer is due before the one the inspector waits for. */
  ghost predicate Sooner(s: State, t: TimerId) {
    && s.running.Some? && s.running.value in s.timers && t in s.timers
    && s.timers[t].expire < s.timers[s.running.value].expire
  }

  /** The step calls pthread_cond_signal on work_cond (lines 514, 567, 598 and 634). */
  ghost predicate Signalled(s: State, a: Action, s': State) {
    match a
    case AAdd(t, _, _, _, _) => t in s.timers && AddSucceeds(s, t) && (s.phase == Waiting || Sooner(s', t))
    case ADelete(t, _, _) => t in s.timers && !DeleteFails(s, t) && s.timers[t].mounted && s.running == Some(t)
    case AModify(t, _, _) => t in s.timers && !DeleteFails(s, t) && (s.running == Some(t) || Sooner(s', t))
    case ADestroy => Working(s) && (s.phase == Waiting || s.phase == Timing)
    case _ => false
  }

  /** A signal reaches the inspector only while it waits, and lasts until it is back. */
  ghost predicate WatchStep(w: Watch, a: Action, w': Watch) {
    && Step(w.s, a, w'.s)
    && w'.signalled == (!ByInspector(a) && (w.signalled || (Asleep(w.s) && Signalled(w.s, a, w'.s))))
  }

  /** The phase tells how the inspector waits, unless the base is being destroyed. */
  ghost predicate PhaseOk(s: State) {
    INSPECTOR in s.threads ==>
      && (s.threads[INSPECTOR].IWait? ==> s.phase == Waiting || s.phase == Destroy)
      && (s.threads[INSPECTOR].ITimed? ==> s.phase == Timing || s.phase == Destroy)
  }

  /** A sleeping inspector that has not been signalled will be back before anything mounted expires. */
  ghost predicate Alert(w: Watch) {
    Asleep(w.s) && !w.signalled ==>
      match w.s.threads[INSPECTOR]
      case ITimed(r, d) => w.s.running == Some(r) && r in w.s.timers && w.s.timers[r].expire == d && NoneBefore(w.s, d)
      case _ => w.s.table == {}
  }

  ghost predicate NoneBefore(s: State, d: nat) {
    forall u :: u in s.table && u in s.timers ==> s.timers[u].expire >= d
  }

  /** timer_mod re-arms a timer while the inspector waits for one to come, and does not signal it. */
  ghost predicate Missed(w: Watch, a: Action) {
    && a.AModify? && a.t in w.s.timers && !DeleteFails(w.s, a.t) && !w.signalled
    && INSPECTOR in w.s.threads && w.s.threads[INSPECTOR].IWait?
  }

  // ---- steps that leave the inspector and the table alone ----

  ghost predicate Same(s: State, s': State) {
    && s'.table == s.table && s'.running == s.running && s'.phase == s.phase
    && (INSPECTOR in s.threads <==> INSPECTOR in s'.threads)
    && (INSPECTOR in s.threads ==> s'.threads[INSPECTOR] == s.threads[INSPECTOR])
    && s'.timers.Keys == s.timers.Keys && forall t :: t in s.timers ==> s'.timers[t].expire == s.timers[t].expire
  }

  lemma SameKeeps(s: State, s': State, g: bool)
    requires Same(s, s') && PhaseOk(s)
    ensures PhaseOk(s') && (Alert(Watch(s, g)) <==> Alert(Watch(s', g))) && Asleep(s') == Asleep(s)
  {
  }

  lemma MovedSame(s: State, h: ThreadId, pc: Pc)
    requires h != INSPECTOR
    ensures Same(s, SetPc(s, h, pc)) && Same(s, Exit(s, h))
  {
  }

  lemma ExecutorSame(s: State, a: Action, s': State)
    requires Step(s, a, s') && (a.AExecutorStart? || a.AExecutorRound? || a.AExecutorWakes? || a.AExecutorBack?)
    requires a.h != INSPECTOR
    ensures Same(s, s')
  {
    match a
    case AExecutorStart(h) => MovedSame(s, h, ETop(false));
    case AExecutorRound(h) => RoundSame(s, s', h);
    case AExecutorWakes(h, timedOut) => MovedSame(s, h, EWoken(s.threads[h].to || timedOut));
    case AExecutorBack(h) => MovedSame(s.(idle := s.idle - 1), h, EDrain(s.threads[h].to));
  }

  lemma RoundSame(s: State, s': State, h: ThreadId)
    requires ExecutorRound(s, s', h) && h != INSPECTOR
    ensures Same(s, s')
  {
  }

  lemma DrainSame(s: State, s': State, h: ThreadId)
    requires ExecutorDrain(s, s', h) && h != INSPECTOR
    ensures Same(s, s')
  {
  }

  lemma DoneSame(s: State, s': State, h: ThreadId)
    requires ExecutorDone(s, s', h) && h != INSPECTOR
    ensures Same(s, s')
  {
  }

  lemma DeleterSame(s: State, a: Action, s': State)
    requires Step(s, a, s') && (a.ADeleterWakes? || a.ADeleterBack?)
    ensures Same(s, s')
  {
  }

  /** The threads of executors are not the inspector's. */
  lemma ExecutorsApart(s: State, a: Action, s': State)
    requires RunsOk(s) && Step(s, a, s')
    requires ByExecutor(a)
    ensures a.h != INSPECTOR
  {
  }

  // ---- the inspector's own steps ----

  lemma RoundAlert(s: State, s': State, now: nat, pick: Option<ThreadId>, made: ThreadId)
    requires InspectorRound(s, s', now, pick, made)
    ensures PhaseOk(s') && Alert(Watch(s', false))
  {
    if s.phase != Destroy && s.table != {} {
      var t :| IsFirst(s, t) && InspectorLooks(s, s', t, now, pick, made);
      if now >= s.timers[t].expire {
        FireAwake(s, t, pick, made);
      }
    }
  }

  lemma FireAwake(s: State, t: TimerId, pick: Option<ThreadId>, made: ThreadId)
    requires t in s.timers && INSPECTOR in s.threads && MayFire(s, pick, made) && !s.threads[INSPECTOR].EWait?
    ensures !Asleep(Fire(s, t, pick, made)) && PhaseOk(Fire(s, t, pick, made))
  {
    var s1 := Remove(SetPc(s.(phase := Shooting), INSPECTOR, ITop), t);
    var s2 := if s.timers[t].cycle then Insert(s1, t) else s1;
    assert s2.threads == s.threads[INSPECTOR := ITop] && s2.phase == Shooting;
    if !s.timers[t].pending && !s.timers[t].executing && s.timers[t].threaded {
      StaffedAwake(Enlisted(s2, t), pick, made);
    }
  }

  lemma StaffedAwake(s: State, pick: Option<ThreadId>, made: ThreadId)
    requires INSPECTOR in s.threads && s.threads[INSPECTOR] == ITop && made != INSPECTOR
    ensures INSPECTOR in Staffed(s, pick, made).threads && Staffed(s, pick, made).threads[INSPECTOR] == ITop
    ensures Staffed(s, pick, made).phase == s.phase
  {
  }

  lemma BackAlert(s: State, s': State, timedOut: bool, now: nat, pick: Option<ThreadId>, made: ThreadId)
    requires InspectorBack(s, s', timedOut, now, pick, made)
    ensures PhaseOk(s') && Alert(Watch(s', false))
  {
    if s.running.Some? && timedOut {
      FireAwake(s.(running := None), s.threads[INSPECTOR].timer, pick, made);
    }
  }

  lemma WokenAlert(s: State, s': State)
    requires InspectorWoken(s, s') || InspectorDone(s, s')
    ensures PhaseOk(s') && Alert(Watch(s', false))
  {
  }

  // ---- the callers ----

  /** What a re-arming does to the table: `t` is in it, with its new expiry; nothing else changes. */
  ghost predicate Armed(s: State, s': State, t: TimerId) {
    && t in s.timers && s'.table == s.table + {t} && s'.running == s.running && s'.phase == s.phase
    && s'.threads == s.threads
    && s'.timers.Keys == s.timers.Keys
    && forall u :: u in s.timers && u != t ==> s'.timers[u].expire == s.timers[u].expire
  }

  lemma AddArms(s: State, s': State, t: TimerId, cycle: bool, threaded: bool, interval: nat, now: nat)
    requires Add(s, s', t, cycle, threaded, interval, now) && KeysOk(s)
    ensures if AddSucceeds(s, t) then Armed(s, s', t) else s' == s
  {
    if AddSucceeds(s, t) {
      var x := Timer(true, false, false, false, false, false, cycle, threaded, interval, now,
                     s.timers[t].timerid, s.timers[t].thread);
      InsertArms(s, s.(timers := s.timers[t := x]), t);
    }
  }

  lemma InsertArms(s: State, s1: State, t: TimerId)
    requires t in s.timers && s1.timers.Keys == s.timers.Keys && s1.table + {t} == s.table + {t}
    requires s1.running == s.running
    requires s1.phase == s.phase && s1.threads == s.threads && s1.nextId == s.nextId
    requires forall u :: u in s.timers && u != t ==> s1.timers[u] == s.timers[u]
    requires KeysOk(s) && s1.timers[t].timerid == s.timers[t].timerid
    ensures Armed(s, Insert(s1, t), t)
  {
  }

  lemma ModifyArms(s: State, s': State, t: TimerId, interval: nat, now: nat)
    requires Modify(s, s', t, interval, now) && KeysOk(s)
    ensures if DeleteFails(s, t) then s' == s else Armed(s, s', t)
  {
    if !DeleteFails(s, t) {
      var s1 := if s.timers[t].mounted then Remove(s, t) else s;
      InsertArms(s, s1.(timers := s1.timers[t := s1.timers[t].(interval := interval, expire := now)]), t);
    }
  }

  /** Re-arming a timer leaves the inspector alert exactly if it is signalled, or was not asleep, or waits for a
      time that is not later. */
  lemma ArmedAlert(s: State, s': State, t: TimerId)
    requires Armed(s, s', t) && PhaseOk(s) && Alert(Watch(s, false)) && s.table <= s.timers.Keys && RunningOk(s)
    ensures Asleep(s) && s.threads[INSPECTOR].ITimed? && s.running != Some(t) && !Sooner(s', t) ==>
      Alert(Watch(s', false))
    ensures !Asleep(s) ==> Alert(Watch(s', false))
    ensures Asleep(s) && s.threads[INSPECTOR].IWait? ==> !Alert(Watch(s', false))
  {
  }

  /** Nothing enters the table, and expiries stay. */
  ghost predicate Thinned(s: State, s': State) {
    && s'.threads == s.threads && s'.phase == s.phase && s'.table <= s.table
    && s'.timers.Keys == s.timers.Keys && forall u :: u in s.timers ==> s'.timers[u].expire == s.timers[u].expire
  }

  lemma UnmountedLeaves(s: State, t: TimerId)
    requires t in s.timers
    ensures Thinned(s, Unmounted(s, t))
    ensures Unmounted(s, t).running == s.running || (s.timers[t].mounted && s.running == Some(t))
  {
  }

  lemma ExitLeaves(s: State, s': State, t: TimerId, call: CallId, self: Option<ThreadId>)
    requires t in s.timers && TimerExit(s, s', t, call, self)
    ensures Thinned(s, s') && s'.running == s.running
  {
  }

  lemma DeleteLeaves(s: State, s': State, t: TimerId, call: CallId, self: Option<ThreadId>)
    requires Delete(s, s', t, call, self)
    ensures Thinned(s, s') && (s'.running == s.running || Signalled(s, ADelete(t, call, self), s'))
  {
    if !DeleteFails(s, t) {
      UnmountedLeaves(s, t);
      ExitLeaves(Unmounted(s, t), s', t, call, self);
    }
  }

  lemma ThinnedAlert(s: State, s': State)
    requires Thinned(s, s') && s'.running == s.running && PhaseOk(s) && Alert(Watch(s, false))
    ensures Alert(Watch(s', false))
  {
  }

  lemma ThinnedPhase(s: State, s': State)
    requires Thinned(s, s') && PhaseOk(s)
    ensures PhaseOk(s') && Asleep(s') == Asleep(s)
  {
  }

  lemma DestroyWatches(s: State, s': State)
    requires DestroyBegins(s, s') && PhaseOk(s) && RunsOk(s)
    ensures PhaseOk(s') && Asleep(s') == Asleep(s)
    ensures s' == s || (Asleep(s) ==> Signalled(s, ADestroy, s'))
  {
  }

  // ---- every step ----

  lemma AddAlert(w: Watch, a: Action, w': Watch)
    requires a.AAdd? && WatchStep(w, a, w') && PhaseOk(w.s) && Alert(w) && FlagsOk(w.s) && KeysOk(w.s) && RunningOk(w.s)
    ensures PhaseOk(w'.s) && Alert(w')
  {
    AddArms(w.s, w'.s, a.t, a.cycle, a.threaded, a.interval, a.now);
    if AddSucceeds(w.s, a.t) {
      ArmedPhase(w.s, w'.s, a.t);
      if !w.signalled && !w'.signalled {
        ArmedAlert(w.s, w'.s, a.t);
      }
    }
  }

  lemma ArmedPhase(s: State, s': State, t: TimerId)
    requires Armed(s, s', t) && PhaseOk(s)
    ensures PhaseOk(s') && Asleep(s') == Asleep(s)
  {
  }

  lemma ModifyAlert(w: Watch, a: Action, w': Watch)
    requires a.AModify? && WatchStep(w, a, w') && PhaseOk(w.s) && Alert(w) && FlagsOk(w.s) && KeysOk(w.s)
    requires RunningOk(w.s)
    ensures PhaseOk(w'.s) && (Alert(w') <==> !Missed(w, a))
  {
    ModifyArms(w.s, w'.s, a.t, a.interval, a.now);
    if !DeleteFails(w.s, a.t) {
      ArmedPhase(w.s, w'.s, a.t);
      if !w.signalled {
        ArmedAlert(w.s, w'.s, a.t);
      }
    }
  }

  lemma DeleteAlert(w: Watch, a: Action, w': Watch)
    requires a.ADelete? && WatchStep(w, a, w') && PhaseOk(w.s) && Alert(w)
    ensures PhaseOk(w'.s) && Alert(w')
  {
    DeleteLeaves(w.s, w'.s, a.t, a.call, a.self);
    ThinnedPhase(w.s, w'.s);
    if !w.signalled && !w'.signalled && Asleep(w.s) {
      ThinnedAlert(w.s, w'.s);
    }
  }

  lemma DestroyAlert(w: Watch, a: Action, w': Watch)
    requires a.ADestroy? && WatchStep(w, a, w') && PhaseOk(w.s) && Alert(w) && RunsOk(w.s)
    ensures PhaseOk(w'.s) && Alert(w')
  {
    DestroyWatches(w.s, w'.s);
  }

  lemma InspectorAlert(w: Watch, a: Action, w': Watch)
    requires ByInspector(a) && WatchStep(w, a, w')
    ensures PhaseOk(w'.s) && Alert(w')
  {
    match a
    case AInspectorRound(now, pick, made) => RoundAlert(w.s, w'.s, now, pick, made);
    case AInspectorWoken => WokenAlert(w.s, w'.s);
    case AInspectorBack(timedOut, now, pick, made) => BackAlert(w.s, w'.s, timedOut, now, pick, made);
    case AInspectorDone => WokenAlert(w.s, w'.s);
  }

  /** Executors and woken deleters. */
  predicate ByOthers(a: Action) {
    !ByInspector(a) && !a.AAdd? && !a.AModify? && !a.ADelete? && !a.ADestroy?
  }

  lemma OthersSame(s: State, a: Action, s': State)
    requires ByOthers(a) && Step(s, a, s') && RunsOk(s)
    ensures Same(s, s')
  {
    if a.ADeleterWakes? || a.ADeleterBack? {
      DeleterSame(s, a, s');
    } else {
      ExecutorsApart(s, a, s');
      match a
      case AExecutorDrain(h) => DrainSame(s, s', h);
      case AExecutorDone(h) => DoneSame(s, s', h);
      case _ => ExecutorSame(s, a, s');
    }
  }

  lemma OtherAlert(w: Watch, a: Action, w': Watch)
    requires ByOthers(a) && WatchStep(w, a, w') && PhaseOk(w.s) && Alert(w) && RunsOk(w.s)
    ensures PhaseOk(w'.s) && Alert(w')
  {
    OthersSame(w.s, a, w'.s);
    SameKeeps(w.s, w'.s, w.signalled);
  }

  /** A step leaves the inspector alert exactly if it is not a timer_mod that it misses. */
  lemma StepAlert(w: Watch, a: Action, w': Watch)
    requires SafetyInv(w.s) && PhaseOk(w.s) && Alert(w) && WatchStep(w, a, w')
    ensures PhaseOk(w'.s) && (Alert(w') <==> !Missed(w, a))
  {
    if ByInspector(a) {
      InspectorAlert(w, a, w');
    } else if a.AAdd? {
      AddAlert(w, a, w');
    } else if a.AModify? {
      ModifyAlert(w, a, w');
    } else if a.ADelete? {
      DeleteAlert(w, a, w');
    } else if a.ADestroy? {
      DestroyAlert(w, a, w');
    } else {
      OtherAlert(w, a, w');
    }
  }

  // ---- runs ----

  ghost predicate WatchRun(ws: seq<Watch>, actions: seq<Action>) {
    && |ws| == |actions| + 1 && Init(ws[0].s) && !ws[0].signalled
    && forall i {:trigger actions[i]} :: 0 <= i < |actions| ==> WatchStep(ws[i], actions[i], ws[i + 1])
  }

  /** Up to the first missed timer_mod, no mounted timer is slept past. */
  lemma {:induction false} NeverSleptPast(ws: seq<Watch>, actions: seq<Action>, n: nat)
    requires WatchRun(ws, actions) && n <= |actions|
    requires forall i :: 0 <= i < n ==> !Missed(ws[i], actions[i])
    ensures SafetyInv(ws[n].s) && PhaseOk(ws[n].s) && Alert(ws[n])
  {
    if n == 0 {
      InitSafe(ws[0].s);
    } else {
      NeverSleptPast(ws, actions, n - 1);
      StepSafe(ws[n - 1].s, actions[n - 1], ws[n].s);
      StepAlert(ws[n - 1], actions[n - 1], ws[n]);
    }
  }

  /** And the missed one is slept past: the timer is mounted, the inspector waits without a deadline and unsignalled. */
  lemma MissedSleeps(w: Watch, a: Action, w': Watch)
    requires SafetyInv(w.s) && PhaseOk(w.s) && WatchStep(w, a, w') && Missed(w, a)
    ensures a.t in w'.s.table && w'.s.threads[INSPECTOR] == IWait && !w'.signalled
  {
    ModifyArms(w.s, w'.s, a.t, a.interval, a.now);
  }

  /** Only another timer_add, a destroy or a wake-up without a signal gets the inspector out of that. */
  lemma StaysAsleep(w: Watch, a: Action, w': Watch)
    requires SafetyInv(w.s) && PhaseOk(w.s) && WatchStep(w, a, w')
    requires INSPECTOR in w.s.threads && w.s.threads[INSPECTOR] == IWait && !w.signalled
    requires !a.AInspectorWoken? && !a.AAdd? && !a.ADestroy?
    ensures INSPECTOR in w'.s.threads && w'.s.threads[INSPECTOR] == IWait && !w'.signalled
  {
    if a.AModify? {
      ModifyArms(w.s, w'.s, a.t, a.interval, a.now);
    } else if a.ADelete? {
      DeleteLeaves(w.s, w'.s, a.t, a.call, a.self);
    } else if ByOthers(a) {
      OthersSame(w.s, a, w'.s);
    }
  }

  // ---- one such run ----

  /** A one-shot timer of 5 ticks in a base with one inspector, after each step. */
  ghost function Tick(x: Timer, nextId: nat, phase: Phase, pc: Pc): State {
    State(map[1 := x], if x.mounted then {1} else {}, [], nextId, None, phase, 1, 0, map[INSPECTOR := pc], map[],
          Options(1, 2, 0), false)
  }

  const Idle: Timer := Timer(false, false, false, false, false, false, false, false, 0, 0, 0, 0)
  const Armed5: Timer := Timer(true, true, false, false, false, false, false, false, 5, 5, 0, 0)
  const Shot: Timer := Armed5.(mounted := false, executing := true)
  const Fired: Timer := Armed5.(mounted := false)
  const Again: Timer := Armed5.(expire := 15, timerid := 1)

  lemma FirstSteps()
    ensures Init(Tick(Idle, 0, Initial, ITop))
    ensures Step(Tick(Idle, 0, Initial, ITop), AInspectorRound(0, None, 1), Tick(Idle, 0, Waiting, IWait))
    ensures Step(Tick(Idle, 0, Waiting, IWait), AAdd(1, false, false, 5, 0), Tick(Armed5, 1, Waiting, IWait))
    ensures Step(Tick(Armed5, 1, Waiting, IWait), AInspectorWoken, Tick(Armed5, 1, Waiting, ITop))
  {
    var s := Tick(Idle, 0, Waiting, IWait);
    var x := Timer(true, false, false, false, false, false, false, false, 5, 0, 0, 0);
    assert Insert(s.(timers := s.timers[1 := x]), 1) == Tick(Armed5, 1, Waiting, IWait);
  }

  lemma FiringStep()
    ensures Step(Tick(Armed5, 1, Waiting, ITop), AInspectorRound(5, None, 1), Tick(Shot, 1, Shooting, IExec(1)))
  {
    var s := Tick(Armed5, 1, Waiting, ITop);
    assert IsFirst(s, 1) && MayFire(s, None, 1);
    assert Fire(s, 1, None, 1) == Tick(Shot, 1, Shooting, IExec(1));
    assert InspectorLooks(s, Tick(Shot, 1, Shooting, IExec(1)), 1, 5, None, 1);
  }

  lemma CallbackStep()
    ensures Step(Tick(Shot, 1, Shooting, IExec(1)), AInspectorDone, Tick(Fired, 1, Shooting, ITop))
    ensures Step(Tick(Fired, 1, Shooting, ITop), AInspectorRound(6, None, 1), Tick(Fired, 1, Waiting, IWait))
  {
  }

  lemma MissingStep()
    ensures Step(Tick(Fired, 1, Waiting, IWait), AModify(1, 5, 10), Tick(Again, 2, Waiting, IWait))
    ensures Missed(Watch(Tick(Fired, 1, Waiting, IWait), false), AModify(1, 5, 10))
  {
    var s := Tick(Fired, 1, Waiting, IWait);
    assert !DeleteFails(s, 1);
    assert Insert(s.(timers := s.timers[1 := Fired.(interval := 5, expire := 10)]), 1) ==
      Tick(Again, 2, Waiting, IWait);
  }

  /** The moments of the run, and what is done at each. */
  ghost function Moment(i: nat): Watch {
    match i
    case 0 => Watch(Tick(Idle, 0, Initial, ITop), false)
    case 1 => Watch(Tick(Idle, 0, Waiting, IWait), false)
    case 2 => Watch(Tick(Armed5, 1, Waiting, IWait), true)
    case 3 => Watch(Tick(Armed5, 1, Waiting, ITop), false)
    case 4 => Watch(Tick(Shot, 1, Shooting, IExec(1)), false)
    case 5 => Watch(Tick(Fired, 1, Shooting, ITop), false)
    case 6 => Watch(Tick(Fired, 1, Waiting, IWait), false)
    case _ => Watch(Tick(Again, 2, Waiting, IWait), false)
  }

  ghost function Deed(i: nat): Action {
    match i
    case 0 => AInspectorRound(0, None, 1)
    case 1 => AAdd(1, false, false, 5, 0)
    case 2 => AInspectorWoken
    case 3 => AInspectorRound(5, None, 1)
    case 4 => AInspectorDone
    case 5 => AInspectorRound(6, None, 1)
    case _ => AModify(1, 5, 10)
  }

  lemma MomentStep(i: nat)
    requires i < 7
    ensures WatchStep(Moment(i), Deed(i), Moment(i + 1))
  {
    if i < 3 {
      FirstSteps();
    } else if i == 3 {
      FiringStep();
    } else if i < 6 {
      CallbackStep();
    } else {
      MissingStep();
    }
  }

  /** A one-shot timer that has fired is re-armed by timer_mod, and nobody wakes the inspector. */
  lemma MissedRun() returns (ws: seq<Watch>, actions: seq<Action>)
    ensures WatchRun(ws, actions) && |actions| == 7 && Missed(ws[6], actions[6]) && !Alert(ws[7])
  {
    ws := seq(8, (i: nat) => Moment(i));
    actions := seq(7, (i: nat) => Deed(i));
    forall i | 0 <= i < 7
      ensures WatchStep(ws[i], actions[i], ws[i + 1])
    {
      MomentStep(i);
    }
    FirstSteps();
    MissingStep();
  }
}
