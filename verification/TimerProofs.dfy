/** Safety of the timer engine over every run of TimerModel. */
module TimerProofs {
  import opened Wrappers
  import opened Sequences
  import opened TimerModel

  // ---- the invariant ----

  /** The timer whose callback a thread is running. */
  ghost function Runs(pc: Pc): Option<TimerId> {
    match pc
    case IExec(t) => Some(t)
    case EExec(t, _) => Some(t)
    case _ => None
  }

  predicate OfInspector(pc: Pc) {
    pc.ITop? || pc.IWait? || pc.ITimed? || pc.IExec?
  }

  /** MOUNTED means in the tree; only active timers are; PENDING excludes EXECUTING. */
  ghost predicate FlagsIn(timers: map<TimerId, Timer>, table: set<TimerId>) {
    && table <= timers.Keys
    && forall t :: t in timers ==>
         var x := timers[t];
         && (x.mounted <==> t in table)
         && (x.mounted ==> x.active) && (x.detach ==> !x.active) && !(x.pending && x.executing)
  }

  ghost predicate FlagsOk(s: State) {
    FlagsIn(s.timers, s.table)
  }

  /** PENDING means on the expired list, once. */
  ghost predicate ListIn(expired: seq<TimerId>, timers: map<TimerId, Timer>) {
    && NoRepeat(expired)
    && (forall i :: 0 <= i < |expired| ==> expired[i] in timers)
    && (forall t :: t in timers ==> (timers[t].pending <==> t in expired))
  }

  ghost predicate ListOk(s: State) {
    ListIn(s.expired, s.timers)
  }

  /** EXECUTING means that exactly the thread recorded in the timer runs its callback. */
  ghost predicate RunsIn(threads: map<ThreadId, Pc>, timers: map<TimerId, Timer>) {
    && (forall h :: h in threads ==> (OfInspector(threads[h]) <==> h == INSPECTOR))
    && (forall h :: h in threads && Runs(threads[h]).Some? ==>
          var t := Runs(threads[h]).value;
          t in timers && timers[t].executing && timers[t].thread == h)
    && (forall t :: t in timers && timers[t].executing ==>
          timers[t].thread in threads && Runs(threads[timers[t].thread]) == Some(t))
  }

  ghost predicate RunsOk(s: State) {
    RunsIn(s.threads, s.timers)
  }

  /** Keys in the tree are distinct: every insertion draws a new timerid. */
  ghost predicate KeysIn(table: set<TimerId>, timers: map<TimerId, Timer>, nextId: nat) {
    && (forall t :: t in table && t in timers ==> timers[t].timerid < nextId)
    && (forall t, u :: t in table && u in table && t in timers && u in timers && t != u ==>
          timers[t].timerid != timers[u].timerid)
  }

  ghost predicate KeysOk(s: State) {
    KeysIn(s.table, s.timers, s.nextId)
  }

  /** The timer the inspector waits for is in the tree unless it was removed meanwhile. */
  ghost predicate RunningIn(running: Option<TimerId>, table: set<TimerId>, threads: map<ThreadId, Pc>) {
    running.Some? ==>
      && running.value in table
      && INSPECTOR in threads && threads[INSPECTOR].ITimed? && threads[INSPECTOR].timer == running.value
  }

  ghost predicate RunningOk(s: State) {
    RunningIn(s.running, s.table, s.threads)
  }

  /** A delete that has not returned keeps the timer inactive; while it is blocked and not yet
      notified, WAITING is set and the wake-up is still to come. */
  ghost predicate DeletersIn(deleters: map<CallId, Del>, timers: map<TimerId, Timer>) {
    && (forall d :: d in deleters ==> deleters[d].timer in timers && !timers[deleters[d].timer].active)
    && (forall d :: d in deleters && deleters[d].DWait? ==>
          var x := timers[deleters[d].timer];
          x.waiting && (x.pending || x.executing))
    && (forall d, e :: d in deleters && e in deleters && d != e ==> deleters[d].timer != deleters[e].timer)
  }

  ghost predicate DeletersOk(s: State) {
    DeletersIn(s.deleters, s.timers)
  }

  /** A timer that is inactive but still queued or running has a delete waiting for it, or deleted
      itself. */
  ghost predicate OrphansIn(timers: map<TimerId, Timer>, deleters: map<CallId, Del>) {
    forall t :: t in timers && !timers[t].active && (timers[t].pending || timers[t].executing) ==>
      (timers[t].executing && timers[t].detach) || exists d :: d in deleters && deleters[d].timer == t
  }

  ghost predicate OrphansOk(s: State) {
    OrphansIn(s.timers, s.deleters)
  }

  ghost predicate SafetyInv(s: State) {
    FlagsOk(s) && ListOk(s) && RunsOk(s) && KeysOk(s) && RunningOk(s) && DeletersOk(s) && OrphansOk(s)
  }

  // ---- building blocks keep it ----

  /** The unchecked rb_insert of timer_insert always succeeds. */
  lemma InsertSucceeds(s: State, t: TimerId)
    requires t in s.timers && KeysOk(s)
    ensures Insert(s, t).table == s.table + {t}
  {
  }

  /** A mounted timer is found by timer_search. */
  lemma SearchFinds(s: State, t: TimerId)
    requires t in s.timers && FlagsOk(s) && KeysOk(s)
    ensures Search(s, t) <==> s.timers[t].mounted
  {
  }

  lemma InitSafe(s: State)
    requires Init(s)
    ensures SafetyInv(s)
  {
  }

  /** A thread that is in no callback moves to another such place. */
  lemma MovedSafe(s: State, h: ThreadId, pc: Pc)
    requires SafetyInv(s) && Runs(pc) == None && (OfInspector(pc) <==> h == INSPECTOR)
    requires h in s.threads ==> Runs(s.threads[h]) == None
    requires s.running.Some? ==> h != INSPECTOR || (pc.ITimed? && pc.timer == s.running.value)
    ensures SafetyInv(SetPc(s, h, pc))
  {
  }

  lemma ExitSafe(s: State, h: ThreadId)
    requires SafetyInv(s) && h in s.threads && Runs(s.threads[h]) == None && (h == INSPECTOR ==> s.running == None)
    ensures SafetyInv(Exit(s, h))
  {
  }

  /** After the callback nobody is left blocked on the timer. */
  lemma CleanupDeleters(s: State, t: TimerId)
    requires SafetyInv(s) && t in s.timers && s.timers[t].executing
    ensures DeletersOk(Cleanup(s, t)) && OrphansOk(Cleanup(s, t))
  {
    var s' := Cleanup(s, t);
    assert forall d :: d in s.deleters ==> d in s'.deleters && s'.deleters[d].timer == s.deleters[d].timer;
    CleanupWakes(s, t);
    forall u | u in s'.timers && !s'.timers[u].active && (s'.timers[u].pending || s'.timers[u].executing)
      ensures (s'.timers[u].executing && s'.timers[u].detach)
        || exists d :: d in s'.deleters && s'.deleters[d].timer == u
    {
      assert u != t && s'.timers[u] == s.timers[u];
    }
  }

  lemma CleanupWakes(s: State, t: TimerId)
    requires t in s.timers && DeletersOk(s)
    ensures DeletersOk(Cleanup(s, t))
  {
    var s' := Cleanup(s, t);
    forall d | d in s'.deleters && s'.deleters[d].DWait?
      ensures s'.deleters[d].timer != t && s.deleters[d].DWait?
    {
      assert s.deleters[d].timer in s.timers;
    }
  }

  lemma CleanupSafe(s: State, h: ThreadId, pc: Pc)
    requires SafetyInv(s) && h in s.threads && Runs(s.threads[h]).Some? && Runs(pc) == None
    requires OfInspector(pc) <==> h == INSPECTOR
    requires h == INSPECTOR ==> s.running == None
    ensures Runs(s.threads[h]).value in s.timers
    ensures SafetyInv(SetPc(Cleanup(s, Runs(s.threads[h]).value), h, pc))
  {
    var t := Runs(s.threads[h]).value;
    CleanupDeleters(s, t);
    var s' := SetPc(Cleanup(s, t), h, pc);
    assert s'.deleters == Cleanup(s, t).deleters && s'.timers == Cleanup(s, t).timers;
  }

  lemma RemoveSafe(s: State, t: TimerId)
    requires SafetyInv(s) && t in s.timers && s.running != Some(t)
    ensures SafetyInv(Remove(s, t))
  {
    TreeChangeKeeps(s, Remove(s, t));
  }

  lemma InsertSafe(s: State, t: TimerId)
    requires SafetyInv(s) && t in s.timers && s.timers[t].active && !s.timers[t].mounted
    ensures SafetyInv(Insert(s, t))
  {
    InsertSucceeds(s, t);
    TreeChangeKeeps(s, Insert(s, t));
  }

  /** A timer whose change deleters do not notice. */
  ghost predicate SameForDeleters(x: Timer, y: Timer) {
    && y.active == x.active && y.detach == x.detach && (x.waiting ==> y.waiting)
    && (x.executing ==> y.executing) && (x.pending ==> y.pending || y.executing)
    && (!x.active && (y.pending || y.executing) ==> x.pending || x.executing)
  }

  lemma DeletersKept(s: State, s': State)
    requires DeletersOk(s) && OrphansOk(s) && s'.deleters == s.deleters && s'.timers.Keys == s.timers.Keys
    requires forall u :: u in s.timers ==> SameForDeleters(s.timers[u], s'.timers[u])
    ensures DeletersOk(s') && OrphansOk(s')
  {
    forall u | u in s'.timers && !s'.timers[u].active && (s'.timers[u].pending || s'.timers[u].executing)
      ensures (s'.timers[u].executing && s'.timers[u].detach)
        || exists d :: d in s'.deleters && s'.deleters[d].timer == u
    {
      assert SameForDeleters(s.timers[u], s'.timers[u]);
    }
  }

  /** Only what concerns the tree differs between the two. */
  ghost predicate SameButTree(x: Timer, y: Timer) {
    && y.active == x.active && y.pending == x.pending && y.executing == x.executing
    && y.waiting == x.waiting && y.detach == x.detach && y.thread == x.thread
  }

  lemma TreeChangeKeeps(s: State, s': State)
    requires ListOk(s) && RunsOk(s) && DeletersOk(s) && OrphansOk(s)
    requires s'.threads == s.threads && s'.expired == s.expired && s'.deleters == s.deleters
    requires s'.timers.Keys == s.timers.Keys && forall u :: u in s.timers ==> SameButTree(s.timers[u], s'.timers[u])
    ensures ListOk(s') && RunsOk(s') && DeletersOk(s') && OrphansOk(s')
  {
    DeletersKept(s, s');
    assert forall u :: u in s'.timers ==> SameButTree(s.timers[u], s'.timers[u]);
  }

  /** Changing what only matters in the tree, on a timer that is not in it. */
  lemma RetimedSafe(s: State, t: TimerId, interval: nat, expire: nat)
    requires SafetyInv(s) && t in s.timers && !s.timers[t].mounted
    ensures SafetyInv(s.(timers := s.timers[t := s.timers[t].(interval := interval, expire := expire)]))
  {
    var s' := s.(timers := s.timers[t := s.timers[t].(interval := interval, expire := expire)]);
    TreeChangeKeeps(s, s');
  }

  lemma ExecuteSafe(s: State, t: TimerId, h: ThreadId, pc: Pc)
    requires SafetyInv(s) && t in s.timers && s.timers[t].active && !s.timers[t].pending && !s.timers[t].executing
    requires h in s.threads && Runs(s.threads[h]) == None && Runs(pc) == Some(t)
    requires OfInspector(pc) <==> h == INSPECTOR
    requires h == INSPECTOR ==> s.running == None
    ensures SafetyInv(Execute(s, t, h, pc))
  {
    DeletersKept(s, Execute(s, t, h, pc));
    ExecuteRuns(s, t, h, pc);
  }

  lemma ExecuteRuns(s: State, t: TimerId, h: ThreadId, pc: Pc)
    requires RunsOk(s) && t in s.timers && !s.timers[t].executing
    requires h in s.threads && Runs(s.threads[h]) == None && Runs(pc) == Some(t)
    requires OfInspector(pc) <==> h == INSPECTOR
    ensures RunsOk(Execute(s, t, h, pc))
  {
  }

  lemma QueuedList(s: State, t: TimerId)
    requires ListOk(s) && t in s.timers && !s.timers[t].pending
    ensures ListOk(Enlisted(s, t))
  {
    var s' := Enlisted(s, t);
    assert s'.expired[|s.expired|] == t;
    assert forall u :: u in s'.expired <==> u in s.expired || u == t;
  }

  lemma QueuedSafe(s: State, t: TimerId)
    requires SafetyInv(s) && t in s.timers && s.timers[t].active && !s.timers[t].pending && !s.timers[t].executing
    ensures SafetyInv(Enlisted(s, t))
  {
    var s' := Enlisted(s, t);
    QueuedList(s, t);
    DeletersKept(s, s');
  }

  /** Fields that the invariant does not read. */
  lemma OtherFields(s: State, s': State)
    requires SafetyInv(s)
    requires s'.timers == s.timers && s'.table == s.table && s'.expired == s.expired && s'.nextId == s.nextId
    requires s'.running == s.running && s'.threads == s.threads && s'.deleters == s.deleters
    ensures SafetyInv(s')
  {
  }

  lemma QueueSafe(s: State, t: TimerId, pick: Option<ThreadId>, made: ThreadId)
    requires SafetyInv(s) && t in s.timers && s.timers[t].active && !s.timers[t].pending && !s.timers[t].executing
    requires made !in s.threads && INSPECTOR in s.threads
    ensures SafetyInv(Queue(s, t, pick, made))
  {
    QueuedSafe(s, t);
    WokenSafe(Enlisted(s, t), pick, made);
  }

  lemma WokenSafe(s: State, pick: Option<ThreadId>, made: ThreadId)
    requires SafetyInv(s) && made !in s.threads && INSPECTOR in s.threads
    ensures SafetyInv(Staffed(s, pick, made))
  {
    if s.idle > 0 {
      if pick.Some? && pick.value in s.threads && s.threads[pick.value].EWait? {
        MovedSafe(s, pick.value, EWoken(s.threads[pick.value].to));
      }
    } else if s.nthreads < s.opt.threadMax {
      MovedSafe(s, made, EStart);
      OtherFields(SetPc(s, made, EStart), Staffed(s, pick, made));
    }
  }

  lemma FireSafe(s: State, t: TimerId, pick: Option<ThreadId>, made: ThreadId)
    requires SafetyInv(s) && t in s.table && t in s.timers && s.running == None
    requires INSPECTOR in s.threads && Runs(s.threads[INSPECTOR]) == None && made !in s.threads
    ensures SafetyInv(Fire(s, t, pick, made))
  {
    var s0 := s.(phase := Shooting);
    OtherFields(s, s0);
    MovedSafe(s0, INSPECTOR, ITop);
    var s1 := SetPc(s0, INSPECTOR, ITop);
    RemoveSafe(s1, t);
    var s2 := Remove(s1, t);
    if s.timers[t].cycle {
      InsertSafe(s2, t);
      s2 := Insert(s2, t);
    }
    if s.timers[t].pending || s.timers[t].executing {
    } else if s.timers[t].threaded {
      QueueSafe(s2, t, pick, made);
    } else {
      ExecuteSafe(s2, t, INSPECTOR, IExec(t));
    }
  }

  // ---- every step keeps it ----

  lemma NotRunning(s: State)
    requires SafetyInv(s)
    ensures SafetyInv(s.(running := None))
  {
  }

  lemma InspectorRoundSafe(s: State, s': State, now: nat, pick: Option<ThreadId>, made: ThreadId)
    requires SafetyInv(s) && InspectorRound(s, s', now, pick, made)
    ensures SafetyInv(s')
  {
    if s.phase == Destroy {
      ExitSafe(s, INSPECTOR);
    } else if s.table == {} {
      OtherFields(s, s.(phase := Waiting));
      MovedSafe(s.(phase := Waiting), INSPECTOR, IWait);
    } else {
      var t :| IsFirst(s, t) && InspectorLooks(s, s', t, now, pick, made);
      if now < s.timers[t].expire {
        TimingSafe(s, s', t);
      } else {
        FireSafe(s, t, pick, made);
      }
    }
  }

  lemma TimingSafe(s: State, s': State, t: TimerId)
    requires SafetyInv(s) && t in s.table && t in s.timers && INSPECTOR in s.threads && s.threads[INSPECTOR] == ITop
    requires s' == SetPc(s.(phase := Timing, running := Some(t)), INSPECTOR, ITimed(t, s.timers[t].expire))
    ensures SafetyInv(s')
  {
    OtherFields(s, s.(phase := Timing));
    MovedSafe(s.(phase := Timing), INSPECTOR, ITimed(t, s.timers[t].expire));
    assert SafetyInv(s'.(running := None));
  }

  lemma InspectorBackSafe(s: State, s': State, timedOut: bool, now: nat, pick: Option<ThreadId>, made: ThreadId)
    requires SafetyInv(s) && InspectorBack(s, s', timedOut, now, pick, made)
    ensures SafetyInv(s')
  {
    NotRunning(s);
    var s0 := s.(running := None);
    if s.running.None? || !timedOut {
      MovedSafe(s0, INSPECTOR, ITop);
    } else {
      FireSafe(s0, s.threads[INSPECTOR].timer, pick, made);
    }
  }

  lemma ExecutorRoundSafe(s: State, s': State, h: ThreadId)
    requires SafetyInv(s) && ExecutorRound(s, s', h)
    ensures SafetyInv(s')
  {
    if s.phase == Destroy {
      ExitSafe(s, h);
    } else {
      var s1 := s.(idle := s'.idle);
      OtherFields(s, s1);
      MovedSafe(s1, h, s'.threads[h]);
    }
  }

  /** What an executor does with the first of the list. */
  lemma Popped(s: State, s': State, h: ThreadId)
    requires ExecutorDrain(s, s', h) && s.expired != []
    ensures var t := s.expired[0];
      && t in s.timers
      && s' == s.(expired := s.expired[1..], threads := s.threads[h := EExec(t, s.threads[h].to)],
                  timers := s.timers[t := s.timers[t].(pending := false, executing := true, thread := h)])
  {
    var t := s.expired[0];
    assert s'.timers == s.timers[t := s.timers[t].(pending := false, executing := true, thread := h)];
  }

  lemma PoppedKeeps(s: State, s': State, t: TimerId, h: ThreadId, to: bool)
    requires SafetyInv(s) && s.expired != [] && t == s.expired[0] && h in s.threads && s.threads[h] == EDrain(to)
    requires t in s.timers && s.timers[t].pending
    requires s' == s.(expired := s.expired[1..], threads := s.threads[h := EExec(t, to)],
                      timers := s.timers[t := s.timers[t].(pending := false, executing := true, thread := h)])
    ensures SafetyInv(s')
  {
    PoppedList(s, s', t);
    PoppedRuns(s, s', t, h, to);
    PoppedOthers(s, s', t);
  }

  lemma PoppedOthers(s: State, s': State, t: TimerId)
    requires FlagsOk(s) && KeysOk(s) && RunningOk(s) && DeletersOk(s) && OrphansOk(s)
    requires INSPECTOR in s.threads ==> INSPECTOR in s'.threads && s'.threads[INSPECTOR] == s.threads[INSPECTOR]
    requires t in s.timers && s.timers[t].pending && t in s'.timers
    requires s'.timers ==
      s.timers[t := s.timers[t].(pending := false, executing := true, thread := s'.timers[t].thread)]
    requires s'.table == s.table && s'.nextId == s.nextId && s'.running == s.running && s'.deleters == s.deleters
    ensures FlagsOk(s') && KeysOk(s') && RunningOk(s') && DeletersOk(s') && OrphansOk(s')
  {
    DeletersKept(s, s');
    LifeChangeKeeps(s, s');
  }

  /** Only the progress of timers differs: the tree and who is active stay as they are. */
  lemma LifeChangeKeeps(s: State, s': State)
    requires FlagsOk(s) && KeysOk(s) && RunningOk(s)
    requires s'.table == s.table && s'.nextId == s.nextId && s'.running == s.running && s'.timers.Keys == s.timers.Keys
    requires INSPECTOR in s.threads ==> INSPECTOR in s'.threads && s'.threads[INSPECTOR] == s.threads[INSPECTOR]
    requires forall u :: u in s.timers ==>
      var x, y := s.timers[u], s'.timers[u];
      && y.mounted == x.mounted && y.active == x.active && y.detach == x.detach && y.timerid == x.timerid
      && !(y.pending && y.executing)
    ensures FlagsOk(s') && KeysOk(s') && RunningOk(s')
  {
  }

  lemma PoppedRuns(s: State, s': State, t: TimerId, h: ThreadId, to: bool)
    requires RunsOk(s) && t in s.timers && !s.timers[t].executing && h in s.threads && s.threads[h] == EDrain(to)
    requires s'.threads == s.threads[h := EExec(t, to)]
    requires s'.timers == s.timers[t := s.timers[t].(pending := false, executing := true, thread := h)]
    ensures RunsOk(s')
  {
  }

  lemma PoppedList(s: State, s': State, t: TimerId)
    requires ListOk(s) && s.expired != [] && t == s.expired[0] && s'.expired == s.expired[1..]
    requires s'.timers.Keys == s.timers.Keys
    requires forall u :: u in s.timers ==> s'.timers[u].pending == (s.timers[u].pending && u != t)
    ensures ListOk(s')
  {
    assert forall i :: 0 <= i < |s'.expired| ==> s'.expired[i] == s.expired[i + 1];
    assert forall u :: u in s.expired && u != t ==> u in s'.expired;
  }

  lemma ExecutorDrainSafe(s: State, s': State, h: ThreadId)
    requires SafetyInv(s) && ExecutorDrain(s, s', h)
    ensures SafetyInv(s')
  {
    var to := s.threads[h].to;
    if s.expired != [] {
      Popped(s, s', h);
      PoppedKeeps(s, s', s.expired[0], h, to);
    } else if to && s.nthreads > s.opt.threadMin {
      ExitSafe(s, h);
    } else {
      MovedSafe(s, h, ETop(to));
    }
  }

  /** One timer changed in place, with its queueing, running and tree membership as before. */
  lemma OneTimerKeeps(s: State, t: TimerId, x: Timer)
    requires SafetyInv(s) && t in s.timers
    requires var y := s.timers[t];
      && x.pending == y.pending && x.executing == y.executing && (x.executing ==> x.thread == y.thread)
      && x.mounted == y.mounted && (x.mounted ==> x.timerid == y.timerid)
      && (x.mounted ==> x.active) && (x.detach ==> !x.active)
    ensures var s' := s.(timers := s.timers[t := x]);
      FlagsOk(s') && ListOk(s') && RunsOk(s') && KeysOk(s') && RunningOk(s')
  {
    OneTimerRuns(s, t, x);
  }

  lemma OneTimerRuns(s: State, t: TimerId, x: Timer)
    requires RunsOk(s) && t in s.timers
    requires x.executing == s.timers[t].executing && (x.executing ==> x.thread == s.timers[t].thread)
    ensures RunsOk(s.(timers := s.timers[t := x]))
  {
  }

  lemma AddSafe(s: State, s': State, t: TimerId, cycle: bool, threaded: bool, interval: nat, now: nat)
    requires SafetyInv(s) && Add(s, s', t, cycle, threaded, interval, now)
    ensures SafetyInv(s')
  {
    if Working(s) && !s.timers[t].active {
      assert !s.timers[t].mounted && !s.timers[t].pending && !s.timers[t].executing;
      var x := Timer(true, false, false, false, false, false, cycle, threaded, interval, now,
                     s.timers[t].timerid, s.timers[t].thread);
      RearmedSafe(s, t, x);
      InsertSafe(s.(timers := s.timers[t := x]), t);
    }
  }

  lemma RearmedSafe(s: State, t: TimerId, x: Timer)
    requires SafetyInv(s) && AddAllowed(s, t) && !s.timers[t].mounted && !s.timers[t].pending && !s.timers[t].executing
    requires x.active && !x.mounted && !x.pending && !x.executing && !x.waiting && !x.detach
    ensures SafetyInv(s.(timers := s.timers[t := x]))
  {
    OneTimerKeeps(s, t, x);
    RearmedDeleters(s, t, x);
  }

  lemma RearmedDeleters(s: State, t: TimerId, x: Timer)
    requires DeletersOk(s) && OrphansOk(s) && AddAllowed(s, t) && x.active
    ensures DeletersOk(s.(timers := s.timers[t := x])) && OrphansOk(s.(timers := s.timers[t := x]))
  {
    var s' := s.(timers := s.timers[t := x]);
    forall u | u in s'.timers && !s'.timers[u].active && (s'.timers[u].pending || s'.timers[u].executing)
      ensures (s'.timers[u].executing && s'.timers[u].detach)
        || exists d :: d in s'.deleters && s'.deleters[d].timer == u
    {
      assert u != t && s'.timers[u] == s.timers[u];
    }
  }

  lemma UnmountedSafe(s: State, t: TimerId)
    requires SafetyInv(s) && t in s.timers
    ensures SafetyInv(Unmounted(s, t)) && Unmounted(s, t).deleters == s.deleters
    ensures t in Unmounted(s, t).timers && Unmounted(s, t).timers[t] == s.timers[t].(mounted := false)
  {
    if s.timers[t].mounted {
      NotRunning(s);
      if s.running == Some(t) {
        RemoveSafe(s.(running := None), t);
        assert Unmounted(s, t) == Remove(s.(running := None), t);
      } else {
        RemoveSafe(s, t);
      }
    }
  }

  /** A timer turned inactive, with whoever waits for it. */
  lemma DeletedDeleters(s: State, t: TimerId, x: Timer, deleters: map<CallId, Del>, call: CallId)
    requires DeletersOk(s) && OrphansOk(s) && t in s.timers && s.timers[t].active && call !in s.deleters && !x.active
    requires deleters == s.deleters || deleters == s.deleters[call := DWait(t)]
    requires if deleters == s.deleters then (!x.pending && !x.executing) || (x.executing && x.detach)
             else x.waiting && (x.pending || x.executing)
    ensures var s' := s.(timers := s.timers[t := x], deleters := deleters);
      DeletersOk(s') && OrphansOk(s')
  {
    var s' := s.(timers := s.timers[t := x], deleters := deleters);
    assert forall d :: d in s.deleters ==> s.deleters[d].timer != t;
    forall u | u in s'.timers && !s'.timers[u].active && (s'.timers[u].pending || s'.timers[u].executing)
      ensures (s'.timers[u].executing && s'.timers[u].detach)
        || exists d :: d in s'.deleters && s'.deleters[d].timer == u
    {
      if u == t {
        assert deleters != s.deleters ==> call in s'.deleters && s'.deleters[call].timer == t;
      } else if !(s.timers[u].executing && s.timers[u].detach) {
        var d :| d in s.deleters && s.deleters[d].timer == u;
        assert d in s'.deleters && s'.deleters[d].timer == u;
      }
    }
  }

  lemma DeletedSafe(s: State, t: TimerId, x: Timer, deleters: map<CallId, Del>, call: CallId)
    requires SafetyInv(s) && t in s.timers && s.timers[t].active && !s.timers[t].mounted
    requires x == s.timers[t].(active := false, waiting := x.waiting, detach := x.detach)
    requires call !in s.deleters && (deleters == s.deleters || deleters == s.deleters[call := DWait(t)])
    requires if deleters == s.deleters then (!x.pending && !x.executing) || (x.executing && x.detach)
             else x.waiting && (x.pending || x.executing)
    ensures SafetyInv(s.(timers := s.timers[t := x], deleters := deleters))
  {
    OneTimerKeeps(s, t, x);
    DeletedDeleters(s, t, x, deleters, call);
    var s1, s' := s.(timers := s.timers[t := x]), s.(timers := s.timers[t := x], deleters := deleters);
    assert s' == s1.(deleters := deleters);
    assert FlagsOk(s') && ListOk(s') && RunsOk(s') && KeysOk(s') && RunningOk(s');
  }

  lemma DeleteSafe(s: State, s': State, t: TimerId, call: CallId, self: Option<ThreadId>)
    requires SafetyInv(s) && Delete(s, s', t, call, self)
    ensures SafetyInv(s')
  {
    if !DeleteFails(s, t) {
      UnmountedSafe(s, t);
      ExitTimerSafe(Unmounted(s, t), s', t, call, self);
    }
  }

  /** timer_exit (lines 213 to 239). */
  lemma ExitTimerSafe(s: State, s': State, t: TimerId, call: CallId, self: Option<ThreadId>)
    requires SafetyInv(s) && t in s.timers && s.timers[t].active && !s.timers[t].mounted && call !in s.deleters
    requires TimerExit(s, s', t, call, self)
    ensures SafetyInv(s')
  {
    var x := s.timers[t].(active := false);
    if x.executing && self == Some(x.thread) {
      DeletedSafe(s, t, x.(detach := true), s.deleters, call);
    } else if x.pending || x.executing {
      assert call in s.deleters[call := DWait(t)];
      DeletedSafe(s, t, x.(waiting := true), s.deleters[call := DWait(t)], call);
    } else {
      DeletedSafe(s, t, x, s.deleters, call);
    }
  }

  lemma DeleterBackSafe(s: State, s': State, call: CallId)
    requires SafetyInv(s) && DeleterBack(s, s', call)
    ensures SafetyInv(s')
  {
    var t := s.deleters[call].timer;
    if s.timers[t].pending || s.timers[t].executing {
      OneTimerKeeps(s, t, s.timers[t].(waiting := true));
      WaitAgain(s, t, call);
    } else {
      OrphansWithout(s, call);
    }
  }

  lemma WaitAgain(s: State, t: TimerId, call: CallId)
    requires DeletersOk(s) && OrphansOk(s) && call in s.deleters && s.deleters[call] == DWoken(t) && t in s.timers
    requires s.timers[t].pending || s.timers[t].executing
    ensures var s' := s.(timers := s.timers[t := s.timers[t].(waiting := true)],
      deleters := s.deleters[call := DWait(t)]);
      DeletersOk(s') && OrphansOk(s')
  {
    var s' := s.(timers := s.timers[t := s.timers[t].(waiting := true)], deleters := s.deleters[call := DWait(t)]);
    WaitingDeleters(s.timers, s'.timers, s.deleters, s'.deleters, t, call);
    OrphansSame(s, s');
  }

  lemma WaitingDeleters(timers: map<TimerId, Timer>, timers': map<TimerId, Timer>,
                        deleters: map<CallId, Del>, deleters': map<CallId, Del>, t: TimerId, call: CallId)
    requires DeletersIn(deleters, timers) && call in deleters && deleters[call] == DWoken(t) && t in timers
    requires timers[t].pending || timers[t].executing
    requires timers' == timers[t := timers[t].(waiting := true)] && deleters' == deleters[call := DWait(t)]
    ensures DeletersIn(deleters', timers')
    ensures forall d :: d in deleters ==> d in deleters' && deleters'[d].timer == deleters[d].timer
  {
  }

  lemma OrphansSame(s: State, s': State)
    requires OrphansOk(s) && s'.timers.Keys == s.timers.Keys
    requires forall d :: d in s.deleters ==> d in s'.deleters && s'.deleters[d].timer == s.deleters[d].timer
    requires forall u :: u in s.timers ==> s'.timers[u] == s.timers[u].(waiting := s'.timers[u].waiting)
    ensures OrphansOk(s')
  {
    forall u | u in s'.timers && !s'.timers[u].active && (s'.timers[u].pending || s'.timers[u].executing)
      ensures (s'.timers[u].executing && s'.timers[u].detach)
        || exists d :: d in s'.deleters && s'.deleters[d].timer == u
    {
      assert s'.timers[u] == s.timers[u].(waiting := s'.timers[u].waiting);
    }
  }

  lemma OrphansWithout(s: State, call: CallId)
    requires OrphansOk(s) && call in s.deleters && s.deleters[call].timer in s.timers
    requires !s.timers[s.deleters[call].timer].pending && !s.timers[s.deleters[call].timer].executing
    ensures OrphansOk(s.(deleters := s.deleters - {call}))
  {
    var s' := s.(deleters := s.deleters - {call});
    forall u | u in s'.timers && !s'.timers[u].active && (s'.timers[u].pending || s'.timers[u].executing)
      ensures (s'.timers[u].executing && s'.timers[u].detach)
        || exists d :: d in s'.deleters && s'.deleters[d].timer == u
    {
      if !(s.timers[u].executing && s.timers[u].detach) {
        var d :| d in s.deleters && s.deleters[d].timer == u;
        assert d in s'.deleters && s'.deleters[d].timer == u;
      }
    }
  }

  lemma InsertRunning(s: State, t: TimerId, r: Option<TimerId>)
    requires t in s.timers
    ensures Insert(s.(running := r), t) == Insert(s, t).(running := r)
  {
    var x := s.timers[t].(expire := s.timers[t].expire + s.timers[t].interval, timerid := s.nextId);
    KeyAlone(s, s.(running := r), x);
  }

  /** Whether a key is taken is a matter of the table alone. */
  lemma KeyAlone(s: State, s': State, key: Timer)
    requires s'.table == s.table && s'.timers == s.timers
    ensures KeyTaken(s', key) <==> KeyTaken(s, key)
  {
  }

  lemma ModifySafe(s: State, s': State, t: TimerId, interval: nat, now: nat)
    requires SafetyInv(s) && Modify(s, s', t, interval, now)
    ensures SafetyInv(s')
  {
    if !DeleteFails(s, t) {
      NotRunning(s);
      var s0 := s.(running := None);
      ModifiedSafe(s0, t, interval, now);
      ModifiedRunning(s, s', t, interval, now);
      RunningAgain(Insert(Retimed(s0, t, interval, now), t), s.running);
    }
  }

  /** The timer being waited for plays no part in the re-arming. */
  lemma ModifiedRunning(s: State, s': State, t: TimerId, interval: nat, now: nat)
    requires Modify(s, s', t, interval, now) && !DeleteFails(s, t)
    ensures s' == Insert(Retimed(s.(running := None), t, interval, now), t).(running := s.running)
  {
    var s0 := s.(running := None);
    InsertRunning(Retimed(s0, t, interval, now), t, s.running);
    assert Retimed(s, t, interval, now) == Retimed(s0, t, interval, now).(running := s.running);
  }

  /** The timer out of the tree with its new interval, as timer_mod has it before re-inserting. */
  ghost function Retimed(s: State, t: TimerId, interval: nat, now: nat): State
    requires t in s.timers
  {
    var s1 := if s.timers[t].mounted then Remove(s, t) else s;
    s1.(timers := s1.timers[t := s1.timers[t].(interval := interval, expire := now)])
  }

  lemma ModifiedSafe(s: State, t: TimerId, interval: nat, now: nat)
    requires SafetyInv(s) && t in s.timers && s.timers[t].active && s.running == None
    ensures var s2 := Retimed(s, t, interval, now);
      SafetyInv(Insert(s2, t)) && Insert(s2, t).table == s.table + {t}
  {
    var s2 := Retimed(s, t, interval, now);
    RetimedIs(s, t, interval, now);
    InsertSafe(s2, t);
    InsertSucceeds(s2, t);
  }

  lemma RetimedIs(s: State, t: TimerId, interval: nat, now: nat)
    requires SafetyInv(s) && t in s.timers && s.timers[t].active && s.running == None
    ensures var s2 := Retimed(s, t, interval, now);
      && SafetyInv(s2) && t in s2.timers && s2.timers[t].active && !s2.timers[t].mounted && s2.running == None
      && s2.table + {t} == s.table + {t}
  {
    var s1 := if s.timers[t].mounted then Remove(s, t) else s;
    if s.timers[t].mounted {
      RemoveSafe(s, t);
    }
    RetimedSafe(s1, t, interval, now);
  }

  lemma RunningAgain(s: State, r: Option<TimerId>)
    requires SafetyInv(s) && RunningOk(s.(running := r))
    ensures SafetyInv(s.(running := r))
  {
  }

  lemma DestroySafe(s: State, s': State)
    requires SafetyInv(s) && DestroyBegins(s, s')
    ensures SafetyInv(s')
  {
  }

  lemma DeleterWakesSafe(s: State, s': State, call: CallId)
    requires SafetyInv(s) && DeleterWakes(s, s', call)
    ensures SafetyInv(s')
  {
    assert forall d :: d in s.deleters ==> d in s'.deleters && s'.deleters[d].timer == s.deleters[d].timer;
    OrphansSame(s, s');
  }

  /** Steps of the executors. */
  predicate ByExecutor(a: Action) {
    a.AExecutorStart? || a.AExecutorRound? || a.AExecutorWakes? || a.AExecutorBack? || a.AExecutorDrain?
      || a.AExecutorDone?
  }

  predicate ByInspector(a: Action) {
    a.AInspectorRound? || a.AInspectorWoken? || a.AInspectorBack? || a.AInspectorDone?
  }

  lemma ExecutorDoneSafe(s: State, s': State, h: ThreadId)
    requires SafetyInv(s) && ExecutorDone(s, s', h)
    ensures SafetyInv(s')
  {
    CleanupSafe(s, h, EDrain(s.threads[h].to));
  }

  lemma PoolStepSafe(s: State, a: Action, s': State)
    requires SafetyInv(s) && Step(s, a, s') && ByExecutor(a)
    ensures SafetyInv(s')
  {
    match a
    case AExecutorRound(h) => ExecutorRoundSafe(s, s', h);
    case AExecutorDrain(h) => ExecutorDrainSafe(s, s', h);
    case AExecutorDone(h) => ExecutorDoneSafe(s, s', h);
    case _ => PoolMoveSafe(s, a, s');
  }

  lemma PoolMoveSafe(s: State, a: Action, s': State)
    requires SafetyInv(s) && Step(s, a, s') && (a.AExecutorStart? || a.AExecutorWakes? || a.AExecutorBack?)
    ensures SafetyInv(s')
  {
    match a
    case AExecutorStart(h) => MovedSafe(s, h, ETop(false));
    case AExecutorWakes(h, timedOut) => MovedSafe(s, h, s'.threads[h]);
    case AExecutorBack(h) =>
      OtherFields(s, s.(idle := s.idle - 1));
      MovedSafe(s.(idle := s.idle - 1), h, s'.threads[h]);
  }

  lemma InspectorStepSafe(s: State, a: Action, s': State)
    requires SafetyInv(s) && Step(s, a, s') && ByInspector(a)
    ensures SafetyInv(s')
  {
    match a
    case AInspectorRound(now, pick, made) => InspectorRoundSafe(s, s', now, pick, made);
    case AInspectorWoken => MovedSafe(s, INSPECTOR, ITop);
    case AInspectorBack(timedOut, now, pick, made) => InspectorBackSafe(s, s', timedOut, now, pick, made);
    case AInspectorDone => CleanupSafe(s, INSPECTOR, ITop);
  }

  lemma CallerStepSafe(s: State, a: Action, s': State)
    requires SafetyInv(s) && Step(s, a, s') && !ByInspector(a) && !ByExecutor(a)
    ensures SafetyInv(s')
  {
    match a
    case AAdd(t, cycle, threaded, interval, now) => AddSafe(s, s', t, cycle, threaded, interval, now);
    case ADelete(t, call, self) => DeleteSafe(s, s', t, call, self);
    case ADeleterWakes(call) => DeleterWakesSafe(s, s', call);
    case ADeleterBack(call) => DeleterBackSafe(s, s', call);
    case AModify(t, interval, now) => ModifySafe(s, s', t, interval, now);
    case ADestroy => DestroySafe(s, s');
  }

  /** Every step of every thread and caller keeps the invariant. */
  lemma StepSafe(s: State, a: Action, s': State)
    requires SafetyInv(s) && Step(s, a, s')
    ensures SafetyInv(s')
  {
    if ByInspector(a) {
      InspectorStepSafe(s, a, s');
    } else if ByExecutor(a) {
      PoolStepSafe(s, a, s');
    } else {
      CallerStepSafe(s, a, s');
    }
  }

  // ---- runs ----

  /** The states and actions of a run: each action leads from a state to the next. */
  ghost predicate IsRun(states: seq<State>, actions: seq<Action>) {
    && |states| == |actions| + 1
    && forall i {:trigger actions[i]} :: 0 <= i < |actions| ==> Step(states[i], actions[i], states[i + 1])
  }

  lemma {:induction false} RunSafe(states: seq<State>, actions: seq<Action>, n: nat)
    requires IsRun(states, actions) && Init(states[0]) && n <= |actions|
    ensures SafetyInv(states[n])
  {
    if n == 0 {
      InitSafe(states[0]);
    } else {
      RunSafe(states, actions, n - 1);
      StepSafe(states[n - 1], actions[n - 1], states[n]);
    }
  }

  /** In every reachable state: MOUNTED exactly in the tree, PENDING exactly once on the list, never
      queued and running at once, at most one thread in the callback, and distinct keys. */
  lemma TimersConsistent(states: seq<State>, actions: seq<Action>, n: nat, t: TimerId)
    requires IsRun(states, actions) && Init(states[0]) && n <= |actions| && t in states[n].timers
    ensures var s := states[n];
      && (s.timers[t].mounted <==> t in s.table)
      && (s.timers[t].pending <==> multiset(s.expired)[t] == 1) && multiset(s.expired)[t] <= 1
      && !(s.timers[t].pending && s.timers[t].executing)
      && (s.timers[t].executing <==> exists h :: h in s.threads && Runs(s.threads[h]) == Some(t))
      && (forall h, k :: h in s.threads && k in s.threads && Runs(s.threads[h]) == Runs(s.threads[k]) == Some(t) ==>
            h == k)
      && Insert(s, t).table == s.table + {t}
  {
    RunSafe(states, actions, n);
    var s := states[n];
    CountOnce(s.expired, t);
    InsertSucceeds(s, t);
    if s.timers[t].executing {
      assert Runs(s.threads[s.timers[t].thread]) == Some(t);
    }
  }

  lemma {:induction false} CountOnce(q: seq<TimerId>, t: TimerId)
    requires NoRepeat(q)
    ensures multiset(q)[t] == if t in q then 1 else 0
  {
    if q != [] {
      var p, x := q[..|q| - 1], q[|q| - 1];
      assert q == p + [x];
      CountOnce(p, t);
    }
  }

  /** A blocked deleter that has not been notified is still to be woken: WAITING is set and the
      timer is queued or running, nobody else waits for it, and the cleanup that ends the callback
      wakes it. */
  lemma BlockedDeleter(states: seq<State>, actions: seq<Action>, n: nat, d: CallId)
    requires IsRun(states, actions) && Init(states[0]) && n <= |actions|
    requires d in states[n].deleters && states[n].deleters[d].DWait?
    ensures var s := states[n];
      var t := s.deleters[d].timer;
      && t in s.timers && s.timers[t].waiting && (s.timers[t].pending || s.timers[t].executing) && !s.timers[t].active
      && (forall e :: e in s.deleters && s.deleters[e].timer == t ==> e == d)
      && d in Cleanup(s, t).deleters && Cleanup(s, t).deleters[d] == DWoken(t)
  {
    RunSafe(states, actions, n);
  }

  // ---- after timer_del has returned ----

  /** Out of the tree, off the list, in no callback, and nothing but timer_add can change that. */
  ghost predicate Quiet(s: State, t: TimerId) {
    && t in s.timers
    && var x := s.timers[t]; !x.active && !x.mounted && !x.pending && !x.executing
  }

  /** timer_del by another thread than the callback's own returns only with the timer quiet. */
  lemma DeleteReturnsQuiet(s: State, a: Action, s': State, call: CallId)
    requires SafetyInv(s) && Step(s, a, s')
    requires a == ADeleterBack(call) && call in s.deleters && call !in s'.deleters
    ensures Quiet(s', s.deleters[call].timer)
  {
  }

  lemma DeleteAtOnceQuiet(s: State, a: Action, s': State, t: TimerId, call: CallId, self: Option<ThreadId>)
    requires SafetyInv(s) && a == ADelete(t, call, self) && Step(s, a, s')
    requires !DeleteFails(s, t) && call !in s'.deleters
    requires !(s.timers[t].executing && self == Some(s.timers[t].thread))
    ensures Quiet(s', t)
  {
    UnmountedSafe(s, t);
  }

  lemma FireOther(s: State, u: TimerId, pick: Option<ThreadId>, made: ThreadId, t: TimerId)
    requires u in s.timers && t in s.timers && t != u
    ensures t in Fire(s, u, pick, made).timers && Fire(s, u, pick, made).timers[t] == s.timers[t]
  {
    var s1 := Remove(SetPc(s.(phase := Shooting), INSPECTOR, ITop), u);
    var s2 := if s.timers[u].cycle then Insert(s1, u) else s1;
    assert t in s2.timers && s2.timers[t] == s.timers[t];
    assert t in Enlisted(s2, u).timers && Enlisted(s2, u).timers[t] == s.timers[t];
    assert Queue(s2, u, pick, made).timers == Enlisted(s2, u).timers;
  }

  /** Until the next timer_add nothing re-arms the timer: no inspector or executor step, no
      timer_mod, no second timer_del. */
  lemma QuietStays(s: State, a: Action, s': State, t: TimerId)
    requires SafetyInv(s) && Step(s, a, s') && Quiet(s, t) && !(a.AAdd? && a.t == t)
    ensures Quiet(s', t)
  {
    if a.AInspectorRound? || a.AInspectorBack? {
      QuietInspector(s, a, s', t);
    } else if a.ADelete? || a.ADeleterBack? || a.AModify? || a.AAdd? {
      QuietCallers(s, a, s', t);
    } else {
      QuietPool(s, a, s', t);
    }
  }

  lemma QuietInspector(s: State, a: Action, s': State, t: TimerId)
    requires FlagsOk(s) && RunningOk(s) && Step(s, a, s') && Quiet(s, t) && (a.AInspectorRound? || a.AInspectorBack?)
    ensures Quiet(s', t)
  {
    if a.AInspectorRound? {
      if s.phase != Destroy && s.table != {} {
        var u :| IsFirst(s, u) && InspectorLooks(s, s', u, a.now, a.pick, a.made);
        FireOther(s, u, a.pick, a.made, t);
      }
    } else if s.running.Some? && a.timedOut {
      FireOther(s.(running := None), s.threads[INSPECTOR].timer, a.pick, a.made, t);
    }
  }

  lemma QuietDelete(s: State, s': State, t: TimerId, u: TimerId, call: CallId, self: Option<ThreadId>)
    requires Quiet(s, t) && Delete(s, s', u, call, self)
    ensures Quiet(s', t)
  {
    if !DeleteFails(s, u) {
      assert u != t;
      assert Unmounted(s, u).timers[t] == s.timers[t];
    }
  }

  lemma QuietModify(s: State, s': State, t: TimerId, u: TimerId, interval: nat, now: nat)
    requires Quiet(s, t) && Modify(s, s', u, interval, now)
    ensures Quiet(s', t)
  {
  }

  lemma QuietAdd(s: State, s': State, t: TimerId, u: TimerId, cycle: bool, threaded: bool, interval: nat, now: nat)
    requires Quiet(s, t) && Add(s, s', u, cycle, threaded, interval, now) && u != t
    ensures Quiet(s', t)
  {
  }

  lemma QuietCallers(s: State, a: Action, s': State, t: TimerId)
    requires Step(s, a, s') && Quiet(s, t) && !(a.AAdd? && a.t == t)
    requires a.ADelete? || a.ADeleterBack? || a.AModify? || a.AAdd?
    ensures Quiet(s', t)
  {
    match a
    case ADelete(u, call, self) => QuietDelete(s, s', t, u, call, self);
    case AModify(u, interval, now) => QuietModify(s, s', t, u, interval, now);
    case AAdd(u, cycle, threaded, interval, now) => QuietAdd(s, s', t, u, cycle, threaded, interval, now);
    case ADeleterBack(call) =>
  }

  lemma QuietDrain(s: State, s': State, t: TimerId, h: ThreadId)
    requires ListOk(s) && Quiet(s, t) && ExecutorDrain(s, s', h)
    ensures Quiet(s', t)
  {
    if s.expired != [] {
      assert s.timers[s.expired[0]].pending;
    }
  }

  lemma QuietPool(s: State, a: Action, s': State, t: TimerId)
    requires ListOk(s) && RunsOk(s) && Step(s, a, s') && Quiet(s, t)
    requires !a.AInspectorRound? && !a.AInspectorBack?
    requires !a.ADelete? && !a.ADeleterBack? && !a.AModify? && !a.AAdd?
    ensures Quiet(s', t)
  {
    match a
    case AExecutorDrain(h) => QuietDrain(s, s', t, h);
    case AExecutorDone(h) => QuietCleanup(s, h, s.threads[h].timer, t);
    case AInspectorDone => QuietCleanup(s, INSPECTOR, s.threads[INSPECTOR].timer, t);
    case _ => QuietMoves(s, a, s', t);
  }

  lemma QuietCleanup(s: State, h: ThreadId, u: TimerId, t: TimerId)
    requires RunsOk(s) && Quiet(s, t) && h in s.threads && Runs(s.threads[h]) == Some(u) && u in s.timers
    ensures Quiet(Cleanup(s, u), t)
  {
  }

  lemma QuietMoves(s: State, a: Action, s': State, t: TimerId)
    requires Step(s, a, s') && Quiet(s, t)
    requires a.AInspectorWoken? || a.AExecutorStart? || a.AExecutorRound? || a.AExecutorWakes? || a.AExecutorBack?
      || a.ADeleterWakes? || a.ADestroy?
    ensures s'.timers == s.timers
  {
  }

  /** From a quiet state on, no thread runs the callback until timer_add is called for the timer. */
  lemma {:induction false} QuietUntilAdd(states: seq<State>, actions: seq<Action>, i: nat, j: nat, t: TimerId)
    requires IsRun(states, actions) && Init(states[0]) && i <= j <= |actions| && Quiet(states[i], t)
    requires forall k :: i <= k < j ==> !(actions[k].AAdd? && actions[k].t == t)
    ensures Quiet(states[j], t)
    ensures forall h :: h in states[j].threads ==> Runs(states[j].threads[h]) != Some(t)
    decreases j
  {
    RunSafe(states, actions, j);
    if i < j {
      QuietUntilAdd(states, actions, i, j - 1, t);
      RunSafe(states, actions, j - 1);
      QuietStays(states[j - 1], actions[j - 1], states[j], t);
    }
  }

  // ---- no expired timer is stranded ----

  predicate IsIdle(pc: Pc) {
    pc.EWait? || pc.EWoken?
  }

  /** An executor that will look at the expired list before it waits or leaves. */
  predicate IsBusy(pc: Pc) {
    pc.EStart? || pc.ETop? || pc.EWoken? || pc.EDrain? || pc.EExec?
  }

  ghost function Idlers(threads: map<ThreadId, Pc>): set<ThreadId> {
    set h | h in threads && IsIdle(threads[h])
  }

  /** The two counters are what they are meant to count. */
  ghost predicate PoolOk(s: State) {
    && s.nthreads == |s.threads| && s.idle == |Idlers(s.threads)| && s.opt.threadMax >= 2
    && (s.phase == Destroy ==> s.destroying)
    && (!s.destroying ==> INSPECTOR in s.threads)
  }

  ghost predicate Roles(threads: map<ThreadId, Pc>) {
    forall h :: h in threads ==> (OfInspector(threads[h]) <==> h == INSPECTOR)
  }

  ghost predicate SomeBusy(threads: map<ThreadId, Pc>) {
    exists h :: h in threads && IsBusy(threads[h])
  }

  ghost predicate NotStranded(s: State) {
    !s.destroying && s.expired != [] ==> SomeBusy(s.threads)
  }

  ghost predicate PoolInv(s: State) {
    RunsOk(s) && PoolOk(s) && NotStranded(s)
  }

  lemma IdlersMoved(threads: map<ThreadId, Pc>, h: ThreadId, pc: Pc)
    ensures Idlers(threads[h := pc]) == if IsIdle(pc) then Idlers(threads) + {h} else Idlers(threads) - {h}
    ensures |threads[h := pc]| == |threads| + if h in threads then 0 else 1
  {
    var threads' := threads[h := pc];
    forall k
      ensures k in Idlers(threads') <==> k in if IsIdle(pc) then Idlers(threads) + {h} else Idlers(threads) - {h}
    {
    }
    CountMoved(threads, h, pc);
  }

  lemma CountMoved(threads: map<ThreadId, Pc>, h: ThreadId, pc: Pc)
    ensures |threads[h := pc]| == |threads| + if h in threads then 0 else 1
  {
    assert threads[h := pc].Keys == threads.Keys + {h};
    assert |threads[h := pc].Keys| == |threads.Keys + {h}|;
  }

  /** A thread moves without joining or leaving the idle ones. */
  lemma PoolMoved(s: State, s': State, h: ThreadId, pc: Pc)
    requires PoolInv(s) && h in s.threads && s'.threads == s.threads[h := pc]
    requires s'.nthreads == s.nthreads && s'.opt.threadMax == s.opt.threadMax && s'.destroying == s.destroying
    requires s'.phase == Destroy ==> s.phase == Destroy
    requires s'.idle == s.idle + (if IsIdle(pc) && !IsIdle(s.threads[h]) then 1 else 0)
                              - (if !IsIdle(pc) && IsIdle(s.threads[h]) then 1 else 0)
    requires s'.expired != [] ==> s.expired != []
    requires s.expired != [] && IsBusy(s.threads[h]) ==> IsBusy(pc)
    ensures PoolOk(s') && NotStranded(s')
  {
    IdlersMoved(s.threads, h, pc);
    if !s.destroying && s'.expired != [] {
      var k :| k in s.threads && IsBusy(s.threads[k]);
      assert k in s'.threads && IsBusy(s'.threads[k]);
    }
  }

  lemma PoolExit(s: State, h: ThreadId)
    requires PoolInv(s) && h in s.threads && !IsIdle(s.threads[h])
    requires s.destroying || (h != INSPECTOR && s.expired == [])
    ensures PoolOk(Exit(s, h)) && NotStranded(Exit(s, h))
  {
    var threads := s.threads - {h};
    assert threads.Keys == s.threads.Keys - {h};
    assert |threads.Keys| == |s.threads.Keys| - 1;
    assert Idlers(threads) == Idlers(s.threads);
  }

  /** Whatever the pool looks like, queueing a timer leaves an executor on its way to it. */
  lemma QueueNotStranded(s: State, t: TimerId, pick: Option<ThreadId>, made: ThreadId)
    requires Roles(s.threads) && PoolOk(s) && t in s.timers && Signals(s, pick) && made !in s.threads
    requires made != INSPECTOR
    ensures PoolOk(Queue(s, t, pick, made)) && SomeBusy(Queue(s, t, pick, made).threads)
  {
    var s' := Queue(s, t, pick, made);
    if s.idle > 0 {
      if pick.Some? {
        IdlersMoved(s.threads, pick.value, EWoken(s.threads[pick.value].to));
        assert IsBusy(s'.threads[pick.value]);
        assert Idlers(s'.threads) == Idlers(s.threads);
      } else {
        var h :| h in Idlers(s.threads);
        assert IsBusy(s'.threads[h]);
      }
    } else if s.nthreads < s.opt.threadMax {
      IdlersMoved(s.threads, made, EStart);
      assert Idlers(s'.threads) == Idlers(s.threads);
      assert IsBusy(s'.threads[made]);
    } else {
      SomeExecutor(s.threads);
      var h :| h in s.threads && h != INSPECTOR;
      assert h !in Idlers(s.threads);
      assert IsBusy(s'.threads[h]);
    }
  }

  lemma SomeExecutor(threads: map<ThreadId, Pc>)
    requires |threads| >= 2
    ensures exists h :: h in threads && h != INSPECTOR
  {
    if forall h :: h in threads ==> h == INSPECTOR {
      assert threads.Keys <= {INSPECTOR};
      SmallSet(threads.Keys, {INSPECTOR});
    }
  }

  lemma {:induction false} SmallSet(a: set<ThreadId>, b: set<ThreadId>)
    requires a <= b
    ensures |a| <= |b|
  {
    if a != {} {
      var x :| x in a;
      SmallSet(a - {x}, b - {x});
    }
  }

  /** The state in which a firing timer is queued or run: the inspector back at its top. */
  lemma FirePool(s: State, t: TimerId, pick: Option<ThreadId>, made: ThreadId)
    requires PoolInv(s) && t in s.timers && MayFire(s, pick, made) && INSPECTOR in s.threads
    ensures PoolOk(Fire(s, t, pick, made)) && NotStranded(Fire(s, t, pick, made))
  {
    var s2 := Cocked(s, t);
    CockedPool(s, t);
    PoolMoved(s, s2, INSPECTOR, ITop);
    if !s.timers[t].pending && !s.timers[t].executing {
      if s.timers[t].threaded {
        QueueFrom(s, s2, t, pick, made);
      } else {
        PoolMoved(s, Execute(s2, t, INSPECTOR, IExec(t)), INSPECTOR, IExec(t));
      }
    }
  }

  /** The fired timer out of the table, or back in it for its next round. */
  ghost function Cocked(s: State, t: TimerId): State
    requires t in s.timers
  {
    var s1 := Remove(SetPc(s.(phase := Shooting), INSPECTOR, ITop), t);
    if s.timers[t].cycle then Insert(s1, t) else s1
  }

  lemma CockedPool(s: State, t: TimerId)
    requires t in s.timers
    ensures var s2 := Cocked(s, t);
      && s2.threads == s.threads[INSPECTOR := ITop] && s2.expired == s.expired
      && s2.nthreads == s.nthreads && s2.idle == s.idle
      && s2.opt == s.opt && s2.phase == Shooting && s2.destroying == s.destroying && t in s2.timers
  {
  }

  lemma QueueFrom(s: State, s2: State, t: TimerId, pick: Option<ThreadId>, made: ThreadId)
    requires RunsOk(s) && PoolOk(s2) && MayFire(s, pick, made) && INSPECTOR in s.threads && t in s2.timers
    requires s2.threads == s.threads[INSPECTOR := ITop]
    ensures PoolOk(Queue(s2, t, pick, made)) && NotStranded(Queue(s2, t, pick, made))
  {
    assert Roles(s2.threads) && Signals(s2, pick);
    QueueNotStranded(s2, t, pick, made);
  }

  lemma ExecutorRoundPool(s: State, s': State, h: ThreadId)
    requires PoolInv(s) && ExecutorRound(s, s', h)
    ensures PoolOk(s') && NotStranded(s')
  {
    if s.phase == Destroy {
      PoolExit(s, h);
    } else {
      PoolMoved(s, s', h, s'.threads[h]);
    }
  }

  lemma ExecutorDrainPool(s: State, s': State, h: ThreadId)
    requires PoolInv(s) && ExecutorDrain(s, s', h)
    ensures PoolOk(s') && NotStranded(s')
  {
    var to := s.threads[h].to;
    if s.expired != [] {
      PoolMoved(s, s', h, EExec(s.expired[0], to));
    } else if to && s.nthreads > s.opt.threadMin {
      assert !OfInspector(s.threads[h]);
      PoolExit(s, h);
    } else {
      PoolMoved(s, s', h, ETop(to));
    }
  }

  lemma InspectorRoundPool(s: State, s': State, now: nat, pick: Option<ThreadId>, made: ThreadId)
    requires PoolInv(s) && InspectorRound(s, s', now, pick, made)
    ensures PoolOk(s') && NotStranded(s')
  {
    if s.phase == Destroy {
      PoolExit(s, INSPECTOR);
    } else if s.table == {} {
      PoolMoved(s, s', INSPECTOR, IWait);
    } else {
      var t :| IsFirst(s, t) && InspectorLooks(s, s', t, now, pick, made);
      if now < s.timers[t].expire {
        PoolMoved(s, s', INSPECTOR, ITimed(t, s.timers[t].expire));
      } else {
        FirePool(s, t, pick, made);
      }
    }
  }

  lemma InspectorBackPool(s: State, s': State, timedOut: bool, now: nat, pick: Option<ThreadId>, made: ThreadId)
    requires PoolInv(s) && InspectorBack(s, s', timedOut, now, pick, made)
    ensures PoolOk(s') && NotStranded(s')
  {
    if s.running.None? || !timedOut {
      PoolMoved(s, s', INSPECTOR, ITop);
    } else {
      var s0 := s.(running := None);
      assert MayFire(s0, pick, made);
      FirePool(s0, s.threads[INSPECTOR].timer, pick, made);
    }
  }

  /** What callers do not touch. */
  ghost predicate PoolUntouched(s: State, s': State) {
    && s'.threads == s.threads && s'.expired == s.expired && s'.nthreads == s.nthreads && s'.idle == s.idle
    && s'.opt.threadMax == s.opt.threadMax && s'.phase == s.phase && s'.destroying == s.destroying
  }

  lemma DeleteUntouched(s: State, s': State, t: TimerId, call: CallId, self: Option<ThreadId>)
    requires Delete(s, s', t, call, self)
    ensures PoolUntouched(s, s')
  {
    UnmountedUntouched(s, t);
    if !DeleteFails(s, t) {
      ExitTimerUntouched(Unmounted(s, t), s', t, call, self);
    }
  }

  lemma UnmountedUntouched(s: State, t: TimerId)
    requires t in s.timers
    ensures PoolUntouched(s, Unmounted(s, t)) && t in Unmounted(s, t).timers
  {
  }

  lemma ExitTimerUntouched(s: State, s': State, t: TimerId, call: CallId, self: Option<ThreadId>)
    requires t in s.timers && TimerExit(s, s', t, call, self)
    ensures PoolUntouched(s, s')
  {
  }

  lemma AddUntouched(s: State, s': State, t: TimerId, cycle: bool, threaded: bool, interval: nat, now: nat)
    requires Add(s, s', t, cycle, threaded, interval, now)
    ensures PoolUntouched(s, s')
  {
  }

  lemma ModifyUntouched(s: State, s': State, t: TimerId, interval: nat, now: nat)
    requires Modify(s, s', t, interval, now)
    ensures PoolUntouched(s, s')
  {
  }

  lemma CallerPool(s: State, a: Action, s': State)
    requires PoolInv(s) && Step(s, a, s')
    requires a.AAdd? || a.ADelete? || a.ADeleterWakes? || a.ADeleterBack? || a.AModify?
    ensures PoolOk(s') && NotStranded(s')
  {
    assert PoolUntouched(s, s') by {
      match a
      case AAdd(t, cycle, threaded, interval, now) => AddUntouched(s, s', t, cycle, threaded, interval, now);
      case ADelete(t, call, self) => DeleteUntouched(s, s', t, call, self);
      case AModify(t, interval, now) => ModifyUntouched(s, s', t, interval, now);
      case ADeleterWakes(_) =>
      case ADeleterBack(_) =>
    }
  }

  lemma DestroyPool(s: State, s': State)
    requires PoolInv(s) && DestroyBegins(s, s')
    ensures PoolOk(s') && NotStranded(s')
  {
    assert s'.threads.Keys == s.threads.Keys;
    assert |s'.threads.Keys| == |s.threads.Keys|;
    assert Idlers(s'.threads) == Idlers(s.threads);
  }

  lemma InspectorPool(s: State, a: Action, s': State)
    requires PoolInv(s) && Step(s, a, s') && ByInspector(a)
    ensures PoolOk(s') && NotStranded(s')
  {
    match a
    case AInspectorRound(now, pick, made) => InspectorRoundPool(s, s', now, pick, made);
    case AInspectorWoken => PoolMoved(s, s', INSPECTOR, ITop);
    case AInspectorBack(timedOut, now, pick, made) => InspectorBackPool(s, s', timedOut, now, pick, made);
    case AInspectorDone => PoolMoved(s, s', INSPECTOR, ITop);
  }

  lemma ExecutorPool(s: State, a: Action, s': State)
    requires PoolInv(s) && Step(s, a, s') && ByExecutor(a)
    ensures PoolOk(s') && NotStranded(s')
  {
    match a
    case AExecutorStart(h) => PoolMoved(s, s', h, ETop(false));
    case AExecutorRound(h) => ExecutorRoundPool(s, s', h);
    case AExecutorWakes(h, timedOut) => PoolMoved(s, s', h, s'.threads[h]);
    case AExecutorBack(h) => PoolMoved(s, s', h, s'.threads[h]);
    case AExecutorDrain(h) => ExecutorDrainPool(s, s', h);
    case AExecutorDone(h) => PoolMoved(s, s', h, s'.threads[h]);
  }

  lemma StepPool(s: State, a: Action, s': State)
    requires PoolInv(s) && Step(s, a, s')
    ensures PoolOk(s') && NotStranded(s')
  {
    if ByInspector(a) {
      InspectorPool(s, a, s');
    } else if ByExecutor(a) {
      ExecutorPool(s, a, s');
    } else if a.ADestroy? {
      DestroyPool(s, s');
    } else {
      CallerPool(s, a, s');
    }
  }

  /** In every reachable state before a destroy, a non-empty expired list has an executor that is
      starting, woken or inside its drain loop; and the pool counters are right. */
  lemma {:induction false} NeverStranded(states: seq<State>, actions: seq<Action>, n: nat)
    requires IsRun(states, actions) && Init(states[0]) && n <= |actions|
    ensures PoolInv(states[n])
  {
    RunSafe(states, actions, n);
    if n > 0 {
      NeverStranded(states, actions, n - 1);
      StepPool(states[n - 1], actions[n - 1], states[n]);
    }
  }
}
