/**
 The timer engine of timer/timer.c as a step relation.  A step is a stretch of code that runs
 with the mutex held; between two loop rounds of the inspector or of an executor the model also
 lets other steps in, which only adds behaviours.  The table stands for the red-black tree: a set
 of timers of which rb_first gives the least by (expire, timerid).
 */
module TimerModel {
  import opened Wrappers

  type TimerId = nat
  type ThreadId = nat
  type CallId = nat

  /** struct timer_struct with its flag bits. */
  datatype Timer = Timer(
    active: bool, mounted: bool, pending: bool, executing: bool, waiting: bool, detach: bool,
    cycle: bool, threaded: bool,
    interval: nat, expire: nat, timerid: nat, thread: ThreadId)

  datatype Phase = Initial | Waiting | Timing | Shooting | Destroy

  /** Where a thread of the pool is; `to` is the local variable `timedout` of an executor. */
  datatype Pc =
    | ITop                                      // inspector at the top of its loop
    | IWait                                     // waiting on work_cond for a timer to come
    | ITimed(timer: TimerId, deadline: nat)     // waiting on work_cond until the deadline
    | IExec(timer: TimerId)                     // running a callback itself
    | EStart                                    // created, has not yet taken the mutex
    | ETop(to: bool)                            // executor at the top of its loop
    | EWait(timed: bool, to: bool)              // waiting on exec_cond
    | EWoken(to: bool)                          // woken or timed out, mutex not yet taken back
    | EDrain(to: bool)                          // in the loop over the expired list
    | EExec(timer: TimerId, to: bool)           // running a callback

  /** A timer_del call that has to wait: on the timer's condition, or woken from it. */
  datatype Del = DWait(timer: TimerId) | DWoken(timer: TimerId)

  /** struct timer_option: the sizes of the pool, and how long an executor lingers. */
  datatype Options = Options(threadMin: nat, threadMax: nat, linger: nat)

  datatype State = State(
    timers: map<TimerId, Timer>,
    table: set<TimerId>,
    expired: seq<TimerId>,
    nextId: nat,
    running: Option<TimerId>,
    phase: Phase,
    nthreads: nat,
    idle: nat,
    threads: map<ThreadId, Pc>,
    deleters: map<CallId, Del>,
    opt: Options,
    destroying: bool)

  const INSPECTOR: ThreadId := 0

  // ---- building blocks ----

  predicate Before(a: Timer, b: Timer) {
    a.expire < b.expire || (a.expire == b.expire && a.timerid < b.timerid)
  }

  predicate SameKey(a: Timer, b: Timer) {
    a.expire == b.expire && a.timerid == b.timerid
  }

  /** rb_first on the table. */
  ghost predicate IsFirst(s: State, t: TimerId) {
    t in s.table && t in s.timers
    && forall u :: u in s.table && u in s.timers && u != t ==> Before(s.timers[t], s.timers[u])
  }

  ghost predicate KeyTaken(s: State, key: Timer) {
    exists u :: u in s.table && u in s.timers && SameKey(s.timers[u], key)
  }

  /** timer_insert: a fresh timerid; rb_insert leaves the tree alone if the key is taken. */
  ghost function Insert(s: State, t: TimerId): State
    requires t in s.timers
  {
    var x := s.timers[t].(expire := s.timers[t].expire + s.timers[t].interval, timerid := s.nextId);
    s.(timers := s.timers[t := x.(mounted := true)],
       table := if KeyTaken(s, x) then s.table else s.table + {t},
       nextId := s.nextId + 1)
  }

  /** timer_remove. */
  ghost function Remove(s: State, t: TimerId): State
    requires t in s.timers
  {
    s.(timers := s.timers[t := s.timers[t].(mounted := false)], table := s.table - {t})
  }

  /** timer_search: the node found under the key of `t` is the node of `t`. */
  ghost predicate Search(s: State, t: TimerId)
    requires t in s.timers
  {
    t in s.table && forall u :: u in s.table && u in s.timers && SameKey(s.timers[u], s.timers[t]) ==> u == t
  }

  /** timer_execute up to the unlock: thread `h` goes on in `pc`, running the callback of `t`. */
  ghost function Execute(s: State, t: TimerId, h: ThreadId, pc: Pc): State
    requires t in s.timers
  {
    s.(timers := s.timers[t := s.timers[t].(executing := true, thread := h)], threads := s.threads[h := pc])
  }

  /** The callers blocked on the condition of `t` are woken by a broadcast. */
  ghost function Broadcast(deleters: map<CallId, Del>, t: TimerId): map<CallId, Del> {
    map d | d in deleters :: if deleters[d] == DWait(t) then DWoken(t) else deleters[d]
  }

  /** timer_cleanup. */
  ghost function Cleanup(s: State, t: TimerId): State
    requires t in s.timers
  {
    var x := s.timers[t];
    s.(timers := s.timers[t := x.(executing := false, waiting := false, active := x.active && !x.detach)],
       deleters := if x.waiting then Broadcast(s.deleters, t) else s.deleters)
  }

  /** pthread_cond_signal on exec_cond: one waiting executor, if there is any, is woken. */
  ghost predicate Signals(s: State, pick: Option<ThreadId>) {
    match pick
    case Some(h) => h in s.threads && s.threads[h].EWait?
    case None => forall h :: h in s.threads ==> !s.threads[h].EWait?
  }

  ghost function Wake(s: State, pick: Option<ThreadId>): State {
    if pick.Some? && pick.value in s.threads && s.threads[pick.value].EWait?
    then s.(threads := s.threads[pick.value := EWoken(s.threads[pick.value].to)])
    else s
  }

  ghost function Enlisted(s: State, t: TimerId): State
    requires t in s.timers
  {
    s.(timers := s.timers[t := s.timers[t].(pending := true)], expired := s.expired + [t])
  }

  ghost function Staffed(s: State, pick: Option<ThreadId>, made: ThreadId): State {
    if s.idle > 0 then Wake(s, pick)
    else if s.nthreads < s.opt.threadMax then s.(threads := s.threads[made := EStart], nthreads := s.nthreads + 1)
    else s
  }

  /** timer_thread_execute: queue the timer, then wake an idle executor or create one, `made`. */
  ghost function Queue(s: State, t: TimerId, pick: Option<ThreadId>, made: ThreadId): State
    requires t in s.timers
  {
    Staffed(Enlisted(s, t), pick, made)
  }

  predicate Working(s: State) {
    s.nthreads > 0 && s.phase != Destroy
  }

  ghost function SetPc(s: State, h: ThreadId, pc: Pc): State {
    s.(threads := s.threads[h := pc])
  }

  /** thread_cleanup: the thread is gone. */
  ghost function Exit(s: State, h: ThreadId): State {
    s.(threads := s.threads - {h}, nthreads := if s.nthreads > 0 then s.nthreads - 1 else 0)
  }

  // ---- the inspector ----

  /** Lines 392 to 405: the timer has expired. */
  ghost function Fire(s: State, t: TimerId, pick: Option<ThreadId>, made: ThreadId): State
    requires t in s.timers
  {
    var s1 := Remove(SetPc(s.(phase := Shooting), INSPECTOR, ITop), t);
    var s2 := if s.timers[t].cycle then Insert(s1, t) else s1;
    if s.timers[t].pending || s.timers[t].executing then s2
    else if s.timers[t].threaded then Queue(s2, t, pick, made)
    else Execute(s2, t, INSPECTOR, IExec(t))
  }

  /** One round of the inspector loop from its top (lines 354 to 369, or on to the firing). */
  ghost predicate InspectorRound(s: State, s': State, now: nat, pick: Option<ThreadId>, made: ThreadId) {
    && INSPECTOR in s.threads && s.threads[INSPECTOR] == ITop
    && if s.phase == Destroy then s' == Exit(s, INSPECTOR)
       else if s.table == {} then s' == SetPc(s.(phase := Waiting), INSPECTOR, IWait)
       else exists t :: IsFirst(s, t) && InspectorLooks(s, s', t, now, pick, made)
  }

  ghost predicate InspectorLooks(s: State, s': State, t: TimerId, now: nat, pick: Option<ThreadId>, made: ThreadId)
    requires t in s.timers
  {
    if now < s.timers[t].expire
    then s' == SetPc(s.(phase := Timing, running := Some(t)), INSPECTOR, ITimed(t, s.timers[t].expire))
    else MayFire(s, pick, made) && s' == Fire(s, t, pick, made)
  }

  /** What the pool offers a firing: some waiting executor if there is one, and an unused thread. */
  ghost predicate MayFire(s: State, pick: Option<ThreadId>, made: ThreadId) {
    Signals(s, pick) && made !in s.threads
  }

  ghost predicate InspectorWoken(s: State, s': State) {
    && INSPECTOR in s.threads && s.threads[INSPECTOR] == IWait
    && s' == SetPc(s, INSPECTOR, ITop)
  }

  /** Back from the timed wait (lines 375 to 391), with `timedOut` for ETIMEDOUT. */
  ghost predicate InspectorBack(s: State, s': State, timedOut: bool, now: nat, pick: Option<ThreadId>, made: ThreadId) {
    && INSPECTOR in s.threads && s.threads[INSPECTOR].ITimed?
    && (timedOut ==> s.threads[INSPECTOR].deadline <= now)
    && var t := s.threads[INSPECTOR].timer;
       if s.running.None? then s' == SetPc(s, INSPECTOR, ITop)
       else if !timedOut then s' == SetPc(s.(running := None), INSPECTOR, ITop)
       else t in s.timers && MayFire(s, pick, made) && s' == Fire(s.(running := None), t, pick, made)
  }

  ghost predicate InspectorDone(s: State, s': State) {
    && INSPECTOR in s.threads && s.threads[INSPECTOR].IExec?
    && var t := s.threads[INSPECTOR].timer;
       t in s.timers && s' == SetPc(Cleanup(s, t), INSPECTOR, ITop)
  }

  // ---- the executors ----

  ghost predicate ExecutorStart(s: State, s': State, h: ThreadId) {
    h in s.threads && s.threads[h] == EStart && s' == SetPc(s, h, ETop(false))
  }

  /** Lines 289 to 308. */
  ghost predicate ExecutorRound(s: State, s': State, h: ThreadId) {
    && h in s.threads && s.threads[h].ETop?
    && var to := s.threads[h].to;
       if s.phase == Destroy then s' == Exit(s, h)
       else if s.expired != [] then s' == SetPc(s, h, EDrain(to))
       else if s.nthreads <= s.opt.threadMin then s' == SetPc(s.(idle := s.idle + 1), h, EWait(false, to))
       else if s.opt.linger > 0 then s' == SetPc(s.(idle := s.idle + 1), h, EWait(true, to))
       else s' == SetPc(s, h, EDrain(true))
  }

  /** A timed wait runs out, or any wait ends without a signal. */
  ghost predicate ExecutorWakes(s: State, s': State, h: ThreadId, timedOut: bool) {
    && h in s.threads && s.threads[h].EWait? && (timedOut ==> s.threads[h].timed)
    && s' == SetPc(s, h, EWoken(s.threads[h].to || timedOut))
  }

  ghost predicate ExecutorBack(s: State, s': State, h: ThreadId) {
    && h in s.threads && s.threads[h].EWoken? && s.idle > 0
    && s' == SetPc(s.(idle := s.idle - 1), h, EDrain(s.threads[h].to))
  }

  /** Lines 312 to 321: take the next expired timer, or leave the inner loop. */
  ghost predicate ExecutorDrain(s: State, s': State, h: ThreadId) {
    && h in s.threads && s.threads[h].EDrain?
    && var to := s.threads[h].to;
       if s.expired != [] then
         var t := s.expired[0];
         t in s.timers && s' == Execute(
           s.(expired := s.expired[1..], timers := s.timers[t := s.timers[t].(pending := false)]), t, h, EExec(t, to))
       else if to && s.nthreads > s.opt.threadMin then s' == Exit(s, h)
       else s' == SetPc(s, h, ETop(to))
  }

  ghost predicate ExecutorDone(s: State, s': State, h: ThreadId) {
    && h in s.threads && s.threads[h].EExec?
    && var t := s.threads[h].timer;
       t in s.timers && s' == SetPc(Cleanup(s, t), h, EDrain(s.threads[h].to))
  }

  // ---- the callers ----

  /** timer_add may not be used on a timer whose delete has not returned, nor on one that deleted
      itself and is still in its callback: it zeroes the flags (line 558). */
  ghost predicate AddAllowed(s: State, t: TimerId) {
    && t in s.timers
    && (forall d :: d in s.deleters ==> s.deleters[d].timer != t)
    && !(s.timers[t].executing && s.timers[t].detach)
  }

  ghost predicate Add(s: State, s': State, t: TimerId, cycle: bool, threaded: bool, interval: nat, now: nat) {
    && AddAllowed(s, t)
    && if !Working(s) || s.timers[t].active || (s.timers[t].mounted && Search(s, t)) then s' == s
       else
         var x := Timer(true, false, false, false, false, false, cycle, threaded, interval, now,
                        s.timers[t].timerid, s.timers[t].thread);
         s' == Insert(s.(timers := s.timers[t := x]), t)
  }

  /** timer_del by a thread that is running callbacks on `self`, if any (lines 579 to 607, 213 to 239). */
  ghost predicate Delete(s: State, s': State, t: TimerId, call: CallId, self: Option<ThreadId>) {
    && t in s.timers && call !in s.deleters
    && if DeleteFails(s, t) then s' == s
       else TimerExit(Unmounted(s, t), s', t, call, self)
  }

  /** timer_exit: a callback deleting its own timer detaches it; another caller waits if it must. */
  ghost predicate TimerExit(s: State, s': State, t: TimerId, call: CallId, self: Option<ThreadId>)
    requires t in s.timers
  {
    var x := s.timers[t].(active := false);
    if x.executing && self == Some(x.thread) then s' == s.(timers := s.timers[t := x.(detach := true)])
    else if x.pending || x.executing then
      s' == s.(timers := s.timers[t := x.(waiting := true)], deleters := s.deleters[call := DWait(t)])
    else s' == s.(timers := s.timers[t := x])
  }

  ghost predicate DeleteFails(s: State, t: TimerId)
    requires t in s.timers
  {
    !Working(s) || !s.timers[t].active || (s.timers[t].mounted && !Search(s, t))
  }

  /** Lines 594 to 603. */
  ghost function Unmounted(s: State, t: TimerId): State
    requires t in s.timers
  {
    if !s.timers[t].mounted then s
    else
      var s1 := Remove(s, t);
      if s.running == Some(t) then s1.(running := None) else s1
  }

  ghost predicate DeleterWakes(s: State, s': State, call: CallId) {
    && call in s.deleters && s.deleters[call].DWait?
    && s' == s.(deleters := s.deleters[call := DWoken(s.deleters[call].timer)])
  }

  /** The woken deleter looks at the flags again (line 232): it waits on, or timer_del returns 0. */
  ghost predicate DeleterBack(s: State, s': State, call: CallId) {
    && call in s.deleters && s.deleters[call].DWoken?
    && var t := s.deleters[call].timer;
       && t in s.timers
       && if s.timers[t].pending || s.timers[t].executing
          then s' == s.(timers := s.timers[t := s.timers[t].(waiting := true)],
                         deleters := s.deleters[call := DWait(t)])
          else s' == s.(deleters := s.deleters - {call})
  }

  ghost predicate Modify(s: State, s': State, t: TimerId, interval: nat, now: nat) {
    && t in s.timers
    && if DeleteFails(s, t) then s' == s
       else
         var s1 := if s.timers[t].mounted then Remove(s, t) else s;
         s' == Insert(s1.(timers := s1.timers[t := s1.timers[t].(interval := interval, expire := now)]), t)
  }

  /** timer_destroy up to its wait for the threads to go. */
  ghost predicate DestroyBegins(s: State, s': State) {
    if !Working(s) then s' == s
    else s' == s.(phase := Destroy, destroying := true,
                  threads := map h | h in s.threads ::
                    if s.threads[h].EWait? then EWoken(s.threads[h].to) else s.threads[h])
  }

  // ---- steps and runs ----

  datatype Action =
    | AInspectorRound(now: nat, pick: Option<ThreadId>, made: ThreadId)
    | AInspectorWoken
    | AInspectorBack(timedOut: bool, now: nat, pick: Option<ThreadId>, made: ThreadId)
    | AInspectorDone
    | AExecutorStart(h: ThreadId)
    | AExecutorRound(h: ThreadId)
    | AExecutorWakes(h: ThreadId, timedOut: bool)
    | AExecutorBack(h: ThreadId)
    | AExecutorDrain(h: ThreadId)
    | AExecutorDone(h: ThreadId)
    | AAdd(t: TimerId, cycle: bool, threaded: bool, interval: nat, now: nat)
    | ADelete(t: TimerId, call: CallId, self: Option<ThreadId>)
    | ADeleterWakes(call: CallId)
    | ADeleterBack(call: CallId)
    | AModify(t: TimerId, interval: nat, now: nat)
    | ADestroy

  ghost predicate Step(s: State, a: Action, s': State) {
    match a
    case AInspectorRound(now, pick, made) => InspectorRound(s, s', now, pick, made)
    case AInspectorWoken => InspectorWoken(s, s')
    case AInspectorBack(timedOut, now, pick, made) => InspectorBack(s, s', timedOut, now, pick, made)
    case AInspectorDone => InspectorDone(s, s')
    case AExecutorStart(h) => ExecutorStart(s, s', h)
    case AExecutorRound(h) => ExecutorRound(s, s', h)
    case AExecutorWakes(h, timedOut) => ExecutorWakes(s, s', h, timedOut)
    case AExecutorBack(h) => ExecutorBack(s, s', h)
    case AExecutorDrain(h) => ExecutorDrain(s, s', h)
    case AExecutorDone(h) => ExecutorDone(s, s', h)
    case AAdd(t, cycle, threaded, interval, now) => Add(s, s', t, cycle, threaded, interval, now)
    case ADelete(t, call, self) => Delete(s, s', t, call, self)
    case ADeleterWakes(call) => DeleterWakes(s, s', call)
    case ADeleterBack(call) => DeleterBack(s, s', call)
    case AModify(t, interval, now) => Modify(s, s', t, interval, now)
    case ADestroy => DestroyBegins(s, s')
  }

  /** The state timer_setup leaves: one inspector, all timers as TIMER_INITIALIZER has them. */
  ghost predicate Init(s: State) {
    && s.table == {} && s.expired == [] && s.nextId == 0 && s.running == None && s.phase == Initial
    && s.threads == map[INSPECTOR := ITop] && s.nthreads == 1 && s.idle == 0
    && s.deleters == map[] && !s.destroying && s.opt.threadMax >= 2
    && forall t :: t in s.timers ==>
         var x := s.timers[t];
         !x.active && !x.mounted && !x.pending && !x.executing && !x.waiting && !x.detach
  }
}
