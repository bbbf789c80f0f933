/**
 What each event of the asynchronous request machine does in a reachable state, told by its outcome; that
 queued requests are served in turn; and that every run can be brought to rest.
 */
module AsyncEvents {
  import opened Sequences
  import opened AsyncModel
  import opened AsyncProofs

  // ---- the outcome of each event ----

  /** Memory, queue and workers are as before. */
  predicate SameWork(s: State, s': State) {
    s'.asyncs == s.asyncs && s'.msgs == s.msgs && s'.queue == s.queue && s'.workers == s.workers
  }

  predicate Counts(log: Log, log': Log, accepted: multiset<Accept>, ended: multiset<End>, replies: multiset<Reply>) {
    && log'.accepted == log.accepted + accepted && log'.ended == log.ended + ended
    && log'.replies == log.replies + replies && log'.requests == log.requests && log'.known == log.known
  }

  lemma OpenDoes(s: State, c: nat)
    requires Enabled(s, Open(c))
    ensures var s' := DoOpen(s, c);
      && s'.conns == s.conns[c := Conn(0, true)] && s'.log.known == s.log.known + {c}
      && SameWork(s, s') && s'.pc == s.pc && s'.fault == s.fault
  {
  }

  /** ipc_server_bind gives a connection its cookie exactly if it has none and malloc does not fail. */
  lemma BindDoes(s: State, c: nat, p: nat)
    requires Enabled(s, Bind(c, p))
    ensures var s' := DoBind(s, c, p);
      if s.conns[c].cookie == 0 && p != 0
      then s' == s.(conns := s.conns[c := Conn(p, true)], asyncs := s.asyncs[p := Async(Idle, c, 0, false)])
      else s' == s
  {
  }

  lemma BeginDoes(s: State, c: nat, r: nat, reply: bool)
    requires Enabled(s, Begin(c, r, reply))
    ensures var s' := DoBegin(s, c, r, reply);
      && s'.pc == Handling(c, r, reply, false) && s'.log.requests == s.log.requests[r := Request(c, reply)]
      && SameWork(s, s') && s'.conns == s.conns && s'.fault == s.fault
  {
  }

  /**
   ipc_async_execute accepts exactly with an idle cookie and a clone, which it then queues; with an idle
   cookie and no clone it records the failure; otherwise nothing happens.
   */
  lemma ExecuteDoes(s: State, m: nat, release: bool)
    requires Inv(s) && Enabled(s, Execute(m, release))
    ensures s.pc.conn in s.conns
    ensures var s', p := DoExecute(s, m, release), s.conns[s.pc.conn].cookie;
      && (p != 0 ==> p in s.asyncs)
      && (if p != 0 && s.asyncs[p].mode == Idle && m != 0 then
            && Counts(s.log, s'.log, multiset{Accept(s.pc.req, release)}, multiset{}, multiset{})
            && s'.queue == s.queue + [p] && s'.msgs == s.msgs[m := Msg(s.pc.req, s.pc.reply)]
            && s'.asyncs == s.asyncs[p := Async(Pending, s.pc.conn, m, release)] && s'.workers == s.workers
            && s'.pc == s.pc.(async := true) && s'.conns == s.conns && s'.log.failed == s.log.failed
          else if p != 0 && s.asyncs[p].mode == Idle then
            && Counts(s.log, s'.log, multiset{}, multiset{}, multiset{})
            && s'.log.failed == s.log.failed[s.pc.conn := release]
            && s'.asyncs == s.asyncs[p := Async(Pending, s.pc.conn, 0, release)] && s'.msgs == s.msgs
            && s'.queue == s.queue && s'.workers == s.workers && s'.pc == s.pc && s'.conns == s.conns
          else s' == s)
  {
    var p := s.conns[s.pc.conn].cookie;
    if p != 0 {
      assert CookieOk(p, s.asyncs[p], s.queue, s.workers);
    }
  }

  /** A request that was not passed on ends with its handler, and is answered if it is served and asked for it. */
  lemma ReturnDoes(s: State, ok: bool)
    requires Inv(s) && Enabled(s, Return(ok))
    ensures Returned(s, ok, DoReturn(s, ok))
  {
    ReturnsAs(s, ok);
  }

  ghost predicate Returned(s: State, ok: bool, s': State)
    requires s.pc.Handling?
  {
    && s'.pc == Loop && SameWork(s, s') && s'.conns == s.conns && s'.fault == s.fault
    && (if s.pc.async then s'.log == s.log
        else LogEnds(s.log, End(s.pc.req, true, ok), s.pc.conn, ok && s.pc.reply, s'.log))
  }

  lemma ReturnsAs(s: State, ok: bool)
    requires s.pc.Handling? && IsOpen(s.conns, s.pc.conn)
    ensures Returned(s, ok, DoReturn(s, ok))
  {
    if !s.pc.async {
      ReturnLog(s, ok);
    }
  }

  /** The cookie of a connection that is released, if it has one. */
  function CookieOf(s: State, c: nat): nat {
    if c in s.conns then s.conns[c].cookie else 0
  }

  /** ipc_release marks the connection, and leaves a cookie that a worker has to the worker. */
  lemma ReleaseRunning(s: State, c: nat)
    requires Inv(s) && Enabled(s, Release(c))
    requires var p := CookieOf(s, c); p != 0 ==> p in s.asyncs && s.asyncs[p].mode == Executing
    ensures var s', p := DoRelease(s, c), CookieOf(s, c);
      && s'.conns == s.conns[c := Conn(p, false)] && s'.pc == Closing(c) && !s'.fault && s'.log == s.log
      && s'.msgs == s.msgs && s'.queue == s.queue && s'.workers == s.workers
      && s'.asyncs == if p == 0 then s.asyncs else s.asyncs[p := s.asyncs[p].(mode := Exited, sevr := 0)]
  {
  }

  /** A cookie without a clone is freed. */
  lemma ReleaseIdle(s: State, c: nat)
    requires Inv(s) && Enabled(s, Release(c))
    requires var p := CookieOf(s, c); p != 0 && p in s.asyncs && !Flying(s.asyncs[p]) && s.asyncs[p].msg == 0
    ensures Freed(s, c, CookieOf(s, c), DoRelease(s, c))
  {
    var p := CookieOf(s, c);
    assert CookieOk(p, s.asyncs[p], s.queue, s.workers);
    FreesIdle(s, c, p);
  }

  ghost predicate Freed(s: State, c: nat, p: nat, s': State) {
    && s'.conns == s.conns[c := Conn(p, false)] && s'.pc == Closing(c) && s'.fault == s.fault
    && s'.asyncs == s.asyncs - {p} && s'.workers == s.workers && s'.msgs == s.msgs && s'.queue == s.queue
    && s'.log.ended == s.log.ended && s'.log.dropped == s.log.dropped && s'.log.replies == s.log.replies
  }

  lemma FreesIdle(s: State, c: nat, p: nat)
    requires Enabled(s, Release(c)) && p == s.conns[c].cookie && p != 0 && p in s.asyncs && p !in s.queue
    requires !Flying(s.asyncs[p]) && s.asyncs[p].msg == 0
    ensures Freed(s, c, p, DoRelease(s, c))
  {
    WithoutAbsent(s.queue, p);
    var s1 := s.(conns := s.conns[c := Conn(p, false)], pc := Closing(c));
    assert s1.(queue := Without(s.queue, p)) == s1;
    assert DoRelease(s, c) == Discard(s1, p);
  }

  /** A queued one is freed with its clone, and the release callback is called if it was given. */
  lemma ReleaseWaiting(s: State, c: nat)
    requires Inv(s) && Enabled(s, Release(c))
    requires var p := CookieOf(s, c); p != 0 && p in s.asyncs && !Flying(s.asyncs[p]) && s.asyncs[p].msg != 0
    ensures var s', p := DoRelease(s, c), CookieOf(s, c);
      && s'.conns == s.conns[c := Conn(p, false)] && s'.pc == Closing(c) && !s'.fault
      && s'.asyncs == s.asyncs - {p} && s'.workers == s.workers && s'.queue == Without(s.queue, p)
      && s.asyncs[p].msg in s.msgs && s'.msgs == s.msgs - {s.asyncs[p].msg}
      && s'.log.dropped == (if s.asyncs[p].release then s.log.dropped + multiset{s.msgs[s.asyncs[p].msg].req}
                            else s.log.dropped)
  {
    var p := CookieOf(s, c);
    assert CookieOk(p, s.asyncs[p], s.queue, s.workers);
  }

  lemma CloseDoes(s: State)
    requires Inv(s) && Enabled(s, Close)
    ensures var s' := DoClose(s);
      && s'.conns == s.conns - {s.pc.conn} && s'.pc == Loop && SameWork(s, s') && s'.log == s.log && !s'.fault
  {
    assert s.pc.conn in s.conns;
  }

  /** A worker gets the cookie that was queued first, and its function is called. */
  lemma PickDoes(s: State, t: nat)
    requires Inv(s) && Enabled(s, Pick(t))
    ensures var s', p := DoPick(s, t), s.queue[0];
      && p in s.asyncs && s.asyncs[p].msg in s.msgs
      && s'.queue == s.queue[1..] && s'.workers == s.workers[t := p] && s'.msgs == s.msgs && s'.conns == s.conns
      && s'.asyncs == s.asyncs[p := s.asyncs[p].(mode := Executing)] && s'.pc == s.pc && !s'.fault
      && Counts(s.log, s'.log, multiset{}, multiset{}, multiset{})
      && s'.log.started == s.log.started + multiset{Accept(s.msgs[s.asyncs[p].msg].req, s.asyncs[p].release)}
  {
    var p := s.queue[0];
    assert p in s.queue && CookieOk(p, s.asyncs[p], s.queue, s.workers);
  }

  /** The worker answers exactly if the connection is still there and a reply was asked for, and frees what is due. */
  lemma FinishDoes(s: State, t: nat)
    requires Inv(s) && Enabled(s, Finish(t))
    ensures var s', p := DoFinish(s, t), s.workers[t];
      && p in s.asyncs && s.asyncs[p].msg in s.msgs && !s'.fault
      && s'.workers == s.workers - {t} && s'.msgs == s.msgs - {s.asyncs[p].msg} && s'.queue == s.queue
      && s'.asyncs == (if s.asyncs[p].mode == Exited then s.asyncs - {p}
                       else s.asyncs[p := Async(Idle, s.asyncs[p].sevr, 0, false)])
      && s'.conns == s.conns && s'.pc == s.pc
  {
    var p := s.workers[t];
    assert CookieOk(p, s.asyncs[p], s.queue, s.workers);
    FinishOpen(s, p);
    FinishIs(s, t, p);
  }

  lemma FinishAnswers(s: State, t: nat)
    requires Inv(s) && Enabled(s, Finish(t))
    ensures var p := s.workers[t];
      && p in s.asyncs && s.asyncs[p].msg in s.msgs && s.msgs[s.asyncs[p].msg].req in s.log.requests
      && Answers(s, p, DoFinish(s, t))
  {
    var p := s.workers[t];
    assert CookieOk(p, s.asyncs[p], s.queue, s.workers);
    FinishOpen(s, p);
    AnswersAs(s, t, p);
  }

  /** The request of the cookie's clone ends served, with a reply to its connection if that is open and it asked. */
  ghost predicate Answers(s: State, p: nat, s': State)
    requires p in s.asyncs && s.asyncs[p].msg in s.msgs && s.msgs[s.asyncs[p].msg].req in s.log.requests
  {
    var m, open := s.msgs[s.asyncs[p].msg], s.asyncs[p].mode != Exited;
    && s'.log.ended == s.log.ended + multiset{End(m.req, open, true)}
    && s'.log.replies == if open && m.reply then s.log.replies + multiset{Reply(s.log.requests[m.req].conn, m.req)}
                         else s.log.replies
  }

  lemma AnswersAs(s: State, t: nat, p: nat)
    requires t in s.workers && p == s.workers[t] && p in s.asyncs && s.asyncs[p].msg in s.msgs
    requires s.msgs[s.asyncs[p].msg].req in s.log.requests
    requires var r, open := s.msgs[s.asyncs[p].msg].req, s.asyncs[p].mode != Exited;
      OpenFor(s, r) == open && (open ==> s.asyncs[p].sevr == s.log.requests[r].conn && s.asyncs[p].sevr in s.conns)
    ensures Answers(s, p, DoFinish(s, t))
  {
    FinishLog(s, t, p);
  }

  // ---- faults ----

  /** The cookie, or the clone in it, is not allocated. */
  predicate Dangling(s: State, p: nat) {
    p !in s.asyncs || s.asyncs[p].msg !in s.msgs
  }

  /** The event uses or frees what is not allocated, or fails an assert. */
  predicate Misuses(s: State, e: Event)
    requires Enabled(s, e)
  {
    match e
    case Open(_) => false
    case Bind(_, _) => false
    case Begin(_, _, _) => false
    case Execute(_, _) =>
      var p := CookieOf(s, s.pc.conn);
      if s.pc.conn in s.conns && p == 0 then false
      else p !in s.asyncs || (s.asyncs[p].mode == Idle && s.asyncs[p].msg != 0)
    case Return(ok) => !s.pc.async && ok && s.pc.reply && s.pc.conn !in s.conns
    case Release(c) =>
      var p := s.conns[c].cookie;
      p != 0 && (p !in s.asyncs || s.asyncs[p].mode == Exited
                 || (s.asyncs[p].mode != Executing && s.asyncs[p].msg != 0 && s.asyncs[p].msg !in s.msgs))
    case Close => s.pc.conn !in s.conns
    case Pick(_) => Dangling(s, s.queue[0])
    case Work(t) => Dangling(s, s.workers[t])
    case Finish(t) =>
      var p := s.workers[t];
      || Dangling(s, p)
      || (s.asyncs[p].mode != Exited && s.msgs[s.asyncs[p].msg].reply && s.asyncs[p].sevr !in s.conns)
  }

  /** A fault is recorded exactly then; so the absence of faults in every run says that none of it ever happens. */
  lemma FaultMeans(s: State, e: Event)
    requires Enabled(s, e) && !s.fault
    ensures Apply(s, e).fault <==> Misuses(s, e)
  {
    match e
    case Execute(m, release) => ExecuteFaults(s, m, release);
    case Return(ok) => ReturnFaults(s, ok);
    case Release(c) => ReleaseFaults(s, c);
    case Finish(t) => FinishFaults(s, t);
    case _ =>
  }

  lemma ExecuteFaults(s: State, m: nat, release: bool)
    requires Enabled(s, Execute(m, release)) && !s.fault
    ensures DoExecute(s, m, release).fault <==> Misuses(s, Execute(m, release))
  {
  }

  lemma ReturnFaults(s: State, ok: bool)
    requires Enabled(s, Return(ok)) && !s.fault
    ensures DoReturn(s, ok).fault <==> Misuses(s, Return(ok))
  {
  }

  lemma ReleaseFaults(s: State, c: nat)
    requires Enabled(s, Release(c)) && !s.fault
    ensures DoRelease(s, c).fault <==> Misuses(s, Release(c))
  {
    var p := s.conns[c].cookie;
    var s1 := s.(conns := s.conns[c := Conn(p, false)], pc := Closing(c));
    if p != 0 && p in s.asyncs {
      DiscardFaults(s1, p);
      DiscardFaults(s1.(queue := Without(s.queue, p)), p);
    }
  }

  lemma DiscardFaults(s: State, p: nat)
    requires p in s.asyncs && !s.fault
    ensures Discard(s, p).fault <==> s.asyncs[p].msg != 0 && s.asyncs[p].msg !in s.msgs
  {
  }

  lemma FinishFaults(s: State, t: nat)
    requires Enabled(s, Finish(t)) && !s.fault
    ensures DoFinish(s, t).fault <==> Misuses(s, Finish(t))
  {
  }

  // ---- in turn ----

  /** `p` is queued before `q`. */
  ghost predicate Ahead(queue: seq<nat>, p: nat, q: nat) {
    exists i, j :: 0 <= i < j < |queue| && queue[i] == p && queue[j] == q
  }

  lemma AheadOn(queue: seq<nat>, more: seq<nat>, p: nat, q: nat)
    requires Ahead(queue, p, q)
    ensures Ahead(queue + more, p, q)
  {
    var i, j :| 0 <= i < j < |queue| && queue[i] == p && queue[j] == q;
    assert (queue + more)[i] == p && (queue + more)[j] == q;
  }

  lemma AheadNext(queue: seq<nat>, p: nat, q: nat)
    requires Ahead(queue, p, q) && queue[0] != p
    ensures Ahead(queue[1..], p, q)
  {
    var i, j :| 0 <= i < j < |queue| && queue[i] == p && queue[j] == q;
    assert queue[1..][i - 1] == p && queue[1..][j - 1] == q;
  }

  lemma {:induction false} AheadWithout(queue: seq<nat>, x: nat, p: nat, q: nat)
    requires Ahead(queue, p, q) && p != x && q != x
    ensures Ahead(Without(queue, x), p, q)
    decreases |queue|
  {
    var n := |queue| - 1;
    var rest := Without(queue[..n], x);
    var i, j :| 0 <= i < j < |queue| && queue[i] == p && queue[j] == q;
    assert queue[..n][i] == p;
    if j < n {
      assert queue[..n][j] == q;
      AheadWithout(queue[..n], x, p, q);
      if queue[n] != x {
        AheadOn(rest, [queue[n]], p, q);
      }
    } else {
      WithoutIs(queue[..n], x);
      assert p in queue[..n] && p in rest;
      var k :| 0 <= k < |rest| && rest[k] == p;
      assert (rest + [q])[k] == p && (rest + [q])[|rest|] == q;
    }
  }

  /** The order of those that stay queued is kept. */
  ghost predicate KeepsTurns(queue: seq<nat>, queue': seq<nat>, p: nat, q: nat) {
    Ahead(queue, p, q) && p in queue' && q in queue' ==> Ahead(queue', p, q)
  }

  lemma QueueSame(s: State, e: Event)
    requires Enabled(s, e) && !e.Execute? && !e.Release? && !e.Pick?
    ensures Apply(s, e).queue == s.queue
  {
    match e
    case Return(ok) => ReturnQueue(s, ok);
    case Finish(t) => FinishQueue(s, t);
    case _ =>
  }

  lemma ReturnQueue(s: State, ok: bool)
    requires s.pc.Handling?
    ensures DoReturn(s, ok).queue == s.queue
  {
  }

  lemma FinishQueue(s: State, t: nat)
    requires t in s.workers
    ensures DoFinish(s, t).queue == s.queue
  {
  }

  lemma ExecuteInTurn(s: State, m: nat, release: bool, p: nat, q: nat)
    requires s.pc.Handling? && m !in s.msgs
    ensures KeepsTurns(s.queue, DoExecute(s, m, release).queue, p, q)
  {
    if Ahead(s.queue, p, q) {
      AheadOn(s.queue, [CookieOf(s, s.pc.conn)], p, q);
    }
  }

  lemma ReleaseInTurn(s: State, c: nat, p: nat, q: nat)
    requires Enabled(s, Release(c))
    ensures KeepsTurns(s.queue, DoRelease(s, c).queue, p, q)
  {
    var x := CookieOf(s, c);
    WithoutIs(s.queue, x);
    if Ahead(s.queue, p, q) && p != x && q != x {
      AheadWithout(s.queue, x, p, q);
    }
    ReleaseQueue(s, c);
  }

  lemma ReleaseQueue(s: State, c: nat)
    requires Enabled(s, Release(c))
    ensures var p := CookieOf(s, c);
      DoRelease(s, c).queue ==
      if p != 0 && p in s.asyncs && s.asyncs[p].mode == Pending then Without(s.queue, p) else s.queue
  {
  }

  lemma PickInTurn(s: State, t: nat, p: nat, q: nat)
    requires Enabled(s, Pick(t)) && NoRepeat(s.queue)
    ensures KeepsTurns(s.queue, DoPick(s, t).queue, p, q)
    ensures Ahead(s.queue, p, q) ==> s.queue[0] != q
  {
    if Ahead(s.queue, p, q) && s.queue[0] != p {
      AheadNext(s.queue, p, q);
    }
  }

  /** Every step keeps it, and whoever is picked was ahead of all others. */
  lemma StepInTurn(s: State, e: Event, p: nat, q: nat)
    requires NoRepeat(s.queue) && Enabled(s, e)
    ensures KeepsTurns(s.queue, Apply(s, e).queue, p, q)
    ensures e.Pick? && Ahead(s.queue, p, q) ==> s.queue[0] != q
  {
    match e
    case Execute(m, release) => ExecuteInTurn(s, m, release, p, q);
    case Release(c) => ReleaseInTurn(s, c, p, q);
    case Pick(t) => PickInTurn(s, t, p, q);
    case _ => QueueSame(s, e);
  }

  lemma RunInTurn(ss: seq<State>, es: seq<Event>, k: nat, p: nat, q: nat)
    requires Run(ss, es) && k < |es|
    ensures KeepsTurns(ss[k].queue, ss[k + 1].queue, p, q)
    ensures es[k].Pick? && Ahead(ss[k].queue, p, q) ==> ss[k].queue != [] && ss[k].queue[0] != q
  {
    assert NoRepeat(ss[k].queue) by {
      RunKeeps(ss, es, k);
    }
    StepInTurn(ss[k], es[k], p, q);
  }

  lemma {:induction false} StaysAhead(queues: seq<seq<nat>>, i: nat, n: nat, p: nat, q: nat)
    requires i <= n < |queues| && Ahead(queues[i], p, q)
    requires forall k {:trigger queues[k]} :: i <= k <= n ==> p in queues[k] && q in queues[k]
    requires forall k :: i < k <= n ==> KeepsTurns(queues[k - 1], queues[k], p, q)
    ensures Ahead(queues[n], p, q)
  {
    if n > i {
      StaysAhead(queues, i, n - 1, p, q);
      assert KeepsTurns(queues[n - 1], queues[n], p, q);
    }
  }

  /** Over a run: as long as an earlier one is queued, a later one is not picked. */
  lemma InTurn(ss: seq<State>, es: seq<Event>, i: nat, n: nat, p: nat, q: nat)
    requires Run(ss, es) && i <= n < |es| && Ahead(ss[i].queue, p, q)
    requires forall k :: i <= k <= n ==> p in ss[k].queue && q in ss[k].queue
    ensures es[n].Pick? ==> ss[n].queue != [] && ss[n].queue[0] != q
  {
    var queues := seq(|ss|, k requires 0 <= k < |ss| => ss[k].queue);
    forall k | i < k <= n
      ensures KeepsTurns(queues[k - 1], queues[k], p, q)
    {
      RunInTurn(ss, es, k - 1, p, q);
    }
    StaysAhead(queues, i, n, p, q);
    RunInTurn(ss, es, n, p, q);
  }

  // ---- to rest ----

  lemma {:induction false} Above(w: set<nat>) returns (t: nat)
    ensures forall x :: x in w ==> x < t
  {
    if w == {} {
      t := 0;
    } else {
      var x :| x in w;
      var u := Above(w - {x});
      t := if u <= x then x + 1 else u;
      assert forall y :: y in w ==> y == x || y in w - {x};
    }
  }

  predicate AtRest(s: State) {
    s.pc == Loop && s.queue == [] && s.workers == map[]
  }

  /** How much there is still to do without new requests. */
  function ToDo(s: State): nat {
    (if s.pc == Loop then 0 else 1) + 2 * |s.queue| + |s.workers|
  }

  lemma ReturnLess(s: State)
    requires Inv(s) && s.pc.Handling?
    ensures ToDo(DoReturn(s, true)) < ToDo(s)
  {
    ReturnDoes(s, true);
  }

  lemma CloseLess(s: State)
    requires Inv(s) && s.pc.Closing?
    ensures ToDo(DoClose(s)) < ToDo(s)
  {
    CloseDoes(s);
  }

  lemma FinishLess(s: State, t: nat)
    requires Inv(s) && t in s.workers
    ensures ToDo(DoFinish(s, t)) < ToDo(s)
  {
    FinishDoes(s, t);
    OneLess(s.workers, t);
  }

  lemma OneLess(w: Workers, t: nat)
    requires t in w
    ensures |w - {t}| == |w| - 1
  {
    assert (w - {t}).Keys == w.Keys - {t};
    assert |w.Keys| == |w| && |(w - {t}).Keys| == |w - {t}|;
  }

  lemma PickLess(s: State, t: nat)
    requires Inv(s) && t !in s.workers && s.queue != []
    ensures ToDo(DoPick(s, t)) < ToDo(s)
  {
    PickDoes(s, t);
    OneMore(s.workers, t, s.queue[0]);
  }

  lemma OneMore(w: Workers, t: nat, p: nat)
    requires t !in w
    ensures |w[t := p]| == |w| + 1
  {
    OneLess(w[t := p], t);
    assert w[t := p] - {t} == w;
  }

  /** Something can happen until there is nothing to do. */
  lemma NextEvent(s: State) returns (e: Event)
    requires Inv(s) && !AtRest(s)
    ensures Enabled(s, e) && ToDo(Apply(s, e)) < ToDo(s)
  {
    if s.pc.Handling? {
      e := Return(true);
      ReturnLess(s);
    } else if s.pc.Closing? {
      e := Close;
      CloseLess(s);
    } else if s.workers != map[] {
      var t :| t in s.workers;
      e := Finish(t);
      FinishLess(s, t);
    } else {
      var t := Above(s.workers.Keys);
      e := Pick(t);
      PickLess(s, t);
    }
  }

  /** Every run can be brought to rest, and then, by AllEnd, all requests are over: nothing gets stuck. */
  lemma {:induction false} CanRest(ss: seq<State>, es: seq<Event>) returns (ss': seq<State>, es': seq<Event>)
    requires Run(ss, es)
    ensures Run(ss', es') && AtRest(ss'[|es'|]) && es <= es' && ss <= ss'
    decreases ToDo(ss[|es|])
  {
    ss', es' := ss, es;
    var s := ss[|es|];
    if !AtRest(s) {
      var e := MoreOf(ss, es);
      ss', es' := CanRest(ss + [Apply(s, e)], es + [e]);
    }
  }

  lemma MoreOf(ss: seq<State>, es: seq<Event>) returns (e: Event)
    requires Run(ss, es) && !AtRest(ss[|es|])
    ensures Enabled(ss[|es|], e) && Run(ss + [Apply(ss[|es|], e)], es + [e])
    ensures ToDo(Apply(ss[|es|], e)) < ToDo(ss[|es|])
  {
    RunKeeps(ss, es, |es|);
    e := NextEvent(ss[|es|]);
    RunOn(ss, es, e);
  }
}
