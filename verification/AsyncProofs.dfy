/** What holds in every state of the asynchronous request machine, and what follows from it. */
module AsyncProofs {
  import opened Sequences
  import opened AsyncModel

  // ---- the invariant ----

  predicate Flying(a: Async) {
    a.mode == Executing || a.mode == Exited
  }

  /** A worker runs the cookie `p`. */
  ghost predicate HasWorker(w: Workers, p: nat) {
    exists t :: t in w && w[t] == p
  }

  /** Open connections and cookies that were not given up point at each other. */
  ghost predicate Linked(conns: Conns, asyncs: Asyncs, known: set<nat>) {
    && (forall c :: c in conns ==> c in known && c != 0)
    && (forall c :: IsOpen(conns, c) && conns[c].cookie != 0 ==>
      conns[c].cookie in asyncs && asyncs[conns[c].cookie].sevr == c && asyncs[conns[c].cookie].mode != Exited)
    && (forall p :: p in asyncs && asyncs[p].mode != Exited ==>
      IsOpen(conns, asyncs[p].sevr) && conns[asyncs[p].sevr].cookie == p)
  }

  /** What each mode of a cookie means for its message, the queue and the workers. */
  ghost predicate CookieOk(p: nat, a: Async, queue: seq<nat>, w: Workers) {
    && p != 0
    && (a.mode == Idle ==> a.msg == 0 && !a.release)
    && (a.mode == Pending ==> (p in queue <==> a.msg != 0))
    && (Flying(a) ==> a.msg != 0 && HasWorker(w, p))
  }

  ghost predicate Cookies(asyncs: Asyncs, queue: seq<nat>, w: Workers) {
    forall p :: p in asyncs ==> CookieOk(p, asyncs[p], queue, w)
  }

  ghost predicate Queued(queue: seq<nat>, asyncs: Asyncs) {
    && (forall p :: p in queue ==> p in asyncs && asyncs[p].mode == Pending)
    && NoRepeat(queue)
  }

  ghost predicate Working(w: Workers, asyncs: Asyncs) {
    && (forall t :: t in w ==> w[t] in asyncs && Flying(asyncs[w[t]]))
    && (forall t, u :: t in w && u in w && w[t] == w[u] ==> t == u)
  }

  ghost predicate Owns(asyncs: Asyncs, p: nat, m: nat) {
    p in asyncs && asyncs[p].msg == m
  }

  /** Every clone has exactly one cookie, and stands for a request of its own. */
  ghost predicate Owned(asyncs: Asyncs, msgs: Msgs) {
    && 0 !in msgs
    && (forall m :: m in msgs ==> exists p :: Owns(asyncs, p, m))
    && (forall p :: p in asyncs && asyncs[p].msg != 0 ==> asyncs[p].msg in msgs)
    && (forall p, q, m :: m != 0 && Owns(asyncs, p, m) && Owns(asyncs, q, m) ==> p == q)
    && (forall m, n :: m in msgs && n in msgs && msgs[m].req == msgs[n].req ==> m == n)
  }

  /** How many of some successful executes, or of some ends, are for the request `r`. */
  function Taken(xs: multiset<Accept>, r: nat): nat {
    xs[Accept(r, true)] + xs[Accept(r, false)]
  }

  function Served(ended: multiset<End>, r: nat): nat {
    ended[End(r, true, true)] + ended[End(r, false, true)]
  }

  function Unserved(ended: multiset<End>, r: nat): nat {
    ended[End(r, true, false)] + ended[End(r, false, false)]
  }

  function Ends(ended: multiset<End>, r: nat): nat {
    Served(ended, r) + Unserved(ended, r)
  }

  lemma TakenMore(xs: multiset<Accept>, x: Accept)
    ensures forall r :: Taken(xs + multiset{x}, r) == Taken(xs, r) + if r == x.req then 1 else 0
  {
  }

  lemma EndsMore(ended: multiset<End>, e: End)
    ensures forall r :: Served(ended + multiset{e}, r) == Served(ended, r) + if r == e.req && e.served then 1 else 0
    ensures forall r ::
      Unserved(ended + multiset{e}, r) == Unserved(ended, r) + if r == e.req && !e.served then 1 else 0
  {
  }

  /** A clone stands for a known request that was passed on. */
  ghost predicate InProgress(msgs: Msgs, log: Log) {
    forall m :: m in msgs ==>
      && msgs[m].req in log.requests && log.requests[msgs[m].req].reply == msgs[m].reply
      && Taken(log.accepted, msgs[m].req) > 0
  }

  /** The connection of that request is the one the cookie serves, or is gone. */
  ghost predicate Serves(asyncs: Asyncs, msgs: Msgs, conns: Conns, requests: Requests) {
    forall p :: p in asyncs && asyncs[p].msg in msgs && msgs[asyncs[p].msg].req in requests ==>
      var c := requests[msgs[asyncs[p].msg].req].conn;
      if asyncs[p].mode == Exited then !IsOpen(conns, c) else asyncs[p].sevr == c
  }

  ghost predicate IsCloned(msgs: Msgs, r: nat) {
    exists m :: m in msgs && msgs[m].req == r
  }

  predicate InHand(pc: Pc, r: nat) {
    pc.Handling? && pc.req == r && !pc.async
  }

  ghost predicate AtPc(pc: Pc, conns: Conns, log: Log) {
    && (pc.Handling? ==>
      && IsOpen(conns, pc.conn) && pc.req in log.requests && log.requests[pc.req] == Request(pc.conn, pc.reply)
      && (pc.async <==> Taken(log.accepted, pc.req) > 0))
    && (pc.Closing? ==> pc.conn in conns && !conns[pc.conn].open)
    && (forall c :: c in conns && !conns[c].open ==> pc == Closing(c))
  }

  /** Requests that ended or were passed on are known ones. */
  ghost predicate Recorded(log: Log) {
    && (forall r :: r !in log.requests ==> Taken(log.accepted, r) == Ends(log.ended, r) == 0)
    && (forall r :: r in log.requests ==> log.requests[r].conn in log.known)
  }

  /** A request that is passed on ends once for each clone, and any other once, after its handler. */
  ghost predicate Balanced(pc: Pc, msgs: Msgs, log: Log, r: nat) {
    Ends(log.ended, r) + (if IsCloned(msgs, r) then 1 else 0) ==
      if Taken(log.accepted, r) > 0 then Taken(log.accepted, r) else if InHand(pc, r) then 0 else 1
  }

  ghost predicate Accounted(pc: Pc, msgs: Msgs, log: Log) {
    forall r :: r in log.requests ==> Balanced(pc, msgs, log, r)
  }

  /** A request that asked for replies has got one for each end in which it was served on an open connection. */
  ghost predicate Answered(log: Log) {
    forall c, r :: log.replies[Reply(c, r)] ==
      if r in log.requests && log.requests[r].reply && c == log.requests[r].conn
      then log.ended[End(r, true, true)] else 0
  }

  /** The cookie `p` has a queued clone for the execute `x`. */
  ghost predicate Holding(asyncs: Asyncs, msgs: Msgs, p: nat, x: Accept) {
    && p in asyncs && asyncs[p].mode == Pending && asyncs[p].msg in msgs
    && msgs[asyncs[p].msg].req == x.req && asyncs[p].release == x.release
  }

  ghost predicate Waiting(asyncs: Asyncs, msgs: Msgs, x: Accept) {
    exists p :: Holding(asyncs, msgs, p, x)
  }

  /** Each successful execute has led to a call of the function, or to a discarded clone, or is still queued. */
  ghost predicate Carried(asyncs: Asyncs, msgs: Msgs, log: Log) {
    forall x :: log.accepted[x] == log.started[x] + log.discarded[x] + if Waiting(asyncs, msgs, x) then 1 else 0
  }

  /** The release callback is called for the clones discarded, if given; a discarded clone ends unserved. */
  ghost predicate Dropped(log: Log) {
    && (forall r :: log.dropped[r] == log.discarded[Accept(r, true)])
    && (forall r :: Taken(log.accepted, r) > 0 ==> Taken(log.discarded, r) == Unserved(log.ended, r))
  }

  ghost predicate Shape(s: State) {
    && !s.fault && Linked(s.conns, s.asyncs, s.log.known) && Cookies(s.asyncs, s.queue, s.workers)
    && Queued(s.queue, s.asyncs) && Working(s.workers, s.asyncs) && Owned(s.asyncs, s.msgs)
  }

  ghost predicate Story(s: State) {
    && InProgress(s.msgs, s.log) && Serves(s.asyncs, s.msgs, s.conns, s.log.requests) && AtPc(s.pc, s.conns, s.log)
    && Recorded(s.log) && Accounted(s.pc, s.msgs, s.log) && Answered(s.log)
    && Carried(s.asyncs, s.msgs, s.log) && Dropped(s.log)
  }

  ghost predicate Inv(s: State) {
    Shape(s) && Story(s)
  }

  // ---- every step keeps it ----

  lemma Begins()
    ensures Inv(Init)
  {
    assert forall x :: !Waiting(Init.asyncs, Init.msgs, x);
  }

  /** What is queued for execution is the same. */
  lemma CarriedOn(asyncs: Asyncs, msgs: Msgs, asyncs': Asyncs, log: Log, log': Log)
    requires Carried(asyncs, msgs, log)
    requires log'.accepted == log.accepted && log'.started == log.started && log'.discarded == log.discarded
    requires forall p, x :: Holding(asyncs', msgs, p, x) == Holding(asyncs, msgs, p, x)
    ensures Carried(asyncs', msgs, log')
  {
    forall x
      ensures Waiting(asyncs', msgs, x) == Waiting(asyncs, msgs, x)
    {
      if Waiting(asyncs', msgs, x) {
        var p :| Holding(asyncs', msgs, p, x);
        assert Holding(asyncs, msgs, p, x);
      }
    }
  }

  lemma CarriedLog(asyncs: Asyncs, msgs: Msgs, log: Log, log': Log)
    requires Carried(asyncs, msgs, log)
    requires log'.accepted == log.accepted && log'.started == log.started && log'.discarded == log.discarded
    ensures Carried(asyncs, msgs, log')
  {
  }

  /** A cookie without a queued clone changes and still has none, or goes. */
  lemma CarriedBy(asyncs: Asyncs, msgs: Msgs, p: nat, asyncs': Asyncs, log: Log, log': Log)
    requires Carried(asyncs, msgs, log)
    requires log'.accepted == log.accepted && log'.started == log.started && log'.discarded == log.discarded
    requires asyncs' == asyncs - {p} || (p in asyncs' && asyncs' == asyncs[p := asyncs'[p]])
    requires forall x :: !Holding(asyncs, msgs, p, x) && !Holding(asyncs', msgs, p, x)
    ensures Carried(asyncs', msgs, log')
  {
    assert forall q, x :: Holding(asyncs', msgs, q, x) == Holding(asyncs, msgs, q, x);
    CarriedOn(asyncs, msgs, asyncs', log, log');
  }

  lemma OpenLinks(s: State, c: nat, conns: Conns)
    requires Linked(s.conns, s.asyncs, s.log.known) && Serves(s.asyncs, s.msgs, s.conns, s.log.requests)
    requires Recorded(s.log) && c != 0 && c !in s.log.known && conns == s.conns[c := Conn(0, true)]
    ensures Linked(conns, s.asyncs, s.log.known + {c}) && Serves(s.asyncs, s.msgs, conns, s.log.requests)
    ensures Recorded(s.log.(known := s.log.known + {c}))
  {
  }

  lemma OpenPc(s: State, c: nat, conns: Conns)
    requires AtPc(s.pc, s.conns, s.log) && c !in s.conns && conns == s.conns[c := Conn(0, true)]
    ensures AtPc(s.pc, conns, s.log.(known := s.log.known + {c}))
  {
  }

  lemma OpenKeeps(s: State, c: nat)
    requires c != 0 && c !in s.log.known && Inv(s)
    ensures Inv(DoOpen(s, c))
  {
    OpenLinks(s, c, s.conns[c := Conn(0, true)]);
    OpenPc(s, c, s.conns[c := Conn(0, true)]);
    SameLog(s.pc, s.msgs, s.log, s.log.(known := s.log.known + {c}));
    CarriedLog(s.asyncs, s.msgs, s.log, s.log.(known := s.log.known + {c}));
  }

  /** Fields of the log that the invariant's counts do not mention. */
  lemma SameLog(pc: Pc, msgs: Msgs, log: Log, log': Log)
    requires InProgress(msgs, log) && Accounted(pc, msgs, log) && Answered(log) && Dropped(log)
    requires log' == log.(known := log'.known, failed := log'.failed, bare := log'.bare)
    ensures InProgress(msgs, log') && Accounted(pc, msgs, log') && Answered(log') && Dropped(log')
  {
    assert forall r :: Balanced(pc, msgs, log', r) == Balanced(pc, msgs, log, r);
  }

  // A cookie changes its mode, and keeps its connection and its message.

  lemma ModeLinked(conns: Conns, asyncs: Asyncs, known: set<nat>, p: nat, a: Async)
    requires Linked(conns, asyncs, known) && p in asyncs
    requires a.sevr == asyncs[p].sevr && a.mode != Exited && asyncs[p].mode != Exited
    ensures Linked(conns, asyncs[p := a], known)
  {
  }

  lemma ModeOwned(asyncs: Asyncs, msgs: Msgs, p: nat, a: Async)
    requires Owned(asyncs, msgs) && p in asyncs && a.msg == asyncs[p].msg
    ensures Owned(asyncs[p := a], msgs)
  {
    var asyncs' := asyncs[p := a];
    assert forall q, m :: Owns(asyncs', q, m) == Owns(asyncs, q, m);
  }

  lemma ModeServes(asyncs: Asyncs, msgs: Msgs, conns: Conns, requests: Requests, p: nat, a: Async)
    requires Serves(asyncs, msgs, conns, requests) && p in asyncs && a.msg == asyncs[p].msg
    requires a.sevr == asyncs[p].sevr && a.mode != Exited && asyncs[p].mode != Exited
    ensures Serves(asyncs[p := a], msgs, conns, requests)
  {
  }

  // Bind: a new idle cookie.

  lemma BindCookie(s: State, c: nat, p: nat, s': State)
    requires Linked(s.conns, s.asyncs, s.log.known) && Cookies(s.asyncs, s.queue, s.workers)
    requires Queued(s.queue, s.asyncs) && Working(s.workers, s.asyncs)
    requires Enabled(s, Bind(c, p)) && s.conns[c].cookie == 0 && p != 0 && s' == DoBind(s, c, p)
    ensures Linked(s'.conns, s'.asyncs, s'.log.known) && Cookies(s'.asyncs, s'.queue, s'.workers)
    ensures Queued(s'.queue, s'.asyncs) && Working(s'.workers, s'.asyncs)
  {
  }

  lemma BindOwned(asyncs: Asyncs, msgs: Msgs, p: nat, c: nat)
    requires Owned(asyncs, msgs) && p !in asyncs
    ensures Owned(asyncs[p := Async(Idle, c, 0, false)], msgs)
  {
    var asyncs' := asyncs[p := Async(Idle, c, 0, false)];
    assert forall q, m :: m != 0 ==> Owns(asyncs', q, m) == Owns(asyncs, q, m);
  }

  lemma BindStory(s: State, c: nat, p: nat, s': State)
    requires Story(s) && 0 !in s.msgs
    requires Enabled(s, Bind(c, p)) && s.conns[c].cookie == 0 && p != 0 && s' == DoBind(s, c, p)
    ensures Story(s')
  {
    BindPc(s, c, p, s'.conns);
    BindServes(s, c, p, s');
    CarriedBy(s.asyncs, s.msgs, p, s'.asyncs, s.log, s'.log);
  }

  lemma BindPc(s: State, c: nat, p: nat, conns: Conns)
    requires AtPc(s.pc, s.conns, s.log) && IsOpen(s.conns, c) && conns == s.conns[c := Conn(p, true)]
    ensures AtPc(s.pc, conns, s.log)
  {
  }

  lemma BindServes(s: State, c: nat, p: nat, s': State)
    requires Serves(s.asyncs, s.msgs, s.conns, s.log.requests) && 0 !in s.msgs && IsOpen(s.conns, c)
    requires s' == s.(asyncs := s.asyncs[p := Async(Idle, c, 0, false)], conns := s.conns[c := Conn(p, true)])
    ensures Serves(s'.asyncs, s'.msgs, s'.conns, s'.log.requests)
  {
  }

  lemma BindShape(s: State, c: nat, p: nat, s': State)
    requires Shape(s) && Enabled(s, Bind(c, p)) && s.conns[c].cookie == 0 && p != 0 && s' == DoBind(s, c, p)
    ensures Shape(s')
  {
    BindCookie(s, c, p, s');
    BindOwned(s.asyncs, s.msgs, p, c);
  }

  lemma BindKeeps(s: State, c: nat, p: nat)
    requires Enabled(s, Bind(c, p)) && Inv(s)
    ensures Inv(DoBind(s, c, p))
  {
    var s' := DoBind(s, c, p);
    if s.conns[c].cookie == 0 && p != 0 {
      BindShape(s, c, p, s');
      BindStory(s, c, p, s');
    }
  }

  // Begin: a new request in hand.

  lemma BeginRecords(s: State, c: nat, r: nat, reply: bool, log: Log)
    requires InProgress(s.msgs, s.log) && Serves(s.asyncs, s.msgs, s.conns, s.log.requests)
    requires Recorded(s.log) && Answered(s.log) && Dropped(s.log) && r !in s.log.requests && c in s.log.known
    requires log == s.log.(requests := s.log.requests[r := Request(c, reply)])
    ensures InProgress(s.msgs, log) && Serves(s.asyncs, s.msgs, s.conns, log.requests)
    ensures Recorded(log) && Answered(log) && Dropped(log)
  {
    assert Ends(s.log.ended, r) == 0;
  }

  lemma BeginInHand(s: State, c: nat, r: nat, reply: bool, log: Log)
    requires AtPc(s.pc, s.conns, s.log) && Recorded(s.log) && Accounted(s.pc, s.msgs, s.log)
    requires InProgress(s.msgs, s.log)
    requires Enabled(s, Begin(c, r, reply)) && log == s.log.(requests := s.log.requests[r := Request(c, reply)])
    ensures AtPc(Handling(c, r, reply, false), s.conns, log) && Accounted(Handling(c, r, reply, false), s.msgs, log)
  {
    forall q | q in log.requests
      ensures Balanced(Handling(c, r, reply, false), s.msgs, log, q)
    {
      assert q in s.log.requests ==> Balanced(s.pc, s.msgs, s.log, q);
    }
  }

  lemma BeginKeeps(s: State, c: nat, r: nat, reply: bool)
    requires Enabled(s, Begin(c, r, reply)) && Inv(s)
    ensures Inv(DoBegin(s, c, r, reply))
  {
    var log := DoBegin(s, c, r, reply).log;
    BeginRecords(s, c, r, reply, log);
    BeginInHand(s, c, r, reply, log);
    CarriedLog(s.asyncs, s.msgs, s.log, log);
  }

  // Execute: the request in hand is cloned and queued.

  lemma FailedClone(s: State, p: nat, release: bool, asyncs: Asyncs)
    requires Shape(s) && p in s.asyncs && s.asyncs[p].mode == Idle
    requires asyncs == s.asyncs[p := s.asyncs[p].(mode := Pending, release := release)]
    ensures Cookies(asyncs, s.queue, s.workers) && Queued(s.queue, asyncs) && Working(s.workers, asyncs)
  {
  }

  lemma FailedShape(s: State, p: nat, release: bool, s': State)
    requires Shape(s) && p in s.asyncs && s.asyncs[p].mode == Idle
    requires s' == s.(asyncs := s.asyncs[p := s.asyncs[p].(mode := Pending, release := release)],
                      log := s.log.(failed := s'.log.failed))
    ensures Shape(s')
  {
    var a := s.asyncs[p].(mode := Pending, release := release);
    ModeLinked(s.conns, s.asyncs, s.log.known, p, a);
    ModeOwned(s.asyncs, s.msgs, p, a);
    FailedClone(s, p, release, s'.asyncs);
  }

  lemma FailedStory(s: State, p: nat, release: bool, s': State)
    requires Story(s) && p in s.asyncs && s.asyncs[p].mode == Idle && s.asyncs[p].msg == 0 && 0 !in s.msgs
    requires s' == s.(asyncs := s.asyncs[p := s.asyncs[p].(mode := Pending, release := release)],
                      log := s.log.(failed := s'.log.failed))
    ensures Story(s')
  {
    ModeServes(s.asyncs, s.msgs, s.conns, s.log.requests, p, s'.asyncs[p]);
    SameLog(s.pc, s.msgs, s.log, s'.log);
    CarriedBy(s.asyncs, s.msgs, p, s'.asyncs, s.log, s'.log);
  }

  lemma FailedCloneKeeps(s: State, p: nat, release: bool, s': State)
    requires Inv(s) && p in s.asyncs && s.asyncs[p].mode == Idle
    requires s' == s.(asyncs := s.asyncs[p := s.asyncs[p].(mode := Pending, release := release)],
                      log := s.log.(failed := s'.log.failed))
    ensures Inv(s')
  {
    assert CookieOk(p, s.asyncs[p], s.queue, s.workers);
    FailedShape(s, p, release, s');
    FailedStory(s, p, release, s');
  }

  lemma CloneCookies(s: State, p: nat, a: Async)
    requires Cookies(s.asyncs, s.queue, s.workers) && Queued(s.queue, s.asyncs) && Working(s.workers, s.asyncs)
    requires p in s.asyncs && s.asyncs[p].mode == Idle && a.mode == Pending && a.msg != 0
    ensures Cookies(s.asyncs[p := a], s.queue + [p], s.workers) && Queued(s.queue + [p], s.asyncs[p := a])
    ensures Working(s.workers, s.asyncs[p := a])
  {
    assert forall q :: q in s.queue + [p] <==> q in s.queue || q == p;
    assert p !in s.queue;
  }

  lemma CloneOwned(asyncs: Asyncs, msgs: Msgs, p: nat, a: Async, m: Msg)
    requires Owned(asyncs, msgs) && p in asyncs && asyncs[p].msg == 0 && a.msg != 0 && a.msg !in msgs
    requires forall n :: n in msgs ==> msgs[n].req != m.req
    ensures Owned(asyncs[p := a], msgs[a.msg := m])
  {
    var asyncs' := asyncs[p := a];
    assert forall q, n :: n != 0 && n != a.msg ==> Owns(asyncs', q, n) == Owns(asyncs, q, n);
    assert Owns(asyncs', p, a.msg);
  }

  /** The request in hand has no clone while the cookie of its connection is idle. */
  lemma FreshClone(s: State, p: nat)
    requires Shape(s) && Serves(s.asyncs, s.msgs, s.conns, s.log.requests) && AtPc(s.pc, s.conns, s.log)
    requires s.pc.Handling? && p == s.conns[s.pc.conn].cookie && p in s.asyncs && s.asyncs[p].mode == Idle
    ensures forall n :: n in s.msgs ==> s.msgs[n].req != s.pc.req
    ensures !IsCloned(s.msgs, s.pc.req)
  {
    forall n | n in s.msgs
      ensures s.msgs[n].req != s.pc.req
    {
      var q :| Owns(s.asyncs, q, n);
      assert CookieOk(p, s.asyncs[p], s.queue, s.workers);
      assert q != p;
    }
  }

  lemma ClonedMore(msgs: Msgs, m: nat, msg: Msg)
    requires m !in msgs
    ensures forall r :: IsCloned(msgs[m := msg], r) <==> IsCloned(msgs, r) || r == msg.req
  {
    var msgs' := msgs[m := msg];
    assert m in msgs' && msgs'[m].req == msg.req;
    forall r | IsCloned(msgs, r)
      ensures IsCloned(msgs', r)
    {
      var n :| n in msgs && msgs[n].req == r;
      assert n in msgs' && msgs'[n].req == r;
    }
  }

  lemma CloneAccounted(s: State, m: nat, x: Accept, log: Log)
    requires Accounted(s.pc, s.msgs, s.log) && Recorded(s.log) && AtPc(s.pc, s.conns, s.log) && m !in s.msgs
    requires s.pc.Handling? && x.req == s.pc.req && !IsCloned(s.msgs, s.pc.req)
    requires log == s.log.(accepted := s.log.accepted + multiset{x})
    ensures Accounted(s.pc.(async := true), s.msgs[m := Msg(s.pc.req, s.pc.reply)], log) && Recorded(log)
    ensures AtPc(s.pc.(async := true), s.conns, log)
  {
    TakenMore(s.log.accepted, x);
    ClonedMore(s.msgs, m, Msg(s.pc.req, s.pc.reply));
    forall r | r in log.requests
      ensures Balanced(s.pc.(async := true), s.msgs[m := Msg(s.pc.req, s.pc.reply)], log, r)
    {
      assert Balanced(s.pc, s.msgs, s.log, r);
    }
  }

  lemma CloneProgress(s: State, p: nat, a: Async, x: Accept, log: Log)
    requires InProgress(s.msgs, s.log) && Serves(s.asyncs, s.msgs, s.conns, s.log.requests)
    requires AtPc(s.pc, s.conns, s.log)
    requires s.pc.Handling? && p in s.asyncs && a.msg !in s.msgs && a.sevr == s.pc.conn && a.mode == Pending
    requires forall q :: q in s.asyncs && q != p ==> s.asyncs[q].msg != a.msg
    requires x.req == s.pc.req && log == s.log.(accepted := s.log.accepted + multiset{x})
    ensures InProgress(s.msgs[a.msg := Msg(s.pc.req, s.pc.reply)], log)
    ensures Serves(s.asyncs[p := a], s.msgs[a.msg := Msg(s.pc.req, s.pc.reply)], s.conns, log.requests)
  {
    TakenMore(s.log.accepted, x);
  }

  lemma CloneCarried(s: State, p: nat, a: Async, msg: Msg, x: Accept, log: Log)
    requires Carried(s.asyncs, s.msgs, s.log) && !IsCloned(s.msgs, msg.req)
    requires p in s.asyncs && s.asyncs[p].mode == Idle && a.mode == Pending && a.msg !in s.msgs
    requires a.release == x.release
    requires forall q :: q in s.asyncs ==> s.asyncs[q].msg != a.msg
    requires x.req == msg.req && log == s.log.(accepted := s.log.accepted + multiset{x})
    ensures Carried(s.asyncs[p := a], s.msgs[a.msg := msg], log)
  {
    var asyncs, msgs := s.asyncs[p := a], s.msgs[a.msg := msg];
    assert forall q, y :: Holding(asyncs, msgs, q, y) <==> (if q == p then y == x else Holding(s.asyncs, s.msgs, q, y));
    assert Holding(asyncs, msgs, p, x);
    assert !Waiting(s.asyncs, s.msgs, x);
    forall y | y != x
      ensures Waiting(asyncs, msgs, y) == Waiting(s.asyncs, s.msgs, y)
    {
      if Waiting(s.asyncs, s.msgs, y) {
        var q :| Holding(s.asyncs, s.msgs, q, y);
        assert Holding(asyncs, msgs, q, y);
      }
      if Waiting(asyncs, msgs, y) {
        var q :| Holding(asyncs, msgs, q, y);
        assert Holding(s.asyncs, s.msgs, q, y);
      }
    }
  }

  lemma CloneDropped(s: State, x: Accept, log: Log)
    requires Dropped(s.log) && Carried(s.asyncs, s.msgs, s.log)
    requires Taken(s.log.accepted, x.req) == 0 ==> Ends(s.log.ended, x.req) == 0
    requires log == s.log.(accepted := s.log.accepted + multiset{x})
    ensures Dropped(log)
  {
    TakenMore(s.log.accepted, x);
    assert forall y :: s.log.discarded[y] <= s.log.accepted[y];
  }

  lemma CloneShape(s: State, p: nat, a: Async, s': State)
    requires Shape(s) && p in s.asyncs && s.asyncs[p].mode == Idle && s.pc.Handling? && !IsCloned(s.msgs, s.pc.req)
    requires a.msg != 0 && a.msg !in s.msgs && a.mode == Pending && a.sevr == s.asyncs[p].sevr
    requires s'.asyncs == s.asyncs[p := a] && s'.msgs == s.msgs[a.msg := Msg(s.pc.req, s.pc.reply)]
    requires s'.queue == s.queue + [p] && s'.conns == s.conns && s'.workers == s.workers && s'.fault == s.fault
    requires s'.log.known == s.log.known
    ensures Shape(s')
  {
    ModeLinked(s.conns, s.asyncs, s.log.known, p, a);
    CloneCookies(s, p, a);
    CloneOwned(s.asyncs, s.msgs, p, a, Msg(s.pc.req, s.pc.reply));
  }

  lemma CloneKeeps(s: State, p: nat, a: Async, s': State)
    requires Inv(s) && s.pc.Handling? && p in s.asyncs && s.asyncs[p].mode == Idle && p == s.conns[s.pc.conn].cookie
    requires a.msg != 0 && a.msg !in s.msgs && a.mode == Pending && a.sevr == s.asyncs[p].sevr == s.pc.conn
    requires s' == s.(asyncs := s.asyncs[p := a], msgs := s.msgs[a.msg := Msg(s.pc.req, s.pc.reply)],
                      queue := s.queue + [p], pc := s.pc.(async := true),
                      log := s.log.(accepted := s.log.accepted + multiset{Accept(s.pc.req, a.release)}))
    ensures Inv(s')
  {
    var x, msg := Accept(s.pc.req, a.release), Msg(s.pc.req, s.pc.reply);
    FreshClone(s, p);
    assert Balanced(s.pc, s.msgs, s.log, s.pc.req);
    assert forall q :: q in s.asyncs ==> s.asyncs[q].msg != a.msg;
    CloneShape(s, p, a, s');
    CloneAccounted(s, a.msg, x, s'.log);
    CloneProgress(s, p, a, x, s'.log);
    CloneCarried(s, p, a, msg, x, s'.log);
    CloneDropped(s, x, s'.log);
  }

  lemma ExecuteKeeps(s: State, m: nat, release: bool)
    requires s.pc.Handling? && m !in s.msgs && Inv(s)
    ensures Inv(DoExecute(s, m, release))
  {
    var p := s.conns[s.pc.conn].cookie;
    if p != 0 && s.asyncs[p].mode == Idle {
      assert CookieOk(p, s.asyncs[p], s.queue, s.workers);
      var a := s.asyncs[p].(mode := Pending, release := release, msg := m);
      if m == 0 {
        FailedCloneKeeps(s, p, release, DoExecute(s, m, release));
      } else {
        CloneKeeps(s, p, a, DoExecute(s, m, release));
      }
    }
  }

  // A request, or one of its clones, ends.

  lemma AnsweredMore(log: Log, e: End, log': Log)
    requires Answered(log) && e.req in log.requests && log'.requests == log.requests
    requires log'.ended == log.ended + multiset{e}
    requires log'.replies == if log.requests[e.req].reply && e.served && e.open
                             then log.replies + multiset{Reply(log.requests[e.req].conn, e.req)} else log.replies
    ensures Answered(log')
  {
  }

  lemma EndRecorded(log: Log, e: End, log': Log)
    requires Recorded(log) && e.req in log.requests && log'.requests == log.requests && log'.known == log.known
    requires log'.accepted == log.accepted && log'.ended == log.ended + multiset{e}
    ensures Recorded(log')
  {
    EndsMore(log.ended, e);
  }

  /** The handler of a request that was not passed on returns. */
  lemma ReturnAccounted(s: State, e: End, log: Log)
    requires Accounted(s.pc, s.msgs, s.log) && AtPc(s.pc, s.conns, s.log) && s.pc.Handling?
    requires log.requests == s.log.requests && log.accepted == s.log.accepted
    requires if s.pc.async then log.ended == s.log.ended
             else e.req == s.pc.req && log.ended == s.log.ended + multiset{e}
    ensures Accounted(Loop, s.msgs, log) && AtPc(Loop, s.conns, log)
  {
    EndsMore(s.log.ended, e);
    forall r | r in log.requests
      ensures Balanced(Loop, s.msgs, log, r)
    {
      assert Balanced(s.pc, s.msgs, s.log, r);
    }
  }

  lemma ReturnDropped(log: Log, e: End, log': Log)
    requires Dropped(log) && Taken(log.accepted, e.req) == 0 && log'.ended == log.ended + multiset{e}
    requires log'.accepted == log.accepted && log'.discarded == log.discarded && log'.dropped == log.dropped
    ensures Dropped(log')
  {
    EndsMore(log.ended, e);
  }

  lemma ReturnEnds(s: State, e: End, log: Log)
    requires Inv(s) && s.pc.Handling? && !s.pc.async && e.req == s.pc.req
    requires log == s.log.(ended := s.log.ended + multiset{e}, replies := log.replies)
    requires log.replies == if s.pc.reply && e.served && e.open
                            then s.log.replies + multiset{Reply(s.pc.conn, s.pc.req)} else s.log.replies
    ensures Inv(s.(pc := Loop, log := log))
  {
    ReturnAccounted(s, e, log);
    AnsweredMore(s.log, e, log);
    EndRecorded(s.log, e, log);
    ReturnDropped(s.log, e, log);
    CarriedLog(s.asyncs, s.msgs, s.log, log);
  }

  lemma ReturnKeeps(s: State, ok: bool)
    requires s.pc.Handling? && Inv(s)
    ensures Inv(DoReturn(s, ok))
  {
    if s.pc.async {
      ReturnAccounted(s, End(s.pc.req, true, ok), s.log);
    } else {
      ReturnEnds(s, End(s.pc.req, true, ok), DoReturn(s, ok).log);
    }
  }

  // Release: the connection is no longer open.

  /** A cookie leaves, and so does the connection it served. */
  lemma GoneLinked(s: State, c: nat, p: nat, conns: Conns)
    requires Linked(s.conns, s.asyncs, s.log.known) && IsOpen(s.conns, c) && s.conns[c].cookie == p
    requires conns == s.conns[c := Conn(p, false)] && 0 !in s.asyncs
    ensures p == 0 ==> Linked(conns, s.asyncs, s.log.known)
    ensures p != 0 ==> Linked(conns, s.asyncs - {p}, s.log.known)
    ensures p != 0 ==> Linked(conns, s.asyncs[p := s.asyncs[p].(mode := Exited, sevr := 0)], s.log.known)
  {
  }

  lemma GoneCookies(s: State, p: nat)
    requires Cookies(s.asyncs, s.queue, s.workers) && Queued(s.queue, s.asyncs) && Working(s.workers, s.asyncs)
    requires p in s.asyncs && !Flying(s.asyncs[p])
    ensures Cookies(s.asyncs - {p}, Without(s.queue, p), s.workers)
    ensures Queued(Without(s.queue, p), s.asyncs - {p}) && Working(s.workers, s.asyncs - {p})
  {
    WithoutIs(s.queue, p);
    WithoutNoRepeat(s.queue, p);
  }

  lemma EmptyGone(s: State, p: nat)
    requires Cookies(s.asyncs, s.queue, s.workers) && Queued(s.queue, s.asyncs) && Working(s.workers, s.asyncs)
    requires p in s.asyncs && !Flying(s.asyncs[p]) && s.asyncs[p].msg == 0
    ensures Cookies(s.asyncs - {p}, s.queue, s.workers)
    ensures Queued(s.queue, s.asyncs - {p}) && Working(s.workers, s.asyncs - {p})
  {
    assert p !in s.queue;
  }

  lemma ClosingAccounted(c: nat, msgs: Msgs, log: Log)
    requires Accounted(Loop, msgs, log)
    ensures Accounted(Closing(c), msgs, log)
  {
    assert forall r :: Balanced(Closing(c), msgs, log, r) == Balanced(Loop, msgs, log, r);
  }

  lemma GoneOwned(asyncs: Asyncs, msgs: Msgs, p: nat, msgs': Msgs)
    requires Owned(asyncs, msgs) && p in asyncs && msgs' == msgs - {asyncs[p].msg}
    ensures Owned(asyncs - {p}, msgs')
  {
    var asyncs' := asyncs - {p};
    assert forall q, m :: Owns(asyncs', q, m) == (q != p && Owns(asyncs, q, m));
    assert forall q :: q in asyncs ==> Owns(asyncs, q, asyncs[q].msg);
  }

  lemma GoneServes(s: State, c: nat, p: nat, conns: Conns, msgs: Msgs)
    requires Serves(s.asyncs, s.msgs, s.conns, s.log.requests)
    requires conns == s.conns[c := Conn(p, false)] && c in s.conns
    requires forall m :: m in msgs ==> m in s.msgs && msgs[m] == s.msgs[m]
    ensures Serves(s.asyncs, s.msgs, conns, s.log.requests)
    ensures Serves(s.asyncs - {p}, msgs, conns, s.log.requests)
  {
  }

  lemma ClosingPc(s: State, c: nat, log: Log, conns: Conns)
    requires AtPc(s.pc, s.conns, s.log) && s.pc == Loop && c in s.conns
    requires conns == s.conns[c := Conn(s.conns[c].cookie, false)]
    ensures AtPc(Closing(c), conns, log)
  {
  }

  /** The only clone of a request goes, and the request ends once more. */
  lemma EndAccounted(pc: Pc, msgs: Msgs, m: nat, e: End, log: Log, log': Log)
    requires Accounted(pc, msgs, log) && InProgress(msgs, log) && m in msgs && msgs[m].req == e.req
    requires forall n :: n in msgs && n != m ==> msgs[n].req != e.req
    requires log'.requests == log.requests && log'.accepted == log.accepted && log'.ended == log.ended + multiset{e}
    ensures Accounted(pc, msgs - {m}, log') && InProgress(msgs - {m}, log')
  {
    EndsMore(log.ended, e);
    ClonedLess(msgs, m);
    forall r | r in log'.requests
      ensures Balanced(pc, msgs - {m}, log', r)
    {
      assert Balanced(pc, msgs, log, r);
      assert r == e.req ==> IsCloned(msgs, r);
    }
  }

  lemma ClonedLess(msgs: Msgs, m: nat)
    requires m in msgs && forall n :: n in msgs && n != m ==> msgs[n].req != msgs[m].req
    ensures forall r :: IsCloned(msgs - {m}, r) <==> IsCloned(msgs, r) && r != msgs[m].req
  {
    var msgs' := msgs - {m};
    forall r | IsCloned(msgs, r) && r != msgs[m].req
      ensures IsCloned(msgs', r)
    {
      var n :| n in msgs && msgs[n].req == r;
      assert n in msgs' && msgs'[n].req == r;
    }
  }

  /** What was queued in `p` for `x` is queued no more, and nothing else changes in the queue. */
  lemma NoLongerWaiting(asyncs: Asyncs, msgs: Msgs, asyncs': Asyncs, msgs': Msgs, p: nat, x: Accept)
    requires Holding(asyncs, msgs, p, x) && Owned(asyncs, msgs)
    requires forall q, y :: Holding(asyncs', msgs', q, y) <==> q != p && Holding(asyncs, msgs, q, y)
    ensures Waiting(asyncs, msgs, x) && !Waiting(asyncs', msgs', x)
    ensures forall y :: y != x ==> Waiting(asyncs', msgs', y) == Waiting(asyncs, msgs, y)
  {
    OwnClone(asyncs, msgs, p);
    forall y | y != x && Waiting(asyncs, msgs, y)
      ensures Waiting(asyncs', msgs', y)
    {
      var q :| Holding(asyncs, msgs, q, y);
      assert q != p;
      assert Holding(asyncs', msgs', q, y);
    }
    forall y | y != x && Waiting(asyncs', msgs', y)
      ensures Waiting(asyncs, msgs, y)
    {
      var q :| Holding(asyncs', msgs', q, y);
      assert Holding(asyncs, msgs, q, y);
    }
    forall q
      ensures !Holding(asyncs', msgs', q, x)
    {
      assert Holding(asyncs', msgs', q, x) <==> q != p && Holding(asyncs, msgs, q, x);
    }
  }

  /** A request is cloned once, and its clone is in one cookie. */
  lemma OwnClone(asyncs: Asyncs, msgs: Msgs, p: nat)
    requires Owned(asyncs, msgs) && p in asyncs && asyncs[p].msg in msgs
    ensures forall q :: q in asyncs && q != p && asyncs[q].msg in msgs ==>
      msgs[asyncs[q].msg].req != msgs[asyncs[p].msg].req
    ensures forall n :: n in msgs && n != asyncs[p].msg ==> msgs[n].req != msgs[asyncs[p].msg].req
  {
    assert forall q :: q in asyncs ==> Owns(asyncs, q, asyncs[q].msg);
  }

  lemma GoneCarried(s: State, p: nat, x: Accept, log: Log)
    requires Carried(s.asyncs, s.msgs, s.log) && Owned(s.asyncs, s.msgs) && Holding(s.asyncs, s.msgs, p, x)
    requires log.accepted == s.log.accepted && log.started == s.log.started
    requires log.discarded == s.log.discarded + multiset{x}
    ensures Carried(s.asyncs - {p}, s.msgs - {s.asyncs[p].msg}, log)
  {
    var asyncs, msgs := s.asyncs - {p}, s.msgs - {s.asyncs[p].msg};
    assert forall q :: q in s.asyncs ==> Owns(s.asyncs, q, s.asyncs[q].msg);
    assert s.asyncs[p].msg != 0;
    forall q, y
      ensures Holding(asyncs, msgs, q, y) <==> q != p && Holding(s.asyncs, s.msgs, q, y)
    {
    }
    NoLongerWaiting(s.asyncs, s.msgs, asyncs, msgs, p, x);
  }

  lemma GoneDropped(log: Log, x: Accept, e: End, log': Log)
    requires Dropped(log) && e.req == x.req && !e.served && log'.accepted == log.accepted
    requires log'.discarded == log.discarded + multiset{x} && log'.ended == log.ended + multiset{e}
    requires log'.dropped == if x.release then log.dropped + multiset{x.req} else log.dropped
    ensures Dropped(log')
  {
    TakenMore(log.discarded, x);
    EndsMore(log.ended, e);
  }

  lemma DiscardShape(s: State, c: nat, p: nat, s': State)
    requires Shape(s) && IsOpen(s.conns, c) && s.conns[c].cookie == p && p in s.asyncs && !Flying(s.asyncs[p])
    requires !s'.fault
    requires s'.conns == s.conns[c := Conn(p, false)] && s'.queue == Without(s.queue, p) && s'.asyncs == s.asyncs - {p}
    requires s'.msgs == s.msgs - {s.asyncs[p].msg} && s'.workers == s.workers && s'.log.known == s.log.known
    ensures Shape(s')
  {
    GoneLinked(s, c, p, s'.conns);
    GoneCookies(s, p);
    GoneOwned(s.asyncs, s.msgs, p, s'.msgs);
  }

  lemma DiscardStory(s: State, c: nat, p: nat, e: End, s': State)
    requires Story(s) && Owned(s.asyncs, s.msgs) && s.pc == Loop && c in s.conns && s.conns[c].cookie == p
    requires p in s.asyncs && s.asyncs[p].mode == Pending && s.asyncs[p].msg in s.msgs
    requires e.req == s.msgs[s.asyncs[p].msg].req && !e.served
    requires s' == s.(conns := s.conns[c := Conn(p, false)], pc := Closing(c), queue := s'.queue,
                      asyncs := s.asyncs - {p}, msgs := s.msgs - {s.asyncs[p].msg},
                      log := Discarded(s.log, Accept(e.req, s.asyncs[p].release), e))
    ensures Story(s')
  {
    var x := Accept(e.req, s.asyncs[p].release);
    OwnClone(s.asyncs, s.msgs, p);
    GoneServes(s, c, p, s'.conns, s'.msgs);
    ClosingPc(s, c, s'.log, s'.conns);
    EndAccounted(Loop, s.msgs, s.asyncs[p].msg, e, s.log, s'.log);
    ClosingAccounted(c, s'.msgs, s'.log);
    EndRecorded(s.log, e, s'.log);
    AnsweredMore(s.log, e, s'.log);
    assert Holding(s.asyncs, s.msgs, p, x);
    GoneCarried(s, p, x, s'.log);
    GoneDropped(s.log, x, e, s'.log);
  }

  /** The log after a queued clone is discarded. */
  ghost function Discarded(log: Log, x: Accept, e: End): Log {
    log.(discarded := log.discarded + multiset{x}, ended := log.ended + multiset{e},
         dropped := if x.release then log.dropped + multiset{x.req} else log.dropped)
  }

  /** ipc_async_release of a queued request. */
  lemma DiscardKeeps(s: State, c: nat, p: nat, e: End, s': State)
    requires Inv(s) && s.pc == Loop && IsOpen(s.conns, c) && s.conns[c].cookie == p && p in s.asyncs
    requires s.asyncs[p].mode == Pending && s.asyncs[p].msg in s.msgs
    requires e.req == s.msgs[s.asyncs[p].msg].req && !e.served
    requires s' == s.(conns := s.conns[c := Conn(p, false)], pc := Closing(c), queue := Without(s.queue, p),
                      asyncs := s.asyncs - {p}, msgs := s.msgs - {s.asyncs[p].msg},
                      log := Discarded(s.log, Accept(e.req, s.asyncs[p].release), e))
    ensures Inv(s')
  {
    DiscardShape(s, c, p, s');
    DiscardStory(s, c, p, e, s');
  }

  lemma EmptyOwned(asyncs: Asyncs, msgs: Msgs, p: nat)
    requires Owned(asyncs, msgs) && p in asyncs && asyncs[p].msg == 0
    ensures Owned(asyncs - {p}, msgs)
  {
    assert msgs == msgs - {0};
    GoneOwned(asyncs, msgs, p, msgs);
  }

  lemma EmptyShape(s: State, c: nat, p: nat, s': State)
    requires Shape(s) && IsOpen(s.conns, c) && s.conns[c].cookie == p && p in s.asyncs
    requires !Flying(s.asyncs[p]) && s.asyncs[p].msg == 0
    requires s' == s.(conns := s.conns[c := Conn(p, false)], pc := Closing(c), asyncs := s.asyncs - {p},
                      log := s.log.(bare := s'.log.bare))
    ensures Shape(s')
  {
    GoneLinked(s, c, p, s'.conns);
    EmptyGone(s, p);
    EmptyOwned(s.asyncs, s.msgs, p);
  }

  /** ipc_async_release of a cookie without a message: idle, or left behind by a failed clone. */
  lemma EmptyKeeps(s: State, c: nat, p: nat, s': State)
    requires Inv(s) && s.pc == Loop && IsOpen(s.conns, c) && s.conns[c].cookie == p && p in s.asyncs
    requires !Flying(s.asyncs[p]) && s.asyncs[p].msg == 0
    requires s' == s.(conns := s.conns[c := Conn(p, false)], pc := Closing(c), asyncs := s.asyncs - {p},
                      log := s.log.(bare := s'.log.bare))
    ensures Inv(s')
  {
    EmptyShape(s, c, p, s');
    EmptyStory(s, c, p, s');
  }

  lemma EmptyStory(s: State, c: nat, p: nat, s': State)
    requires Story(s) && s.pc == Loop && IsOpen(s.conns, c) && s.conns[c].cookie == p && p in s.asyncs
    requires s.asyncs[p].msg == 0 && 0 !in s.msgs
    requires s' == s.(conns := s.conns[c := Conn(p, false)], pc := Closing(c), asyncs := s.asyncs - {p},
                      log := s.log.(bare := s'.log.bare))
    ensures Story(s')
  {
    GoneServes(s, c, p, s'.conns, s.msgs);
    SameLog(Loop, s.msgs, s.log, s'.log);
    CarriedBy(s.asyncs, s.msgs, p, s'.asyncs, s.log, s'.log);
    ClosingPc(s, c, s'.log, s'.conns);
    ClosingAccounted(c, s.msgs, s'.log);
  }

  /** A connection without a cookie. */
  lemma BareKeeps(s: State, c: nat, s': State)
    requires Inv(s) && s.pc == Loop && IsOpen(s.conns, c) && s.conns[c].cookie == 0
    requires s' == s.(conns := s.conns[c := Conn(0, false)], pc := Closing(c))
    ensures Inv(s')
  {
    GoneLinked(s, c, 0, s'.conns);
    GoneServes(s, c, 0, s'.conns, s.msgs);
    ClosingPc(s, c, s.log, s'.conns);
    ClosingAccounted(c, s.msgs, s.log);
  }

  lemma ExitedShape(s: State, c: nat, p: nat, s': State)
    requires Shape(s) && IsOpen(s.conns, c) && s.conns[c].cookie == p && p in s.asyncs && s.asyncs[p].mode == Executing
    requires s' == s.(conns := s.conns[c := Conn(p, false)], pc := Closing(c),
                      asyncs := s.asyncs[p := s.asyncs[p].(mode := Exited, sevr := 0)])
    ensures Shape(s')
  {
    GoneLinked(s, c, p, s'.conns);
    ModeOwned(s.asyncs, s.msgs, p, s'.asyncs[p]);
    ExitedCookies(s, p, s'.asyncs[p]);
  }

  lemma ExitedCookies(s: State, p: nat, a: Async)
    requires Cookies(s.asyncs, s.queue, s.workers) && Queued(s.queue, s.asyncs) && Working(s.workers, s.asyncs)
    requires p in s.asyncs && s.asyncs[p].mode == Executing && a.mode == Exited && a.msg == s.asyncs[p].msg
    ensures Cookies(s.asyncs[p := a], s.queue, s.workers)
    ensures Queued(s.queue, s.asyncs[p := a]) && Working(s.workers, s.asyncs[p := a])
  {
  }

  lemma ExitedServes(s: State, c: nat, p: nat, conns: Conns, a: Async)
    requires Serves(s.asyncs, s.msgs, s.conns, s.log.requests) && p in s.asyncs && s.asyncs[p].mode == Executing
    requires s.asyncs[p].sevr == c && conns == s.conns[c := Conn(p, false)] && c in s.conns
    requires a == s.asyncs[p].(mode := Exited, sevr := 0)
    ensures Serves(s.asyncs[p := a], s.msgs, conns, s.log.requests)
  {
  }

  /** ipc_async_release of a cookie that a worker has: the worker will free it. */
  lemma ExitedKeeps(s: State, c: nat, p: nat, s': State)
    requires Inv(s) && s.pc == Loop && IsOpen(s.conns, c) && s.conns[c].cookie == p
    requires p in s.asyncs && s.asyncs[p].mode == Executing
    requires s' == s.(conns := s.conns[c := Conn(p, false)], pc := Closing(c),
                      asyncs := s.asyncs[p := s.asyncs[p].(mode := Exited, sevr := 0)])
    ensures Inv(s')
  {
    ExitedShape(s, c, p, s');
    ExitedStory(s, c, p, s');
  }

  lemma ExitedStory(s: State, c: nat, p: nat, s': State)
    requires Story(s) && s.pc == Loop && c in s.conns && s.conns[c].cookie == p
    requires p in s.asyncs && s.asyncs[p].mode == Executing && s.asyncs[p].sevr == c
    requires s' == s.(conns := s.conns[c := Conn(p, false)], pc := Closing(c),
                      asyncs := s.asyncs[p := s.asyncs[p].(mode := Exited, sevr := 0)])
    ensures Story(s')
  {
    ExitedServes(s, c, p, s'.conns, s'.asyncs[p]);
    CarriedBy(s.asyncs, s.msgs, p, s'.asyncs, s.log, s.log);
    ClosingPc(s, c, s.log, s'.conns);
    ClosingAccounted(c, s.msgs, s.log);
  }

  lemma ReleaseKeeps(s: State, c: nat)
    requires s.pc == Loop && IsOpen(s.conns, c) && Inv(s)
    ensures Inv(DoRelease(s, c))
  {
    var p := s.conns[c].cookie;
    var s' := DoRelease(s, c);
    if p == 0 {
      BareKeeps(s, c, s');
    } else {
      assert p in s.asyncs && CookieOk(p, s.asyncs[p], s.queue, s.workers) && s.asyncs[p].mode != Exited;
      if s.asyncs[p].mode == Executing {
        ExitedKeeps(s, c, p, s');
      } else if s.asyncs[p].msg == 0 {
        ReleaseEmpty(s, c, p, s');
      } else {
        ReleaseQueued(s, c, p, s');
      }
    }
  }

  lemma ReleaseQueued(s: State, c: nat, p: nat, s': State)
    requires s.pc == Loop && IsOpen(s.conns, c) && Inv(s) && p == s.conns[c].cookie && p in s.asyncs && p != 0
    requires s.asyncs[p].mode == Pending && s.asyncs[p].msg != 0 && s' == DoRelease(s, c)
    ensures Inv(s')
  {
    var r := s.msgs[s.asyncs[p].msg].req;
    DiscardKeeps(s, c, p, End(r, OpenFor(s.(conns := s'.conns), r), false), s');
  }

  lemma ReleaseEmpty(s: State, c: nat, p: nat, s': State)
    requires s.pc == Loop && IsOpen(s.conns, c) && Inv(s) && p == s.conns[c].cookie && p in s.asyncs
    requires !Flying(s.asyncs[p]) && s.asyncs[p].msg == 0 && s' == DoRelease(s, c) && p != 0
    ensures Inv(s')
  {
    assert CookieOk(p, s.asyncs[p], s.queue, s.workers);
    assert p !in s.queue;
    WithoutAbsent(s.queue, p);
    EmptyKeeps(s, c, p, s');
  }

  // Close: its memory is freed.

  lemma CloseLinks(s: State, conns: Conns)
    requires Linked(s.conns, s.asyncs, s.log.known) && Serves(s.asyncs, s.msgs, s.conns, s.log.requests)
    requires AtPc(s.pc, s.conns, s.log) && s.pc.Closing? && !IsOpen(s.conns, s.pc.conn)
    requires conns == s.conns - {s.pc.conn}
    ensures Linked(conns, s.asyncs, s.log.known) && Serves(s.asyncs, s.msgs, conns, s.log.requests)
    ensures AtPc(Loop, conns, s.log)
  {
  }

  lemma CloseKeeps(s: State)
    requires s.pc.Closing? && Inv(s)
    ensures Inv(DoClose(s))
  {
    CloseLinks(s, s.conns - {s.pc.conn});
    assert forall r :: Balanced(Loop, s.msgs, s.log, r) == Balanced(s.pc, s.msgs, s.log, r);
  }

  // Pick: a worker takes the first of the queue.

  lemma PickCookies(s: State, t: nat, a: Async)
    requires Cookies(s.asyncs, s.queue, s.workers) && Queued(s.queue, s.asyncs) && Working(s.workers, s.asyncs)
    requires s.queue != [] && t !in s.workers && s.queue[0] in s.asyncs
    requires a.mode == Executing && a.msg == s.asyncs[s.queue[0]].msg
    ensures Cookies(s.asyncs[s.queue[0] := a], s.queue[1..], s.workers[t := s.queue[0]])
    ensures Queued(s.queue[1..], s.asyncs[s.queue[0] := a])
    ensures Working(s.workers[t := s.queue[0]], s.asyncs[s.queue[0] := a])
  {
    var p, w := s.queue[0], s.workers[t := s.queue[0]];
    assert s.asyncs[p].mode == Pending && a.msg != 0;
    assert s.queue == [p] + s.queue[1..];
    assert p !in s.queue[1..];
    assert t in w && w[t] == p;
    forall q | HasWorker(s.workers, q)
      ensures HasWorker(w, q)
    {
      var u :| u in s.workers && s.workers[u] == q;
      assert u in w && w[u] == q;
    }
  }

  lemma PickCarried(s: State, p: nat, a: Async, x: Accept, log: Log)
    requires Carried(s.asyncs, s.msgs, s.log) && Owned(s.asyncs, s.msgs) && Holding(s.asyncs, s.msgs, p, x)
    requires a.mode == Executing && log == s.log.(started := s.log.started + multiset{x})
    ensures Carried(s.asyncs[p := a], s.msgs, log)
  {
    NoLongerWaiting(s.asyncs, s.msgs, s.asyncs[p := a], s.msgs, p, x);
  }

  lemma PickAccounted(pc: Pc, conns: Conns, msgs: Msgs, log: Log, log': Log)
    requires InProgress(msgs, log) && Accounted(pc, msgs, log) && Answered(log) && Dropped(log) && Recorded(log)
    requires AtPc(pc, conns, log) && log' == log.(started := log'.started)
    ensures InProgress(msgs, log') && Accounted(pc, msgs, log') && Answered(log') && Dropped(log') && Recorded(log')
    ensures AtPc(pc, conns, log')
  {
    assert forall r :: Balanced(pc, msgs, log', r) == Balanced(pc, msgs, log, r);
  }

  lemma PickKeeps(s: State, t: nat)
    requires t !in s.workers && s.queue != [] && Inv(s)
    ensures Inv(DoPick(s, t))
  {
    var p := s.queue[0];
    assert p in s.queue && CookieOk(p, s.asyncs[p], s.queue, s.workers);
    var a := s.asyncs[p].(mode := Executing);
    var x := Accept(s.msgs[a.msg].req, a.release);
    ModeLinked(s.conns, s.asyncs, s.log.known, p, a);
    ModeOwned(s.asyncs, s.msgs, p, a);
    ModeServes(s.asyncs, s.msgs, s.conns, s.log.requests, p, a);
    PickCookies(s, t, a);
    assert Holding(s.asyncs, s.msgs, p, x);
    PickCarried(s, p, a, x, DoPick(s, t).log);
    PickAccounted(s.pc, s.conns, s.msgs, s.log, DoPick(s, t).log);
  }

  // Finish: the worker answers if it may, and frees.

  lemma OneWorkerLess(s: State, t: nat, w: Workers)
    requires Cookies(s.asyncs, s.queue, s.workers) && Working(s.workers, s.asyncs) && t in s.workers
    requires w == s.workers - {t}
    ensures forall q :: q != s.workers[t] && HasWorker(s.workers, q) ==> HasWorker(w, q)
    ensures forall u :: u in w ==> w[u] != s.workers[t]
  {
    forall q | q != s.workers[t] && HasWorker(s.workers, q)
      ensures HasWorker(w, q)
    {
      var u :| u in s.workers && s.workers[u] == q;
      assert u in w && w[u] == q;
    }
  }

  lemma FinishCookies(s: State, t: nat, p: nat, asyncs: Asyncs, w: Workers)
    requires Cookies(s.asyncs, s.queue, s.workers) && Queued(s.queue, s.asyncs) && Working(s.workers, s.asyncs)
    requires t in s.workers && p == s.workers[t] && w == s.workers - {t}
    requires asyncs == s.asyncs - {p}
      || (p in asyncs && asyncs[p].mode == Idle && asyncs[p].msg == 0 && !asyncs[p].release
                                          && asyncs == s.asyncs[p := asyncs[p]])
    ensures Cookies(asyncs, s.queue, w) && Queued(s.queue, asyncs) && Working(w, asyncs)
  {
    OneWorkerLess(s, t, w);
    assert p !in s.queue;
  }

  lemma ExitedLinked(s: State, p: nat)
    requires Linked(s.conns, s.asyncs, s.log.known) && p in s.asyncs && s.asyncs[p].mode == Exited
    ensures Linked(s.conns, s.asyncs - {p}, s.log.known)
  {
  }

  lemma FinishGone(s: State, t: nat, p: nat, s': State)
    requires Shape(s) && t in s.workers && p == s.workers[t] && s.asyncs[p].mode == Exited && !s'.fault
    requires s'.asyncs == s.asyncs - {p} && s'.msgs == s.msgs - {s.asyncs[p].msg} && s'.workers == s.workers - {t}
    requires s'.conns == s.conns && s'.log.known == s.log.known && s'.queue == s.queue
    ensures Shape(s')
  {
    GoneOwned(s.asyncs, s.msgs, p, s'.msgs);
    ExitedLinked(s, p);
    FinishCookies(s, t, p, s'.asyncs, s'.workers);
  }

  lemma IdleOwned(asyncs: Asyncs, msgs: Msgs, p: nat, a: Async, msgs': Msgs)
    requires Owned(asyncs, msgs) && p in asyncs && a.msg == 0 && msgs' == msgs - {asyncs[p].msg}
    ensures Owned(asyncs[p := a], msgs')
  {
    var asyncs' := asyncs[p := a];
    assert forall q, m :: m != 0 ==> Owns(asyncs', q, m) == (q != p && Owns(asyncs, q, m));
    assert forall q :: q in asyncs ==> Owns(asyncs, q, asyncs[q].msg);
  }

  lemma FinishIdle(s: State, t: nat, p: nat, a: Async, s': State)
    requires Shape(s) && t in s.workers && p == s.workers[t] && s.asyncs[p].mode == Executing && !s'.fault
    requires a == Async(Idle, s.asyncs[p].sevr, 0, false)
    requires s'.asyncs == s.asyncs[p := a] && s'.msgs == s.msgs - {s.asyncs[p].msg} && s'.workers == s.workers - {t}
    requires s'.conns == s.conns && s'.log.known == s.log.known && s'.queue == s.queue
    ensures Shape(s')
  {
    IdleOwned(s.asyncs, s.msgs, p, a, s'.msgs);
    ModeLinked(s.conns, s.asyncs, s.log.known, p, a);
    FinishCookies(s, t, p, s'.asyncs, s'.workers);
  }

  lemma FinishServes(s: State, p: nat, asyncs: Asyncs, msgs: Msgs)
    requires Serves(s.asyncs, s.msgs, s.conns, s.log.requests) && 0 !in s.msgs
    requires forall q :: q in asyncs ==> (q in s.asyncs && asyncs[q] == s.asyncs[q]) || asyncs[q].msg == 0
    requires forall m :: m in msgs ==> m in s.msgs && msgs[m] == s.msgs[m]
    ensures Serves(asyncs, msgs, s.conns, s.log.requests)
  {
  }

  lemma FinishCarried(s: State, p: nat, asyncs: Asyncs, msgs: Msgs, log: Log)
    requires Carried(s.asyncs, s.msgs, s.log) && Owned(s.asyncs, s.msgs) && p in s.asyncs && Flying(s.asyncs[p])
    requires asyncs == s.asyncs - {p} || (p in asyncs && asyncs[p].mode == Idle && asyncs == s.asyncs[p := asyncs[p]])
    requires msgs == s.msgs - {s.asyncs[p].msg} && s.asyncs[p].msg != 0
    requires log.accepted == s.log.accepted && log.started == s.log.started && log.discarded == s.log.discarded
    ensures Carried(asyncs, msgs, log)
  {
    assert forall q :: q in s.asyncs ==> Owns(s.asyncs, q, s.asyncs[q].msg);
    forall x
      ensures Waiting(asyncs, msgs, x) == Waiting(s.asyncs, s.msgs, x)
    {
      assert forall q :: Holding(asyncs, msgs, q, x) == Holding(s.asyncs, s.msgs, q, x);
      if Waiting(s.asyncs, s.msgs, x) {
        var q :| Holding(s.asyncs, s.msgs, q, x);
        assert Holding(asyncs, msgs, q, x);
      }
    }
  }

  lemma FinishDropped(log: Log, e: End, log': Log)
    requires Dropped(log) && e.served && log'.ended == log.ended + multiset{e}
    requires log'.accepted == log.accepted && log'.discarded == log.discarded && log'.dropped == log.dropped
    ensures Dropped(log')
  {
    EndsMore(log.ended, e);
  }

  /** The worker's function was served by the call; the reply goes out exactly if the connection is open. */
  lemma FinishStory(s: State, p: nat, e: End, s': State)
    requires Story(s) && Owned(s.asyncs, s.msgs) && p in s.asyncs && Flying(s.asyncs[p]) && s.asyncs[p].msg in s.msgs
    requires e.req == s.msgs[s.asyncs[p].msg].req && e.served && s'.msgs == s.msgs - {s.asyncs[p].msg}
    requires s' == s.(asyncs := s'.asyncs, msgs := s'.msgs, workers := s'.workers,
                      log := s.log.(replies := s'.log.replies, ended := s.log.ended + multiset{e}))
    requires e.req in s.log.requests
    requires s'.log.replies == if s.log.requests[e.req].reply && e.open
                               then s.log.replies + multiset{Reply(s.log.requests[e.req].conn, e.req)}
                               else s.log.replies
    requires s'.asyncs == s.asyncs - {p}
      || (p in s'.asyncs && s'.asyncs[p].mode == Idle && s'.asyncs[p].msg == 0
        && s'.asyncs == s.asyncs[p := s'.asyncs[p]])
    ensures Story(s')
  {
    OwnClone(s.asyncs, s.msgs, p);
    FinishServes(s, p, s'.asyncs, s'.msgs);
    EndAccounted(s.pc, s.msgs, s.asyncs[p].msg, e, s.log, s'.log);
    EndRecorded(s.log, e, s'.log);
    AnsweredMore(s.log, e, s'.log);
    FinishCarried(s, p, s'.asyncs, s'.msgs, s'.log);
    FinishDropped(s.log, e, s'.log);
  }

  /** Whether the connection is open, and which one it is, as the cookie says. */
  lemma FinishOpen(s: State, p: nat)
    requires Linked(s.conns, s.asyncs, s.log.known) && Serves(s.asyncs, s.msgs, s.conns, s.log.requests)
    requires InProgress(s.msgs, s.log) && p in s.asyncs && s.asyncs[p].msg in s.msgs
    ensures var r := s.msgs[s.asyncs[p].msg].req;
      && r in s.log.requests && s.log.requests[r].reply == s.msgs[s.asyncs[p].msg].reply
      && (OpenFor(s, r) <==> s.asyncs[p].mode != Exited)
      && (s.asyncs[p].mode != Exited ==> s.asyncs[p].sevr == s.log.requests[r].conn && s.asyncs[p].sevr in s.conns)
  {
  }

  lemma FinishIs(s: State, t: nat, p: nat)
    requires t in s.workers && p == s.workers[t] && p in s.asyncs && s.asyncs[p].msg in s.msgs
    requires s.asyncs[p].mode != Exited ==> s.asyncs[p].sevr in s.conns
    ensures var s' := DoFinish(s, t);
      && s'.fault == s.fault && s'.msgs == s.msgs - {s.asyncs[p].msg} && s'.workers == s.workers - {t}
      && s'.conns == s.conns && s'.log.known == s.log.known && s'.queue == s.queue && s'.pc == s.pc
      && s'.asyncs == if s.asyncs[p].mode == Exited then s.asyncs - {p}
                      else s.asyncs[p := Async(Idle, s.asyncs[p].sevr, 0, false)]
  {
  }

  lemma FinishShape(s: State, t: nat, p: nat)
    requires Shape(s) && t in s.workers && p == s.workers[t] && p in s.asyncs && s.asyncs[p].msg in s.msgs
    requires s.asyncs[p].mode != Exited ==> s.asyncs[p].sevr in s.conns
    ensures Shape(DoFinish(s, t))
  {
    var s' := DoFinish(s, t);
    FinishIs(s, t, p);
    if s.asyncs[p].mode == Exited {
      FinishGone(s, t, p, s');
    } else {
      FinishIdle(s, t, p, Async(Idle, s.asyncs[p].sevr, 0, false), s');
    }
  }

  lemma FinishKeeps(s: State, t: nat)
    requires t in s.workers && Inv(s)
    ensures Inv(DoFinish(s, t))
  {
    var p, s' := s.workers[t], DoFinish(s, t);
    assert CookieOk(p, s.asyncs[p], s.queue, s.workers);
    var r := s.msgs[s.asyncs[p].msg].req;
    FinishOpen(s, p);
    FinishShape(s, t, p);
    FinishStory(s, p, End(r, OpenFor(s, r), true), s');
  }

  // ---- whole runs ----

  lemma StepKeeps(s: State, e: Event)
    requires Inv(s) && Enabled(s, e)
    ensures Inv(Apply(s, e))
  {
    match e
    case Open(c) => OpenKeeps(s, c);
    case Bind(c, p) => BindKeeps(s, c, p);
    case Begin(c, r, reply) => BeginKeeps(s, c, r, reply);
    case Execute(m, release) => ExecuteKeeps(s, m, release);
    case Return(ok) => ReturnKeeps(s, ok);
    case Release(c) => ReleaseKeeps(s, c);
    case Close => CloseKeeps(s);
    case Pick(t) => PickKeeps(s, t);
    case Work(t) => WorkSafe(s, t);
    case Finish(t) => FinishKeeps(s, t);
  }

  lemma WorkSafe(s: State, t: nat)
    requires Inv(s) && t in s.workers
    ensures DoWork(s, t) == s
  {
    var p := s.workers[t];
    assert CookieOk(p, s.asyncs[p], s.queue, s.workers);
  }

  lemma {:induction false} RunKeeps(ss: seq<State>, es: seq<Event>, i: nat)
    requires Run(ss, es) && i < |ss|
    ensures Inv(ss[i])
  {
    if i == 0 {
      Begins();
    } else {
      var k := i - 1;
      RunKeeps(ss, es, k);
      StepKeeps(ss[k], es[k]);
      assert ss[k + 1] == Apply(ss[k], es[k]);
    }
  }

  /**
   No run ever uses freed memory, frees twice, or fails an assert.  A request that asked for replies has
   got exactly one for each time it was served while its connection was open; every successful execute
   led to a call of the function, or to a discarded clone with its release callback, or is queued.
   */
  lemma RunSafe(ss: seq<State>, es: seq<Event>, i: nat)
    requires Run(ss, es) && i < |ss|
    ensures !ss[i].fault && Answered(ss[i].log)
    ensures Carried(ss[i].asyncs, ss[i].msgs, ss[i].log) && Dropped(ss[i].log)
    ensures Accounted(ss[i].pc, ss[i].msgs, ss[i].log)
  {
    RunKeeps(ss, es, i);
  }

  /**
   A request passed on is replied to, if it asked for replies, as often as its clones were finished on an
   open connection; and each clone whose function was called has finished or is still with a worker.
   */
  lemma RepliesCounted(ss: seq<State>, es: seq<Event>, i: nat, r: nat)
    requires Run(ss, es) && i < |ss| && Taken(ss[i].log.accepted, r) > 0
    ensures var s := ss[i];
      && r in s.log.requests
      && s.log.replies[Reply(s.log.requests[r].conn, r)] ==
         (if s.log.requests[r].reply then s.log.ended[End(r, true, true)] else 0)
      && Served(s.log.ended, r) <= Taken(s.log.started, r) <= Taken(s.log.accepted, r)
      && (!IsCloned(s.msgs, r) ==> Served(s.log.ended, r) == Taken(s.log.started, r))
  {
    RunKeeps(ss, es, i);
    var s := ss[i];
    assert Balanced(s.pc, s.msgs, s.log, r);
    var x, y := Accept(r, true), Accept(r, false);
    OneWaits(s.asyncs, s.msgs, r);
    assert s.log.accepted[x] == s.log.started[x] + s.log.discarded[x] + if Waiting(s.asyncs, s.msgs, x) then 1 else 0;
    assert s.log.accepted[y] == s.log.started[y] + s.log.discarded[y] + if Waiting(s.asyncs, s.msgs, y) then 1 else 0;
  }

  lemma OneWaits(asyncs: Asyncs, msgs: Msgs, r: nat)
    requires Owned(asyncs, msgs)
    ensures !(Waiting(asyncs, msgs, Accept(r, true)) && Waiting(asyncs, msgs, Accept(r, false)))
    ensures forall x: Accept :: x.req == r && Waiting(asyncs, msgs, x) ==> IsCloned(msgs, r)
  {
    if p, q :| Holding(asyncs, msgs, p, Accept(r, true)) && Holding(asyncs, msgs, q, Accept(r, false)) {
      OwnClone(asyncs, msgs, p);
    }
  }

  /** The release callback was called once if it was given and the function was not called, and not otherwise. */
  predicate CalledBack(log: Log, r: nat) {
    || (Taken(log.started, r) == 1 && log.dropped[r] == 0)
    || (Taken(log.started, r) == 0 && log.dropped[r] == log.accepted[Accept(r, true)])
  }

  /**
   A request passed on at most once ends at most once; it is replied to exactly once if it asked for it and
   was served while its connection was open, and never otherwise.
   */
  lemma OnceEach(ss: seq<State>, es: seq<Event>, i: nat, r: nat)
    requires Run(ss, es) && i < |ss| && r in ss[i].log.requests && Taken(ss[i].log.accepted, r) <= 1
    ensures var log := ss[i].log;
      && Ends(log.ended, r) <= 1
      && log.replies[Reply(log.requests[r].conn, r)] ==
           (if log.requests[r].reply && End(r, true, true) in log.ended then 1 else 0)
      && (Taken(log.accepted, r) == 1 && Ends(log.ended, r) == 1 ==> CalledBack(log, r))
  {
    RunKeeps(ss, es, i);
    var s := ss[i];
    assert Balanced(s.pc, s.msgs, s.log, r);
    var x, y := Accept(r, true), Accept(r, false);
    OneWaits(s.asyncs, s.msgs, r);
    assert s.log.accepted[x] == s.log.started[x] + s.log.discarded[x] + if Waiting(s.asyncs, s.msgs, x) then 1 else 0;
    assert s.log.accepted[y] == s.log.started[y] + s.log.discarded[y] + if Waiting(s.asyncs, s.msgs, y) then 1 else 0;
  }

  lemma NoCookies(s: State)
    requires Linked(s.conns, s.asyncs, s.log.known) && Cookies(s.asyncs, s.queue, s.workers)
    requires s.conns == map[] && s.workers == map[]
    ensures s.asyncs == map[]
  {
  }

  /** Nothing is leaked: when every connection is gone and no worker is busy, all memory is free. */
  lemma NoLeak(ss: seq<State>, es: seq<Event>, i: nat)
    requires Run(ss, es) && i < |ss| && ss[i].conns == map[] && ss[i].workers == map[]
    ensures ss[i].asyncs == map[] && ss[i].msgs == map[]
  {
    RunKeeps(ss, es, i);
    NoCookies(ss[i]);
  }

  /** A connection has at most one request in flight. */
  lemma OneInFlight(ss: seq<State>, es: seq<Event>, i: nat, m: nat, n: nat)
    requires Run(ss, es) && i < |ss| && m in ss[i].msgs && n in ss[i].msgs
    requires var s := ss[i];
      && s.msgs[m].req in s.log.requests && s.msgs[n].req in s.log.requests
      && s.log.requests[s.msgs[m].req].conn == s.log.requests[s.msgs[n].req].conn
      && IsOpen(s.conns, s.log.requests[s.msgs[m].req].conn)
    ensures m == n
  {
    RunKeeps(ss, es, i);
    var s := ss[i];
    var p :| Owns(s.asyncs, p, m);
    var q :| Owns(s.asyncs, q, n);
    assert s.asyncs[p].sevr == s.asyncs[q].sevr;
  }

  /** When the machine rests, every request is over: once for each time it was passed on, or once. */
  lemma AllEnd(ss: seq<State>, es: seq<Event>, i: nat, r: nat)
    requires Run(ss, es) && i < |ss| && r in ss[i].log.requests
    requires ss[i].pc == Loop && ss[i].queue == [] && ss[i].workers == map[]
    ensures Over(ss[i], r)
    ensures Ends(ss[i].log.ended, r) == if Taken(ss[i].log.accepted, r) > 0 then Taken(ss[i].log.accepted, r) else 1
  {
    RunKeeps(ss, es, i);
    var s := ss[i];
    assert forall p :: p in s.asyncs ==> CookieOk(p, s.asyncs[p], s.queue, s.workers);
    assert forall p :: p in s.asyncs ==> s.asyncs[p].msg == 0;
    assert s.msgs == map[];
    assert Balanced(s.pc, s.msgs, s.log, r);
  }

  /** The request is known, its handler has returned, and it has no clone. */
  ghost predicate Over(s: State, r: nat) {
    r in s.log.requests && !IsCloned(s.msgs, r) && !(s.pc.Handling? && s.pc.req == r)
  }

  ghost predicate SameFor(log: Log, log': Log, r: nat) {
    && Taken(log'.accepted, r) == Taken(log.accepted, r) && Ends(log'.ended, r) == Ends(log.ended, r)
    && forall c :: log'.replies[Reply(c, r)] == log.replies[Reply(c, r)]
  }

  lemma ExecuteOver(s: State, m: nat, release: bool, r: nat)
    requires s.pc.Handling? && m !in s.msgs && Over(s, r)
    ensures SameFor(s.log, DoExecute(s, m, release).log, r) && Over(DoExecute(s, m, release), r)
  {
    TakenMore(s.log.accepted, Accept(s.pc.req, release));
  }

  /** What a step that ends the request of `e`, and sends a reply if `sent`, does to the log. */
  ghost predicate LogEnds(log: Log, e: End, c: nat, sent: bool, log': Log) {
    && log'.requests == log.requests && log'.accepted == log.accepted && log'.ended == log.ended + multiset{e}
    && log'.replies == if sent then log.replies + multiset{Reply(c, e.req)} else log.replies
  }

  /** Another request ends. */
  lemma OtherEnds(log: Log, e: End, c: nat, sent: bool, log': Log, r: nat)
    requires e.req != r && LogEnds(log, e, c, sent, log')
    ensures SameFor(log, log', r)
  {
    EndsMore(log.ended, e);
  }

  lemma ReturnLog(s: State, ok: bool)
    requires s.pc.Handling? && !s.pc.async
    ensures LogEnds(s.log, End(s.pc.req, IsOpen(s.conns, s.pc.conn), ok), s.pc.conn,
                    ok && s.pc.reply && s.pc.conn in s.conns, DoReturn(s, ok).log)
  {
  }

  lemma ReturnOver(s: State, ok: bool, r: nat)
    requires s.pc.Handling? && Over(s, r)
    ensures SameFor(s.log, DoReturn(s, ok).log, r) && Over(DoReturn(s, ok), r)
  {
    if !s.pc.async {
      ReturnLog(s, ok);
      OtherEnds(s.log, End(s.pc.req, IsOpen(s.conns, s.pc.conn), ok), s.pc.conn,
                ok && s.pc.reply && s.pc.conn in s.conns, DoReturn(s, ok).log, r);
    }
  }

  lemma DiscardOver(s: State, p: nat, r: nat)
    requires p in s.asyncs && Over(s, r)
    ensures SameFor(s.log, Discard(s, p).log, r) && Over(Discard(s, p), r)
  {
    if s.asyncs[p].msg != 0 && s.asyncs[p].msg in s.msgs {
      var q := s.msgs[s.asyncs[p].msg].req;
      OtherEnds(s.log, End(q, OpenFor(s, q), false), 0, false, Discard(s, p).log, r);
    }
  }

  lemma ReleaseOver(s: State, c: nat, r: nat)
    requires Enabled(s, Release(c)) && Over(s, r)
    ensures SameFor(s.log, DoRelease(s, c).log, r) && Over(DoRelease(s, c), r)
  {
    var p := s.conns[c].cookie;
    var s1 := s.(conns := s.conns[c := Conn(p, false)], pc := Closing(c));
    if p != 0 && p in s.asyncs && (s.asyncs[p].mode == Pending || s.asyncs[p].mode == Idle) {
      DiscardOver(s1, p, r);
      DiscardOver(s1.(queue := Without(s.queue, p)), p, r);
    }
  }

  ghost predicate Replies(s: State, p: nat)
    requires p in s.asyncs && s.asyncs[p].msg in s.msgs
  {
    s.asyncs[p].mode != Exited && s.msgs[s.asyncs[p].msg].reply && s.asyncs[p].sevr in s.conns
  }

  lemma FinishLog(s: State, t: nat, p: nat)
    requires t in s.workers && p == s.workers[t] && p in s.asyncs && s.asyncs[p].msg in s.msgs
    ensures var r := s.msgs[s.asyncs[p].msg].req;
      LogEnds(s.log, End(r, OpenFor(s, r), true), s.asyncs[p].sevr, Replies(s, p), DoFinish(s, t).log)
  {
  }

  lemma FinishFrees(s: State, t: nat, p: nat)
    requires t in s.workers && p == s.workers[t] && p in s.asyncs && s.asyncs[p].msg in s.msgs
    ensures DoFinish(s, t).pc == s.pc && DoFinish(s, t).msgs == s.msgs - {s.asyncs[p].msg}
  {
  }

  lemma FinishOver(s: State, t: nat, r: nat)
    requires t in s.workers && Over(s, r)
    ensures SameFor(s.log, DoFinish(s, t).log, r) && Over(DoFinish(s, t), r)
  {
    var p := s.workers[t];
    if p in s.asyncs && s.asyncs[p].msg in s.msgs {
      var q := s.msgs[s.asyncs[p].msg].req;
      FinishLog(s, t, p);
      FinishFrees(s, t, p);
      OtherEnds(s.log, End(q, OpenFor(s, q), true), s.asyncs[p].sevr, Replies(s, p), DoFinish(s, t).log, r);
    }
  }

  lemma RestOver(s: State, e: Event, r: nat)
    requires Enabled(s, e) && Over(s, r) && (e.Open? || e.Bind? || e.Begin? || e.Close? || e.Pick? || e.Work?)
    ensures Over(Apply(s, e), r) && SameFor(s.log, Apply(s, e).log, r)
  {
  }

  /** What is over stays over, without another end or reply. */
  lemma EndsOnce(s: State, e: Event, r: nat)
    requires Inv(s) && Enabled(s, e) && Over(s, r)
    ensures Over(Apply(s, e), r) && SameFor(s.log, Apply(s, e).log, r)
  {
    match e
    case Execute(m, release) => ExecuteOver(s, m, release, r);
    case Return(ok) => ReturnOver(s, ok, r);
    case Release(c) => ReleaseOver(s, c, r);
    case Finish(t) => FinishOver(s, t, r);
    case _ => RestOver(s, e, r);
  }

  lemma FinishReplies(s: State, t: nat, c: nat, r: nat)
    requires t in s.workers && DoFinish(s, t).log.replies[Reply(c, r)] > s.log.replies[Reply(c, r)]
    requires InProgress(s.msgs, s.log) && Serves(s.asyncs, s.msgs, s.conns, s.log.requests)
    requires Linked(s.conns, s.asyncs, s.log.known)
    ensures IsOpen(s.conns, c) && r in s.log.requests && s.log.requests[r].conn == c
  {
  }

  lemma ReturnReplies(s: State, ok: bool, c: nat, r: nat)
    requires s.pc.Handling? && DoReturn(s, ok).log.replies[Reply(c, r)] > s.log.replies[Reply(c, r)]
    requires IsOpen(s.conns, s.pc.conn) && s.pc.req in s.log.requests && s.log.requests[s.pc.req].conn == s.pc.conn
    ensures IsOpen(s.conns, c) && r in s.log.requests && s.log.requests[r].conn == c
  {
    var replies := DoReturn(s, ok).log.replies;
    assert replies == s.log.replies || replies == s.log.replies + multiset{Reply(s.pc.conn, s.pc.req)};
  }

  /** A reply goes to the connection of the request, while that connection is open: never after its release. */
  lemma RepliesToOpen(s: State, e: Event, c: nat, r: nat)
    requires Inv(s) && Enabled(s, e) && Apply(s, e).log.replies[Reply(c, r)] > s.log.replies[Reply(c, r)]
    ensures IsOpen(s.conns, c) && r in s.log.requests && s.log.requests[r].conn == c
  {
    match e
    case Return(ok) => ReturnReplies(s, ok, c, r);
    case Finish(t) => FinishReplies(s, t, c, r);
    case _ =>
  }

  /** After a failed clone the cookie stays busy until its connection is released: each execute is refused. */
  lemma FailedCloneSticks(s: State, e: Event, p: nat)
    requires Inv(s) && Enabled(s, e) && p in s.asyncs && s.asyncs[p].mode == Pending && s.asyncs[p].msg == 0
    ensures if e == Release(s.asyncs[p].sevr) then p !in Apply(s, e).asyncs
            else p in Apply(s, e).asyncs && Apply(s, e).asyncs[p] == s.asyncs[p]
  {
    assert CookieOk(p, s.asyncs[p], s.queue, s.workers);
    Sticks(s, e, p);
  }

  lemma Sticks(s: State, e: Event, p: nat)
    requires Enabled(s, e) && p in s.asyncs && s.asyncs[p].mode == Pending && s.asyncs[p].msg == 0
    requires p != 0 && p !in s.queue && Working(s.workers, s.asyncs) && Linked(s.conns, s.asyncs, s.log.known)
    ensures if e == Release(s.asyncs[p].sevr) then p !in Apply(s, e).asyncs
            else p in Apply(s, e).asyncs && Apply(s, e).asyncs[p] == s.asyncs[p]
  {
    match e
    case Bind(c, q) => assert q != p;
    case Execute(m, release) => ExecuteSticks(s, m, release, p);
    case Release(c) => ReleaseSticks(s, c, p);
    case Pick(t) => assert s.queue[0] in s.queue;
    case Finish(t) => assert s.workers[t] != p;
    case _ =>
  }

  lemma ExecuteSticks(s: State, m: nat, release: bool, p: nat)
    requires s.pc.Handling? && m !in s.msgs && p in s.asyncs && s.asyncs[p].mode == Pending
    ensures p in DoExecute(s, m, release).asyncs && DoExecute(s, m, release).asyncs[p] == s.asyncs[p]
  {
    var s', q := DoExecute(s, m, release), if s.pc.conn in s.conns then s.conns[s.pc.conn].cookie else 0;
    assert s'.asyncs == s.asyncs || (q != p && q in s'.asyncs && s'.asyncs == s.asyncs[q := s'.asyncs[q]]);
  }

  lemma ReleaseSticks(s: State, c: nat, p: nat)
    requires Enabled(s, Release(c)) && p in s.asyncs && s.asyncs[p].mode == Pending && s.asyncs[p].msg == 0 && p != 0
    requires Linked(s.conns, s.asyncs, s.log.known)
    ensures if c == s.asyncs[p].sevr then p !in DoRelease(s, c).asyncs
            else p in DoRelease(s, c).asyncs && DoRelease(s, c).asyncs[p] == s.asyncs[p]
  {
  }

  // ---- release callbacks without a message ----

  /** A clone for the connection has failed, and the cookie still shows it. */
  ghost predicate LeftOver(conns: Conns, asyncs: Asyncs, c: nat) {
    var p := if c in conns then conns[c].cookie else 0;
    p != 0 && p in asyncs && asyncs[p].mode == Pending && asyncs[p].msg == 0
  }

  /** The callback is called with NULL for exactly the released connections whose clone failed with a callback given. */
  ghost predicate Bare(conns: Conns, asyncs: Asyncs, known: set<nat>, failed: map<nat, bool>, bare: multiset<nat>) {
    && (forall c :: c in failed ==> c in known)
    && (forall c :: IsOpen(conns, c) ==> (c in failed <==> LeftOver(conns, asyncs, c)))
    && (forall c :: IsOpen(conns, c) && c in failed ==> asyncs[conns[c].cookie].release == failed[c])
    && (forall c :: bare[c] == if c in failed && failed[c] && !IsOpen(conns, c) then 1 else 0)
  }

  ghost predicate BareInv(s: State) {
    Bare(s.conns, s.asyncs, s.log.known, s.log.failed, s.log.bare)
  }

  lemma BareOpen(s: State, c: nat)
    requires BareInv(s) && c !in s.log.known && c !in s.conns
    ensures BareInv(DoOpen(s, c))
  {
  }

  /** A cookie that is not a left-over becomes another that is not, or comes into being. */
  lemma BareCookie(s: State, c: nat, p: nat, conns: Conns, a: Async)
    requires BareInv(s) && Linked(s.conns, s.asyncs, s.log.known) && c in s.conns && s.conns[c].open && p != 0
    requires !LeftOver(s.conns, s.asyncs, c) && conns == s.conns[c := Conn(p, true)]
    requires !(a.mode == Pending && a.msg == 0)
    requires if p in s.asyncs then s.conns[c].cookie == p else s.conns[c].cookie == 0
    ensures Bare(conns, s.asyncs[p := a], s.log.known, s.log.failed, s.log.bare)
  {
  }

  lemma BareSameConns(s: State, p: nat, a: Async)
    requires BareInv(s) && Linked(s.conns, s.asyncs, s.log.known) && p in s.asyncs && p != 0
    requires !(s.asyncs[p].mode == Pending && s.asyncs[p].msg == 0) && !(a.mode == Pending && a.msg == 0)
    ensures Bare(s.conns, s.asyncs[p := a], s.log.known, s.log.failed, s.log.bare)
  {
  }

  lemma BareFailed(s: State, p: nat, a: Async, failed: map<nat, bool>)
    requires BareInv(s) && Linked(s.conns, s.asyncs, s.log.known) && p in s.asyncs && p != 0 && s.asyncs[p].mode == Idle
    requires a == s.asyncs[p].(mode := Pending, release := a.release) && a.msg == 0
    requires failed == s.log.failed[a.sevr := a.release]
    ensures Bare(s.conns, s.asyncs[p := a], s.log.known, failed, s.log.bare)
  {
  }

  lemma BareReleased(s: State, c: nat, conns: Conns, asyncs: Asyncs, bare: multiset<nat>)
    requires BareInv(s) && Linked(s.conns, s.asyncs, s.log.known) && IsOpen(s.conns, c)
    requires conns == s.conns[c := Conn(s.conns[c].cookie, false)]
    requires forall q :: q in s.asyncs && q != s.conns[c].cookie ==> q in asyncs && asyncs[q] == s.asyncs[q]
    requires bare == if c in s.log.failed && s.log.failed[c] then s.log.bare + multiset{c} else s.log.bare
    ensures Bare(conns, asyncs, s.log.known, s.log.failed, bare)
  {
    forall d | IsOpen(conns, d)
      ensures IsOpen(s.conns, d) && LeftOver(conns, asyncs, d) == LeftOver(s.conns, s.asyncs, d)
      ensures LeftOver(s.conns, s.asyncs, d) ==> asyncs[conns[d].cookie] == s.asyncs[s.conns[d].cookie]
    {
      assert d != c && conns[d] == s.conns[d];
    }
    forall d
      ensures bare[d] == if d in s.log.failed && s.log.failed[d] && !IsOpen(conns, d) then 1 else 0
    {
      assert d != c ==> IsOpen(conns, d) == IsOpen(s.conns, d);
    }
  }

  lemma BareGone(s: State, p: nat)
    requires BareInv(s) && Linked(s.conns, s.asyncs, s.log.known) && p in s.asyncs && s.asyncs[p].mode == Exited
    ensures Bare(s.conns, s.asyncs - {p}, s.log.known, s.log.failed, s.log.bare)
  {
  }

  lemma BareClosed(s: State)
    requires BareInv(s) && s.pc.Closing? && !IsOpen(s.conns, s.pc.conn)
    ensures Bare(s.conns - {s.pc.conn}, s.asyncs, s.log.known, s.log.failed, s.log.bare)
  {
  }

  lemma BareExecute(s: State, m: nat, release: bool)
    requires s.pc.Handling? && m !in s.msgs && Inv(s) && BareInv(s)
    ensures BareInv(DoExecute(s, m, release))
  {
    var c := s.pc.conn;
    var p := s.conns[c].cookie;
    if p != 0 && s.asyncs[p].mode == Idle {
      assert CookieOk(p, s.asyncs[p], s.queue, s.workers);
      var s' := DoExecute(s, m, release);
      if m == 0 {
        BareFailed(s, p, s'.asyncs[p], s'.log.failed);
      } else {
        BareSameConns(s, p, s'.asyncs[p]);
      }
    }
  }

  lemma BareRelease(s: State, c: nat)
    requires s.pc == Loop && IsOpen(s.conns, c) && Linked(s.conns, s.asyncs, s.log.known) && BareInv(s)
    requires var p := s.conns[c].cookie; p in s.asyncs && s.asyncs[p].mode == Idle ==> !s.asyncs[p].release
    ensures BareInv(DoRelease(s, c))
  {
    var s' := DoRelease(s, c);
    BareReleased(s, c, s'.conns, s'.asyncs, s'.log.bare);
  }

  lemma BarePick(s: State, t: nat)
    requires t !in s.workers && s.queue != [] && Inv(s) && BareInv(s)
    ensures BareInv(DoPick(s, t))
  {
    var p := s.queue[0];
    assert p in s.queue && CookieOk(p, s.asyncs[p], s.queue, s.workers);
    BareSameConns(s, p, s.asyncs[p].(mode := Executing));
  }

  lemma BareFinish(s: State, t: nat)
    requires t in s.workers && Inv(s) && BareInv(s)
    ensures BareInv(DoFinish(s, t))
  {
    var p := s.workers[t];
    assert CookieOk(p, s.asyncs[p], s.queue, s.workers);
    if s.asyncs[p].mode == Exited {
      BareGone(s, p);
    } else {
      BareSameConns(s, p, Async(Idle, s.asyncs[p].sevr, 0, false));
    }
  }

  lemma BareBind(s: State, c: nat, p: nat)
    requires Enabled(s, Bind(c, p)) && Inv(s) && BareInv(s)
    ensures BareInv(DoBind(s, c, p))
  {
    if s.conns[c].cookie == 0 && p != 0 {
      BareCookie(s, c, p, s.conns[c := Conn(p, true)], Async(Idle, c, 0, false));
    }
  }

  lemma BareStep(s: State, e: Event)
    requires Inv(s) && BareInv(s) && Enabled(s, e)
    ensures BareInv(Apply(s, e))
  {
    match e
    case Open(c) => BareOpen(s, c);
    case Bind(c, p) => BareBind(s, c, p);
    case Execute(m, release) => BareExecute(s, m, release);
    case Release(c) =>
      var p := s.conns[c].cookie;
      assert p in s.asyncs ==> CookieOk(p, s.asyncs[p], s.queue, s.workers);
      BareRelease(s, c);
    case Close => BareClosed(s);
    case Pick(t) => BarePick(s, t);
    case Work(t) => WorkSafe(s, t);
    case Finish(t) => BareFinish(s, t);
    case _ =>
  }

  /** In every state: the release callback is called without a message, once, exactly for the connections that
      have been released after a clone failed for which a callback was given. */
  lemma {:induction false} BareCallbacks(ss: seq<State>, es: seq<Event>, i: nat)
    requires Run(ss, es) && i < |ss|
    ensures BareInv(ss[i])
  {
    if i > 0 {
      RunKeeps(ss, es, i - 1);
      BareCallbacks(ss, es, i - 1);
      BareStep(ss[i - 1], es[i - 1]);
    }
  }

  // ---- one request answered any number of times ----

  /** A handler at work on request 1, which has been answered `n` times and is not in flight. */
  ghost predicate AnsweredTimes(s: State, n: nat) {
    && s.pc.Handling? && s.pc.conn == s.pc.req == 1 && s.pc.reply && s.log.replies[Reply(1, 1)] == n
    && s.asyncs == map[1 := Async(Idle, 1, 0, false)] && s.msgs == map[] && s.conns == map[1 := Conn(1, true)]
    && s.queue == [] && s.workers == map[]
  }

  lemma ToTheHandler() returns (ss: seq<State>, es: seq<Event>)
    ensures Run(ss, es) && AnsweredTimes(ss[|es|], 0)
  {
    es := [Open(1), Bind(1, 1), Begin(1, 1, true)];
    ss := [Init, DoOpen(Init, 1), DoBind(DoOpen(Init, 1), 1, 1), DoBegin(DoBind(DoOpen(Init, 1), 1, 1), 1, 1, true)];
    assert Enabled(ss[0], es[0]) && Enabled(ss[1], es[1]) && Enabled(ss[2], es[2]);
  }

  lemma ExecuteMore(s: State, n: nat)
    requires AnsweredTimes(s, n)
    ensures Enabled(s, Execute(1, false))
    ensures DoExecute(s, 1, false) ==
      s.(asyncs := map[1 := Async(Pending, 1, 1, false)], msgs := map[1 := Msg(1, true)], queue := [1],
         pc := s.pc.(async := true), log := s.log.(accepted := s.log.accepted + multiset{Accept(1, false)}))
  {
  }

  lemma PickMore(s: State)
    requires s.asyncs == map[1 := Async(Pending, 1, 1, false)] && s.msgs == map[1 := Msg(1, true)] && s.queue == [1]
    requires s.workers == map[]
    ensures Enabled(s, Pick(1))
    ensures DoPick(s, 1) ==
      s.(asyncs := map[1 := Async(Executing, 1, 1, false)], queue := [], workers := map[1 := 1],
         log := s.log.(started := s.log.started + multiset{Accept(1, false)}))
  {
  }

  lemma FinishMore(s: State, n: nat)
    requires s.pc.Handling? && s.pc.conn == s.pc.req == 1 && s.pc.reply && s.log.replies[Reply(1, 1)] == n
    requires s.asyncs == map[1 := Async(Executing, 1, 1, false)] && s.msgs == map[1 := Msg(1, true)]
    requires s.conns == map[1 := Conn(1, true)] && s.queue == [] && s.workers == map[1 := 1]
    ensures Enabled(s, Finish(1)) && AnsweredTimes(DoFinish(s, 1), n + 1)
  {
    var s' := DoFinish(s, 1);
    assert s'.workers == map[] && s'.msgs == map[];
  }

  /** The request is passed on, worked on and answered while its handler goes on. */
  lemma OnceMore(s: State, n: nat) returns (s1: State, s2: State, s3: State)
    requires AnsweredTimes(s, n)
    ensures Enabled(s, Execute(1, false)) && s1 == DoExecute(s, 1, false) && Enabled(s1, Pick(1)) && s2 == DoPick(s1, 1)
    ensures Enabled(s2, Finish(1)) && s3 == DoFinish(s2, 1) && AnsweredTimes(s3, n + 1)
  {
    ExecuteMore(s, n);
    s1 := DoExecute(s, 1, false);
    PickMore(s1);
    s2 := DoPick(s1, 1);
    FinishMore(s2, n);
    s3 := DoFinish(s2, 1);
  }

  lemma RunOn(ss: seq<State>, es: seq<Event>, e: Event)
    requires Run(ss, es) && Enabled(ss[|es|], e)
    ensures Run(ss + [Apply(ss[|es|], e)], es + [e])
  {
    var ss', es' := ss + [Apply(ss[|es|], e)], es + [e];
    forall i | 0 <= i < |es'|
      ensures Enabled(ss'[i], es'[i]) && ss'[i + 1] == Apply(ss'[i], es'[i])
    {
      if i < |es| {
        assert Enabled(ss[i], es[i]) && ss[i + 1] == Apply(ss[i], es[i]);
      }
    }
  }

  /** Nothing but the handler limits how often one request is answered. */
  lemma {:induction false} ExecutedOften(n: nat) returns (ss: seq<State>, es: seq<Event>)
    ensures Run(ss, es) && AnsweredTimes(ss[|es|], n)
  {
    if n == 0 {
      ss, es := ToTheHandler();
    } else {
      ss, es := ExecutedOften(n - 1);
      var s1, s2, s3 := OnceMore(ss[|es|], n - 1);
      RunOn(ss, es, Execute(1, false));
      ss, es := ss + [s1], es + [Execute(1, false)];
      RunOn(ss, es, Pick(1));
      ss, es := ss + [s2], es + [Pick(1)];
      RunOn(ss, es, Finish(1));
      ss, es := ss + [s3], es + [Finish(1)];
    }
  }
}
