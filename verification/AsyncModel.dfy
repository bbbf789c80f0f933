/**
 Asynchronous requests of ipc/ipc_server.c as a state machine.  The event loop handles requests and
 releases connections; workers run queued requests.  One step is one region under the pool mutex, or
 a stretch of one thread between two such regions.  Memory is explicit: using or freeing what is not
 allocated, and a failing assert, is a fault.
 */
module AsyncModel {
  import opened Sequences

  /** ASYNC_IDLE, ASYNC_PENDING, ASYNC_EXECUTING, and ASYNC_EXECUTING | ASYNC_EXITED. */
  datatype Mode = Idle | Pending | Executing | Exited

  /** struct ipc_async; 0 is NULL. */
  datatype Async = Async(mode: Mode, sevr: nat, msg: nat, release: bool)

  /** A cloned message: the request it was cloned from and its REPLY flag. */
  datatype Msg = Msg(req: nat, reply: bool)

  /** struct ipc_server of class REQUESTER.  It is open until ipc_release takes it down. */
  datatype Conn = Conn(cookie: nat, open: bool)

  /** What the event loop is doing; `async` is the ASYNC bit of the request's flags. */
  datatype Pc = Loop | Handling(conn: nat, req: nat, reply: bool, async: bool) | Closing(conn: nat)

  datatype Request = Request(conn: nat, reply: bool)

  /** A successful ipc_async_execute on a request: was a release callback given? */
  datatype Accept = Accept(req: nat, release: bool)

  /**
   A request, or one of its clones, comes to an end: was its connection open, and was it served?  A
   request that is passed on ends as often as it was cloned.
   */
  datatype End = End(req: nat, open: bool, served: bool)

  datatype Reply = Reply(conn: nat, req: nat)

  type Asyncs = map<nat, Async>
  type Msgs = map<nat, Msg>
  type Conns = map<nat, Conn>
  type Workers = map<nat, nat>
  type Requests = map<nat, Request>

  /**
   What has happened so far.  `started` are the clones whose function was called, `discarded` those freed
   without, `dropped` the requests whose release callback was called with such a clone; `failed` says for
   which connections a clone failed, with or without a release callback, and `bare` for which the callback
   was then called with a NULL message.
   */
  datatype Log = Log(
    known: set<nat>,
    requests: Requests,
    accepted: multiset<Accept>,
    ended: multiset<End>,
    replies: multiset<Reply>,
    started: multiset<Accept>,
    discarded: multiset<Accept>,
    dropped: multiset<nat>,
    failed: map<nat, bool>,
    bare: multiset<nat>)

  datatype State = State(
    asyncs: Asyncs,
    msgs: Msgs,
    conns: Conns,
    queue: seq<nat>,
    workers: Workers,
    pc: Pc,
    fault: bool,
    log: Log)

  const NoLog: Log :=
    Log({}, map[], multiset{}, multiset{}, multiset{}, multiset{}, multiset{}, multiset{}, map[], multiset{})
  const Init: State := State(map[], map[], map[], [], map[], Loop, false, NoLog)

  datatype Event =
    | Open(c: nat)                    // a client connects
    | Bind(c: nat, p: nat)            // ipc_server_bind; p is what malloc returns
    | Begin(c: nat, r: nat, reply: bool)
    | Execute(m: nat, release: bool)  // the handler calls ipc_async_execute; m is what the clone gets
    | Return(ok: bool)                // the handler returns
    | Release(c: nat)                 // ipc_release up to the end of ipc_async_release
    | Close                           // the rest of ipc_release
    | Pick(t: nat)                    // a worker takes the first of the queue
    | Work(t: nat)                    // its function uses the message
    | Finish(t: nat)                  // ipc_async_cleanup

  /** When an event can occur: what the callers and the allocator guarantee. */
  predicate Enabled(s: State, e: Event) {
    match e
    case Open(c) => c != 0 && c !in s.log.known
    case Bind(c, p) => c in s.conns && s.conns[c].open && p !in s.asyncs
    case Begin(c, r, _) => s.pc == Loop && c in s.conns && s.conns[c].open && r !in s.log.requests
    case Execute(m, _) => s.pc.Handling? && m !in s.msgs
    case Return(_) => s.pc.Handling?
    case Release(c) => s.pc == Loop && c in s.conns && s.conns[c].open
    case Close => s.pc.Closing?
    case Pick(t) => t !in s.workers && s.queue != []
    case Work(t) => t in s.workers
    case Finish(t) => t in s.workers
  }

  /** A fault is recorded, and nothing is claimed of the rest. */
  function Fault(s: State): State {
    s.(fault := true)
  }

  function DoOpen(s: State, c: nat): (s': State)
    ensures s'.log.ended == s.log.ended && s'.log.replies == s.log.replies
  {
    s.(conns := s.conns[c := Conn(0, true)], log := s.log.(known := s.log.known + {c}))
  }

  /** ipc_handler_invoke up to the call of the handler: the client's flags are kept, the others cleared. */
  function DoBegin(s: State, c: nat, r: nat, reply: bool): (s': State)
    ensures s'.log.ended == s.log.ended && s'.log.replies == s.log.replies
  {
    s.(log := s.log.(requests := s.log.requests[r := Request(c, reply)]), pc := Handling(c, r, reply, false))
  }

  /** ipc_server_bind with IPC_COOKIE_ASYNC (ipc_async_alloc). */
  function DoBind(s: State, c: nat, p: nat): (s': State)
    requires Enabled(s, Bind(c, p))
    ensures s'.log.ended == s.log.ended && s'.log.replies == s.log.replies
  {
    if s.conns[c].cookie != 0 || p == 0 then s
    else s.(asyncs := s.asyncs[p := Async(Idle, c, 0, false)], conns := s.conns[c := Conn(p, true)])
  }

  /** ipc_async_execute on the connection's cookie; without one the handler has nothing to call it with. */
  function DoExecute(s: State, m: nat, release: bool): (s': State)
    requires s.pc.Handling? && m !in s.msgs
    ensures s'.log.ended == s.log.ended && s'.log.replies == s.log.replies
  {
    var p := if s.pc.conn in s.conns then s.conns[s.pc.conn].cookie else 0;
    if s.pc.conn in s.conns && p == 0 then s
    else if p !in s.asyncs then Fault(s)
    else
      var a := s.asyncs[p];
      if a.mode != Idle then s
      else if a.msg != 0 then Fault(s)
      else if m == 0 then
        s.(asyncs := s.asyncs[p := a.(mode := Pending, release := release)],
           log := s.log.(failed := s.log.failed[s.pc.conn := release]))
      else
        s.(asyncs := s.asyncs[p := a.(mode := Pending, release := release, msg := m)],
           msgs := s.msgs[m := Msg(s.pc.req, s.pc.reply)],
           queue := s.queue + [p],
           log := s.log.(accepted := s.log.accepted + multiset{Accept(s.pc.req, release)}),
           pc := s.pc.(async := true))
  }

  function Ended(s: State, r: nat, open: bool, served: bool): State {
    s.(log := s.log.(ended := s.log.ended + multiset{End(r, open, served)}))
  }

  /** A connection is open as far as the event loop is concerned. */
  predicate IsOpen(conns: Conns, c: nat) {
    c in conns && conns[c].open
  }

  /** send_msg on the socket of a connection. */
  function Send(s: State, c: nat, r: nat): State {
    if c !in s.conns then Fault(s) else s.(log := s.log.(replies := s.log.replies + multiset{Reply(c, r)}))
  }

  /** ipc_handler_invoke after the handler returned. */
  function DoReturn(s: State, ok: bool): State
    requires Enabled(s, Return(ok))
  {
    var s1 := s.(pc := Loop);
    if s.pc.async then s1
    else if !ok || !s.pc.reply then Ended(s1, s.pc.req, IsOpen(s.conns, s.pc.conn), ok)
    else Ended(Send(s1, s.pc.conn, s.pc.req), s.pc.req, IsOpen(s.conns, s.pc.conn), true)
  }

  /** The connection of a request is open. */
  predicate OpenFor(s: State, r: nat) {
    r in s.log.requests && IsOpen(s.conns, s.log.requests[r].conn)
  }

  /** The end of ipc_async_release for a cookie that no worker has: the callback, then the frees. */
  function Discard(s: State, p: nat): (s': State)
    requires p in s.asyncs
    ensures s'.log.replies == s.log.replies && s'.asyncs == s.asyncs - {p} && s'.conns == s.conns && s'.queue == s.queue
    ensures s'.log.known == s.log.known && s'.log.failed == s.log.failed
    ensures s'.log.bare ==
      if s.asyncs[p].msg == 0 && s.asyncs[p].release then s.log.bare + multiset{s.asyncs[p].sevr} else s.log.bare
  {
    var a := s.asyncs[p];
    var s1 := s.(asyncs := s.asyncs - {p});
    if a.msg == 0 then s1.(log := s.log.(bare := if a.release then s.log.bare + multiset{a.sevr} else s.log.bare))
    else if a.msg !in s.msgs then Fault(s1)
    else
      var r := s.msgs[a.msg].req;
      var log := s.log.(discarded := s.log.discarded + multiset{Accept(r, a.release)},
                        dropped := if a.release then s.log.dropped + multiset{r} else s.log.dropped);
      Ended(s1.(msgs := s.msgs - {a.msg}, log := log), r, OpenFor(s, r), false)
  }

  /** ipc_release for a requester, up to the end of ipc_async_release. */
  function DoRelease(s: State, c: nat): (s': State)
    requires Enabled(s, Release(c))
    ensures s'.log.replies == s.log.replies && s'.conns == s.conns[c := Conn(s.conns[c].cookie, false)]
    ensures s'.log.known == s.log.known && s'.log.failed == s.log.failed
    ensures forall q :: q in s.asyncs && q != s.conns[c].cookie ==> q in s'.asyncs && s'.asyncs[q] == s.asyncs[q]
    ensures var p := s.conns[c].cookie;
      s'.log.bare == if p in s.asyncs && p != 0 && s.asyncs[p].mode in {Idle, Pending} && s.asyncs[p].msg == 0
                        && s.asyncs[p].release
                     then s.log.bare + multiset{s.asyncs[p].sevr} else s.log.bare
  {
    var p := s.conns[c].cookie;
    var s1 := s.(conns := s.conns[c := Conn(p, false)], pc := Closing(c));
    if p == 0 then s1
    else if p !in s.asyncs then Fault(s1)
    else match s.asyncs[p].mode
      case Pending => Discard(s1.(queue := Without(s.queue, p)), p)
      case Idle => Discard(s1, p)
      case Executing => s1.(asyncs := s.asyncs[p := s.asyncs[p].(mode := Exited, sevr := 0)])
      case Exited => Fault(s1)
  }

  function DoClose(s: State): (s': State)
    requires Enabled(s, Close)
    ensures s'.log.ended == s.log.ended && s'.log.replies == s.log.replies
  {
    var s1 := s.(pc := Loop);
    if s.pc.conn !in s.conns then Fault(s1) else s1.(conns := s.conns - {s.pc.conn})
  }

  /** ipc_async_task taking the first of the queue. */
  function DoPick(s: State, t: nat): (s': State)
    requires Enabled(s, Pick(t))
    ensures s'.log.ended == s.log.ended && s'.log.replies == s.log.replies
  {
    var p := s.queue[0];
    if p !in s.asyncs || s.asyncs[p].msg !in s.msgs then Fault(s)
    else
      var x := Accept(s.msgs[s.asyncs[p].msg].req, s.asyncs[p].release);
      s.(asyncs := s.asyncs[p := s.asyncs[p].(mode := Executing)], queue := s.queue[1..],
         workers := s.workers[t := p], log := s.log.(started := s.log.started + multiset{x}))
  }

  /** The user's function at work on the message. */
  function DoWork(s: State, t: nat): (s': State)
    requires Enabled(s, Work(t))
    ensures s'.log.ended == s.log.ended && s'.log.replies == s.log.replies
  {
    var p := s.workers[t];
    if p !in s.asyncs || s.asyncs[p].msg !in s.msgs then Fault(s) else s
  }

  /** ipc_async_cleanup. */
  function DoFinish(s: State, t: nat): State
    requires Enabled(s, Finish(t))
  {
    var p := s.workers[t];
    if p !in s.asyncs || s.asyncs[p].msg !in s.msgs then Fault(s)
    else
      var a := s.asyncs[p];
      var m := s.msgs[a.msg];
      var s1 := s.(workers := s.workers - {t}, msgs := s.msgs - {a.msg});
      if a.mode == Exited then Ended(s1.(asyncs := s.asyncs - {p}), m.req, OpenFor(s, m.req), true)
      else
        var s2 := if m.reply then Send(s1, a.sevr, m.req) else s1;
        Ended(s2.(asyncs := s.asyncs[p := Async(Idle, a.sevr, 0, false)]), m.req, OpenFor(s, m.req), true)
  }

  function Apply(s: State, e: Event): State
    requires Enabled(s, e)
  {
    match e
    case Open(c) => DoOpen(s, c)
    case Bind(c, p) => DoBind(s, c, p)
    case Begin(c, r, reply) => DoBegin(s, c, r, reply)
    case Execute(m, release) => DoExecute(s, m, release)
    case Return(ok) => DoReturn(s, ok)
    case Release(c) => DoRelease(s, c)
    case Close => DoClose(s)
    case Pick(t) => DoPick(s, t)
    case Work(t) => DoWork(s, t)
    case Finish(t) => DoFinish(s, t)
  }

  /** The states a run of events goes through, from the start. */
  ghost predicate Run(ss: seq<State>, es: seq<Event>) {
    && |ss| == |es| + 1 && ss[0] == Init
    && forall i {:trigger es[i]} :: 0 <= i < |es| ==> Enabled(ss[i], es[i]) && ss[i + 1] == Apply(ss[i], es[i])
  }
}
