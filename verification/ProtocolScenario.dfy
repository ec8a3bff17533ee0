/**
 A run of the whole system, from nothing: one client pulls a path whose first object is a file, and
 its integrity task gets no digest. The file is recorded all the same.
 */
module ProtocolScenario {
  import C = ClientSession
  import JobLog
  import Path
  import Pool = WorkerPool
  import S = ServerSession
  import opened FastCrawler
  import opened Messages
  import opened Protocol
  import opened ProtocolInvariant
  import opened ProtocolResults
  import opened Wrappers

  // ----- runs end to end -----------------------------------------------------------------------

  lemma {:induction false} RunThenRun(g: Config, w: World, a: seq<Action>, b: seq<Action>, all: seq<Action>)
    requires CanRun(g, w, a) && CanRun(g, Run(g, w, a), b) && all == a + b
    ensures CanRun(g, w, all) && Run(g, w, all) == Run(g, Run(g, w, a), b)
    decreases |a|
  {
    if a == [] {
      assert all == b;
    } else {
      Behead(a, b, all);
      RunThenRun(g, Apply(g, w, a[0]), a[1..], b, all[1..]);
    }
  }

  lemma Behead(a: seq<Action>, b: seq<Action>, all: seq<Action>)
    requires a != [] && all == a + b
    ensures all != [] && all[0] == a[0] && all[1..] == a[1..] + b
  {}

  function ServerSteps(acts: seq<S.Action>): seq<Action> {
    seq(|acts|, i requires 0 <= i < |acts| => ServerStep(0, acts[i]))
  }

  function ClientSteps(acts: seq<C.Action>): seq<Action> {
    seq(|acts|, i requires 0 <= i < |acts| => ClientStep(0, acts[i]))
  }

  /** Everything but sessions and tickets is as it was, and no ticket was honoured. */
  predicate SameAround(w: World, v: World) {
    && v.store == w.store && v.granted == w.granted && v.disks == w.disks && v.wire == w.wire
    && v.history == w.history && v.tickets.honoured == w.tickets.honoured
  }

  /** The steps that need nothing from outside the session, with ids in order. */
  predicate Unconditional(acts: seq<S.Action>, next: nat) {
    acts == []
    || (&& !acts[0].Skip? && !acts[0].Reject? && !acts[0].AnnounceNow?
        && (acts[0].TakeTicket? ==> acts[0].id == next)
        && Unconditional(acts[1..], if acts[0].TakeTicket? then next + 1 else next))
  }

  predicate CanCrawl(g: Config, store: JobLog.Store, x: Session) {
    && x.serverLive && Path.IsAbsolute(x.path) && Path.IsResolved(x.path) && Path.IsRoot(Path.Join(g.root, x.path))
    && x.job in store.jobs && store.jobs[x.job].completed == {}
  }

  lemma {:induction false} LiftServer(g: Config, w: World, x: Session, acts: seq<S.Action>)
    requires w.sessions == [x] && CanCrawl(g, w.store, x)
    requires S.CanRun(Scope(g, x), x.srv, acts) && Unconditional(acts, w.tickets.next)
    ensures CanRun(g, w, ServerSteps(acts))
    ensures ServerRan(w, x, Run(g, w, ServerSteps(acts)), S.Run(Scope(g, x), x.srv, acts))
    decreases |acts|
  {
    if acts == [] {
      assert w.sessions == [x.(srv := x.srv)];
    } else {
      ServerMoves(g, w, x, acts[0]);
      LiftServer(g, Apply(g, w, ServerStep(0, acts[0])), x.(srv := S.Apply(Scope(g, x), x.srv, acts[0])), acts[1..]);
      ServerFirst(g, w, acts);
    }
  }

  predicate ServerRan(w: World, x: Session, v: World, srv: S.Server) {
    v.sessions == [x.(srv := srv)] && SameAround(w, v)
  }

  lemma ServerFirst(g: Config, w: World, acts: seq<S.Action>)
    requires acts != [] && Enabled(g, w, ServerStep(0, acts[0]))
    requires CanRun(g, Apply(g, w, ServerStep(0, acts[0])), ServerSteps(acts[1..]))
    ensures CanRun(g, w, ServerSteps(acts))
    ensures Run(g, w, ServerSteps(acts)) == Run(g, Apply(g, w, ServerStep(0, acts[0])), ServerSteps(acts[1..]))
  {
    StepThenRun(g, w, ServerStep(0, acts[0]), ServerSteps(acts[1..]));
    assert ServerSteps(acts) == [ServerStep(0, acts[0])] + ServerSteps(acts[1..]);
  }

  lemma ServerMoves(g: Config, w: World, x: Session, a: S.Action)
    requires w.sessions == [x] && CanCrawl(g, w.store, x) && S.Enabled(Scope(g, x), x.srv, a)
    requires !a.Skip? && !a.Reject? && !a.AnnounceNow? && (a.TakeTicket? ==> a.id == w.tickets.next)
    ensures Enabled(g, w, ServerStep(0, a))
    ensures var v := Apply(g, w, ServerStep(0, a));
      && v.sessions == [x.(srv := S.Apply(Scope(g, x), x.srv, a))] && SameAround(w, v)
      && v.tickets.next == if a.TakeTicket? then w.tickets.next + 1 else w.tickets.next
  {
    ServerMay(g, w, x, a);
  }

  lemma ServerMay(g: Config, w: World, x: Session, a: S.Action)
    requires w.sessions == [x] && CanCrawl(g, w.store, x) && S.Enabled(Scope(g, x), x.srv, a)
    requires !a.Skip? && !a.Reject? && !a.AnnounceNow? && (a.TakeTicket? ==> a.id == w.tickets.next)
    ensures Enabled(g, w, ServerStep(0, a))
  {}

  /** The messages read are those sent. */
  predicate Fed(s: C.Client, out: seq<Response>, acts: seq<C.Action>)
    requires C.CanRun(s, acts)
    decreases |acts|
  {
    acts == [] || (IsFed(s, out, acts[0]) && Fed(C.Apply(s, acts[0]), out, acts[1..]))
  }

  predicate IsFed(s: C.Client, out: seq<Response>, a: C.Action) {
    && !a.StreamOk? && !a.CheckOk?
    && (a.Receive? ==> |s.inbox| < |out| && a.message == out[|s.inbox|])
  }

  lemma {:induction false} LiftClient(g: Config, w: World, x: Session, acts: seq<C.Action>)
    requires w.sessions == [x] && x.clientLive && C.CanRun(x.cli, acts) && Fed(x.cli, x.srv.out, acts)
    ensures CanRun(g, w, ClientSteps(acts))
    ensures var v := Run(g, w, ClientSteps(acts));
      v.sessions == [x.(cli := C.Run(x.cli, acts))] && SameAround(w, v) && v.tickets == w.tickets
    decreases |acts|
  {
    if acts == [] {
      assert w.sessions == [x.(cli := x.cli)];
    } else {
      var a := ClientStep(0, acts[0]);
      ClientMoves(g, w, x, acts[0]);
      var v := Apply(g, w, a);
      LiftClient(g, v, x.(cli := C.Apply(x.cli, acts[0])), acts[1..]);
      StepThenRun(g, w, a, ClientSteps(acts[1..]));
      assert ClientSteps(acts) == [a] + ClientSteps(acts[1..]);
    }
  }

  lemma ClientMoves(g: Config, w: World, x: Session, a: C.Action)
    requires w.sessions == [x] && x.clientLive && C.Enabled(x.cli, a) && IsFed(x.cli, x.srv.out, a)
    ensures Enabled(g, w, ClientStep(0, a))
    ensures var v := Apply(g, w, ClientStep(0, a));
      v.sessions == [x.(cli := C.Apply(x.cli, a))] && SameAround(w, v) && v.tickets == w.tickets
  {}

  // ----- one task's way through a pool ---------------------------------------------------------

  /** Nothing in the pool is in the way. */
  predicate IsIdle(p: Pool.Pool, stage: map<Pool.Task, Pool.Stage>) {
    p.stage == stage && !p.done && p.workers > 0
  }

  function Prepared(p: Pool.Pool, t: Pool.Task): Pool.Pool {
    Pool.Apply(p, Pool.Prepare(t))
  }

  function Enqueued(p: Pool.Pool, t: Pool.Task): Pool.Pool {
    Pool.Apply(Prepared(p, t), Pool.Enqueue(t))
  }

  function Popped(p: Pool.Pool, t: Pool.Task): Pool.Pool {
    Pool.Apply(Enqueued(p, t), Pool.Pop(t))
  }

  lemma TaskIsTaken(p: Pool.Pool, t: Pool.Task)
    requires IsIdle(p, map[]) && t !in p.finished
    ensures Pool.Enabled(p, Pool.Prepare(t)) && Pool.Enabled(Prepared(p, t), Pool.Enqueue(t))
    ensures Pool.Enabled(Enqueued(p, t), Pool.Pop(t))
    ensures IsIdle(Popped(p, t), map[t := Pool.Running]) && Popped(p, t).finished == p.finished
  {
    CanPopOnly(Enqueued(p, t), t);
  }

  lemma CanPopOnly(p: Pool.Pool, t: Pool.Task)
    requires IsIdle(p, map[t := Pool.Queued])
    ensures Pool.Enabled(p, Pool.Pop(t))
  {
    assert Pool.Busy(p) == {};
  }

  // ----- the server announces its first file ---------------------------------------------------

  function Announcing(): seq<S.Action> {
    [S.SendStarted, S.TakeTicket(0), S.PrepareHash, S.EnqueueHash, S.PopHash(0), S.HashOk(0)]
  }

  function FileMessage(c: S.Scope): Response
    requires S.IsFile(c, 0)
  {
    var o := c.objects[0];
    Response.Object(PullObject(1, RelativePath(o), o.kind,
                               Some(Transfer(c.hash(o.content), Int32(|o.content|), 0))))
  }

  lemma ServerAnnounces(c: S.Scope, workers: nat)
    requires S.IsFile(c, 0) && workers > 0
    ensures S.CanRun(c, S.Fresh(workers), Announcing())
    ensures S.Run(c, S.Fresh(workers), Announcing()).out == [Started(c.job), FileMessage(c)]
  {
    var queueing := [S.PrepareHash, S.EnqueueHash, S.PopHash(0)] + ([S.HashOk(0)] + []);
    TicketedAnnounces(c, workers);
    FileIsTicketed(c, workers, queueing);
    assert Announcing() == [S.SendStarted, S.TakeTicket(0)] + queueing;
  }

  lemma TicketedAnnounces(c: S.Scope, workers: nat)
    requires S.IsFile(c, 0) && workers > 0
    ensures var s, acts := Ticketed(c, workers), [S.PrepareHash, S.EnqueueHash, S.PopHash(0)] + ([S.HashOk(0)] + []);
      S.CanRun(c, s, acts) && S.Run(c, s, acts).out == [Started(c.job), FileMessage(c)]
  {
    var t, s := S.HashTask(0), Ticketed(c, workers);
    TaskIsTaken(s.pool, t);
    var hashing := s.(pool := Popped(s.pool, t), phase := S.Crawling, pos := 1);
    FileIsHashed(c, hashing, workers);
    SRun(c, hashing, S.HashOk(0), []);
    FileIsQueued(c, s, [S.HashOk(0)] + []);
  }

  function Ticketed(c: S.Scope, workers: nat): S.Server {
    S.Server(S.Ticketed, 0, 1, map[0 := S.Hashing], map[0 := 1], map[0 := 0], Pool.Empty(workers), [],
             [Started(c.job)], false)
  }

  lemma FileIsTicketed(c: S.Scope, workers: nat, rest: seq<S.Action>)
    requires S.IsFile(c, 0) && S.CanRun(c, Ticketed(c, workers), rest)
    ensures S.CanRun(c, S.Fresh(workers), [S.SendStarted, S.TakeTicket(0)] + rest)
    ensures S.Run(c, S.Fresh(workers), [S.SendStarted, S.TakeTicket(0)] + rest) == S.Run(c, Ticketed(c, workers), rest)
  {
    var s0 := S.Fresh(workers);
    var s1 := S.Apply(c, s0, S.SendStarted);
    assert S.Apply(c, s1, S.TakeTicket(0)) == Ticketed(c, workers);
    SRun(c, s1, S.TakeTicket(0), rest);
    SRun(c, s0, S.SendStarted, [S.TakeTicket(0)] + rest);
    assert [S.SendStarted, S.TakeTicket(0)] + rest == [S.SendStarted] + ([S.TakeTicket(0)] + rest);
  }

  lemma FileIsQueued(c: S.Scope, s: S.Server, rest: seq<S.Action>)
    requires s.phase == S.Ticketed && s.pos == 0 && IsIdle(s.pool, map[]) && s.pool.finished == {}
    requires S.CanRun(c, s.(pool := Popped(s.pool, S.HashTask(0)), phase := S.Crawling, pos := 1), rest)
    ensures var steps := [S.PrepareHash, S.EnqueueHash, S.PopHash(0)] + rest;
      && S.CanRun(c, s, steps)
      && S.Run(c, s, steps) == S.Run(c, s.(pool := Popped(s.pool, S.HashTask(0)), phase := S.Crawling, pos := 1), rest)
  {
    var t := S.HashTask(0);
    QueueSteps(c, s);
    var s1 := s.(pool := Prepared(s.pool, t), phase := S.Prepared);
    var s2 := s.(pool := Enqueued(s.pool, t), phase := S.Crawling, pos := 1);
    SRun(c, s2, S.PopHash(0), rest);
    SRun(c, s1, S.EnqueueHash, [S.PopHash(0)] + rest);
    SRun(c, s, S.PrepareHash, [S.EnqueueHash] + ([S.PopHash(0)] + rest));
    assert [S.PrepareHash, S.EnqueueHash, S.PopHash(0)] + rest
      == [S.PrepareHash] + ([S.EnqueueHash] + ([S.PopHash(0)] + rest));
  }

  lemma QueueSteps(c: S.Scope, s: S.Server)
    requires s.phase == S.Ticketed && s.pos == 0 && IsIdle(s.pool, map[]) && s.pool.finished == {}
    ensures var t := S.HashTask(0);
      var s1 := s.(pool := Prepared(s.pool, t), phase := S.Prepared);
      var s2 := s.(pool := Enqueued(s.pool, t), phase := S.Crawling, pos := 1);
      && S.Enabled(c, s, S.PrepareHash) && S.Apply(c, s, S.PrepareHash) == s1
      && S.Enabled(c, s1, S.EnqueueHash) && S.Apply(c, s1, S.EnqueueHash) == s2
      && S.Enabled(c, s2, S.PopHash(0))
      && S.Apply(c, s2, S.PopHash(0)) == s.(pool := Popped(s.pool, t), phase := S.Crawling, pos := 1)
  {
    TaskIsTaken(s.pool, S.HashTask(0));
  }

  lemma FileIsHashed(c: S.Scope, s: S.Server, workers: nat)
    requires S.IsFile(c, 0) && !s.broken && s.pool.stage == map[S.HashTask(0) := Pool.Running]
    requires s.numbers == map[0 := 1] && s.tickets == map[0 := 0] && s.out == [Started(c.job)]
    ensures S.Enabled(c, s, S.HashOk(0)) && S.Apply(c, s, S.HashOk(0)).out == [Started(c.job), FileMessage(c)]
  {}

  lemma SRun(c: S.Scope, s: S.Server, a: S.Action, rest: seq<S.Action>)
    requires S.Enabled(c, s, a) && S.CanRun(c, S.Apply(c, s, a), rest)
    ensures S.CanRun(c, s, [a] + rest) && S.Run(c, s, [a] + rest) == S.Run(c, S.Apply(c, s, a), rest)
  {
    assert ([a] + rest)[1..] == rest;
  }

  // ----- the client reads it, streams it and starts to check it --------------------------------

  function Streaming(m0: Response, m1: Response): seq<C.Action> {
    [C.Receive(m0)] + ([C.Receive(m1)] + ([C.CreateOk(1)] + Taking()))
  }

  function Taking(): seq<C.Action> {
    [C.PrepareStream(1)] + ([C.EnqueueStream(1)] + ([C.PopTask(C.StreamTask(1))] + []))
  }

  function Checking(): seq<C.Action> {
    [C.PrepareCheck(1)] + ([C.EnqueueCheck(1)] + Leaving())
  }

  function Leaving(): seq<C.Action> {
    [C.StreamReturns(1)] + ([C.RemoveTask(C.StreamTask(1))] + [C.PopTask(C.CheckTask(1))])
  }

  lemma CRun(s: C.Client, a: C.Action, rest: seq<C.Action>, out: seq<Response>)
    requires C.Enabled(s, a) && C.CanRun(C.Apply(s, a), rest)
    requires IsFed(s, out, a) && Fed(C.Apply(s, a), out, rest)
    ensures C.CanRun(s, [a] + rest) && C.Run(s, [a] + rest) == C.Run(C.Apply(s, a), rest) && Fed(s, out, [a] + rest)
  {
    assert ([a] + rest)[1..] == rest;
  }

  /** The client with its stream task running. */
  function ClientStreaming(job: string, m1: Response, workers: nat): C.Client {
    C.Client(C.Reading, Some(job), [Started(job), m1], if m1.Object? then {m1.pull.path} else {},
             Popped(Pool.Empty(workers), C.StreamTask(1)), map[1 := C.Open], {})
  }

  function ClientCreated(job: string, m1: Response, workers: nat): C.Client {
    ClientStreaming(job, m1, workers).(pool := Pool.Empty(workers), phase := C.Created(1))
  }

  lemma ClientStreams(job: string, m1: Response, workers: nat)
    requires job != "" && workers > 0 && m1.Object? && !Path.IsAbsolute(m1.pull.path) && m1.pull.transfer.Some?
    ensures var s, acts := C.Fresh(workers), Streaming(Started(job), m1);
      C.CanRun(s, acts) && Fed(s, [Started(job), m1], acts) && C.Run(s, acts) == ClientStreaming(job, m1, workers)
  {
    CreatedStreams(job, m1, workers);
    ClientCreates(job, m1, workers, Taking());
  }

  lemma CreatedStreams(job: string, m1: Response, workers: nat)
    requires workers > 0 && m1.Object?
    ensures var s := ClientCreated(job, m1, workers);
      C.CanRun(s, Taking()) && Fed(s, [Started(job), m1], Taking()) && C.Run(s, Taking()) == ClientStreaming(job, m1, workers)
  {
    StreamIsTaken(ClientCreated(job, m1, workers), [Started(job), m1]);
  }

  lemma StreamIsTaken(s: C.Client, out: seq<Response>)
    requires s.phase == C.Created(1) && IsIdle(s.pool, map[]) && s.pool.finished == {}
    ensures C.CanRun(s, Taking()) && Fed(s, out, Taking())
    ensures C.Run(s, Taking()) == s.(pool := Popped(s.pool, C.StreamTask(1)), phase := C.Reading)
  {
    var t := C.StreamTask(1);
    TaskIsTaken(s.pool, t);
    var s1 := s.(pool := Prepared(s.pool, t), phase := C.Enqueuing(1));
    var s2 := s.(pool := Enqueued(s.pool, t), phase := C.Reading);
    StreamIsSubmitted(s, s1, s2);
    PoolOnly(s2, C.PopTask(t));
    CRun(s2, C.PopTask(t), [], out);
    CRun(s1, C.EnqueueStream(1), [C.PopTask(t)] + [], out);
    CRun(s, C.PrepareStream(1), [C.EnqueueStream(1)] + ([C.PopTask(t)] + []), out);
  }

  lemma StreamIsSubmitted(s: C.Client, s1: C.Client, s2: C.Client)
    requires s.phase == C.Created(1) && IsIdle(s.pool, map[]) && s.pool.finished == {}
    requires s1 == s.(pool := Prepared(s.pool, C.StreamTask(1)), phase := C.Enqueuing(1))
    requires s2 == s.(pool := Enqueued(s.pool, C.StreamTask(1)), phase := C.Reading)
    ensures C.Enabled(s, C.PrepareStream(1)) && C.Apply(s, C.PrepareStream(1)) == s1
    ensures C.Enabled(s1, C.EnqueueStream(1)) && C.Apply(s1, C.EnqueueStream(1)) == s2
  {
    TaskIsTaken(s.pool, C.StreamTask(1));
  }

  lemma ClientCreates(job: string, m1: Response, workers: nat, rest: seq<C.Action>)
    requires job != "" && m1.Object? && !Path.IsAbsolute(m1.pull.path) && m1.pull.transfer.Some?
    requires var s := ClientCreated(job, m1, workers);
      C.CanRun(s, rest) && Fed(s, [Started(job), m1], rest)
    ensures var s, acts := C.Fresh(workers), [C.Receive(Started(job))] + ([C.Receive(m1)] + ([C.CreateOk(1)] + rest));
      && C.CanRun(s, acts) && Fed(s, [Started(job), m1], acts)
      && C.Run(s, acts) == C.Run(ClientCreated(job, m1, workers), rest)
  {
    var m0 := Started(job);
    var out := [m0, m1];
    var s0 := C.Fresh(workers);
    var s1 := s0.(inbox := [m0], job := Some(job));
    var s2 := ClientCreated(job, m1, workers).(phase := C.Creating(1));
    assert C.Apply(s0, C.Receive(m0)) == s1;
    assert [m0] + [m1] == out;
    assert C.Apply(s1, C.Receive(m1)) == s2;
    assert C.Enabled(s2, C.CreateOk(1)) && C.Apply(s2, C.CreateOk(1)) == ClientCreated(job, m1, workers);
    CRun(s2, C.CreateOk(1), rest, out);
    CRun(s1, C.Receive(m1), [C.CreateOk(1)] + rest, out);
    CRun(s0, C.Receive(m0), [C.Receive(m1)] + ([C.CreateOk(1)] + rest), out);
  }

  /** The pool's part of the second half. */
  lemma CheckIsTaken(p: Pool.Pool)
    requires IsIdle(p, map[C.StreamTask(1) := Pool.Running]) && p.finished == {}
    ensures var stream, check := C.StreamTask(1), C.CheckTask(1);
      && Pool.Enabled(p, Pool.Prepare(check)) && Pool.Enabled(Prepared(p, check), Pool.Enqueue(check))
      && Pool.Enabled(Enqueued(p, check), Pool.Return(stream))
      && var q := Pool.Apply(Enqueued(p, check), Pool.Return(stream));
      && Pool.InStage(q, check, Pool.Queued) && Pool.Enabled(q, Pool.Remove(stream))
      && IsIdle(Pool.Apply(q, Pool.Remove(stream)), map[check := Pool.Queued])
  {
    var stream, check := C.StreamTask(1), C.CheckTask(1);
    var q := Pool.Apply(Enqueued(p, check), Pool.Return(stream));
    assert Pool.Apply(q, Pool.Remove(stream)).stage == map[check := Pool.Queued];
  }

  lemma ClientChecks(s: C.Client, out: seq<Response>)
    requires IsIdle(s.pool, map[C.StreamTask(1) := Pool.Running]) && s.pool.finished == {}
    requires C.IsObject(s.inbox, 1) && s.fate == map[1 := C.Open] && 1 in s.streamed
    ensures C.CanRun(s, Checking()) && Fed(s, out, Checking())
    ensures var t := C.Run(s, Checking());
      C.Enabled(t, C.CheckOk(1, false)) && t.inbox == s.inbox && t.job == s.job
  {
    var stream, check := C.StreamTask(1), C.CheckTask(1);
    CheckIsTaken(s.pool);
    var q := s.(pool := Enqueued(s.pool, check));
    StreamLeaves(q, out);
    CheckIsSubmitted(s, Leaving(), out);
  }

  lemma CheckIsSubmitted(s: C.Client, rest: seq<C.Action>, out: seq<Response>)
    requires IsIdle(s.pool, map[C.StreamTask(1) := Pool.Running]) && s.pool.finished == {} && 1 in s.streamed
    requires var q := s.(pool := Enqueued(s.pool, C.CheckTask(1)));
      C.CanRun(q, rest) && Fed(q, out, rest)
    ensures var acts := [C.PrepareCheck(1)] + ([C.EnqueueCheck(1)] + rest);
      && C.CanRun(s, acts) && Fed(s, out, acts)
      && C.Run(s, acts) == C.Run(s.(pool := Enqueued(s.pool, C.CheckTask(1))), rest)
  {
    var check := C.CheckTask(1);
    var s1 := s.(pool := Prepared(s.pool, check));
    PoolOnly(s, C.PrepareCheck(1));
    PoolOnly(s1, C.EnqueueCheck(1));
    CRun(s1, C.EnqueueCheck(1), rest, out);
    CRun(s, C.PrepareCheck(1), [C.EnqueueCheck(1)] + rest, out);
  }

  lemma StreamLeaves(s: C.Client, out: seq<Response>)
    requires var stream, check := C.StreamTask(1), C.CheckTask(1);
      && Pool.Enabled(s.pool, Pool.Return(stream)) && Pool.InStage(s.pool, check, Pool.Queued)
      && var q := Pool.Apply(s.pool, Pool.Return(stream));
      && Pool.Enabled(q, Pool.Remove(stream)) && IsIdle(Pool.Apply(q, Pool.Remove(stream)), map[check := Pool.Queued])
    requires C.IsObject(s.inbox, 1) && s.fate == map[1 := C.Open] && 1 in s.streamed
    ensures C.CanRun(s, Leaving()) && Fed(s, out, Leaving())
    ensures var t := C.Run(s, Leaving());
      C.Enabled(t, C.CheckOk(1, false)) && t.inbox == s.inbox && t.job == s.job
  {
    var stream, check := C.StreamTask(1), C.CheckTask(1);
    var p3 := Pool.Apply(s.pool, Pool.Return(stream));
    var p4 := Pool.Apply(p3, Pool.Remove(stream));
    CanPopOnly(p4, check);
    var p5 := Pool.Apply(p4, Pool.Pop(check));
    LastTaken(s.(pool := p4), check, out);
    PoolMove(s.(pool := p3), C.RemoveTask(stream), [C.PopTask(check)], p4, p5, out);
    PoolMove(s, C.StreamReturns(1), [C.RemoveTask(stream)] + [C.PopTask(check)], p3, p5, out);
    CheckCanEnd(s.(pool := p5));
  }

  lemma CheckCanEnd(s: C.Client)
    requires Pool.InStage(s.pool, C.CheckTask(1), Pool.Running) && s.fate == map[1 := C.Open] && C.IsObject(s.inbox, 1)
    ensures C.Enabled(s, C.CheckOk(1, false))
  {}

  lemma LastTaken(s: C.Client, t: Pool.Task, out: seq<Response>)
    requires Pool.Enabled(s.pool, Pool.Pop(t))
    ensures C.CanRun(s, [C.PopTask(t)]) && Fed(s, out, [C.PopTask(t)])
    ensures C.Run(s, [C.PopTask(t)]) == s.(pool := Pool.Apply(s.pool, Pool.Pop(t)))
  {
    PoolOnly(s, C.PopTask(t));
    CRun(s, C.PopTask(t), [], out);
    assert [C.PopTask(t)] + [] == [C.PopTask(t)];
  }

  /** One step that only changes the pool, in front of a run that only does. */
  lemma PoolMove(s: C.Client, a: C.Action, rest: seq<C.Action>, p: Pool.Pool, last: Pool.Pool, out: seq<Response>)
    requires C.Enabled(s, a)
    requires a.PrepareCheck? || a.EnqueueCheck? || a.StreamReturns? || a.RemoveTask?
    requires p == Pool.Apply(s.pool, C.PoolStep(a).value)
    requires C.CanRun(s.(pool := p), rest) && Fed(s.(pool := p), out, rest)
    requires C.Run(s.(pool := p), rest) == s.(pool := last)
    ensures C.CanRun(s, [a] + rest) && Fed(s, out, [a] + rest) && C.Run(s, [a] + rest) == s.(pool := last)
  {
    PoolOnly(s, a);
    CRun(s, a, rest, out);
  }

  lemma PoolOnly(s: C.Client, a: C.Action)
    requires C.Enabled(s, a)
    requires a.PrepareCheck? || a.EnqueueCheck? || a.StreamReturns? || a.RemoveTask? || a.PopTask?
    ensures C.Apply(s, a) == s.(pool := Pool.Apply(s.pool, C.PoolStep(a).value))
  {}

  // ----- the whole run -------------------------------------------------------------------------

  /** A pull of `path` can start, and reaches a file of less than 2 GiB first. */
  predicate StartsWithFile(g: Config, path: string) {
    && Path.IsAbsolute(path) && Path.IsResolved(path) && Path.IsRoot(Path.Join(g.root, path)) && '\n' !in path
    && PullObjects(g, path) != [] && PullObjects(g, path)[0].kind == Regular
    && |PullObjects(g, path)[0].content| < 0x8000_0000 && g.workers > 0
  }

  /** Nothing has been streamed, checked or recorded so far, and the job is known. */
  predicate Untouched(w: World, job: string) {
    && w.granted == map[] && w.history == History({}, {}, {}, {}) && w.tickets.honoured == {}
    && job in w.store.jobs && job in w.store.disk
  }

  /** The one session, whose server has announced its first file. */
  predicate HasAnnounced(g: Config, w: World, x: Session) {
    && w.sessions == [x] && x.serverLive && x.clientLive && Untouched(w, x.job) && x.job != ""
    && S.IsFile(Scope(g, x), 0) && x.srv.out == [Started(x.job), FileMessage(Scope(g, x))]
  }

  lemma JobStarts(g: Config, job: string, path: string, peer: nat)
    requires StartsWithFile(g, path) && job != ""
    ensures CanRun(g, Init(), [StartJob(job, "", path, peer)])
    ensures var w := Run(g, Init(), [StartJob(job, "", path, peer)]);
      && w.sessions == [NewSession(g, job, path, peer)] && Untouched(w, job) && w.tickets.next == 0
      && w.store.jobs[job].completed == {}
  {
    OneStep(g, Init(), StartJob(job, "", path, peer));
    JobStarted(g, job, path, peer);
  }

  lemma OneStep(g: Config, w: World, a: Action)
    requires Enabled(g, w, a)
    ensures CanRun(g, w, [a]) && Run(g, w, [a]) == Apply(g, w, a)
  {
    StepThenRun(g, w, a, []);
    assert [a] + [] == [a];
  }

  lemma JobStarted(g: Config, job: string, path: string, peer: nat)
    requires StartsWithFile(g, path) && job != ""
    ensures Enabled(g, Init(), StartJob(job, "", path, peer))
    ensures var w := Apply(g, Init(), StartJob(job, "", path, peer));
      && w.sessions == [NewSession(g, job, path, peer)] && Untouched(w, job) && w.tickets.next == 0
      && w.store.jobs[job].completed == {}
  {}

  lemma FileIsAnnounced(g: Config, job: string, path: string, peer: nat) returns (actions: seq<Action>, x: Session)
    requires StartsWithFile(g, path) && job != ""
    ensures CanRun(g, Init(), actions) && HasAnnounced(g, Run(g, Init(), actions), x)
    ensures x.job == job && x.path == path && x.peer == peer && x.cli == C.Fresh(g.workers)
  {
    var start := [StartJob(job, "", path, peer)];
    JobStarts(g, job, path, peer);
    var w, x0 := Run(g, Init(), start), NewSession(g, job, path, peer);
    x := ServerHasAnnounced(g, w, x0);
    actions := start + ServerSteps(Announcing());
    RunThenRun(g, Init(), start, ServerSteps(Announcing()), actions);
  }

  lemma ServerHasAnnounced(g: Config, w: World, x0: Session) returns (x: Session)
    requires w.sessions == [x0] && x0.clientLive && CanCrawl(g, w.store, x0) && Untouched(w, x0.job) && x0.job != ""
    requires w.tickets.next == 0 && x0.srv == S.Fresh(g.workers) && g.workers > 0 && S.IsFile(Scope(g, x0), 0)
    ensures CanRun(g, w, ServerSteps(Announcing())) && HasAnnounced(g, Run(g, w, ServerSteps(Announcing())), x)
    ensures x == x0.(srv := x.srv)
  {
    ServerAnnounces(Scope(g, x0), g.workers);
    NothingAsked();
    x := AnnouncedBy(g, w, x0, Announcing());
  }

  lemma AnnouncedBy(g: Config, w: World, x0: Session, acts: seq<S.Action>) returns (x: Session)
    requires w.sessions == [x0] && x0.clientLive && CanCrawl(g, w.store, x0) && Untouched(w, x0.job) && x0.job != ""
    requires S.CanRun(Scope(g, x0), x0.srv, acts) && Unconditional(acts, w.tickets.next) && S.IsFile(Scope(g, x0), 0)
    requires S.Run(Scope(g, x0), x0.srv, acts).out == [Started(x0.job), FileMessage(Scope(g, x0))]
    ensures CanRun(g, w, ServerSteps(acts)) && HasAnnounced(g, Run(g, w, ServerSteps(acts)), x)
    ensures x == x0.(srv := x.srv)
  {
    LiftServer(g, w, x0, acts);
    x := x0.(srv := S.Run(Scope(g, x0), x0.srv, acts));
  }

  lemma NothingAsked()
    ensures Unconditional(Announcing(), 0)
  {
    var r5: seq<S.Action> := [S.HashOk(0)];
    var r4 := [S.PopHash(0)] + r5;
    var r3 := [S.EnqueueHash] + r4;
    var r2 := [S.PrepareHash] + r3;
    var r1 := [S.TakeTicket(0)] + r2;
    assert r5[1..] == [] && r4[1..] == r5 && r3[1..] == r4 && r2[1..] == r3 && r1[1..] == r2;
    assert Unconditional(r4, 1) && Unconditional(r3, 1) && Unconditional(r2, 1) && Unconditional(r1, 0);
    assert Announcing() == [S.SendStarted] + r1 && Announcing()[1..] == r1;
  }

  /** And its client's stream task is running. */
  predicate IsStreaming(g: Config, w: World, x: Session) {
    HasAnnounced(g, w, x) && x.cli == ClientStreaming(x.job, FileMessage(Scope(g, x)), g.workers)
  }

  lemma FileIsStreaming(g: Config, job: string, path: string, peer: nat) returns (actions: seq<Action>, x: Session)
    requires ValidConfig(g) && StartsWithFile(g, path) && job != ""
    ensures CanRun(g, Init(), actions) && IsStreaming(g, Run(g, Init(), actions), x)
    ensures x.job == job && x.path == path && x.peer == peer
  {
    var first, x0 := FileIsAnnounced(g, job, path, peer);
    var w := Run(g, Init(), first);
    var steps;
    steps, x := ClientIsStreaming(g, w, x0);
    actions := first + steps;
    RunThenRun(g, Init(), first, steps, actions);
  }

  lemma ClientIsStreaming(g: Config, w: World, x0: Session) returns (steps: seq<Action>, x: Session)
    requires ValidConfig(g) && HasAnnounced(g, w, x0) && x0.cli == C.Fresh(g.workers) && g.workers > 0
    ensures CanRun(g, w, steps) && IsStreaming(g, Run(g, w, steps), x) && x == x0.(cli := x.cli)
  {
    var m1 := FileMessage(Scope(g, x0));
    CrawlFacts(g, x0.path);
    assert PullObjects(g, x0.path)[0] in PullObjects(g, x0.path);
    ClientStreams(x0.job, m1, g.workers);
    steps, x := StreamingBy(g, w, x0, Streaming(Started(x0.job), m1));
  }

  lemma StreamingBy(g: Config, w: World, x0: Session, acts: seq<C.Action>) returns (steps: seq<Action>, x: Session)
    requires HasAnnounced(g, w, x0) && C.CanRun(x0.cli, acts) && Fed(x0.cli, x0.srv.out, acts)
    requires C.Run(x0.cli, acts) == ClientStreaming(x0.job, FileMessage(Scope(g, x0)), g.workers)
    ensures CanRun(g, w, steps) && IsStreaming(g, Run(g, w, steps), x) && x == x0.(cli := x.cli)
  {
    LiftClient(g, w, x0, acts);
    steps := ClientSteps(acts);
    x := x0.(cli := C.Run(x0.cli, acts));
  }

  /** The file's bytes arrive. */
  lemma FileArrives(g: Config, w: World, x: Session)
    requires IsStreaming(g, w, x) && CanFetch(w, 0, 1) && |PullObjects(g, x.path)[0].content| < 0x8000_0000
    requires IsReady(w.tickets, 0, ReadyFile(x.peer, PullObjects(g, x.path)[0]))
    ensures var steps := FetchSteps(0, 1, |PullObjects(g, x.path)[0].content|);
      && CanRun(g, w, steps)
      && var v := Run(g, w, steps);
      && v.sessions == [x.(cli := C.Apply(x.cli, C.StreamOk(1)))] && v.store == w.store && v.history == w.history
  {
    var source := PullObjects(g, x.path)[0];
    var n := |source.content|;
    SmallSize(n);
    RequestGrants(g, w, 0, 1, ReadyFile(x.peer, source));
    var v, a := Apply(g, w, Request(0, 1)), StreamEnds(0, 1, n, true);
    StreamEnded(g, v, x, n);
    TwoSteps(g, w, Request(0, 1), a);
  }

  lemma StreamEnded(g: Config, v: World, x: Session, n: nat)
    requires v.sessions == [x] && ClientCan(x, C.StreamOk(1)) && TransferAt(x.cli, 1).Some?
    requires n <= |Granted(v, 0, 1)| && AsUint64(TransferAt(x.cli, 1).value.bytes) <= n
    ensures Enabled(g, v, StreamEnds(0, 1, n, true))
    ensures var u := Apply(g, v, StreamEnds(0, 1, n, true));
      && u.sessions == [x.(cli := C.Apply(x.cli, C.StreamOk(1)))] && u.store == v.store && u.history == v.history
  {}

  lemma CanFetchFirst(g: Config, w: World, x: Session)
    requires IsStreaming(g, w, x) && g.workers > 0
    ensures CanFetch(w, 0, 1) && TransferAt(x.cli, 1) == TransferIn(x.srv.out, 1) && TransferAt(x.cli, 1).value.id == 0
  {
    TaskIsTaken(Pool.Empty(g.workers), C.StreamTask(1));
    StreamIsRunning(x.cli);
  }

  lemma StreamIsRunning(s: C.Client)
    requires Pool.InStage(s.pool, C.StreamTask(1), Pool.Running) && 1 !in s.streamed
    ensures C.Enabled(s, C.StreamOk(1))
  {}

  lemma FirstIsReady(g: Config, actions: seq<Action>, x: Session)
    requires ValidConfig(g) && CanRun(g, Init(), actions) && IsStreaming(g, Run(g, Init(), actions), x)
    ensures IsReady(Run(g, Init(), actions).tickets, 0, ReadyFile(x.peer, PullObjects(g, x.path)[0]))
  {
    assert TransferIn(x.srv.out, 1).Some?;
    var i := AnnouncedTicketIsReady(g, actions, 0, 1);
    SamePathSameObject(g, x.path, i, 0);
  }

  /** The integrity task is running, on a client that has compared nothing so far. */
  predicate IsChecking(w: World, x: Session) {
    && w.sessions == [x] && x.clientLive && C.Enabled(x.cli, C.CheckOk(1, false)) && x.cli.job == Some(x.job)
    && TransferAt(x.cli, 1).Some? && w.history == History({}, {}, {}, {}) && x.job in w.store.jobs && x.job in w.store.disk
  }

  lemma FileIsChecked(g: Config, w: World, x: Session) returns (steps: seq<Action>, y: Session)
    requires IsStreaming(g, w, x) && CanFetch(w, 0, 1) && g.workers > 0
    requires |PullObjects(g, x.path)[0].content| < 0x8000_0000
    requires IsReady(w.tickets, 0, ReadyFile(x.peer, PullObjects(g, x.path)[0]))
    ensures CanRun(g, w, steps) && IsChecking(Run(g, w, steps), y)
    ensures y.job == x.job && y.path == x.path && y.cli.inbox == x.cli.inbox
  {
    var fetch := FetchSteps(0, 1, |PullObjects(g, x.path)[0].content|);
    FileArrives(g, w, x);
    TaskIsTaken(Pool.Empty(g.workers), C.StreamTask(1));
    var v, x1 := Run(g, w, fetch), x.(cli := C.Apply(x.cli, C.StreamOk(1)));
    ClientChecks(x1.cli, x1.srv.out);
    LiftClient(g, v, x1, Checking());
    steps := fetch + ClientSteps(Checking());
    RunThenRun(g, w, fetch, ClientSteps(Checking()), steps);
    y := x1.(cli := C.Run(x1.cli, Checking()));
  }

  /** On every server that serves a file first, a run from the start records that file although no
      client ever compared a digest for anything. */
  lemma MissingDigestIsReachable(g: Config, job: string, path: string, peer: nat) returns (actions: seq<Action>)
    requires ValidConfig(g) && StartsWithFile(g, path) && job != ""
    ensures CanRun(g, Init(), actions)
    ensures var w, p := Run(g, Init(), actions), RelativePath(PullObjects(g, path)[0]);
      IsCompleted(w.store, job, p) && !HasReadBack(w.history, job, p)
  {
    var first, x := FileIsStreaming(g, job, path, peer);
    var w := Run(g, Init(), first);
    CanFetchFirst(g, w, x);
    FirstIsReady(g, first, x);
    var second, y := FileIsChecked(g, w, x);
    RunThenRun(g, Init(), first, second, first + second);
    var v, p := Run(g, w, second), RelativePath(PullObjects(g, path)[0]);
    var third := [CheckDone(0, 1, false), Report(0, 1), Deliver(job, p)];
    CheckIsEvidenceExactly(g, v, 0, 1, false);
    actions := first + second + third;
    RunThenRun(g, Init(), first + second, third, actions);
  }

  // ----- such a server exists ------------------------------------------------------------------

  const ONE_FILE := Listing([Entry("a", Regular, Some(Regular), [], true, Unopenable)])

  lemma OneFileCrawl(root: string)
    ensures Crawl([Start(root, ONE_FILE)]) == [FastCrawler.Object(["a"], Path.Join(root, "a"), Regular, [])]
  {
    var at := Start(root, ONE_FILE);
    var es := Entries(ONE_FILE);
    assert es[1..] == [];
    assert Objects(at, es) == Own(at, es[0]) + Objects(at, es[1..]) && Own(at, es[0]) == [ObjectOf(at, es[0])];
    assert Items(at, es) == Sub(at, es[0]) + Items(at, es[1..]) && Sub(at, es[0]) == [];
    assert [at][1..] == [] && Next([at]) == [];
    assert [] + ["a"] == ["a"];
  }

  lemma OneComponentBelow(root: string, name: string)
    requires Path.IsComponent(root) && Path.IsComponent(name)
    ensures Path.IsRoot(Path.Join("/" + root, "/" + name))
  {
    Path.OneComponentResolved(root);
    Path.OneComponentResolved(name);
    var r, n := "/" + root, "/" + name;
    assert |r| > 1 && r != "/" && n[1..] == name;
    assert Path.IsRoot(r);
    Path.ComponentsResolved([name]);
    assert Path.DropLeadingSlash(n) == Path.DropLeadingSlash(name);
    assert Path.Join(r, n) == Path.Join(r, name);
    Path.JoinRoot(r, name);
  }

  lemma OneFileServer() returns (g: Config)
    ensures ValidConfig(g) && StartsWithFile(g, "/p")
  {
    g := Config("/r", _ => ONE_FILE, _ => 0, 1);
    ServesValid(g);
    ServesFirst(g);
  }

  lemma ServesValid(g: Config)
    requires forall path: string :: g.serve(path) == ONE_FILE
    ensures ValidConfig(g)
  {
    forall path: string | Path.IsRoot(Path.Join(g.root, path))
      ensures WellNamed(g.serve(path)) && forall o | o in PullObjects(g, path) :: '\n' !in RelativePath(o)
    {
      OneFileNames(Path.Join(g.root, path));
      assert PullObjects(g, path) == Crawl([Start(Path.Join(g.root, path), ONE_FILE)]);
    }
  }

  lemma OneFileNames(root: string)
    ensures WellNamed(ONE_FILE)
    ensures forall o | o in Crawl([Start(root, ONE_FILE)]) :: '\n' !in RelativePath(o)
  {
    OneFileCrawl(root);
    assert ONE_FILE.entries[1..] == [];
  }

  lemma ServesFirst(g: Config)
    requires g.root == "/r" && g.serve("/p") == ONE_FILE && g.workers > 0
    ensures StartsWithFile(g, "/p")
  {
    OneComponentBelow("r", "p");
    Path.OneComponentResolved("p");
    assert "/" + "r" == "/r" && "/" + "p" == "/p";
    OneFileCrawl(Path.Join("/r", "/p"));
    assert PullObjects(g, "/p") == Crawl([Start(Path.Join("/r", "/p"), ONE_FILE)]);
  }
}
