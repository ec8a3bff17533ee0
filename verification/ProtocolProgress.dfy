/**
 Progress of the whole system: a session that has not lost a connection goes on until both sides are
 through.
 */
module ProtocolProgress {
  import C = ClientSession
  import JobLog
  import Path
  import S = ServerSession
  import opened FastCrawler
  import opened Messages
  import opened Protocol
  import opened ProtocolInvariant
  import opened ProtocolResults

  predicate IsServed(x: Session) {
    Path.IsAbsolute(x.path) && Path.IsResolved(x.path)
  }

  /** A server thread that has returned on a working connection has sent `Finished`, or an error to
      those whose path it does not take. */
  predicate EndInv(served: bool, srv: S.Server) {
    && (S.StartedSent(srv) ==> served) && (IsRefused(srv) ==> !served)
    && (srv.phase == S.Closed && !srv.broken ==> S.FinishedSent(srv) || IsRefused(srv))
  }

  predicate IsRefused(srv: S.Server) {
    srv.out != [] && srv.out[0] == Error
  }

  ghost predicate ProgressInv(g: Config, x: Session) {
    && x.srv.pool.workers == g.workers && !x.srv.pool.done && EndInv(IsServed(x), x.srv)
    && C.OwnInv(x.cli) && x.cli.pool.workers == g.workers
  }

  lemma ServerStepEnd(c: S.Scope, served: bool, srv: S.Server, b: S.Action)
    requires S.Enabled(c, srv, b) && S.ShapeInv(c, srv) && EndInv(served, srv)
    requires srv.phase == S.Starting || srv.phase == S.Closed ==> srv.pool.stage == map[]
    requires (b.SendStarted? ==> served) && (b.Reject? ==> !served)
    ensures EndInv(served, S.Apply(c, srv, b))
  {
    if b.HashOk? || b.AnnounceNow? {
      AnnounceEnd(c, served, srv, b);
    } else {
      OtherEnd(c, served, srv, b);
    }
  }

  lemma AnnounceEnd(c: S.Scope, served: bool, srv: S.Server, b: S.Action)
    requires S.Enabled(c, srv, b) && S.ShapeInv(c, srv) && EndInv(served, srv) && (b.HashOk? || b.AnnounceNow?)
    requires srv.phase == S.Starting || srv.phase == S.Closed ==> srv.pool.stage == map[]
    ensures EndInv(served, S.Apply(c, srv, b))
  {
    assert srv.phase != S.Closed && srv.phase != S.Starting;
  }

  lemma OtherEnd(c: S.Scope, served: bool, srv: S.Server, b: S.Action)
    requires S.Enabled(c, srv, b) && S.ShapeInv(c, srv) && EndInv(served, srv) && !b.HashOk? && !b.AnnounceNow?
    requires (b.SendStarted? ==> served) && (b.Reject? ==> !served)
    ensures EndInv(served, S.Apply(c, srv, b))
  {}

  lemma OwnProgress(g: Config, w: World, a: Action)
    requires Enabled(g, w, a) && HasSession(a) && ProgressInv(g, w.sessions[a.s])
    requires var x := w.sessions[a.s];
      C.TasksInv(x.cli) && S.ShapeInv(Scope(g, x), x.srv) && S.TasksInv(x.srv)
    ensures ProgressInv(g, SessionAfter(g, w, w.sessions[a.s], a))
  {
    var x := w.sessions[a.s];
    if ClientPart(a).Some? {
      C.StepOwn(x.cli, ClientPart(a).value);
    } else if a.ServerStep? {
      ServerProgress(g, w.store, w.tickets.next, x, a.srv);
    }
  }

  lemma ServerProgress(g: Config, store: JobLog.Store, next: nat, x: Session, b: S.Action)
    requires ServerCan(g, store, next, x, b) && ProgressInv(g, x)
    requires S.ShapeInv(Scope(g, x), x.srv) && S.TasksInv(x.srv)
    ensures ProgressInv(g, x.(srv := S.Apply(Scope(g, x), x.srv, b)))
  {
    ServerStepEnd(Scope(g, x), IsServed(x), x.srv, b);
    PoolStays(Scope(g, x), x.srv, b);
  }

  lemma PoolStays(c: S.Scope, srv: S.Server, b: S.Action)
    requires S.Enabled(c, srv, b)
    ensures S.Apply(c, srv, b).pool.workers == srv.pool.workers && S.Apply(c, srv, b).pool.done == srv.pool.done
  {}

  lemma NewProgress(g: Config, job: string, path: string, peer: nat)
    ensures ProgressInv(g, NewSession(g, job, path, peer))
  {}

  lemma StepProgress(g: Config, w: World, a: Action, s: nat)
    requires Inv(g, w) && Enabled(g, w, a) && s < |SessionsAfter(g, w, a)|
    requires s < |w.sessions| ==> ProgressInv(g, w.sessions[s])
    ensures ProgressInv(g, SessionsAfter(g, w, a)[s])
  {
    SessionAt(g, w, a, s);
    if s >= |w.sessions| {
      NewProgress(g, a.id, StoreAfter(w.store, a).jobs[a.id].path, a.peer);
    } else if HasSession(a) && a.s == s {
      assert SessionInv(g, w.store, w.history, w.sessions[s]);
      OwnProgress(g, w, a);
    }
  }

  ghost predicate AllProgress(g: Config, xs: seq<Session>) {
    forall s | 0 <= s < |xs| :: ProgressInv(g, xs[s])
  }

  lemma StepAllProgress(g: Config, w: World, a: Action)
    requires Inv(g, w) && Enabled(g, w, a) && AllProgress(g, w.sessions)
    ensures AllProgress(g, Apply(g, w, a).sessions)
  {
    forall s | 0 <= s < |SessionsAfter(g, w, a)| ensures ProgressInv(g, SessionsAfter(g, w, a)[s]) {
      StepProgress(g, w, a, s);
    }
  }

  lemma {:induction false} RunProgress(g: Config, w: World, actions: seq<Action>)
    requires ValidConfig(g) && Inv(g, w) && CanRun(g, w, actions) && AllProgress(g, w.sessions)
    ensures AllProgress(g, Run(g, w, actions).sessions)
    decreases |actions|
  {
    if actions != [] {
      StepAllProgress(g, w, actions[0]);
      StepInv(g, w, actions[0]);
      RunProgress(g, Apply(g, w, actions[0]), actions[1..]);
    }
  }

  predicate LosesConnection(a: Action) {
    || (a.ServerStep? && a.srv == S.Break)
    || (a.ClientStep? && a.cli == C.ReceiveFails)
    || a.KillClient?
  }

  /** Nothing can happen in the session any more, but that a connection is lost or the client killed. */
  ghost predicate IsAtRest(g: Config, w: World, s: nat) {
    forall a | HasSession(a) && a.s == s && !LosesConnection(a) :: !Enabled(g, w, a)
  }

  lemma CrawlIsServed(c: S.Scope, served: bool, srv: S.Server)
    requires S.ShapeInv(c, srv) && EndInv(served, srv) && srv.phase == S.Crawling
    ensures served
  {}

  /** The server's side goes on until its thread has returned. */
  lemma ServerCanStep(g: Config, w: World, s: nat) returns (a: Action)
    requires s < |w.sessions| && w.sessions[s].serverLive && g.workers > 0 && ProgressInv(g, w.sessions[s])
    requires S.CoreInv(Scope(g, w.sessions[s]), w.sessions[s].srv) && w.sessions[s].srv.phase != S.Closed
    requires S.ShapeInv(Scope(g, w.sessions[s]), w.sessions[s].srv)
    requires Path.IsResolved(Path.Join(g.root, w.sessions[s].path)) || !IsServed(w.sessions[s])
    ensures a.ServerStep? && a.s == s && !LosesConnection(a) && Enabled(g, w, a)
  {
    var b := ThreadMay(g, w.store, w.tickets.next, w.sessions[s]);
    a := ServerStep(s, b);
  }

  lemma ThreadMay(g: Config, store: JobLog.Store, next: nat, x: Session) returns (b: S.Action)
    requires x.serverLive && g.workers > 0 && ProgressInv(g, x)
    requires S.CoreInv(Scope(g, x), x.srv) && S.ShapeInv(Scope(g, x), x.srv) && x.srv.phase != S.Closed
    requires Path.IsResolved(Path.Join(g.root, x.path)) || !IsServed(x)
    ensures b != S.Break && ServerCan(g, store, next, x, b)
  {
    if x.srv.phase == S.Starting && !IsServed(x) {
      b := S.Reject;
    } else {
      if x.srv.phase == S.Crawling {
        CrawlIsServed(Scope(g, x), IsServed(x), x.srv);
      }
      b := ServerMay(g, store, next, x);
    }
  }

  lemma ServerMay(g: Config, store: JobLog.Store, next: nat, x: Session) returns (b: S.Action)
    requires x.serverLive && x.srv.pool.workers > 0 && !x.srv.pool.done
    requires S.CoreInv(Scope(g, x), x.srv) && x.srv.phase != S.Closed
    requires x.srv.phase == S.Starting ==> IsServed(x)
    requires x.srv.phase == S.Crawling ==> Path.IsResolved(Path.Join(g.root, x.path))
    ensures b != S.Break && ServerCan(g, store, next, x, b)
  {
    var os := PullObjects(g, x.path);
    var skip := x.srv.pos < |os| && IsCompleted(store, x.job, RelativePath(os[x.srv.pos]));
    b := S.CanStep(Scope(g, x), x.srv, next, skip);
  }

  lemma NextCanBeRead(g: Config, w: World, s: nat)
    requires s < |w.sessions| && w.sessions[s].clientLive && w.sessions[s].cli.phase == C.Reading
    requires |w.sessions[s].cli.inbox| < |w.sessions[s].srv.out|
    ensures var x := w.sessions[s];
      Enabled(g, w, ClientStep(s, C.Receive(x.srv.out[|x.cli.inbox|])))
  {}

  /** And the client's until it has nothing to do but wait for the next message. */
  lemma ClientIsDone(g: Config, w: World, s: nat)
    requires s < |w.sessions| && w.sessions[s].clientLive && g.workers > 0 && ProgressInv(g, w.sessions[s])
    requires C.TasksInv(w.sessions[s].cli) && LinkInv(w.sessions[s]) && w.sessions[s].cli.phase != C.Aborted
    requires IsAtRest(g, w, s)
    ensures var cli := w.sessions[s].cli;
      && (cli.phase == C.Reported || (cli.phase == C.Reading && cli.inbox == w.sessions[s].srv.out))
      && cli.pool.stage == map[]
      && (cli.inbox != [] && cli.inbox[|cli.inbox| - 1].Finished? ==> cli.phase == C.Reported)
  {
    var x := w.sessions[s];
    forall b | C.IsOwn(b) ensures !C.Enabled(x.cli, b) {
      assert !Enabled(g, w, ClientStep(s, b));
    }
    C.NothingToDo(x.cli);
    if x.cli.phase == C.Reading && |x.cli.inbox| < |x.srv.out| {
      NextCanBeRead(g, w, s);
      assert false;
    }
  }

  /** On every schedule, unless "/" is pulled from a server of "/": if both sides of a session are
      alive, none of its connections was lost, and nothing more can happen in it, then the server has
      sent everything and its thread has returned, and the client has read it all and reported; or the
      path was refused, and the client was told. */
  lemma PullEnds(g: Config, actions: seq<Action>, s: nat)
    requires ValidConfig(g) && CanRun(g, Init(), actions) && s < |Run(g, Init(), actions).sessions| && g.workers > 0
    requires var x := Run(g, Init(), actions).sessions[s];
      && x.serverLive && x.clientLive && !x.srv.broken && x.cli.phase != C.Aborted
      && (g.root != "/" || x.path != "/")
    requires Path.IsAbsolute(g.root) && Path.IsResolved(g.root)
    requires IsAtRest(g, Run(g, Init(), actions), s)
    ensures var x := Run(g, Init(), actions).sessions[s];
      && x.srv.phase == S.Closed && x.cli.inbox == x.srv.out && x.cli.pool.stage == map[]
      && (if IsServed(x) then S.FinishedSent(x.srv) && x.cli.phase == C.Reported else x.srv.out == [Error])
  {
    var w := Run(g, Init(), actions);
    Reachable(g, actions);
    RunProgress(g, Init(), actions);
    assert SessionInv(g, w.store, w.history, w.sessions[s]) && ProgressInv(g, w.sessions[s]);
    if IsServed(w.sessions[s]) {
      Path.JoinResolvedExactly(g.root, w.sessions[s].path);
    }
    RestIsEnd(g, w, s);
  }

  lemma RestIsEnd(g: Config, w: World, s: nat)
    requires s < |w.sessions| && g.workers > 0 && ProgressInv(g, w.sessions[s]) && IsAtRest(g, w, s)
    requires var x := w.sessions[s];
      && S.Inv(Scope(g, x), x.srv) && C.TasksInv(x.cli) && C.ToCompleteInv(x.cli) && LinkInv(x)
      && x.serverLive && x.clientLive && !x.srv.broken && x.cli.phase != C.Aborted
      && (Path.IsResolved(Path.Join(g.root, x.path)) || !IsServed(x))
    ensures var x := w.sessions[s];
      && x.srv.phase == S.Closed && x.cli.inbox == x.srv.out && x.cli.pool.stage == map[]
      && (if IsServed(x) then S.FinishedSent(x.srv) && x.cli.phase == C.Reported else x.srv.out == [Error])
  {
    var x := w.sessions[s];
    if x.srv.phase != S.Closed {
      var a := ServerCanStep(g, w, s);
    }
    ClientIsDone(g, w, s);
    if x.cli.phase == C.Reported {
      ReportedReadAll(g, x);
    }
  }

  // ----- the one request that never ends -------------------------------------------------------

  /** Nothing but `Started` has been sent, and the crawl has not ended. */
  predicate IsStuck(srv: S.Server) {
    || (srv.out == [] && (srv.phase == S.Starting || srv.phase == S.Closed))
    || (|srv.out| == 1 && srv.out[0].Started? && srv.phase == S.Crawling)
  }

  lemma OwnStuck(g: Config, store: JobLog.Store, next: nat, x: Session, b: S.Action)
    requires g.root == x.path == "/" && ServerCan(g, store, next, x, b) && IsStuck(x.srv)
    ensures IsStuck(S.Apply(Scope(g, x), x.srv, b))
  {
    Path.ResolvedExactly("/");
    Path.JoinResolvedExactly("/", "/");
    assert PullObjects(g, x.path) == [];
  }

  lemma StepStuck(g: Config, w: World, a: Action, s: nat)
    requires g.root == "/" && Enabled(g, w, a) && s < |SessionsAfter(g, w, a)| && SessionsAfter(g, w, a)[s].path == "/"
    requires s < |w.sessions| && w.sessions[s].path == "/" ==> IsStuck(w.sessions[s].srv)
    ensures IsStuck(SessionsAfter(g, w, a)[s].srv)
  {
    SessionAt(g, w, a, s);
    if s < |w.sessions| && a.ServerStep? && a.s == s {
      OwnStuck(g, w.store, w.tickets.next, w.sessions[s], a.srv);
    }
  }

  lemma {:induction false} RunStuck(g: Config, w: World, actions: seq<Action>, s: nat)
    requires g.root == "/" && CanRun(g, w, actions)
    requires s < |w.sessions| && w.sessions[s].path == "/" ==> IsStuck(w.sessions[s].srv)
    requires s < |Run(g, w, actions).sessions| && Run(g, w, actions).sessions[s].path == "/"
    ensures IsStuck(Run(g, w, actions).sessions[s].srv)
    decreases |actions|
  {
    if actions != [] {
      var v := Apply(g, w, actions[0]);
      if s < |v.sessions| && v.sessions[s].path == "/" {
        StepStuck(g, w, actions[0], s);
      }
      RunStuck(g, v, actions[1..], s);
    }
  }

  /** On no run does a server of "/" send anything but `Started` for a pull of "/": the two join to the
      empty path, which the crawler refuses to visit. */
  lemma SlashIsNeverServed(g: Config, actions: seq<Action>, s: nat)
    requires g.root == "/" && CanRun(g, Init(), actions)
    requires s < |Run(g, Init(), actions).sessions| && Run(g, Init(), actions).sessions[s].path == "/"
    ensures IsStuck(Run(g, Init(), actions).sessions[s].srv)
  {
    RunStuck(g, Init(), actions, s);
  }
}
