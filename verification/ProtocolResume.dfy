/**
 What a session announces, against what its job's table entry records: what is recorded when the
 crawl reaches it is skipped, and everything else is announced as it is, numbered and counted.
 */
module ProtocolResume {
  import C = ClientSession
  import JobLog
  import Path
  import S = ServerSession
  import Strings
  import opened FastCrawler
  import opened Messages
  import opened Protocol
  import opened ProtocolInvariant
  import opened ProtocolResults
  import opened Wrappers

  // ----- what a request begins -----------------------------------------------------------------

  /** `x` is a session of `job` that has done nothing yet. */
  predicate HasBegun(g: Config, x: Session, job: string, path: string, peer: nat) {
    && x.job == job && x.path == path && x.peer == peer && x.serverLive && x.clientLive
    && x.srv == S.Fresh(g.workers) && x.cli == C.Fresh(g.workers)
  }

  /** A start is taken for any path, and begins with nothing recorded. */
  lemma StartBegins(g: Config, w: World, id: string, created: string, path: string, peer: nat)
    requires id != "" && '\n' !in created
    ensures Enabled(g, w, StartJob(id, created, path, peer)) <==> id !in w.store.disk && id !in w.store.jobs
    ensures id !in w.store.disk && id !in w.store.jobs ==>
      var v := Apply(g, w, StartJob(id, created, path, peer));
      && |v.sessions| == |w.sessions| + 1 && v.sessions[..|w.sessions|] == w.sessions
      && HasBegun(g, v.sessions[|w.sessions|], id, path, peer)
      && v.store.jobs == w.store.jobs[id := JobLog.Parsed(path, {})]
      && v.store.disk == w.store.disk[id := "# Job created at " + created + " for:\nPath " + path + "\n"]
  {
    var header := JobLog.Header(created, path);
    assert header == "# Job created at " + created + " for:\nPath " + path + "\n";
  }

  /** A resume is taken exactly if the job's log gives a path that is "/" or has no empty, "." or ".."
      component behind a slash at the front. A job already in the table stays as it is there. */
  lemma ResumeBegins(g: Config, w: World, id: string, peer: nat)
    ensures Enabled(g, w, ResumeJob(id, peer)) <==> id in w.store.disk && GivesPath(w.store.disk[id])
    ensures id in w.store.disk && GivesPath(w.store.disk[id]) ==>
      var v := Apply(g, w, ResumeJob(id, peer));
      && |v.sessions| == |w.sessions| + 1 && v.sessions[..|w.sessions|] == w.sessions
      && id in v.store.jobs && HasBegun(g, v.sessions[|w.sessions|], id, v.store.jobs[id].path, peer)
      && v.store.disk == w.store.disk
      && v.store.jobs == if id in w.store.jobs then w.store.jobs else w.store.jobs[id := JobLog.Parse(w.store.disk[id])]
  {
    if id in w.store.disk {
      JobLog.LoadsExactly(w.store.disk[id]);
    }
  }

  predicate GivesPath(log: string) {
    var path := JobLog.Parse(log).path;
    var parts := Strings.Split(if path != "" && path[0] == '/' then path[1..] else path, '/');
    path == "/" || ("" !in parts && "." !in parts && ".." !in parts)
  }

  // ----- the table -----------------------------------------------------------------------------

  lemma StepTable(g: Config, w: World, a: Action, job: string, p: string)
    requires Enabled(g, w, a) && !a.Restart? && IsCompleted(w.store, job, p)
    ensures IsCompleted(StoreAfter(w.store, a), job, p)
  {}

  /** As long as the server runs, no completion leaves the table. */
  lemma {:induction false} TableOnlyGrows(g: Config, w: World, actions: seq<Action>, job: string, p: string)
    requires CanRun(g, w, actions) && IsCompleted(w.store, job, p) && forall a | a in actions :: !a.Restart?
    ensures IsCompleted(Run(g, w, actions).store, job, p)
    decreases |actions|
  {
    if actions != [] {
      StepTable(g, w, actions[0], job, p);
      assert forall a | a in actions[1..] :: a in actions;
      TableOnlyGrows(g, Apply(g, w, actions[0]), actions[1..], job, p);
    }
  }

  /** A job that is not in the table keeps its log as it is until it is resumed, whatever reports come
      for it; only a crash takes from it. */
  lemma {:induction false} UnknownJobKeepsLog(g: Config, w: World, actions: seq<Action>, job: string)
    requires CanRun(g, w, actions) && job in w.store.disk && job !in w.store.jobs
    requires forall a | a in actions :: !a.Restart? && !(a.ResumeJob? && a.id == job)
    ensures var v := Run(g, w, actions);
      job in v.store.disk && v.store.disk[job] == w.store.disk[job] && job !in v.store.jobs
    decreases |actions|
  {
    if actions != [] {
      StepUnknown(g, w, actions[0], job);
      assert forall a | a in actions[1..] :: a in actions;
      UnknownJobKeepsLog(g, Apply(g, w, actions[0]), actions[1..], job);
    }
  }

  lemma StepUnknown(g: Config, w: World, a: Action, job: string)
    requires Enabled(g, w, a) && job in w.store.disk && job !in w.store.jobs
    requires !a.Restart? && !(a.ResumeJob? && a.id == job)
    ensures var store := StoreAfter(w.store, a);
      job in store.disk && store.disk[job] == w.store.disk[job] && job !in store.jobs
  {}

  // ----- what was recorded before --------------------------------------------------------------

  /** Nothing of this path is announced, or going to be. */
  ghost predicate IsLeftOut(g: Config, x: Session, p: string) {
    forall i: nat | i < |PullObjects(g, x.path)| && RelativePath(PullObjects(g, x.path)[i]) == p && i in x.srv.fate ::
      x.srv.fate[i] == S.Skipped
  }

  ghost predicate LeftOutInv(g: Config, w: World, s: nat, p: string) {
    && s < |w.sessions| && IsLeftOut(g, w.sessions[s], p)
    && (w.sessions[s].serverLive ==> IsCompleted(w.store, w.sessions[s].job, p))
  }

  lemma ServerLeavesOut(g: Config, store: JobLog.Store, next: nat, x: Session, b: S.Action, p: string)
    requires ServerCan(g, store, next, x, b) && IsCompleted(store, x.job, p) && IsLeftOut(g, x, p)
    requires S.CoreInv(Scope(g, x), x.srv)
    ensures IsLeftOut(g, x.(srv := S.Apply(Scope(g, x), x.srv, b)), p)
  {
    var c, t := Scope(g, x), S.Apply(Scope(g, x), x.srv, b);
    assert S.TaskInv(x.srv, S.Subject(x.srv, b));
    forall i: nat | i < |c.objects| && RelativePath(c.objects[i]) == p && i in t.fate ensures t.fate[i] == S.Skipped {
      if i in x.srv.fate {
        S.StepSkipStays(c, x.srv, b, i);
      } else {
        S.StepReachesOne(c, x.srv, b, i);
      }
    }
  }

  lemma StepLeftOut(g: Config, w: World, a: Action, s: nat, p: string)
    requires Inv(g, w) && Enabled(g, w, a) && LeftOutInv(g, w, s, p)
    ensures LeftOutInv(g, Apply(g, w, a), s, p)
  {
    if a.ServerStep? && a.s == s {
      OwnLeftOut(g, w, s, a.srv, p);
    } else {
      StreamKept(g, w, a, s);
      SameLeftOut(g, w.sessions[s], SessionsAfter(g, w, a)[s], p);
      if SessionsAfter(g, w, a)[s].serverLive {
        StepTable(g, w, a, w.sessions[s].job, p);
      }
    }
  }

  lemma OwnLeftOut(g: Config, w: World, s: nat, b: S.Action, p: string)
    requires Inv(g, w) && Enabled(g, w, ServerStep(s, b)) && LeftOutInv(g, w, s, p)
    ensures LeftOutInv(g, Apply(g, w, ServerStep(s, b)), s, p)
  {
    SessionAt(g, w, ServerStep(s, b), s);
    assert SessionInv(g, w.store, w.history, w.sessions[s]);
    ServerLeavesOut(g, w.store, w.tickets.next, w.sessions[s], b, p);
  }

  lemma SameLeftOut(g: Config, x: Session, y: Session, p: string)
    requires IsLeftOut(g, x, p) && y.srv == x.srv && y.path == x.path
    ensures IsLeftOut(g, y, p)
  {}

  lemma StreamKept(g: Config, w: World, a: Action, s: nat)
    requires Enabled(g, w, a) && s < |w.sessions| && !(a.ServerStep? && a.s == s)
    ensures var x, y := w.sessions[s], SessionsAfter(g, w, a)[s];
      y.srv == x.srv && y.job == x.job && y.path == x.path && y.peer == x.peer && (y.serverLive ==> x.serverLive && !a.Restart?)
  {
    SessionAt(g, w, a, s);
  }

  lemma {:induction false} RunLeftOut(g: Config, w: World, actions: seq<Action>, s: nat, p: string)
    requires ValidConfig(g) && Inv(g, w) && CanRun(g, w, actions) && LeftOutInv(g, w, s, p)
    ensures LeftOutInv(g, Run(g, w, actions), s, p)
    decreases |actions|
  {
    if actions != [] {
      StepLeftOut(g, w, actions[0], s, p);
      StepInv(g, w, actions[0]);
      RunLeftOut(g, Apply(g, w, actions[0]), actions[1..], s, p);
    }
  }

  lemma LeftOutIsUnsent(g: Config, x: Session, p: string, k: nat)
    requires S.StreamInv(Scope(g, x), x.srv) && IsLeftOut(g, x, p) && C.IsObject(x.srv.out, k)
    ensures C.PathOf(x.srv.out, k) != p
  {
    S.MessageAt(Scope(g, x), x.srv, k);
    assert S.SentInv(x.srv, x.srv.sent[k - 1]);
  }

  /** Whatever happens before and after: a path that is in the job's table entry when a session
      starts is in no message of that session. */
  lemma ResumeSkipsRecorded(g: Config, before: seq<Action>, start: Action, after: seq<Action>, p: string, k: nat)
    requires ValidConfig(g) && CanRun(g, Init(), before)
    requires (start.StartJob? || start.ResumeJob?) && Enabled(g, Run(g, Init(), before), start)
    requires var w := Apply(g, Run(g, Init(), before), start);
      IsCompleted(w.store, start.id, p) && CanRun(g, w, after)
    ensures IsNotSent(Run(g, Apply(g, Run(g, Init(), before), start), after), |Run(g, Init(), before).sessions|, start.id, p, k)
  {
    Reachable(g, before);
    SkipsFrom(g, Run(g, Init(), before), start, after, p, k);
  }

  /** Message `k` of session `s`, which is one of `job`, is not about `p`. */
  predicate IsNotSent(w: World, s: nat, job: string, p: string, k: nat) {
    && s < |w.sessions| && w.sessions[s].job == job
    && (C.IsObject(w.sessions[s].srv.out, k) ==> C.PathOf(w.sessions[s].srv.out, k) != p)
  }

  lemma SkipsFrom(g: Config, u: World, start: Action, after: seq<Action>, p: string, k: nat)
    requires ValidConfig(g) && Inv(g, u) && (start.StartJob? || start.ResumeJob?) && Enabled(g, u, start)
    requires IsCompleted(Apply(g, u, start).store, start.id, p) && CanRun(g, Apply(g, u, start), after)
    ensures IsNotSent(Run(g, Apply(g, u, start), after), |u.sessions|, start.id, p, k)
  {
    var w := Apply(g, u, start);
    StepInv(g, u, start);
    SessionAt(g, u, start, |u.sessions|);
    RunLeftOut(g, w, after, |u.sessions|, p);
    RunInv(g, w, after);
    JobStays(g, w, after, |u.sessions|);
    var v := Run(g, w, after);
    assert SessionInv(g, v.store, v.history, v.sessions[|u.sessions|]);
    if C.IsObject(v.sessions[|u.sessions|].srv.out, k) {
      LeftOutIsUnsent(g, v.sessions[|u.sessions|], p, k);
    }
  }

  lemma {:induction false} JobStays(g: Config, w: World, actions: seq<Action>, s: nat)
    requires CanRun(g, w, actions) && s < |w.sessions|
    ensures var v := Run(g, w, actions);
      s < |v.sessions| && v.sessions[s].job == w.sessions[s].job && v.sessions[s].path == w.sessions[s].path
    decreases |actions|
  {
    if actions != [] {
      SessionAt(g, w, actions[0], s);
      JobStays(g, Apply(g, w, actions[0]), actions[1..], s);
    }
  }

  // ----- what is delivered stays ---------------------------------------------------------------

  /** The log still has what `log` says, and so does the table if the job is in it. */
  predicate IsKept(store: JobLog.Store, job: string, log: string, path: string) {
    && job in store.disk && log <= store.disk[job] && JobLog.Terminated(log) && path in JobLog.Parse(log).completed
    && (job in store.jobs ==> path in store.jobs[job].completed)
  }

  /** A crash takes nothing of `log`. */
  predicate Spares(a: Action, job: string, log: string) {
    a.Restart? && job in a.kept ==> log <= a.kept[job]
  }

  lemma StepKeeps(g: Config, w: World, a: Action, job: string, log: string, path: string)
    requires Enabled(g, w, a) && IsKept(w.store, job, log, path) && Spares(a, job, log)
    ensures IsKept(StoreAfter(w.store, a), job, log, path)
  {
    JobLog.LineCutAddsNothing(w.store.disk[job], log);
  }

  lemma {:induction false} RunKeeps(g: Config, w: World, actions: seq<Action>, job: string, log: string, path: string)
    requires CanRun(g, w, actions) && IsKept(w.store, job, log, path)
    requires forall a | a in actions :: Spares(a, job, log)
    ensures IsKept(Run(g, w, actions).store, job, log, path)
    decreases |actions|
  {
    if actions != [] {
      StepKeeps(g, w, actions[0], job, log, path);
      assert forall a | a in actions[1..] :: a in actions;
      RunKeeps(g, Apply(g, w, actions[0]), actions[1..], job, log, path);
    }
  }

  /** A delivery adds one line to the log, and that is read again if it is behind complete lines. */
  lemma DeliveryIsKept(g: Config, u: World, job: string, path: string)
    requires Enabled(g, u, Deliver(job, path)) && CanRecord(u.store, job, path)
    ensures var store := Apply(g, u, Deliver(job, path)).store;
      && job in store.disk && store.disk[job] == u.store.disk[job] + ("Completed " + path + "\n")
      && IsKept(store, job, store.disk[job], path)
  {
    JobLog.CompletionIsRecordedExactly(u.store.disk[job], path);
  }

  /** The job runs, and its log can take this completion. */
  predicate CanRecord(store: JobLog.Store, job: string, path: string) {
    job in store.jobs && job in store.disk && '\n' !in path && JobLog.Terminated(store.disk[job])
  }

  /** What resuming is for: a completion delivered behind complete lines, whatever happens then short of
      a crash that takes its line, is in no message of any later session of the job. */
  lemma DeliveredIsNotSentAgain(
      g: Config, before: seq<Action>, job: string, path: string, between: seq<Action>, peer: nat, after: seq<Action>, k: nat)
    requires ValidConfig(g) && CanRun(g, Init(), before)
    requires Enabled(g, Run(g, Init(), before), Deliver(job, path)) && CanRecord(Run(g, Init(), before).store, job, path)
    requires var d := Apply(g, Run(g, Init(), before), Deliver(job, path));
      && job in d.store.disk && (forall a | a in between :: Spares(a, job, d.store.disk[job])) && CanRun(g, d, between)
      && Enabled(g, Run(g, d, between), ResumeJob(job, peer))
      && CanRun(g, Apply(g, Run(g, d, between), ResumeJob(job, peer)), after)
    ensures var v := Run(g, Apply(g, Run(g, Init(), before), Deliver(job, path)), between);
      IsNotSent(Run(g, Apply(g, v, ResumeJob(job, peer)), after), |v.sessions|, job, path, k)
  {
    var u := Run(g, Init(), before);
    var d := Apply(g, u, Deliver(job, path));
    Reachable(g, before);
    StepInv(g, u, Deliver(job, path));
    DeliveryIsKept(g, u, job, path);
    KeptIsNotSentAgain(g, d, job, path, between, peer, after, k);
  }

  lemma KeptIsNotSentAgain(
      g: Config, d: World, job: string, path: string, between: seq<Action>, peer: nat, after: seq<Action>, k: nat)
    requires ValidConfig(g) && Inv(g, d) && job in d.store.disk && IsKept(d.store, job, d.store.disk[job], path)
    requires (forall a | a in between :: Spares(a, job, d.store.disk[job])) && CanRun(g, d, between)
    requires Enabled(g, Run(g, d, between), ResumeJob(job, peer))
    requires CanRun(g, Apply(g, Run(g, d, between), ResumeJob(job, peer)), after)
    ensures IsNotSent(Run(g, Apply(g, Run(g, d, between), ResumeJob(job, peer)), after),
                      |Run(g, d, between).sessions|, job, path, k)
  {
    var v := Run(g, d, between);
    RunInv(g, d, between);
    RunKeeps(g, d, between, job, d.store.disk[job], path);
    StepKeeps(g, v, ResumeJob(job, peer), job, d.store.disk[job], path);
    SkipsFrom(g, v, ResumeJob(job, peer), after, path, k);
  }

  // ----- what is recorded when the crawl reaches it --------------------------------------------

  /** The step by which the crawl of session `s` comes past object `i`, which is in the table then. */
  predicate ReachesRecorded(g: Config, w: World, a: Action, s: nat, i: nat) {
    && Enabled(g, w, a) && s < |w.sessions|
    && i !in w.sessions[s].srv.fate && i in SessionsAfter(g, w, a)[s].srv.fate
    && i < |PullObjects(g, w.sessions[s].path)|
    && IsCompleted(w.store, w.sessions[s].job, RelativePath(PullObjects(g, w.sessions[s].path)[i]))
  }

  function Reaching(g: Config, s: nat, i: nat): (World, Action) -> bool {
    (v: World, b: Action) => ReachesRecorded(g, v, b, s, i)
  }

  predicate RecordedWhenReached(g: Config, actions: seq<Action>, s: nat, i: nat)
    requires CanRun(g, Init(), actions)
  {
    Along(g, Init(), actions, Reaching(g, s, i))
  }

  predicate IsSkipped(w: World, s: nat, i: nat) {
    s < |w.sessions| && S.HasFate(w.sessions[s].srv, i, S.Skipped)
  }

  lemma OwnSkipped(g: Config, w: World, s: nat, b: S.Action, i: nat)
    requires Enabled(g, w, ServerStep(s, b)) && S.CoreInv(Scope(g, w.sessions[s]), w.sessions[s].srv)
    ensures var x, t := w.sessions[s], S.Apply(Scope(g, w.sessions[s]), w.sessions[s].srv, b);
      S.HasFate(t, i, S.Skipped) <==>
        || S.HasFate(x.srv, i, S.Skipped)
        || (&& i !in x.srv.fate && i in t.fate && i < |PullObjects(g, x.path)|
            && IsCompleted(w.store, x.job, RelativePath(PullObjects(g, x.path)[i])))
  {
    var x := w.sessions[s];
    var c, t := Scope(g, x), S.Apply(Scope(g, x), x.srv, b);
    assert S.TaskInv(x.srv, S.Subject(x.srv, b));
    S.StepSkipStays(c, x.srv, b, i);
    if S.HasFate(t, i, S.Skipped) {
      S.StepSkips(c, x.srv, b, i);
      assert x.srv.pos in x.srv.fate <==> S.Reached(x.srv, x.srv.pos);
    } else if i in t.fate && i !in x.srv.fate {
      S.StepReachesOne(c, x.srv, b, i);
    }
  }

  lemma StepSkipped(g: Config, w: World, a: Action, s: nat, i: nat)
    requires Inv(g, w) && Enabled(g, w, a)
    ensures IsSkipped(Apply(g, w, a), s, i) <==> IsSkipped(w, s, i) || ReachesRecorded(g, w, a, s, i)
  {
    if s < |w.sessions| {
      SessionAt(g, w, a, s);
      if a.ServerStep? && a.s == s {
        assert SessionInv(g, w.store, w.history, w.sessions[s]);
        OwnSkipped(g, w, s, a.srv, i);
      } else {
        StreamKept(g, w, a, s);
      }
    } else if s < |Apply(g, w, a).sessions| {
      SessionAt(g, w, a, s);
    }
  }

  lemma {:induction false} SkippedFrom(g: Config, w: World, actions: seq<Action>, s: nat, i: nat)
    requires ValidConfig(g) && Inv(g, w) && CanRun(g, w, actions)
    ensures IsSkipped(Run(g, w, actions), s, i) <==> IsSkipped(w, s, i) || Along(g, w, actions, Reaching(g, s, i))
    decreases |actions|
  {
    if actions != [] {
      StepSkipped(g, w, actions[0], s, i);
      StepInv(g, w, actions[0]);
      SkippedFrom(g, Apply(g, w, actions[0]), actions[1..], s, i);
    }
  }

  /** The first `n` objects of the tree of session `s` without those recorded when reached. */
  function Counted(g: Config, actions: seq<Action>, s: nat, n: nat): set<nat>
    requires CanRun(g, Init(), actions)
  {
    set i: nat | i < n && !RecordedWhenReached(g, actions, s, i)
  }

  lemma CountedAre(g: Config, actions: seq<Action>, s: nat, n: nat)
    requires ValidConfig(g) && CanRun(g, Init(), actions) && s < |Run(g, Init(), actions).sessions|
    requires forall i: nat | i < n :: i in Run(g, Init(), actions).sessions[s].srv.fate
    ensures Counted(g, actions, s, n) == S.CountedBefore(Run(g, Init(), actions).sessions[s].srv, n)
  {
    var srv := Run(g, Init(), actions).sessions[s].srv;
    forall i: nat | i < n ensures RecordedWhenReached(g, actions, s, i) <==> srv.fate[i] == S.Skipped {
      ReachedIsSkipped(g, actions, s, i);
    }
  }

  lemma ReachedIsSkipped(g: Config, actions: seq<Action>, s: nat, i: nat)
    requires ValidConfig(g) && CanRun(g, Init(), actions) && s < |Run(g, Init(), actions).sessions|
    ensures RecordedWhenReached(g, actions, s, i) <==> S.HasFate(Run(g, Init(), actions).sessions[s].srv, i, S.Skipped)
  {
    Reachable(g, []);
    SkippedFrom(g, Init(), actions, s, i);
  }

  /** `m` says of object `i` of the tree what there is to say; its number is its place among those
      that were not recorded when reached. */
  predicate Announces(g: Config, actions: seq<Action>, s: nat, os: seq<Object>, m: PullObject, i: nat)
    requires CanRun(g, Init(), actions)
  {
    && i < |os| && m.path == Strings.Join(os[i].names, "/") && m.kind == os[i].kind
    && !RecordedWhenReached(g, actions, s, i) && m.number == 1 + |Counted(g, actions, s, i)|
    && (if os[i].kind != Regular then m.transfer == None
        else m.transfer != None && m.transfer.value.sha256 == g.hash(os[i].content)
             && m.transfer.value.bytes == Int32(|os[i].content|))
  }

  /** Over every run: each object message of a session is about one object of its tree that was not
      recorded when the crawl reached it, and says of it exactly what is so. */
  lemma AnnouncementsAreExact(g: Config, actions: seq<Action>, s: nat, k: nat) returns (i: nat)
    requires ValidConfig(g) && CanRun(g, Init(), actions) && s < |Run(g, Init(), actions).sessions|
    requires C.IsObject(Run(g, Init(), actions).sessions[s].srv.out, k)
    ensures var x := Run(g, Init(), actions).sessions[s];
      Announces(g, actions, s, PullObjects(g, x.path), x.srv.out[k].pull, i)
  {
    var w := Run(g, Init(), actions);
    var x := w.sessions[s];
    Reachable(g, actions);
    assert SessionInv(g, w.store, w.history, x);
    i := ToldOf(Scope(g, x), x.srv, k);
    CountedAre(g, actions, s, i);
    ReachedIsSkipped(g, actions, s, i);
  }

  lemma ToldOf(c: S.Scope, srv: S.Server, k: nat) returns (i: nat)
    requires S.Inv(c, srv) && C.IsObject(srv.out, k)
    ensures S.Tells(c, srv, srv.out[k].pull, i) && S.HasFate(srv, i, S.Announced)
    ensures forall j: nat | j < i :: j in srv.fate
  {
    S.MessageTells(c, srv, k);
    S.MessageAt(c, srv, k);
    i := srv.sent[k - 1];
    assert S.SentInv(srv, i);
    forall j: nat | j < i ensures j in srv.fate {
      assert (i in srv.fate <==> S.Reached(srv, i)) && (j in srv.fate <==> S.Reached(srv, j));
    }
  }

  /** The number that `Finished` carries is that of the objects that were not recorded when reached, */
  lemma TotalIsExact(g: Config, actions: seq<Action>, s: nat)
    requires ValidConfig(g) && CanRun(g, Init(), actions) && s < |Run(g, Init(), actions).sessions|
    requires S.FinishedSent(Run(g, Init(), actions).sessions[s].srv)
    ensures var x := Run(g, Init(), actions).sessions[s];
      x.srv.out[|x.srv.out| - 1] == Finished(|Counted(g, actions, s, |PullObjects(g, x.path)|)|)
  {
    var x := Run(g, Init(), actions).sessions[s];
    TotalAt(g, actions, s);
    CountedAre(g, actions, s, |PullObjects(g, x.path)|);
  }

  lemma TotalAt(g: Config, actions: seq<Action>, s: nat)
    requires ValidConfig(g) && CanRun(g, Init(), actions) && s < |Run(g, Init(), actions).sessions|
    requires S.FinishedSent(Run(g, Init(), actions).sessions[s].srv)
    ensures var x := Run(g, Init(), actions).sessions[s];
      CountsTo(x.srv, |PullObjects(g, x.path)|)
    ensures var x := Run(g, Init(), actions).sessions[s];
      forall i: nat | i < |PullObjects(g, x.path)| :: i in x.srv.fate
  {
    var w := Run(g, Init(), actions);
    Reachable(g, actions);
    assert SessionInv(g, w.store, w.history, w.sessions[s]);
    CountsAll(Scope(g, w.sessions[s]), w.sessions[s].srv);
  }

  predicate CountsTo(srv: S.Server, n: nat) {
    srv.out != [] && srv.out[|srv.out| - 1] == Finished(|S.CountedBefore(srv, n)|)
  }

  /** and each of them has its message then, unless it is a file the server could not hash. */
  lemma UnrecordedIsAnnounced(g: Config, actions: seq<Action>, s: nat, i: nat)
    requires ValidConfig(g) && CanRun(g, Init(), actions) && s < |Run(g, Init(), actions).sessions|
    requires S.FinishedSent(Run(g, Init(), actions).sessions[s].srv)
    requires i < |PullObjects(g, Run(g, Init(), actions).sessions[s].path)| && !RecordedWhenReached(g, actions, s, i)
    ensures var x := Run(g, Init(), actions).sessions[s];
      var o := PullObjects(g, x.path)[i];
      IsAnnounced(x.srv.out, RelativePath(o)) || (o.kind == Regular && S.HasFate(x.srv, i, S.Unhashed))
  {
    var w := Run(g, Init(), actions);
    var x := w.sessions[s];
    Reachable(g, actions);
    assert SessionInv(g, w.store, w.history, x);
    ReachedIsSkipped(g, actions, s, i);
    EndedIsAnnounced(Scope(g, x), x.srv, i);
  }

  predicate IsAnnounced(out: seq<Response>, p: string) {
    exists k | 0 <= k < |out| :: C.IsObject(out, k) && C.PathOf(out, k) == p
  }

  lemma EndedIsAnnounced(c: S.Scope, srv: S.Server, i: nat)
    requires S.Inv(c, srv) && S.FinishedSent(srv) && i < |c.objects| && !S.HasFate(srv, i, S.Skipped)
    ensures IsAnnounced(srv.out, RelativePath(c.objects[i])) || (c.objects[i].kind == Regular && S.HasFate(srv, i, S.Unhashed))
  {
    S.FateWhenFinished(c, srv, i);
    if i in srv.sent {
      SentIsAnnounced(c, srv, i);
    } else {
      assert S.IsFile(c, i);
    }
  }

  lemma SentIsAnnounced(c: S.Scope, srv: S.Server, i: nat)
    requires S.StreamInv(c, srv) && S.StartedSent(srv) && i in srv.sent && i < |c.objects|
    ensures IsAnnounced(srv.out, RelativePath(c.objects[i]))
  {
    var k: nat :| k < |srv.sent| && srv.sent[k] == i;
    assert S.MessageInv(c, srv, k);
    assert C.IsObject(srv.out, k + 1) && C.PathOf(srv.out, k + 1) == RelativePath(c.objects[i]);
  }

  lemma CountsAll(c: S.Scope, srv: S.Server)
    requires S.Inv(c, srv) && S.FinishedSent(srv)
    ensures CountsTo(srv, |c.objects|)
    ensures forall i: nat | i < |c.objects| :: i in srv.fate
  {
    S.SessionHasFinished(c, srv);
    forall i: nat | i < |c.objects| ensures i in srv.fate {
      assert S.HasEnded(c, srv, i);
    }
    forall i: nat ensures i in S.CountedBefore(srv, |c.objects|) <==> i in srv.numbers.Keys {
      assert S.NumberInv(c, srv, i) && (i in srv.fate <==> S.Reached(srv, i));
    }
    assert S.CountedBefore(srv, |c.objects|) == srv.numbers.Keys;
    assert |srv.numbers.Keys| == |srv.numbers|;
  }
}
