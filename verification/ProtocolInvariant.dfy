/**
 What every step of the system keeps: logs record only what is backed by a client's own check, each
 client reads a prefix of its session's stream, and only files are ever skipped on a resume.
 */
module ProtocolInvariant {
  import C = ClientSession
  import JobLog
  import Path
  import S = ServerSession
  import opened FastCrawler
  import opened Messages
  import opened Protocol
  import opened Wrappers

  // ----- the crawl -----------------------------------------------------------------------------

  /** What the crawler guarantees of the objects of a pull. */
  lemma CrawlFacts(g: Config, path: string)
    requires ValidConfig(g)
    ensures var os := PullObjects(g, path);
      && ParentsFirst([], os)
      && (forall o | o in os :: o.names != [] && Path.AreComponents(o.names) && !Path.IsAbsolute(RelativePath(o)))
  {
    var root := Path.Join(g.root, path);
    if Path.IsRoot(root) {
      VisitIsExact(root, g.serve(path));
    }
  }

  lemma SamePathSameObject(g: Config, path: string, i: nat, j: nat)
    requires ValidConfig(g) && i < |PullObjects(g, path)| && j < |PullObjects(g, path)|
    requires RelativePath(PullObjects(g, path)[i]) == RelativePath(PullObjects(g, path)[j])
    ensures i == j
  {
    RelativePathsDistinct(Path.Join(g.root, path), g.serve(path), i, j);
  }

  // ----- evidence ------------------------------------------------------------------------------

  ghost predicate BackedBy(g: Config, h: History, job: string, jobPath: string, p: string, i: nat) {
    && i < |PullObjects(g, jobPath)| && PullObjects(g, jobPath)[i].kind == Regular
    && RelativePath(PullObjects(g, jobPath)[i]) == p
    && ((job, p) in h.unhashed
        || exists r | r in h.readBacks ::
             r.job == job && r.path == p && g.hash(r.content) == g.hash(PullObjects(g, jobPath)[i].content))
  }

  /** `p` is a file of the job's tree, and a client has read its copy back whole and found the
      source's digest, or could compute none. */
  ghost predicate Backed(g: Config, h: History, job: string, jobPath: string, p: string) {
    exists i: nat :: BackedBy(g, h, job, jobPath, p, i)
  }

  predicate More(h: History, i: History) {
    h.readBacks <= i.readBacks && h.unhashed <= i.unhashed && h.torn <= i.torn && h.broken <= i.broken
  }

  lemma BackedGrows(g: Config, h: History, h': History, job: string, jobPath: string, p: string)
    requires More(h, h') && Backed(g, h, job, jobPath, p)
    ensures Backed(g, h', job, jobPath, p)
  {
    var i: nat :| BackedBy(g, h, job, jobPath, p, i);
    assert BackedBy(g, h', job, jobPath, p, i);
  }

  // ----- logs ----------------------------------------------------------------------------------

  function PathOfJob(store: JobLog.Store, job: string): string
    requires job in store.disk
  {
    JobLog.Parse(store.disk[job]).path
  }

  /** Whether a crash has torn the job's log, or a line break was written to it. */
  predicate Spoiled(h: History, job: string) {
    job in h.torn || job in h.broken
  }

  predicate Follows(store: JobLog.Store, h: History, h': History, a: Action) {
    More(h, h') && h'.torn == h.torn + Torn(store, a) && h'.broken == h.broken + Broken(store, a)
  }

  /** A log of complete lines, with which the table agrees. */
  predicate IsSound(store: JobLog.Store, job: string) {
    job in store.disk ==>
      && JobLog.Terminated(store.disk[job])
      && (job in store.jobs ==> JobLog.Parse(store.disk[job]) == store.jobs[job])
  }

  predicate LogInv(store: JobLog.Store, h: History, job: string) {
    && (job in store.jobs ==> job in store.disk) && (job in store.disk ==> job != "")
    && (!Spoiled(h, job) ==> IsSound(store, job))
  }

  /** Everything a job's log records is backed. */
  ghost predicate RecordedInv(g: Config, store: JobLog.Store, h: History, job: string) {
    job in store.disk && !Spoiled(h, job) ==>
      forall p | p in JobLog.Parse(store.disk[job]).completed :: Backed(g, h, job, PathOfJob(store, job), p)
  }

  ghost predicate WireInv(g: Config, store: JobLog.Store, h: History, m: (string, string)) {
    m.0 in store.disk && (!Spoiled(h, m.0) ==> Backed(g, h, m.0, PathOfJob(store, m.0), m.1))
  }

  /** Log files stay, with their paths; jobs stay in the table until a restart. */
  predicate Grows(v: JobLog.Store, w: JobLog.Store, h: History, a: Action, job: string) {
    && (job in v.disk ==> job in w.disk && (!Spoiled(h, job) ==> PathOfJob(w, job) == PathOfJob(v, job)))
    && (job in v.jobs && !a.Restart? ==> job in w.jobs)
  }

  lemma StepLog(store: JobLog.Store, h: History, h': History, a: Action, job: string)
    requires LogInv(store, h, job) && StoreCan(store, a) && Follows(store, h, h', a)
    ensures LogInv(StoreAfter(store, a), h', job) && Grows(store, StoreAfter(store, a), h', a, job)
  {
    if a.StartJob? && a.id == job {
      if '\n' !in a.path {
        JobLog.NewReadsBack(a.created, a.path);
      }
    } else if a.Deliver? && a.job == job {
      DeliverLog(store, h, h', a);
    }
  }

  lemma DeliverLog(store: JobLog.Store, h: History, h': History, a: Action)
    requires a.Deliver? && LogInv(store, h, a.job) && Follows(store, h, h', a)
    ensures LogInv(StoreAfter(store, a), h', a.job) && Grows(store, StoreAfter(store, a), h', a, a.job)
  {
    if a.job in store.jobs && !Spoiled(h', a.job) {
      JobLog.CompletionReadsBack(store.disk[a.job], a.path);
    }
  }

  predicate AddsAtMost(store: JobLog.Store, now: set<string>, a: Action, job: string) {
    if job !in store.disk then now == {}
    else
      var before := JobLog.Parse(store.disk[job]).completed;
      now <= before || (a.Deliver? && a.job == job && now == before + {a.path})
  }

  /** What a step adds to a log. */
  lemma StepCompleted(store: JobLog.Store, h: History, h': History, a: Action, job: string)
    requires LogInv(store, h, job) && StoreCan(store, a) && Follows(store, h, h', a) && !Spoiled(h', job)
    requires job in StoreAfter(store, a).disk
    ensures AddsAtMost(store, JobLog.Parse(StoreAfter(store, a).disk[job]).completed, a, job)
  {
    if a.StartJob? && a.id == job {
      JobLog.NewReadsBack(a.created, a.path);
    } else if a.Deliver? && a.job == job && job in store.jobs {
      JobLog.CompletionReadsBack(store.disk[job], a.path);
    } else if a.Restart? && job in a.kept {
      JobLog.LineCutAddsNothing(store.disk[job], a.kept[job]);
    }
  }

  lemma StepRecorded(g: Config, store: JobLog.Store, h: History, h': History, a: Action, job: string)
    requires LogInv(store, h, job) && StoreCan(store, a) && Follows(store, h, h', a) && RecordedInv(g, store, h, job)
    requires a.Deliver? ==> WireInv(g, store, h, (a.job, a.path))
    ensures RecordedInv(g, StoreAfter(store, a), h', job)
  {
    if job in StoreAfter(store, a).disk && !Spoiled(h', job) {
      StepCompleted(store, h, h', a, job);
      StepLog(store, h, h', a, job);
      RecordedGrows(g, store, StoreAfter(store, a), h, h', a, job);
    }
  }

  lemma RecordedGrows(g: Config, store: JobLog.Store, now: JobLog.Store, h: History, h': History, a: Action, job: string)
    requires Grows(store, now, h', a, job) && More(h, h') && !Spoiled(h', job) && RecordedInv(g, store, h, job)
    requires a.Deliver? ==> WireInv(g, store, h, (a.job, a.path))
    requires job in now.disk && AddsAtMost(store, JobLog.Parse(now.disk[job]).completed, a, job)
    ensures RecordedInv(g, now, h', job)
  {
    forall p | p in JobLog.Parse(now.disk[job]).completed ensures Backed(g, h', job, PathOfJob(now, job), p) {
      assert job in store.disk && Backed(g, h, job, PathOfJob(store, job), p);
      BackedGrows(g, h, h', job, PathOfJob(store, job), p);
    }
  }

  lemma WireGrows(g: Config, store: JobLog.Store, h: History, h': History, a: Action, m: (string, string))
    requires LogInv(store, h, m.0) && StoreCan(store, a) && Follows(store, h, h', a) && WireInv(g, store, h, m)
    ensures WireInv(g, StoreAfter(store, a), h', m)
  {
    StepLog(store, h, h', a, m.0);
    if !Spoiled(h', m.0) {
      BackedGrows(g, h, h', m.0, PathOfJob(store, m.0), m.1);
    }
  }

  // ----- sessions ------------------------------------------------------------------------------

  ghost predicate CompleteInv(g: Config, h: History, job: string, path: string, cli: C.Client, k: nat) {
    C.IsComplete(cli, k) && TransferAt(cli, k).Some? ==> Backed(g, h, job, path, C.PathOf(cli.inbox, k))
  }

  /** The client has read a prefix of what was sent, and no assertion of its failed. */
  predicate LinkInv(x: Session) {
    x.cli.inbox <= x.srv.out && Reads(x.job, x.cli)
  }

  predicate Reads(job: string, cli: C.Client) {
    cli.phase != C.Crashed && cli.job == (if cli.inbox != [] && cli.inbox[0].Started? then Some(job) else None)
  }

  predicate JobInv(store: JobLog.Store, h: History, x: Session) {
    && x.job in store.disk && x.job != "" && (!Spoiled(h, x.job) ==> PathOfJob(store, x.job) == x.path)
    && (x.serverLive ==> x.job in store.jobs)
  }

  ghost predicate ClientInv(g: Config, h: History, job: string, path: string, cli: C.Client) {
    C.TasksInv(cli) && C.ToCompleteInv(cli) && forall k: nat :: CompleteInv(g, h, job, path, cli, k)
  }

  /** What a session skips is backed. */
  ghost predicate SkipBacked(g: Config, h: History, job: string, path: string, srv: S.Server, i: nat) {
    S.HasFate(srv, i, S.Skipped) ==>
      i < |PullObjects(g, path)| && Backed(g, h, job, path, RelativePath(PullObjects(g, path)[i]))
  }

  ghost predicate SkippedInv(g: Config, h: History, job: string, path: string, srv: S.Server) {
    !Spoiled(h, job) ==> forall i: nat :: SkipBacked(g, h, job, path, srv, i)
  }

  ghost predicate SessionInv(g: Config, store: JobLog.Store, h: History, x: Session) {
    && JobInv(store, h, x) && S.Inv(Scope(g, x), x.srv) && SkippedInv(g, h, x.job, x.path, x.srv)
    && ClientInv(g, h, x.job, x.path, x.cli) && LinkInv(x)
  }

  lemma SkippedGrows(g: Config, h: History, h': History, job: string, path: string, srv: S.Server)
    requires SkippedInv(g, h, job, path, srv) && More(h, h')
    ensures SkippedInv(g, h', job, path, srv)
  {
    forall i: nat | !Spoiled(h', job) ensures SkipBacked(g, h', job, path, srv, i) {
      assert SkipBacked(g, h, job, path, srv, i);
      if S.HasFate(srv, i, S.Skipped) {
        BackedGrows(g, h, h', job, path, RelativePath(PullObjects(g, path)[i]));
      }
    }
  }

  lemma ClientInvGrows(g: Config, h: History, h': History, job: string, path: string, cli: C.Client)
    requires ClientInv(g, h, job, path, cli) && More(h, h')
    ensures ClientInv(g, h', job, path, cli)
  {
    forall k: nat ensures CompleteInv(g, h', job, path, cli, k) {
      assert CompleteInv(g, h, job, path, cli, k);
      if C.IsComplete(cli, k) && TransferAt(cli, k).Some? {
        BackedGrows(g, h, h', job, path, C.PathOf(cli.inbox, k));
      }
    }
  }

  lemma StreamDistinct(g: Config, x: Session)
    requires ValidConfig(g) && S.StreamInv(Scope(g, x), x.srv)
    ensures C.DistinctPaths(x.srv.out)
  {
    var c := Scope(g, x);
    forall j, k | 0 <= j < k < |x.srv.out| && C.IsObject(x.srv.out, j) && C.IsObject(x.srv.out, k)
      ensures C.PathOf(x.srv.out, j) != C.PathOf(x.srv.out, k)
    {
      S.MessageAt(c, x.srv, j);
      S.MessageAt(c, x.srv, k);
      if C.PathOf(x.srv.out, j) == C.PathOf(x.srv.out, k) {
        SamePathSameObject(g, x.path, x.srv.sent[j - 1], x.srv.sent[k - 1]);
      }
    }
  }

  // ----- a step of a session's server ----------------------------------------------------------

  lemma CompletedIsBacked(g: Config, store: JobLog.Store, h: History, job: string, path: string, p: string)
    requires LogInv(store, h, job) && RecordedInv(g, store, h, job) && !Spoiled(h, job)
    requires IsCompleted(store, job, p) && PathOfJob(store, job) == path
    ensures Backed(g, h, job, path, p)
  {}

  /** Only files are ever found completed, */
  lemma CompletedIsFile(g: Config, store: JobLog.Store, h: History, x: Session, i: nat)
    requires ValidConfig(g) && LogInv(store, h, x.job) && RecordedInv(g, store, h, x.job) && JobInv(store, h, x)
    requires !Spoiled(h, x.job)
    requires i < |PullObjects(g, x.path)| && IsCompleted(store, x.job, RelativePath(PullObjects(g, x.path)[i]))
    ensures S.IsFile(Scope(g, x), i)
  {
    var p := RelativePath(PullObjects(g, x.path)[i]);
    CompletedIsBacked(g, store, h, x.job, x.path, p);
    BackedIsFile(g, h, x, i);
  }

  lemma BackedIsFile(g: Config, h: History, x: Session, i: nat)
    requires ValidConfig(g) && i < |PullObjects(g, x.path)|
    requires Backed(g, h, x.job, x.path, RelativePath(PullObjects(g, x.path)[i]))
    ensures S.IsFile(Scope(g, x), i)
  {
    var j: nat :| BackedBy(g, h, x.job, x.path, RelativePath(PullObjects(g, x.path)[i]), j);
    SamePathSameObject(g, x.path, i, j);
  }

  /** so no directory is skipped. */
  lemma SkippedIsFile(g: Config, h: History, x: Session, i: nat)
    requires ValidConfig(g) && SkippedInv(g, h, x.job, x.path, x.srv) && !Spoiled(h, x.job)
    requires S.HasFate(x.srv, i, S.Skipped)
    ensures S.IsFile(Scope(g, x), i)
  {
    assert SkipBacked(g, h, x.job, x.path, x.srv, i);
    BackedIsFile(g, h, x, i);
  }

  lemma ServerStepBacked(g: Config, store: JobLog.Store, h: History, next: nat, x: Session, a: S.Action, i: nat)
    requires LogInv(store, h, x.job) && RecordedInv(g, store, h, x.job) && JobInv(store, h, x) && !Spoiled(h, x.job)
    requires SkipBacked(g, h, x.job, x.path, x.srv, i) && ServerCan(g, store, next, x, a)
    ensures SkipBacked(g, h, x.job, x.path, S.Apply(Scope(g, x), x.srv, a), i)
  {
    if S.HasFate(S.Apply(Scope(g, x), x.srv, a), i, S.Skipped) {
      S.StepSkips(Scope(g, x), x.srv, a, i);
      if a.Skip? && i == x.srv.pos {
        CompletedIsBacked(g, store, h, x.job, x.path, RelativePath(PullObjects(g, x.path)[i]));
      }
    }
  }

  lemma ServerStepSkipped(g: Config, store: JobLog.Store, h: History, next: nat, x: Session, a: S.Action)
    requires LogInv(store, h, x.job) && RecordedInv(g, store, h, x.job) && JobInv(store, h, x)
    requires SkippedInv(g, h, x.job, x.path, x.srv) && ServerCan(g, store, next, x, a)
    ensures SkippedInv(g, h, x.job, x.path, S.Apply(Scope(g, x), x.srv, a))
  {
    forall i: nat | !Spoiled(h, x.job) ensures SkipBacked(g, h, x.job, x.path, S.Apply(Scope(g, x), x.srv, a), i) {
      assert SkipBacked(g, h, x.job, x.path, x.srv, i);
      ServerStepBacked(g, store, h, next, x, a, i);
    }
  }

  // ----- a step of a session's client ----------------------------------------------------------

  /** The next message is one the client's assertions accept. */
  lemma NextMessageIsFine(g: Config, x: Session)
    requires ValidConfig(g) && S.StreamInv(Scope(g, x), x.srv) && LinkInv(x) && |x.cli.inbox| < |x.srv.out|
    requires x.job != ""
    ensures var m := x.srv.out[|x.cli.inbox|];
      && (m.Object? ==> C.HasJob(x.cli) && !Path.IsAbsolute(m.pull.path))
      && (m.Started? ==> x.cli.inbox == [] && m.job == x.job)
  {
    var c, n := Scope(g, x), |x.cli.inbox|;
    var m := x.srv.out[n];
    if m.Object? {
      S.MessageAt(c, x.srv, n);
      CrawlFacts(g, x.path);
      assert c.objects[x.srv.sent[n - 1]] in c.objects;
      assert x.cli.inbox[0] == x.srv.out[0];
    } else if m.Started? {
      S.StartedAt(c, x.srv, n);
    }
  }

  lemma ClientStepLink(g: Config, x: Session, a: C.Action)
    requires ValidConfig(g) && S.StreamInv(Scope(g, x), x.srv) && LinkInv(x) && ClientCan(x, a) && x.job != ""
    ensures LinkInv(x.(cli := C.Apply(x.cli, a)))
  {
    if a.Receive? {
      NextMessageIsFine(g, x);
      C.StepReceives(x.cli, a.message);
      OneMoreRead(x, C.Apply(x.cli, a));
    } else {
      C.StepReads(x.cli, a);
    }
  }

  lemma OneMoreRead(x: Session, cli: C.Client)
    requires LinkInv(x) && |x.cli.inbox| < |x.srv.out|
    requires var m := x.srv.out[|x.cli.inbox|];
      && cli.inbox == x.cli.inbox + [m] && cli.phase != C.Crashed
      && cli.job == (if m.Started? then Some(m.job) else x.cli.job)
      && (m.Started? ==> x.cli.inbox == [] && m.job == x.job)
    ensures LinkInv(x.(cli := cli))
  {
    assert x.cli.inbox != [] ==> cli.inbox[0] == x.cli.inbox[0];
  }

  /** Only an integrity task completes a file. */
  lemma ClientStepComplete(g: Config, h: History, job: string, path: string, cli: C.Client, a: C.Action, k: nat)
    requires C.TasksInv(cli) && C.Enabled(cli, a) && CompleteInv(g, h, job, path, cli, k)
    ensures CompleteInv(g, h, job, path, C.Apply(cli, a), k) || (a.CheckOk? && a.k == k && C.IsObject(cli.inbox, k))
  {
    C.StepInbox(cli, a);
    assert C.KnownInv(cli, k) && C.TaskInv(cli, k) && C.KnownInv(cli, |cli.inbox|);
    C.StepCompletes(cli, a, k, true);
    C.StepCompletes(cli, a, k, false);
  }

  lemma ClientStepInv(g: Config, h: History, x: Session, a: C.Action)
    requires ValidConfig(g) && S.StreamInv(Scope(g, x), x.srv)
    requires ClientInv(g, h, x.job, x.path, x.cli) && LinkInv(x) && ClientCan(x, a) && x.job != ""
    requires a.CheckOk? ==> Backed(g, h, x.job, x.path, C.PathOf(x.cli.inbox, a.k))
    ensures ClientInv(g, h, x.job, x.path, C.Apply(x.cli, a)) && LinkInv(x.(cli := C.Apply(x.cli, a)))
  {
    var cli := C.Apply(x.cli, a);
    ClientStepLink(g, x, a);
    StreamDistinct(g, x);
    C.DistinctPrefix(cli.inbox, x.srv.out);
    C.StepTasks(x.cli, a);
    C.StepToComplete(x.cli, a);
    C.StepInbox(x.cli, a);
    forall k: nat ensures CompleteInv(g, h, x.job, x.path, cli, k) {
      assert CompleteInv(g, h, x.job, x.path, x.cli, k);
      ClientStepComplete(g, h, x.job, x.path, x.cli, a, k);
    }
  }

  /** A file message carries the digest of the file it names. */
  lemma TransferIsSources(g: Config, x: Session, k: nat) returns (i: nat)
    requires S.StreamInv(Scope(g, x), x.srv) && LinkInv(x) && TransferAt(x.cli, k).Some?
    ensures 1 <= k <= |x.srv.sent| && i == x.srv.sent[k - 1]
    ensures i < |PullObjects(g, x.path)| && PullObjects(g, x.path)[i].kind == Regular
    ensures RelativePath(PullObjects(g, x.path)[i]) == C.PathOf(x.cli.inbox, k)
    ensures TransferAt(x.cli, k).value.sha256 == g.hash(PullObjects(g, x.path)[i].content)
  {
    S.MessageAt(Scope(g, x), x.srv, k);
    i := x.srv.sent[k - 1];
  }

  /** A check that compares a digest leaves evidence, and so does one that has none to compare. */
  lemma CheckLeavesEvidence(g: Config, w: World, s: nat, k: nat, hashed: bool)
    requires Enabled(g, w, CheckDone(s, k, hashed))
    requires S.StreamInv(Scope(g, w.sessions[s]), w.sessions[s].srv) && LinkInv(w.sessions[s])
    ensures var x := w.sessions[s];
      Backed(g, HistoryAfter(g, w, CheckDone(s, k, hashed)), x.job, x.path, C.PathOf(x.cli.inbox, k))
  {
    var x, h := w.sessions[s], HistoryAfter(g, w, CheckDone(s, k, hashed));
    var i := TransferIsSources(g, x, k);
    if hashed {
      var path := C.PathOf(x.cli.inbox, k);
      assert ReadBack(s, k, x.job, path, Disk(w, x.peer, path)) in h.readBacks;
    }
    assert BackedBy(g, h, x.job, x.path, C.PathOf(x.cli.inbox, k), i);
  }

  // ----- every step ----------------------------------------------------------------------------

  ghost predicate Inv(g: Config, w: World) {
    && (forall job: string :: LogInv(w.store, w.history, job) && RecordedInv(g, w.store, w.history, job))
    && (forall m | m in w.wire :: WireInv(g, w.store, w.history, m))
    && (forall s | 0 <= s < |w.sessions| :: SessionInv(g, w.store, w.history, w.sessions[s]))
  }

  lemma StepHistory(g: Config, w: World, a: Action)
    requires Enabled(g, w, a)
    ensures Follows(w.store, w.history, HistoryAfter(g, w, a), a) && StoreCan(w.store, a)
  {}

  /** A client reports only what its integrity task has completed. */
  lemma ReportIsBacked(g: Config, store: JobLog.Store, h: History, x: Session, k: nat)
    requires SessionInv(g, store, h, x)
    requires ClientCan(x, C.CheckReturns(k)) && C.IsObject(x.cli.inbox, k) && x.cli.job.Some?
    ensures WireInv(g, store, h, (x.cli.job.value, C.PathOf(x.cli.inbox, k)))
  {
    CheckedIsBacked(g, h, x.job, x.path, x.cli, k);
  }

  lemma CheckedIsBacked(g: Config, h: History, job: string, path: string, cli: C.Client, k: nat)
    requires ClientInv(g, h, job, path, cli) && C.Enabled(cli, C.CheckReturns(k)) && C.IsObject(cli.inbox, k)
    ensures Backed(g, h, job, path, C.PathOf(cli.inbox, k))
  {
    assert C.KnownInv(cli, k) && C.TaskInv(cli, k) && CompleteInv(g, h, job, path, cli, k);
  }

  lemma StepWire(g: Config, w: World, a: Action, m: (string, string))
    requires Inv(g, w) && Enabled(g, w, a) && m in WireAfter(g, w, a)
    ensures WireInv(g, StoreAfter(w.store, a), HistoryAfter(g, w, a), m)
  {
    StepHistory(g, w, a);
    if a.Report? && m !in w.wire {
      ReportIsBacked(g, w.store, w.history, w.sessions[a.s], a.k);
    }
    WireGrows(g, w.store, w.history, HistoryAfter(g, w, a), a, m);
  }

  lemma NewSessionInv(g: Config, store: JobLog.Store, h: History, job: string, peer: nat)
    requires LogInv(store, h, job) && job in store.jobs
    ensures SessionInv(g, store, h, NewSession(g, job, store.jobs[job].path, peer))
  {
    var x := NewSession(g, job, store.jobs[job].path, peer);
    S.FreshInv(Scope(g, x), g.workers);
    C.FreshInv(g.workers);
  }

  lemma OwnClientStep(g: Config, w: World, a: Action)
    requires ValidConfig(g) && Enabled(g, w, a) && HasSession(a) && ClientPart(a).Some?
    requires SessionInv(g, w.store, w.history, w.sessions[a.s])
    ensures SessionInv(g, w.store, HistoryAfter(g, w, a), SessionAfter(g, w, w.sessions[a.s], a))
  {
    var x, h := w.sessions[a.s], HistoryAfter(g, w, a);
    StepHistory(g, w, a);
    ClientInvGrows(g, w.history, h, x.job, x.path, x.cli);
    if a.CheckDone? {
      CheckLeavesEvidence(g, w, a.s, a.k, a.hashed);
    }
    SkippedGrows(g, w.history, h, x.job, x.path, x.srv);
    ClientStepInv(g, h, x, ClientPart(a).value);
    WithClient(g, w.store, w.history, h, x, C.Apply(x.cli, ClientPart(a).value));
  }

  lemma WithClient(g: Config, store: JobLog.Store, h: History, h': History, x: Session, cli: C.Client)
    requires SessionInv(g, store, h, x) && SkippedInv(g, h', x.job, x.path, x.srv)
    requires JobInv(store, h', x) && ClientInv(g, h', x.job, x.path, cli) && LinkInv(x.(cli := cli))
    ensures SessionInv(g, store, h', x.(cli := cli))
  {}

  lemma OwnServerStep(g: Config, w: World, s: nat, b: S.Action)
    requires Enabled(g, w, ServerStep(s, b)) && LogInv(w.store, w.history, w.sessions[s].job)
    requires RecordedInv(g, w.store, w.history, w.sessions[s].job)
    requires SessionInv(g, w.store, w.history, w.sessions[s])
    ensures SessionInv(g, w.store, w.history, SessionAfter(g, w, w.sessions[s], ServerStep(s, b)))
  {
    var x := w.sessions[s];
    S.StepKeepsInv(Scope(g, x), x.srv, b);
    S.StepOut(Scope(g, x), x.srv, b);
    ServerStepSkipped(g, w.store, w.history, w.tickets.next, x, b);
    WithServer(g, w.store, w.history, x, S.Apply(Scope(g, x), x.srv, b));
  }

  lemma WithServer(g: Config, store: JobLog.Store, h: History, x: Session, srv: S.Server)
    requires SessionInv(g, store, h, x) && S.Inv(Scope(g, x), srv) && x.srv.out <= srv.out
    requires SkippedInv(g, h, x.job, x.path, srv)
    ensures SessionInv(g, store, h, x.(srv := srv))
  {}

  /** The session an action is about: */
  lemma StepOwn(g: Config, w: World, a: Action)
    requires ValidConfig(g) && Enabled(g, w, a) && HasSession(a)
    requires LogInv(w.store, w.history, w.sessions[a.s].job) && RecordedInv(g, w.store, w.history, w.sessions[a.s].job)
    requires SessionInv(g, w.store, w.history, w.sessions[a.s])
    ensures SessionInv(g, w.store, HistoryAfter(g, w, a), SessionAfter(g, w, w.sessions[a.s], a))
  {
    if ClientPart(a).Some? {
      OwnClientStep(g, w, a);
    } else if a.ServerStep? {
      OwnServerStep(g, w, a.s, a.srv);
    } else {
      OwnOther(g, w, a);
    }
  }

  lemma OwnOther(g: Config, w: World, a: Action)
    requires Enabled(g, w, a) && HasSession(a) && ClientPart(a).None? && !a.ServerStep?
    requires SessionInv(g, w.store, w.history, w.sessions[a.s])
    ensures SessionInv(g, w.store, HistoryAfter(g, w, a), SessionAfter(g, w, w.sessions[a.s], a))
  {
    NothingLearnt(g, w, a);
    WithoutClient(g, w.store, w.history, w.sessions[a.s]);
  }

  lemma NothingLearnt(g: Config, w: World, a: Action)
    requires Enabled(g, w, a) && HasSession(a) && ClientPart(a).None? && !a.ServerStep?
    ensures HistoryAfter(g, w, a) == w.history
    ensures var x, y := w.sessions[a.s], SessionAfter(g, w, w.sessions[a.s], a);
      y == x || y == x.(clientLive := false)
  {}

  lemma WithoutClient(g: Config, store: JobLog.Store, h: History, x: Session)
    requires SessionInv(g, store, h, x)
    ensures SessionInv(g, store, h, x.(clientLive := false))
  {}

  /** and any session, as the logs grow around it. */
  lemma SessionGrows(g: Config, store: JobLog.Store, h: History, h': History, x: Session, a: Action)
    requires SessionInv(g, store, h, x) && More(h, h') && Grows(store, StoreAfter(store, a), h', a, x.job)
    requires a.Restart? ==> !x.serverLive
    ensures SessionInv(g, StoreAfter(store, a), h', x)
  {
    ClientInvGrows(g, h, h', x.job, x.path, x.cli);
    SkippedGrows(g, h, h', x.job, x.path, x.srv);
  }

  lemma StartedSession(g: Config, w: World, a: Action)
    requires Enabled(g, w, a) && (a.StartJob? || a.ResumeJob?) && LogInv(w.store, w.history, a.id)
    ensures var store := StoreAfter(w.store, a);
      a.id in store.jobs && SessionInv(g, store, HistoryAfter(g, w, a), NewSession(g, a.id, store.jobs[a.id].path, a.peer))
    ensures a.StartJob? ==> StoreAfter(w.store, a).jobs[a.id].path == a.path
  {
    StepHistory(g, w, a);
    StepLog(w.store, w.history, HistoryAfter(g, w, a), a, a.id);
    NewSessionInv(g, StoreAfter(w.store, a), HistoryAfter(g, w, a), a.id, a.peer);
  }

  lemma StepOther(g: Config, w: World, a: Action, x: Session)
    requires Enabled(g, w, a) && LogInv(w.store, w.history, x.job) && SessionInv(g, w.store, w.history, x)
    ensures SessionInv(g, StoreAfter(w.store, a), HistoryAfter(g, w, a),
                       if a.Restart? then x.(serverLive := false) else x)
  {
    StepHistory(g, w, a);
    StepLog(w.store, w.history, HistoryAfter(g, w, a), a, x.job);
    SessionGrows(g, w.store, w.history, HistoryAfter(g, w, a), if a.Restart? then x.(serverLive := false) else x, a);
  }

  lemma SessionAt(g: Config, w: World, a: Action, s: nat)
    requires Enabled(g, w, a) && s < |SessionsAfter(g, w, a)|
    ensures SessionsAfter(g, w, a)[s] ==
      if s >= |w.sessions| then NewSession(g, a.id, StoreAfter(w.store, a).jobs[a.id].path, a.peer)
      else if HasSession(a) && a.s == s then SessionAfter(g, w, w.sessions[s], a)
      else if a.Restart? then w.sessions[s].(serverLive := false)
      else w.sessions[s]
    ensures s >= |w.sessions| ==> a.StartJob? || a.ResumeJob?
  {}

  lemma StepSession(g: Config, w: World, a: Action, s: nat)
    requires ValidConfig(g) && Inv(g, w) && Enabled(g, w, a) && s < |SessionsAfter(g, w, a)|
    ensures SessionInv(g, StoreAfter(w.store, a), HistoryAfter(g, w, a), SessionsAfter(g, w, a)[s])
  {
    SessionAt(g, w, a, s);
    if s >= |w.sessions| {
      StartedSession(g, w, a);
    } else if HasSession(a) && a.s == s {
      StepOwn(g, w, a);
    } else {
      StepOther(g, w, a, w.sessions[s]);
    }
  }

  lemma StepInv(g: Config, w: World, a: Action)
    requires ValidConfig(g) && Inv(g, w) && Enabled(g, w, a)
    ensures Inv(g, Apply(g, w, a))
  {
    StepHistory(g, w, a);
    var v := Apply(g, w, a);
    forall job: string ensures LogInv(v.store, v.history, job) && RecordedInv(g, v.store, v.history, job) {
      StepLog(w.store, w.history, v.history, a, job);
      StepRecorded(g, w.store, w.history, v.history, a, job);
    }
    forall m | m in v.wire ensures WireInv(g, v.store, v.history, m) {
      StepWire(g, w, a, m);
    }
    forall s | 0 <= s < |v.sessions| ensures SessionInv(g, v.store, v.history, v.sessions[s]) {
      StepSession(g, w, a, s);
    }
  }

  lemma {:induction false} RunInv(g: Config, w: World, actions: seq<Action>)
    requires ValidConfig(g) && Inv(g, w) && CanRun(g, w, actions)
    ensures Inv(g, Run(g, w, actions))
    decreases |actions|
  {
    if actions != [] {
      StepInv(g, w, actions[0]);
      RunInv(g, Apply(g, w, actions[0]), actions[1..]);
    }
  }

  lemma Reachable(g: Config, actions: seq<Action>)
    requires ValidConfig(g) && CanRun(g, Init(), actions)
    ensures Inv(g, Run(g, Init(), actions))
  {
    RunInv(g, Init(), actions);
  }
}
