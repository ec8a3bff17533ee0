/**
 The main results about whole runs of the system.
 */
module ProtocolResults {
  import C = ClientSession
  import JobLog
  import Path
  import S = ServerSession
  import Strings
  import opened FastCrawler
  import opened Messages
  import opened Protocol
  import opened ProtocolInvariant
  import opened Wrappers

  // ----- what is served ------------------------------------------------------------------------

  /** Every object of a pull is below the requested path, and that is below the server's root,
      although it is absolute itself. */
  lemma PulledIsBelowRoot(g: Config, path: string, o: Object)
    requires ValidConfig(g) && Path.IsAbsolute(g.root) && Path.IsResolved(g.root)
    requires Path.IsAbsolute(path) && Path.IsResolved(path) && o in PullObjects(g, path)
    ensures o.path
      == (if g.root == "/" then "" else g.root) + (if path == "/" then "" else path) + "/" + Strings.Join(o.names, "/")
  {
    var top := Path.Join(g.root, path);
    VisitIsExact(top, g.serve(path));
    Path.JoinResolvedExactly(g.root, path);
  }

  /** And it is an object of the pull exactly if walking its names down from there finds it. */
  lemma PulledExactly(g: Config, path: string, names: seq<string>, kind: Kind, content: Bytes)
    requires Path.IsRoot(Path.Join(g.root, path))
    ensures Has(PullObjects(g, path), names, kind, content) <==> Finds(g.serve(path), names, kind, content)
  {
    VisitFindsExactly(Path.Join(g.root, path), g.serve(path), names, kind, content);
  }

  // ----- what is recorded ----------------------------------------------------------------------

  function Tearing(job: string): (World, Action) -> bool {
    (v: World, b: Action) => Tears(v.store, b, job)
  }

  function Breaking(job: string): (World, Action) -> bool {
    (v: World, b: Action) => Breaks(v.store, b, job)
  }

  /** Along a run from the start, a crash tears the job's log, or a path with a line break is written to it. */
  predicate SpoiledAlong(g: Config, actions: seq<Action>, job: string)
    requires CanRun(g, Init(), actions)
  {
    Along(g, Init(), actions, Tearing(job)) || Along(g, Init(), actions, Breaking(job))
  }

  lemma StepSpoils(g: Config, w: World, a: Action, job: string)
    requires Enabled(g, w, a)
    ensures job in HistoryAfter(g, w, a).torn <==> job in w.history.torn || Tears(w.store, a, job)
    ensures job in HistoryAfter(g, w, a).broken <==> job in w.history.broken || Breaks(w.store, a, job)
  {}

  lemma {:induction false} SpoiledFrom(g: Config, w: World, actions: seq<Action>, job: string)
    requires CanRun(g, w, actions)
    ensures job in Run(g, w, actions).history.torn <==> job in w.history.torn || Along(g, w, actions, Tearing(job))
    ensures job in Run(g, w, actions).history.broken <==> job in w.history.broken || Along(g, w, actions, Breaking(job))
    decreases |actions|
  {
    if actions != [] {
      StepSpoils(g, w, actions[0], job);
      SpoiledFrom(g, Apply(g, w, actions[0]), actions[1..], job);
    }
  }

  /** Over every interleaving and any sequence of starts, crashes and resumes: whatever a job's log
      or the server's table holds is a file of that job's tree, backed by a client's own check,
      unless the log was torn or had a line break written to it. */
  lemma RecordedIsBacked(g: Config, actions: seq<Action>, job: string, p: string)
    requires ValidConfig(g) && CanRun(g, Init(), actions) && !SpoiledAlong(g, actions, job)
    ensures var w := Run(g, Init(), actions);
      && (job in w.store.disk && p in JobLog.Parse(w.store.disk[job]).completed ==>
            Backed(g, w.history, job, PathOfJob(w.store, job), p))
      && (IsCompleted(w.store, job, p) ==>
            job in w.store.disk && Backed(g, w.history, job, w.store.jobs[job].path, p))
  {
    var w := Run(g, Init(), actions);
    Reachable(g, actions);
    SpoiledFrom(g, Init(), actions, job);
    assert LogInv(w.store, w.history, job) && RecordedInv(g, w.store, w.history, job);
  }

  ghost predicate VerifiedBy(g: Config, h: History, jobPath: string, p: string, r: ReadBack, i: nat) {
    && r in h.readBacks && r.path == p
    && i < |PullObjects(g, jobPath)| && PullObjects(g, jobPath)[i].kind == Regular
    && RelativePath(PullObjects(g, jobPath)[i]) == p
    && g.hash(r.content) == g.hash(PullObjects(g, jobPath)[i].content)
  }

  /** A check of this path of this job that has no digest to compare. */
  predicate MissesDigest(w: World, a: Action, job: string, p: string) {
    && a.CheckDone? && !a.hashed && a.s < |w.sessions| && w.sessions[a.s].job == job
    && C.IsObject(w.sessions[a.s].cli.inbox, a.k) && C.PathOf(w.sessions[a.s].cli.inbox, a.k) == p
  }

  function Missing(job: string, p: string): (World, Action) -> bool {
    (v: World, b: Action) => MissesDigest(v, b, job, p)
  }

  lemma StepUnhashed(g: Config, w: World, a: Action, job: string, p: string)
    requires Enabled(g, w, a)
    ensures (job, p) in HistoryAfter(g, w, a).unhashed <==> (job, p) in w.history.unhashed || MissesDigest(w, a, job, p)
  {}

  lemma {:induction false} UnhashedFrom(g: Config, w: World, actions: seq<Action>, job: string, p: string)
    requires CanRun(g, w, actions)
    ensures (job, p) in Run(g, w, actions).history.unhashed
      <==> (job, p) in w.history.unhashed || Along(g, w, actions, Missing(job, p))
    decreases |actions|
  {
    if actions != [] {
      StepUnhashed(g, w, actions[0], job, p);
      UnhashedFrom(g, Apply(g, w, actions[0]), actions[1..], job, p);
    }
  }

  ghost predicate IsVerified(g: Config, h: History, job: string, jobPath: string, p: string) {
    exists r: ReadBack, i: nat :: r.job == job && VerifiedBy(g, h, jobPath, p, r, i)
  }

  lemma BackedIsVerified(g: Config, h: History, job: string, jobPath: string, p: string)
    requires Backed(g, h, job, jobPath, p) && (job, p) !in h.unhashed
    ensures IsVerified(g, h, job, jobPath, p)
  {
    var i: nat :| BackedBy(g, h, job, jobPath, p, i);
    var r: ReadBack :| r in h.readBacks && r.job == job && r.path == p
      && g.hash(r.content) == g.hash(PullObjects(g, jobPath)[i].content);
    assert VerifiedBy(g, h, jobPath, p, r, i);
  }

  /** So a path in a job's log, of which no check was without a digest, was read back whole with the
      digest of its source, which is to say with its source's content unless digests collide. */
  lemma RecordedIsVerified(g: Config, actions: seq<Action>, job: string, p: string)
    requires ValidConfig(g) && CanRun(g, Init(), actions) && !SpoiledAlong(g, actions, job)
    requires !Along(g, Init(), actions, Missing(job, p))
    requires job in Run(g, Init(), actions).store.disk
    requires p in JobLog.Parse(Run(g, Init(), actions).store.disk[job]).completed
    ensures var w := Run(g, Init(), actions);
      IsVerified(g, w.history, job, PathOfJob(w.store, job), p)
  {
    var w := Run(g, Init(), actions);
    RecordedIsBacked(g, actions, job, p);
    UnhashedFrom(g, Init(), actions, job, p);
    BackedIsVerified(g, w.history, job, PathOfJob(w.store, job), p);
  }

  predicate HasReadBack(h: History, job: string, p: string) {
    exists r | r in h.readBacks :: r.job == job && r.path == p
  }

  /** A check that ends well is recorded once its report arrives, digest or not; and what it records
      has been read back and compared, if it had not been before, exactly when there was a digest. */
  lemma CheckIsEvidenceExactly(g: Config, w: World, s: nat, k: nat, hashed: bool)
    requires Enabled(g, w, CheckDone(s, k, hashed)) && w.sessions[s].cli.job == Some(w.sessions[s].job)
    requires w.sessions[s].job in w.store.jobs && w.sessions[s].job in w.store.disk
    ensures var x := w.sessions[s];
      var p := C.PathOf(x.cli.inbox, k);
      var steps := [CheckDone(s, k, hashed), Report(s, k), Deliver(x.job, p)];
      && CanRun(g, w, steps)
      && IsCompleted(Run(g, w, steps).store, x.job, p)
      && (HasReadBack(Run(g, w, steps).history, x.job, p) <==> hashed || HasReadBack(w.history, x.job, p))
  {
    var x := w.sessions[s];
    var p := C.PathOf(x.cli.inbox, k);
    CheckedCanReport(g, w, s, k, hashed);
    var v := Apply(g, Apply(g, w, CheckDone(s, k, hashed)), Report(s, k));
    assert Enabled(g, v, Deliver(x.job, p));
    ThreeSteps(g, w, CheckDone(s, k, hashed), Report(s, k), Deliver(x.job, p));
  }

  lemma CheckedCanReport(g: Config, w: World, s: nat, k: nat, hashed: bool)
    requires Enabled(g, w, CheckDone(s, k, hashed)) && w.sessions[s].cli.job == Some(w.sessions[s].job)
    ensures var v := Apply(g, w, CheckDone(s, k, hashed));
      var job, p := w.sessions[s].job, C.PathOf(w.sessions[s].cli.inbox, k);
      && v.store == w.store && Enabled(g, v, Report(s, k))
      && (HasReadBack(v.history, job, p) <==> hashed || HasReadBack(w.history, job, p))
      && (job, p) in Apply(g, v, Report(s, k)).wire
  {
    C.CheckCompletes(w.sessions[s].cli, k, hashed);
    CheckAdds(g, w, s, k, hashed);
    ReportSends(g, Apply(g, w, CheckDone(s, k, hashed)), s, k);
  }

  lemma ReportSends(g: Config, w: World, s: nat, k: nat)
    ensures Enabled(g, w, Report(s, k)) ==>
      var cli := w.sessions[s].cli;
      (cli.job.value, C.PathOf(cli.inbox, k)) in Apply(g, w, Report(s, k)).wire
  {}

  lemma CheckAdds(g: Config, w: World, s: nat, k: nat, hashed: bool)
    requires Enabled(g, w, CheckDone(s, k, hashed))
    ensures var h := HistoryAfter(g, w, CheckDone(s, k, hashed));
      var job, p := w.sessions[s].job, C.PathOf(w.sessions[s].cli.inbox, k);
      HasReadBack(h, job, p) <==> hashed || HasReadBack(w.history, job, p)
  {
    var h := HistoryAfter(g, w, CheckDone(s, k, hashed));
    var x := w.sessions[s];
    if hashed {
      var p := C.PathOf(x.cli.inbox, k);
      assert ReadBack(s, k, x.job, p, Disk(w, x.peer, p)) in h.readBacks;
    } else {
      assert h.readBacks == w.history.readBacks;
    }
  }

  lemma TwoSteps(g: Config, w: World, a: Action, b: Action)
    requires Enabled(g, w, a) && Enabled(g, Apply(g, w, a), b)
    ensures CanRun(g, w, [a, b]) && Run(g, w, [a, b]) == Apply(g, Apply(g, w, a), b)
  {
    StepThenRun(g, Apply(g, w, a), b, []);
    StepThenRun(g, w, a, [b] + []);
    assert [a, b] == [a] + ([b] + []);
  }

  lemma ThreeSteps(g: Config, w: World, a: Action, b: Action, c: Action)
    requires Enabled(g, w, a) && Enabled(g, Apply(g, w, a), b) && Enabled(g, Apply(g, Apply(g, w, a), b), c)
    ensures CanRun(g, w, [a, b, c]) && Run(g, w, [a, b, c]) == Apply(g, Apply(g, Apply(g, w, a), b), c)
  {
    TwoSteps(g, Apply(g, w, a), b, c);
    StepThenRun(g, w, a, [b, c]);
    assert [a] + [b, c] == [a, b, c];
  }

  lemma StepThenRun(g: Config, w: World, a: Action, rest: seq<Action>)
    requires Enabled(g, w, a) && CanRun(g, Apply(g, w, a), rest)
    ensures CanRun(g, w, [a] + rest) && Run(g, w, [a] + rest) == Run(g, Apply(g, w, a), rest)
  {
    assert ([a] + rest)[1..] == rest;
  }

  // ----- parents first -------------------------------------------------------------------------

  /** On every schedule and every resume: none of a client's assertions about messages ever fails, and
      it handles an object after its parent directory, unless the job's log was spoiled. */
  lemma ParentFirst(g: Config, actions: seq<Action>, s: nat, k: nat) returns (i: nat)
    requires ValidConfig(g) && CanRun(g, Init(), actions) && s < |Run(g, Init(), actions).sessions|
    requires C.IsObject(Run(g, Init(), actions).sessions[s].cli.inbox, k)
    ensures var x := Run(g, Init(), actions).sessions[s];
      && x.cli.phase != C.Crashed
      && i < |PullObjects(g, x.path)| && PullObjects(g, x.path)[i].names != []
      && C.PathOf(x.cli.inbox, k) == RelativePath(PullObjects(g, x.path)[i])
      && (!SpoiledAlong(g, actions, x.job) ==> ParentHandled(x.cli.inbox, PullObjects(g, x.path)[i], k))
  {
    var w := Run(g, Init(), actions);
    var x := w.sessions[s];
    Reachable(g, actions);
    SpoiledFrom(g, Init(), actions, x.job);
    assert SessionInv(g, w.store, w.history, x);
    i := ParentInStream(g, w.history, x, k);
  }

  lemma ParentIndex(os: seq<Object>, i: nat) returns (n: nat)
    requires ParentsFirst([], os) && i < |os| && os[i].names != [] && Parent(os[i]) != []
    ensures n < i && os[n].names == Parent(os[i]) && os[n].kind == Directory
  {
    assert HasParent([] + os[..i], os[i]);
    var d :| d in [] + os[..i] && d.names == Parent(os[i]) && d.kind == Directory;
    n :| n < i && os[n] == d;
  }

  /** Object `i` is in the pulled directory itself, or the client has its parent's message before `k`. */
  ghost predicate ParentHandled(inbox: seq<Response>, o: Object, k: nat)
    requires o.names != []
  {
    Parent(o) == [] || exists j: nat :: j < k && IsDirectoryNamed(inbox, j, Strings.Join(Parent(o), "/"))
  }

  predicate IsDirectoryNamed(inbox: seq<Response>, j: nat, path: string) {
    C.IsObject(inbox, j) && C.PathOf(inbox, j) == path && inbox[j].pull.kind == Directory
  }

  lemma ParentInStream(g: Config, h: History, x: Session, k: nat) returns (i: nat)
    requires ValidConfig(g) && S.Inv(Scope(g, x), x.srv) && SkippedInv(g, h, x.job, x.path, x.srv) && LinkInv(x)
    requires C.IsObject(x.cli.inbox, k)
    ensures i < |PullObjects(g, x.path)| && PullObjects(g, x.path)[i].names != []
    ensures C.PathOf(x.cli.inbox, k) == RelativePath(PullObjects(g, x.path)[i])
    ensures !Spoiled(h, x.job) ==> ParentHandled(x.cli.inbox, PullObjects(g, x.path)[i], k)
  {
    S.MessageAt(Scope(g, x), x.srv, k);
    i := x.srv.sent[k - 1];
    CrawlFacts(g, x.path);
    assert PullObjects(g, x.path)[i] in PullObjects(g, x.path);
    if !Spoiled(h, x.job) && Parent(PullObjects(g, x.path)[i]) != [] {
      var n := ParentIndex(PullObjects(g, x.path), i);
      if S.HasFate(x.srv, n, S.Skipped) {
        SkippedIsFile(g, h, x, n);
      }
      ParentIsHandled(Scope(g, x), x.srv, x.cli.inbox, k, n);
    }
  }

  lemma ParentIsHandled(c: S.Scope, srv: S.Server, inbox: seq<Response>, k: nat, n: nat)
    requires S.StreamInv(c, srv) && S.OrderInv(c, srv) && !S.HasFate(srv, n, S.Skipped)
    requires inbox <= srv.out && S.StartedSent(srv)
    requires 1 <= k < |inbox| && k <= |srv.sent| && n < srv.sent[k - 1] < |c.objects|
    requires c.objects[srv.sent[k - 1]].names != [] && c.objects[n].kind == Directory
    requires c.objects[n].names == Parent(c.objects[srv.sent[k - 1]])
    ensures ParentHandled(inbox, c.objects[srv.sent[k - 1]], k)
  {
    var o := c.objects[srv.sent[k - 1]];
    var m := SentBefore(c, srv, k - 1, n);
    assert inbox[m + 1] == srv.out[m + 1];
    assert IsDirectoryNamed(inbox, m + 1, Strings.Join(Parent(o), "/"));
  }

  /** A directory reached earlier that is not skipped has its message earlier in the stream. */
  lemma SentBefore(c: S.Scope, srv: S.Server, k: nat, n: nat) returns (m: nat)
    requires S.StreamInv(c, srv) && S.OrderInv(c, srv) && !S.HasFate(srv, n, S.Skipped) && S.StartedSent(srv)
    requires k < |srv.sent| && n < srv.sent[k] && n < |c.objects| && !S.IsFile(c, n)
    ensures m < k && m + 1 < |srv.out| && S.CanDescribe(c, srv, n)
    ensures srv.out[m + 1] == Response.Object(S.Message(c, srv, n))
  {
    assert S.EarlierInv(c, srv, k, n);
    m :| m < k && srv.sent[m] == n;
    assert S.MessageInv(c, srv, m);
  }

  // ----- end to end ----------------------------------------------------------------------------

  /** The client of `x` has completed the message about object `i`. */
  ghost predicate Delivered(x: Session, i: nat) {
    exists k: nat :: k < |x.srv.sent| && x.srv.sent[k] == i && C.IsComplete(x.cli, k + 1)
  }

  lemma ReportedReadAll(g: Config, x: Session)
    requires S.Inv(Scope(g, x), x.srv) && C.ToCompleteInv(x.cli) && LinkInv(x) && x.cli.phase == C.Reported
    ensures S.FinishedSent(x.srv) && x.cli.inbox == x.srv.out
  {
    var n := |x.cli.inbox| - 1;
    assert x.cli.inbox[n] == x.srv.out[n];
    S.FinishedAt(Scope(g, x), x.srv, n);
  }

  lemma AnnouncedIsDelivered(g: Config, x: Session, i: nat)
    requires S.StreamInv(Scope(g, x), x.srv) && S.FinishedSent(x.srv) && S.HasFate(x.srv, i, S.Announced)
    requires C.ToCompleteInv(x.cli) && x.cli.toComplete == {} && x.cli.inbox == x.srv.out
    requires forall k: nat :: C.KnownInv(x.cli, k)
    ensures Delivered(x, i)
  {
    var k := CompleteAt(Scope(g, x), x.srv, x.cli, i);
  }

  lemma CompleteAt(c: S.Scope, srv: S.Server, cli: C.Client, i: nat) returns (k: nat)
    requires S.StreamInv(c, srv) && S.FinishedSent(srv) && S.HasFate(srv, i, S.Announced)
    requires C.ToCompleteInv(cli) && cli.toComplete == {} && cli.inbox == srv.out
    requires forall k: nat :: C.KnownInv(cli, k)
    ensures k < |srv.sent| && srv.sent[k] == i && C.IsComplete(cli, k + 1)
  {
    k := AnnouncedAt(c, srv, i);
    ReadIsComplete(cli, k + 1);
  }

  lemma AnnouncedAt(c: S.Scope, srv: S.Server, i: nat) returns (k: nat)
    requires S.StreamInv(c, srv) && S.FinishedSent(srv) && S.HasFate(srv, i, S.Announced)
    ensures k < |srv.sent| && srv.sent[k] == i && C.IsObject(srv.out, k + 1)
  {
    assert S.SentInv(srv, i);
    k :| k < |srv.sent| && srv.sent[k] == i;
    assert S.MessageInv(c, srv, k);
  }

  lemma ReadIsComplete(cli: C.Client, k: nat)
    requires C.ToCompleteInv(cli) && cli.toComplete == {} && C.KnownInv(cli, k) && C.IsObject(cli.inbox, k)
    ensures C.IsComplete(cli, k)
  {
    assert C.ListedInv(cli, k);
  }

  /** The client has read everything and reported. */
  ghost predicate ClientKnows(x: Session) {
    && C.TasksInv(x.cli) && C.ToCompleteInv(x.cli) && LinkInv(x)
    && S.FinishedSent(x.srv) && x.cli.inbox == x.srv.out
  }

  lemma ListedIsUndelivered(g: Config, x: Session, p: string) returns (i: nat)
    requires S.StreamInv(Scope(g, x), x.srv) && C.ToCompleteInv(x.cli) && x.cli.inbox == x.srv.out
    requires p in x.cli.toComplete
    ensures i < |PullObjects(g, x.path)| && S.HasFate(x.srv, i, S.Announced) && !Delivered(x, i)
  {
    var k: nat :| C.NamedBy(x.cli, p, k);
    S.MessageAt(Scope(g, x), x.srv, k);
    i := x.srv.sent[k - 1];
    assert C.ListedInv(x.cli, k);
    SentOnce(x, k);
    assert S.SentInv(x.srv, i);
  }

  lemma SentOnce(x: Session, k: nat)
    requires S.DistinctIndices(x.srv.sent) && 1 <= k <= |x.srv.sent| && !C.IsComplete(x.cli, k)
    ensures !Delivered(x, x.srv.sent[k - 1])
  {
    forall j: nat | j < |x.srv.sent| && x.srv.sent[j] == x.srv.sent[k - 1] ensures !C.IsComplete(x.cli, j + 1) {
      assert j == k - 1;
    }
  }

  lemma UnhashedIsUndelivered(g: Config, x: Session, i: nat)
    requires S.Inv(Scope(g, x), x.srv) && S.HasFate(x.srv, i, S.Unhashed)
    ensures i < |PullObjects(g, x.path)| && !Delivered(x, i)
  {
    assert S.SentInv(x.srv, i);
    assert S.IsFile(Scope(g, x), i);
  }

  lemma FateAtEnd(c: S.Scope, srv: S.Server, i: nat)
    requires S.Inv(c, srv) && S.FinishedSent(srv) && i < |c.objects|
    ensures i in srv.fate && srv.fate[i] != S.Hashing
  {
    assert S.Reached(srv, i) && S.TaskInv(srv, i);
  }

  /** Everything in the tree was completed by an earlier session or in this one. */
  ghost predicate Covered(g: Config, x: Session) {
    forall i: nat | i < |PullObjects(g, x.path)| :: S.HasFate(x.srv, i, S.Skipped) || Delivered(x, i)
  }

  lemma EmptyListCovers(g: Config, x: Session)
    requires S.Inv(Scope(g, x), x.srv) && ClientKnows(x)
    requires x.cli.toComplete == {} && forall i: nat :: !S.HasFate(x.srv, i, S.Unhashed)
    ensures Covered(g, x)
  {
    forall i: nat | i < |PullObjects(g, x.path)| ensures S.HasFate(x.srv, i, S.Skipped) || Delivered(x, i) {
      FateAtEnd(Scope(g, x), x.srv, i);
      assert !S.HasFate(x.srv, i, S.Unhashed);
      if S.HasFate(x.srv, i, S.Announced) {
        AnnouncedIsDelivered(g, x, i);
      }
    }
  }

  lemma CoveredEmptiesList(g: Config, x: Session)
    requires S.Inv(Scope(g, x), x.srv) && ClientKnows(x) && Covered(g, x)
    ensures x.cli.toComplete == {} && forall i: nat :: !S.HasFate(x.srv, i, S.Unhashed)
  {
    if x.cli.toComplete != {} {
      var p :| p in x.cli.toComplete;
      var i := ListedIsUndelivered(g, x, p);
    }
    forall i: nat ensures !S.HasFate(x.srv, i, S.Unhashed) {
      if S.HasFate(x.srv, i, S.Unhashed) {
        UnhashedIsUndelivered(g, x, i);
      }
    }
  }

  /** When the client has reported, its list is empty and no file was unhashable on the server,
      exactly when every object of the tree was either completed before or completed now. */
  lemma ReportCoversTree(g: Config, actions: seq<Action>, s: nat)
    requires ValidConfig(g) && CanRun(g, Init(), actions) && s < |Run(g, Init(), actions).sessions|
    requires Run(g, Init(), actions).sessions[s].cli.phase == C.Reported
    ensures var x := Run(g, Init(), actions).sessions[s];
      (x.cli.toComplete == {} && forall i: nat :: !S.HasFate(x.srv, i, S.Unhashed)) <==> Covered(g, x)
  {
    var w := Run(g, Init(), actions);
    var x := w.sessions[s];
    Reachable(g, actions);
    assert SessionInv(g, w.store, w.history, x);
    ReportedReadAll(g, x);
    if Covered(g, x) {
      CoveredEmptiesList(g, x);
    } else if x.cli.toComplete == {} && forall i: nat :: !S.HasFate(x.srv, i, S.Unhashed) {
      EmptyListCovers(g, x);
    }
  }

  /** Delivering a file's message has left evidence for it. */
  lemma DeliveredIsBacked(g: Config, h: History, x: Session, i: nat)
    requires S.StreamInv(Scope(g, x), x.srv) && x.cli.inbox == x.srv.out
    requires forall k: nat :: CompleteInv(g, h, x.job, x.path, x.cli, k)
    requires forall k: nat :: C.KnownInv(x.cli, k)
    requires i < |PullObjects(g, x.path)| && PullObjects(g, x.path)[i].kind == Regular && Delivered(x, i)
    ensures Backed(g, h, x.job, x.path, RelativePath(PullObjects(g, x.path)[i]))
  {
    var k: nat :| k < |x.srv.sent| && x.srv.sent[k] == i && C.IsComplete(x.cli, k + 1);
    assert C.KnownInv(x.cli, k + 1) && CompleteInv(g, h, x.job, x.path, x.cli, k + 1);
    FileMessageAt(Scope(g, x), x.srv, k);
  }

  lemma FileMessageAt(c: S.Scope, srv: S.Server, k: nat)
    requires S.StreamInv(c, srv) && k < |srv.sent| && S.IsFile(c, srv.sent[k])
    requires C.IsObject(srv.out, k + 1)
    ensures TransferIn(srv.out, k + 1).Some? && C.PathOf(srv.out, k + 1) == RelativePath(c.objects[srv.sent[k]])
  {
    S.MessageAt(c, srv, k + 1);
  }

  lemma CoveredIsBacked(g: Config, store: JobLog.Store, h: History, x: Session, i: nat)
    requires SessionInv(g, store, h, x) && x.cli.inbox == x.srv.out && Covered(g, x)
    requires i < |PullObjects(g, x.path)| && PullObjects(g, x.path)[i].kind == Regular
    requires S.HasFate(x.srv, i, S.Skipped) ==> !Spoiled(h, x.job)
    ensures Backed(g, h, x.job, x.path, RelativePath(PullObjects(g, x.path)[i]))
  {
    if S.HasFate(x.srv, i, S.Skipped) {
      assert SkipBacked(g, h, x.job, x.path, x.srv, i);
    } else {
      DeliveredIsBacked(g, h, x, i);
    }
  }

  // ----- tickets -------------------------------------------------------------------------------

  /** A ticket of this server lifetime is in the table until it is honoured, once. */
  ghost predicate TicketsInv(t: Tickets) {
    && (forall id | id in t.ready :: id in t.issued && t.ready[id] == t.issued[id] && id !in t.honoured)
    && (forall id | id in t.issued :: id < t.next && (id in t.ready || id in t.honoured))
    && (forall id | id in t.honoured :: id < t.next)
  }

  /** A live session's tickets were issued to its client, for its files. */
  ghost predicate HoldsTickets(g: Config, t: Tickets, x: Session) {
    x.serverLive ==> AreIssued(PullObjects(g, x.path), x.peer, x.srv.tickets, t)
  }

  ghost predicate AreIssued(os: seq<Object>, peer: nat, tickets: map<nat, nat>, t: Tickets) {
    forall i | i in tickets ::
      i < |os| && tickets[i] in t.issued && t.issued[tickets[i]] == ReadyFile(peer, os[i])
  }

  lemma OneMoreIssued(os: seq<Object>, peer: nat, tickets: map<nat, nat>, t: Tickets, i: nat)
    requires TicketsInv(t) && AreIssued(os, peer, tickets, t) && i < |os|
    ensures AreIssued(os, peer, tickets[i := t.next], TakeTicket(t, ReadyFile(peer, os[i])))
  {
    TakeTicketInv(t, ReadyFile(peer, os[i]));
  }

  ghost predicate AllTicketsInv(g: Config, w: World) {
    TicketsInv(w.tickets) && forall s | 0 <= s < |w.sessions| :: HoldsTickets(g, w.tickets, w.sessions[s])
  }

  lemma RedeemInv(t: Tickets, id: nat, address: nat)
    requires TicketsInv(t)
    ensures TicketsInv(Redeem(t, id, address).1) && Redeem(t, id, address).1.issued == t.issued
  {}

  lemma TakeTicketInv(t: Tickets, file: ReadyFile)
    requires TicketsInv(t)
    ensures TicketsInv(TakeTicket(t, file))
    ensures t.next !in t.issued && TakeTicket(t, file).issued == t.issued[t.next := file]
  {}

  lemma StepTickets(g: Config, w: World, a: Action)
    requires TicketsInv(w.tickets) && Enabled(g, w, a)
    ensures TicketsInv(TicketsAfter(g, w, a))
    ensures w.tickets.honoured <= TicketsAfter(g, w, a).honoured
    ensures !a.Restart? ==> IssuedStays(w.tickets, TicketsAfter(g, w, a))
  {
    if a.Request? {
      RedeemInv(w.tickets, TransferAt(w.sessions[a.s].cli, a.k).value.id, w.sessions[a.s].peer);
    } else if a.ServerStep? && a.srv.TakeTicket? {
      var x := w.sessions[a.s];
      TakeTicketInv(w.tickets, ReadyFile(x.peer, PullObjects(g, x.path)[x.srv.pos]));
    }
  }

  predicate IssuedStays(t: Tickets, u: Tickets) {
    forall id | id in t.issued :: id in u.issued && u.issued[id] == t.issued[id]
  }

  lemma OwnHolds(g: Config, w: World, s: nat, b: S.Action)
    requires TicketsInv(w.tickets) && Enabled(g, w, ServerStep(s, b)) && HoldsTickets(g, w.tickets, w.sessions[s])
    ensures HoldsTickets(g, TicketsAfter(g, w, ServerStep(s, b)), SessionAfter(g, w, w.sessions[s], ServerStep(s, b)))
  {
    var x := w.sessions[s];
    S.StepTicketed(Scope(g, x), x.srv, b);
    if b.TakeTicket? {
      OneMoreIssued(PullObjects(g, x.path), x.peer, x.srv.tickets, w.tickets, x.srv.pos);
    }
  }

  lemma StepAllTickets(g: Config, w: World, a: Action)
    requires AllTicketsInv(g, w) && Enabled(g, w, a)
    ensures AllTicketsInv(g, Apply(g, w, a))
  {
    StepTickets(g, w, a);
    forall s | 0 <= s < |SessionsAfter(g, w, a)|
      ensures HoldsTickets(g, TicketsAfter(g, w, a), SessionsAfter(g, w, a)[s])
    {
      StepHolds(g, w, a, s);
    }
  }

  lemma StepHolds(g: Config, w: World, a: Action, s: nat)
    requires AllTicketsInv(g, w) && Enabled(g, w, a) && s < |SessionsAfter(g, w, a)|
    ensures HoldsTickets(g, TicketsAfter(g, w, a), SessionsAfter(g, w, a)[s])
  {
    StepTickets(g, w, a);
    SessionAt(g, w, a, s);
    if s < |w.sessions| {
      assert HoldsTickets(g, w.tickets, w.sessions[s]);
      if a.ServerStep? && a.s == s {
        OwnHolds(g, w, s, a.srv);
      } else if !a.Restart? {
        IssuedHolds(g, w.tickets, TicketsAfter(g, w, a), w.sessions[s]);
        TicketsKept(g, w, a, s);
      }
    }
  }

  lemma IssuedHolds(g: Config, t: Tickets, u: Tickets, x: Session)
    requires HoldsTickets(g, t, x) && IssuedStays(t, u)
    ensures HoldsTickets(g, u, x)
  {}

  lemma TicketsKept(g: Config, w: World, a: Action, s: nat)
    requires Enabled(g, w, a) && s < |w.sessions| && !(a.ServerStep? && a.s == s) && !a.Restart?
    ensures var x, y := w.sessions[s], SessionsAfter(g, w, a)[s];
      y.serverLive == x.serverLive && y.srv == x.srv && y.peer == x.peer && y.path == x.path && y.job == x.job
  {
    SessionAt(g, w, a, s);
  }

  lemma {:induction false} RunTickets(g: Config, w: World, actions: seq<Action>)
    requires AllTicketsInv(g, w) && CanRun(g, w, actions)
    ensures AllTicketsInv(g, Run(g, w, actions)) && w.tickets.honoured <= Run(g, w, actions).tickets.honoured
    decreases |actions|
  {
    if actions != [] {
      StepAllTickets(g, w, actions[0]);
      StepTickets(g, w, actions[0]);
      RunTickets(g, Apply(g, w, actions[0]), actions[1..]);
    }
  }

  /** The ticket is in the table for `file`, its client's request is honoured, and one from any other
      address leaves it where it is. */
  ghost predicate IsReady(t: Tickets, id: nat, file: ReadyFile) {
    && id in t.ready && t.ready[id] == file
    && Redeem(t, id, file.address).0 == Some(file) && id in Redeem(t, id, file.address).1.honoured
    && forall other | other != file.address :: Redeem(t, id, other) == (None, t)
  }

  lemma IssuedIsReady(t: Tickets, id: nat)
    requires TicketsInv(t) && id in t.issued && id !in t.honoured
    ensures IsReady(t, id, t.issued[id])
  {}

  lemma TransferIsTicketed(g: Config, x: Session, k: nat) returns (i: nat)
    requires S.StreamInv(Scope(g, x), x.srv) && TransferIn(x.srv.out, k).Some?
    ensures i in x.srv.tickets && i < |PullObjects(g, x.path)|
    ensures var t := TransferIn(x.srv.out, k).value;
      t.id == x.srv.tickets[i] && t.bytes == Int32(|PullObjects(g, x.path)[i].content|)
    ensures C.PathOf(x.srv.out, k) == RelativePath(PullObjects(g, x.path)[i])
  {
    S.MessageAt(Scope(g, x), x.srv, k);
    i := x.srv.sent[k - 1];
  }

  /** Every file announced by the running server, read by its client or still under way, and not yet
      honoured, is in the table, with the path and size announced and for that client. */
  lemma AnnouncedTicketIsReady(g: Config, actions: seq<Action>, s: nat, k: nat) returns (i: nat)
    requires ValidConfig(g) && CanRun(g, Init(), actions) && s < |Run(g, Init(), actions).sessions|
    requires Run(g, Init(), actions).sessions[s].serverLive
    requires TransferIn(Run(g, Init(), actions).sessions[s].srv.out, k).Some?
    ensures var w := Run(g, Init(), actions);
      var x := w.sessions[s];
      i < |PullObjects(g, x.path)| && IsAnnounced(w.tickets, x, k, PullObjects(g, x.path)[i])
  {
    var w := Run(g, Init(), actions);
    var x := w.sessions[s];
    Reachable(g, actions);
    assert SessionInv(g, w.store, w.history, x);
    i := TransferIsTicketed(g, x, k);
    RunTickets(g, Init(), actions);
    assert HoldsTickets(g, w.tickets, x);
    var id := TransferIn(x.srv.out, k).value.id;
    if id !in w.tickets.honoured {
      IssuedIsReady(w.tickets, id);
    }
  }

  /** Message `k` of the session announces `source`, whose ticket is used or ready. */
  ghost predicate IsAnnounced(t: Tickets, x: Session, k: nat, source: Object)
    requires TransferIn(x.srv.out, k).Some?
  {
    var transfer := TransferIn(x.srv.out, k).value;
    && C.PathOf(x.srv.out, k) == RelativePath(source) && transfer.bytes == Int32(|source.content|)
    && (transfer.id in t.honoured || IsReady(t, transfer.id, ReadyFile(x.peer, source)))
  }

  /** No ticket of an earlier server's lifetime is honoured by a later one. */
  ghost predicate IssuedFrom(t: Tickets, first: nat) {
    first <= t.next && forall id | id in t.issued :: first <= id
  }

  lemma StepIssuedFrom(g: Config, w: World, a: Action, first: nat)
    requires Enabled(g, w, a) && IssuedFrom(w.tickets, first)
    ensures IssuedFrom(TicketsAfter(g, w, a), first)
  {
    if a.ServerStep? && a.srv.TakeTicket? {
      var x := w.sessions[a.s];
      var t := TakeTicket(w.tickets, ReadyFile(x.peer, PullObjects(g, x.path)[x.srv.pos]));
      assert t.issued.Keys == w.tickets.issued.Keys + {w.tickets.next};
    } else if a.Request? {
      assert TicketsAfter(g, w, a).issued == w.tickets.issued && TicketsAfter(g, w, a).next == w.tickets.next;
    }
  }

  lemma {:induction false} RunIssuedFrom(g: Config, w: World, actions: seq<Action>, first: nat)
    requires CanRun(g, w, actions) && IssuedFrom(w.tickets, first)
    ensures IssuedFrom(Run(g, w, actions).tickets, first)
    decreases |actions|
  {
    if actions != [] {
      StepIssuedFrom(g, w, actions[0], first);
      RunIssuedFrom(g, Apply(g, w, actions[0]), actions[1..], first);
    }
  }

  /** Whatever happens before and after a restart: a ticket from before it gets nothing. */
  lemma OldTicketsAreRefused(g: Config, before: seq<Action>, kept: map<string, string>, after: seq<Action>, id: nat, address: nat)
    requires CanRun(g, Init(), before) && Enabled(g, Run(g, Init(), before), Restart(kept))
    requires CanRun(g, Apply(g, Run(g, Init(), before), Restart(kept)), after)
    requires id < Run(g, Init(), before).tickets.next
    ensures var t := Run(g, Apply(g, Run(g, Init(), before), Restart(kept)), after).tickets;
      id !in t.ready && Redeem(t, id, address) == (None, t)
  {
    var u := Run(g, Init(), before);
    var v := Apply(g, u, Restart(kept));
    RunTickets(g, Init(), before);
    StepAllTickets(g, u, Restart(kept));
    RunTickets(g, v, after);
    RunIssuedFrom(g, v, after, u.tickets.next);
  }

  // ----- what is gone --------------------------------------------------------------------------

  predicate IsGone(x: Session, y: Session) {
    (!x.clientLive ==> !y.clientLive && y.cli == x.cli) && (!x.serverLive ==> !y.serverLive && y.srv == x.srv)
  }

  lemma {:induction false} GoneStays(g: Config, w: World, actions: seq<Action>, s: nat)
    requires CanRun(g, w, actions) && s < |w.sessions|
    ensures s < |Run(g, w, actions).sessions| && IsGone(w.sessions[s], Run(g, w, actions).sessions[s])
    decreases |actions|
  {
    if actions != [] {
      StepGone(g, w, actions[0], s);
      GoneStays(g, Apply(g, w, actions[0]), actions[1..], s);
    }
  }

  lemma StepGone(g: Config, w: World, a: Action, s: nat)
    requires Enabled(g, w, a) && s < |w.sessions|
    ensures s < |SessionsAfter(g, w, a)| && IsGone(w.sessions[s], SessionsAfter(g, w, a)[s])
  {
    SessionAt(g, w, a, s);
  }

  /** A client that was killed does nothing any more, and a server that went down goes on with none of
      its sessions. */
  lemma NothingAfterTheEnd(g: Config, w: World, a: Action, actions: seq<Action>, s: nat)
    requires s < |w.sessions| && Enabled(g, w, a) && CanRun(g, Apply(g, w, a), actions)
    ensures var v := Run(g, Apply(g, w, a), actions);
      && s < |v.sessions|
      && (a == KillClient(s) ==> v.sessions[s].cli == w.sessions[s].cli)
      && (a.Restart? ==> v.sessions[s].srv == w.sessions[s].srv)
  {
    SessionAt(g, w, a, s);
    GoneStays(g, Apply(g, w, a), actions, s);
  }

  // ----- a transfer that goes well -------------------------------------------------------------

  /** A stream task of session `s` is running, on a ticket of the live server not used so far. */
  predicate CanFetch(w: World, s: nat, k: nat) {
    && s < |w.sessions| && w.sessions[s].serverLive && ClientCan(w.sessions[s], C.StreamOk(k))
    && TransferAt(w.sessions[s].cli, k).Some? && (s, k) !in w.granted
    && TransferAt(w.sessions[s].cli, k).value.id !in w.tickets.honoured
  }

  /** The steps of fetching a file of this size. */
  function FetchSteps(s: nat, k: nat, size: nat): seq<Action> {
    [Request(s, k), StreamEnds(s, k, size, true)]
  }

  /** They can be taken, and write the source over what was there. */
  predicate Streams(g: Config, w: World, s: nat, k: nat, content: Bytes)
    requires CanFetch(w, s, k)
  {
    var x := w.sessions[s];
    var at := C.PathOf(x.cli.inbox, k);
    && CanRun(g, w, FetchSteps(s, k, |content|))
    && Disk(Run(g, w, FetchSteps(s, k, |content|)), x.peer, at) == Overwrite(Disk(w, x.peer, at), content)
  }

  /** Asking for a ready file and streaming all of it does that. */
  lemma StreamedIsWritten(g: Config, w: World, s: nat, k: nat, file: ReadyFile)
    requires CanFetch(w, s, k) && file.address == w.sessions[s].peer
    requires IsReady(w.tickets, TransferAt(w.sessions[s].cli, k).value.id, file)
    requires AsUint64(TransferAt(w.sessions[s].cli, k).value.bytes) <= |file.source.content|
    ensures Streams(g, w, s, k, file.source.content)
  {
    var data := file.source.content;
    var v := Apply(g, w, Request(s, k));
    RequestGrants(g, w, s, k, file);
    assert data[..|data|] == data;
    TwoSteps(g, w, Request(s, k), StreamEnds(s, k, |data|, true));
  }

  lemma RequestGrants(g: Config, w: World, s: nat, k: nat, file: ReadyFile)
    requires CanFetch(w, s, k) && file.address == w.sessions[s].peer
    requires IsReady(w.tickets, TransferAt(w.sessions[s].cli, k).value.id, file)
    ensures Enabled(g, w, Request(s, k))
    ensures var v := Apply(g, w, Request(s, k));
      Granted(v, s, k) == file.source.content && v.sessions == w.sessions && v.disks == w.disks && v.store == w.store
  {}

  /** The file is `source`, and can be fetched whole. */
  predicate CanArrive(g: Config, w: World, s: nat, k: nat, source: Object)
    requires CanFetch(w, s, k)
  {
    var cli := w.sessions[s].cli;
    && RelativePath(source) == C.PathOf(cli.inbox, k) && TransferAt(cli, k).value.sha256 == g.hash(source.content)
    && (|source.content| < 0x8000_0000 ==> Streams(g, w, s, k, source.content))
  }

  /** In every reachable state a running stream task with an unused ticket can fetch its file from the
      live server: below 2 GiB the client's copy can become the source's content, for which its
      check finds the announced digest, followed by what a longer old copy had beyond it. */
  lemma SourceArrives(g: Config, actions: seq<Action>, s: nat, k: nat) returns (i: nat)
    requires ValidConfig(g) && CanRun(g, Init(), actions) && CanFetch(Run(g, Init(), actions), s, k)
    ensures var w := Run(g, Init(), actions);
      i < |PullObjects(g, w.sessions[s].path)| && CanArrive(g, w, s, k, PullObjects(g, w.sessions[s].path)[i])
  {
    var w := Run(g, Init(), actions);
    Reachable(g, actions);
    assert SessionInv(g, w.store, w.history, w.sessions[s]);
    ReadIsSent(w.sessions[s], k);
    i := AnnouncedTicketIsReady(g, actions, s, k);
    DigestIsSources(g, w.sessions[s], k, i);
    ReadyArrives(g, w, s, k, PullObjects(g, w.sessions[s].path)[i]);
  }

  /** What an old copy longer than the source has beyond it stays, and then the copy is not the source. */
  lemma ArrivesWholeExactly(before: Bytes, content: Bytes)
    ensures Overwrite(before, content) == content <==> |before| <= |content|
  {
    if |before| > |content| {
      assert |Overwrite(before, content)| == |before|;
    }
  }

  lemma DigestIsSources(g: Config, x: Session, k: nat, i: nat)
    requires ValidConfig(g) && S.StreamInv(Scope(g, x), x.srv) && LinkInv(x) && TransferAt(x.cli, k).Some?
    requires i < |PullObjects(g, x.path)| && C.PathOf(x.cli.inbox, k) == RelativePath(PullObjects(g, x.path)[i])
    ensures TransferAt(x.cli, k).value.sha256 == g.hash(PullObjects(g, x.path)[i].content)
  {
    var j := TransferIsSources(g, x, k);
    SamePathSameObject(g, x.path, i, j);
  }

  lemma ReadIsSent(x: Session, k: nat)
    requires LinkInv(x) && TransferAt(x.cli, k).Some?
    ensures TransferIn(x.srv.out, k) == TransferAt(x.cli, k) && C.PathOf(x.srv.out, k) == C.PathOf(x.cli.inbox, k)
  {
    assert x.cli.inbox[k] == x.srv.out[k];
  }

  lemma ReadyArrives(g: Config, w: World, s: nat, k: nat, source: Object)
    requires CanFetch(w, s, k) && C.PathOf(w.sessions[s].cli.inbox, k) == RelativePath(source)
    requires TransferAt(w.sessions[s].cli, k).value.sha256 == g.hash(source.content)
    requires TransferAt(w.sessions[s].cli, k).value.bytes == Int32(|source.content|)
    requires IsReady(w.tickets, TransferAt(w.sessions[s].cli, k).value.id, ReadyFile(w.sessions[s].peer, source))
    ensures CanArrive(g, w, s, k, source)
  {
    if |source.content| < 0x8000_0000 {
      SmallSize(|source.content|);
      StreamedIsWritten(g, w, s, k, ReadyFile(w.sessions[s].peer, source));
    }
  }

  lemma SmallSize(n: nat)
    requires n < 0x8000_0000
    ensures AsUint64(Int32(n)) == n
  {}

  /** No ticket is ever honoured twice, whatever happens in between. */
  lemma NeverHonouredTwice(g: Config, actions: seq<Action>, more: seq<Action>, id: nat, address: nat)
    requires CanRun(g, Init(), actions) && CanRun(g, Run(g, Init(), actions), more)
    requires id in Run(g, Init(), actions).tickets.honoured
    ensures var t := Run(g, Run(g, Init(), actions), more).tickets;
      id !in t.ready && Redeem(t, id, address) == (None, t)
  {
    RunTickets(g, Init(), actions);
    RunTickets(g, Run(g, Init(), actions), more);
  }

  // ----- reports under way ---------------------------------------------------------------------

  predicate Reports(w: World, a: Action, job: string, path: string) {
    && a.Report? && a.s < |w.sessions| && w.sessions[a.s].cli.job == Some(job)
    && C.IsObject(w.sessions[a.s].cli.inbox, a.k) && C.PathOf(w.sessions[a.s].cli.inbox, a.k) == path
  }

  /** How many actions of a run are of this kind. */
  function Times(g: Config, w: World, actions: seq<Action>, kind: (World, Action) -> bool): nat
    requires CanRun(g, w, actions)
    decreases |actions|
  {
    if actions == [] then 0
    else (if kind(w, actions[0]) then 1 else 0) + Times(g, Apply(g, w, actions[0]), actions[1..], kind)
  }

  function Reporting(job: string, path: string): (World, Action) -> bool {
    (v: World, a: Action) => Reports(v, a, job, path)
  }

  function Delivering(job: string, path: string): (World, Action) -> bool {
    (v: World, a: Action) => a == Deliver(job, path)
  }

  function Losing(job: string, path: string): (World, Action) -> bool {
    (v: World, a: Action) => a == Lose(job, path)
  }

  /** Every report is delivered once or lost, unless it is still under way. */
  lemma ReportsAreConserved(g: Config, actions: seq<Action>, job: string, path: string)
    requires CanRun(g, Init(), actions)
    ensures Times(g, Init(), actions, Reporting(job, path))
      == Times(g, Init(), actions, Delivering(job, path)) + Times(g, Init(), actions, Losing(job, path))
         + Run(g, Init(), actions).wire[(job, path)]
  {
    ReportsFrom(g, Init(), actions, job, path);
  }

  lemma CountsOnWire(g: Config, w: World, a: Action, job: string, path: string)
    requires Enabled(g, w, a)
    ensures w.wire[(job, path)] + (if Reports(w, a, job, path) then 1 else 0)
      == (if a == Deliver(job, path) || a == Lose(job, path) then 1 else 0) + WireAfter(g, w, a)[(job, path)]
  {}

  lemma {:induction false} ReportsFrom(g: Config, w: World, actions: seq<Action>, job: string, path: string)
    requires CanRun(g, w, actions)
    ensures w.wire[(job, path)] + Times(g, w, actions, Reporting(job, path))
      == Times(g, w, actions, Delivering(job, path)) + Times(g, w, actions, Losing(job, path))
         + Run(g, w, actions).wire[(job, path)]
    decreases |actions|
  {
    if actions != [] {
      CountsOnWire(g, w, actions[0], job, path);
      ReportsFrom(g, Apply(g, w, actions[0]), actions[1..], job, path);
    }
  }
}
