/**
 What is in the logs on every run, whatever crashes have left of them: nothing but first parts of a
 header and of completion lines of files that a client of the job has checked.
 */
module ProtocolLogs {
  import C = ClientSession
  import JobLog
  import opened Protocol
  import opened ProtocolInvariant
  import opened ProtocolResults

  // ----- checked paths -------------------------------------------------------------------------

  /** The paths a client of the job has checked, with a digest or without. */
  function Checked(h: History, job: string): set<string> {
    (set r | r in h.readBacks && r.job == job :: r.path) + (set m | m in h.unhashed && m.0 == job :: m.1)
  }

  lemma CheckedGrows(h: History, h': History, job: string)
    requires More(h, h')
    ensures Checked(h, job) <= Checked(h', job)
  {}

  lemma BackedIsChecked(g: Config, h: History, job: string, jobPath: string, p: string)
    requires Backed(g, h, job, jobPath, p)
    ensures p in Checked(h, job)
  {
    var i: nat :| BackedBy(g, h, job, jobPath, p, i);
    if (job, p) in h.unhashed {
      assert (job, p).0 == job && (job, p).1 == p;
    }
  }

  ghost predicate IsBackedIn(g: Config, h: History, xs: seq<Session>, job: string, p: string, s: nat) {
    s < |xs| && xs[s].job == job && Backed(g, h, job, xs[s].path, p)
  }

  /** A checked path is a file of the tree of one of the job's sessions, backed by its check. */
  ghost predicate SourceInv(g: Config, h: History, xs: seq<Session>, job: string, p: string) {
    p in Checked(h, job) ==> exists s: nat :: IsBackedIn(g, h, xs, job, p, s)
  }

  lemma KeepsJob(g: Config, w: World, a: Action, s: nat)
    requires Enabled(g, w, a) && s < |w.sessions|
    ensures var xs := SessionsAfter(g, w, a);
      s < |xs| && xs[s].job == w.sessions[s].job && xs[s].path == w.sessions[s].path
  {
    SessionAt(g, w, a, s);
  }

  lemma SourceGrows(g: Config, h: History, h': History, xs: seq<Session>, ys: seq<Session>, job: string, p: string, s: nat)
    requires More(h, h') && IsBackedIn(g, h, xs, job, p, s)
    requires s < |ys| && ys[s].job == xs[s].job && ys[s].path == xs[s].path
    ensures SourceInv(g, h', ys, job, p)
  {
    BackedGrows(g, h, h', job, xs[s].path, p);
    assert IsBackedIn(g, h', ys, job, p, s);
  }

  lemma StepSource(g: Config, w: World, a: Action, job: string, p: string)
    requires Inv(g, w) && Enabled(g, w, a) && SourceInv(g, w.history, w.sessions, job, p)
    ensures SourceInv(g, HistoryAfter(g, w, a), SessionsAfter(g, w, a), job, p)
  {
    StepHistory(g, w, a);
    if p in Checked(w.history, job) {
      var s: nat :| IsBackedIn(g, w.history, w.sessions, job, p, s);
      KeepsJob(g, w, a, s);
      SourceGrows(g, w.history, HistoryAfter(g, w, a), w.sessions, SessionsAfter(g, w, a), job, p, s);
    } else if p in Checked(HistoryAfter(g, w, a), job) {
      NewSource(g, w, a, job, p);
    }
  }

  lemma NewSource(g: Config, w: World, a: Action, job: string, p: string)
    requires Inv(g, w) && Enabled(g, w, a)
    requires p !in Checked(w.history, job) && p in Checked(HistoryAfter(g, w, a), job)
    ensures SourceInv(g, HistoryAfter(g, w, a), SessionsAfter(g, w, a), job, p)
  {
    NewChecked(g, w, a, job, p);
    assert SessionInv(g, w.store, w.history, w.sessions[a.s]);
    CheckLeavesEvidence(g, w, a.s, a.k, a.hashed);
    KeepsJob(g, w, a, a.s);
    assert IsBackedIn(g, HistoryAfter(g, w, a), SessionsAfter(g, w, a), job, p, a.s);
  }

  lemma NewChecked(g: Config, w: World, a: Action, job: string, p: string)
    requires Enabled(g, w, a) && p !in Checked(w.history, job) && p in Checked(HistoryAfter(g, w, a), job)
    ensures a.CheckDone? && w.sessions[a.s].job == job && C.PathOf(w.sessions[a.s].cli.inbox, a.k) == p
  {}

  // ----- logs ----------------------------------------------------------------------------------

  /** What can have been written to the job's log as a completed path. */
  function Written(h: History, job: string): set<string> {
    if job in h.broken then Checked(h, job) else set p | p in Checked(h, job) && '\n' !in p
  }

  ghost predicate IsMade(h: History, job: string, log: string, created: string, path: string, m: nat) {
    && '\n' !in created && (job !in h.broken ==> '\n' !in path)
    && JobLog.IsPatchwork(Written(h, job), JobLog.Header(created, path), m, log)
  }

  ghost predicate MadeInv(h: History, store: JobLog.Store, job: string) {
    job in store.disk ==>
      exists created: string, path: string, m: nat :: IsMade(h, job, store.disk[job], created, path, m)
  }

  lemma MadeGrows(h: History, h': History, job: string, log: string, created: string, path: string, m: nat)
    requires More(h, h') && IsMade(h, job, log, created, path, m)
    ensures IsMade(h', job, log, created, path, m)
  {
    CheckedGrows(h, h', job);
    assert Written(h, job) <= Written(h', job);
    JobLog.PiecesGrow(Written(h, job), Written(h', job), log[m..]);
  }

  lemma StepMade(store: JobLog.Store, h: History, h': History, a: Action, job: string)
    requires MadeInv(h, store, job) && StoreCan(store, a) && Follows(store, h, h', a)
    requires a.Deliver? ==> a.path in Checked(h, a.job)
    ensures MadeInv(h', StoreAfter(store, a), job)
  {
    if a.StartJob? && a.id == job {
      var header := JobLog.Header(a.created, a.path);
      assert header[..|header|] == header && header[|header|..] == "";
      assert IsMade(h', job, header, a.created, a.path, |header|);
    } else if job in store.disk {
      var created: string, path: string, m: nat :| IsMade(h, job, store.disk[job], created, path, m);
      MadeGrows(h, h', job, store.disk[job], created, path, m);
      WrittenIsMade(store, h, h', a, job, created, path, m);
    }
  }

  lemma WrittenIsMade(store: JobLog.Store, h: History, h': History, a: Action, job: string,
                      created: string, path: string, m: nat)
    requires job in store.disk && StoreCan(store, a) && Follows(store, h, h', a) && !(a.StartJob? && a.id == job)
    requires IsMade(h', job, store.disk[job], created, path, m) && (a.Deliver? ==> a.path in Checked(h, a.job))
    ensures MadeInv(h', StoreAfter(store, a), job)
  {
    var log, header := store.disk[job], JobLog.Header(created, path);
    if a.Deliver? && a.job == job && job in store.jobs {
      CheckedGrows(h, h', job);
      assert a.path in Written(h', job);
      JobLog.PatchworkAppend(Written(h', job), header, m, log, a.path);
      assert IsMade(h', job, log + JobLog.CompletedLine(a.path), created, path, m);
    } else if a.Restart? && job in a.kept {
      var kept := a.kept[job];
      JobLog.PatchworkCut(Written(h', job), header, m, log, kept);
      assert IsMade(h', job, kept, created, path, if m <= |kept| then m else |kept|);
    } else {
      assert StoreAfter(store, a).disk[job] == log;
    }
  }

  // ----- runs ----------------------------------------------------------------------------------

  ghost predicate WritesInv(g: Config, w: World) {
    && (forall m | m in w.wire :: m.1 in Checked(w.history, m.0))
    && (forall job: string :: MadeInv(w.history, w.store, job))
    && (forall job: string, p: string :: SourceInv(g, w.history, w.sessions, job, p))
  }

  lemma StepSent(g: Config, w: World, a: Action, m: (string, string))
    requires Inv(g, w) && Enabled(g, w, a) && m in WireAfter(g, w, a)
    requires m in w.wire ==> m.1 in Checked(w.history, m.0)
    ensures m.1 in Checked(HistoryAfter(g, w, a), m.0)
  {
    StepHistory(g, w, a);
    if m in w.wire {
      CheckedGrows(w.history, HistoryAfter(g, w, a), m.0);
    } else {
      var x := w.sessions[a.s];
      assert SessionInv(g, w.store, w.history, x);
      CheckedIsBacked(g, w.history, x.job, x.path, x.cli, a.k);
      BackedIsChecked(g, w.history, x.job, x.path, C.PathOf(x.cli.inbox, a.k));
    }
  }

  lemma StepWrites(g: Config, w: World, a: Action)
    requires Inv(g, w) && WritesInv(g, w) && Enabled(g, w, a)
    ensures WritesInv(g, Apply(g, w, a))
  {
    var v := Apply(g, w, a);
    StepHistory(g, w, a);
    forall m | m in v.wire ensures m.1 in Checked(v.history, m.0) {
      StepSent(g, w, a, m);
    }
    forall job: string ensures MadeInv(v.history, v.store, job) {
      StepMade(w.store, w.history, v.history, a, job);
    }
    forall job: string, p: string ensures SourceInv(g, v.history, v.sessions, job, p) {
      StepSource(g, w, a, job, p);
    }
  }

  lemma {:induction false} RunWrites(g: Config, w: World, actions: seq<Action>)
    requires ValidConfig(g) && Inv(g, w) && WritesInv(g, w) && CanRun(g, w, actions)
    ensures WritesInv(g, Run(g, w, actions))
    decreases |actions|
  {
    if actions != [] {
      StepInv(g, w, actions[0]);
      StepWrites(g, w, actions[0]);
      RunWrites(g, Apply(g, w, actions[0]), actions[1..]);
    }
  }

  lemma ReachableWrites(g: Config, actions: seq<Action>)
    requires ValidConfig(g) && CanRun(g, Init(), actions)
    ensures WritesInv(g, Run(g, Init(), actions))
  {
    RunWrites(g, Init(), actions);
  }

  /** Whatever the trees hold and the crashes tear: a job's log is a first part of a header, followed
      by first parts of completion lines of paths that clients of the job have checked. */
  lemma LogsAreMade(g: Config, actions: seq<Action>, job: string)
    requires ValidConfig(g) && CanRun(g, Init(), actions) && job in Run(g, Init(), actions).store.disk
    ensures var w := Run(g, Init(), actions);
      exists created: string, path: string, m: nat ::
        JobLog.IsPatchwork(Checked(w.history, job), JobLog.Header(created, path), m, w.store.disk[job])
  {
    var w := Run(g, Init(), actions);
    ReachableWrites(g, actions);
    assert MadeInv(w.history, w.store, job);
    var created: string, path: string, m: nat :| IsMade(w.history, job, w.store.disk[job], created, path, m);
    JobLog.PiecesGrow(Written(w.history, job), Checked(w.history, job), w.store.disk[job][m..]);
    assert JobLog.IsPatchwork(Checked(w.history, job), JobLog.Header(created, path), m, w.store.disk[job]);
  }

  /** `p` is a first part, of `n` characters, of a backed path, with at most torn lines behind it. */
  ghost predicate IsTornPath(g: Config, w: World, job: string, p: string, q: string, n: nat, s: nat) {
    && JobLog.IsTornFrom(Checked(w.history, job), p, q, n)
    && IsBackedIn(g, w.history, w.sessions, job, q, s)
  }

  /** However often crashes have torn a job's log, as long as no line break was written to it: a path
      it records is a first part of one that is backed, and behind that nothing but first parts of
      other completion lines. If the log was never torn it is the whole of such a path. */
  lemma RecordedIsTorn(g: Config, actions: seq<Action>, job: string, p: string) returns (q: string, n: nat, s: nat)
    requires ValidConfig(g) && CanRun(g, Init(), actions) && !Along(g, Init(), actions, Breaking(job))
    requires job in Run(g, Init(), actions).store.disk
    requires p in JobLog.Parse(Run(g, Init(), actions).store.disk[job]).completed
    ensures IsTornPath(g, Run(g, Init(), actions), job, p, q, n, s)
    ensures !Along(g, Init(), actions, Tearing(job)) ==> n == |p| == |q|
  {
    var w := Run(g, Init(), actions);
    ReachableWrites(g, actions);
    Reachable(g, actions);
    SpoiledFrom(g, Init(), actions, job);
    q, n, s := TornPathAt(g, w, job, p);
  }

  lemma TornPathAt(g: Config, w: World, job: string, p: string) returns (q: string, n: nat, s: nat)
    requires Inv(g, w) && WritesInv(g, w) && job in w.store.disk && job !in w.history.broken
    requires p in JobLog.Parse(w.store.disk[job]).completed
    ensures IsTornPath(g, w, job, p, q, n, s) && (job !in w.history.torn ==> n == |p| == |q|)
  {
    if job in w.history.torn {
      assert MadeInv(w.history, w.store, job);
      q, n := RecordedInMade(w.history, w.store, job, p);
    } else {
      q, n := p, |p|;
      assert RecordedInv(g, w.store, w.history, job);
      BackedIsChecked(g, w.history, job, PathOfJob(w.store, job), p);
      WholeIsTorn(Checked(w.history, job), p);
    }
    assert SourceInv(g, w.history, w.sessions, job, q);
    s :| IsBackedIn(g, w.history, w.sessions, job, q, s);
  }

  lemma WholeIsTorn(paths: set<string>, p: string)
    requires p in paths
    ensures JobLog.IsTornFrom(paths, p, p, |p|)
  {
    assert p[|p|..] == "";
  }

  lemma RecordedInMade(h: History, store: JobLog.Store, job: string, p: string) returns (q: string, n: nat)
    requires job in store.disk && MadeInv(h, store, job) && job !in h.broken
    requires p in JobLog.Parse(store.disk[job]).completed
    ensures JobLog.IsTornFrom(Checked(h, job), p, q, n)
  {
    var log := store.disk[job];
    var created: string, path: string, m: nat :| IsMade(h, job, log, created, path, m);
    JobLog.PatchworkRecords(Written(h, job), created, path, m, log, p);
    q, n :| JobLog.IsTornFrom(Written(h, job), p, q, n);
    JobLog.MadeLineGrows(Written(h, job), Checked(h, job), p[n..]);
  }

  /** What a crash has left of a completion that was being written. */
  function TornLog(log: string, p: string, n: nat): string
    requires n <= |p|
  {
    log + (JobLog.COMPLETED_PREFIX + p[..n])
  }

  lemma TornLogReads(log: string, p: string, n: nat)
    requires JobLog.Terminated(log) && '\n' !in p && n <= |p|
    ensures TornLog(log, p, n) <= log + JobLog.CompletedLine(p)
    ensures p[..n] in JobLog.Parse(TornLog(log, p, n)).completed
  {
    JobLog.ParseAppend(log, JobLog.COMPLETED_PREFIX + p[..n]);
    JobLog.ParseCompletedLine(JobLog.Parse(log), p[..n]);
    TornIsFirstPart(log, JobLog.COMPLETED_PREFIX, p, n, "\n");
  }

  lemma TornIsFirstPart(log: string, prefix: string, p: string, n: nat, end: string)
    requires n <= |p|
    ensures log + (prefix + p[..n]) <= log + (prefix + p + end)
  {}

  /** And every such first part can come about: wherever a report is about to be written behind
      complete lines, a crash can leave a log that records any first part of its path. */
  lemma AnyFirstPartCanBeRecorded(g: Config, w: World, job: string, p: string, n: nat)
    requires Enabled(g, w, Deliver(job, p)) && job in w.store.jobs && job in w.store.disk
    requires JobLog.Terminated(w.store.disk[job]) && '\n' !in p && n <= |p|
    ensures var steps := [Deliver(job, p), Restart(map[job := TornLog(w.store.disk[job], p, n)])];
      && CanRun(g, w, steps) && job in Run(g, w, steps).store.disk
      && p[..n] in JobLog.Parse(Run(g, w, steps).store.disk[job]).completed
  {
    var kept := TornLog(w.store.disk[job], p, n);
    TornLogReads(w.store.disk[job], p, n);
    var a, b := Deliver(job, p), Restart(map[job := kept]);
    var v := Apply(g, w, a);
    assert v.store.disk[job] == w.store.disk[job] + JobLog.CompletedLine(p);
    TwoSteps(g, w, a, b);
  }
}
