/**
 One session of the client: the thread that reads responses and creates objects, the stream tasks
 it submits, and the integrity tasks that the stream tasks submit in turn. Objects are known by the
 position of their message in what has been read. A step is one critical section, or one outcome of
 the system calls between two.
 */
module ClientSession {
  import Path
  import opened Messages
  import opened Wrappers
  import opened WorkerPool

  datatype Phase =
    | Reading
    | Creating(k: nat)      // in HandleTransfer, after Insert
    | Created(k: nat)       // created, its stream task not yet counted
    | Enqueuing(k: nat)     // counted, not yet queued
    | Setting(k: nat)       // created, nothing to stream: about to set metadata
    | Waiting               // `Finished` read
    | Reported              // the key wait is over and `to_complete` has been pulled
    | Aborted               // reading failed: the pool is done
    | Crashed               // an assertion about the message failed

  /** What has become of an object; `hashed` is whether a digest was computed and compared. */
  datatype Fate = Open | Failed | Complete(hashed: bool)

  datatype Client = Client(
    phase: Phase,
    job: Option<string>,
    inbox: seq<Response>,
    toComplete: set<string>,
    pool: Pool,
    fate: map<nat, Fate>,
    streamed: set<nat>)     // files whose stream loop has ended

  datatype Action =
    | Receive(message: Response)
    | ReceiveFails
    | CreateFails(k: nat)
    | CreateOk(k: nat)
    | SetFails(k: nat)
    | SetOk(k: nat)
    | PrepareStream(k: nat)
    | EnqueueStream(k: nat)
    | PopTask(task: Task)
    | StreamFails(k: nat)
    | StreamOk(k: nat)
    | PrepareCheck(k: nat)
    | EnqueueCheck(k: nat)
    | StreamReturns(k: nat)
    | CheckFails(k: nat)                 // open, read, digest or metadata
    | CheckOk(k: nat, hashed: bool)      // `hashed` is false when Finish gave no digest
    | CheckReturns(k: nat)               // after the success report, or the attempt
    | RemoveTask(task: Task)
    | WaitReturns

  const KEY: nat := 0

  function StreamTask(k: nat): Task {
    Task(Stream, k, Some(KEY), 0)
  }

  function CheckTask(k: nat): Task {
    Task(Integrity, k, Some(KEY), 0)
  }

  function Fresh(workers: nat): Client {
    Client(Reading, None, [], {}, Empty(workers), map[], {})
  }

  predicate IsObject(inbox: seq<Response>, k: nat) {
    k < |inbox| && inbox[k].Object?
  }

  function PathOf(inbox: seq<Response>, k: nat): string
    requires IsObject(inbox, k)
  {
    inbox[k].pull.path
  }

  predicate HasFate(s: Client, k: nat, f: Fate) {
    k in s.fate && s.fate[k] == f
  }

  predicate Running(s: Client, t: Task) {
    InStage(s.pool, t, Stage.Running)
  }

  function PoolStep(a: Action): Option<Step> {
    match a
    case ReceiveFails => Some(Done)
    case PrepareStream(k) => Some(Prepare(StreamTask(k)))
    case EnqueueStream(k) => Some(Enqueue(StreamTask(k)))
    case PopTask(t) => Some(Pop(t))
    case StreamFails(k) => Some(Return(StreamTask(k)))
    case PrepareCheck(k) => Some(Prepare(CheckTask(k)))
    case EnqueueCheck(k) => Some(Enqueue(CheckTask(k)))
    case StreamReturns(k) => Some(Return(StreamTask(k)))
    case CheckFails(k) => Some(Return(CheckTask(k)))
    case CheckReturns(k) => Some(Return(CheckTask(k)))
    case RemoveTask(t) => Some(Remove(t))
    case _ => None
  }

  predicate Enabled(s: Client, a: Action) {
    && (PoolStep(a).Some? ==> WorkerPool.Enabled(s.pool, PoolStep(a).value))
    && match a
       case Receive(_) => s.phase == Reading
       case ReceiveFails => s.phase == Reading
       case CreateFails(k) => s.phase == Creating(k)
       case CreateOk(k) => s.phase == Creating(k) && IsObject(s.inbox, k)
       case SetFails(k) => s.phase == Setting(k)
       case SetOk(k) => s.phase == Setting(k) && IsObject(s.inbox, k)
       case PrepareStream(k) => s.phase == Created(k)
       case EnqueueStream(k) => s.phase == Enqueuing(k)
       case StreamFails(k) => k !in s.streamed
       case StreamOk(k) => Running(s, StreamTask(k)) && k !in s.streamed
       case PrepareCheck(k) => Running(s, StreamTask(k)) && k in s.streamed
       case StreamReturns(k) => k in s.streamed && Enqueued(s.pool, CheckTask(k))
       case CheckFails(k) => HasFate(s, k, Open)
       case CheckOk(k, _) => Running(s, CheckTask(k)) && HasFate(s, k, Open) && IsObject(s.inbox, k)
       case CheckReturns(k) => k in s.fate && s.fate[k].Complete?
       case WaitReturns => s.phase == Waiting && Pending(s.pool, KEY) == 0
       case _ => true
  }

  /** `!job_id.empty()`. */
  predicate HasJob(s: Client) {
    s.job.Some? && s.job.value != ""
  }

  function Read(s: Client, m: Response): Client {
    var t := s.(inbox := s.inbox + [m]);
    match m
    case Started(job) => t.(job := Some(job))
    case Object(pull) =>
      if !HasJob(s) || Path.IsAbsolute(pull.path) then s.(phase := Crashed)
      else t.(phase := Creating(|s.inbox|), toComplete := s.toComplete + {pull.path}, fate := s.fate[|s.inbox| := Open])
    case Finished(_) => t.(phase := Waiting)
    case Error => t
  }

  function Apply(s: Client, a: Action): Client
    requires Enabled(s, a)
  {
    var t := if PoolStep(a).Some? then s.(pool := WorkerPool.Apply(s.pool, PoolStep(a).value)) else s;
    match a
    case Receive(m) => Read(s, m)
    case ReceiveFails => t.(phase := Aborted)
    case CreateFails(k) => s.(fate := s.fate[k := Failed], phase := Reading)
    case CreateOk(k) => s.(phase := if s.inbox[k].pull.transfer.Some? then Created(k) else Setting(k))
    case SetFails(k) => s.(fate := s.fate[k := Failed], phase := Reading)
    case SetOk(k) => s.(fate := s.fate[k := Complete(false)], toComplete := s.toComplete - {PathOf(s.inbox, k)}, phase := Reading)
    case PrepareStream(k) => t.(phase := Enqueuing(k))
    case EnqueueStream(k) => t.(phase := Reading)
    case StreamFails(k) => t.(fate := s.fate[k := Failed])
    case StreamOk(k) => s.(streamed := s.streamed + {k})
    case CheckFails(k) => t.(fate := s.fate[k := Failed])
    case CheckOk(k, hashed) => s.(fate := s.fate[k := Complete(hashed)], toComplete := s.toComplete - {PathOf(s.inbox, k)})
    case WaitReturns => s.(phase := Reported)
    case _ => t
  }

  // ----- what every step keeps -----------------------------------------------------------------

  /** The main thread holds object `k`, and no task has been made for it. */
  predicate Held(s: Client, k: nat) {
    s.phase == Creating(k) || s.phase == Created(k) || s.phase == Setting(k)
  }

  predicate InTask(s: Client, t: Task) {
    t in s.pool.stage && s.pool.stage[t] != Returning
  }

  predicate Waits(s: Client, t: Task) {
    InStage(s.pool, t, Submitting) || InStage(s.pool, t, Queued)
  }

  predicate Over(s: Client, t: Task) {
    t in s.pool.finished || InStage(s.pool, t, Returning)
  }

  /** An object has a fate once its message is read. */
  predicate KnownInv(s: Client, k: nat) {
    && (k in s.fate <==> IsObject(s.inbox, k))
    && (Held(s, k) ==> HasFate(s, k, Open) && !Prepared(s.pool, StreamTask(k)))
    && (Prepared(s.pool, StreamTask(k)) ==> k in s.fate)
    && (InStage(s.pool, StreamTask(k), Submitting) <==> s.phase == Enqueuing(k))
    && (s.phase == Created(k) || Prepared(s.pool, StreamTask(k)) ==>
          IsObject(s.inbox, k) && s.inbox[k].pull.transfer.Some?)
    && (s.phase == Setting(k) ==> IsObject(s.inbox, k) && s.inbox[k].pull.transfer.None?)
  }

  /** The life of a file: streamed by one task, then checked by another that the first submits. */
  predicate TaskInv(s: Client, k: nat) {
    var stream, check := StreamTask(k), CheckTask(k);
    && (Waits(s, stream) ==> HasFate(s, k, Open))
    && (k in s.streamed ==> Prepared(s.pool, stream) && !Waits(s, stream))
    && (Running(s, stream) && k !in s.streamed ==> HasFate(s, k, Open))
    && (Over(s, stream) ==> !HasFate(s, k, Open) || Enqueued(s.pool, check))
    && (Over(s, stream) && k !in s.streamed ==> HasFate(s, k, Failed))
    && (Prepared(s.pool, check) ==> k in s.streamed)
    && (k in s.streamed && !Prepared(s.pool, check) ==> HasFate(s, k, Open))
    && (Waits(s, check) ==> HasFate(s, k, Open))
    && (Running(s, check) ==> !HasFate(s, k, Failed))
    && (Over(s, check) ==> !HasFate(s, k, Open))
    && (HasFate(s, k, Open) ==> Held(s, k) || InTask(s, stream) || InTask(s, check))
  }

  predicate OwnTask(t: Task) {
    t == StreamTask(t.id) || t == CheckTask(t.id)
  }

  ghost predicate TasksInv(s: Client) {
    && WorkerPool.Inv(s.pool)
    && (forall t | t in s.pool.stage :: OwnTask(t))
    && (forall k: nat :: KnownInv(s, k))
    && (forall k: nat :: TaskInv(s, k))
    && (s.phase == Reported ==> s.pool.stage == map[])
  }

  /** The object an action is about, if any. */
  function Subject(s: Client, a: Action): nat {
    match a
    case Receive(_) => |s.inbox|
    case ReceiveFails => 0
    case PopTask(t) => t.id
    case RemoveTask(t) => t.id
    case WaitReturns => 0
    case _ => a.k
  }

  lemma StepKnown(s: Client, a: Action, k: nat)
    requires KnownInv(s, k) && TaskInv(s, k) && Enabled(s, a)
    ensures KnownInv(Apply(s, a), k)
  {
    if a.PopTask? || a.RemoveTask? {
      PoolStepKnown(s, a, k);
    } else {
      OtherStepKnown(s, a, k);
    }
  }

  lemma PoolStepKnown(s: Client, a: Action, k: nat)
    requires KnownInv(s, k) && Enabled(s, a) && (a.PopTask? || a.RemoveTask?)
    ensures KnownInv(Apply(s, a), k)
  {}

  predicate IsMain(a: Action) {
    a.Receive? || a.ReceiveFails? || a.CreateFails? || a.CreateOk? || a.SetFails? || a.SetOk?
    || a.PrepareStream? || a.EnqueueStream? || a.WaitReturns?
  }

  lemma OtherStepKnown(s: Client, a: Action, k: nat)
    requires KnownInv(s, k) && TaskInv(s, k) && Enabled(s, a) && !a.PopTask? && !a.RemoveTask?
    ensures KnownInv(Apply(s, a), k)
  {
    if a.PrepareStream? || a.EnqueueStream? {
      SubmitStepKnown(s, a, k);
    } else if IsMain(a) {
      ReadStepKnown(s, a, k);
    } else {
      TaskStepKnown(s, a, k);
    }
  }

  lemma SubmitStepKnown(s: Client, a: Action, k: nat)
    requires KnownInv(s, k) && Enabled(s, a) && (a.PrepareStream? || a.EnqueueStream?)
    ensures KnownInv(Apply(s, a), k)
  {}

  lemma ReadStepKnown(s: Client, a: Action, k: nat)
    requires KnownInv(s, k) && Enabled(s, a) && IsMain(a) && !a.PrepareStream? && !a.EnqueueStream?
    ensures KnownInv(Apply(s, a), k)
  {}

  lemma TaskStepKnown(s: Client, a: Action, k: nat)
    requires KnownInv(s, k) && TaskInv(s, k) && Enabled(s, a) && !IsMain(a) && !a.PopTask? && !a.RemoveTask?
    ensures KnownInv(Apply(s, a), k)
  {}

  /** One step, seen from object `k`: by the main thread, */
  lemma MainStepTask(s: Client, a: Action, k: nat)
    requires KnownInv(s, k) && TaskInv(s, k) && s.pool.finished !! s.pool.stage.Keys && Enabled(s, a)
    requires IsMain(a)
    ensures TaskInv(Apply(s, a), k)
  {
    if a.PrepareStream? || a.EnqueueStream? {
      SubmitStepTask(s, a, k);
    } else {
      ReadStepTask(s, a, k);
    }
  }

  lemma SubmitStepTask(s: Client, a: Action, k: nat)
    requires KnownInv(s, k) && TaskInv(s, k) && s.pool.finished !! s.pool.stage.Keys && Enabled(s, a)
    requires a.PrepareStream? || a.EnqueueStream?
    ensures TaskInv(Apply(s, a), k)
  {}

  lemma ReadStepTask(s: Client, a: Action, k: nat)
    requires KnownInv(s, k) && TaskInv(s, k) && Enabled(s, a)
    requires IsMain(a) && !a.PrepareStream? && !a.EnqueueStream?
    ensures TaskInv(Apply(s, a), k)
  {
    if a.Receive? || a.ReceiveFails? || a.WaitReturns? {
      ReceiveStepTask(s, a, k);
    } else {
      CreateStepTask(s, a, k);
    }
  }

  lemma ReceiveStepTask(s: Client, a: Action, k: nat)
    requires KnownInv(s, k) && TaskInv(s, k) && Enabled(s, a) && (a.Receive? || a.ReceiveFails? || a.WaitReturns?)
    ensures TaskInv(Apply(s, a), k)
  {}

  lemma CreateStepTask(s: Client, a: Action, k: nat)
    requires KnownInv(s, k) && TaskInv(s, k) && Enabled(s, a)
    requires a.CreateFails? || a.CreateOk? || a.SetFails? || a.SetOk?
    ensures TaskInv(Apply(s, a), k)
  {}

  /** by a stream task, */
  lemma StreamStepTask(s: Client, a: Action, k: nat)
    requires KnownInv(s, k) && TaskInv(s, k) && s.pool.finished !! s.pool.stage.Keys && Enabled(s, a)
    requires a.StreamFails? || a.StreamOk? || a.PrepareCheck? || a.EnqueueCheck? || a.StreamReturns?
    ensures TaskInv(Apply(s, a), k)
  {}

  /** by an integrity task, */
  lemma CheckStepTask(s: Client, a: Action, k: nat)
    requires KnownInv(s, k) && TaskInv(s, k) && s.pool.finished !! s.pool.stage.Keys && Enabled(s, a)
    requires a.CheckFails? || a.CheckOk? || a.CheckReturns?
    ensures TaskInv(Apply(s, a), k)
  {}

  /** or by the pool. */
  lemma PoolStepTask(s: Client, a: Action, k: nat)
    requires KnownInv(s, k) && TaskInv(s, k) && s.pool.finished !! s.pool.stage.Keys && Enabled(s, a)
    requires a.PopTask? || a.RemoveTask?
    ensures TaskInv(Apply(s, a), k)
  {}

  lemma StepTask(s: Client, a: Action, k: nat)
    requires TasksInv(s) && Enabled(s, a)
    ensures TaskInv(Apply(s, a), k)
  {
    assert KnownInv(s, k) && TaskInv(s, k);
    if a.PopTask? || a.RemoveTask? {
      PoolStepTask(s, a, k);
    } else if a.CheckFails? || a.CheckOk? || a.CheckReturns? {
      CheckStepTask(s, a, k);
    } else if a.StreamFails? || a.StreamOk? || a.PrepareCheck? || a.EnqueueCheck? || a.StreamReturns? {
      StreamStepTask(s, a, k);
    } else {
      MainStepTask(s, a, k);
    }
  }

  lemma StepTasks(s: Client, a: Action)
    requires TasksInv(s) && Enabled(s, a)
    ensures TasksInv(Apply(s, a))
  {
    forall k: nat ensures KnownInv(Apply(s, a), k) && TaskInv(Apply(s, a), k) {
      StepKnown(s, a, k);
      StepTask(s, a, k);
    }
    if PoolStep(a).Some? {
      StepInv(s.pool, PoolStep(a).value);
    }
    if a.WaitReturns? {
      ZeroMeansIdle(s.pool, KEY);
    }
  }

  // ----- to_complete ---------------------------------------------------------------------------

  predicate DistinctPaths(inbox: seq<Response>) {
    forall j, k | 0 <= j < k < |inbox| && IsObject(inbox, j) && IsObject(inbox, k) ::
      PathOf(inbox, j) != PathOf(inbox, k)
  }

  predicate IsComplete(s: Client, k: nat) {
    k in s.fate && s.fate[k].Complete?
  }

  predicate NamedBy(s: Client, p: string, k: nat) {
    k in s.fate && IsObject(s.inbox, k) && PathOf(s.inbox, k) == p
  }

  predicate ListedInv(s: Client, k: nat) {
    k in s.fate && IsObject(s.inbox, k) ==> (PathOf(s.inbox, k) in s.toComplete <==> !IsComplete(s, k))
  }

  ghost predicate ToCompleteInv(s: Client) {
    && (forall k: nat :: ListedInv(s, k))
    && (forall p | p in s.toComplete :: exists k: nat :: NamedBy(s, p, k))
    && (s.phase == Waiting || s.phase == Reported ==> s.inbox != [] && s.inbox[|s.inbox| - 1].Finished?)
  }

  /** A step never takes a message back, and reads at most one more. */
  lemma StepInbox(s: Client, a: Action)
    requires Enabled(s, a)
    ensures Apply(s, a).inbox == s.inbox || (a.Receive? && Apply(s, a).inbox == s.inbox + [a.message])
    ensures s.fate.Keys <= Apply(s, a).fate.Keys
  {}

  lemma StepReads(s: Client, a: Action)
    requires Enabled(s, a) && !a.Receive?
    ensures Apply(s, a).inbox == s.inbox && Apply(s, a).job == s.job
    ensures Apply(s, a).phase == Crashed ==> s.phase == Crashed
  {}

  /** A message the assertions accept is read. */
  lemma StepReceives(s: Client, m: Response)
    requires Enabled(s, Receive(m)) && (m.Object? ==> HasJob(s) && !Path.IsAbsolute(m.pull.path))
    ensures var t := Apply(s, Receive(m));
      t.inbox == s.inbox + [m] && t.phase != Crashed && t.job == if m.Started? then Some(m.job) else s.job
  {}

  /** A message ends the client exactly if it is about an object and no job was started, or the
      object's path starts with a slash; any other one is read. */
  lemma CrashesExactly(s: Client, m: Response)
    requires Enabled(s, Receive(m))
    ensures var t := Apply(s, Receive(m));
      && (t.phase == Crashed <==>
            m.Object? && (s.job == None || s.job == Some("") || (m.pull.path != "" && m.pull.path[0] == '/')))
      && (t.phase != Crashed ==> t.inbox == s.inbox + [m])
  {}

  lemma StepListed(s: Client, a: Action, k: nat)
    requires TasksInv(s) && ToCompleteInv(s) && Enabled(s, a) && DistinctPaths(Apply(s, a).inbox)
    ensures ListedInv(Apply(s, a), k)
  {
    assert KnownInv(s, k) && TaskInv(s, k) && ListedInv(s, k);
    var t := Apply(s, a);
    if a.SetOk? || a.CheckOk? {
      if k != a.k && k in s.fate && k < a.k {
        assert PathOf(s.inbox, k) != PathOf(s.inbox, a.k);
      } else if k != a.k && k in s.fate {
        assert PathOf(s.inbox, a.k) != PathOf(s.inbox, k);
      }
    } else if a.Receive? && k < |s.inbox| && IsObject(t.inbox, k) && IsObject(t.inbox, |s.inbox|) {
      assert PathOf(t.inbox, k) != PathOf(t.inbox, |s.inbox|);
    }
  }

  lemma StepToComplete(s: Client, a: Action)
    requires TasksInv(s) && ToCompleteInv(s) && Enabled(s, a) && DistinctPaths(Apply(s, a).inbox)
    ensures ToCompleteInv(Apply(s, a))
  {
    var t := Apply(s, a);
    forall k: nat ensures ListedInv(t, k) {
      StepListed(s, a, k);
    }
    StepInbox(s, a);
    forall p | p in t.toComplete ensures exists k: nat :: NamedBy(t, p, k) {
      if p in s.toComplete {
        var k: nat :| NamedBy(s, p, k);
        assert NamedBy(t, p, k);
      } else {
        assert NamedBy(t, p, |s.inbox|);
      }
    }
  }

  // ----- what a fate records -------------------------------------------------------------------

  /** The steps that end an object's handling early. */
  predicate Fails(a: Action, k: nat) {
    a == CreateFails(k) || a == SetFails(k) || a == StreamFails(k) || a == CheckFails(k)
  }

  predicate Completes(a: Action, k: nat, hashed: bool) {
    a == CheckOk(k, hashed) || (a == SetOk(k) && !hashed)
  }

  predicate Succeeds(a: Action, k: nat) {
    Completes(a, k, true) || Completes(a, k, false)
  }

  /** The steps that end the handling of object `k` in this way. */
  predicate Writes(a: Action, k: nat, f: Fate) {
    match a
    case CreateFails(j) => j == k && f == Failed
    case SetFails(j) => j == k && f == Failed
    case StreamFails(j) => j == k && f == Failed
    case CheckFails(j) => j == k && f == Failed
    case SetOk(j) => j == k && f == Complete(false)
    case CheckOk(j, hashed) => j == k && f == Complete(hashed)
    case _ => false
  }

  predicate Ends(a: Action) {
    a.CreateFails? || a.SetFails? || a.StreamFails? || a.CheckFails? || a.SetOk? || a.CheckOk?
  }

  lemma EndingFates(s: Client, a: Action, f: Fate)
    requires Enabled(s, a) && Ends(a) && Writes(a, a.k, f)
    ensures Apply(s, a).fate == s.fate[a.k := f]
  {}

  lemma OtherFates(s: Client, a: Action)
    requires Enabled(s, a) && !Ends(a)
    ensures Apply(s, a).fate == s.fate || (a.Receive? && Apply(s, a).fate == s.fate[|s.inbox| := Open])
  {}

  /** A step that changes a fate changes an open one. */
  lemma StepEnds(s: Client, a: Action, k: nat)
    requires KnownInv(s, k) && TaskInv(s, k) && Enabled(s, a)
    requires Fails(a, k) || Succeeds(a, k)
    ensures HasFate(s, k, Open)
  {}

  /** Fates are final, and each is the trace of one step. */
  lemma StepEnded(s: Client, a: Action, k: nat, f: Fate)
    requires KnownInv(s, k) && TaskInv(s, k) && KnownInv(s, |s.inbox|) && Enabled(s, a) && f != Open
    ensures HasFate(Apply(s, a), k, f) <==> HasFate(s, k, f) || Writes(a, k, f)
  {
    if Ends(a) {
      var last := if a.SetOk? then Complete(false) else if a.CheckOk? then Complete(a.hashed) else Failed;
      EndingFates(s, a, last);
      if a.k == k {
        StepEnds(s, a, k);
      }
    } else {
      OtherFates(s, a);
    }
  }

  lemma StepFate(s: Client, a: Action, k: nat)
    requires KnownInv(s, k) && TaskInv(s, k) && KnownInv(s, |s.inbox|) && Enabled(s, a)
    ensures HasFate(Apply(s, a), k, Failed) <==> HasFate(s, k, Failed) || Fails(a, k)
  {
    StepEnded(s, a, k, Failed);
    assert Writes(a, k, Failed) <==> Fails(a, k);
  }

  lemma StepCompletes(s: Client, a: Action, k: nat, hashed: bool)
    requires KnownInv(s, k) && TaskInv(s, k) && KnownInv(s, |s.inbox|) && Enabled(s, a)
    ensures HasFate(Apply(s, a), k, Complete(hashed)) <==> HasFate(s, k, Complete(hashed)) || Completes(a, k, hashed)
  {
    StepEnded(s, a, k, Complete(hashed));
    assert Writes(a, k, Complete(hashed)) <==> Completes(a, k, hashed);
  }

  // ----- runs ----------------------------------------------------------------------------------

  predicate CanRun(s: Client, actions: seq<Action>)
    decreases |actions|
  {
    actions == [] || (Enabled(s, actions[0]) && CanRun(Apply(s, actions[0]), actions[1..]))
  }

  function Run(s: Client, actions: seq<Action>): Client
    requires CanRun(s, actions)
    decreases |actions|
  {
    if actions == [] then s else Run(Apply(s, actions[0]), actions[1..])
  }

  lemma FreshInv(workers: nat)
    ensures TasksInv(Fresh(workers)) && ToCompleteInv(Fresh(workers))
  {
    EmptyInv(workers);
  }

  lemma {:induction false} RunInbox(s: Client, actions: seq<Action>)
    requires CanRun(s, actions)
    ensures s.inbox <= Run(s, actions).inbox
    decreases |actions|
  {
    if actions != [] {
      StepInbox(s, actions[0]);
      RunInbox(Apply(s, actions[0]), actions[1..]);
    }
  }

  lemma DistinctPrefix(a: seq<Response>, b: seq<Response>)
    requires a <= b && DistinctPaths(b)
    ensures DistinctPaths(a)
  {
    forall j, k | 0 <= j < k < |a| && IsObject(a, j) && IsObject(a, k) ensures PathOf(a, j) != PathOf(a, k) {
      assert PathOf(b, j) != PathOf(b, k);
    }
  }

  lemma {:induction false} RunKeepsInv(s: Client, actions: seq<Action>)
    requires TasksInv(s) && ToCompleteInv(s) && CanRun(s, actions)
    requires DistinctPaths(Run(s, actions).inbox)
    ensures TasksInv(Run(s, actions)) && ToCompleteInv(Run(s, actions))
    decreases |actions|
  {
    if actions != [] {
      var t := Apply(s, actions[0]);
      RunInbox(t, actions[1..]);
      DistinctPrefix(t.inbox, Run(s, actions).inbox);
      StepTasks(s, actions[0]);
      StepToComplete(s, actions[0]);
      RunKeepsInv(t, actions[1..]);
    }
  }

  lemma FirstFails(actions: seq<Action>, k: nat)
    requires actions != []
    ensures (exists a | a in actions :: Fails(a, k))
      <==> Fails(actions[0], k) || exists a | a in actions[1..] :: Fails(a, k)
  {
    assert actions == [actions[0]] + actions[1..];
  }

  lemma {:induction false} RunFates(s: Client, actions: seq<Action>, k: nat)
    requires TasksInv(s) && CanRun(s, actions)
    ensures HasFate(Run(s, actions), k, Failed) <==> HasFate(s, k, Failed) || exists a | a in actions :: Fails(a, k)
    decreases |actions|
  {
    if actions != [] {
      StepTasks(s, actions[0]);
      assert KnownInv(s, k) && TaskInv(s, k) && KnownInv(s, |s.inbox|);
      StepFate(s, actions[0], k);
      RunFates(Apply(s, actions[0]), actions[1..], k);
      FirstFails(actions, k);
    }
  }

  lemma FirstCompletes(actions: seq<Action>, k: nat, hashed: bool)
    requires actions != []
    ensures (exists a | a in actions :: Completes(a, k, hashed))
      <==> Completes(actions[0], k, hashed) || exists a | a in actions[1..] :: Completes(a, k, hashed)
  {
    assert actions == [actions[0]] + actions[1..];
  }

  lemma {:induction false} RunCompletes(s: Client, actions: seq<Action>, k: nat, hashed: bool)
    requires TasksInv(s) && CanRun(s, actions)
    ensures HasFate(Run(s, actions), k, Complete(hashed))
      <==> HasFate(s, k, Complete(hashed)) || exists a | a in actions :: Completes(a, k, hashed)
    decreases |actions|
  {
    if actions != [] {
      StepTasks(s, actions[0]);
      assert KnownInv(s, k) && TaskInv(s, k) && KnownInv(s, |s.inbox|);
      StepCompletes(s, actions[0], k, hashed);
      RunCompletes(Apply(s, actions[0]), actions[1..], k, hashed);
      FirstCompletes(actions, k, hashed);
    }
  }

  /** Whatever the schedule: when the client has read `Finished` and its key wait has returned, no
      task is left, and the paths it reports are exactly those of the objects for which creation,
      streaming, the integrity check or setting metadata failed. */
  lemma ReportIsExact(workers: nat, actions: seq<Action>)
    requires CanRun(Fresh(workers), actions) && Run(Fresh(workers), actions).phase == Reported
    requires DistinctPaths(Run(Fresh(workers), actions).inbox)
    ensures var s := Run(Fresh(workers), actions);
      && s.pool.stage == map[] && s.inbox != [] && s.inbox[|s.inbox| - 1].Finished?
      && (forall k: nat | IsObject(s.inbox, k) ::
            PathOf(s.inbox, k) in s.toComplete <==> exists a | a in actions :: Fails(a, k))
      && (forall k: nat | IsObject(s.inbox, k) ::
            PathOf(s.inbox, k) !in s.toComplete <==> exists a | a in actions :: Succeeds(a, k))
      && (forall p | p in s.toComplete :: exists k: nat :: NamedBy(s, p, k))
  {
    FreshInv(workers);
    RunKeepsInv(Fresh(workers), actions);
    var s := Run(Fresh(workers), actions);
    forall k: nat | IsObject(s.inbox, k)
      ensures PathOf(s.inbox, k) in s.toComplete <==> exists a | a in actions :: Fails(a, k)
      ensures PathOf(s.inbox, k) !in s.toComplete
        <==> exists a | a in actions :: Succeeds(a, k)
    {
      RunFates(Fresh(workers), actions, k);
      RunCompletes(Fresh(workers), actions, k, true);
      RunCompletes(Fresh(workers), actions, k, false);
      assert KnownInv(s, k) && TaskInv(s, k) && ListedInv(s, k);
      assert HasFate(s, k, Failed) || HasFate(s, k, Complete(true)) || HasFate(s, k, Complete(false));
      assert HasFate(s, k, Complete(true)) || HasFate(s, k, Complete(false))
        <==> exists a | a in actions :: Succeeds(a, k);
    }
  }

  /** An integrity task goes on to complete its file whether it has compared a digest or found none. */
  lemma CheckCompletes(s: Client, k: nat, hashed: bool)
    requires Enabled(s, CheckOk(k, hashed))
    ensures var t := Apply(s, CheckOk(k, hashed));
      IsComplete(t, k) && PathOf(s.inbox, k) !in t.toComplete && Enabled(t, CheckReturns(k))
  {}

  // ----- progress ------------------------------------------------------------------------------

  /** Every task is a stream or an integrity task, and `Finished` is the last message read. */
  ghost predicate OwnInv(s: Client) {
    && (forall t | t in s.pool.finished :: OwnTask(t))
    && (s.pool.done <==> s.phase == Aborted)
    && (s.inbox != [] && s.inbox[|s.inbox| - 1].Finished? ==> s.phase == Waiting || s.phase == Reported)
  }

  lemma StepOwn(s: Client, a: Action)
    requires TasksInv(s) && OwnInv(s) && Enabled(s, a)
    ensures OwnInv(Apply(s, a)) && Apply(s, a).pool.workers == s.pool.workers
  {
    if a.Receive? {
      ReceiveOwn(s, a.message);
    } else if a.RemoveTask? {
      assert OwnTask(a.task);
    }
  }

  lemma ReceiveOwn(s: Client, m: Response)
    requires OwnInv(s) && Enabled(s, Receive(m))
    ensures OwnInv(Apply(s, Receive(m)))
  {}

  /** What the main thread has yet to do about the message it has read, */
  function Debt(p: Phase): nat {
    match p
    case Creating(_) => 3
    case Created(_) => 2
    case Setting(_) => 2
    case Enqueuing(_) => 1
    case _ => 0
  }

  /** or has done once there is nothing more to read. */
  function Bonus(p: Phase): nat {
    if p == Reported || p == Aborted || p == Crashed then 1 else 0
  }

  function Completed(s: Client): set<nat> {
    set k | k in s.fate && s.fate[k].Complete?
  }

  /** Grows with every step. */
  function Made(s: Client): int {
    4 * |s.inbox| - Debt(s.phase) + Bonus(s.phase) + Progress(s.pool) + |s.streamed| + |Completed(s)|
  }

  lemma StepsPool(s: Client, a: Action)
    requires Enabled(s, a)
    ensures Apply(s, a).pool == if PoolStep(a).Some? then WorkerPool.Apply(s.pool, PoolStep(a).value) else s.pool
  {}

  lemma StepPoolMade(s: Client, a: Action)
    requires WorkerPool.Inv(s.pool) && Enabled(s, a)
    ensures Progress(Apply(s, a).pool) == Progress(s.pool) + (if PoolStep(a).Some? && !a.ReceiveFails? then 1 else 0)
  {
    if a.ReceiveFails? {
      DoneKeepsProgress(s.pool);
    } else if PoolStep(a).Some? {
      StepProgress(s.pool, PoolStep(a).value);
    }
    StepsPool(s, a);
  }

  lemma StepMain(s: Client, a: Action)
    requires Enabled(s, a)
    ensures var t := Apply(s, a);
      var main := IsMain(a) && !a.PrepareStream? && !a.EnqueueStream?;
      4 * |s.inbox| - Debt(s.phase) + Bonus(s.phase) + (if main then 1 else 0)
        <= 4 * |t.inbox| - Debt(t.phase) + Bonus(t.phase)
  {}

  lemma StepStreamed(s: Client, a: Action)
    requires Enabled(s, a)
    ensures |Apply(s, a).streamed| == |s.streamed| + if a.StreamOk? then 1 else 0
  {}

  lemma StepCompleted(s: Client, a: Action)
    requires TasksInv(s) && Enabled(s, a)
    ensures |Completed(s)| + (if a.CheckOk? then 1 else 0) <= |Completed(Apply(s, a))|
  {
    if Ends(a) {
      var last := if a.SetOk? then Complete(false) else if a.CheckOk? then Complete(a.hashed) else Failed;
      EndsOpen(s, a);
      EndingFates(s, a, last);
      OneCompleted(s, Apply(s, a), a.k, last);
    } else {
      OtherFates(s, a);
      assert KnownInv(s, |s.inbox|);
      assert Completed(Apply(s, a)) == Completed(s);
    }
  }

  lemma OneCompleted(s: Client, t: Client, k: nat, f: Fate)
    requires HasFate(s, k, Open) && t.fate == s.fate[k := f]
    ensures |Completed(t)| == |Completed(s)| + if f.Complete? then 1 else 0
  {
    assert Completed(t) == Completed(s) + if f.Complete? then {k} else {};
  }

  lemma EndsOpen(s: Client, a: Action)
    requires TasksInv(s) && Enabled(s, a) && Ends(a)
    ensures HasFate(s, a.k, Open)
  {
    assert KnownInv(s, a.k) && TaskInv(s, a.k);
    StepEnds(s, a, a.k);
  }

  lemma StepMade(s: Client, a: Action)
    requires TasksInv(s) && Enabled(s, a)
    ensures Made(s) < Made(Apply(s, a))
  {
    StepPoolMade(s, a);
    StepMain(s, a);
    StepStreamed(s, a);
    StepCompleted(s, a);
  }

  function TasksOf(n: nat): set<Task> {
    if n == 0 then {} else TasksOf(n - 1) + {StreamTask(n - 1), CheckTask(n - 1)}
  }

  lemma {:induction false} CountTasks(n: nat)
    ensures |TasksOf(n)| <= 2 * n
    ensures forall k: nat | k < n :: StreamTask(k) in TasksOf(n) && CheckTask(k) in TasksOf(n)
  {
    if n > 0 {
      CountTasks(n - 1);
      assert |TasksOf(n)| <= |TasksOf(n - 1)| + |{StreamTask(n - 1), CheckTask(n - 1)}|;
    }
  }

  /** Every task is about a message that was read. */
  lemma TaskIsRead(s: Client, t: Task)
    requires TasksInv(s) && OwnInv(s) && Prepared(s.pool, t)
    ensures t.id < |s.inbox| && OwnTask(t)
  {
    assert OwnTask(t);
    assert KnownInv(s, t.id) && TaskInv(s, t.id);
  }

  lemma PoolIsBounded(s: Client)
    requires TasksInv(s) && OwnInv(s)
    ensures Progress(s.pool) <= 10 * |s.inbox|
  {
    var tasks := TasksOf(|s.inbox|);
    CountTasks(|s.inbox|);
    forall n: nat | 1 <= n <= 5 ensures |Reached(s.pool, n)| <= |tasks| {
      forall t | t in Reached(s.pool, n) ensures t in tasks {
        TaskIsRead(s, t);
      }
      Cardinality(Reached(s.pool, n), tasks);
    }
  }

  lemma MadeIsBounded(s: Client)
    requires TasksInv(s) && OwnInv(s)
    ensures Made(s) <= 16 * |s.inbox| + 1
  {
    PoolIsBounded(s);
    forall k | k in s.streamed ensures k < |s.inbox| {
      assert KnownInv(s, k) && TaskInv(s, k);
    }
    forall k | k in Completed(s) ensures k < |s.inbox| {
      assert KnownInv(s, k);
    }
    CountBelow(s.streamed, |s.inbox|);
    CountBelow(Completed(s), |s.inbox|);
  }

  lemma {:induction false} RunMade(s: Client, actions: seq<Action>)
    requires TasksInv(s) && OwnInv(s) && CanRun(s, actions)
    ensures var t := Run(s, actions);
      TasksInv(t) && OwnInv(t) && t.pool.workers == s.pool.workers && Made(s) + |actions| <= Made(t)
    decreases |actions|
  {
    if actions != [] {
      StepTasks(s, actions[0]);
      StepOwn(s, actions[0]);
      StepMade(s, actions[0]);
      RunMade(Apply(s, actions[0]), actions[1..]);
    }
  }

  /** Every run is bounded by the messages read. */
  lemma RunsAreBounded(workers: nat, actions: seq<Action>)
    requires CanRun(Fresh(workers), actions)
    ensures |actions| <= 16 * |Run(Fresh(workers), actions).inbox| + 1
  {
    FreshInv(workers);
    ProgressWhenIdle(Fresh(workers).pool);
    assert Completed(Fresh(workers)) == {};
    RunMade(Fresh(workers), actions);
    MadeIsBounded(Run(Fresh(workers), actions));
  }

  /** The steps that do not read from the connection, and do not need a file to arrive or to match. */
  predicate IsOwn(a: Action) {
    !a.Receive? && !a.ReceiveFails? && !a.StreamOk? && !a.CheckOk?
  }

  lemma StreamCanStep(s: Client, k: nat) returns (a: Action)
    requires TaskInv(s, k) && Running(s, StreamTask(k))
    ensures IsOwn(a) && Enabled(s, a)
  {
    var check := CheckTask(k);
    a := if k !in s.streamed then StreamFails(k)
         else if !Prepared(s.pool, check) then PrepareCheck(k)
         else if InStage(s.pool, check, Submitting) then EnqueueCheck(k)
         else StreamReturns(k);
  }

  lemma CheckCanStep(s: Client, k: nat) returns (a: Action)
    requires KnownInv(s, k) && TaskInv(s, k) && Running(s, CheckTask(k))
    requires k in s.streamed ==> k in s.fate
    ensures IsOwn(a) && Enabled(s, a)
  {
    a := if HasFate(s, k, Open) then CheckFails(k) else CheckReturns(k);
  }

  /** A task that a worker or a submitter holds can make a step; with `Submitting` it is its submitter. */
  lemma TaskCanStep(s: Client, t: Task) returns (a: Action)
    requires TasksInv(s) && t in s.pool.stage && s.pool.stage[t] != Queued
    ensures IsOwn(a) && Enabled(s, a)
  {
    assert OwnTask(t) && KnownInv(s, t.id) && TaskInv(s, t.id);
    match s.pool.stage[t]
    case Submitting => a := if t == StreamTask(t.id) then EnqueueStream(t.id) else EnqueueCheck(t.id);
    case Returning => a := RemoveTask(t);
    case Running =>
      if t == StreamTask(t.id) {
        a := StreamCanStep(s, t.id);
      } else {
        a := CheckCanStep(s, t.id);
      }
  }

  predicate Ended(s: Client) {
    s.phase == Reported || s.phase == Aborted || s.phase == Crashed
  }

  /** Unless it is reading or has ended, the client can make a step of its own. */
  lemma CanStep(s: Client) returns (a: Action)
    requires TasksInv(s) && OwnInv(s) && s.pool.workers > 0 && s.phase != Reading && !Ended(s)
    ensures IsOwn(a) && Enabled(s, a)
  {
    match s.phase
    case Creating(k) => a := CreateFails(k);
    case Created(k) =>
      assert KnownInv(s, k);
      a := PrepareStream(k);
    case Enqueuing(k) =>
      assert KnownInv(s, k);
      a := EnqueueStream(k);
    case Setting(k) => a := SetFails(k);
    case Waiting =>
      if Pending(s.pool, KEY) == 0 {
        a := WaitReturns;
      } else {
        ZeroMeansIdle(s.pool, KEY);
        a := InFlightCanStep(s);
      }
  }

  lemma InFlightCanStep(s: Client) returns (a: Action)
    requires TasksInv(s) && s.pool.workers > 0 && !s.pool.done && s.pool.stage != map[]
    ensures IsOwn(a) && Enabled(s, a)
  {
    if t :| t in s.pool.stage && s.pool.stage[t] != Queued {
      a := TaskCanStep(s, t);
    } else {
      assert s.pool.stage.Keys != {};
      var t := CanPop(s.pool);
      a := PopTask(t);
    }
  }

  /** So on every schedule a client with a worker that can only read has nothing in flight, unless its
      reading failed, when tasks may be left in the queue; and it has reported if `Finished` was read. */
  lemma MaximalRunHasReported(workers: nat, actions: seq<Action>)
    requires CanRun(Fresh(workers), actions) && workers > 0
    requires forall a | IsOwn(a) :: !Enabled(Run(Fresh(workers), actions), a)
    ensures var s := Run(Fresh(workers), actions);
      && (s.phase == Reading || Ended(s))
      && (forall t | t in s.pool.stage :: s.pool.stage[t] == Queued && s.phase == Aborted)
      && (s.inbox != [] && s.inbox[|s.inbox| - 1].Finished? ==> s.phase == Reported)
  {
    var s := Run(Fresh(workers), actions);
    FreshInv(workers);
    RunMade(Fresh(workers), actions);
    NothingToDo(s);
  }

  lemma NothingToDo(s: Client)
    requires TasksInv(s) && OwnInv(s) && s.pool.workers > 0 && forall a | IsOwn(a) :: !Enabled(s, a)
    ensures s.phase == Reading || Ended(s)
    ensures forall t | t in s.pool.stage :: s.pool.stage[t] == Queued && s.phase == Aborted
    ensures s.inbox != [] && s.inbox[|s.inbox| - 1].Finished? ==> s.phase == Reported
  {
    if s.phase != Reading && !Ended(s) {
      var a := CanStep(s);
    }
    if !s.pool.done && s.pool.stage != map[] {
      var a := InFlightCanStep(s);
    }
    forall t | t in s.pool.stage ensures s.pool.stage[t] == Queued {
      if s.pool.stage[t] != Queued {
        var a := TaskCanStep(s, t);
      }
    }
  }
}
