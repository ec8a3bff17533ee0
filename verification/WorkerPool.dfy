/**
 The worker pool with its submission keys.

 One transition per critical section: `WorkerPool::Submit` is two of them (a task is counted on
 its key first and queued later), and a task leaves its key in a third one after `Run` returned.
 The first half of the module is the pool as such, for any tasks submitted by anyone; the second
 half adds who submits what: a finite forest in which running tasks submit further tasks.
 */
module WorkerPool {
  import opened Wrappers

  /** Both ends have these two kinds of task. `id` tells those of one kind apart. */
  datatype Kind = Integrity | Stream

  datatype Task = Task(kind: Kind, id: nat, key: Option<nat>, priority: int)

  /** Where a task is between `AddPending` and `RemovePending`. */
  datatype Stage = Submitting | Queued | Running | Returning

  datatype Pool = Pool(
    workers: nat,
    pending: map<nat, int>,          // SubmissionKey::pending, by key
    stage: map<Task, Stage>,      // every task in flight
    finished: set<Task>,
    done: bool)

  datatype Step =
    | Prepare(task: Task)         // Task::Prepare: AddPending
    | Enqueue(task: Task)         // ThreadSafeTaskQueue::Submit
    | Pop(task: Task)             // ThreadSafeTaskQueue::WaitForTaskAndPop
    | Return(task: Task)          // Run returns
    | Remove(task: Task)          // RemovePending, deferred by Task::Execute
    | Done                           // ThreadSafeTaskQueue::Done

  function Empty(workers: nat): Pool {
    Pool(workers, map[], map[], {}, false)
  }

  function Pending(p: Pool, k: nat): int {
    if k in p.pending then p.pending[k] else 0
  }

  function AddTo(p: Pool, key: Option<nat>, n: int): map<nat, int> {
    match key
    case None => p.pending
    case Some(k) => p.pending[k := Pending(p, k) + n]
  }

  predicate InStage(p: Pool, t: Task, s: Stage) {
    t in p.stage && p.stage[t] == s
  }

  function OnKey(stage: map<Task, Stage>, k: nat): set<Task> {
    set t | t in stage && t.key == Some(k)
  }

  function InFlight(p: Pool, k: nat): set<Task> {
    OnKey(p.stage, k)
  }

  function Busy(p: Pool): set<Task> {
    set t | t in p.stage && (p.stage[t] == Running || p.stage[t] == Returning)
  }

  /** The comparator orders by priority alone, so the top of the queue is any task of the
      highest priority present. */
  predicate IsTop(p: Pool, t: Task) {
    InStage(p, t, Queued) && forall u | u in p.stage && p.stage[u] == Queued :: u.priority <= t.priority
  }

  predicate Enabled(p: Pool, s: Step) {
    match s
    case Prepare(t) => t !in p.stage && t !in p.finished
    case Enqueue(t) => InStage(p, t, Submitting)
    case Pop(t) => !p.done && IsTop(p, t) && |Busy(p)| < p.workers
    case Return(t) => InStage(p, t, Running)
    case Remove(t) => InStage(p, t, Returning)
    case Done => true
  }

  function Apply(p: Pool, s: Step): Pool {
    match s
    case Prepare(t) => p.(pending := AddTo(p, t.key, 1), stage := p.stage[t := Submitting])
    case Enqueue(t) => p.(stage := p.stage[t := Queued])
    case Pop(t) => p.(stage := p.stage[t := Running])
    case Return(t) => p.(stage := p.stage[t := Returning])
    case Remove(t) => p.(pending := AddTo(p, t.key, -1), stage := p.stage - {t}, finished := p.finished + {t})
    case Done => p.(done := true)
  }

  /** Every key counts exactly its tasks in flight. */
  ghost predicate Inv(p: Pool) {
    && (forall k: nat :: Pending(p, k) == |InFlight(p, k)|)
    && p.finished !! p.stage.Keys
    && |Busy(p)| <= p.workers
  }

  lemma EmptyInv(workers: nat)
    ensures Inv(Empty(workers))
  {
    var p := Empty(workers);
    forall k: nat ensures Pending(p, k) == |InFlight(p, k)| {
      assert InFlight(p, k) == {};
    }
    assert Busy(p) == {};
  }

  lemma OnKeyPut(stage: map<Task, Stage>, t: Task, to: Stage, k: nat)
    ensures OnKey(stage[t := to], k) == OnKey(stage, k) + if t.key == Some(k) then {t} else {}
    ensures t in stage ==> OnKey(stage[t := to], k) == OnKey(stage, k)
  {}

  lemma OnKeyDrop(stage: map<Task, Stage>, t: Task, k: nat)
    ensures OnKey(stage - {t}, k) == OnKey(stage, k) - {t}
  {}

  lemma PrepareCounts(p: Pool, t: Task, k: nat)
    requires t !in p.stage && Pending(p, k) == |InFlight(p, k)|
    ensures Pending(Apply(p, Prepare(t)), k) == |InFlight(Apply(p, Prepare(t)), k)|
  {
    OnKeyPut(p.stage, t, Submitting, k);
    assert t !in InFlight(p, k);
  }

  lemma RemoveCounts(p: Pool, t: Task, k: nat)
    requires t in p.stage && Pending(p, k) == |InFlight(p, k)|
    ensures Pending(Apply(p, Remove(t)), k) == |InFlight(Apply(p, Remove(t)), k)|
  {
    OnKeyDrop(p.stage, t, k);
    assert t in InFlight(p, k) <==> t.key == Some(k);
  }

  /** The other steps move a task from one stage to the next. */
  lemma MoveCounts(p: Pool, t: Task, to: Stage, k: nat)
    requires t in p.stage && Pending(p, k) == |InFlight(p, k)|
    ensures Pending(p, k) == |OnKey(p.stage[t := to], k)|
  {
    OnKeyPut(p.stage, t, to, k);
  }

  lemma StepCounts(p: Pool, s: Step, k: nat)
    requires Enabled(p, s) && Pending(p, k) == |InFlight(p, k)|
    ensures Pending(Apply(p, s), k) == |InFlight(Apply(p, s), k)|
  {
    match s
    case Prepare(t) => PrepareCounts(p, t, k);
    case Enqueue(t) => MoveCounts(p, t, Queued, k);
    case Pop(t) => MoveCounts(p, t, Running, k);
    case Return(t) => MoveCounts(p, t, Returning, k);
    case Remove(t) => RemoveCounts(p, t, k);
    case Done =>
  }

  /** A step is about one task. */
  lemma OtherStays(p: Pool, s: Step, t: Task)
    requires Enabled(p, s) && (s.Done? || t != s.task)
    ensures var q := Apply(p, s);
      && (t in q.stage <==> t in p.stage) && (t in p.stage ==> q.stage[t] == p.stage[t])
      && (t in q.finished <==> t in p.finished)
  {}

  lemma StepBusy(p: Pool, s: Step)
    requires Enabled(p, s) && |Busy(p)| <= p.workers
    ensures |Busy(Apply(p, s))| <= p.workers
  {
    var q := Apply(p, s);
    if s.Pop? {
      assert Busy(q) == Busy(p) + {s.task};
    } else if s.Remove? {
      assert s.task in Busy(p);
      assert Busy(q) == Busy(p) - {s.task};
    } else {
      assert Busy(q) == Busy(p);
    }
  }

  lemma StepInv(p: Pool, s: Step)
    requires Inv(p) && Enabled(p, s)
    ensures Inv(Apply(p, s))
  {
    forall k: nat ensures Pending(Apply(p, s), k) == |InFlight(Apply(p, s), k)| {
      StepCounts(p, s, k);
    }
    StepBusy(p, s);
  }

  predicate CanRun(p: Pool, steps: seq<Step>)
    decreases |steps|
  {
    steps == [] || (Enabled(p, steps[0]) && CanRun(Apply(p, steps[0]), steps[1..]))
  }

  function Run(p: Pool, steps: seq<Step>): Pool
    decreases |steps|
  {
    if steps == [] then p else Run(Apply(p, steps[0]), steps[1..])
  }

  /** In every reachable state a key's counter is the number of its tasks that are mid-submission,
      queued or running; in particular it is never negative, and at zero none of them is left. */
  lemma {:induction false} PendingCountsInFlight(workers: nat, steps: seq<Step>, k: nat)
    requires CanRun(Empty(workers), steps)
    ensures var p := Run(Empty(workers), steps);
      && Pending(p, k) == |InFlight(p, k)|
      && 0 <= Pending(p, k)
      && (Pending(p, k) == 0 <==> forall t | t in p.stage :: t.key != Some(k))
  {
    EmptyInv(workers);
    RunInv(Empty(workers), steps);
    ZeroMeansIdle(Run(Empty(workers), steps), k);
  }

  lemma {:induction false} RunInv(p: Pool, steps: seq<Step>)
    requires Inv(p) && CanRun(p, steps)
    ensures Inv(Run(p, steps))
    decreases |steps|
  {
    if steps != [] {
      StepInv(p, steps[0]);
      RunInv(Apply(p, steps[0]), steps[1..]);
    }
  }

  lemma ZeroMeansIdle(p: Pool, k: nat)
    requires Inv(p)
    ensures Pending(p, k) == 0 <==> forall t | t in p.stage :: t.key != Some(k)
  {
    if t :| t in p.stage && t.key == Some(k) {
      assert t in InFlight(p, k);
    } else {
      assert InFlight(p, k) == {};
    }
  }

  /** Once `Done` is set nothing is popped, so a key with a queued task stays above zero. */
  lemma {:induction false} QueuedAfterDoneStays(p: Pool, t: Task, k: nat, steps: seq<Step>)
    requires Inv(p) && p.done && InStage(p, t, Queued) && t.key == Some(k)
    requires CanRun(p, steps)
    ensures InStage(Run(p, steps), t, Queued) && Pending(Run(p, steps), k) > 0
    decreases |steps|
  {
    if steps == [] {
      assert t in InFlight(p, k);
    } else {
      StepInv(p, steps[0]);
      QueuedAfterDoneStays(Apply(p, steps[0]), t, k, steps[1..]);
    }
  }

  // ---------------------------------------------------------------------------------------------
  // Who submits what
  // ---------------------------------------------------------------------------------------------

  /** Who submits a task: a thread outside the pool, or the `Run` of another task. */
  datatype Submitter = Thread(number: nat) | Parent(task: Task)

  /** `place` is a position in the submitter's order of submission. */
  datatype Node = Node(src: Submitter, place: nat, depth: nat)

  type Forest = map<Task, Node>

  /** Submitters are sequential, and spawning is well founded. */
  ghost predicate IsForest(f: Forest) {
    && (forall t | t in f && f[t].src.Parent? :: f[t].src.task in f && f[f[t].src.task].depth < f[t].depth)
    && (forall t, u | t in f && u in f && f[t].src == f[u].src && f[t].place == f[u].place :: t == u)
  }

  function SubmittedBy(f: Forest, src: Submitter): set<Task> {
    set t | t in f && f[t].src == src
  }

  function Before(f: Forest, t: Task): set<Task>
    requires t in f
  {
    set u | u in f && f[u].src == f[t].src && f[u].place < f[t].place
  }

  predicate Prepared(p: Pool, t: Task) {
    t in p.stage || t in p.finished
  }

  predicate Enqueued(p: Pool, t: Task) {
    t in p.finished || (t in p.stage && p.stage[t] != Submitting)
  }

  predicate AllEnqueued(p: Pool, ts: set<Task>) {
    forall t | t in ts :: Enqueued(p, t)
  }

  /** A submission starts when the submitter's previous ones are in the queue, and a task returns
      when it has made all of its own. */
  predicate ForestEnabled(f: Forest, p: Pool, s: Step) {
    && Enabled(p, s)
    && (s.Prepare? ==>
          && s.task in f
          && (f[s.task].src.Parent? ==> InStage(p, f[s.task].src.task, Running))
          && AllEnqueued(p, Before(f, s.task)))
    && (s.Return? ==> AllEnqueued(p, SubmittedBy(f, Parent(s.task))))
  }

  /** A task that has returned has queued everything it submits. */
  ghost predicate ReturnedInv(f: Forest, p: Pool) {
    && p.stage.Keys <= f.Keys && p.finished <= f.Keys
    && (forall t | t in p.finished :: AllEnqueued(p, SubmittedBy(f, Parent(t))))
    && (forall t | InStage(p, t, Returning) :: AllEnqueued(p, SubmittedBy(f, Parent(t))))
  }

  ghost predicate ForestInv(f: Forest, p: Pool) {
    IsForest(f) && Inv(p) && ReturnedInv(f, p)
  }

  lemma EnqueuedStays(p: Pool, s: Step, ts: set<Task>)
    requires Enabled(p, s) && AllEnqueued(p, ts)
    ensures AllEnqueued(Apply(p, s), ts)
  {
    forall t | t in ts ensures Enqueued(Apply(p, s), t) {
      assert Enqueued(p, t);
    }
  }

  lemma ForestStepInv(f: Forest, p: Pool, s: Step)
    requires ForestInv(f, p) && ForestEnabled(f, p, s)
    ensures ForestInv(f, Apply(p, s))
  {
    StepInv(p, s);
    var q := Apply(p, s);
    forall t | t in q.finished || InStage(q, t, Returning)
      ensures AllEnqueued(q, SubmittedBy(f, Parent(t)))
    {
      EnqueuedStays(p, s, SubmittedBy(f, Parent(t)));
    }
  }

  /** `t` is in the spawn tree below `r`. */
  ghost predicate Below(f: Forest, r: Task, t: Task)
    requires IsForest(f) && t in f
    decreases f[t].depth
  {
    t == r || (f[t].src.Parent? && Below(f, r, f[t].src.task))
  }

  /** A submitted task keeps its key above zero until its whole spawn tree has finished, although
      the tree's tasks are submitted one by one, in two critical sections each. */
  lemma {:induction false} ZeroMeansTreeFinished(f: Forest, p: Pool, r: Task, t: Task, k: nat)
    requires ForestInv(f, p) && t in f && Prepared(p, r) && Below(f, r, t)
    requires forall u | u in f && Below(f, r, u) :: u.key == Some(k)
    requires Pending(p, k) == 0
    ensures t in p.finished
    decreases f[t].depth
  {
    ZeroMeansIdle(p, k);
    if t != r {
      var u := f[t].src.task;
      ZeroMeansTreeFinished(f, p, r, u, k);
      assert t in SubmittedBy(f, Parent(u));
      assert Enqueued(p, t);
    }
  }

  predicate CanRunForest(f: Forest, p: Pool, steps: seq<Step>)
    decreases |steps|
  {
    steps == [] || (ForestEnabled(f, p, steps[0]) && CanRunForest(f, Apply(p, steps[0]), steps[1..]))
  }

  lemma {:induction false} ForestRunInv(f: Forest, p: Pool, steps: seq<Step>)
    requires ForestInv(f, p) && CanRunForest(f, p, steps)
    ensures ForestInv(f, Run(p, steps))
    decreases |steps|
  {
    if steps != [] {
      ForestStepInv(f, p, steps[0]);
      ForestRunInv(f, Apply(p, steps[0]), steps[1..]);
    }
  }

  /** The same over whole runs: in every state a pool can reach from empty, while some task of a
      submitted tree on key `k` is unfinished, `WaitForPending` on `k` does not return. */
  lemma WaitCoversSpawnTree(f: Forest, workers: nat, steps: seq<Step>, r: Task, k: nat)
    requires IsForest(f) && CanRunForest(f, Empty(workers), steps)
    requires r in f && Prepared(Run(Empty(workers), steps), r)
    requires forall u | u in f && Below(f, r, u) :: u.key == Some(k)
    ensures var p := Run(Empty(workers), steps);
      forall t | t in f && Below(f, r, t) && t !in p.finished :: Pending(p, k) > 0
  {
    var p := Run(Empty(workers), steps);
    EmptyInv(workers);
    ForestRunInv(f, Empty(workers), steps);
    forall t | t in f && Below(f, r, t) && t !in p.finished ensures Pending(p, k) > 0 {
      if Pending(p, k) == 0 {
        ZeroMeansTreeFinished(f, p, r, t, k);
      }
    }
  }

  // ---------------------------------------------------------------------------------------------
  // Progress
  // ---------------------------------------------------------------------------------------------

  function StageRank(s: Stage): nat {
    match s
    case Submitting => 1
    case Queued => 2
    case Running => 3
    case Returning => 4
  }

  function Reached(p: Pool, n: nat): set<Task> {
    p.finished + set t | t in p.stage && n <= StageRank(p.stage[t])
  }

  /** How many steps have been made: five per task, one for each transition of its life. */
  function Progress(p: Pool): nat {
    |Reached(p, 1)| + |Reached(p, 2)| + |Reached(p, 3)| + |Reached(p, 4)| + |Reached(p, 5)|
  }

  function NewRank(s: Step): nat
    requires !s.Done?
  {
    match s
    case Prepare(_) => 1
    case Enqueue(_) => 2
    case Pop(_) => 3
    case Return(_) => 4
    case Remove(_) => 5
  }

  lemma ReachedBy(p: Pool, s: Step, n: nat, u: Task)
    requires p.finished !! p.stage.Keys && Enabled(p, s) && !s.Done? && 1 <= n <= 5
    ensures u in Reached(Apply(p, s), n) <==> u in Reached(p, n) || (u == s.task && n == NewRank(s))
    ensures n == NewRank(s) ==> s.task !in Reached(p, n)
  {
    match s {
      case Prepare(t) =>
      case Enqueue(t) =>
      case Pop(t) =>
      case Return(t) =>
      case Remove(t) =>
    }
  }

  lemma StepReached(p: Pool, s: Step, n: nat)
    requires p.finished !! p.stage.Keys && Enabled(p, s) && !s.Done? && 1 <= n <= 5
    ensures |Reached(Apply(p, s), n)| == |Reached(p, n)| + (if n == NewRank(s) then 1 else 0)
  {
    var now, was, new' := Reached(Apply(p, s), n), Reached(p, n), if n == NewRank(s) then {s.task} else {};
    forall u: Task ensures u in now <==> u in was + new' {
      ReachedBy(p, s, n, u);
    }
    ReachedBy(p, s, n, s.task);
    assert now == was + new';
  }

  lemma StepProgress(p: Pool, s: Step)
    requires Inv(p) && Enabled(p, s) && !s.Done?
    ensures Progress(Apply(p, s)) == Progress(p) + 1
  {
    StepReached(p, s, 1);
    StepReached(p, s, 2);
    StepReached(p, s, 3);
    StepReached(p, s, 4);
    StepReached(p, s, 5);
  }

  lemma DoneKeepsProgress(p: Pool)
    ensures Progress(Apply(p, Done)) == Progress(p)
  {
    forall n: nat ensures Reached(Apply(p, Done), n) == Reached(p, n) {}
  }

  /** The measure: every step but `Done` uses up one of the at most five steps per task. */
  lemma {:induction false} RunsAreBounded(f: Forest, p: Pool, steps: seq<Step>)
    requires ForestInv(f, p) && CanRunForest(f, p, steps)
    requires forall s | s in steps :: !s.Done?
    ensures Progress(Run(p, steps)) == Progress(p) + |steps| <= 5 * |f|
    decreases |steps|
  {
    if steps == [] {
      forall n: nat ensures |Reached(p, n)| <= |f.Keys| {
        Cardinality(Reached(p, n), f.Keys);
      }
    } else {
      StepProgress(p, steps[0]);
      ForestStepInv(f, p, steps[0]);
      RunsAreBounded(f, Apply(p, steps[0]), steps[1..]);
    }
  }

  lemma Cardinality<T>(a: set<T>, b: set<T>)
    requires a <= b
    ensures |a| <= |b|
  {
    if x :| x in a {
      Cardinality(a - {x}, b - {x});
    }
  }

  lemma {:induction false} CountBelow(numbers: set<nat>, n: nat)
    requires forall i | i in numbers :: i < n
    ensures |numbers| <= n && ((forall i: nat | i < n :: i in numbers) ==> |numbers| == n)
    decreases n
  {
    if n == 0 {
      assert numbers == {};
    } else {
      CountBelow(numbers - {n - 1}, n - 1);
      assert n - 1 in numbers ==> numbers == numbers - {n - 1} + {n - 1};
      assert n - 1 !in numbers ==> numbers == numbers - {n - 1};
    }
  }

  /** No step can be taken, other than setting `Done`. */
  ghost predicate Quiescent(f: Forest, p: Pool)
  {
    forall s: Step | !s.Done? :: !ForestEnabled(f, p, s)
  }

  /** With a worker and without `Done`, a pool that can make no step has finished every task and
      every key is back at zero. */
  lemma QuiescentMeansFinished(f: Forest, p: Pool)
    requires ForestInv(f, p) && Quiescent(f, p) && !p.done && p.workers > 0
    ensures p.finished == f.Keys && p.stage == map[]
    ensures forall k: nat :: Pending(p, k) == 0
  {
    NothingInFlight(f, p);
    forall t | t in f ensures t in p.finished { NothingUnsubmitted(f, p, t); }
    forall k: nat ensures Pending(p, k) == 0 { ZeroMeansIdle(p, k); }
  }

  lemma NothingInFlight(f: Forest, p: Pool)
    requires ForestInv(f, p) && Quiescent(f, p) && !p.done && p.workers > 0
    ensures p.stage == map[]
  {
    forall t | t in p.stage ensures p.stage[t] == Queued {
      assert !ForestEnabled(f, p, Enqueue(t));
      assert !ForestEnabled(f, p, Remove(t));
      NothingRunning(f, p, t);
    }
    if p.stage.Keys != {} {
      var t := CanPop(p);
      Stuck(f, p, Pop(t));
    }
  }

  lemma Stuck(f: Forest, p: Pool, s: Step)
    requires Quiescent(f, p) && !s.Done?
    ensures !ForestEnabled(f, p, s)
  {}

  lemma CanPop(p: Pool) returns (t: Task)
    requires p.stage.Keys != {} && !p.done && p.workers > 0
    requires forall u | u in p.stage :: p.stage[u] == Queued
    ensures Enabled(p, Pop(t))
  {
    assert Busy(p) == {};
    t := Top(p.stage.Keys);
  }

  lemma NothingRunning(f: Forest, p: Pool, t: Task)
    requires Quiescent(f, p)
    ensures !InStage(p, t, Running)
  {
    if InStage(p, t, Running) {
      assert !ForestEnabled(f, p, Return(t));
      NextSubmission(f, p, Parent(t));
    }
  }

  /** A submitter that may submit, and has not queued all it submits, can make a step. */
  lemma NextSubmission(f: Forest, p: Pool, src: Submitter)
    requires Quiescent(f, p)
    requires src.Parent? ==> InStage(p, src.task, Running)
    ensures AllEnqueued(p, SubmittedBy(f, src))
  {
    var left := set t | t in SubmittedBy(f, src) && !Enqueued(p, t);
    if left != {} {
      var t := First(f, left);
      assert AllEnqueued(p, Before(f, t));
      Stuck(f, p, Prepare(t));
      Stuck(f, p, Enqueue(t));
    }
    assert forall t | t in SubmittedBy(f, src) :: t !in left;
  }

  lemma First(f: Forest, ts: set<Task>) returns (t: Task)
    requires ts != {} && ts <= f.Keys
    ensures t in ts && forall u | u in ts :: f[t].place <= f[u].place
  {
    t :| t in ts;
    if ts != {t} {
      var u := First(f, ts - {t});
      t := if f[t].place <= f[u].place then t else u;
    }
  }

  lemma Top(ts: set<Task>) returns (t: Task)
    requires ts != {}
    ensures t in ts && forall u | u in ts :: u.priority <= t.priority
  {
    t :| t in ts;
    if ts != {t} {
      var u := Top(ts - {t});
      t := if u.priority <= t.priority then t else u;
    }
  }

  lemma {:induction false} NothingUnsubmitted(f: Forest, p: Pool, t: Task)
    requires ForestInv(f, p) && Quiescent(f, p) && p.stage == map[] && t in f
    ensures t in p.finished
    decreases f[t].depth
  {
    var src := f[t].src;
    if src.Parent? {
      NothingUnsubmitted(f, p, src.task);
    } else {
      NextSubmission(f, p, src);
    }
    assert t in SubmittedBy(f, src);
    assert Enqueued(p, t);
  }

  /** So a run from the empty pool that cannot be extended has taken exactly five steps per task,
      whatever the schedule. */
  lemma MaximalRunLength(f: Forest, workers: nat, steps: seq<Step>)
    requires IsForest(f) && workers > 0
    requires CanRunForest(f, Empty(workers), steps)
    requires forall s | s in steps :: !s.Done?
    requires Quiescent(f, Run(Empty(workers), steps))
    ensures |steps| == 5 * |f|
  {
    var e := Empty(workers);
    EmptyInv(workers);
    RunsAreBounded(f, e, steps);
    ForestRunInv(f, e, steps);
    WorkersConstant(e, steps);
    QuiescentMeansFinished(f, Run(e, steps));
    ProgressWhenIdle(e);
    ProgressWhenIdle(Run(e, steps));
    assert |f.Keys| == |f|;
  }

  lemma ProgressWhenIdle(p: Pool)
    requires p.stage == map[]
    ensures Progress(p) == 5 * |p.finished|
  {
    forall n: nat | 1 <= n <= 5 ensures Reached(p, n) == p.finished {}
  }

  lemma {:induction false} WorkersConstant(p: Pool, steps: seq<Step>)
    requires forall s | s in steps :: !s.Done?
    ensures Run(p, steps).workers == p.workers && Run(p, steps).done == p.done
    decreases |steps|
  {
    if steps != [] {
      WorkersConstant(Apply(p, steps[0]), steps[1..]);
    }
  }

  // ---------------------------------------------------------------------------------------------
  // The pool as an object
  // ---------------------------------------------------------------------------------------------

  /** The pool's fields, updated in place under their mutexes. `stage` and `finished` only say
      where a task is; the code itself keeps `pending`, `queue` and `done`. */
  class ThreadPool {
    const workers: nat
    var pending: map<nat, int>
    var queue: seq<Task>
    var done: bool
    ghost var stage: map<Task, Stage>
    ghost var finished: set<Task>

    ghost function State(): Pool
      reads this
    {
      Pool(workers, pending, stage, finished, done)
    }

    ghost predicate Valid()
      reads this
    {
      && Inv(State())
      && (forall t | t in queue :: InStage(State(), t, Queued))
      && (forall t | t in stage && stage[t] == Queued :: t in queue)
      && (forall i, j | 0 <= i < j < |queue| :: queue[i] != queue[j])
    }

    constructor (workers: nat)
      ensures Valid() && State() == Empty(workers)
    {
      this.workers := workers;
      pending, queue, done, stage, finished := map[], [], false, map[], {};
      new;
      EmptyInv(workers);
    }

    method Prepare(t: Task)
      requires Valid() && Enabled(State(), Step.Prepare(t))
      modifies this
      ensures Valid() && State() == Apply(old(State()), Step.Prepare(t))
    {
      StepInv(State(), Step.Prepare(t));
      if t.key.Some? {
        var k := t.key.value;
        pending := pending[k := (if k in pending then pending[k] else 0) + 1];
      }
      stage := stage[t := Submitting];
    }

    method Enqueue(t: Task)
      requires Valid() && Enabled(State(), Step.Enqueue(t))
      modifies this
      ensures Valid() && State() == Apply(old(State()), Step.Enqueue(t))
    {
      StepInv(State(), Step.Enqueue(t));
      assert t !in queue;
      queue := queue + [t];
      stage := stage[t := Queued];
    }

    /** Called by an idle worker when the queue's condition holds. */
    method WaitForTaskAndPop() returns (r: Option<Task>)
      requires Valid() && (queue != [] || done) && |Busy(State())| < workers
      modifies this
      ensures Valid()
      ensures old(done) ==> r.None? && State() == old(State())
      ensures !old(done) ==> r.Some? && Enabled(old(State()), Step.Pop(r.value))
      ensures !old(done) ==> State() == Apply(old(State()), Step.Pop(r.value))
      ensures r.Some? ==> r.value in old(queue) && r.value !in queue
      ensures r.Some? ==> forall u | u in old(queue) :: u.priority <= r.value.priority && (u in queue || u == r.value)
    {
      if done {
        return None;
      }
      HasTop(queue);
      var i :| TopOf(queue, i);
      var t := queue[i];
      assert IsTop(State(), t);
      StepInv(State(), Step.Pop(t));
      ghost var was := queue;
      queue := queue[..i] + queue[i + 1..];
      stage := stage[t := Running];
      RemovedAt(was, i);
      return Some(t);
    }

    method RemovePending(t: Task)
      requires Valid() && Enabled(State(), Step.Remove(t))
      modifies this
      ensures Valid() && State() == Apply(old(State()), Step.Remove(t))
    {
      StepInv(State(), Step.Remove(t));
      if t.key.Some? {
        var k := t.key.value;
        pending := pending[k := (if k in pending then pending[k] else 0) - 1];
      }
      stage, finished := stage - {t}, finished + {t};
    }

    method Done()
      requires Valid()
      modifies this
      ensures Valid() && State() == Apply(old(State()), Step.Done)
    {
      StepInv(State(), Step.Done);
      done := true;
    }
  }

  predicate TopOf(q: seq<Task>, i: int) {
    0 <= i < |q| && forall u | u in q :: u.priority <= q[i].priority
  }

  lemma HasTop(q: seq<Task>)
    requires q != []
    ensures exists i :: TopOf(q, i)
  {
    var all := set u | u in q;
    assert q[0] in all;
    var t := Top(all);
    var i :| 0 <= i < |q| && q[i] == t;
    assert TopOf(q, i);
  }

  lemma RemovedAt(q: seq<Task>, i: nat)
    requires i < |q| && forall a, b | 0 <= a < b < |q| :: q[a] != q[b]
    ensures var r := q[..i] + q[i + 1..];
      && (forall u :: u in r <==> u in q && u != q[i])
      && (forall a, b | 0 <= a < b < |r| :: r[a] != r[b])
  {
    var r := q[..i] + q[i + 1..];
    forall u | u in q && u != q[i] ensures u in r {
      var j :| 0 <= j < |q| && q[j] == u;
      assert r[if j < i then j else j - 1] == u;
    }
  }
}
