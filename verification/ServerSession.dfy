/**
 One session of the server: the thread that crawls and sends, and the hash tasks it submits to the
 pool on the session's own key. A step is one critical section or one message.
 */
module ServerSession {
  import opened FastCrawler
  import Strings
  import opened Messages
  import opened Wrappers
  import opened WorkerPool

  datatype Phase =
    | Starting
    | Crawling      // about to handle the next object of the crawl, if any
    | Ticketed      // the ticket of the current file is out, its task not yet counted
    | Prepared      // counted on the key, not yet queued
    | Draining      // the crawl is over: waiting for the key
    | Closed        // the thread has returned

  /** What has become of an object the crawl has reached. */
  datatype Fate = Skipped | Hashing | Announced | Unhashed

  /** Indices are positions in the crawl. `sent` lists what went out over the working connection,
      `broken` is set once a send has failed. */
  datatype Server = Server(
    phase: Phase,
    pos: nat,
    total: nat,
    fate: map<nat, Fate>,
    numbers: map<nat, nat>,
    tickets: map<nat, nat>,
    pool: Pool,
    sent: seq<nat>,
    out: seq<Response>,
    broken: bool)

  datatype Action =
    | SendStarted
    | Reject
    | Skip                  // IsCompleted said yes
    | AnnounceNow           // a directory or symlink
    | TakeTicket(id: nat)
    | PrepareHash
    | EnqueueHash
    | EndCrawl
    | PopHash(index: nat)
    | HashOk(index: nat)    // digest set and message sent
    | HashFails(index: nat)
    | RemoveHash(index: nat)
    | SendFinished
    | Break

  /** What a session is about: its job's id, what it crawls, and the digest function. */
  datatype Scope = Scope(job: string, objects: seq<Object>, hash: seq<bv8> -> int)

  const KEY: nat := 0

  function Fresh(workers: nat): Server {
    Server(Starting, 0, 0, map[], map[], map[], Empty(workers), [], [], false)
  }

  function HashTask(i: nat): Task {
    Task(Integrity, i, Some(KEY), 0)
  }

  predicate IsFile(c: Scope, i: nat) {
    i < |c.objects| && c.objects[i].kind == Regular
  }

  predicate HasFate(s: Server, i: nat, f: Fate) {
    i in s.fate && s.fate[i] == f
  }

  /** Everything a message about object `i` is made of is there. */
  predicate CanDescribe(c: Scope, s: Server, i: nat) {
    i < |c.objects| && i in s.numbers && (IsFile(c, i) ==> i in s.tickets)
  }

  function Message(c: Scope, s: Server, i: nat): PullObject
    requires CanDescribe(c, s, i)
  {
    var o := c.objects[i];
    PullObject(s.numbers[i], RelativePath(o), o.kind,
               if o.kind == Regular
               then Some(Transfer(c.hash(o.content), Int32(|o.content|), s.tickets[i]))
               else None)
  }

  /** The pool step an action makes, if any. */
  function PoolStep(s: Server, a: Action): Option<Step> {
    match a
    case PrepareHash => Some(Prepare(HashTask(s.pos)))
    case EnqueueHash => Some(Enqueue(HashTask(s.pos)))
    case PopHash(i) => Some(Pop(HashTask(i)))
    case HashOk(i) => Some(Return(HashTask(i)))
    case HashFails(i) => Some(Return(HashTask(i)))
    case RemoveHash(i) => Some(Remove(HashTask(i)))
    case _ => None
  }

  predicate Enabled(c: Scope, s: Server, a: Action) {
    && (PoolStep(s, a).Some? ==> WorkerPool.Enabled(s.pool, PoolStep(s, a).value))
    && match a
       case SendStarted => s.phase == Starting
       case Reject => s.phase == Starting
       case Skip => s.phase == Crawling && s.pos < |c.objects|
       case AnnounceNow => s.phase == Crawling && s.pos < |c.objects| && !IsFile(c, s.pos)
       case TakeTicket(_) => s.phase == Crawling && IsFile(c, s.pos)
       case PrepareHash => s.phase == Ticketed
       case EnqueueHash => s.phase == Prepared
       case EndCrawl => s.phase == Crawling && s.pos == |c.objects|
       case HashOk(i) => CanDescribe(c, s, i)
       case SendFinished => s.phase == Draining && Pending(s.pool, KEY) == 0
       case _ => true
  }

  /** Counts the current object and gives it its number. */
  function Numbered(s: Server, f: Fate): Server {
    s.(total := s.total + 1, numbers := s.numbers[s.pos := s.total + 1], fate := s.fate[s.pos := f])
  }

  /** Sends the message about object `i`; on a broken connection it is lost. */
  function Send(c: Scope, s: Server, i: nat): Server
    requires CanDescribe(c, s, i)
  {
    if s.broken then s else s.(sent := s.sent + [i], out := s.out + [Response.Object(Message(c, s, i))])
  }

  function WithPool(s: Server, a: Action): Server {
    if PoolStep(s, a).Some? then s.(pool := WorkerPool.Apply(s.pool, PoolStep(s, a).value)) else s
  }

  function Apply(c: Scope, s: Server, a: Action): Server
    requires Enabled(c, s, a)
  {
    var t := WithPool(s, a);
    match a
    case SendStarted => if s.broken then s.(phase := Closed) else s.(phase := Crawling, out := s.out + [Started(c.job)])
    case Reject => s.(phase := Closed, out := if s.broken then s.out else s.out + [Error])
    case Skip => s.(fate := s.fate[s.pos := Skipped], pos := s.pos + 1)
    case AnnounceNow => Send(c, Numbered(s, Announced), s.pos).(pos := s.pos + 1)
    case TakeTicket(id) => Numbered(s, Hashing).(tickets := s.tickets[s.pos := id], phase := Ticketed)
    case PrepareHash => t.(phase := Prepared)
    case EnqueueHash => t.(phase := Crawling, pos := s.pos + 1)
    case EndCrawl => s.(phase := Draining)
    case PopHash(i) => t
    case HashOk(i) => Send(c, t, i).(fate := s.fate[i := Announced])
    case HashFails(i) => t.(fate := s.fate[i := Unhashed])
    case RemoveHash(i) => t
    case SendFinished => s.(phase := Closed, out := if s.broken then s.out else s.out + [Finished(s.total)])
    case Break => s.(broken := true)
  }

  // ----- what every step keeps -----------------------------------------------------------------

  predicate AtFile(s: Server) {
    s.phase == Ticketed || s.phase == Prepared
  }

  predicate Reached(s: Server, i: nat) {
    i < s.pos || (i == s.pos && AtFile(s))
  }

  /** Every object the crawl has reached has one fate. */
  ghost predicate FateInv(c: Scope, s: Server) {
    && s.pos <= |c.objects|
    && (AtFile(s) ==> IsFile(c, s.pos) && HasFate(s, s.pos, Hashing))
    && (forall i: nat :: i in s.fate <==> Reached(s, i))
    && (forall i: nat | HasFate(s, i, Hashing) || HasFate(s, i, Unhashed) :: IsFile(c, i))
    && (s.phase == Starting ==> s.pos == 0)
    && (s.phase == Draining ==> s.pos == |c.objects|)
  }

  predicate InTask(s: Server, i: nat) {
    HashTask(i) in s.pool.stage && s.pool.stage[HashTask(i)] != Returning
  }

  predicate TaskOver(s: Server, i: nat) {
    HashTask(i) in s.pool.finished || InStage(s.pool, HashTask(i), Returning)
  }

  /** A file is being hashed exactly while its task has not returned. */
  predicate TaskInv(s: Server, i: nat) {
    && (InTask(s, i) <==> HasFate(s, i, Hashing) && !(i == s.pos && s.phase == Ticketed))
    && (InStage(s.pool, HashTask(i), Submitting) <==> i == s.pos && s.phase == Prepared)
    && (TaskOver(s, i) ==> HasFate(s, i, Announced) || HasFate(s, i, Unhashed))
  }

  ghost predicate TasksInv(s: Server) {
    && (forall t | t in s.pool.stage :: t == HashTask(t.id))
    && (forall i: nat :: TaskInv(s, i))
    && (s.phase == Starting || s.phase == Closed ==> s.pool.stage == map[])
  }

  predicate NumberInv(c: Scope, s: Server, i: nat) {
    && (i in s.numbers <==> i in s.fate && s.fate[i] != Skipped)
    && (i in s.tickets <==> i in s.numbers && IsFile(c, i))
    && (i in s.numbers ==> 1 <= s.numbers[i] <= s.total)
  }

  ghost predicate NumbersInv(c: Scope, s: Server) {
    && (forall i: nat :: NumberInv(c, s, i))
    && (forall i, j | i in s.numbers && j in s.numbers && s.numbers[i] == s.numbers[j] :: i == j)
    && |s.numbers| == s.total
  }

  ghost predicate CoreInv(c: Scope, s: Server) {
    WorkerPool.Inv(s.pool) && FateInv(c, s) && TasksInv(s) && NumbersInv(c, s)
  }

  /** Only `IsCompleted` makes an object skipped. */
  lemma StepSkips(c: Scope, s: Server, a: Action, i: nat)
    requires Enabled(c, s, a) && HasFate(Apply(c, s, a), i, Skipped)
    ensures HasFate(s, i, Skipped) || (a == Skip && i == s.pos)
  {}

  lemma StepsPool(c: Scope, s: Server, a: Action)
    requires Enabled(c, s, a)
    ensures Apply(c, s, a).pool
      == if PoolStep(s, a).Some? then WorkerPool.Apply(s.pool, PoolStep(s, a).value) else s.pool
  {}

  /** The crawl reaches one object at a time. */
  lemma StepReachesOne(c: Scope, s: Server, a: Action, i: nat)
    requires TaskInv(s, Subject(s, a)) && Enabled(c, s, a) && i !in s.fate && i in Apply(c, s, a).fate
    ensures i == s.pos && (a.Skip? || a.AnnounceNow? || a.TakeTicket?)
    ensures a.Skip? ==> Apply(c, s, a).fate[i] == Skipped
    ensures !a.Skip? ==> Apply(c, s, a).fate[i] != Skipped
  {}

  lemma StepPool(c: Scope, s: Server, a: Action)
    requires WorkerPool.Inv(s.pool) && Enabled(c, s, a)
    ensures WorkerPool.Inv(Apply(c, s, a).pool)
  {
    StepsPool(c, s, a);
    if PoolStep(s, a).Some? {
      StepInv(s.pool, PoolStep(s, a).value);
    }
  }

  /** At zero on the session's key no hash task is left. */
  lemma NothingHashing(s: Server)
    requires WorkerPool.Inv(s.pool) && TasksInv(s) && Pending(s.pool, KEY) == 0
    ensures s.pool.stage == map[]
  {
    ZeroMeansIdle(s.pool, KEY);
  }

  /** The file an action is about, if any. */
  function Subject(s: Server, a: Action): nat {
    match a
    case PopHash(i) => i
    case HashOk(i) => i
    case HashFails(i) => i
    case RemoveHash(i) => i
    case _ => s.pos
  }

  lemma StepTask(c: Scope, s: Server, a: Action, i: nat)
    requires FateInv(c, s) && TaskInv(s, i) && TaskInv(s, Subject(s, a)) && Enabled(c, s, a)
    requires s.pool.finished !! s.pool.stage.Keys
    ensures TaskInv(Apply(c, s, a), i)
  {
    if i != Subject(s, a) {
      OtherTask(c, s, a, i);
    } else if a.PopHash? || a.HashOk? || a.HashFails? || a.RemoveHash? {
      OwnHashTask(c, s, a, i);
    } else {
      OwnMainTask(c, s, a, i);
    }
  }

  lemma OtherTask(c: Scope, s: Server, a: Action, i: nat)
    requires TaskInv(s, i) && Enabled(c, s, a) && i != Subject(s, a)
    requires AtFile(s) ==> HasFate(s, s.pos, Hashing)
    ensures TaskInv(Apply(c, s, a), i)
  {
    var t := Apply(c, s, a);
    OtherStage(c, s, a, HashTask(i));
    assert InTask(t, i) == InTask(s, i) && TaskOver(t, i) == TaskOver(s, i);
  }

  lemma OtherStage(c: Scope, s: Server, a: Action, t: Task)
    requires Enabled(c, s, a) && t != HashTask(Subject(s, a))
    ensures var p, q := s.pool, Apply(c, s, a).pool;
      && (t in q.stage <==> t in p.stage) && (t in p.stage ==> q.stage[t] == p.stage[t])
      && (t in q.finished <==> t in p.finished)
  {
    StepsPool(c, s, a);
    if PoolStep(s, a).Some? {
      OtherStays(s.pool, PoolStep(s, a).value, t);
    }
  }

  lemma OwnHashTask(c: Scope, s: Server, a: Action, i: nat)
    requires TaskInv(s, i) && Enabled(c, s, a) && i == Subject(s, a) && s.pool.finished !! s.pool.stage.Keys
    requires a.PopHash? || a.HashOk? || a.HashFails? || a.RemoveHash?
    ensures TaskInv(Apply(c, s, a), i)
  {}

  lemma OwnMainTask(c: Scope, s: Server, a: Action, i: nat)
    requires TaskInv(s, i) && Enabled(c, s, a) && i == Subject(s, a) && s.pool.finished !! s.pool.stage.Keys
    requires !a.PopHash? && !a.HashOk? && !a.HashFails? && !a.RemoveHash?
    requires (AtFile(s) ==> HasFate(s, s.pos, Hashing)) && (i in s.fate <==> Reached(s, i))
    ensures TaskInv(Apply(c, s, a), i)
  {}

  lemma StepTasks(c: Scope, s: Server, a: Action)
    requires CoreInv(c, s) && Enabled(c, s, a)
    ensures TasksInv(Apply(c, s, a))
  {
    forall i: nat ensures TaskInv(Apply(c, s, a), i) {
      StepTask(c, s, a, i);
    }
    if a.SendFinished? {
      NothingHashing(s);
    }
    StepStage(c, s, a);
  }

  lemma StepStage(c: Scope, s: Server, a: Action)
    requires Enabled(c, s, a) && (a.SendFinished? ==> s.pool.stage == map[])
    requires forall t | t in s.pool.stage :: t == HashTask(t.id)
    requires s.phase == Starting || s.phase == Closed ==> s.pool.stage == map[]
    ensures var p := Apply(c, s, a).pool;
      && (forall t | t in p.stage :: t == HashTask(t.id))
      && (Apply(c, s, a).phase == Starting || Apply(c, s, a).phase == Closed ==> p.stage == map[])
  {}

  lemma StepFate(c: Scope, s: Server, a: Action)
    requires FateInv(c, s) && TaskInv(s, Subject(s, a)) && Enabled(c, s, a)
    ensures FateInv(c, Apply(c, s, a))
  {
    var t := Apply(c, s, a);
    forall i: nat ensures i in t.fate <==> Reached(t, i) {
      assert i in s.fate <==> Reached(s, i);
      StepReaches(c, s, a, i);
    }
    forall i: nat | HasFate(t, i, Hashing) || HasFate(t, i, Unhashed) ensures IsFile(c, i) {
      StepKinds(c, s, a, i);
    }
  }

  lemma StepKinds(c: Scope, s: Server, a: Action, i: nat)
    requires TaskInv(s, Subject(s, a)) && Enabled(c, s, a)
    requires forall j: nat | HasFate(s, j, Hashing) || HasFate(s, j, Unhashed) :: IsFile(c, j)
    requires HasFate(Apply(c, s, a), i, Hashing) || HasFate(Apply(c, s, a), i, Unhashed)
    ensures IsFile(c, i)
  {}

  lemma StepReaches(c: Scope, s: Server, a: Action, i: nat)
    requires TaskInv(s, Subject(s, a)) && Enabled(c, s, a) && (i in s.fate <==> Reached(s, i))
    requires AtFile(s) ==> HasFate(s, s.pos, Hashing)
    ensures i in Apply(c, s, a).fate <==> Reached(Apply(c, s, a), i)
  {}

  lemma StepNumber(c: Scope, s: Server, a: Action, i: nat)
    requires FateInv(c, s) && TaskInv(s, Subject(s, a)) && NumberInv(c, s, i) && NumberInv(c, s, Subject(s, a))
    requires Enabled(c, s, a)
    ensures NumberInv(c, Apply(c, s, a), i)
  {
    assert s.pos in s.fate <==> Reached(s, s.pos);
    if a.AnnounceNow? || a.TakeTicket? {
      NewNumberAt(c, s, a, i);
    } else {
      OldNumberAt(c, s, a, i);
    }
  }

  lemma NewNumberAt(c: Scope, s: Server, a: Action, i: nat)
    requires NumberInv(c, s, i) && Enabled(c, s, a) && (a.AnnounceNow? || a.TakeTicket?)
    ensures NumberInv(c, Apply(c, s, a), i)
  {}

  lemma OldNumberAt(c: Scope, s: Server, a: Action, i: nat)
    requires NumberInv(c, s, i) && Enabled(c, s, a) && !a.AnnounceNow? && !a.TakeTicket?
    requires TaskInv(s, Subject(s, a)) && (s.pos in s.fate ==> Reached(s, s.pos)) && NumberInv(c, s, Subject(s, a))
    ensures NumberInv(c, Apply(c, s, a), i)
  {}

  lemma StepNumbers(c: Scope, s: Server, a: Action)
    requires FateInv(c, s) && TaskInv(s, Subject(s, a)) && NumbersInv(c, s) && Enabled(c, s, a)
    ensures NumbersInv(c, Apply(c, s, a))
  {
    var t := Apply(c, s, a);
    forall i: nat ensures NumberInv(c, t, i) {
      StepNumber(c, s, a, i);
    }
    NewNumber(c, s, a);
  }

  lemma NumbersAfter(c: Scope, s: Server, a: Action)
    requires Enabled(c, s, a)
    ensures var t, more := Apply(c, s, a), a.AnnounceNow? || a.TakeTicket?;
      && t.numbers == (if more then s.numbers[s.pos := s.total + 1] else s.numbers)
      && t.total == s.total + if more then 1 else 0
  {
    match a
    case AnnounceNow =>
    case TakeTicket(_) =>
    case HashOk(_) =>
    case _ =>
  }

  lemma NewNumber(c: Scope, s: Server, a: Action)
    requires FateInv(c, s) && NumbersInv(c, s) && Enabled(c, s, a)
    ensures var t := Apply(c, s, a);
      |t.numbers| == t.total
      && forall i, j | i in t.numbers && j in t.numbers && t.numbers[i] == t.numbers[j] :: i == j
  {
    NumbersAfter(c, s, a);
    if a.AnnounceNow? || a.TakeTicket? {
      PosIsNew(c, s);
      NumbersWithin(c, s);
      AddNumber(s.numbers, s.pos, s.total);
    }
  }

  lemma PosIsNew(c: Scope, s: Server)
    requires FateInv(c, s) && NumbersInv(c, s) && !AtFile(s)
    ensures s.pos !in s.numbers
  {
    assert NumberInv(c, s, s.pos) && (s.pos in s.fate <==> Reached(s, s.pos));
  }

  lemma AddNumber(m: map<nat, nat>, i: nat, total: nat)
    requires i !in m && |m| == total && forall j | j in m :: m[j] <= total
    requires forall j, k | j in m && k in m && m[j] == m[k] :: j == k
    ensures var n := m[i := total + 1];
      |n| == total + 1 && forall j, k | j in n && k in n && n[j] == n[k] :: j == k
  {
    assert m[i := total + 1].Keys == m.Keys + {i};
  }

  /** Which of these objects come before the `i`th. */
  function Earlier(numbers: set<nat>, i: nat): set<nat> {
    set j | j in numbers && j < i
  }

  /** An object's number is its place among the numbered ones. */
  ghost predicate ArePlaces(numbers: map<nat, nat>) {
    forall i | i in numbers :: numbers[i] == 1 + |Earlier(numbers.Keys, i)|
  }

  lemma StepPlaces(c: Scope, s: Server, a: Action)
    requires FateInv(c, s) && NumbersInv(c, s) && ArePlaces(s.numbers) && Enabled(c, s, a)
    ensures ArePlaces(Apply(c, s, a).numbers)
  {
    NumbersAfter(c, s, a);
    if a.AnnounceNow? || a.TakeTicket? {
      NumberedBehind(c, s);
      AddPlace(s.numbers, s.pos, s.total);
    }
  }

  lemma NumberedBehind(c: Scope, s: Server)
    requires FateInv(c, s) && NumbersInv(c, s) && !AtFile(s)
    ensures forall j | j in s.numbers :: j < s.pos
  {
    forall j | j in s.numbers ensures j < s.pos {
      assert NumberInv(c, s, j);
      assert Reached(s, j);
    }
  }

  lemma AddPlace(m: map<nat, nat>, pos: nat, total: nat)
    requires |m| == total && ArePlaces(m) && forall j | j in m :: j < pos
    ensures ArePlaces(m[pos := total + 1])
  {
    var n := m[pos := total + 1];
    assert |m.Keys| == |m|;
    forall i | i in n ensures n[i] == 1 + |Earlier(n.Keys, i)| {
      assert Earlier(n.Keys, i) == if i == pos then m.Keys else Earlier(m.Keys, i);
    }
  }

  // ----- the stream ----------------------------------------------------------------------------

  predicate StartedSent(s: Server) {
    s.out != [] && s.out[0].Started?
  }

  predicate FinishedSent(s: Server) {
    s.out != [] && s.out[|s.out| - 1].Finished?
  }

  predicate DistinctIndices(sent: seq<nat>) {
    forall j, k | 0 <= j < k < |sent| :: sent[j] != sent[k]
  }

  /** What is sent is announced, and on a working connection the other way round too. */
  predicate SentInv(s: Server, i: nat) {
    && (i in s.sent ==> HasFate(s, i, Announced))
    && (!s.broken || FinishedSent(s) ==> HasFate(s, i, Announced) ==> i in s.sent)
  }

  predicate MessageInv(c: Scope, s: Server, k: nat)
    requires k < |s.sent| && k + 1 < |s.out|
  {
    CanDescribe(c, s, s.sent[k]) && s.out[k + 1] == Response.Object(Message(c, s, s.sent[k]))
  }

  /** The shape of the stream, by phase. */
  predicate ShapeInv(c: Scope, s: Server) {
    && (s.phase == Starting ==> s.out == [])
    && (s.phase != Starting && s.phase != Closed ==> StartedSent(s) && !FinishedSent(s))
    && (!StartedSent(s) ==> s.sent == [] && (s.out == [] || s.out == [Error]))
    && (StartedSent(s) ==>
          s.out[0] == Started(c.job) && |s.out| == 1 + |s.sent| + (if FinishedSent(s) then 1 else 0))
    && (FinishedSent(s) ==>
          StartedSent(s) && s.out[|s.out| - 1] == Finished(s.total)
          && s.phase == Closed && s.pos == |c.objects| && s.pool.stage == map[])
  }

  ghost predicate StreamInv(c: Scope, s: Server) {
    && ShapeInv(c, s)
    && DistinctIndices(s.sent)
    && (forall i: nat :: SentInv(s, i))
    && (forall k: nat | k < |s.sent| :: MessageInv(c, s, k))
  }

  lemma StepShape(c: Scope, s: Server, a: Action)
    requires CoreInv(c, s) && ShapeInv(c, s) && Enabled(c, s, a)
    ensures ShapeInv(c, Apply(c, s, a))
  {
    if a.SendFinished? {
      NothingHashing(s);
      MainStepShape(c, s, a);
    } else if a.PopHash? || a.HashOk? || a.HashFails? || a.RemoveHash? {
      HashStepShape(c, s, a);
    } else {
      MainStepShape(c, s, a);
    }
  }

  lemma MainStepShape(c: Scope, s: Server, a: Action)
    requires ShapeInv(c, s) && Enabled(c, s, a) && !a.PopHash? && !a.HashOk? && !a.HashFails? && !a.RemoveHash?
    requires a.SendFinished? ==> s.pos == |c.objects| && s.pool.stage == map[]
    ensures ShapeInv(c, Apply(c, s, a))
  {}

  lemma HashStepShape(c: Scope, s: Server, a: Action)
    requires ShapeInv(c, s) && Enabled(c, s, a) && (a.PopHash? || a.HashOk? || a.HashFails? || a.RemoveHash?)
    requires s.phase == Starting || s.phase == Closed ==> s.pool.stage == map[]
    ensures ShapeInv(c, Apply(c, s, a))
  {}

  lemma StepSent(c: Scope, s: Server, a: Action, i: nat)
    requires CoreInv(c, s) && ShapeInv(c, s) && SentInv(s, i) && Enabled(c, s, a)
    ensures SentInv(Apply(c, s, a), i)
  {
    assert TaskInv(s, Subject(s, a)) && TaskInv(s, i);
    assert i in s.fate <==> Reached(s, i);
    if a.AnnounceNow? || a.HashOk? {
      SendsOne(c, s, a, i);
    } else {
      SendsNone(c, s, a, i);
    }
  }

  lemma SendsOne(c: Scope, s: Server, a: Action, i: nat)
    requires TaskInv(s, Subject(s, a)) && SentInv(s, i) && Enabled(c, s, a) && (a.AnnounceNow? || a.HashOk?)
    requires FinishedSent(s) ==> s.phase == Closed && s.pool.stage == map[]
    ensures SentInv(Apply(c, s, a), i)
  {}

  lemma SendsNone(c: Scope, s: Server, a: Action, i: nat)
    requires TaskInv(s, Subject(s, a)) && SentInv(s, i) && Enabled(c, s, a) && !a.AnnounceNow? && !a.HashOk?
    requires (i in s.fate ==> Reached(s, i)) && (s.phase == Starting ==> s.fate == map[])
    requires FinishedSent(s) ==> s.phase == Closed
    ensures SentInv(Apply(c, s, a), i)
  {}

  /** A description, once there, does not change. */
  lemma StepMessage(c: Scope, s: Server, a: Action, i: nat)
    requires CoreInv(c, s) && Enabled(c, s, a) && CanDescribe(c, s, i)
    ensures CanDescribe(c, Apply(c, s, a), i) && Message(c, Apply(c, s, a), i) == Message(c, s, i)
  {
    assert NumberInv(c, s, i) && NumberInv(c, s, s.pos);
    assert i in s.fate <==> Reached(s, i);
  }

  /** What a step adds to the stream. */
  lemma StepAdds(c: Scope, s: Server, a: Action)
    requires CoreInv(c, s) && StreamInv(c, s) && Enabled(c, s, a)
    ensures var t := Apply(c, s, a);
      (t.sent == s.sent && s.out <= t.out)
      || (&& (a.AnnounceNow? || a.HashOk?) && !s.broken && !HasFate(s, Subject(s, a), Announced)
          && t.sent == s.sent + [Subject(s, a)] && CanDescribe(c, t, Subject(s, a))
          && t.out == s.out + [Response.Object(Message(c, t, Subject(s, a)))])
  {
    assert TaskInv(s, Subject(s, a));
    assert s.pos in s.fate <==> Reached(s, s.pos);
    assert SentInv(s, Subject(s, a));
  }

  lemma StepStream(c: Scope, s: Server, a: Action)
    requires CoreInv(c, s) && StreamInv(c, s) && Enabled(c, s, a)
    ensures StreamInv(c, Apply(c, s, a))
  {
    var t := Apply(c, s, a);
    StepShape(c, s, a);
    StepAdds(c, s, a);
    assert SentInv(s, Subject(s, a));
    forall i: nat ensures SentInv(t, i) {
      StepSent(c, s, a, i);
    }
    forall k: nat | k < |t.sent| ensures MessageInv(c, t, k) {
      StepMessageAt(c, s, a, k);
    }
  }

  lemma StepMessageAt(c: Scope, s: Server, a: Action, k: nat)
    requires CoreInv(c, s) && StreamInv(c, s) && Enabled(c, s, a) && k < |Apply(c, s, a).sent|
    ensures k + 1 < |Apply(c, s, a).out| && MessageInv(c, Apply(c, s, a), k)
  {
    StepShape(c, s, a);
    StepAdds(c, s, a);
    if k < |s.sent| {
      assert MessageInv(c, s, k);
      StepMessage(c, s, a, s.sent[k]);
    }
  }

  /** The stream only grows. */
  lemma StepOut(c: Scope, s: Server, a: Action)
    requires CoreInv(c, s) && StreamInv(c, s) && Enabled(c, s, a)
    ensures s.out <= Apply(c, s, a).out
  {
    StepAdds(c, s, a);
  }

  /** Every object message of the stream is about one announced object. */
  lemma MessageAt(c: Scope, s: Server, k: nat)
    requires StreamInv(c, s) && k < |s.out| && s.out[k].Object?
    ensures 1 <= k <= |s.sent| && CanDescribe(c, s, s.sent[k - 1]) && s.out[0] == Started(c.job)
    ensures s.out[k].pull == Message(c, s, s.sent[k - 1])
  {
    assert k - 1 < |s.sent| ==> MessageInv(c, s, k - 1);
  }

  lemma StartedAt(c: Scope, s: Server, k: nat)
    requires StreamInv(c, s) && k < |s.out| && s.out[k].Started?
    ensures k == 0 && s.out[0] == Started(c.job)
  {
    forall j | 1 <= j <= |s.sent| ensures s.out[j].Object? {
      assert MessageInv(c, s, j - 1);
    }
  }

  lemma FinishedAt(c: Scope, s: Server, k: nat)
    requires StreamInv(c, s) && k < |s.out| && s.out[k].Finished?
    ensures k == |s.out| - 1 && FinishedSent(s)
  {
    forall j | 1 <= j <= |s.sent| ensures s.out[j].Object? {
      assert MessageInv(c, s, j - 1);
    }
  }

  /** Tickets are given out only by the crawl. */
  lemma StepTicketed(c: Scope, s: Server, a: Action)
    requires Enabled(c, s, a)
    ensures Apply(c, s, a).tickets == if a.TakeTicket? then s.tickets[s.pos := a.id] else s.tickets
  {}

  // ----- order ---------------------------------------------------------------------------------

  predicate DirectoryInv(c: Scope, s: Server, j: nat) {
    j < s.pos && !IsFile(c, j) ==> HasFate(s, j, Skipped) || HasFate(s, j, Announced)
  }

  predicate EarlierInv(c: Scope, s: Server, k: nat, j: nat)
    requires k < |s.sent|
  {
    j < s.sent[k] && !IsFile(c, j) ==> HasFate(s, j, Skipped) || j in s.sent[..k]
  }

  /** Directories and symlinks go out before anything that the crawl reaches later. */
  ghost predicate OrderInv(c: Scope, s: Server) {
    && (forall j: nat :: DirectoryInv(c, s, j))
    && (forall k: nat, j: nat | k < |s.sent| :: EarlierInv(c, s, k, j))
  }

  lemma StepDirectory(c: Scope, s: Server, a: Action, j: nat)
    requires CoreInv(c, s) && DirectoryInv(c, s, j) && Enabled(c, s, a)
    ensures DirectoryInv(c, Apply(c, s, a), j)
  {
    assert TaskInv(s, Subject(s, a));
    if a.Skip? || a.AnnounceNow? || a.EnqueueHash? {
      NextDirectory(c, s, a, j);
    } else {
      SameDirectory(c, s, a, j);
    }
  }

  lemma NextDirectory(c: Scope, s: Server, a: Action, j: nat)
    requires FateInv(c, s) && DirectoryInv(c, s, j) && Enabled(c, s, a)
    requires a.Skip? || a.AnnounceNow? || a.EnqueueHash?
    ensures DirectoryInv(c, Apply(c, s, a), j)
  {}

  lemma SameDirectory(c: Scope, s: Server, a: Action, j: nat)
    requires FateInv(c, s) && TaskInv(s, Subject(s, a)) && DirectoryInv(c, s, j) && Enabled(c, s, a)
    requires !a.Skip? && !a.AnnounceNow? && !a.EnqueueHash?
    ensures DirectoryInv(c, Apply(c, s, a), j)
  {}

  lemma StepEarlier(c: Scope, s: Server, a: Action, k: nat, j: nat)
    requires CoreInv(c, s) && StreamInv(c, s) && OrderInv(c, s) && Enabled(c, s, a)
    requires k < |Apply(c, s, a).sent|
    ensures EarlierInv(c, Apply(c, s, a), k, j)
  {
    assert TaskInv(s, Subject(s, a)) && DirectoryInv(c, s, j) && SentInv(s, j);
    assert k < |s.sent| ==> EarlierInv(c, s, k, j);
    assert Subject(s, a) in s.fate ==> Reached(s, Subject(s, a));
    StepAdds(c, s, a);
    StepSkipStays(c, s, a, j);
    EarlierGrows(c, s, Apply(c, s, a), Subject(s, a), k, j);
  }

  /** An object once skipped stays so. */
  lemma StepSkipStays(c: Scope, s: Server, a: Action, j: nat)
    requires FateInv(c, s) && TaskInv(s, Subject(s, a)) && Enabled(c, s, a)
    ensures HasFate(s, j, Skipped) ==> HasFate(Apply(c, s, a), j, Skipped)
  {
    assert j in s.fate <==> Reached(s, j);
  }

  lemma EarlierGrows(c: Scope, s: Server, t: Server, i: nat, k: nat, j: nat)
    requires k < |t.sent| && (t.sent == s.sent || (t.sent == s.sent + [i] && i <= s.pos))
    requires k < |s.sent| ==> EarlierInv(c, s, k, j)
    requires DirectoryInv(c, s, j) && SentInv(s, j) && (!s.broken || t.sent == s.sent)
    requires HasFate(s, j, Skipped) ==> HasFate(t, j, Skipped)
    ensures EarlierInv(c, t, k, j)
  {
    if k < |s.sent| {
      assert t.sent[..k] == s.sent[..k];
    } else {
      assert t.sent[..k] == s.sent;
    }
  }

  lemma StepOrder(c: Scope, s: Server, a: Action)
    requires CoreInv(c, s) && StreamInv(c, s) && OrderInv(c, s) && Enabled(c, s, a)
    ensures OrderInv(c, Apply(c, s, a))
  {
    forall j: nat ensures DirectoryInv(c, Apply(c, s, a), j) {
      StepDirectory(c, s, a, j);
    }
    forall k: nat, j: nat | k < |Apply(c, s, a).sent| ensures EarlierInv(c, Apply(c, s, a), k, j) {
      StepEarlier(c, s, a, k, j);
    }
  }

  // ----- runs ----------------------------------------------------------------------------------

  ghost predicate Inv(c: Scope, s: Server) {
    CoreInv(c, s) && StreamInv(c, s) && OrderInv(c, s) && ArePlaces(s.numbers)
  }

  lemma FreshInv(c: Scope, workers: nat)
    ensures Inv(c, Fresh(workers))
  {
    EmptyInv(workers);
  }

  lemma StepKeepsInv(c: Scope, s: Server, a: Action)
    requires Inv(c, s) && Enabled(c, s, a)
    ensures Inv(c, Apply(c, s, a))
  {
    assert TaskInv(s, Subject(s, a));
    StepPool(c, s, a);
    StepFate(c, s, a);
    StepTasks(c, s, a);
    StepNumbers(c, s, a);
    StepStream(c, s, a);
    StepOrder(c, s, a);
    StepPlaces(c, s, a);
  }

  predicate CanRun(c: Scope, s: Server, actions: seq<Action>)
    decreases |actions|
  {
    actions == [] || (Enabled(c, s, actions[0]) && CanRun(c, Apply(c, s, actions[0]), actions[1..]))
  }

  function Run(c: Scope, s: Server, actions: seq<Action>): Server
    requires CanRun(c, s, actions)
    decreases |actions|
  {
    if actions == [] then s else Run(c, Apply(c, s, actions[0]), actions[1..])
  }

  lemma {:induction false} RunKeepsInv(c: Scope, s: Server, actions: seq<Action>)
    requires Inv(c, s) && CanRun(c, s, actions)
    ensures Inv(c, Run(c, s, actions))
    decreases |actions|
  {
    if actions != [] {
      StepKeepsInv(c, s, actions[0]);
      RunKeepsInv(c, Apply(c, s, actions[0]), actions[1..]);
    }
  }

  /** The objects before the `i`th that were not skipped. */
  function CountedBefore(s: Server, i: nat): set<nat> {
    set j | j in s.fate && j < i && s.fate[j] != Skipped
  }

  /** `m` says of object `i` what there is to say: its names, its kind, its place among the objects
      that are not skipped, and for a file, and nothing else, digest, size and ticket. */
  predicate Tells(c: Scope, s: Server, m: PullObject, i: nat) {
    && i < |c.objects| && m.path == Strings.Join(c.objects[i].names, "/") && m.kind == c.objects[i].kind
    && m.number == 1 + |CountedBefore(s, i)|
    && (if c.objects[i].kind != Regular then m.transfer == None
        else i in s.tickets && m.transfer != None && m.transfer.value.id == s.tickets[i]
             && m.transfer.value.sha256 == c.hash(c.objects[i].content)
             && m.transfer.value.bytes == Int32(|c.objects[i].content|))
  }

  lemma MessageTells(c: Scope, s: Server, k: nat)
    requires Inv(c, s) && k < |s.out| && s.out[k].Object?
    ensures 1 <= k <= |s.sent| && Tells(c, s, s.out[k].pull, s.sent[k - 1])
  {
    MessageAt(c, s, k);
    var i := s.sent[k - 1];
    forall j: nat ensures j in s.numbers <==> j in s.fate && s.fate[j] != Skipped {
      assert NumberInv(c, s, j);
    }
    assert Earlier(s.numbers.Keys, i) == CountedBefore(s, i);
  }

  /** On every schedule every object message tells of one object of the crawl, as it is. */
  lemma MessagesAreExact(c: Scope, workers: nat, actions: seq<Action>, k: nat)
    requires CanRun(c, Fresh(workers), actions) && k < |Run(c, Fresh(workers), actions).out|
    requires Run(c, Fresh(workers), actions).out[k].Object?
    ensures var s := Run(c, Fresh(workers), actions);
      exists i: nat :: Tells(c, s, s.out[k].pull, i)
  {
    FreshInv(c, workers);
    RunKeepsInv(c, Fresh(workers), actions);
    var s := Run(c, Fresh(workers), actions);
    MessageTells(c, s, k);
    assert Tells(c, s, s.out[k].pull, s.sent[k - 1]);
  }

  /** A connection once lost brings nothing more. */
  lemma {:induction false} BrokenSendsNothing(c: Scope, s: Server, actions: seq<Action>)
    requires s.broken && CanRun(c, s, actions)
    ensures Run(c, s, actions).out == s.out && Run(c, s, actions).sent == s.sent
    decreases |actions|
  {
    if actions != [] {
      BrokenSendsNothing(c, Apply(c, s, actions[0]), actions[1..]);
    }
  }

  lemma NothingAfterBreak(c: Scope, s: Server, actions: seq<Action>)
    requires CanRun(c, s, [Break] + actions)
    ensures Run(c, s, [Break] + actions).out == s.out
  {
    assert ([Break] + actions)[1..] == actions;
    BrokenSendsNothing(c, Apply(c, s, Break), actions);
  }

  /** Whatever the schedule of crawl and hash workers: a session whose `Finished` went out sent
      `Started` first, `Finished` last, and in between one message per announced object; announced,
      skipped and unhashable objects partition the crawl, only files are unhashable, and the
      numbered objects carry each number from 1 to the total once. */
  lemma FinishedSession(c: Scope, workers: nat, actions: seq<Action>)
    requires CanRun(c, Fresh(workers), actions)
    requires FinishedSent(Run(c, Fresh(workers), actions))
    ensures var s := Run(c, Fresh(workers), actions);
      && |s.out| == |s.sent| + 2
      && s.out[0] == Started(c.job) && s.out[|s.out| - 1] == Finished(s.total)
      && (forall k: nat | k < |s.sent| :: MessageInv(c, s, k))
      && DistinctIndices(s.sent)
      && (forall i: nat | i < |c.objects| :: HasEnded(c, s, i))
      && (forall i | i in s.numbers :: 1 <= s.numbers[i] <= s.total)
      && (forall i, j | i in s.numbers && j in s.numbers && s.numbers[i] == s.numbers[j] :: i == j)
      && |s.numbers| == s.total
  {
    FreshInv(c, workers);
    RunKeepsInv(c, Fresh(workers), actions);
    SessionHasFinished(c, Run(c, Fresh(workers), actions));
  }

  lemma SessionHasFinished(c: Scope, s: Server)
    requires Inv(c, s) && FinishedSent(s)
    ensures |s.out| == |s.sent| + 2 && s.out[0] == Started(c.job) && s.out[|s.out| - 1] == Finished(s.total)
    ensures (forall k: nat | k < |s.sent| :: MessageInv(c, s, k)) && DistinctIndices(s.sent)
    ensures forall i: nat | i < |c.objects| :: HasEnded(c, s, i)
    ensures forall i | i in s.numbers :: 1 <= s.numbers[i] <= s.total
    ensures forall i, j | i in s.numbers && j in s.numbers && s.numbers[i] == s.numbers[j] :: i == j
    ensures |s.numbers| == s.total
  {
    forall i: nat | i < |c.objects| ensures HasEnded(c, s, i) {
      FateWhenFinished(c, s, i);
    }
    NumbersWithin(c, s);
  }

  /** The object is announced, skipped or unhashable, and numbered unless it is skipped. */
  predicate HasEnded(c: Scope, s: Server, i: nat) {
    && i in s.fate && s.fate[i] != Hashing
    && (i in s.sent <==> s.fate[i] == Announced)
    && (s.fate[i] == Unhashed ==> IsFile(c, i))
    && (i in s.numbers <==> s.fate[i] != Skipped)
  }

  lemma NumbersWithin(c: Scope, s: Server)
    requires NumbersInv(c, s)
    ensures forall i | i in s.numbers :: 1 <= s.numbers[i] <= s.total
  {
    forall i | i in s.numbers ensures 1 <= s.numbers[i] <= s.total {
      assert NumberInv(c, s, i);
    }
  }

  lemma FateWhenFinished(c: Scope, s: Server, i: nat)
    requires CoreInv(c, s) && StreamInv(c, s) && FinishedSent(s) && i < |c.objects|
    ensures HasEnded(c, s, i)
  {
    assert i in s.fate <==> Reached(s, i);
    assert TaskInv(s, i) && SentInv(s, i) && NumberInv(c, s, i);
    assert HasFate(s, i, Unhashed) ==> IsFile(c, i);
  }

  /** Once the thread has returned, no task can touch its connection or its mutex any more. */
  lemma NothingSentAfterClose(c: Scope, workers: nat, actions: seq<Action>, more: seq<Action>)
    requires CanRun(c, Fresh(workers), actions) && Run(c, Fresh(workers), actions).phase == Closed
    requires CanRun(c, Run(c, Fresh(workers), actions), more)
    ensures var s := Run(c, Fresh(workers), actions);
      s.pool.stage == map[] && Run(c, s, more).out == s.out && forall a | a in more :: a == Break
  {
    FreshInv(c, workers);
    RunKeepsInv(c, Fresh(workers), actions);
    ClosedStays(c, Run(c, Fresh(workers), actions), more);
  }

  lemma {:induction false} ClosedStays(c: Scope, s: Server, more: seq<Action>)
    requires s.phase == Closed && s.pool.stage == map[] && CanRun(c, s, more)
    requires forall i: nat :: HashTask(i) !in s.pool.stage
    ensures Run(c, s, more).out == s.out && forall a | a in more :: a == Break
    decreases |more|
  {
    if more != [] {
      assert more[0] == Break;
      ClosedStays(c, Apply(c, s, more[0]), more[1..]);
      assert more == [more[0]] + more[1..];
    }
  }

  // ----- progress ------------------------------------------------------------------------------

  /** A file that has a ticket has a task, from the moment it is counted; there are no others. */
  predicate TicketInv(s: Server, i: nat) {
    i in s.tickets <==> WorkerPool.Prepared(s.pool, HashTask(i)) || (i == s.pos && s.phase == Ticketed)
  }

  ghost predicate CountInv(s: Server) {
    && (forall i: nat :: TicketInv(s, i))
    && (forall t | WorkerPool.Prepared(s.pool, t) :: t == HashTask(t.id))
  }

  lemma StepTicket(c: Scope, s: Server, a: Action, i: nat)
    requires TaskInv(s, s.pos) && TicketInv(s, i) && Enabled(c, s, a)
    ensures TicketInv(Apply(c, s, a), i)
  {}

  lemma StepCount(c: Scope, s: Server, a: Action)
    requires CoreInv(c, s) && CountInv(s) && Enabled(c, s, a)
    ensures CountInv(Apply(c, s, a))
  {
    forall i: nat ensures TicketInv(Apply(c, s, a), i) {
      assert TicketInv(s, i) && TaskInv(s, s.pos);
      StepTicket(c, s, a, i);
    }
  }

  function PhaseRank(p: Phase): nat {
    match p
    case Starting => 0
    case Draining => 2
    case Closed => 3
    case _ => 1
  }

  /** How many steps have been made: one for each object reached, five for each hash task, and three. */
  function Made(s: Server): nat {
    PhaseRank(s.phase) + |s.fate| + Progress(s.pool)
  }

  /** Nothing goes to the other side: it is lost, or the request is refused. */
  predicate EndsEarly(s: Server, a: Action) {
    a.Reject? || (a.SendStarted? && s.broken)
  }

  lemma StepPoolMade(s: Server, a: Action, c: Scope)
    requires WorkerPool.Inv(s.pool) && Enabled(c, s, a)
    ensures Progress(Apply(c, s, a).pool) == Progress(s.pool) + (if PoolStep(s, a).Some? then 1 else 0)
  {
    StepsPool(c, s, a);
    if PoolStep(s, a).Some? {
      StepProgress(s.pool, PoolStep(s, a).value);
    }
  }

  lemma StepFates(c: Scope, s: Server, a: Action)
    requires FateInv(c, s) && TaskInv(s, Subject(s, a)) && Enabled(c, s, a)
    ensures |Apply(c, s, a).fate| == |s.fate| + if a.Skip? || a.AnnounceNow? || a.TakeTicket? then 1 else 0
  {
    assert s.pos in s.fate <==> Reached(s, s.pos);
    if a.HashOk? || a.HashFails? {
      assert Apply(c, s, a).fate.Keys == s.fate.Keys;
      assert |Apply(c, s, a).fate.Keys| == |Apply(c, s, a).fate| && |s.fate.Keys| == |s.fate|;
    }
  }

  lemma StepRank(c: Scope, s: Server, a: Action)
    requires Enabled(c, s, a)
    ensures PhaseRank(Apply(c, s, a).phase) == PhaseRank(s.phase)
      + if EndsEarly(s, a) then 3 else if a.SendStarted? || a.EndCrawl? || a.SendFinished? then 1 else 0
  {}

  /** Every step but a loss of the connection is of exactly one of these kinds. */
  lemma StepsAre(s: Server, a: Action)
    ensures PoolStep(s, a).Some? <==> !(a == Break || EndsEarly(s, a) || a.SendStarted? || a.EndCrawl? || a.SendFinished?
                                        || a.Skip? || a.AnnounceNow? || a.TakeTicket?)
  {}

  lemma StepMade(c: Scope, s: Server, a: Action)
    requires CoreInv(c, s) && Enabled(c, s, a)
    ensures Made(Apply(c, s, a)) == Made(s) + if a == Break then 0 else if EndsEarly(s, a) then 3 else 1
  {
    assert TaskInv(s, Subject(s, a));
    StepPoolMade(s, a, c);
    StepFates(c, s, a);
    StepRank(c, s, a);
    StepsAre(s, a);
  }

  /** The steps of a run other than losses of the connection. */
  function Steps(actions: seq<Action>): nat {
    if actions == [] then 0 else (if actions[0] == Break then 0 else 1) + Steps(actions[1..])
  }

  lemma {:induction false} RunMade(c: Scope, s: Server, actions: seq<Action>)
    requires Inv(c, s) && CountInv(s) && CanRun(c, s, actions)
    ensures var t := Run(c, s, actions);
      Inv(c, t) && CountInv(t) && Made(s) + Steps(actions) <= Made(t)
      && (StartedSent(t) ==> Made(s) + Steps(actions) == Made(t))
    decreases |actions|
  {
    if actions != [] {
      var t := Apply(c, s, actions[0]);
      StepKeepsInv(c, s, actions[0]);
      StepCount(c, s, actions[0]);
      StepMade(c, s, actions[0]);
      RunMade(c, t, actions[1..]);
      if EndsEarly(s, actions[0]) {
        ClosedStays(c, t, actions[1..]);
      }
    }
  }

  function Files(numbers: set<nat>): set<Task> {
    set i | i in numbers :: HashTask(i)
  }

  lemma {:induction false} CountFiles(numbers: set<nat>)
    ensures |Files(numbers)| == |numbers|
  {
    if i :| i in numbers {
      CountFiles(numbers - {i});
      assert Files(numbers) == Files(numbers - {i}) + {HashTask(i)};
    }
  }

  /** At most one step for each object, five more for each file, and three. */
  lemma MadeIsBounded(c: Scope, s: Server)
    requires Inv(c, s) && CountInv(s)
    ensures Made(s) <= 3 + |c.objects| + 5 * |s.tickets|
    ensures s.phase == Closed && StartedSent(s) && FinishedSent(s) ==> Made(s) == 3 + |c.objects| + 5 * |s.tickets|
  {
    FatesAreBounded(c, s);
    TasksAreBounded(s);
  }

  lemma FatesAreBounded(c: Scope, s: Server)
    requires FateInv(c, s)
    ensures |s.fate| <= |c.objects| && (s.pos == |c.objects| ==> |s.fate| == |c.objects|)
  {
    forall i: nat ensures i in s.fate.Keys ==> i < |c.objects|
      ensures s.pos == |c.objects| && i < |c.objects| ==> i in s.fate.Keys
    {
      assert i in s.fate <==> Reached(s, i);
    }
    CountBelow(s.fate.Keys, |c.objects|);
    assert |s.fate.Keys| == |s.fate|;
  }

  lemma TasksAreBounded(s: Server)
    requires CountInv(s) && TasksInv(s)
    ensures Progress(s.pool) <= 5 * |s.tickets|
    ensures s.phase == Closed ==> Progress(s.pool) == 5 * |s.tickets|
  {
    var files := Files(s.tickets.Keys);
    CountFiles(s.tickets.Keys);
    assert |s.tickets.Keys| == |s.tickets|;
    forall n: nat | 1 <= n <= 5 ensures |WorkerPool.Reached(s.pool, n)| <= |files| {
      forall t | t in WorkerPool.Reached(s.pool, n) ensures t in files {
        assert WorkerPool.Prepared(s.pool, t) && TicketInv(s, t.id);
      }
      Cardinality(WorkerPool.Reached(s.pool, n), files);
    }
    if s.phase == Closed {
      forall t | t in files ensures t in s.pool.finished {
        assert TicketInv(s, t.id);
      }
      forall t | t in s.pool.finished ensures t in files {
        assert WorkerPool.Prepared(s.pool, t) && TicketInv(s, t.id);
      }
      assert s.pool.finished == files;
      ProgressWhenIdle(s.pool);
    }
  }

  lemma TicketsAreFiles(c: Scope, s: Server)
    requires FateInv(c, s) && NumbersInv(c, s)
    ensures |s.tickets| <= |c.objects|
  {
    forall i | i in s.tickets.Keys ensures i < |c.objects| {
      assert NumberInv(c, s, i);
    }
    CountBelow(s.tickets.Keys, |c.objects|);
    assert |s.tickets.Keys| == |s.tickets|;
  }

  /** Every run is bounded, losses of the connection aside; and every run that has sent `Finished`
      took the same steps, whatever the schedule: one for each object, five more for each file that
      was not skipped, and three. */
  lemma RunsAreBounded(c: Scope, workers: nat, actions: seq<Action>)
    requires CanRun(c, Fresh(workers), actions)
    ensures var s := Run(c, Fresh(workers), actions);
      && Steps(actions) <= 3 + |c.objects| + 5 * |s.tickets| <= 3 + 6 * |c.objects|
      && (FinishedSent(s) ==> Steps(actions) == 3 + |c.objects| + 5 * |s.tickets|)
  {
    var e, s := Fresh(workers), Run(c, Fresh(workers), actions);
    FreshInv(c, workers);
    ProgressWhenIdle(e.pool);
    RunMade(c, e, actions);
    MadeIsBounded(c, s);
    TicketsAreFiles(c, s);
  }

  /** A hash task that has not left its key can make a step, or one of them can. */
  lemma TasksCanStep(c: Scope, s: Server) returns (a: Action)
    requires CoreInv(c, s) && s.phase == Draining && Pending(s.pool, KEY) != 0 && s.pool.workers > 0 && !s.pool.done
    ensures a != Break && Enabled(c, s, a)
  {
    ZeroMeansIdle(s.pool, KEY);
    if t :| t in s.pool.stage && s.pool.stage[t] != Queued {
      assert TaskInv(s, t.id) && t == HashTask(t.id);
      a := if s.pool.stage[t] == Running then HashFails(t.id) else RemoveHash(t.id);
    } else {
      var t := CanPop(s.pool);
      a := PopHash(t.id);
    }
  }

  /** Until the thread has returned, some step other than losing the connection can be made; about
      an object the crawl has reached, both if it is to be skipped and if not. */
  lemma CanStep(c: Scope, s: Server, id: nat, skip: bool) returns (a: Action)
    requires CoreInv(c, s) && s.phase != Closed && s.pool.workers > 0 && !s.pool.done
    ensures a != Break && Enabled(c, s, a)
    ensures s.phase == Starting <==> a.SendStarted?
    ensures !a.Reject? && (a.Skip? ==> skip) && (a.AnnounceNow? || a.TakeTicket? ==> !skip) && (a.TakeTicket? ==> a.id == id)
  {
    assert TaskInv(s, s.pos);
    match s.phase
    case Starting => a := SendStarted;
    case Crawling =>
      a := if s.pos == |c.objects| then EndCrawl else if skip then Skip
           else if IsFile(c, s.pos) then TakeTicket(id) else AnnounceNow;
    case Ticketed => a := PrepareHash;
    case Prepared => a := EnqueueHash;
    case Draining =>
      if Pending(s.pool, KEY) == 0 {
        a := SendFinished;
      } else {
        a := TasksCanStep(c, s);
      }
  }

  /** The workers stay, and nobody sets `Done` on the server's pool. */
  lemma {:induction false} RunPool(c: Scope, s: Server, actions: seq<Action>)
    requires CanRun(c, s, actions)
    ensures Run(c, s, actions).pool.workers == s.pool.workers && Run(c, s, actions).pool.done == s.pool.done
    decreases |actions|
  {
    if actions != [] {
      RunPool(c, Apply(c, s, actions[0]), actions[1..]);
    }
  }

  /** So with a worker, a run that can only lose its connection has closed; and so it has in at most
      that many steps, on every schedule. */
  lemma MaximalRunIsClosed(c: Scope, workers: nat, actions: seq<Action>)
    requires CanRun(c, Fresh(workers), actions) && workers > 0
    requires forall a | a != Break :: !Enabled(c, Run(c, Fresh(workers), actions), a)
    ensures Run(c, Fresh(workers), actions).phase == Closed
  {
    var s := Run(c, Fresh(workers), actions);
    FreshInv(c, workers);
    RunKeepsInv(c, Fresh(workers), actions);
    RunPool(c, Fresh(workers), actions);
    if s.phase != Closed {
      var a := CanStep(c, s, 0, true);
    }
  }
}
