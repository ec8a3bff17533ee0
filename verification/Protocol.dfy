/**
 The whole system: one server process with its job table, tickets and log directory, and any number
 of sessions with their clients, over starts, resumes, restarts and lost clients.
 */
module Protocol {
  import C = ClientSession
  import JobLog
  import Path
  import S = ServerSession
  import opened FastCrawler
  import opened Guarded
  import opened Messages
  import opened Wrappers

  type Bytes = seq<bv8>

  /** What is served: the server's root, what each job's path holds there, and the digest function. */
  datatype Config = Config(root: string, serve: string -> Listing, hash: Bytes -> int, workers: nat)

  /** The objects of a pull of `path`, in crawl order. */
  function PullObjects(g: Config, path: string): seq<Object> {
    var root := Path.Join(g.root, path);
    if Path.IsRoot(root) then Crawl([Start(root, g.serve(path))]) else []
  }

  /** Served trees are well named: names are components, and no two in a directory are the same. */
  ghost predicate ValidConfig(g: Config) {
    forall path: string | Path.IsRoot(Path.Join(g.root, path)) :: WellNamed(g.serve(path))
  }

  datatype ReadyFile = ReadyFile(address: nat, source: Object)

  /** What the integrity task of message `k` of session `s` read back whole, with the digest announced. */
  datatype ReadBack = ReadBack(s: nat, k: nat, job: string, path: string, content: Bytes)

  datatype Session = Session(
    job: string,
    path: string,
    peer: nat,
    srv: S.Server,
    cli: C.Client,
    serverLive: bool,
    clientLive: bool)

  /** The ticket table, and what the server has done with tickets. */
  datatype Tickets = Tickets(
    ready: map<nat, ReadyFile>,         // the table
    issued: map<nat, ReadyFile>,        // every ticket of this server lifetime
    next: nat,                          // ids are fresh
    honoured: set<nat>)                 // tickets a file has been streamed for

  datatype History = History(
    readBacks: set<ReadBack>,           // checks that compared a digest and found it equal
    unhashed: set<(string, string)>,    // job and path of those that had none
    torn: set<string>,                  // jobs whose log lost more than last lines
    broken: set<string>)                // jobs with a line break in a path that was written

  datatype World = World(
    store: JobLog.Store,                // log directory and job table
    tickets: Tickets,
    granted: map<(nat, nat), Bytes>,    // what the server streams to which stream task
    disks: map<(nat, string), Bytes>,   // the clients' files
    wire: multiset<(string, string)>,   // success requests under way
    history: History,
    sessions: seq<Session>)

  datatype Action =
    | StartJob(id: string, created: string, path: string, peer: nat)
    | ResumeJob(id: string, peer: nat)
    | ServerStep(s: nat, srv: S.Action)
    | ClientStep(s: nat, cli: C.Action)
    | Request(s: nat, k: nat)
    | StreamEnds(s: nat, k: nat, n: nat, ok: bool)
    | CheckDone(s: nat, k: nat, hashed: bool)
    | Report(s: nat, k: nat)
    | Deliver(job: string, path: string)
    | Lose(job: string, path: string)
    | Restart(kept: map<string, string>)     // what a crash has left of some logs
    | KillClient(s: nat)

  function Init(): World {
    World(JobLog.Store(map[], map[]), Tickets(map[], map[], 0, {}), map[], map[], multiset{}, History({}, {}, {}, {}), [])
  }

  function Scope(g: Config, x: Session): S.Scope {
    S.Scope(x.job, PullObjects(g, x.path), g.hash)
  }

  predicate IsCompleted(store: JobLog.Store, job: string, path: string) {
    job in store.jobs && path in store.jobs[job].completed
  }

  function Disk(w: World, peer: nat, path: string): Bytes {
    if (peer, path) in w.disks then w.disks[(peer, path)] else []
  }

  /** Writing from the start of a file that is opened without truncation. */
  function Overwrite(old': Bytes, data: Bytes): Bytes {
    data + if |data| <= |old'| then old'[|data|..] else []
  }

  function NewSession(g: Config, job: string, path: string, peer: nat): Session {
    Session(job, path, peer, S.Fresh(g.workers), C.Fresh(g.workers), true, true)
  }

  /** The transfer that a message is about, if it is a file's. */
  function TransferIn(stream: seq<Response>, k: nat): Option<Transfer> {
    if C.IsObject(stream, k) then stream[k].pull.transfer else None
  }

  function TransferAt(cli: C.Client, k: nat): Option<Transfer> {
    TransferIn(cli.inbox, k)
  }

  function Granted(w: World, s: nat, k: nat): Bytes {
    if (s, k) in w.granted then w.granted[(s, k)] else []
  }

  // ----- when an action can happen -------------------------------------------------------------

  /** The crawl thread asks the job table about the object it has reached; the crawler asserts that what
      it visits is resolved. */
  predicate ServerCan(g: Config, store: JobLog.Store, next: nat, x: Session, a: S.Action) {
    && x.serverLive && S.Enabled(Scope(g, x), x.srv, a)
    && (a.SendStarted? ==> Path.IsAbsolute(x.path) && Path.IsResolved(x.path))
    && (a.EndCrawl? ==> Path.IsResolved(Path.Join(g.root, x.path)))
    && (a.Reject? ==> !Path.IsAbsolute(x.path) || !Path.IsResolved(x.path))
    && (a.Skip? ==> IsCompleted(store, x.job, RelativePath(PullObjects(g, x.path)[x.srv.pos])))
    && (a.AnnounceNow? || a.TakeTicket? ==>
          !IsCompleted(store, x.job, RelativePath(PullObjects(g, x.path)[x.srv.pos])))
    && (a.TakeTicket? ==> a.id == next)
  }

  predicate ClientCan(x: Session, a: C.Action) {
    && x.clientLive && C.Enabled(x.cli, a)
    && (a.Receive? ==> |x.cli.inbox| < |x.srv.out| && a.message == x.srv.out[|x.cli.inbox|])
  }

  /** The step of a client that an action makes, if any. */
  function ClientPart(a: Action): Option<C.Action> {
    match a
    case ClientStep(_, b) => Some(b)
    case StreamEnds(_, k, _, ok) => Some(if ok then C.StreamOk(k) else C.StreamFails(k))
    case CheckDone(_, k, hashed) => Some(C.CheckOk(k, hashed))
    case _ => None
  }

  predicate HasSession(a: Action) {
    a.ServerStep? || a.ClientStep? || a.Request? || a.StreamEnds? || a.CheckDone? || a.Report? || a.KillClient?
  }

  /** What an action that is about a session asks of that session. */
  predicate SessionCan(g: Config, w: World, x: Session, a: Action)
    requires HasSession(a)
  {
    match a
    case ServerStep(_, b) => ServerCan(g, w.store, w.tickets.next, x, b)
    case ClientStep(_, b) => ClientCan(x, b) && !b.StreamOk? && !b.CheckOk?
    case Request(s, k) =>
      ClientCan(x, C.StreamOk(k)) && TransferAt(x.cli, k).Some? && (s, k) !in w.granted
    case StreamEnds(s, k, n, ok) =>
      && ClientCan(x, ClientPart(a).value) && TransferAt(x.cli, k).Some?
      && n <= |Granted(w, s, k)| && (ok ==> AsUint64(TransferAt(x.cli, k).value.bytes) <= n)
    case CheckDone(_, k, hashed) =>
      && ClientCan(x, ClientPart(a).value) && TransferAt(x.cli, k).Some?
      && (hashed ==> g.hash(Disk(w, x.peer, C.PathOf(x.cli.inbox, k))) == TransferAt(x.cli, k).value.sha256)
    case Report(_, k) =>
      ClientCan(x, C.CheckReturns(k)) && C.IsObject(x.cli.inbox, k) && x.cli.job.Some?
    case _ => true
  }

  /** Job ids are fresh, dates are single lines, and a crash leaves a first part of each log. */
  predicate StoreCan(store: JobLog.Store, a: Action) {
    match a
    case StartJob(id, created, path, _) => id != "" && JobLog.Given(store, JobLog.New(id, created, path))
    case ResumeJob(id, _) => id in store.disk && JobLog.LoadLog(store.disk[id]).Some?
    case Restart(kept) => JobLog.Given(store, JobLog.Restart(kept))
    case _ => true
  }

  predicate Enabled(g: Config, w: World, a: Action) {
    if HasSession(a) then a.s < |w.sessions| && SessionCan(g, w, w.sessions[a.s], a)
    else StoreCan(w.store, a) && (a.Deliver? || a.Lose? ==> (a.job, a.path) in w.wire)
  }

  // ----- what it does --------------------------------------------------------------------------

  function StoreAfter(store: JobLog.Store, a: Action): JobLog.Store {
    match a
    case StartJob(id, created, path, _) => JobLog.Apply(store, JobLog.New(id, created, path))
    case ResumeJob(id, _) => JobLog.Apply(store, JobLog.Continue(id))
    case Deliver(job, path) => JobLog.Apply(store, JobLog.Success(job, path))
    case Restart(kept) => JobLog.Apply(store, JobLog.Restart(kept))
    case _ => store
  }

  function TakeTicket(t: Tickets, file: ReadyFile): Tickets {
    t.(ready := TryEmplace(t.ready, t.next, file), issued := t.issued[t.next := file], next := t.next + 1)
  }

  /** A file request: honoured at most once, and only for the address it was issued to. */
  function Redeem(t: Tickets, id: nat, address: nat): (Option<ReadyFile>, Tickets) {
    var (file, rest) := PopIf(t.ready, id, (f: ReadyFile) => f.address == address);
    (file, if file.Some? then t.(ready := rest, honoured := t.honoured + {id}) else t)
  }

  function TicketsAfter(g: Config, w: World, a: Action): Tickets
    requires Enabled(g, w, a)
  {
    match a
    case ServerStep(s, b) =>
      var x := w.sessions[s];
      if b.TakeTicket? then TakeTicket(w.tickets, ReadyFile(x.peer, PullObjects(g, x.path)[x.srv.pos])) else w.tickets
    case Request(s, k) => Redeem(w.tickets, TransferAt(w.sessions[s].cli, k).value.id, w.sessions[s].peer).1
    case Restart(_) => w.tickets.(ready := map[], issued := map[])
    case _ => w.tickets
  }

  function GrantedAfter(g: Config, w: World, a: Action): map<(nat, nat), Bytes>
    requires Enabled(g, w, a)
  {
    match a
    case Request(s, k) =>
      var file := Redeem(w.tickets, TransferAt(w.sessions[s].cli, k).value.id, w.sessions[s].peer).0;
      var task := (s, k);
      if file.Some? then w.granted[task := file.value.source.content] else w.granted
    case _ => w.granted
  }

  function DisksAfter(g: Config, w: World, a: Action): map<(nat, string), Bytes>
    requires Enabled(g, w, a)
  {
    match a
    case StreamEnds(s, k, n, _) =>
      var x := w.sessions[s];
      var at := (x.peer, C.PathOf(x.cli.inbox, k));
      w.disks[at := Overwrite(Disk(w, at.0, at.1), Granted(w, s, k)[..n])]
    case _ => w.disks
  }

  function WireAfter(g: Config, w: World, a: Action): multiset<(string, string)>
    requires Enabled(g, w, a)
  {
    match a
    case Report(s, k) => w.wire + multiset{(w.sessions[s].cli.job.value, C.PathOf(w.sessions[s].cli.inbox, k))}
    case Deliver(job, path) => w.wire - multiset{(job, path)}
    case Lose(job, path) => w.wire - multiset{(job, path)}
    case _ => w.wire
  }

  /** A crash that tears a line of a log, or takes its path. */
  predicate Tears(store: JobLog.Store, a: Action, job: string) {
    a.Restart? && job in a.kept && !(job in store.disk && JobLog.IsLineCut(store.disk[job], a.kept[job]))
  }

  /** A path with a line break that is written to a log. */
  predicate Breaks(store: JobLog.Store, a: Action, job: string) {
    || (a.StartJob? && a.id == job && '\n' in a.path)
    || (a.Deliver? && a.job == job && job in store.jobs && '\n' in a.path)
  }

  function Torn(store: JobLog.Store, a: Action): set<string> {
    if a.Restart? then set job | job in a.kept && Tears(store, a, job) else {}
  }

  function Broken(store: JobLog.Store, a: Action): set<string> {
    match a
    case StartJob(id, _, _, _) => if Breaks(store, a, id) then {id} else {}
    case Deliver(job, _) => if Breaks(store, a, job) then {job} else {}
    case _ => {}
  }

  function HistoryAfter(g: Config, w: World, a: Action): History
    requires Enabled(g, w, a)
  {
    match a
    case StartJob(_, _, _, _) => w.history.(broken := w.history.broken + Broken(w.store, a))
    case Deliver(_, _) => w.history.(broken := w.history.broken + Broken(w.store, a))
    case Restart(_) => w.history.(torn := w.history.torn + Torn(w.store, a))
    case CheckDone(s, k, hashed) =>
      var x := w.sessions[s];
      var path := C.PathOf(x.cli.inbox, k);
      if hashed then w.history.(readBacks := w.history.readBacks + {ReadBack(s, k, x.job, path, Disk(w, x.peer, path))})
      else w.history.(unhashed := w.history.unhashed + {(x.job, path)})
    case _ => w.history
  }

  /** The session an action is about, after it. */
  function SessionAfter(g: Config, w: World, x: Session, a: Action): Session
    requires HasSession(a) && SessionCan(g, w, x, a)
  {
    if ClientPart(a).Some? then x.(cli := C.Apply(x.cli, ClientPart(a).value))
    else if a.ServerStep? then x.(srv := S.Apply(Scope(g, x), x.srv, a.srv))
    else if a.KillClient? then x.(clientLive := false)
    else x
  }

  function SessionsAfter(g: Config, w: World, a: Action): seq<Session>
    requires Enabled(g, w, a)
  {
    if HasSession(a) then w.sessions[a.s := SessionAfter(g, w, w.sessions[a.s], a)]
    else match a
      case StartJob(id, _, path, peer) => w.sessions + [NewSession(g, id, path, peer)]
      case ResumeJob(id, peer) => w.sessions + [NewSession(g, id, StoreAfter(w.store, a).jobs[id].path, peer)]
      case Restart(_) =>
        seq(|w.sessions|, i requires 0 <= i < |w.sessions| => w.sessions[i].(serverLive := false))
      case _ => w.sessions
  }

  function Apply(g: Config, w: World, a: Action): World
    requires Enabled(g, w, a)
  {
    World(StoreAfter(w.store, a), TicketsAfter(g, w, a), GrantedAfter(g, w, a), DisksAfter(g, w, a),
          WireAfter(g, w, a), HistoryAfter(g, w, a), SessionsAfter(g, w, a))
  }

  predicate CanRun(g: Config, w: World, actions: seq<Action>)
    decreases |actions|
  {
    actions == [] || (Enabled(g, w, actions[0]) && CanRun(g, Apply(g, w, actions[0]), actions[1..]))
  }

  function Run(g: Config, w: World, actions: seq<Action>): World
    requires CanRun(g, w, actions)
    decreases |actions|
  {
    if actions == [] then w else Run(g, Apply(g, w, actions[0]), actions[1..])
  }

  /** Whether an action of this kind is among those of a run. */
  predicate Along(g: Config, w: World, actions: seq<Action>, kind: (World, Action) -> bool)
    requires CanRun(g, w, actions)
    decreases |actions|
  {
    actions != [] && (kind(w, actions[0]) || Along(g, Apply(g, w, actions[0]), actions[1..], kind))
  }

  // ----- the ticket table as an object ---------------------------------------------------------

  class ReadyFiles {
    const files: GuardedMap<nat, ReadyFile>
    ghost var tickets: Tickets

    ghost predicate Valid()
      reads this, files
    {
      files.data == tickets.ready
    }

    constructor ()
      ensures Valid() && fresh(files) && tickets == Init().tickets
    {
      tickets := Init().tickets;
      files := new GuardedMap();
    }

    /** The crawl thread, about a file to be announced; `id` is fresh. */
    method Announce(id: nat, file: ReadyFile)
      requires Valid() && id == tickets.next
      modifies this, files
      ensures Valid() && tickets == TakeTicket(old(tickets), file)
    {
      var inserted := files.Put(id, file);
      tickets := TakeTicket(tickets, file);
    }

    /** The request loop, asked for a file. */
    method Request(id: nat, peer: nat) returns (ready: Option<ReadyFile>)
      requires Valid()
      modifies this, files
      ensures Valid() && (ready, tickets) == Redeem(old(tickets), id, peer)
    {
      ready := files.GetAndPopIf(id, (f: ReadyFile) => f.address == peer);
      tickets := Redeem(tickets, id, peer).1;
    }
  }
}
