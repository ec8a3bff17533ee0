/**
 The clients' copies: what was read back with the right digest is still on that client's disk, until
 another session of the same address streams to the same path; and what a finished pull leaves.
 */
module ProtocolCopies {
  import C = ClientSession
  import S = ServerSession
  import opened FastCrawler
  import opened Messages
  import opened Protocol
  import opened ProtocolInvariant
  import opened ProtocolResults

  // ----- what a check leaves -------------------------------------------------------------------

  /** A read-back is that of a file its session has completed with a digest. */
  predicate ReadInv(g: Config, w: World, r: ReadBack) {
    && r.s < |w.sessions| && IsReadOf(g, w.sessions[r.s], r)
  }

  predicate IsReadOf(g: Config, x: Session, r: ReadBack) {
    && r.job == x.job && TransferAt(x.cli, r.k).Some? && r.path == C.PathOf(x.cli.inbox, r.k)
    && g.hash(r.content) == TransferAt(x.cli, r.k).value.sha256
    && C.HasFate(x.cli, r.k, C.Complete(true))
  }

  predicate HasRead(h: History, s: nat, k: nat) {
    exists r | r in h.readBacks :: r.s == s && r.k == k
  }

  /** A completed file has been read back, or had no digest. */
  predicate LeftInv(h: History, s: nat, x: Session, k: nat) {
    TransferAt(x.cli, k).Some? ==>
      && (C.HasFate(x.cli, k, C.Complete(true)) ==> HasRead(h, s, k))
      && (C.HasFate(x.cli, k, C.Complete(false)) ==> (x.job, C.PathOf(x.cli.inbox, k)) in h.unhashed)
  }

  ghost predicate CopiesInv(g: Config, w: World) {
    && (forall r | r in w.history.readBacks :: ReadInv(g, w, r))
    && (forall s, k: nat | 0 <= s < |w.sessions| :: LeftInv(w.history, s, w.sessions[s], k))
  }

  /** What has been read of messages and ended of files stays. */
  lemma ClientKeeps(x: Session, a: C.Action, k: nat)
    requires C.TasksInv(x.cli) && C.Enabled(x.cli, a)
    ensures var t := C.Apply(x.cli, a);
      && (C.IsObject(x.cli.inbox, k) ==> C.IsObject(t.inbox, k) && t.inbox[k] == x.cli.inbox[k])
      && (C.HasFate(x.cli, k, C.Complete(true)) ==> C.HasFate(t, k, C.Complete(true)))
  {
    C.StepInbox(x.cli, a);
    assert C.KnownInv(x.cli, k) && C.TaskInv(x.cli, k) && C.KnownInv(x.cli, |x.cli.inbox|);
    C.StepCompletes(x.cli, a, k, true);
  }

  lemma SessionKeepsRead(g: Config, w: World, a: Action, x: Session, r: ReadBack)
    requires HasSession(a) && SessionCan(g, w, x, a) && C.TasksInv(x.cli) && IsReadOf(g, x, r)
    ensures IsReadOf(g, SessionAfter(g, w, x, a), r)
  {
    if ClientPart(a).Some? {
      ClientKeeps(x, ClientPart(a).value, r.k);
    }
  }

  lemma StepRead(g: Config, w: World, a: Action, r: ReadBack)
    requires Inv(g, w) && Enabled(g, w, a) && ReadInv(g, w, r)
    ensures ReadInv(g, Apply(g, w, a), r)
  {
    SessionAt(g, w, a, r.s);
    assert SessionInv(g, w.store, w.history, w.sessions[r.s]);
    if HasSession(a) && a.s == r.s {
      SessionKeepsRead(g, w, a, w.sessions[r.s], r);
    }
  }

  /** A check with a digest completes its file with one. */
  lemma CheckReads(g: Config, x: Session, s: nat, k: nat, content: Bytes)
    requires C.TasksInv(x.cli) && C.Enabled(x.cli, C.CheckOk(k, true)) && TransferAt(x.cli, k).Some?
    requires g.hash(content) == TransferAt(x.cli, k).value.sha256
    ensures IsReadOf(g, x.(cli := C.Apply(x.cli, C.CheckOk(k, true))),
                     ReadBack(s, k, x.job, C.PathOf(x.cli.inbox, k), content))
  {}

  lemma NewRead(g: Config, w: World, s: nat, k: nat)
    requires Inv(g, w) && s < |w.sessions| && C.IsObject(w.sessions[s].cli.inbox, k)
    requires Enabled(g, w, CheckDone(s, k, true))
    ensures var x := w.sessions[s];
      var at := C.PathOf(x.cli.inbox, k);
      ReadInv(g, Apply(g, w, CheckDone(s, k, true)), ReadBack(s, k, x.job, at, Disk(w, x.peer, at)))
  {
    var x := w.sessions[s];
    var t := Apply(g, w, CheckDone(s, k, true));
    SessionAt(g, w, CheckDone(s, k, true), s);
    assert t.sessions[s] == x.(cli := C.Apply(x.cli, C.CheckOk(k, true)));
    assert SessionInv(g, w.store, w.history, x);
    CheckReads(g, x, s, k, Disk(w, x.peer, C.PathOf(x.cli.inbox, k)));
  }

  lemma StepReads(g: Config, w: World, a: Action, r: ReadBack)
    requires Inv(g, w) && Enabled(g, w, a) && (r in w.history.readBacks ==> ReadInv(g, w, r))
    requires r in HistoryAfter(g, w, a).readBacks
    ensures ReadInv(g, Apply(g, w, a), r)
  {
    if r in w.history.readBacks {
      StepRead(g, w, a, r);
    } else {
      NewRead(g, w, a.s, a.k);
    }
  }

  lemma StepLeft(g: Config, w: World, a: Action, s: nat, k: nat)
    requires Inv(g, w) && Enabled(g, w, a) && s < |Apply(g, w, a).sessions|
    requires s < |w.sessions| ==> LeftInv(w.history, s, w.sessions[s], k)
    ensures LeftInv(HistoryAfter(g, w, a), s, Apply(g, w, a).sessions[s], k)
  {
    SessionAt(g, w, a, s);
    if s < |w.sessions| {
      LeftGrows(w.history, HistoryAfter(g, w, a), s, w.sessions[s], k);
      if HasSession(a) && a.s == s && ClientPart(a).Some? {
        ClientLeaves(g, w, a, k);
      }
    }
  }

  lemma LeftGrows(h: History, h': History, s: nat, x: Session, k: nat)
    requires LeftInv(h, s, x, k)
    ensures h.readBacks <= h'.readBacks && h.unhashed <= h'.unhashed ==> LeftInv(h', s, x, k)
  {
    if HasRead(h, s, k) && h.readBacks <= h'.readBacks {
      var r :| r in h.readBacks && r.s == s && r.k == k;
      assert r in h'.readBacks;
    }
  }

  lemma ClientLeaves(g: Config, w: World, a: Action, k: nat)
    requires Inv(g, w) && Enabled(g, w, a) && HasSession(a) && ClientPart(a).Some?
    requires LeftInv(HistoryAfter(g, w, a), a.s, w.sessions[a.s], k)
    ensures LeftInv(HistoryAfter(g, w, a), a.s, SessionAfter(g, w, w.sessions[a.s], a), k)
  {
    var x, b, h := w.sessions[a.s], ClientPart(a).value, HistoryAfter(g, w, a);
    assert SessionInv(g, w.store, w.history, x);
    if a.CheckDone? && a.hashed {
      var at := C.PathOf(x.cli.inbox, a.k);
      assert ReadBack(a.s, a.k, x.job, at, Disk(w, x.peer, at)) in h.readBacks;
    }
    ClientStepLeaves(h, a.s, x, b, k);
  }

  lemma ClientStepLeaves(h: History, s: nat, x: Session, b: C.Action, k: nat)
    requires C.TasksInv(x.cli) && C.Enabled(x.cli, b) && LeftInv(h, s, x, k)
    requires b.CheckOk? && C.IsObject(x.cli.inbox, b.k) ==>
      if b.hashed then HasRead(h, s, b.k) else (x.job, C.PathOf(x.cli.inbox, b.k)) in h.unhashed
    ensures LeftInv(h, s, x.(cli := C.Apply(x.cli, b)), k)
  {
    C.StepInbox(x.cli, b);
    assert C.KnownInv(x.cli, k) && C.TaskInv(x.cli, k) && C.KnownInv(x.cli, |x.cli.inbox|);
    C.StepCompletes(x.cli, b, k, true);
    C.StepCompletes(x.cli, b, k, false);
  }

  lemma StepCopies(g: Config, w: World, a: Action)
    requires Inv(g, w) && CopiesInv(g, w) && Enabled(g, w, a)
    ensures CopiesInv(g, Apply(g, w, a))
  {
    var v := Apply(g, w, a);
    forall r | r in v.history.readBacks ensures ReadInv(g, v, r) {
      StepReads(g, w, a, r);
    }
    forall s, k: nat | 0 <= s < |v.sessions| ensures LeftInv(v.history, s, v.sessions[s], k) {
      StepLeft(g, w, a, s, k);
    }
  }

  // ----- the copy itself -----------------------------------------------------------------------

  /** Another session of the address has streamed to the path since. */
  predicate Overwrites(w: World, a: Action, r: ReadBack) {
    && r in w.history.readBacks && r.s < |w.sessions|
    && a.StreamEnds? && a.s < |w.sessions| && a.s != r.s && w.sessions[a.s].peer == w.sessions[r.s].peer
    && C.IsObject(w.sessions[a.s].cli.inbox, a.k) && C.PathOf(w.sessions[a.s].cli.inbox, a.k) == r.path
  }

  function Overwriting(r: ReadBack): (World, Action) -> bool {
    (v: World, b: Action) => Overwrites(v, b, r)
  }

  predicate IsOnDisk(w: World, r: ReadBack) {
    r.s < |w.sessions| && Disk(w, w.sessions[r.s].peer, r.path) == r.content
  }

  /** A session writes to a path of its own only before the file there is complete. */
  lemma OwnStreamIsOver(g: Config, x: Session, k: nat, r: ReadBack)
    requires ValidConfig(g) && S.StreamInv(Scope(g, x), x.srv) && LinkInv(x) && C.TasksInv(x.cli) && IsReadOf(g, x, r)
    requires C.IsObject(x.cli.inbox, k)
    requires C.Enabled(x.cli, C.StreamOk(k)) || C.Enabled(x.cli, C.StreamFails(k))
    ensures C.PathOf(x.cli.inbox, k) != r.path
  {
    assert C.TaskInv(x.cli, k);
    StreamDistinct(g, x);
    C.DistinctPrefix(x.cli.inbox, x.srv.out);
    if k < r.k {
      assert C.PathOf(x.cli.inbox, k) != C.PathOf(x.cli.inbox, r.k);
    } else if r.k < k {
      assert C.PathOf(x.cli.inbox, r.k) != C.PathOf(x.cli.inbox, k);
    }
  }

  lemma KeepsPeer(g: Config, w: World, a: Action, s: nat)
    requires Enabled(g, w, a) && s < |w.sessions|
    ensures s < |Apply(g, w, a).sessions| && Apply(g, w, a).sessions[s].peer == w.sessions[s].peer
  {
    SessionAt(g, w, a, s);
  }

  /** Only the end of a stream to a path writes to it. */
  lemma StepDisk(g: Config, w: World, a: Action, peer: nat, path: string)
    requires Enabled(g, w, a)
    requires a.StreamEnds? ==> (w.sessions[a.s].peer, C.PathOf(w.sessions[a.s].cli.inbox, a.k)) != (peer, path)
    ensures Disk(Apply(g, w, a), peer, path) == Disk(w, peer, path)
  {}

  lemma StepOnDisk(g: Config, w: World, a: Action, r: ReadBack)
    requires ValidConfig(g) && Inv(g, w) && Enabled(g, w, a) && !Overwrites(w, a, r)
    requires r in w.history.readBacks ==> ReadInv(g, w, r) && IsOnDisk(w, r)
    ensures r in HistoryAfter(g, w, a).readBacks ==> IsOnDisk(Apply(g, w, a), r)
  {
    if r in w.history.readBacks {
      if a.StreamEnds? && a.s == r.s {
        assert SessionInv(g, w.store, w.history, w.sessions[r.s]);
        OwnStreamIsOver(g, w.sessions[r.s], a.k, r);
      }
      KeepsPeer(g, w, a, r.s);
      StepDisk(g, w, a, w.sessions[r.s].peer, r.path);
    }
  }

  lemma {:induction false} OnDiskFrom(g: Config, w: World, actions: seq<Action>, r: ReadBack)
    requires ValidConfig(g) && Inv(g, w) && CopiesInv(g, w) && CanRun(g, w, actions)
    requires (r in w.history.readBacks ==> IsOnDisk(w, r)) && !Along(g, w, actions, Overwriting(r))
    ensures r in Run(g, w, actions).history.readBacks ==> IsOnDisk(Run(g, w, actions), r)
    decreases |actions|
  {
    if actions != [] {
      StepOnDisk(g, w, actions[0], r);
      StepInv(g, w, actions[0]);
      StepCopies(g, w, actions[0]);
      OnDiskFrom(g, Apply(g, w, actions[0]), actions[1..], r);
    }
  }

  lemma {:induction false} RunCopies(g: Config, w: World, actions: seq<Action>)
    requires ValidConfig(g) && Inv(g, w) && CopiesInv(g, w) && CanRun(g, w, actions)
    ensures CopiesInv(g, Run(g, w, actions))
    decreases |actions|
  {
    if actions != [] {
      StepInv(g, w, actions[0]);
      StepCopies(g, w, actions[0]);
      RunCopies(g, Apply(g, w, actions[0]), actions[1..]);
    }
  }

  /** On every run: what a client read back is on its disk ever after, byte for byte, until another
      session of the same address streams to that path. */
  lemma CopyStays(g: Config, actions: seq<Action>, r: ReadBack)
    requires ValidConfig(g) && CanRun(g, Init(), actions) && r in Run(g, Init(), actions).history.readBacks
    ensures var w := Run(g, Init(), actions);
      ReadInv(g, w, r) && (!Along(g, Init(), actions, Overwriting(r)) ==> IsOnDisk(w, r))
  {
    RunCopies(g, Init(), actions);
    if !Along(g, Init(), actions, Overwriting(r)) {
      OnDiskFrom(g, Init(), actions, r);
    }
  }

  // ----- what a stream task writes -------------------------------------------------------------

  /** Whichever server issued them: a session's tickets are for its own files. */
  ghost predicate OwnTickets(os: seq<Object>, peer: nat, tickets: map<nat, nat>, t: Tickets) {
    forall i | i in tickets ::
      && i < |os| && tickets[i] < t.next
      && (tickets[i] in t.issued ==> t.issued[tickets[i]] == ReadyFile(peer, os[i]))
  }

  /** What is streamed to a task is the file its message names. */
  ghost predicate GrantInv(g: Config, w: World, s: nat, k: nat) {
    (s, k) in w.granted ==>
      s < |w.sessions| && IsSource(g, w.sessions[s], k, w.granted[(s, k)])
  }

  ghost predicate IsSource(g: Config, x: Session, k: nat, content: Bytes) {
    && TransferAt(x.cli, k).Some?
    && exists i: nat :: i < |PullObjects(g, x.path)| && IsNamed(x, k, PullObjects(g, x.path)[i])
         && PullObjects(g, x.path)[i].content == content
  }

  predicate IsNamed(x: Session, k: nat, o: Object) {
    C.IsObject(x.cli.inbox, k) && C.PathOf(x.cli.inbox, k) == RelativePath(o)
  }

  ghost predicate GrantsInv(g: Config, w: World) {
    && TicketsInv(w.tickets)
    && (forall s | 0 <= s < |w.sessions| ::
          OwnTickets(PullObjects(g, w.sessions[s].path), w.sessions[s].peer, w.sessions[s].srv.tickets, w.tickets))
    && (forall s: nat, k: nat :: GrantInv(g, w, s, k))
  }

  lemma StepOwnTickets(g: Config, w: World, a: Action, s: nat)
    requires GrantsInv(g, w) && Enabled(g, w, a) && s < |SessionsAfter(g, w, a)|
    ensures var y := SessionsAfter(g, w, a)[s];
      OwnTickets(PullObjects(g, y.path), y.peer, y.srv.tickets, TicketsAfter(g, w, a))
  {
    SessionAt(g, w, a, s);
    if s < |w.sessions| {
      var x := w.sessions[s];
      if a.ServerStep? && a.srv.TakeTicket? {
        S.StepTicketed(Scope(g, w.sessions[a.s]), w.sessions[a.s].srv, a.srv);
        TakenIsOwn(g, w, a.s, x);
      } else {
        TicketsKeep(g, w, a);
        if a.ServerStep? && a.s == s {
          S.StepTicketed(Scope(g, x), x.srv, a.srv);
        }
      }
    }
  }

  lemma TakenIsOwn(g: Config, w: World, n: nat, x: Session)
    requires n < |w.sessions| && w.sessions[n].srv.pos < |PullObjects(g, w.sessions[n].path)|
    requires OwnTickets(PullObjects(g, x.path), x.peer, x.srv.tickets, w.tickets)
    ensures var y, i := w.sessions[n], w.sessions[n].srv.pos;
      var t := TakeTicket(w.tickets, ReadyFile(y.peer, PullObjects(g, y.path)[i]));
      && OwnTickets(PullObjects(g, x.path), x.peer, x.srv.tickets, t)
      && (x == y ==> OwnTickets(PullObjects(g, x.path), x.peer, x.srv.tickets[i := w.tickets.next], t))
  {}

  lemma TicketsKeep(g: Config, w: World, a: Action)
    requires Enabled(g, w, a) && !(a.ServerStep? && a.srv.TakeTicket?)
    ensures var t := TicketsAfter(g, w, a);
      t.next == w.tickets.next && (t.issued == w.tickets.issued || t.issued == map[])
  {}

  lemma RequestIsSource(g: Config, w: World, s: nat, k: nat)
    requires GrantsInv(g, w) && Enabled(g, w, Request(s, k))
    requires S.StreamInv(Scope(g, w.sessions[s]), w.sessions[s].srv) && LinkInv(w.sessions[s])
    ensures var x := w.sessions[s];
      var file := Redeem(w.tickets, TransferAt(x.cli, k).value.id, x.peer).0;
      file.Some? ==> IsSource(g, x, k, file.value.source.content)
  {
    var x := w.sessions[s];
    ReadIsSent(x, k);
    var i := TransferIsTicketed(g, x, k);
    assert OwnTickets(PullObjects(g, x.path), x.peer, x.srv.tickets, w.tickets);
    assert IsNamed(x, k, PullObjects(g, x.path)[i]);
  }

  lemma StepGrant(g: Config, w: World, a: Action, s: nat, k: nat)
    requires Inv(g, w) && GrantsInv(g, w) && Enabled(g, w, a)
    ensures GrantInv(g, Apply(g, w, a), s, k)
  {
    assert GrantInv(g, w, s, k);
    if a == Request(s, k) {
      NewGrant(g, w, s, k);
    } else {
      if (s, k) in w.granted {
        SourceKept(g, w, a, s, k, w.granted[(s, k)]);
      }
      GrantAfter(g, w, a, s, k);
    }
  }

  lemma NewGrant(g: Config, w: World, s: nat, k: nat)
    requires Inv(g, w) && GrantsInv(g, w) && Enabled(g, w, Request(s, k))
    ensures GrantInv(g, Apply(g, w, Request(s, k)), s, k)
  {
    assert SessionInv(g, w.store, w.history, w.sessions[s]);
    assert GrantInv(g, w, s, k);
    RequestIsSource(g, w, s, k);
    RequestChanges(g, w, s, k);
  }

  lemma RequestChanges(g: Config, w: World, s: nat, k: nat)
    requires Enabled(g, w, Request(s, k))
    ensures var v := Apply(g, w, Request(s, k));
      var file := Redeem(w.tickets, TransferAt(w.sessions[s].cli, k).value.id, w.sessions[s].peer).0;
      && v.sessions == w.sessions
      && ((s, k) in v.granted ==> file.Some? && v.granted[(s, k)] == file.value.source.content)
  {}

  lemma GrantAfter(g: Config, w: World, a: Action, s: nat, k: nat)
    requires Enabled(g, w, a) && a != Request(s, k)
    ensures var m := GrantedAfter(g, w, a);
      ((s, k) in m <==> (s, k) in w.granted) && ((s, k) in w.granted ==> m[(s, k)] == w.granted[(s, k)])
  {}

  lemma SourceKept(g: Config, w: World, a: Action, s: nat, k: nat, content: Bytes)
    requires Inv(g, w) && Enabled(g, w, a) && s < |w.sessions| && IsSource(g, w.sessions[s], k, content)
    ensures s < |SessionsAfter(g, w, a)| && IsSource(g, SessionsAfter(g, w, a)[s], k, content)
  {
    if HasSession(a) && a.s == s && ClientPart(a).Some? {
      SessionAt(g, w, a, s);
      assert SessionInv(g, w.store, w.history, w.sessions[s]);
      ClientKeepsSource(g, w.sessions[s], ClientPart(a).value, k, content);
    } else {
      ClientKept(g, w, a, s);
      SameSource(g, w.sessions[s], SessionsAfter(g, w, a)[s], k, content);
    }
  }

  lemma ClientKept(g: Config, w: World, a: Action, s: nat)
    requires Enabled(g, w, a) && s < |w.sessions| && !(HasSession(a) && a.s == s && ClientPart(a).Some?)
    ensures s < |SessionsAfter(g, w, a)|
    ensures SessionsAfter(g, w, a)[s].cli == w.sessions[s].cli && SessionsAfter(g, w, a)[s].path == w.sessions[s].path
  {
    SessionAt(g, w, a, s);
  }

  lemma SameSource(g: Config, x: Session, y: Session, k: nat, content: Bytes)
    requires IsSource(g, x, k, content) && y.cli == x.cli && y.path == x.path
    ensures IsSource(g, y, k, content)
  {
    var i: nat :| i < |PullObjects(g, x.path)| && IsNamed(x, k, PullObjects(g, x.path)[i])
      && PullObjects(g, x.path)[i].content == content;
    assert IsNamed(y, k, PullObjects(g, y.path)[i]);
  }

  lemma ClientKeepsSource(g: Config, x: Session, b: C.Action, k: nat, content: Bytes)
    requires C.TasksInv(x.cli) && C.Enabled(x.cli, b) && IsSource(g, x, k, content)
    ensures IsSource(g, x.(cli := C.Apply(x.cli, b)), k, content)
  {
    ClientKeeps(x, b, k);
    var i: nat :| i < |PullObjects(g, x.path)| && IsNamed(x, k, PullObjects(g, x.path)[i])
      && PullObjects(g, x.path)[i].content == content;
    assert IsNamed(x.(cli := C.Apply(x.cli, b)), k, PullObjects(g, x.path)[i]);
  }

  lemma StepGrants(g: Config, w: World, a: Action)
    requires Inv(g, w) && GrantsInv(g, w) && Enabled(g, w, a)
    ensures GrantsInv(g, Apply(g, w, a))
  {
    var v := Apply(g, w, a);
    StepTickets(g, w, a);
    forall s | 0 <= s < |v.sessions|
      ensures OwnTickets(PullObjects(g, v.sessions[s].path), v.sessions[s].peer, v.sessions[s].srv.tickets, v.tickets)
    {
      StepOwnTickets(g, w, a, s);
    }
    forall s: nat, k: nat ensures GrantInv(g, v, s, k) {
      StepGrant(g, w, a, s, k);
    }
  }

  lemma {:induction false} RunGrants(g: Config, w: World, actions: seq<Action>)
    requires ValidConfig(g) && Inv(g, w) && GrantsInv(g, w) && CanRun(g, w, actions)
    ensures GrantsInv(g, Run(g, w, actions))
    decreases |actions|
  {
    if actions != [] {
      StepInv(g, w, actions[0]);
      StepGrants(g, w, actions[0]);
      RunGrants(g, Apply(g, w, actions[0]), actions[1..]);
    }
  }

  /** In every reachable state a stream task writes the first bytes of the file its message names, and
      leaves what an older copy has beyond them; one that ends well has written all of a file below
      2 GiB. */
  lemma StreamWritesSource(g: Config, actions: seq<Action>, s: nat, k: nat, n: nat, ok: bool) returns (i: nat)
    requires ValidConfig(g) && CanRun(g, Init(), actions)
    requires Enabled(g, Run(g, Init(), actions), StreamEnds(s, k, n, ok))
    ensures var w := Run(g, Init(), actions);
      WritesSource(g, w, w.sessions[s], s, k, n, ok, i)
  {
    Reachable(g, actions);
    RunGrants(g, Init(), actions);
    i := StreamWrites(g, Run(g, Init(), actions), s, k, n, ok);
  }

  predicate WritesSource(g: Config, w: World, x: Session, s: nat, k: nat, n: nat, ok: bool, i: nat)
    requires Enabled(g, w, StreamEnds(s, k, n, ok)) && C.IsObject(x.cli.inbox, k)
  {
    var old', now := Disk(w, x.peer, C.PathOf(x.cli.inbox, k)),
                     Disk(Apply(g, w, StreamEnds(s, k, n, ok)), x.peer, C.PathOf(x.cli.inbox, k));
    && i < |PullObjects(g, x.path)| && C.PathOf(x.cli.inbox, k) == RelativePath(PullObjects(g, x.path)[i])
    && IsWritten(old', PullObjects(g, x.path)[i].content, n, now)
    && (ok && |PullObjects(g, x.path)[i].content| < 0x8000_0000 ==> n == |PullObjects(g, x.path)[i].content|)
  }

  lemma StreamWrites(g: Config, w: World, s: nat, k: nat, n: nat, ok: bool) returns (i: nat)
    requires ValidConfig(g) && Inv(g, w) && GrantsInv(g, w) && Enabled(g, w, StreamEnds(s, k, n, ok))
    ensures WritesSource(g, w, w.sessions[s], s, k, n, ok, i)
  {
    assert SessionInv(g, w.store, w.history, w.sessions[s]);
    i := StreamedAt(g, w, s, k);
    StreamEndWrites(g, w, s, k, n, ok, PullObjects(g, w.sessions[s].path)[i].content);
  }

  predicate IsWritten(old': Bytes, content: Bytes, n: nat, now: Bytes) {
    n <= |content| && now == content[..n] + (if n <= |old'| then old'[n..] else [])
  }

  lemma StreamedAt(g: Config, w: World, s: nat, k: nat) returns (i: nat)
    requires ValidConfig(g) && GrantsInv(g, w) && s < |w.sessions| && TransferAt(w.sessions[s].cli, k).Some?
    requires S.StreamInv(Scope(g, w.sessions[s]), w.sessions[s].srv) && LinkInv(w.sessions[s])
    ensures var x := w.sessions[s];
      && i < |PullObjects(g, x.path)| && C.PathOf(x.cli.inbox, k) == RelativePath(PullObjects(g, x.path)[i])
      && TransferAt(x.cli, k).value.bytes == Int32(|PullObjects(g, x.path)[i].content|)
      && ((s, k) in w.granted ==> w.granted[(s, k)] == PullObjects(g, x.path)[i].content)
  {
    var x := w.sessions[s];
    ReadIsSent(x, k);
    i := TransferIsTicketed(g, x, k);
    if (s, k) in w.granted {
      assert GrantInv(g, w, s, k);
      SourceIsAt(g, x, k, w.granted[(s, k)], i);
    }
  }

  lemma SourceIsAt(g: Config, x: Session, k: nat, content: Bytes, i: nat)
    requires ValidConfig(g) && IsSource(g, x, k, content)
    requires i < |PullObjects(g, x.path)| && C.PathOf(x.cli.inbox, k) == RelativePath(PullObjects(g, x.path)[i])
    ensures PullObjects(g, x.path)[i].content == content
  {
    var j: nat :| j < |PullObjects(g, x.path)| && IsNamed(x, k, PullObjects(g, x.path)[j])
      && PullObjects(g, x.path)[j].content == content;
    SamePathSameObject(g, x.path, i, j);
  }

  lemma StreamEndWrites(g: Config, w: World, s: nat, k: nat, n: nat, ok: bool, content: Bytes)
    requires Enabled(g, w, StreamEnds(s, k, n, ok)) && ((s, k) in w.granted ==> w.granted[(s, k)] == content)
    requires TransferAt(w.sessions[s].cli, k).value.bytes == Int32(|content|)
    ensures var x := w.sessions[s];
      IsWritten(Disk(w, x.peer, C.PathOf(x.cli.inbox, k)), content, n,
                Disk(Apply(g, w, StreamEnds(s, k, n, ok)), x.peer, C.PathOf(x.cli.inbox, k)))
    ensures ok && |content| < 0x8000_0000 ==> n == |content|
  {
    if |content| < 0x8000_0000 {
      SmallSize(|content|);
    }
  }

  // ----- end to end ----------------------------------------------------------------------------

  /** File `i` of the job has been read back, by this read, with its digest. */
  predicate ReadsSource(g: Config, x: Session, r: ReadBack, i: nat) {
    && i < |PullObjects(g, x.path)| && r.job == x.job && r.path == RelativePath(PullObjects(g, x.path)[i])
    && g.hash(r.content) == g.hash(PullObjects(g, x.path)[i].content)
  }

  lemma BackedIsRead(g: Config, h: History, x: Session, i: nat) returns (r: ReadBack)
    requires ValidConfig(g) && i < |PullObjects(g, x.path)|
    requires Backed(g, h, x.job, x.path, RelativePath(PullObjects(g, x.path)[i]))
    requires (x.job, RelativePath(PullObjects(g, x.path)[i])) !in h.unhashed
    ensures r in h.readBacks && ReadsSource(g, x, r, i)
  {
    var p := RelativePath(PullObjects(g, x.path)[i]);
    var j: nat :| BackedBy(g, h, x.job, x.path, p, j);
    SamePathSameObject(g, x.path, i, j);
    r :| r in h.readBacks && r.job == x.job && r.path == p
      && g.hash(r.content) == g.hash(PullObjects(g, x.path)[i].content);
  }

  lemma DeliveredIsRead(g: Config, w: World, s: nat, i: nat) returns (r: ReadBack)
    requires ValidConfig(g) && Inv(g, w) && CopiesInv(g, w) && s < |w.sessions|
    requires w.sessions[s].cli.inbox == w.sessions[s].srv.out && Delivered(w.sessions[s], i)
    requires i < |PullObjects(g, w.sessions[s].path)| && PullObjects(g, w.sessions[s].path)[i].kind == Regular
    requires (w.sessions[s].job, RelativePath(PullObjects(g, w.sessions[s].path)[i])) !in w.history.unhashed
    ensures r in w.history.readBacks && r.s == s && ReadsSource(g, w.sessions[s], r, i)
  {
    var x := w.sessions[s];
    assert SessionInv(g, w.store, w.history, x);
    var k := DeliveredAt(g, x, i);
    r := CompleteIsRead(w.history, s, x, k);
    assert ReadInv(g, w, r);
    DigestIsSources(g, x, k, i);
  }

  lemma DeliveredAt(g: Config, x: Session, i: nat) returns (k: nat)
    requires S.StreamInv(Scope(g, x), x.srv) && x.cli.inbox == x.srv.out && C.TasksInv(x.cli)
    requires i < |PullObjects(g, x.path)| && PullObjects(g, x.path)[i].kind == Regular && Delivered(x, i)
    ensures C.IsComplete(x.cli, k) && TransferAt(x.cli, k).Some?
    ensures C.PathOf(x.cli.inbox, k) == RelativePath(PullObjects(g, x.path)[i])
  {
    var n: nat :| n < |x.srv.sent| && x.srv.sent[n] == i && C.IsComplete(x.cli, n + 1);
    k := n + 1;
    FileIsRead(Scope(g, x), x.srv, x.cli, n);
  }

  lemma FileIsRead(c: S.Scope, srv: S.Server, cli: C.Client, n: nat)
    requires S.StreamInv(c, srv) && cli.inbox == srv.out && C.TasksInv(cli)
    requires n < |srv.sent| && S.IsFile(c, srv.sent[n]) && C.IsComplete(cli, n + 1)
    ensures TransferAt(cli, n + 1).Some? && C.PathOf(cli.inbox, n + 1) == RelativePath(c.objects[srv.sent[n]])
  {
    assert C.KnownInv(cli, n + 1);
    FileMessageAt(c, srv, n);
  }

  lemma CompleteIsRead(h: History, s: nat, x: Session, k: nat) returns (r: ReadBack)
    requires LeftInv(h, s, x, k) && C.IsComplete(x.cli, k) && TransferAt(x.cli, k).Some?
    requires (x.job, C.PathOf(x.cli.inbox, k)) !in h.unhashed
    ensures r in h.readBacks && r.s == s && r.k == k
  {
    assert C.HasFate(x.cli, k, C.Complete(x.cli.fate[k].hashed));
    r :| r in h.readBacks && r.s == s && r.k == k;
  }

  /** Session `s` has been told of the whole tree and reported an empty list, and the server could
      hash every file. */
  ghost predicate HasPulled(w: World, s: nat) {
    && s < |w.sessions| && w.sessions[s].cli.phase == C.Reported && w.sessions[s].cli.toComplete == {}
    && forall j: nat :: !S.HasFate(w.sessions[s].srv, j, S.Unhashed)
  }

  /** End to end: then each file of the tree, unless a spoiled log made the server skip it, has a
      client's check behind it; and unless one of its checks was without a digest it was read back
      with its source's digest, by this session's own client if it was not skipped, on whose disk
      that copy still is if no other session of that address has streamed to it since. */
  lemma PulledTreeIsVerified(g: Config, actions: seq<Action>, s: nat, i: nat)
    requires ValidConfig(g) && CanRun(g, Init(), actions) && HasPulled(Run(g, Init(), actions), s)
    requires var x := Run(g, Init(), actions).sessions[s];
      && i < |PullObjects(g, x.path)| && PullObjects(g, x.path)[i].kind == Regular
      && (S.HasFate(x.srv, i, S.Skipped) ==> !SpoiledAlong(g, actions, x.job))
    ensures var w := Run(g, Init(), actions);
      var x := w.sessions[s];
      var p := RelativePath(PullObjects(g, x.path)[i]);
      && Backed(g, w.history, x.job, x.path, p)
      && (!Along(g, Init(), actions, Missing(x.job, p)) ==>
            exists r | r in w.history.readBacks ::
              && ReadsSource(g, x, r, i) && ReadInv(g, w, r)
              && (r.s == s || S.HasFate(x.srv, i, S.Skipped))
              && (!Along(g, Init(), actions, Overwriting(r)) ==> IsOnDisk(w, r)))
  {
    var w := Run(g, Init(), actions);
    var x := w.sessions[s];
    var p := RelativePath(PullObjects(g, x.path)[i]);
    ReportCoversTree(g, actions, s);
    Reachable(g, actions);
    RunCopies(g, Init(), actions);
    SpoiledFrom(g, Init(), actions, x.job);
    UnhashedFrom(g, Init(), actions, x.job, p);
    PulledIsBacked(g, w, s, i);
    if (x.job, p) !in w.history.unhashed {
      var r := PulledIsRead(g, w, s, i);
      CopyStays(g, actions, r);
    }
  }

  lemma PulledIsBacked(g: Config, w: World, s: nat, i: nat)
    requires ValidConfig(g) && Inv(g, w) && s < |w.sessions| && w.sessions[s].cli.phase == C.Reported
    requires var x := w.sessions[s];
      && Covered(g, x) && i < |PullObjects(g, x.path)| && PullObjects(g, x.path)[i].kind == Regular
      && (S.HasFate(x.srv, i, S.Skipped) ==> !Spoiled(w.history, x.job))
    ensures var x := w.sessions[s];
      x.cli.inbox == x.srv.out && Backed(g, w.history, x.job, x.path, RelativePath(PullObjects(g, x.path)[i]))
  {
    var x := w.sessions[s];
    assert SessionInv(g, w.store, w.history, x);
    ReportedReadAll(g, x);
    CoveredIsBacked(g, w.store, w.history, x, i);
  }

  lemma PulledIsRead(g: Config, w: World, s: nat, i: nat) returns (r: ReadBack)
    requires ValidConfig(g) && Inv(g, w) && CopiesInv(g, w) && s < |w.sessions|
    requires var x := w.sessions[s];
      && x.cli.inbox == x.srv.out && Covered(g, x)
      && i < |PullObjects(g, x.path)| && PullObjects(g, x.path)[i].kind == Regular
      && Backed(g, w.history, x.job, x.path, RelativePath(PullObjects(g, x.path)[i]))
      && (x.job, RelativePath(PullObjects(g, x.path)[i])) !in w.history.unhashed
    ensures r in w.history.readBacks && ReadsSource(g, w.sessions[s], r, i)
    ensures r.s == s || S.HasFate(w.sessions[s].srv, i, S.Skipped)
  {
    if S.HasFate(w.sessions[s].srv, i, S.Skipped) {
      r := BackedIsRead(g, w.history, w.sessions[s], i);
    } else {
      r := DeliveredIsRead(g, w, s, i);
    }
  }
}
