/**
 The breadth-first crawler: a queue of directories still to be read, refined against a recursive
 enumeration of the tree.
 */
module FastCrawler {
  import Path
  import Strings
  import opened Wrappers

  /** `d_type` of a directory entry, and the kind `fstatat` reports. */
  datatype Kind =
    Unknown | Regular | Directory | Symlink | CharDevice | BlockDevice | Fifo | Socket

  /** What opening a name as a directory gives: nothing, or the entries readable before the end
      or the first read error. */
  datatype Listing = Unopenable | Listing(entries: seq<Entry>)

  datatype Entry = Entry(
    name: string,
    dType: Kind,
    stat: Option<Kind>,       // nothing when fstatat fails
    content: seq<bv8>,        // of a regular file
    dupWorks: bool,           // whether dup of the parent's descriptor succeeds
    sub: Listing)

  /** What `HandleObject` is given. `names` are the components of `path` below the crawled root. */
  datatype Object = Object(names: seq<string>, path: string, kind: Kind, content: seq<bv8>)

  datatype Item = Item(names: seq<string>, path: string, listing: Listing)

  function KindOf(e: Entry): Kind
    requires e.stat.Some?
  {
    if e.dType == Unknown then e.stat.value else e.dType
  }

  predicate Supported(e: Entry) {
    && e.name != "." && e.name != ".."
    && e.stat.Some?
    && (KindOf(e) == Regular || KindOf(e) == Directory || KindOf(e) == Symlink)
  }

  predicate Descends(e: Entry) {
    Supported(e) && KindOf(e) == Directory && e.dupWorks
  }

  function ObjectOf(at: Item, e: Entry): Object
    requires Supported(e)
  {
    Object(at.names + [e.name], Path.Join(at.path, e.name), KindOf(e), e.content)
  }

  function ItemOf(at: Item, e: Entry): Item {
    Item(at.names + [e.name], Path.Join(at.path, e.name), e.sub)
  }

  function Entries(l: Listing): seq<Entry> {
    if l.Unopenable? then [] else l.entries
  }

  // ----- the recursive enumeration -------------------------------------------------------------

  function Enumerate(at: Item): seq<Object>
    decreases at.listing, 1
  {
    if at.listing.Unopenable? then [] else EnumerateEntries(at, at.listing.entries)
  }

  function EnumerateEntries(at: Item, es: seq<Entry>): seq<Object>
    decreases es, 0
  {
    if es == [] then []
    else
      var below := if Descends(es[0]) then Enumerate(ItemOf(at, es[0])) else [];
      Own(at, es[0]) + below + EnumerateEntries(at, es[1..])
  }

  function Own(at: Item, e: Entry): seq<Object> {
    if Supported(e) then [ObjectOf(at, e)] else []
  }

  function Sub(at: Item, e: Entry): seq<Item> {
    if Descends(e) then [ItemOf(at, e)] else []
  }

  // ----- the queue-driven crawl ----------------------------------------------------------------

  function Objects(at: Item, es: seq<Entry>): seq<Object> {
    if es == [] then []
    else Own(at, es[0]) + Objects(at, es[1..])
  }

  function Items(at: Item, es: seq<Entry>): seq<Item> {
    if es == [] then []
    else Sub(at, es[0]) + Items(at, es[1..])
  }

  function Size(l: Listing): nat
    decreases l, 1
  {
    1 + if l.Unopenable? then 0 else SizeEntries(l.entries)
  }

  function SizeEntries(es: seq<Entry>): nat
    decreases es, 0
  {
    if es == [] then 0 else Size(es[0].sub) + SizeEntries(es[1..])
  }

  function QueueSize(q: seq<Item>): nat {
    if q == [] then 0 else Size(q[0].listing) + QueueSize(q[1..])
  }

  lemma {:induction false} QueueSizeAppend(a: seq<Item>, b: seq<Item>)
    ensures QueueSize(a + b) == QueueSize(a) + QueueSize(b)
  {
    if a == [] {
      assert a + b == b;
    } else {
      QueueSizeAppend(a[1..], b);
      assert (a + b)[1..] == a[1..] + b;
    }
  }

  lemma {:induction false} ItemsSize(at: Item, es: seq<Entry>)
    ensures QueueSize(Items(at, es)) <= SizeEntries(es)
  {
    if es != [] {
      ItemsSize(at, es[1..]);
      QueueSizeAppend(Sub(at, es[0]), Items(at, es[1..]));
      assert QueueSize(Sub(at, es[0])) <= Size(es[0].sub);
    }
  }

  function Next(q: seq<Item>): (r: seq<Item>)
    requires q != []
    ensures QueueSize(r) < QueueSize(q)
  {
    ItemsSize(q[0], Entries(q[0].listing));
    QueueSizeAppend(q[1..], Items(q[0], Entries(q[0].listing)));
    q[1..] + Items(q[0], Entries(q[0].listing))
  }

  /** The objects handled while the queue drains. */
  function Crawl(q: seq<Item>): seq<Object>
    decreases QueueSize(q)
  {
    if q == [] then [] else Objects(q[0], Entries(q[0].listing)) + Crawl(Next(q))
  }

  function Start(root: string, l: Listing): Item {
    Item([], root, l)
  }

  // ----- the crawl refines the enumeration -----------------------------------------------------

  function Concat(parts: seq<seq<Object>>): seq<Object> {
    if parts == [] then [] else parts[0] + Concat(parts[1..])
  }

  lemma {:induction false} ConcatAppend(a: seq<seq<Object>>, b: seq<seq<Object>>)
    ensures Concat(a + b) == Concat(a) + Concat(b)
  {
    if a == [] {
      assert a + b == b;
    } else {
      ConcatAppend(a[1..], b);
      assert (a + b)[0] == a[0] && (a + b)[1..] == a[1..] + b;
      Regroup(a[0], Concat(a[1..]), Concat(b));
    }
  }

  function Enumerations(q: seq<Item>): seq<seq<Object>> {
    seq(|q|, i requires 0 <= i < |q| => Enumerate(q[i]))
  }

  function EnumerateAll(q: seq<Item>): seq<Object> {
    Concat(Enumerations(q))
  }

  lemma EnumerateAllAppend(a: seq<Item>, b: seq<Item>)
    ensures EnumerateAll(a + b) == EnumerateAll(a) + EnumerateAll(b)
  {
    assert Enumerations(a + b) == Enumerations(a) + Enumerations(b);
    ConcatAppend(Enumerations(a), Enumerations(b));
  }

  lemma EnumerateOne(i: Item)
    ensures EnumerateAll([i]) == Enumerate(i)
  {
    var parts := Enumerations([i]);
    assert parts == [Enumerate(i)];
    assert Concat(parts[1..]) == [];
  }

  lemma {:induction false} EntriesRegrouped(at: Item, es: seq<Entry>)
    ensures multiset(EnumerateEntries(at, es)) == multiset(Objects(at, es)) + multiset(EnumerateAll(Items(at, es)))
  {
    if es != [] {
      EntriesRegrouped(at, es[1..]);
      EnumerateAllAppend(Sub(at, es[0]), Items(at, es[1..]));
      EnumerateSub(at, es[0]);
    }
  }

  lemma EnumerateSub(at: Item, e: Entry)
    ensures EnumerateAll(Sub(at, e)) == if Descends(e) then Enumerate(ItemOf(at, e)) else []
  {
    if Descends(e) {
      EnumerateOne(ItemOf(at, e));
    }
  }

  lemma FirstEnumerates(q: seq<Item>)
    requires q != []
    ensures EnumerateAll(q) == Enumerate(q[0]) + EnumerateAll(q[1..])
  {
    EnumerateAllAppend([q[0]], q[1..]);
    EnumerateOne(q[0]);
    assert q == [q[0]] + q[1..];
  }

  /** Handling the front directory's entries leaves the rest of the enumeration to the queue. */
  lemma NextEnumerates(q: seq<Item>)
    requires q != []
    ensures multiset(EnumerateAll(q))
      == multiset(Objects(q[0], Entries(q[0].listing))) + multiset(EnumerateAll(Next(q)))
  {
    var es := Entries(q[0].listing);
    FirstEnumerates(q);
    EnumerateAllAppend(q[1..], Items(q[0], es));
    EntriesRegrouped(q[0], es);
    assert Enumerate(q[0]) == EnumerateEntries(q[0], es);
  }

  /** Whatever is queued, the crawl handles the same objects, as often, as the enumeration. */
  lemma {:induction false} CrawlIsEnumeration(q: seq<Item>)
    ensures multiset(Crawl(q)) == multiset(EnumerateAll(q))
    decreases QueueSize(q)
  {
    if q != [] {
      CrawlIsEnumeration(Next(q));
      NextEnumerates(q);
    }
  }

  // ----- order ---------------------------------------------------------------------------------

  function Depth(o: Object): nat {
    |o.names|
  }

  predicate DepthsIn(q: seq<Item>, lo: nat, hi: nat) {
    forall i | i in q :: lo <= |i.names| <= hi
  }

  predicate Breadth(q: seq<Item>) {
    && (forall i, j | 0 <= i < j < |q| :: |q[i].names| <= |q[j].names|)
    && (q != [] ==> DepthsIn(q, |q[0].names|, |q[0].names| + 1))
  }

  lemma {:induction false} PumpDepths(at: Item, es: seq<Entry>)
    ensures forall o | o in Objects(at, es) :: Depth(o) == |at.names| + 1
    ensures DepthsIn(Items(at, es), |at.names| + 1, |at.names| + 1)
  {
    if es != [] {
      PumpDepths(at, es[1..]);
    }
  }

  lemma NextBreadth(q: seq<Item>)
    requires q != [] && Breadth(q)
    ensures Breadth(Next(q)) && DepthsIn(Next(q), |q[0].names|, |q[0].names| + 1)
  {
    var es := Entries(q[0].listing);
    PumpDepths(q[0], es);
    var n := Next(q);
    forall i | i in n ensures |q[0].names| <= |i.names| <= |q[0].names| + 1 {
      assert i in q[1..] || i in Items(q[0], es);
    }
    forall i, j | 0 <= i < j < |n| ensures |n[i].names| <= |n[j].names| {
      if j < |q| - 1 {
        assert n[i] == q[i + 1] && n[j] == q[j + 1];
      } else {
        assert n[j] == Items(q[0], es)[j - (|q| - 1)];
        assert n[i] in n;
      }
    }
    forall i | i in n ensures |n[0].names| <= |i.names| {
      var j :| 0 <= j < |n| && n[j] == i;
    }
  }

  predicate DepthOrdered(os: seq<Object>) {
    forall i, j | 0 <= i < j < |os| :: Depth(os[i]) <= Depth(os[j])
  }

  predicate DeeperThan(d: nat, os: seq<Object>) {
    forall o | o in os :: d < Depth(o)
  }

  lemma DepthStep(q: seq<Item>, rest: seq<Object>)
    requires q != [] && Breadth(q) && DepthOrdered(rest)
    requires if Next(q) == [] then rest == [] else DeeperThan(|Next(q)[0].names|, rest)
    ensures DepthOrdered(Objects(q[0], Entries(q[0].listing)) + rest)
    ensures DeeperThan(|q[0].names|, Objects(q[0], Entries(q[0].listing)) + rest)
  {
    var os := Objects(q[0], Entries(q[0].listing));
    PumpDepths(q[0], Entries(q[0].listing));
    NextBreadth(q);
    if Next(q) != [] {
      assert Next(q)[0] in Next(q);
    }
    DepthAppend(os, rest, |q[0].names| + 1);
    forall o | o in os + rest ensures |q[0].names| < Depth(o) {
      assert o in os || o in rest;
    }
  }

  /** Objects come in non-decreasing depth. */
  lemma {:induction false} CrawlDepthOrdered(q: seq<Item>)
    requires Breadth(q)
    ensures DepthOrdered(Crawl(q))
    ensures q != [] ==> DeeperThan(|q[0].names|, Crawl(q))
    decreases QueueSize(q)
  {
    if q != [] {
      NextBreadth(q);
      CrawlDepthOrdered(Next(q));
      DepthStep(q, Crawl(Next(q)));
    }
  }

  lemma DepthAppend(a: seq<Object>, b: seq<Object>, d: nat)
    requires (forall o | o in a :: Depth(o) == d) && (forall o | o in b :: d <= Depth(o)) && DepthOrdered(b)
    ensures DepthOrdered(a + b)
  {
    var c := a + b;
    forall i, j | 0 <= i < j < |c| ensures Depth(c[i]) <= Depth(c[j]) {
      assert c[i] in a || c[i] == b[i - |a|];
      assert c[j] in a || c[j] == b[j - |a|];
    }
  }

  // ----- parents -------------------------------------------------------------------------------

  function Parent(o: Object): seq<string>
    requires o.names != []
  {
    o.names[..|o.names| - 1]
  }

  /** `o` is at the top, or its parent directory is among `os`. */
  predicate HasParent(os: seq<Object>, o: Object) {
    o.names != [] && (Parent(o) == [] || exists d | d in os :: d.names == Parent(o) && d.kind == Directory)
  }

  predicate ParentsFirst(before: seq<Object>, os: seq<Object>) {
    forall i | 0 <= i < |os| :: HasParent(before + os[..i], os[i])
  }

  predicate Announced(before: seq<Object>, i: Item) {
    i.names == [] || exists d | d in before :: d.names == i.names && d.kind == Directory
  }

  lemma {:induction false} PumpParents(at: Item, es: seq<Entry>)
    ensures forall o | o in Objects(at, es) :: o.names != [] && Parent(o) == at.names
    ensures forall i | i in Items(at, es) :: exists d | d in Objects(at, es) :: d.names == i.names && d.kind == Directory
  {
    if es != [] {
      PumpParents(at, es[1..]);
      if Descends(es[0]) {
        assert ObjectOf(at, es[0]) in Objects(at, es);
      }
      forall o | o in Objects(at, es[1..]) ensures o in Objects(at, es) {}
    }
  }

  predicate AllAnnounced(before: seq<Object>, q: seq<Item>) {
    forall i | i in q :: Announced(before, i)
  }

  lemma PumpAnnounces(before: seq<Object>, q: seq<Item>)
    requires q != [] && AllAnnounced(before, q)
    ensures AllAnnounced(before + Objects(q[0], Entries(q[0].listing)), Next(q))
  {
    var es := Entries(q[0].listing);
    var os := Objects(q[0], es);
    PumpParents(q[0], es);
    forall i | i in Next(q) ensures Announced(before + os, i) {
      assert i in q || i in Items(q[0], es);
    }
  }

  lemma ParentStep(before: seq<Object>, at: Item, rest: seq<Object>)
    requires Announced(before, at)
    requires ParentsFirst(before + Objects(at, Entries(at.listing)), rest)
    ensures ParentsFirst(before, Objects(at, Entries(at.listing)) + rest)
  {
    var os := Objects(at, Entries(at.listing));
    PumpParents(at, Entries(at.listing));
    AppendParents(before, os, rest, at.names);
  }

  lemma AppendParents(before: seq<Object>, os: seq<Object>, rest: seq<Object>, names: seq<string>)
    requires names == [] || exists d | d in before :: d.names == names && d.kind == Directory
    requires forall o | o in os :: o.names != [] && Parent(o) == names
    requires ParentsFirst(before + os, rest)
    ensures ParentsFirst(before, os + rest)
  {
    var all := os + rest;
    forall i | 0 <= i < |all| ensures HasParent(before + all[..i], all[i]) {
      if i < |os| {
        assert all[i] in os;
      } else {
        assert before + all[..i] == before + os + rest[..i - |os|];
      }
    }
  }

  /** Every object is handled after its parent directory. */
  lemma {:induction false} CrawlParentsFirst(before: seq<Object>, q: seq<Item>)
    requires AllAnnounced(before, q)
    ensures ParentsFirst(before, Crawl(q))
    decreases QueueSize(q)
  {
    if q != [] {
      var os := Objects(q[0], Entries(q[0].listing));
      PumpAnnounces(before, q);
      CrawlParentsFirst(before + os, Next(q));
      ParentStep(before, q[0], Crawl(Next(q)));
    }
  }

  // ----- names and paths -----------------------------------------------------------------------

  /** A tree as a file system holds it: components as names, different ones in one directory.
      Directory reads also yield "." and "..", which the crawler skips. */
  ghost predicate WellNamed(l: Listing)
    decreases l, 1
  {
    l.Unopenable? || WellNamedEntries(l.entries)
  }

  ghost predicate WellNamedEntries(es: seq<Entry>)
    decreases es, 0
  {
    es == [] || (
      && (es[0].name == "." || es[0].name == ".." || Path.IsComponent(es[0].name))
      && (forall e | e in es[1..] :: e.name != es[0].name)
      && WellNamed(es[0].sub)
      && WellNamedEntries(es[1..]))
  }

  ghost predicate IsUnder(o: Object, at: Item) {
    && |at.names| < |o.names| && o.names[..|at.names|] == at.names
  }

  ghost predicate ComponentsBelow(o: Object, at: Item) {
    IsUnder(o, at) && Path.AreComponents(o.names[|at.names|..])
  }

  lemma {:induction false} EnumerateUnder(at: Item)
    requires WellNamed(at.listing)
    ensures forall o | o in Enumerate(at) :: ComponentsBelow(o, at)
    decreases at.listing, 1
  {
    if at.listing.Listing? {
      EntriesUnder(at, at.listing.entries);
    }
  }

  lemma {:induction false} EntriesUnder(at: Item, es: seq<Entry>)
    requires WellNamedEntries(es)
    ensures forall o | o in EnumerateEntries(at, es) ::
      ComponentsBelow(o, at) && exists e | e in es :: e.name == o.names[|at.names|]
    decreases es, 0
  {
    if es != [] {
      EntriesUnder(at, es[1..]);
      var inner := ItemOf(at, es[0]);
      EnumerateUnder(inner);
      forall o | o in Enumerate(inner) && Descends(es[0])
        ensures ComponentsBelow(o, at) && es[0].name == o.names[|at.names|]
      {
        UnderInner(o, at, es[0]);
      }
    }
  }

  lemma UnderInner(o: Object, at: Item, e: Entry)
    requires ComponentsBelow(o, ItemOf(at, e)) && Path.IsComponent(e.name)
    ensures ComponentsBelow(o, at) && o.names[|at.names|] == e.name
  {
    var n := |at.names|;
    var inner := at.names + [e.name];
    assert o.names[..n + 1] == inner;
    assert o.names[..n] == o.names[..n + 1][..n] == at.names;
    assert o.names[n] == o.names[..n + 1][n];
    forall c | c in o.names[n..] ensures Path.IsComponent(c) {
      assert o.names[n..] == [e.name] + o.names[n + 1..];
    }
  }

  predicate Distinct(os: seq<Object>) {
    forall i, j | 0 <= i < j < |os| :: os[i].names != os[j].names
  }

  lemma DistinctAppend(a: seq<Object>, b: seq<Object>)
    requires Distinct(a) && Distinct(b)
    requires forall o, u | o in a && u in b :: o.names != u.names
    ensures Distinct(a + b)
  {
    var c := a + b;
    forall i, j | 0 <= i < j < |c| ensures c[i].names != c[j].names {
      assert c[i] == if i < |a| then a[i] else b[i - |a|];
      assert c[j] == if j < |a| then a[j] else b[j - |a|];
    }
  }

  lemma {:induction false} EnumerateDistinct(at: Item)
    requires WellNamed(at.listing)
    ensures Distinct(Enumerate(at))
    decreases at.listing, 1
  {
    if at.listing.Listing? {
      EntriesDistinct(at, at.listing.entries);
    }
  }

  lemma {:induction false} EntriesDistinct(at: Item, es: seq<Entry>)
    requires WellNamedEntries(es)
    ensures Distinct(EnumerateEntries(at, es))
    decreases es, 0
  {
    if es != [] {
      var e, rest := es[0], EnumerateEntries(at, es[1..]);
      EntriesDistinct(at, es[1..]);
      EntriesUnder(at, es[1..]);
      var own := if Supported(e) then [ObjectOf(at, e)] else [];
      var below := if Descends(e) then Enumerate(ItemOf(at, e)) else [];
      if Descends(e) {
        EnumerateDistinct(ItemOf(at, e));
        EnumerateUnder(ItemOf(at, e));
      }
      DistinctAppend(own, below);
      forall o: Object, u: Object | o in own + below && u in rest ensures o.names != u.names {
        if o in below {
          UnderInner(o, at, e);
        }
      }
      DistinctAppend(own + below, rest);
    }
  }

  /** Being distinct does not depend on the order. */
  lemma DistinctPermuted(a: seq<Object>, b: seq<Object>)
    requires multiset(a) == multiset(b) && Distinct(a)
    ensures Distinct(b)
  {
    forall i, j | 0 <= i < j < |b| ensures b[i].names != b[j].names {
      assert b[i] in multiset(b) && b[j] in multiset(b);
      if b[i] == b[j] {
        TwiceInMultiset(b, i, j);
        OnceInMultiset(a, b[i]);
      } else {
        assert b[i] in multiset(a) && b[j] in multiset(a);
        DistinctMembers(a, b[i], b[j]);
      }
    }
  }

  lemma DistinctMembers(a: seq<Object>, o: Object, u: Object)
    requires Distinct(a) && o in a && u in a && o != u
    ensures o.names != u.names
  {
    var k, l :| 0 <= k < |a| && a[k] == o && 0 <= l < |a| && a[l] == u;
  }

  lemma TwiceInMultiset(b: seq<Object>, i: nat, j: nat)
    requires i < j < |b| && b[i] == b[j]
    ensures multiset(b)[b[i]] >= 2
  {
    assert b == b[..j] + [b[j]] + b[j + 1..];
    assert b[i] in b[..j];
  }

  lemma {:induction false} OnceInMultiset(a: seq<Object>, o: Object)
    requires Distinct(a)
    ensures multiset(a)[o] <= 1
  {
    if a != [] {
      assert a == [a[0]] + a[1..];
      OnceInMultiset(a[1..], o);
      if o == a[0] {
        forall i | 0 <= i < |a[1..]| ensures a[1..][i] != o {
          assert a[1..][i] == a[i + 1];
        }
        assert o !in a[1..];
      }
    }
  }

  ghost predicate PathsUnder(root: string, q: seq<Item>) {
    forall i | i in q :: Path.AreComponents(i.names) && i.path == Path.Extend(root, i.names)
  }

  lemma ExtendLast(root: string, names: seq<string>, name: string)
    ensures Path.Extend(root, names + [name]) == Path.Join(Path.Extend(root, names), name)
  {
    assert (names + [name])[..|names|] == names;
  }

  lemma {:induction false} PumpPaths(root: string, at: Item, es: seq<Entry>)
    requires WellNamedEntries(es) && PathsUnder(root, [at])
    ensures forall o | o in Objects(at, es) :: Path.AreComponents(o.names) && o.path == Path.Extend(root, o.names)
    ensures forall i | i in Items(at, es) ::
      Path.AreComponents(i.names) && i.path == Path.Extend(root, i.names) && WellNamed(i.listing)
  {
    if es != [] {
      PumpPaths(root, at, es[1..]);
      assert at in [at];
      ExtendLast(root, at.names, es[0].name);
    }
  }

  lemma {:induction false} CrawlPaths(root: string, q: seq<Item>)
    requires PathsUnder(root, q) && forall i | i in q :: WellNamed(i.listing)
    ensures forall o | o in Crawl(q) :: Path.AreComponents(o.names) && o.path == Path.Extend(root, o.names)
    decreases QueueSize(q)
  {
    if q != [] {
      var es := Entries(q[0].listing);
      PumpPaths(root, q[0], es);
      forall i | i in Next(q)
        ensures Path.AreComponents(i.names) && i.path == Path.Extend(root, i.names) && WellNamed(i.listing)
      {
        assert i in q || i in Items(q[0], es);
      }
      CrawlPaths(root, Next(q));
    }
  }

  /** The path an object is announced under. */
  function RelativePath(o: Object): string {
    Strings.Join(o.names, "/")
  }

  /** The main result for a crawl of a well-named tree: each supported entry of the recursive
      enumeration is handled exactly once, in breadth-first order, after its parent directory, and
      under a path that `RelativeTo` turns back into the entry's slash-joined names. */
  lemma VisitIsExact(root: string, l: Listing)
    requires Path.IsRoot(root) && WellNamed(l)
    ensures var os := Crawl([Start(root, l)]);
      && multiset(os) == multiset(Enumerate(Start(root, l))) && Distinct(os)
      && DepthOrdered(os) && ParentsFirst([], os)
      && forall o | o in os :: o.names != [] && Path.AreComponents(o.names)
           && o.path == root + "/" + Strings.Join(o.names, "/")
           && Path.RelativeTo(o.path, root) == Some(RelativePath(o)) && Path.IsRelative(RelativePath(o))
  {
    var at := Start(root, l);
    var os := Crawl([at]);
    CrawlIsEnumeration([at]);
    EnumerateOne(at);
    EnumerateDistinct(at);
    DistinctPermuted(Enumerate(at), os);
    CrawlDepthOrdered([at]);
    CrawlParentsFirst([], [at]);
    CrawlNames(root, l);
  }

  lemma CrawlNames(root: string, l: Listing)
    requires Path.IsRoot(root) && WellNamed(l)
    ensures forall o | o in Crawl([Start(root, l)]) ::
      && o.names != [] && Path.AreComponents(o.names) && o.path == root + "/" + Strings.Join(o.names, "/")
      && Path.RelativeTo(o.path, root) == Some(RelativePath(o)) && Path.IsRelative(RelativePath(o))
  {
    var os := Crawl([Start(root, l)]);
    CrawlParentsFirst([], [Start(root, l)]);
    CrawlPaths(root, [Start(root, l)]);
    forall o | o in os
      ensures o.names != [] && Path.AreComponents(o.names) && o.path == root + "/" + Strings.Join(o.names, "/")
        && Path.RelativeTo(o.path, root) == Some(RelativePath(o)) && Path.IsRelative(RelativePath(o))
    {
      HasNames(os, o);
      Path.ExtendIsJoined(root, o.names);
    }
  }

  lemma HasNames(os: seq<Object>, o: Object)
    requires ParentsFirst([], os) && o in os
    ensures o.names != []
  {
    var i :| 0 <= i < |os| && os[i] == o;
    assert HasParent([] + os[..i], os[i]);
  }

  /** So announced paths are as distinct as the objects. */
  lemma RelativePathsDistinct(root: string, l: Listing, i: nat, j: nat)
    requires Path.IsRoot(root) && WellNamed(l)
    requires i < |Crawl([Start(root, l)])| && j < |Crawl([Start(root, l)])|
    ensures var os := Crawl([Start(root, l)]);
      RelativePath(os[i]) == RelativePath(os[j]) <==> i == j
  {
    var os := Crawl([Start(root, l)]);
    VisitIsExact(root, l);
    if RelativePath(os[i]) == RelativePath(os[j]) {
      assert os[i] in os && os[j] in os;
      Strings.JoinInjective(os[i].names, os[j].names, '/');
    }
  }

  // ----- what the crawl finds ------------------------------------------------------------------

  /** An entry of this name, whose stat works, of one of the three kinds that are sent; the kind is
      `d_type`, or the one `fstatat` reports where that is unknown. */
  predicate IsEntry(e: Entry, name: string, kind: Kind) {
    && e.name == name && name != "." && name != ".." && e.stat != None
    && (kind == Regular || kind == Directory || kind == Symlink)
    && (e.dType == kind || (e.dType == Unknown && e.stat == Some(kind)))
  }

  /** Walking these names down from a directory ends at such an entry, through directories whose
      descriptor can be duplicated and which can be opened. */
  ghost predicate Finds(l: Listing, names: seq<string>, kind: Kind, content: seq<bv8>)
    decreases |names|, 1
  {
    names != [] && l.Listing? && exists e | e in l.entries :: Leads(e, names, kind, content)
  }

  ghost predicate Leads(e: Entry, names: seq<string>, kind: Kind, content: seq<bv8>)
    requires names != []
    decreases |names|, 0
  {
    if |names| == 1 then IsEntry(e, names[0], kind) && e.content == content
    else IsEntry(e, names[0], Directory) && e.dupWorks && Finds(e.sub, names[1..], kind, content)
  }

  predicate Has(os: seq<Object>, names: seq<string>, kind: Kind, content: seq<bv8>) {
    exists o | o in os :: o.names == names && o.kind == kind && o.content == content
  }

  lemma HasAppend(a: seq<Object>, b: seq<Object>, names: seq<string>, kind: Kind, content: seq<bv8>)
    ensures Has(a + b, names, kind, content) <==> Has(a, names, kind, content) || Has(b, names, kind, content)
  {
    if Has(a, names, kind, content) {
      var o :| o in a && o.names == names && o.kind == kind && o.content == content;
      assert o in a + b;
    }
    if Has(b, names, kind, content) {
      var o :| o in b && o.names == names && o.kind == kind && o.content == content;
      assert o in a + b;
    }
  }

  /** Everything found below a directory is below it. */
  lemma {:induction false} FoundBelow(at: Item)
    ensures forall o | o in Enumerate(at) :: at.names < o.names
    decreases at.listing, 1
  {
    if at.listing.Listing? {
      EntriesBelow(at, at.listing.entries);
    }
  }

  lemma {:induction false} EntriesBelow(at: Item, es: seq<Entry>)
    ensures forall o | o in EnumerateEntries(at, es) :: at.names < o.names
    decreases es, 0
  {
    if es != [] {
      EntriesBelow(at, es[1..]);
      FoundBelow(ItemOf(at, es[0]));
    }
  }

  lemma OwnIsFound(at: Item, e: Entry, names: seq<string>, kind: Kind, content: seq<bv8>)
    requires names != []
    ensures Has(Own(at, e), at.names + names, kind, content)
      <==> |names| == 1 && IsEntry(e, names[0], kind) && e.content == content
  {
    assert names == [names[0]] + names[1..];
    assert at.names + [e.name] == at.names + names ==> (at.names + [e.name])[|at.names|..] == names;
    if |names| == 1 {
      assert names == [names[0]];
      if Supported(e) {
        assert ObjectOf(at, e) in Own(at, e);
      }
    }
  }

  lemma LaterNames(a: seq<string>, name: string, names: seq<string>)
    requires names != []
    ensures a + [name] <= a + names <==> names[0] == name
    ensures names[0] == name ==> a + names == a + [name] + names[1..]
  {
    assert names == [names[0]] + names[1..];
    assert (a + [name])[|a|] == name && (a + names)[|a|] == names[0];
  }

  lemma {:induction false} EnumerateFinds(at: Item, names: seq<string>, kind: Kind, content: seq<bv8>)
    requires names != []
    ensures Has(Enumerate(at), at.names + names, kind, content) <==> Finds(at.listing, names, kind, content)
    decreases at.listing, 1
  {
    if at.listing.Listing? {
      EntriesFind(at, at.listing.entries, names, kind, content);
      assert SomeLeads(at.listing.entries, names, kind, content)
        <==> exists e | e in at.listing.entries :: Leads(e, names, kind, content);
    }
  }

  lemma {:induction false} EntriesFind(at: Item, es: seq<Entry>, names: seq<string>, kind: Kind, content: seq<bv8>)
    requires names != []
    ensures Has(EnumerateEntries(at, es), at.names + names, kind, content) <==> SomeLeads(es, names, kind, content)
    decreases es, 0
  {
    if es != [] {
      var below := if Descends(es[0]) then Enumerate(ItemOf(at, es[0])) else [];
      EntriesFind(at, es[1..], names, kind, content);
      OwnIsFound(at, es[0], names, kind, content);
      BelowIsFound(at, es[0], names, kind, content);
      HasAppend(Own(at, es[0]), below, at.names + names, kind, content);
      HasAppend(Own(at, es[0]) + below, EnumerateEntries(at, es[1..]), at.names + names, kind, content);
      FirstLeads(es, names, kind, content);
    }
  }

  ghost predicate SomeLeads(es: seq<Entry>, names: seq<string>, kind: Kind, content: seq<bv8>)
    requires names != []
  {
    exists e | e in es :: Leads(e, names, kind, content)
  }

  lemma FirstLeads(es: seq<Entry>, names: seq<string>, kind: Kind, content: seq<bv8>)
    requires names != [] && es != []
    ensures SomeLeads(es, names, kind, content) <==> Leads(es[0], names, kind, content) || SomeLeads(es[1..], names, kind, content)
  {
    assert es == [es[0]] + es[1..];
    if Leads(es[0], names, kind, content) {
      assert es[0] in es;
    }
  }

  lemma {:induction false} BelowIsFound(at: Item, e: Entry, names: seq<string>, kind: Kind, content: seq<bv8>)
    requires names != []
    ensures Descends(e) && Has(Enumerate(ItemOf(at, e)), at.names + names, kind, content)
      <==> |names| > 1 && IsEntry(e, names[0], Directory) && e.dupWorks && Finds(e.sub, names[1..], kind, content)
    decreases e, 2
  {
    var inner := ItemOf(at, e);
    FoundBelow(inner);
    LaterNames(at.names, e.name, names);
    if |names| > 1 && names[0] == e.name {
      EnumerateFinds(inner, names[1..], kind, content);
    }
  }

  /** Exactly these objects are handled, in whatever order the queue takes them. */
  lemma VisitFindsExactly(root: string, l: Listing, names: seq<string>, kind: Kind, content: seq<bv8>)
    ensures Has(Crawl([Start(root, l)]), names, kind, content) <==> Finds(l, names, kind, content)
  {
    var at := Start(root, l);
    CrawlIsEnumeration([at]);
    EnumerateOne(at);
    SameMembers(Crawl([at]), Enumerate(at));
    if names == [] {
      FoundBelow(at);
    } else {
      EnumerateFinds(at, names, kind, content);
      assert at.names + names == names;
    }
  }

  lemma SameMembers(a: seq<Object>, b: seq<Object>)
    requires multiset(a) == multiset(b)
    ensures forall o :: o in a <==> o in b
  {
    forall o ensures o in a <==> o in b {
      assert o in multiset(a) <==> o in multiset(b);
    }
  }

  /** Within a directory objects come in the order of its entries, and so do the directories queued:
      what the first entries give comes first. */
  lemma {:induction false} EntriesInOrder(at: Item, es: seq<Entry>, n: nat)
    requires n <= |es|
    ensures Objects(at, es[..n]) <= Objects(at, es) && Items(at, es[..n]) <= Items(at, es)
    decreases n
  {
    if n > 0 {
      EntriesInOrder(at, es[1..], n - 1);
      assert es[..n][0] == es[0] && es[..n][1..] == es[1..][..n - 1];
    }
  }

  // ----- the crawler as an object --------------------------------------------------------------

  lemma OneEntry(at: Item, es: seq<Entry>, i: nat)
    requires i < |es|
    ensures Objects(at, es[i..]) == Own(at, es[i]) + Objects(at, es[i + 1..])
    ensures Items(at, es[i..]) == Sub(at, es[i]) + Items(at, es[i + 1..])
  {
    assert es[i..][1..] == es[i + 1..];
  }

  lemma Regroup<T>(a: seq<T>, b: seq<T>, c: seq<T>)
    ensures (a + b) + c == a + (b + c)
  {}

  /** An entry's objects and items move from what is to come to what is there. */
  lemma EntryMoves(h: seq<Object>, q: seq<Item>, at: Item, es: seq<Entry>, i: nat)
    requires i < |es|
    ensures h + Own(at, es[i]) + Objects(at, es[i + 1..]) == h + Objects(at, es[i..])
    ensures q + Sub(at, es[i]) + Items(at, es[i + 1..]) == q + Items(at, es[i..])
  {
    OneEntry(at, es, i);
    Regroup(h, Own(at, es[i]), Objects(at, es[i + 1..]));
    Regroup(q, Sub(at, es[i]), Items(at, es[i + 1..]));
  }

  lemma NothingLeft(h: seq<Object>, q: seq<Item>, at: Item, es: seq<Entry>)
    requires es == []
    ensures h + Objects(at, es) == h && q + Items(at, es) == q
  {}

  lemma CrawlFirst(h: seq<Object>, q: seq<Item>)
    requires q != []
    ensures h + Crawl(q) == h + Objects(q[0], Entries(q[0].listing)) + Crawl(Next(q))
  {
    Regroup(h, Objects(q[0], Entries(q[0].listing)), Crawl(Next(q)));
  }

  lemma RootItself(root: string)
    requires Path.IsRoot(root)
    ensures Path.Join("", root) == root
  {
    Path.ResolvedEnds(root);
  }

  class Crawler {
    var queue: seq<Item>
    var handled: seq<Object>      // the arguments of HandleObject so far

    constructor ()
      ensures queue == [] && handled == []
    {
      queue, handled := [], [];
    }

    /** Reads one directory. `getdents64` may split the entries into batches in any way. */
    method PumpDirectoryEntries(at: Item)
      modifies this
      ensures handled == old(handled) + Objects(at, Entries(at.listing))
      ensures queue == old(queue) + Items(at, Entries(at.listing))
    {
      if at.listing.Unopenable? {
        return;
      }
      ReadBatches(at, at.listing.entries);
    }

    /** The loop over `getdents64`. */
    method ReadBatches(at: Item, es: seq<Entry>)
      modifies this
      ensures handled == old(handled) + Objects(at, es) && queue == old(queue) + Items(at, es)
    {
      var read := 0;
      assert es[0..] == es;
      while read < |es|
        invariant 0 <= read <= |es|
        invariant handled + Objects(at, es[read..]) == old(handled) + Objects(at, es)
        invariant queue + Items(at, es[read..]) == old(queue) + Items(at, es)
      {
        var bytesRead :| 1 <= bytesRead <= |es| - read;
        HandleBatch(at, es, read, read + bytesRead);
        read := read + bytesRead;
      }
      NothingLeft(handled, queue, at, es[read..]);
    }

    method HandleBatch(at: Item, es: seq<Entry>, start: nat, end: nat)
      requires start <= end <= |es|
      modifies this
      ensures handled + Objects(at, es[end..]) == old(handled) + Objects(at, es[start..])
      ensures queue + Items(at, es[end..]) == old(queue) + Items(at, es[start..])
    {
      var ptr := start;
      ghost var objects, items := handled + Objects(at, es[start..]), queue + Items(at, es[start..]);
      while ptr < end
        invariant start <= ptr <= end
        invariant handled + Objects(at, es[ptr..]) == objects && queue + Items(at, es[ptr..]) == items
      {
        HandleNext(at, es, ptr);
        ptr := ptr + 1;
      }
    }

    /** The entry `ptr` points to. */
    method HandleNext(at: Item, es: seq<Entry>, ptr: nat)
      requires ptr < |es|
      modifies this
      ensures handled + Objects(at, es[ptr + 1..]) == old(handled) + Objects(at, es[ptr..])
      ensures queue + Items(at, es[ptr + 1..]) == old(queue) + Items(at, es[ptr..])
    {
      EntryMoves(handled, queue, at, es, ptr);
      HandleEntry(at, es[ptr]);
    }

    method HandleEntry(at: Item, e: Entry)
      modifies this
      ensures handled == old(handled) + Own(at, e) && queue == old(queue) + Sub(at, e)
    {
      if !Supported(e) {
        return;
      }
      handled := handled + [ObjectOf(at, e)];
      if KindOf(e) == Directory && e.dupWorks {
        queue := queue + [ItemOf(at, e)];
      }
    }

    method Visit(root: string, l: Listing)
      requires Path.IsRoot(root) && queue == []
      modifies this
      ensures queue == [] && handled == old(handled) + Crawl([Start(root, l)])
    {
      PumpRoot(root, l);
      while queue != []
        invariant handled + Crawl(queue) == old(handled) + Crawl([Start(root, l)])
        decreases QueueSize(queue)
      {
        PumpFront();
      }
    }

    /** The root itself, opened by its path. */
    method PumpRoot(root: string, l: Listing)
      requires Path.IsRoot(root) && queue == []
      modifies this
      ensures handled + Crawl(queue) == old(handled) + Crawl([Start(root, l)])
    {
      ghost var h, q := handled, [Start(root, l)];
      RootItself(root);
      PumpDirectoryEntries(Item([], Path.Join("", root), l));
      assert queue == Next(q);
      CrawlFirst(h, q);
    }

    /** The directory at the front of the queue, which is then popped. */
    method PumpFront()
      requires queue != []
      modifies this
      ensures handled + Crawl(queue) == old(handled + Crawl(queue))
      ensures QueueSize(queue) < QueueSize(old(queue))
    {
      ghost var h, q := handled, queue;
      PumpDirectoryEntries(queue[0]);
      queue := queue[1..];
      assert queue == Next(q);
      CrawlFirst(h, q);
    }
  }
}
