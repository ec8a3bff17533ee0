/**
 One file on its way: `sendfile` on the server, two nested `splice` loops around a pipe on the
 client, and the counter all stream tasks share with the console thread.
 */
module Streaming {
  import opened Messages
  import opened Wrappers

  type Bytes = seq<bv8>

  const SPLICE_BUFFER: nat := 16 * 1024
  const SSIZE_MAX: nat := 0x7FFF_FFFF_FFFF_FFFF

  // ----- the server ----------------------------------------------------------------------------

  function Min(a: nat, b: nat): nat {
    if a < b then a else b
  }

  /** `done` unless a call failed or the file ended early. Each call moves some of what is left. */
  method SendFile(file: Bytes, bytes: nat) returns (sent: Bytes, done: bool, ghost failed: bool)
    ensures sent <= file && |sent| <= bytes
    ensures done <==> |sent| == bytes
    ensures !failed ==> sent == file[..Min(bytes, |file|)]
  {
    sent, failed := [], false;
    var bytesRemaining := bytes;
    while bytesRemaining > 0
      invariant 0 <= bytesRemaining && |sent| + bytesRemaining == bytes && sent <= file && !failed
    {
      var fails: bool := *;
      if fails {
        failed := true;
        return sent, false, failed;
      }
      var limit, bytesRead := Min(SSIZE_MAX, bytesRemaining), 0;
      if |sent| < |file| {
        bytesRead :| 1 <= bytesRead <= limit && |sent| + bytesRead <= |file|;
      }
      if bytesRead == 0 {
        break;
      }
      assert file[..|sent| + bytesRead] == file[..|sent|] + file[|sent|..|sent| + bytesRead];
      sent := sent + file[|sent|..|sent| + bytesRead];
      bytesRemaining := bytesRemaining - bytesRead;
    }
    done := bytesRemaining == 0;
    assert sent == file[..|sent|];
  }

  // ----- the client ----------------------------------------------------------------------------

  class Transfer {
    var incoming: Bytes             // from the server, until it closes the connection
    var pipe: Bytes
    var written: Bytes              // to the file, from its start
    var totalBytesTransferred: nat

    constructor (fromServer: Bytes)
      ensures incoming == fromServer && pipe == [] && written == [] && totalBytesTransferred == 0
    {
      incoming, pipe, written, totalBytesTransferred := fromServer, [], [], 0;
    }

    /** The inner loop: everything that is in the pipe goes to the file. */
    method EmptyPipe(expected: nat) returns (ok: bool, ghost failed: bool)
      requires |pipe| == expected
      modifies this`pipe, this`written, this`totalBytesTransferred
      ensures written + pipe == old(written + pipe)
      ensures ok ==> pipe == []
      ensures ok <==> !failed
      ensures totalBytesTransferred - |written| == old(totalBytesTransferred - |written|)
    {
      var expectedBytes := expected;
      while expectedBytes > 0
        invariant |pipe| == expectedBytes && written + pipe == old(written + pipe)
        invariant totalBytesTransferred - |written| == old(totalBytesTransferred - |written|)
      {
        var fails: bool := *;
        if fails {
          return false, true;
        }
        var sentBytes :| 1 <= sentBytes <= expectedBytes;
        assert pipe == pipe[..sentBytes] + pipe[sentBytes..];
        written, pipe := written + pipe[..sentBytes], pipe[sentBytes..];
        expectedBytes := expectedBytes - sentBytes;
        totalBytesTransferred := totalBytesTransferred + sentBytes;
      }
      return true, false;
    }

    /** The outer loop, up to the size in the message. Whatever the calls return, the file holds the
        stream's bytes in order; on success at least as many as the message said, and the pipe is
        empty each time more is read. */
    method ReadFile(bytes: int) returns (ok: bool, ghost failed: bool)
      requires pipe == [] && written == []
      modifies this
      ensures written + pipe + incoming == old(incoming)
      ensures ok ==> pipe == [] && AsUint64(bytes) <= |written|
      ensures ok ==> |written| < AsUint64(bytes) + SPLICE_BUFFER || written == []
      ensures !ok ==> failed || |old(incoming)| < AsUint64(bytes)
      ensures totalBytesTransferred == old(totalBytesTransferred) + |written|
    {
      failed := false;
      var totalBytes := 0;
      while totalBytes < AsUint64(bytes)
        invariant pipe == [] && |written| == totalBytes && written + incoming == old(incoming) && !failed
        invariant totalBytes == 0 || totalBytes < AsUint64(bytes) + SPLICE_BUFFER
        invariant totalBytesTransferred == old(totalBytesTransferred) + |written|
        decreases |incoming|
      {
        var fails: bool := *;
        if fails {
          failed := true;
          return false, failed;
        }
        var expectedBytes := 0;
        if incoming != [] {
          expectedBytes :| 1 <= expectedBytes <= SPLICE_BUFFER && expectedBytes <= |incoming|;
        }
        if expectedBytes == 0 {
          return false, failed;
        }
        totalBytes := totalBytes + expectedBytes;
        var passed;
        passed, failed := PassOn(expectedBytes);
        if !passed {
          return false, failed;
        }
      }
      assert written + [] == written;
      return true, failed;
    }

    /** What the outer `splice` moved into the pipe, and then the inner loop. */
    method PassOn(expectedBytes: nat) returns (ok: bool, ghost failed: bool)
      requires pipe == [] && expectedBytes <= |incoming|
      modifies this
      ensures written + pipe + incoming == old(written + incoming)
      ensures ok ==> pipe == [] && |written| == old(|written|) + expectedBytes && written + incoming == old(written + incoming)
      ensures ok <==> !failed
      ensures |incoming| == old(|incoming|) - expectedBytes
      ensures totalBytesTransferred - |written| == old(totalBytesTransferred - |written|)
    {
      ghost var before, stream := written, incoming;
      pipe, incoming := incoming[..expectedBytes], incoming[expectedBytes..];
      ok, failed := EmptyPipe(expectedBytes);
      assert before + stream[..expectedBytes] + stream[expectedBytes..] == before + stream;
      assert written + [] == written;
    }
  }

  // ----- reading back --------------------------------------------------------------------------

  const RECOMMENDED_BUFFER_SIZE: nat := 64 * 1024

  /** An integrity task's loop. The builder digests the chunks it was given in order, so whatever
      their sizes the digest is that of the whole file; nothing when a call fails. */
  method ReadBack(hash: Bytes -> int, file: Bytes) returns (digest: Option<int>, failed: bool)
    ensures digest == if failed then None else Some(hash(file))
  {
    var updated: Bytes := [];
    while true
      invariant updated <= file
      decreases |file| - |updated|
    {
      var fails: bool := *;
      if fails {
        return None, true;
      }
      var bytesRead := 0;
      if |updated| < |file| {
        bytesRead :| 1 <= bytesRead <= RECOMMENDED_BUFFER_SIZE && |updated| + bytesRead <= |file|;
      }
      if bytesRead == 0 {
        break;
      }
      assert file[..|updated| + bytesRead] == file[..|updated|] + file[|updated|..|updated| + bytesRead];
      updated := updated + file[|updated|..|updated| + bytesRead];
    }
    assert updated == file;
    return Some(hash(updated)), false;
  }

  // ----- end to end ----------------------------------------------------------------------------

  /** The size in the message is the file's exactly below 2 GiB. */
  lemma SizeArrivesExactly(size: nat)
    requires size <= SSIZE_MAX
    ensures AsUint64(Int32(size)) == size <==> size < 0x8000_0000
  {}

  /** A file can be pulled whole exactly when it is below 2 GiB. Then it is written whole or the
      transfer fails, which takes a failed call. A larger one is never whole when the loop ends well,
      and where the field turns negative the loop never does. */
  method Pull(file: Bytes) returns (written: Bytes, ok: bool, ghost failed: bool)
    requires |file| <= SSIZE_MAX
    ensures written <= file
    ensures |file| < 0x8000_0000 ==> (ok ==> written == file) && (!failed ==> ok)
    ensures |file| >= 0x8000_0000 ==> !(ok && written == file)
    ensures Int32(|file|) < 0 ==> !ok
  {
    SizeArrivesExactly(|file|);
    var sent, done, sendFailed := SendFile(file, |file|);
    assert file[..|file|] == file;
    var transfer := new Transfer(sent);
    ghost var readFailed;
    ok, readFailed := transfer.ReadFile(Int32(|file|));
    written := transfer.written;
    failed := sendFailed || readFailed;
    assert written <= sent;
  }

  // ----- the shared counter --------------------------------------------------------------------

  /** Per stream task: bytes written to its file, and those of them not yet added to the counter. */
  datatype Worker = Worker(written: nat, unadded: nat)

  datatype Counter = Counter(workers: seq<Worker>, value: nat, drained: nat)

  datatype Action =
    | Start
    | Spliced(w: nat, n: nat)
    | Added(w: nat)
    | Drain                     // exchange(0) on the console thread

  predicate Enabled(c: Counter, a: Action) {
    match a
    case Spliced(w, _) => w < |c.workers| && c.workers[w].unadded == 0
    case Added(w) => w < |c.workers|
    case _ => true
  }

  function Apply(c: Counter, a: Action): Counter
    requires Enabled(c, a)
  {
    match a
    case Start => c.(workers := c.workers + [Worker(0, 0)])
    case Spliced(w, n) => c.(workers := c.workers[w := Worker(c.workers[w].written + n, n)])
    case Added(w) =>
      c.(workers := c.workers[w := c.workers[w].(unadded := 0)], value := c.value + c.workers[w].unadded)
    case Drain => c.(value := 0, drained := c.drained + c.value)
  }

  function Written(ws: seq<Worker>): nat {
    if ws == [] then 0 else ws[0].written + Written(ws[1..])
  }

  function Unadded(ws: seq<Worker>): nat {
    if ws == [] then 0 else ws[0].unadded + Unadded(ws[1..])
  }

  lemma {:induction false} SumsAt(ws: seq<Worker>, w: nat, x: Worker)
    requires w < |ws|
    ensures Written(ws[w := x]) == Written(ws) - ws[w].written + x.written
    ensures Unadded(ws[w := x]) == Unadded(ws) - ws[w].unadded + x.unadded
    decreases w
  {
    if w == 0 {
      assert ws[0 := x][1..] == ws[1..];
    } else {
      SumsAt(ws[1..], w - 1, x);
      assert ws[w := x][1..] == ws[1..][w - 1 := x];
    }
  }

  lemma {:induction false} SumsAppend(ws: seq<Worker>, x: Worker)
    ensures Written(ws + [x]) == Written(ws) + x.written && Unadded(ws + [x]) == Unadded(ws) + x.unadded
  {
    if ws == [] {
      assert ws + [x] == [x] && [x][1..] == [];
    } else {
      SumsAppend(ws[1..], x);
      assert (ws + [x])[1..] == ws[1..] + [x];
    }
  }

  predicate CanRun(c: Counter, actions: seq<Action>)
    decreases |actions|
  {
    actions == [] || (Enabled(c, actions[0]) && CanRun(Apply(c, actions[0]), actions[1..]))
  }

  function Run(c: Counter, actions: seq<Action>): Counter
    requires CanRun(c, actions)
    decreases |actions|
  {
    if actions == [] then c else Run(Apply(c, actions[0]), actions[1..])
  }

  predicate Conserved(c: Counter) {
    c.value + c.drained + Unadded(c.workers) == Written(c.workers)
  }

  lemma StepConserves(c: Counter, a: Action)
    requires Conserved(c) && Enabled(c, a)
    ensures Conserved(Apply(c, a))
  {
    match a
    case Start => SumsAppend(c.workers, Worker(0, 0));
    case Spliced(w, n) => SumsAt(c.workers, w, Worker(c.workers[w].written + n, n));
    case Added(w) => SumsAt(c.workers, w, c.workers[w].(unadded := 0));
    case Drain =>
  }

  /** No byte is counted twice or lost: on every interleaving what the console has taken, what is in
      the counter and what is about to be added are the bytes written by all tasks. */
  lemma {:induction false} BytesAreConserved(c: Counter, actions: seq<Action>)
    requires Conserved(c) && CanRun(c, actions)
    ensures Conserved(Run(c, actions))
    decreases |actions|
  {
    if actions != [] {
      StepConserves(c, actions[0]);
      BytesAreConserved(Apply(c, actions[0]), actions[1..]);
    }
  }

  /** What the console has seen never exceeds what was written, and is all of it exactly when no task
      is between its `splice` and its addition. */
  lemma ConsoleSeesAllExactly(c: Counter)
    requires Conserved(c)
    ensures c.value + c.drained <= Written(c.workers)
    ensures c.value + c.drained == Written(c.workers) <==> forall w | w in c.workers :: w.unadded == 0
  {
    NothingUnadded(c.workers);
  }

  lemma {:induction false} NothingUnadded(ws: seq<Worker>)
    ensures Unadded(ws) == 0 <==> forall w | w in ws :: w.unadded == 0
  {
    if ws != [] {
      NothingUnadded(ws[1..]);
      assert ws == [ws[0]] + ws[1..];
    }
  }
}
