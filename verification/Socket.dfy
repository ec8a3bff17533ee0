/**
 Messages on a connection: four bytes of size, most significant first, and then the message. The
 system calls may move any smaller number of bytes than asked for, or fail.
 */
module Socket {
  import opened Wrappers

  type Byte = b: int | 0 <= b < 256

  // ----- frames --------------------------------------------------------------------------------

  const U32: nat := 0x1_0000_0000

  /** A `uint32_t` in network byte order. */
  function SizeBytes(n: nat): (bytes: seq<Byte>)
    ensures |bytes| == 4
  {
    var size := n % U32;
    [size / 0x100 / 0x100 / 0x100, size / 0x100 / 0x100 % 0x100, size / 0x100 % 0x100, size % 0x100]
  }

  function SizeOf(bytes: seq<Byte>): (n: nat)
    requires |bytes| == 4
    ensures n < U32
  {
    var a: int, b: int, c: int, d: int := bytes[0], bytes[1], bytes[2], bytes[3];
    a * 0x100_0000 + b * 0x1_0000 + c * 0x100 + d
  }

  /** The most significant byte comes first. */
  lemma SizeIsBigEndian(n: nat)
    requires n < U32
    ensures var a: int, b: int, c: int, d: int := SizeBytes(n)[0], SizeBytes(n)[1], SizeBytes(n)[2], SizeBytes(n)[3];
      n == a * 0x100_0000 + b * 0x1_0000 + c * 0x100 + d
  {
    SizeReadsBack(n);
  }

  lemma SizeReadsBack(n: nat)
    ensures SizeOf(SizeBytes(n)) == n % U32
  {
    var size := n % U32;
    Digits(size, size / 0x100, size / 0x100 / 0x100);
  }

  lemma Digits(n: nat, h: nat, g: nat)
    requires h == n / 0x100 && g == h / 0x100
    ensures g / 0x100 * 0x100_0000 + g % 0x100 * 0x1_0000 + h % 0x100 * 0x100 + n % 0x100 == n
  {
    assert n == h * 0x100 + n % 0x100;
    assert h == g * 0x100 + h % 0x100;
    assert g == g / 0x100 * 0x100 + g % 0x100;
  }

  function Frame(body: seq<Byte>): seq<Byte> {
    SizeBytes(|body|) + body
  }

  function Frames(bodies: seq<seq<Byte>>): seq<Byte> {
    if bodies == [] then [] else Frame(bodies[0]) + Frames(bodies[1..])
  }

  /** The first message of a stream and what follows; nothing when the stream ends before it does. */
  function ReadFrame(stream: seq<Byte>): (r: Option<(seq<Byte>, seq<Byte>)>)
    ensures r.Some? ==> |r.value.1| < |stream|
  {
    if |stream| < 4 then None
    else
      var size := SizeOf(stream[..4]);
      if |stream| - 4 < size then None else Some((stream[4..4 + size], stream[4 + size..]))
  }

  /** Reading until it fails: the messages, and the bytes that make no whole one. */
  function ReadFrames(stream: seq<Byte>): (seq<seq<Byte>>, seq<Byte>)
    decreases |stream|
  {
    var first := ReadFrame(stream);
    if first.None? then ([], stream)
    else
      var more := ReadFrames(first.value.1);
      ([first.value.0] + more.0, more.1)
  }

  lemma FrameReadsBack(body: seq<Byte>, rest: seq<Byte>)
    requires |body| < U32
    ensures ReadFrame(Frame(body) + rest) == Some((body, rest))
  {
    var stream := Frame(body) + rest;
    SizeReadsBack(|body|);
    assert stream[..4] == SizeBytes(|body|);
    assert stream[4..4 + |body|] == body && stream[4 + |body|..] == rest;
  }

  /** A frame reads back as its message exactly when the size fits its four bytes. */
  lemma FrameReadsBackExactly(body: seq<Byte>, rest: seq<Byte>)
    ensures ReadFrame(Frame(body) + rest) == Some((body, rest)) <==> |body| < U32
  {
    if |body| < U32 {
      FrameReadsBack(body, rest);
    } else {
      var stream := Frame(body) + rest;
      SizeReadsBack(|body|);
      assert stream[..4] == SizeBytes(|body|);
    }
  }

  predicate Fit(bodies: seq<seq<Byte>>) {
    forall body | body in bodies :: |body| < U32
  }

  lemma FourBytes(a: seq<Byte>, b: seq<Byte>)
    requires |a| == 4 && |b| == 4 && a[0] == b[0] && a[1] == b[1] && a[2] == b[2] && a[3] == b[3]
    ensures a == b
  {}

  lemma BytesAre(n: nat, a: int, b: int, c: int, d: int)
    requires n < U32 && n / 0x100 / 0x100 / 0x100 == a && n / 0x100 / 0x100 % 0x100 == b
    requires n / 0x100 % 0x100 == c && n % 0x100 == d
    ensures var bytes := SizeBytes(n);
      a == bytes[0] as int && b == bytes[1] as int && c == bytes[2] as int && d == bytes[3] as int
  {
    assert n % U32 == n;
  }

  lemma SizeIsUnique(bytes: seq<Byte>)
    requires |bytes| == 4
    ensures SizeBytes(SizeOf(bytes)) == bytes
  {
    var a: int, b: int, c: int, d: int := bytes[0], bytes[1], bytes[2], bytes[3];
    DigitsOf(a, b, c, d, SizeOf(bytes));
    BytesAre(SizeOf(bytes), a, b, c, d);
    FourBytes(SizeBytes(SizeOf(bytes)), bytes);
  }

  lemma DigitsOf(a: nat, b: nat, c: nat, d: nat, n: nat)
    requires a < 0x100 && b < 0x100 && c < 0x100 && d < 0x100
    requires n == a * 0x100_0000 + b * 0x1_0000 + c * 0x100 + d
    ensures n / 0x100 / 0x100 / 0x100 == a && n / 0x100 / 0x100 % 0x100 == b
    ensures n / 0x100 % 0x100 == c && n % 0x100 == d
  {
    var h := a * 0x1_0000 + b * 0x100 + c;
    var g := a * 0x100 + b;
    assert n == h * 0x100 + d && h == g * 0x100 + c;
    Undivided(h, d);
    Undivided(g, c);
    Undivided(a, b);
  }

  lemma Undivided(high: nat, low: nat)
    requires low < 0x100
    ensures (high * 0x100 + low) / 0x100 == high && (high * 0x100 + low) % 0x100 == low
  {}

  /** Whatever a stream holds, the frames of the messages read and what is left are all of it. */
  lemma {:induction false} ReadingLosesNothing(stream: seq<Byte>)
    ensures Frames(ReadFrames(stream).0) + ReadFrames(stream).1 == stream
    decreases |stream|
  {
    var first := ReadFrame(stream);
    if first.Some? {
      var (body, rest) := first.value;
      ReadingLosesNothing(rest);
      ReadFrameLosesNothing(stream);
      Regroup(Frame(body), Frames(ReadFrames(rest).0), ReadFrames(rest).1);
      assert ReadFrames(stream).0[1..] == ReadFrames(rest).0;
    }
  }

  lemma ReadFrameLosesNothing(stream: seq<Byte>)
    requires ReadFrame(stream).Some?
    ensures stream == Frame(ReadFrame(stream).value.0) + ReadFrame(stream).value.1
  {
    SizeIsUnique(stream[..4]);
  }

  lemma Regroup(a: seq<Byte>, b: seq<Byte>, c: seq<Byte>)
    ensures a + b + c == a + (b + c)
  {}

  /** The first `n` bytes of the stream hold `k` whole messages. */
  predicate IsCutAt(bodies: seq<seq<Byte>>, n: nat, k: nat)
    requires n <= |Frames(bodies)|
  {
    k <= |bodies| && |Frames(bodies[..k])| <= n && (k < |bodies| ==> n < |Frames(bodies[..k + 1])|)
  }

  /** A stream cut anywhere gives the messages that are whole, and what is left is less than the next. */
  lemma CutGivesPrefix(bodies: seq<seq<Byte>>, n: nat) returns (k: nat)
    requires Fit(bodies) && n <= |Frames(bodies)|
    ensures IsCutAt(bodies, n, k)
    ensures ReadFrames(Frames(bodies)[..n]) == (bodies[..k], Frames(bodies)[|Frames(bodies[..k])|..n])
  {
    k := CutReads(bodies, n);
    var stream := Frames(bodies)[..n];
    ReadingLosesNothing(stream);
    assert stream[|Frames(bodies[..k])|..] == Frames(bodies)[|Frames(bodies[..k])|..n];
  }

  lemma {:induction false} CutReads(bodies: seq<seq<Byte>>, n: nat) returns (k: nat)
    requires Fit(bodies) && n <= |Frames(bodies)|
    ensures IsCutAt(bodies, n, k) && ReadFrames(Frames(bodies)[..n]).0 == bodies[..k]
    decreases |bodies|
  {
    if bodies == [] {
      k := 0;
    } else {
      assert bodies[0] in bodies;
      if n < |Frame(bodies[0])| {
        k := 0;
        CutBeforeFirst(bodies, n);
      } else {
        k := CutReads(bodies[1..], n - |Frame(bodies[0])|);
        CutLater(bodies, n, k);
        CutSizes(bodies, n, k);
        k := k + 1;
      }
    }
  }

  lemma CutBeforeFirst(bodies: seq<seq<Byte>>, n: nat)
    requires bodies != [] && |bodies[0]| < U32 && n < |Frame(bodies[0])|
    ensures n <= |Frames(bodies)| && IsCutAt(bodies, n, 0) && ReadFrames(Frames(bodies)[..n]).0 == []
  {
    CutInFirst(bodies[0], Frames(bodies[1..]), n);
    OneFrame(bodies[0]);
    assert bodies[..1] == [bodies[0]] && bodies[..0] == [];
  }

  lemma CutLater(bodies: seq<seq<Byte>>, n: nat, k: nat)
    requires bodies != [] && |bodies[0]| < U32 && |Frame(bodies[0])| <= n <= |Frames(bodies)| && k < |bodies|
    requires ReadFrames(Frames(bodies[1..])[..n - |Frame(bodies[0])|]).0 == bodies[1..][..k]
    ensures ReadFrames(Frames(bodies)[..n]).0 == bodies[..k + 1]
  {
    FirstFrame(bodies, n);
    assert bodies[..k + 1] == [bodies[0]] + bodies[1..][..k];
  }

  lemma CutSizes(bodies: seq<seq<Byte>>, n: nat, k: nat)
    requires bodies != [] && k <= |bodies| - 1
    requires |Frames(bodies[1..][..k])| <= n - |Frame(bodies[0])|
    requires k < |bodies| - 1 ==> n - |Frame(bodies[0])| < |Frames(bodies[1..][..k + 1])|
    ensures |Frames(bodies[..k + 1])| == |Frame(bodies[0])| + |Frames(bodies[1..][..k])| <= n
    ensures k + 1 < |bodies| ==> n < |Frames(bodies[..k + 2])|
  {
    FramesOfPrefix(bodies, k);
    if k < |bodies| - 1 {
      FramesOfPrefix(bodies, k + 1);
    }
  }

  lemma FirstFrame(bodies: seq<seq<Byte>>, n: nat)
    requires bodies != [] && |bodies[0]| < U32 && |Frame(bodies[0])| <= n <= |Frames(bodies)|
    ensures var more := ReadFrames(Frames(bodies[1..])[..n - |Frame(bodies[0])|]);
      ReadFrames(Frames(bodies)[..n]) == ([bodies[0]] + more.0, more.1)
  {
    var first, rest := Frame(bodies[0]), Frames(bodies[1..]);
    assert (first + rest)[..n] == first + rest[..n - |first|];
    FrameReadsBack(bodies[0], rest[..n - |first|]);
  }

  lemma CutInFirst(body: seq<Byte>, rest: seq<Byte>, n: nat)
    requires |body| < U32 && n < |Frame(body)|
    ensures ReadFrames((Frame(body) + rest)[..n]) == ([], (Frame(body) + rest)[..n])
  {
    var stream := (Frame(body) + rest)[..n];
    SizeReadsBack(|body|);
    if n >= 4 {
      assert stream[..4] == SizeBytes(|body|);
    }
  }

  lemma OneFrame(body: seq<Byte>)
    ensures Frames([body]) == Frame(body)
  {
    assert [body][1..] == [] && Frame(body) + [] == Frame(body);
  }

  lemma FramesOfPrefix(bodies: seq<seq<Byte>>, k: nat)
    requires k < |bodies|
    ensures |Frames(bodies[..k + 1])| == |Frame(bodies[0])| + |Frames(bodies[1..][..k])|
  {
    assert bodies[..k + 1][1..] == bodies[1..][..k];
  }

  /** Everything that was sent is read, in order, and nothing is left. */
  lemma StreamReadsBack(bodies: seq<seq<Byte>>)
    requires Fit(bodies)
    ensures ReadFrames(Frames(bodies)) == (bodies, [])
  {
    var all := Frames(bodies);
    var k := CutGivesPrefix(bodies, |all|);
    assert all[..|all|] == all;
    if k < |bodies| {
      PrefixIsShorter(bodies, k + 1);
    }
    assert bodies[..k] == bodies;
  }

  lemma {:induction false} PrefixIsShorter(bodies: seq<seq<Byte>>, k: nat)
    requires k <= |bodies|
    ensures |Frames(bodies[..k])| <= |Frames(bodies)|
    decreases k
  {
    if k > 0 {
      PrefixIsShorter(bodies[1..], k - 1);
      FramesOfPrefix(bodies, k - 1);
    }
  }

  // ----- the connection ------------------------------------------------------------------------

  class SocketConnection {
    var incoming: seq<Byte>     // what the peer has sent before closing, or being lost
    var outgoing: seq<Byte>     // what the peer will be able to read
    var errors: nat             // calls that failed
    var alive: bool

    constructor (fromPeer: seq<Byte>)
      ensures incoming == fromPeer && outgoing == [] && errors == 0 && alive
    {
      incoming, outgoing, errors, alive := fromPeer, [], 0, true;
    }

    /** A call that fails, with EPIPE or otherwise. Interrupted calls are made again, unseen. */
    method Fail()
      modifies this`errors, this`alive
      ensures errors == old(errors) + 1 && (alive ==> old(alive))
    {
      var brokenPipe: bool := *;
      errors := errors + 1;
      if brokenPipe {
        alive := false;
      }
    }

    method ReadBytes(bytes: array<Byte>, offset: nat, size: nat) returns (r: Option<nat>)
      requires 0 < size && offset + size <= bytes.Length
      modifies this`incoming, this`errors, this`alive, bytes
      ensures r.None? ==>
        && errors == old(errors) + 1 && (alive ==> old(alive))
        && incoming == old(incoming) && bytes[..] == old(bytes[..])
      ensures r.Some? ==>
        && errors == old(errors) && alive == old(alive)
        && r.value <= size && r.value <= |old(incoming)| && (r.value == 0 <==> old(incoming) == [])
        && incoming == old(incoming)[r.value..]
        && bytes[..] == old(bytes[..offset]) + old(incoming)[..r.value] + old(bytes[offset + r.value..])
    {
      var fails: bool := *;
      if fails {
        Fail();
        return None;
      }
      var n := 0;
      if incoming != [] {
        n :| 1 <= n <= size && n <= |incoming|;
      }
      forall i | 0 <= i < n {
        bytes[offset + i] := incoming[i];
      }
      incoming := incoming[n..];
      return Some(n);
    }

    /** All or nothing, whatever the pieces it comes in. */
    method ReadAllBytes(bytes: array<Byte>) returns (ok: bool)
      modifies this`incoming, this`errors, this`alive, bytes
      ensures errors >= old(errors) && (alive ==> old(alive))
      ensures ok ==>
        && errors == old(errors) && alive == old(alive) && bytes.Length <= |old(incoming)|
        && bytes[..] == old(incoming)[..bytes.Length] && incoming == old(incoming)[bytes.Length..]
      ensures !ok ==> errors > old(errors) || |old(incoming)| < bytes.Length
    {
      var size, totalRead := bytes.Length, 0;
      while totalRead < size
        invariant 0 <= totalRead <= size && totalRead <= |old(incoming)|
        invariant errors == old(errors) && alive == old(alive)
        invariant incoming == old(incoming)[totalRead..] && bytes[..totalRead] == old(incoming)[..totalRead]
      {
        var read := ReadBytes(bytes, totalRead, size - totalRead);
        if read.Some? {
          if read.value == 0 {
            return false;
          }
          ghost var before := totalRead;
          totalRead := totalRead + read.value;
          assert old(incoming)[..totalRead] == old(incoming)[..before] + old(incoming)[before..][..read.value];
        } else {
          return false;
        }
      }
      assert bytes[..size] == bytes[..];
      return true;
    }

    method SendBytes(bytes: seq<Byte>) returns (r: Option<nat>)
      requires bytes != []
      modifies this`outgoing, this`errors, this`alive
      ensures r.None? ==> errors == old(errors) + 1 && (alive ==> old(alive)) && outgoing == old(outgoing)
      ensures r.Some? ==>
        && errors == old(errors) && alive == old(alive)
        && 1 <= r.value <= |bytes| && outgoing == old(outgoing) + bytes[..r.value]
    {
      var fails: bool := *;
      if fails {
        Fail();
        return None;
      }
      var n :| 1 <= n <= |bytes|;
      outgoing := outgoing + bytes[..n];
      return Some(n);
    }

    /** On failure a proper prefix may have gone out. */
    method SendAllBytes(bytes: seq<Byte>) returns (ok: bool)
      modifies this`outgoing, this`errors, this`alive
      ensures ok <==> errors == old(errors)
      ensures errors >= old(errors) && (alive ==> old(alive)) && (ok ==> alive == old(alive))
      ensures ok ==> outgoing == old(outgoing) + bytes
      ensures !ok ==> exists n :: 0 <= n < |bytes| && outgoing == old(outgoing) + bytes[..n]
    {
      var size, totalWritten := |bytes|, 0;
      while totalWritten < size
        invariant 0 <= totalWritten <= size && errors == old(errors) && alive == old(alive)
        invariant outgoing == old(outgoing) + bytes[..totalWritten]
      {
        var written := SendBytes(bytes[totalWritten..]);
        if written.Some? {
          ghost var before := totalWritten;
          totalWritten := totalWritten + written.value;
          assert bytes[..totalWritten] == bytes[..before] + bytes[before..][..written.value];
        } else {
          return false;
        }
      }
      assert bytes[..totalWritten] == bytes;
      return true;
    }

    /** As long as no call fails, what is read is decided by the bytes alone. */
    method ReadProtobufMessage<M>(parse: seq<Byte> -> Option<M>) returns (r: Option<M>)
      modifies this`incoming, this`errors, this`alive
      ensures errors >= old(errors) && (alive ==> old(alive))
      ensures errors == old(errors) ==>
        match ReadFrame(old(incoming))
        case None => r.None?
        case Some(read) => r == parse(read.0) && incoming == read.1
      ensures r.Some? ==> errors == old(errors) && alive == old(alive)
    {
      var size := new Byte[4];
      var ok := ReadAllBytes(size);
      if !ok {
        return None;
      }
      assert size[..] == old(incoming)[..4];
      var buffer := new Byte[SizeOf(size[..])];
      ok := ReadAllBytes(buffer);
      if !ok {
        return None;
      }
      assert buffer[..] == old(incoming)[4..4 + buffer.Length];
      return parse(buffer[..]);
    }

    /** Writing the serialized message is the codec's own loop over `write`. */
    method SendProtobufMessage<M>(serialize: M -> seq<Byte>, message: M) returns (ok: bool)
      modifies this`outgoing, this`errors, this`alive
      ensures ok <==> errors == old(errors)
      ensures ok ==> outgoing == old(outgoing) + Frame(serialize(message)) && alive == old(alive)
      ensures !ok ==> exists n ::
        0 <= n < |Frame(serialize(message))| && outgoing == old(outgoing) + Frame(serialize(message))[..n]
    {
      var body := serialize(message);
      var size := SizeBytes(|body|);
      ok := SendAllBytes(size);
      if !ok {
        ghost var n :| 0 <= n < 4 && outgoing == old(outgoing) + size[..n];
        assert size[..n] == Frame(body)[..n];
        return;
      }
      ok := SendAllBytes(body);
      if ok {
        assert old(outgoing) + size + body == old(outgoing) + Frame(body);
      } else {
        ghost var n :| 0 <= n < |body| && outgoing == old(outgoing) + size + body[..n];
        assert old(outgoing) + size + body[..n] == old(outgoing) + Frame(body)[..4 + n];
      }
    }
  }

  // ----- messages ------------------------------------------------------------------------------

  function Serialized<M>(serialize: M -> seq<Byte>, messages: seq<M>): seq<seq<Byte>> {
    seq(|messages|, i requires 0 <= i < |messages| => serialize(messages[i]))
  }

  function Parsed<M>(parse: seq<Byte> -> Option<M>, bodies: seq<seq<Byte>>): seq<Option<M>> {
    seq(|bodies|, i requires 0 <= i < |bodies| => parse(bodies[i]))
  }

  /** A stream of messages from a codec that round-trips arrives as those messages; one that is cut
      arrives as the first of them. */
  lemma MessagesArrive<M>(serialize: M -> seq<Byte>, parse: seq<Byte> -> Option<M>, messages: seq<M>, n: nat)
    returns (k: nat)
    requires forall m | m in messages :: parse(serialize(m)) == Some(m) && |serialize(m)| < U32
    requires n <= |Frames(Serialized(serialize, messages))|
    ensures var arrived := ReadFrames(Frames(Serialized(serialize, messages))[..n]);
      && k <= |messages| && ReadFrame(arrived.1).None?
      && |arrived.0| == k && forall i | 0 <= i < k :: parse(arrived.0[i]) == Some(messages[i])
    ensures n == |Frames(Serialized(serialize, messages))| ==> k == |messages|
  {
    var bodies := Serialized(serialize, messages);
    k := CutGivesPrefix(bodies, n);
    ReadsUntilItFails(Frames(bodies)[..n]);
    if k < |messages| {
      PrefixIsShorter(bodies, k + 1);
    }
  }

  /** `here` bytes of the frames of `bodies[k..]` are still to be read. */
  predicate ToCome(bodies: seq<seq<Byte>>, k: nat, here: nat, stream: seq<Byte>) {
    k <= |bodies| && here <= |Frames(bodies[k..])| && stream == Frames(bodies[k..])[..here]
  }

  lemma NextToCome(bodies: seq<seq<Byte>>, k: nat, here: nat, stream: seq<Byte>)
    requires Fit(bodies) && ToCome(bodies, k, here, stream)
    ensures match ReadFrame(stream)
      case None => k == |bodies| || here < |Frames(bodies[k..])|
      case Some(read) =>
        && k < |bodies| && read.0 == bodies[k] && |Frame(bodies[k])| <= here
        && ToCome(bodies, k + 1, here - |Frame(bodies[k])|, read.1)
        && |Frames(bodies[k..])| == |Frame(bodies[k])| + |Frames(bodies[k + 1..])|
  {
    if k < |bodies| {
      var first, rest := Frame(bodies[k]), Frames(bodies[k + 1..]);
      assert bodies[k] in bodies && bodies[k..][0] == bodies[k] && bodies[k..][1..] == bodies[k + 1..];
      if here < |first| {
        CutInFirst(bodies[k], rest, here);
      } else {
        assert (first + rest)[..here] == first + rest[..here - |first|];
        FrameReadsBack(bodies[k], rest[..here - |first|]);
      }
    }
  }

  /** One side sends messages until it is done or a call fails; the other reads, until it fails, what
      got through. It gets the first of the messages, and all of them unless a call failed or the
      connection was lost. */
  method Exchange<M>(serialize: M -> seq<Byte>, parse: seq<Byte> -> Option<M>, messages: seq<M>)
    returns (received: seq<M>, failed: bool)
    requires forall m | m in messages :: parse(serialize(m)) == Some(m) && |serialize(m)| < U32
    ensures received <= messages
    ensures !failed ==> received == messages
  {
    ghost var bodies := Serialized(serialize, messages);
    var sender := new SocketConnection([]);
    failed := SendEach(serialize, messages, sender);
    var arrived := |sender.outgoing|;
    var lost: bool := *;
    if lost {
      arrived :| 0 <= arrived <= |sender.outgoing|;
      failed := true;
    }
    var receiver := new SocketConnection(sender.outgoing[..arrived]);
    assert sender.outgoing[..arrived] == Frames(bodies)[..arrived];
    var readFailed;
    received, readFailed := ReadEach(serialize, parse, messages, receiver, arrived);
    failed := failed || readFailed;
  }

  method SendEach<M>(serialize: M -> seq<Byte>, messages: seq<M>, sender: SocketConnection) returns (failed: bool)
    requires sender.outgoing == []
    modifies sender
    ensures sender.outgoing <= Frames(Serialized(serialize, messages))
    ensures !failed ==> sender.outgoing == Frames(Serialized(serialize, messages))
  {
    ghost var bodies := Serialized(serialize, messages);
    var n := 0;
    while n < |messages|
      invariant 0 <= n <= |messages| && sender.outgoing == Frames(bodies[..n])
    {
      FramesSnoc(bodies, n);
      var ok := sender.SendProtobufMessage(serialize, messages[n]);
      if !ok {
        PrefixIsPrefix(bodies, n + 1);
        return true;
      }
      n := n + 1;
    }
    assert bodies[..n] == bodies;
    return false;
  }

  /** `left` bytes of the frames of `messages` are there to be read. */
  method ReadEach<M>(serialize: M -> seq<Byte>, parse: seq<Byte> -> Option<M>, messages: seq<M>,
                     receiver: SocketConnection, ghost left: nat) returns (received: seq<M>, failed: bool)
    requires forall m | m in messages :: parse(serialize(m)) == Some(m) && |serialize(m)| < U32
    requires left <= |Frames(Serialized(serialize, messages))|
    requires receiver.incoming == Frames(Serialized(serialize, messages))[..left]
    modifies receiver
    ensures received <= messages
    ensures !failed && left == |Frames(Serialized(serialize, messages))| ==> received == messages
  {
    ghost var bodies := Serialized(serialize, messages);
    ghost var k, here := 0, left;
    received := [];
    SerializedFit(serialize, parse, messages);
    assert bodies[0..] == bodies;
    while true
      invariant k <= |messages| && received == messages[..k]
      invariant here >= 0 && ToCome(bodies, k, here, receiver.incoming)
      invariant left == |Frames(bodies)| ==> here == |Frames(bodies[k..])|
      decreases |messages| - k
    {
      var message;
      message, failed := ReadNext(parse, messages, bodies, k, here, receiver);
      if message == None {
        return;
      }
      received := received + [message.value];
      here := here - |Frame(bodies[k])|;
      k := k + 1;
    }
  }

  /** Message `k` is next, if it is there as a whole. */
  method ReadNext<M>(parse: seq<Byte> -> Option<M>, messages: seq<M>, ghost bodies: seq<seq<Byte>>, ghost k: nat,
                     ghost here: nat, receiver: SocketConnection) returns (message: Option<M>, failed: bool)
    requires Fit(bodies) && |bodies| == |messages| && ToCome(bodies, k, here, receiver.incoming)
    requires forall i | 0 <= i < |messages| :: parse(bodies[i]) == Some(messages[i])
    modifies receiver
    ensures message == None && !failed ==> k == |messages| || here < |Frames(bodies[k..])|
    ensures message != None ==>
      && k < |messages| && message.value == messages[k] && |Frame(bodies[k])| <= here
      && ToCome(bodies, k + 1, here - |Frame(bodies[k])|, receiver.incoming)
      && |Frames(bodies[k..])| == |Frame(bodies[k])| + |Frames(bodies[k + 1..])|
  {
    NextToCome(bodies, k, here, receiver.incoming);
    var errors := receiver.errors;
    message := receiver.ReadProtobufMessage(parse);
    failed := message == None && receiver.errors > errors;
  }

  lemma SerializedFit<M>(serialize: M -> seq<Byte>, parse: seq<Byte> -> Option<M>, messages: seq<M>)
    requires forall m | m in messages :: parse(serialize(m)) == Some(m) && |serialize(m)| < U32
    ensures Fit(Serialized(serialize, messages))
    ensures forall i | 0 <= i < |messages| :: parse(Serialized(serialize, messages)[i]) == Some(messages[i])
  {}

  lemma {:induction false} FramesAppend(a: seq<seq<Byte>>, b: seq<seq<Byte>>)
    ensures Frames(a + b) == Frames(a) + Frames(b)
  {
    if a == [] {
      assert a + b == b;
    } else {
      FramesAppend(a[1..], b);
      assert (a + b)[0] == a[0] && (a + b)[1..] == a[1..] + b;
      Regroup(Frame(a[0]), Frames(a[1..]), Frames(b));
    }
  }

  lemma FramesSnoc(bodies: seq<seq<Byte>>, n: nat)
    requires n < |bodies|
    ensures Frames(bodies[..n + 1]) == Frames(bodies[..n]) + Frame(bodies[n])
  {
    assert bodies[..n + 1] == bodies[..n] + [bodies[n]];
    FramesAppend(bodies[..n], [bodies[n]]);
    OneFrame(bodies[n]);
  }

  lemma PrefixIsPrefix(bodies: seq<seq<Byte>>, n: nat)
    requires n <= |bodies|
    ensures Frames(bodies[..n]) <= Frames(bodies)
  {
    assert bodies == bodies[..n] + bodies[n..];
    FramesAppend(bodies[..n], bodies[n..]);
  }

  lemma {:induction false} ReadsUntilItFails(stream: seq<Byte>)
    ensures ReadFrame(ReadFrames(stream).1).None?
    decreases |stream|
  {
    if ReadFrame(stream).Some? {
      ReadsUntilItFails(ReadFrame(stream).value.1);
    }
  }
}
