/**
 Character positions and terminal widths of a UTF-8 string.
 */
module Utf8 {
  import opened Wrappers

  type Byte = bv8
  type WideChar = bv32

  const ONE_BYTE_MASK: Byte := 0x80
  const ONE_BYTE_VALUE: Byte := 0
  const TWO_BYTE_MASK: Byte := 0xE0
  const TWO_BYTE_VALUE: Byte := 0xC0
  const THREE_BYTE_MASK: Byte := 0xF0
  const THREE_BYTE_VALUE: Byte := 0xE0
  const FOUR_BYTE_MASK: Byte := 0xF8
  const FOUR_BYTE_VALUE: Byte := 0xF0
  const SEQUENCE_MASK: Byte := 0x3F

  /** The bytes of a character, by its first; 0 when no character starts like this. */
  function LeadLength(c: Byte): nat {
    if c & ONE_BYTE_MASK == ONE_BYTE_VALUE then 1
    else if c & TWO_BYTE_MASK == TWO_BYTE_VALUE then 2
    else if c & THREE_BYTE_MASK == THREE_BYTE_VALUE then 3
    else if c & FOUR_BYTE_MASK == FOUR_BYTE_VALUE then 4
    else 0
  }

  /** Bytes taken together for one character. Only the first one is looked at. */
  predicate IsChunk(s: seq<Byte>) {
    s != [] && |s| == LeadLength(s[0])
  }

  predicate AreChunks(chunks: seq<seq<Byte>>) {
    forall s | s in chunks :: IsChunk(s)
  }

  function Wide(b: Byte): WideChar {
    b as WideChar
  }

  function Code2(a: Byte, b: Byte): WideChar {
    (Wide(a & !TWO_BYTE_MASK) << 6) | Wide(b & SEQUENCE_MASK)
  }

  function Code3(a: Byte, b: Byte, c: Byte): WideChar {
    (Wide(a & !THREE_BYTE_MASK) << 12) | (Wide(b & SEQUENCE_MASK) << 6) | Wide(c & SEQUENCE_MASK)
  }

  function Code4(a: Byte, b: Byte, c: Byte, d: Byte): WideChar {
    (Wide(a & !FOUR_BYTE_MASK) << 18) | (Wide(b & SEQUENCE_MASK) << 12)
    | (Wide(c & SEQUENCE_MASK) << 6) | Wide(d & SEQUENCE_MASK)
  }

  function CodeOf(s: seq<Byte>): WideChar
    requires IsChunk(s)
  {
    if |s| == 1 then Wide(s[0])
    else if |s| == 2 then Code2(s[0], s[1])
    else if |s| == 3 then Code3(s[0], s[1], s[2])
    else Code4(s[0], s[1], s[2], s[3])
  }

  /** The loop's way through a string; nothing when it gets stuck at a byte that starts no character,
      or at a character that is cut short: then it never ends. */
  function Lex(bytes: seq<Byte>): Option<seq<seq<Byte>>>
    decreases |bytes|
  {
    if bytes == [] then Some([])
    else
      var n := LeadLength(bytes[0]);
      if n == 0 || |bytes| < n then None
      else
        var rest := Lex(bytes[n..]);
        if rest.Some? then Some([bytes[..n]] + rest.value) else None
  }

  function Concat(chunks: seq<seq<Byte>>): seq<Byte> {
    if chunks == [] then [] else chunks[0] + Concat(chunks[1..])
  }

  lemma {:induction false} ConcatAppend(a: seq<seq<Byte>>, b: seq<seq<Byte>>)
    ensures Concat(a + b) == Concat(a) + Concat(b)
  {
    if a == [] {
      assert a + b == b;
    } else {
      ConcatAppend(a[1..], b);
      assert (a + b)[0] == a[0] && (a + b)[1..] == a[1..] + b;
      assert a[0] + (Concat(a[1..]) + Concat(b)) == a[0] + Concat(a[1..]) + Concat(b);
    }
  }

  lemma {:induction false} LexConcat(chunks: seq<seq<Byte>>)
    requires AreChunks(chunks)
    ensures Lex(Concat(chunks)) == Some(chunks)
  {
    if chunks != [] {
      var rest := chunks[1..];
      LexConcat(rest);
      LexOne(chunks[0], Concat(rest), rest);
      assert chunks == [chunks[0]] + rest;
    }
  }

  lemma LexOne(s: seq<Byte>, bytes: seq<Byte>, rest: seq<seq<Byte>>)
    requires IsChunk(s) && Lex(bytes) == Some(rest)
    ensures Lex(s + bytes) == Some([s] + rest)
  {
    assert (s + bytes)[0] == s[0] && (s + bytes)[..|s|] == s && (s + bytes)[|s|..] == bytes;
  }

  lemma {:induction false} LexParts(bytes: seq<Byte>)
    requires Lex(bytes).Some?
    ensures AreChunks(Lex(bytes).value) && Concat(Lex(bytes).value) == bytes
    decreases |bytes|
  {
    if bytes != [] {
      var n := LeadLength(bytes[0]);
      LexParts(bytes[n..]);
      assert bytes[..n] + bytes[n..] == bytes;
      assert Lex(bytes).value[1..] == Lex(bytes[n..]).value;
    }
  }

  /** The loop ends exactly on strings that are made of characters, in one way only. */
  lemma EndsExactly(bytes: seq<Byte>)
    ensures Lex(bytes).Some? <==> exists chunks :: AreChunks(chunks) && Concat(chunks) == bytes
    ensures forall chunks | AreChunks(chunks) && Concat(chunks) == bytes :: Lex(bytes) == Some(chunks)
  {
    if Lex(bytes).Some? {
      LexParts(bytes);
    }
    forall chunks | AreChunks(chunks) && Concat(chunks) == bytes ensures Lex(bytes) == Some(chunks) {
      LexConcat(chunks);
    }
  }

  lemma LexAppend(a: seq<Byte>, b: seq<Byte>)
    requires Lex(a).Some? && Lex(b).Some?
    ensures Lex(a + b) == Some(Lex(a).value + Lex(b).value)
  {
    LexParts(a);
    LexParts(b);
    ConcatAppend(Lex(a).value, Lex(b).value);
    LexConcat(Lex(a).value + Lex(b).value);
  }

  // ----- widths --------------------------------------------------------------------------------

  datatype CharacterInfo = CharacterInfo(index: nat, width: int)

  datatype WidthInformation = WidthInformation(characters: seq<CharacterInfo>, totalWidth: int)

  /** Columns of a character: `wcwidth`, with -1 taken as none. */
  function Width(wcwidth: WideChar -> int, c: WideChar): int {
    if wcwidth(c) == -1 then 0 else wcwidth(c)
  }

  function WidthAt(wcwidth: WideChar -> int, s: seq<Byte>): int
    requires IsChunk(s)
  {
    Width(wcwidth, CodeOf(s))
  }

  function TotalWidth(wcwidth: WideChar -> int, chunks: seq<seq<Byte>>): int
    requires AreChunks(chunks)
  {
    if chunks == [] then 0
    else
      var last := chunks[|chunks| - 1];
      TotalWidth(wcwidth, chunks[..|chunks| - 1]) + WidthAt(wcwidth, last)
  }

  lemma {:induction false} TotalWidthAppend(wcwidth: WideChar -> int, a: seq<seq<Byte>>, b: seq<seq<Byte>>)
    requires AreChunks(a) && AreChunks(b)
    ensures TotalWidth(wcwidth, a + b) == TotalWidth(wcwidth, a) + TotalWidth(wcwidth, b)
    decreases |b|
  {
    if b == [] {
      assert a + b == a;
    } else {
      assert (a + b)[..|a + b| - 1] == a + b[..|b| - 1];
      TotalWidthAppend(wcwidth, a, b[..|b| - 1]);
    }
  }

  /** Where each character starts and how wide it is. */
  predicate Describes(wcwidth: WideChar -> int, chunks: seq<seq<Byte>>, characters: seq<CharacterInfo>)
    requires AreChunks(chunks)
  {
    && |characters| == |chunks|
    && forall i | 0 <= i < |chunks| ::
         characters[i] == CharacterInfo(|Concat(chunks[..i])|, WidthAt(wcwidth, chunks[i]))
  }

  predicate Described(wcwidth: WideChar -> int, chunks: seq<seq<Byte>>, characters: seq<CharacterInfo>, total: int)
    requires AreChunks(chunks)
  {
    Describes(wcwidth, chunks, characters) && total == TotalWidth(wcwidth, chunks)
  }

  predicate HasRead(str: seq<Byte>, it: nat, read: seq<seq<Byte>>)
    requires it <= |str|
  {
    Lex(str) == if Lex(str[it..]).Some? then Some(read + Lex(str[it..]).value) else None
  }

  lemma NothingRead(str: seq<Byte>)
    ensures HasRead(str, 0, [])
  {
    assert str[0..] == str;
    assert Lex(str).Some? ==> [] + Lex(str).value == Lex(str).value;
  }

  /** The branches of the loop body. Nothing when none of them moves on. */
  method ReadCharacter(ustr: seq<Byte>, start: nat) returns (r: Option<(WideChar, nat)>)
    requires start < |ustr|
    ensures var n := LeadLength(ustr[start]);
      && (r.Some? <==> n > 0 && start + n <= |ustr|)
      && (r.Some? ==> r.value.1 == start + n && IsChunk(ustr[start..start + n])
                      && r.value.0 == CodeOf(ustr[start..start + n]))
  {
    var it, c := start, ustr[start];
    var currentChar: WideChar;
    if c & ONE_BYTE_MASK == ONE_BYTE_VALUE {
      currentChar := Wide(ustr[it]);
      it := it + 1;
    } else if c & TWO_BYTE_MASK == TWO_BYTE_VALUE {
      if |ustr| - it < 2 {
        return None;
      }
      currentChar := Wide(ustr[it] & !TWO_BYTE_MASK) << 6;
      currentChar := currentChar | Wide(ustr[it + 1] & SEQUENCE_MASK);
      it := it + 2;
    } else if c & THREE_BYTE_MASK == THREE_BYTE_VALUE {
      if |ustr| - it < 3 {
        return None;
      }
      currentChar := Wide(ustr[it] & !THREE_BYTE_MASK) << 12;
      currentChar := currentChar | (Wide(ustr[it + 1] & SEQUENCE_MASK) << 6);
      currentChar := currentChar | Wide(ustr[it + 2] & SEQUENCE_MASK);
      it := it + 3;
    } else if c & FOUR_BYTE_MASK == FOUR_BYTE_VALUE {
      if |ustr| - it < 4 {
        return None;
      }
      currentChar := Wide(ustr[it] & !FOUR_BYTE_MASK) << 18;
      currentChar := currentChar | (Wide(ustr[it + 1] & SEQUENCE_MASK) << 12);
      currentChar := currentChar | (Wide(ustr[it + 2] & SEQUENCE_MASK) << 6);
      currentChar := currentChar | Wide(ustr[it + 3] & SEQUENCE_MASK);
      it := it + 4;
    } else {
      return None;
    }
    ChunkAt(ustr, start, it - start);
    return Some((currentChar, it));
  }

  /** What the loop has done before `it`. */
  predicate SoFar(wcwidth: WideChar -> int, ustr: seq<Byte>, it: nat, read: seq<seq<Byte>>,
                  characters: seq<CharacterInfo>, totalWidth: int)
  {
    && it <= |ustr| && AreChunks(read) && |Concat(read)| == it
    && HasRead(ustr, it, read) && Described(wcwidth, read, characters, totalWidth)
  }

  lemma OneMore(wcwidth: WideChar -> int, ustr: seq<Byte>, pos: nat, n: nat, read: seq<seq<Byte>>,
                characters: seq<CharacterInfo>, totalWidth: int)
    requires SoFar(wcwidth, ustr, pos, read, characters, totalWidth)
    requires pos < |ustr| && n == LeadLength(ustr[pos]) && n > 0 && pos + n <= |ustr|
    ensures var chunk := ustr[pos..pos + n];
      && IsChunk(chunk)
      && SoFar(wcwidth, ustr, pos + n, read + [chunk],
               characters + [CharacterInfo(pos, WidthAt(wcwidth, chunk))], totalWidth + WidthAt(wcwidth, chunk))
  {
    ChunkAt(ustr, pos, n);
    TakeChunk(ustr, pos, n, read);
    DescribeOneMore(wcwidth, read, ustr[pos..pos + n], characters, totalWidth);
  }

  /** `None` stands for running forever. */
  method ForString(wcwidth: WideChar -> int, ustr: seq<Byte>) returns (r: Option<WidthInformation>)
    ensures r.Some? <==> Lex(ustr).Some?
    ensures r.Some? ==>
      AreChunks(Lex(ustr).value) && Described(wcwidth, Lex(ustr).value, r.value.characters, r.value.totalWidth)
  {
    var characters, totalWidth := [], 0;
    var it := 0;
    ghost var read := [];
    NothingRead(ustr);
    while it < |ustr|
      invariant SoFar(wcwidth, ustr, it, read, characters, totalWidth)
    {
      var pos := it;
      var character := ReadCharacter(ustr, it);
      if character == None {
        return None;
      }
      it := character.value.1;
      var width := wcwidth(character.value.0);
      if width == -1 {
        width := 0;
      }
      OneMore(wcwidth, ustr, pos, it - pos, read, characters, totalWidth);
      read := read + [ustr[pos..it]];
      characters := characters + [CharacterInfo(pos, width)];
      totalWidth := totalWidth + width;
    }
    AllRead(ustr, read);
    return Some(WidthInformation(characters, totalWidth));
  }

  lemma AllRead(str: seq<Byte>, read: seq<seq<Byte>>)
    requires HasRead(str, |str|, read)
    ensures Lex(str) == Some(read)
  {
    assert str[|str|..] == [] && read + [] == read;
  }

  lemma ChunkAt(str: seq<Byte>, pos: nat, n: nat)
    requires pos < |str| && n == LeadLength(str[pos]) && n > 0 && pos + n <= |str|
    ensures IsChunk(str[pos..pos + n])
    ensures CodeOf(str[pos..pos + n])
      == if n == 1 then Wide(str[pos])
         else if n == 2 then Code2(str[pos], str[pos + 1])
         else if n == 3 then Code3(str[pos], str[pos + 1], str[pos + 2])
         else Code4(str[pos], str[pos + 1], str[pos + 2], str[pos + 3])
  {}

  lemma TakeChunk(str: seq<Byte>, pos: nat, n: nat, read: seq<seq<Byte>>)
    requires pos < |str| && n == LeadLength(str[pos]) && n > 0 && pos + n <= |str|
    requires HasRead(str, pos, read)
    ensures HasRead(str, pos + n, read + [str[pos..pos + n]])
  {
    assert str[pos..][..n] == str[pos..pos + n] && str[pos..][n..] == str[pos + n..];
    if Lex(str[pos + n..]).Some? {
      var rest := Lex(str[pos + n..]).value;
      assert read + ([str[pos..pos + n]] + rest) == read + [str[pos..pos + n]] + rest;
    }
  }

  lemma DescribeOneMore(wcwidth: WideChar -> int, read: seq<seq<Byte>>, chunk: seq<Byte>,
                        characters: seq<CharacterInfo>, totalWidth: int)
    requires AreChunks(read) && IsChunk(chunk) && Described(wcwidth, read, characters, totalWidth)
    ensures var width := WidthAt(wcwidth, chunk);
      Described(wcwidth, read + [chunk], characters + [CharacterInfo(|Concat(read)|, width)], totalWidth + width)
    ensures |Concat(read + [chunk])| == |Concat(read)| + |chunk|
  {
    var more := read + [chunk];
    assert more[..|read|] == read;
    ConcatAppend(read, [chunk]);
    assert [chunk][1..] == [] && Concat([chunk]) == chunk + Concat([]);
    forall i | 0 <= i < |read| ensures more[..i] == read[..i] {}
  }

  /** The characters' indices cut the string into the characters. */
  lemma IndicesPartition(wcwidth: WideChar -> int, str: seq<Byte>, characters: seq<CharacterInfo>, i: nat)
    requires Lex(str).Some? && AreChunks(Lex(str).value) && Describes(wcwidth, Lex(str).value, characters)
    requires i < |characters|
    ensures var end := if i + 1 < |characters| then characters[i + 1].index else |str|;
      characters[i].index < end <= |str| && str[characters[i].index..end] == Lex(str).value[i]
    ensures i == 0 ==> characters[i].index == 0
  {
    var chunks := Lex(str).value;
    LexParts(str);
    PartAt(chunks, i);
    assert chunks[i] in chunks;
    if i + 1 == |chunks| {
      assert chunks[..i + 1] == chunks;
    }
  }

  lemma PartAt(chunks: seq<seq<Byte>>, i: nat)
    requires i < |chunks|
    ensures |Concat(chunks[..i])| + |chunks[i]| == |Concat(chunks[..i + 1])| <= |Concat(chunks)|
    ensures Concat(chunks)[|Concat(chunks[..i])|..|Concat(chunks[..i + 1])|] == chunks[i]
  {
    ConcatAppend(chunks[..i + 1], chunks[i + 1..]);
    ConcatAppend(chunks[..i], [chunks[i]]);
    assert [chunks[i]][1..] == [] && Concat([chunks[i]]) == chunks[i] + Concat([]);
    assert chunks == chunks[..i + 1] + chunks[i + 1..] && chunks[..i + 1] == chunks[..i] + [chunks[i]];
  }

  /** What is left from a character's index on is the characters from there on. */
  lemma FromIndex(bytes: seq<Byte>, j: nat)
    requires Lex(bytes).Some? && j <= |Lex(bytes).value|
    ensures var chunks := Lex(bytes).value;
      |Concat(chunks[..j])| <= |bytes| && Lex(bytes[|Concat(chunks[..j])|..]) == Some(chunks[j..])
  {
    var chunks := Lex(bytes).value;
    LexParts(bytes);
    assert chunks == chunks[..j] + chunks[j..];
    ConcatAppend(chunks[..j], chunks[j..]);
    LexConcat(chunks[j..]);
  }

  // ----- what it is for ------------------------------------------------------------------------

  /** Unicode scalar values. */
  predicate IsScalar(c: WideChar) {
    c <= 0x10FFFF && !(0xD800 <= c <= 0xDFFF)
  }

  function Low(c: WideChar): Byte {
    (c & 0xFF) as Byte
  }

  function Tail(c: WideChar): Byte {
    0x80 | (Low(c) & 0x3F)
  }

  /** The encoding of section 3 of RFC 3629. */
  function Encode(c: WideChar): seq<Byte> {
    if c < 0x80 then [Low(c)]
    else if c < 0x800 then [0xC0 | Low(c >> 6), Tail(c)]
    else if c < 0x10000 then [0xE0 | Low(c >> 12), Tail(c >> 6), Tail(c)]
    else [0xF0 | (Low(c >> 18) & 0x07), Tail(c >> 12), Tail(c >> 6), Tail(c)]
  }

  lemma EncodesTwo(c: WideChar, s0: Byte, s1: Byte)
    requires 0x80 <= c < 0x800 && s0 == 0xC0 | Low(c >> 6) && s1 == Tail(c)
    ensures LeadLength(s0) == 2 && Code2(s0, s1) == c
  {}

  lemma EncodesThree(c: WideChar, s0: Byte, s1: Byte, s2: Byte)
    requires 0x800 <= c < 0x10000 && s0 == 0xE0 | Low(c >> 12) && s1 == Tail(c >> 6) && s2 == Tail(c)
    ensures LeadLength(s0) == 3 && Code3(s0, s1, s2) == c
  {}

  lemma EncodesFour(c: WideChar, s0: Byte, s1: Byte, s2: Byte, s3: Byte)
    requires 0x10000 <= c <= 0x10FFFF && s0 == 0xF0 | (Low(c >> 18) & 0x07)
    requires s1 == Tail(c >> 12) && s2 == Tail(c >> 6) && s3 == Tail(c)
    ensures LeadLength(s0) == 4 && Code4(s0, s1, s2, s3) == c
  {}

  lemma EncodesOne(c: WideChar, s0: Byte)
    requires c < 0x80 && s0 == Low(c)
    ensures LeadLength(s0) == 1 && Wide(s0) == c
  {}

  lemma EncodedIsChunk(c: WideChar)
    requires IsScalar(c)
    ensures IsChunk(Encode(c)) && CodeOf(Encode(c)) == c
  {
    var s := Encode(c);
    if c < 0x80 {
      EncodesOne(c, s[0]);
    } else if c < 0x800 {
      EncodesTwo(c, s[0], s[1]);
    } else if c < 0x10000 {
      EncodesThree(c, s[0], s[1], s[2]);
    } else {
      EncodesFour(c, s[0], s[1], s[2], s[3]);
    }
  }

  function EncodeEach(codes: seq<WideChar>): seq<seq<Byte>> {
    seq(|codes|, i requires 0 <= i < |codes| => Encode(codes[i]))
  }

  function EncodeAll(codes: seq<WideChar>): seq<Byte> {
    Concat(EncodeEach(codes))
  }

  function SumWidths(wcwidth: WideChar -> int, codes: seq<WideChar>): int {
    if codes == [] then 0
    else
      var width := wcwidth(codes[|codes| - 1]);
      SumWidths(wcwidth, codes[..|codes| - 1]) + if width == -1 then 0 else width
  }

  lemma {:induction false} EncodedWidths(wcwidth: WideChar -> int, codes: seq<WideChar>)
    requires forall c | c in codes :: IsScalar(c)
    ensures AreChunks(EncodeEach(codes))
    ensures TotalWidth(wcwidth, EncodeEach(codes)) == SumWidths(wcwidth, codes)
  {
    forall s | s in EncodeEach(codes) ensures IsChunk(s) {
      var i :| 0 <= i < |codes| && s == Encode(codes[i]);
      EncodedIsChunk(codes[i]);
    }
    if codes != [] {
      var front := codes[..|codes| - 1];
      EncodedWidths(wcwidth, front);
      assert EncodeEach(codes)[..|codes| - 1] == EncodeEach(front);
      EncodedIsChunk(codes[|codes| - 1]);
    }
  }

  /** On every sequence of scalar values in UTF-8 the loop ends, and finds each of them where it was
      put, with its width, or none where `wcwidth` gives -1; the total is the sum. */
  lemma DecodesWhatWasEncoded(wcwidth: WideChar -> int, codes: seq<WideChar>, info: WidthInformation)
    requires forall c | c in codes :: IsScalar(c)
    ensures Lex(EncodeAll(codes)) == Some(EncodeEach(codes)) && AreChunks(EncodeEach(codes))
    ensures forall i | 0 <= i < |codes| :: CodeOf(EncodeEach(codes)[i]) == codes[i]
    ensures Described(wcwidth, EncodeEach(codes), info.characters, info.totalWidth) ==>
      && |info.characters| == |codes| && info.totalWidth == SumWidths(wcwidth, codes)
      && forall i | 0 <= i < |codes| ::
           && info.characters[i].index == |EncodeAll(codes[..i])|
           && info.characters[i].width == if wcwidth(codes[i]) == -1 then 0 else wcwidth(codes[i])
  {
    EncodedWidths(wcwidth, codes);
    LexConcat(EncodeEach(codes));
    forall i | 0 <= i < |codes|
      ensures CodeOf(EncodeEach(codes)[i]) == codes[i] && EncodeEach(codes)[..i] == EncodeEach(codes[..i])
    {
      EncodedIsChunk(codes[i]);
    }
  }
}
