/**
 IPv4 addresses, ranges of them and lists of ranges: reading, printing and comparing.
 */
module Ip {
  import Strings
  import opened Wrappers

  // ----- std::stoi and printing an int ---------------------------------------------------------

  predicate IsSpace(c: char) {
    c == ' ' || c == '\t' || c == '\n' || c == '\r' || c == '\U{000B}' || c == '\U{000C}'
  }

  predicate IsDigit(c: char) {
    '0' <= c <= '9'
  }

  predicate AllDigits(s: string) {
    forall c | c in s :: IsDigit(c)
  }

  function SkipSpaces(s: string): string {
    if s != "" && IsSpace(s[0]) then SkipSpaces(s[1..]) else s
  }

  function LeadingDigits(s: string): (d: string)
    ensures AllDigits(d)
  {
    if s != "" && IsDigit(s[0]) then [s[0]] + LeadingDigits(s[1..]) else ""
  }

  function ValueOf(d: string): nat
    requires AllDigits(d)
    decreases |d|
  {
    if d == "" then 0 else
      assert d[|d| - 1] in d;
      ValueOf(d[..|d| - 1]) * 10 + (d[|d| - 1] as int - '0' as int)
  }

  predicate IsInt(n: int) {
    -0x8000_0000 <= n < 0x8000_0000
  }

  /** Leading spaces, a sign and as many digits as there are; anything may follow. Nothing is
      returned where `stoi` throws. */
  function Stoi(s: string): (r: Option<int>)
    ensures r.Some? ==> IsInt(r.value)
  {
    var t := SkipSpaces(s);
    var signed := t != "" && (t[0] == '-' || t[0] == '+');
    Signed(signed && t[0] == '-', LeadingDigits(if signed then t[1..] else t))
  }

  function Signed(negative: bool, d: string): (r: Option<int>)
    requires AllDigits(d)
    ensures r.Some? ==> IsInt(r.value)
  {
    var value: int := ValueOf(d);
    var n := if negative then -value else value;
    if d == "" || !IsInt(n) then None else Some(n)
  }

  function Decimal(n: nat): (d: string)
    ensures d != "" && AllDigits(d)
  {
    var last := ['0' + (n % 10) as char];
    if n < 10 then last else Decimal(n / 10) + last
  }

  function IntText(n: int): string {
    if n < 0 then "-" + Decimal(-n) else Decimal(n)
  }

  lemma {:induction false} DecimalValue(n: nat)
    ensures ValueOf(Decimal(n)) == n
  {
    var d := Decimal(n);
    if n < 10 {
      assert d[..|d| - 1] == "";
    } else {
      DecimalValue(n / 10);
      assert d[..|d| - 1] == Decimal(n / 10);
    }
  }

  lemma {:induction false} LeadingAll(d: string)
    requires AllDigits(d)
    ensures LeadingDigits(d) == d
  {
    if d != "" {
      assert d[0] in d;
      LeadingAll(d[1..]);
    }
  }

  lemma StoiOfDigits(d: string)
    requires AllDigits(d) && d != "" && IsInt(ValueOf(d))
    ensures Stoi(d) == Some(ValueOf(d))
  {
    LeadingAll(d);
    assert d[0] in d;
    assert SkipSpaces(d) == d && Signed(false, d) == Some(ValueOf(d));
  }

  lemma StoiOfNegative(d: string)
    requires AllDigits(d) && d != "" && IsInt(-(ValueOf(d) as int))
    ensures Stoi("-" + d) == Some(-(ValueOf(d) as int))
  {
    var s := "-" + d;
    LeadingAll(d);
    assert s[0] == '-' && s[1..] == d;
    assert SkipSpaces(s) == s && LeadingDigits(s[1..]) == d;
    assert Signed(true, d) == Some(-(ValueOf(d) as int));
  }

  /** What is printed is read back. */
  lemma StoiReadsBack(n: int)
    requires IsInt(n)
    ensures Stoi(IntText(n)) == Some(n)
  {
    if n < 0 {
      DecimalValue(-n);
      StoiOfNegative(Decimal(-n));
    } else {
      DecimalValue(n);
      StoiOfDigits(Decimal(n));
    }
  }

  /** A space before it does not matter. */
  lemma StoiSkipsSpace(s: string)
    ensures Stoi(" " + s) == Stoi(s)
  {
    assert (" " + s)[1..] == s;
  }

  /** Behind any white space and at most one sign the digits up to the first other character count;
      without digits, or beyond 32 bits, nothing is read. */
  lemma StoiExactly(spaces: string, sign: string, d: string, rest: string)
    requires (forall c | c in spaces :: c == ' ' || c == '\t' || c == '\n' || c == '\r' || c == '\U{000B}' || c == '\U{000C}')
    requires (sign == "" || sign == "+" || sign == "-") && AllDigits(d)
    requires rest == "" || !('0' <= rest[0] <= '9')
    requires sign == "" && d == "" && rest != "" ==> rest[0] != '+' && rest[0] != '-' && !IsSpace(rest[0])
    ensures var n := if sign == "-" then -(ValueOf(d) as int) else ValueOf(d);
      Stoi(spaces + (sign + (d + rest))) == if d == "" || !(-0x8000_0000 <= n < 0x8000_0000) then None else Some(n)
  {
    var s := sign + (d + rest);
    FirstOfSigned(sign, d, rest);
    SkipsSpaces(spaces, s);
    LeadingExactly(d, rest);
    var signed := s != "" && (s[0] == '-' || s[0] == '+');
    assert signed <==> sign != "";
    assert (if signed then s[1..] else s) == d + rest;
    assert (signed && s[0] == '-') <==> sign == "-";
    assert Stoi(spaces + s) == Signed(sign == "-", d);
  }

  lemma FirstOfSigned(sign: string, d: string, rest: string)
    requires (sign == "" || sign == "+" || sign == "-") && AllDigits(d)
    requires sign == "" && d == "" && rest != "" ==> rest[0] != '+' && rest[0] != '-' && !IsSpace(rest[0])
    ensures var s := sign + (d + rest);
      && (s == "" || !IsSpace(s[0]))
      && (sign == "" ==> s == d + rest && (s == "" || (s[0] != '+' && s[0] != '-')))
      && (sign != "" ==> s != "" && s[0] == sign[0] && s[1..] == d + rest)
  {
    if sign == "" {
      assert sign + (d + rest) == d + rest;
      if d != "" {
        assert d[0] in d;
      } else {
        assert d + rest == rest;
      }
    }
  }

  lemma {:induction false} LeadingExactly(d: string, rest: string)
    requires AllDigits(d) && (rest == "" || !IsDigit(rest[0]))
    ensures LeadingDigits(d + rest) == d
  {
    if d == "" {
      assert d + rest == rest;
    } else {
      assert d[0] in d && (d + rest)[0] == d[0] && (d + rest)[1..] == d[1..] + rest;
      LeadingExactly(d[1..], rest);
    }
  }

  lemma {:induction false} SkipsSpaces(spaces: string, s: string)
    requires (forall c | c in spaces :: IsSpace(c)) && (s == "" || !IsSpace(s[0]))
    ensures SkipSpaces(spaces + s) == s
  {
    if spaces == "" {
      assert spaces + s == s;
    } else {
      assert spaces[0] in spaces && (spaces + s)[0] == spaces[0] && (spaces + s)[1..] == spaces[1..] + s;
      SkipsSpaces(spaces[1..], s);
    }
  }

  // ----- lists of parts ------------------------------------------------------------------------

  /** What the loops over parts collect: nothing once one of them does not parse. */
  function ParseEach<T>(parse: string -> Option<T>, strParts: seq<string>): Option<seq<T>> {
    if strParts == [] then Some([])
    else
      var front, last := ParseEach(parse, strParts[..|strParts| - 1]), parse(strParts[|strParts| - 1]);
      if front.Some? && last.Some? then Some(front.value + [last.value]) else None
  }

  lemma {:induction false} EachIsParsed<T>(parse: string -> Option<T>, strParts: seq<string>)
    ensures var r := ParseEach(parse, strParts);
      r.Some? ==> |r.value| == |strParts| && forall i | 0 <= i < |strParts| :: parse(strParts[i]) == Some(r.value[i])
    decreases |strParts|
  {
    if strParts != [] {
      EachIsParsed(parse, strParts[..|strParts| - 1]);
    }
  }

  lemma {:induction false} ParsedEach<T>(parse: string -> Option<T>, strParts: seq<string>, values: seq<T>)
    requires |values| == |strParts| && forall i | 0 <= i < |strParts| :: parse(strParts[i]) == Some(values[i])
    ensures ParseEach(parse, strParts) == Some(values)
    decreases |strParts|
  {
    if strParts != [] {
      var n := |strParts| - 1;
      ParsedEach(parse, strParts[..n], values[..n]);
      assert values == values[..n] + [values[n]];
    }
  }

  lemma {:induction false} NoPrefix<T>(parse: string -> Option<T>, strParts: seq<string>, i: nat)
    requires i <= |strParts| && ParseEach(parse, strParts[..i]).None?
    ensures ParseEach(parse, strParts).None?
    decreases |strParts|
  {
    if i == |strParts| {
      assert strParts[..i] == strParts;
    } else {
      var front := strParts[..|strParts| - 1];
      assert front[..i] == strParts[..i];
      NoPrefix(parse, front, i);
    }
  }

  // ----- addresses -----------------------------------------------------------------------------

  const NUM_PARTS: nat := 4

  /** The source's array of four ints, of any value. */
  type IpAddress = a: seq<int> | |a| == NUM_PARTS witness [0, 0, 0, 0]

  predicate IsOctet(n: int) {
    0 <= n <= 255
  }

  predicate AreOctets(parts: seq<int>) {
    forall n | n in parts :: IsOctet(n)
  }

  function ParsePart(s: string): Option<int> {
    var n := Stoi(s);
    if n.Some? && IsOctet(n.value) then n else None
  }

  function AddressOf(input: string): (r: Option<IpAddress>)
    ensures r.Some? ==> AreOctets(r.value)
  {
    var strParts := Strings.Split(input, '.');
    if |strParts| != NUM_PARTS then None
    else
      EachIsParsed(ParsePart, strParts);
      ParseEach(ParsePart, strParts)
  }

  /** Accepted are exactly four parts, each of which reads as a number from 0 to 255. */
  lemma AddressExactly(input: string)
    ensures var parts := Strings.Split(input, '.');
      && (AddressOf(input).Some? <==>
            |parts| == 4 && forall i | 0 <= i < 4 :: Stoi(parts[i]).Some? && 0 <= Stoi(parts[i]).value <= 255)
      && (AddressOf(input).Some? ==> forall i | 0 <= i < 4 :: Stoi(parts[i]) == Some(AddressOf(input).value[i]))
  {
    var parts := Strings.Split(input, '.');
    EachIsParsed(ParsePart, parts);
    if |parts| == 4 && forall i | 0 <= i < 4 :: Stoi(parts[i]).Some? && 0 <= Stoi(parts[i]).value <= 255 {
      EachExactly(ParsePart, parts);
    }
    if AddressOf(input).Some? {
      forall i | 0 <= i < 4 ensures Stoi(parts[i]) == Some(AddressOf(input).value[i]) {
        assert ParsePart(parts[i]) == Some(AddressOf(input).value[i]);
      }
    }
  }

  lemma PrefixOfPrefix<T>(s: seq<T>, i: nat)
    requires i < |s|
    ensures s[..i + 1][..i] == s[..i] && s[..i + 1][i] == s[i]
  {}

  method ParseAddress(input: string) returns (r: Option<IpAddress>)
    ensures r == AddressOf(input)
  {
    var strParts := Strings.Split(input, '.');
    if |strParts| != NUM_PARTS {
      return None;
    }
    var parts: seq<int> := [];
    for i := 0 to |strParts|
      invariant ParseEach(ParsePart, strParts[..i]) == Some(parts)
    {
      PrefixOfPrefix(strParts, i);
      var part := Stoi(strParts[i]);
      if part == None || part.value < 0 || part.value > 255 {
        NoPrefix(ParsePart, strParts, i + 1);
        return None;
      }
      parts := parts + [part.value];
    }
    assert strParts[..|strParts|] == strParts;
    EachIsParsed(ParsePart, strParts);
    assert parts == [parts[0], parts[1], parts[2], parts[3]];
    return Some([parts[0], parts[1], parts[2], parts[3]]);
  }

  function Texts(parts: seq<int>): seq<string> {
    seq(|parts|, i requires 0 <= i < |parts| => IntText(parts[i]))
  }

  function AddressText(a: IpAddress): string {
    Strings.Join(Texts(a), ".")
  }

  lemma TextsReadBack(parts: seq<int>)
    requires AreOctets(parts)
    ensures ParseEach(ParsePart, Texts(parts)) == Some(parts)
    ensures forall c | !IsDigit(c) :: Strings.Without(Texts(parts), c)
  {
    forall i | 0 <= i < |parts| ensures ParsePart(Texts(parts)[i]) == Some(parts[i]) && AllDigits(Texts(parts)[i]) {
      assert IsOctet(parts[i]);
      StoiReadsBack(parts[i]);
    }
    ParsedEach(ParsePart, Texts(parts), parts);
  }

  lemma {:induction false} JoinWithout(parts: seq<string>, sep: string, c: char)
    requires Strings.Without(parts, c) && c !in sep
    ensures c !in Strings.Join(parts, sep)
  {
    if parts != [] {
      assert parts[0] in parts;
      JoinWithout(parts[1..], sep, c);
    }
  }

  /** An address reads back from its text, also after a space, and no separator is in the text. */
  lemma AddressReadsBack(a: IpAddress)
    requires AreOctets(a)
    ensures AddressOf(AddressText(a)) == Some(a) && AddressOf(" " + AddressText(a)) == Some(a)
    ensures AddressText(a) != "" && IsDigit(AddressText(a)[0])
    ensures '-' !in AddressText(a) && ',' !in AddressText(a) && ':' !in AddressText(a)
  {
    var texts := Texts(a);
    TextsReadBack(a);
    Strings.SplitJoin(texts, '.');
    JoinWithout(texts, ".", '-');
    JoinWithout(texts, ".", ',');
    JoinWithout(texts, ".", ':');
    assert IsOctet(a[0]) && texts[0] == Decimal(a[0]) && texts[0][0] in texts[0];
    SpaceInFront(texts, a, " " + AddressText(a));
  }

  lemma SpaceInFront(texts: seq<string>, a: IpAddress, input: string)
    requires ParseEach(ParsePart, texts) == Some(a) && Strings.Without(texts, '.') && |texts| == NUM_PARTS
    requires input == " " + Strings.Join(texts, ".")
    ensures AddressOf(input) == Some(a)
  {
    JoinAfterSpace(texts);
    ParsedAfterSpace(texts, a);
    WithoutAfterSpace(texts);
    SplitIntoParts(input, AfterSpace(texts), a);
  }

  lemma WithoutAfterSpace(texts: seq<string>)
    requires texts != [] && Strings.Without(texts, '.')
    ensures Strings.Without(AfterSpace(texts), '.')
  {
    assert texts[0] in texts;
  }

  lemma SplitIntoParts(input: string, parts: seq<string>, a: IpAddress)
    requires input == Strings.Join(parts, ".") && Strings.Without(parts, '.') && |parts| == NUM_PARTS
    requires ParseEach(ParsePart, parts) == Some(a)
    ensures AddressOf(input) == Some(a)
  {
    Strings.SplitJoin(parts, '.');
  }

  function AfterSpace(texts: seq<string>): seq<string>
    requires texts != []
  {
    [" " + texts[0]] + texts[1..]
  }

  lemma ParsedAfterSpace(texts: seq<string>, a: seq<int>)
    requires texts != [] && ParseEach(ParsePart, texts) == Some(a)
    ensures ParseEach(ParsePart, AfterSpace(texts)) == Some(a)
  {
    EachIsParsed(ParsePart, texts);
    forall i | 0 <= i < |texts| ensures ParsePart(AfterSpace(texts)[i]) == Some(a[i]) {
      PartOf(texts, i);
    }
    ParsedEach(ParsePart, AfterSpace(texts), a);
  }

  lemma PartOf(texts: seq<string>, i: nat)
    requires i < |texts|
    ensures |AfterSpace(texts)| == |texts| && ParsePart(AfterSpace(texts)[i]) == ParsePart(texts[i])
  {
    if i == 0 {
      PartAfterSpace(texts[0]);
    } else {
      assert AfterSpace(texts)[i] == texts[i];
    }
  }

  lemma PartAfterSpace(s: string)
    ensures ParsePart(" " + s) == ParsePart(s)
  {
    StoiSkipsSpace(s);
  }

  lemma JoinAfterSpace(texts: seq<string>)
    requires |texts| > 1
    ensures " " + Strings.Join(texts, ".") == Strings.Join(AfterSpace(texts), ".")
  {
    var spaced := AfterSpace(texts);
    var rest := Strings.Join(texts[1..], ".");
    assert spaced[1..] == texts[1..];
    assert " " + (texts[0] + "." + rest) == " " + texts[0] + "." + rest;
  }

  // ----- comparing -----------------------------------------------------------------------------

  /** Position by position, the first difference decides. */
  predicate LessFrom(a: IpAddress, b: IpAddress, i: nat)
    requires i <= NUM_PARTS
    decreases NUM_PARTS - i
  {
    i < NUM_PARTS && (a[i] < b[i] || (a[i] == b[i] && LessFrom(a, b, i + 1)))
  }

  predicate LessThan(a: IpAddress, b: IpAddress, orEqualTo: bool) {
    LessFrom(a, b, 0) || (orEqualTo && a == b)
  }

  method GenericLessThan(self: IpAddress, other: IpAddress, orEqualTo: bool) returns (r: bool)
    ensures r == LessThan(self, other, orEqualTo)
  {
    var i := 0;
    while i < NUM_PARTS
      invariant 0 <= i <= NUM_PARTS && self[..i] == other[..i]
      invariant LessFrom(self, other, 0) == LessFrom(self, other, i)
      invariant i == NUM_PARTS ==> orEqualTo
    {
      if self[i] < other[i] {
        break;
      } else if self[i] > other[i] || (i == NUM_PARTS - 1 && !orEqualTo && self[i] == other[i]) {
        return false;
      }
      assert self[..i + 1] == self[..i] + [self[i]] && other[..i + 1] == other[..i] + [other[i]];
      i := i + 1;
    }
    assert self[..NUM_PARTS] == self && other[..NUM_PARTS] == other;
    return true;
  }

  /** An address as a number of 32 bits. */
  function Number(a: IpAddress): int {
    ((a[0] * 256 + a[1]) * 256 + a[2]) * 256 + a[3]
  }

  /** On octets the loop is the comparison of those numbers. */
  lemma ComparesNumbers(a: IpAddress, b: IpAddress, orEqualTo: bool)
    requires AreOctets(a) && AreOctets(b)
    ensures LessThan(a, b, orEqualTo) <==> Number(a) < Number(b) || (orEqualTo && Number(a) == Number(b))
    ensures Number(a) == Number(b) <==> a == b
  {
    assert forall i | 0 <= i < NUM_PARTS :: IsOctet(a[i]) && IsOctet(b[i]);
    assert LessFrom(a, b, 4) == false && LessFrom(a, b, 3) == (a[3] < b[3]);
    assert LessFrom(a, b, 2) == (a[2] < b[2] || (a[2] == b[2] && LessFrom(a, b, 3)));
    assert LessFrom(a, b, 1) == (a[1] < b[1] || (a[1] == b[1] && LessFrom(a, b, 2)));
    if a[0] == b[0] && a[1] == b[1] && a[2] == b[2] && a[3] == b[3] {
      assert a == b;
    }
  }

  // ----- ranges --------------------------------------------------------------------------------

  datatype IpRange = IpRange(start: IpAddress, end: Option<IpAddress>)

  predicate Contains(range: IpRange, ip: IpAddress) {
    match range.end
    case Some(end) => LessThan(range.start, ip, true) && LessThan(ip, end, true)
    case None => range.start == ip
  }

  method MultiContains(ranges: seq<IpRange>, ip: IpAddress) returns (r: bool)
    ensures r <==> exists range :: range in ranges && Contains(range, ip)
  {
    for i := 0 to |ranges|
      invariant forall j | 0 <= j < i :: !Contains(ranges[j], ip)
    {
      if Contains(ranges[i], ip) {
        return true;
      }
    }
    return false;
  }

  predicate RangeOfOctets(range: IpRange) {
    AreOctets(range.start) && (range.end.Some? ==> AreOctets(range.end.value))
  }

  predicate InInterval(range: IpRange, n: int) {
    Number(range.start) <= n <= Number(if range.end.Some? then range.end.value else range.start)
  }

  /** A list of ranges is the union of intervals of 32-bit numbers, ends included. */
  lemma IsUnionOfIntervals(ranges: seq<IpRange>, ip: IpAddress)
    requires AreOctets(ip) && forall range | range in ranges :: RangeOfOctets(range)
    ensures (exists range :: range in ranges && Contains(range, ip))
      <==> exists range :: range in ranges && InInterval(range, Number(ip))
  {
    forall range | range in ranges ensures Contains(range, ip) <==> InInterval(range, Number(ip)) {
      ComparesNumbers(range.start, ip, true);
      if range.end.Some? {
        ComparesNumbers(ip, range.end.value, true);
      }
    }
  }

  function RangeOf(input: string): (r: Option<IpRange>)
    ensures r.Some? ==> RangeOfOctets(r.value)
  {
    var strParts := Strings.Split(input, '-');
    if |strParts| != 1 && |strParts| != 2 then None
    else
      var start := AddressOf(strParts[0]);
      if start.None? then None
      else if |strParts| == 1 then Some(IpRange(start.value, None))
      else
        var end := AddressOf(strParts[1]);
        if end.Some? then Some(IpRange(start.value, end)) else None
  }

  /** Read are exactly one address, or two with a dash between them. */
  lemma RangeExactly(input: string, range: IpRange)
    ensures RangeOf(input) == Some(range) <==>
      || (range.end == None && '-' !in input && AddressOf(input) == Some(range.start))
      || (range.end != None && exists a: string, b: string :: IsRangeText(input, a, b, range))
  {
    var parts := Strings.Split(input, '-');
    Strings.FewParts(input, '-');
    if '-' !in input {
      Strings.SplitFirst(input, '-', "");
    }
    forall a: string, b: string | IsRangeText(input, a, b, range) ensures parts == [a, b] {
      Strings.SplitTwo(a, '-', b);
    }
    if RangeOf(input) == Some(range) && |parts| == 2 {
      assert IsRangeText(input, parts[0], parts[1], range);
    }
  }

  ghost predicate IsRangeText(input: string, a: string, b: string, range: IpRange) {
    && input == a + "-" + b && '-' !in a && '-' !in b
    && AddressOf(a) == Some(range.start) && AddressOf(b) == range.end
  }

  const PRIVATE_IP_RANGES: seq<IpRange> := [
    IpRange([10, 0, 0, 0], Some([10, 255, 255, 255])),
    IpRange([172, 16, 0, 0], Some([172, 31, 255, 255])),
    IpRange([192, 168, 0, 0], Some([192, 168, 255, 255])),
    IpRange([127, 0, 0, 0], Some([127, 255, 255, 255]))]

  function MultiOf(input: string): Option<seq<IpRange>> {
    if input == "@private" then Some(PRIVATE_IP_RANGES)
    else if input == "" then Some([])
    else ParseEach(RangeOf, Strings.Split(input, ','))
  }

  method ParseMulti(input: string) returns (r: Option<seq<IpRange>>)
    ensures r == MultiOf(input)
  {
    if input == "@private" {
      return Some(PRIVATE_IP_RANGES);
    } else if input == "" {
      return Some([]);
    }
    var strParts, result := Strings.Split(input, ','), [];
    for i := 0 to |strParts|
      invariant ParseEach(RangeOf, strParts[..i]) == Some(result)
    {
      PrefixOfPrefix(strParts, i);
      var range := RangeOf(strParts[i]);
      if range.Some? {
        result := result + [range.value];
      } else {
        NoPrefix(RangeOf, strParts, i + 1);
        return None;
      }
    }
    assert strParts[..|strParts|] == strParts;
    return Some(result);
  }

  function RangeText(range: IpRange): string {
    if range.end.Some? then AddressText(range.start) + "-" + AddressText(range.end.value)
    else AddressText(range.start)
  }

  function RangeTexts(ranges: seq<IpRange>): seq<string> {
    seq(|ranges|, i requires 0 <= i < |ranges| => RangeText(ranges[i]))
  }

  function Unparse(ranges: seq<IpRange>): string {
    Strings.Join(RangeTexts(ranges), ", ")
  }

  lemma RangeReadsBack(range: IpRange)
    requires RangeOfOctets(range)
    ensures RangeOf(RangeText(range)) == Some(range) && RangeOf(" " + RangeText(range)) == Some(range)
    ensures ',' !in RangeText(range) && RangeText(range) != "" && IsDigit(RangeText(range)[0])
  {
    var start := AddressText(range.start);
    AddressReadsBack(range.start);
    if range.end.Some? {
      AddressReadsBack(range.end.value);
      SplitPair(start, AddressText(range.end.value));
    } else {
      Strings.SplitFirst(start, '-', "");
      Strings.SplitFirst(" " + start, '-', "");
      assert RangeText(range) == start;
    }
  }

  lemma SplitPair(a: string, b: string)
    requires '-' !in a && '-' !in b
    ensures Strings.Split(a + "-" + b, '-') == [a, b] && Strings.Split(" " + (a + "-" + b), '-') == [" " + a, b]
  {
    Strings.SplitTwo(a, '-', b);
    Strings.SplitTwo(" " + a, '-', b);
    assert " " + (a + "-" + b) == " " + a + "-" + b;
  }

  /** The texts as `Split` on the comma finds them: all but the first after a space. */
  function Spaced(texts: seq<string>): seq<string> {
    seq(|texts|, i requires 0 <= i < |texts| => if i == 0 then texts[0] else " " + texts[i])
  }

  lemma SpacedSnoc(texts: seq<string>, last: string)
    ensures Spaced(texts + [last]) == Spaced(texts) + [if texts == [] then last else " " + last]
  {}

  lemma {:induction false} JoinSpaced(texts: seq<string>)
    ensures Strings.Join(texts, ", ") == Strings.Join(Spaced(texts), ",")
    decreases |texts|
  {
    if |texts| > 1 {
      var front, last := texts[..|texts| - 1], texts[|texts| - 1];
      JoinSpaced(front);
      assert texts == front + [last];
      SpacedSnoc(front, last);
      Strings.JoinSnoc(front, last, ", ");
      Strings.JoinSnoc(Spaced(front), " " + last, ",");
      assert "," + (" " + last) == ", " + last;
    }
  }

  lemma TextsAreRead(ranges: seq<IpRange>)
    requires forall range | range in ranges :: RangeOfOctets(range)
    ensures ParseEach(RangeOf, Spaced(RangeTexts(ranges))) == Some(ranges)
    ensures Strings.Without(Spaced(RangeTexts(ranges)), ',')
  {
    var texts := Spaced(RangeTexts(ranges));
    forall i | 0 <= i < |texts| ensures RangeOf(texts[i]) == Some(ranges[i]) && ',' !in texts[i] {
      RangeReadsBack(ranges[i]);
    }
    ParsedEach(RangeOf, texts, ranges);
  }

  lemma UnparseStarts(ranges: seq<IpRange>)
    requires ranges != [] && RangeOfOctets(ranges[0])
    ensures Unparse(ranges) != "" && IsDigit(Unparse(ranges)[0])
  {
    RangeReadsBack(ranges[0]);
    assert RangeTexts(ranges)[0] == RangeText(ranges[0]);
  }

  lemma ListReadsBack(ranges: seq<IpRange>)
    requires forall range | range in ranges :: RangeOfOctets(range)
    ensures MultiOf(Unparse(ranges)) == Some(ranges)
  {
    if ranges != [] {
      UnparseStarts(ranges);
      TextsAreRead(ranges);
      JoinSpaced(RangeTexts(ranges));
      Strings.SplitJoin(Spaced(RangeTexts(ranges)), ',');
    }
  }

  /** A list of ranges reads back from its flag text exactly when it is made of octets: the space
      after each comma does not matter. */
  lemma ListReadsBackExactly(ranges: seq<IpRange>)
    ensures MultiOf(Unparse(ranges)) == Some(ranges) <==> forall range | range in ranges :: RangeOfOctets(range)
  {
    if forall range | range in ranges :: RangeOfOctets(range) {
      ListReadsBack(ranges);
    } else {
      OnlyOctetsAreRead(Unparse(ranges));
    }
  }

  lemma OnlyOctetsAreRead(input: string)
    ensures MultiOf(input).Some? ==> forall range | range in MultiOf(input).value :: RangeOfOctets(range)
  {
    PrivateAreOctets();
    EachIsParsed(RangeOf, Strings.Split(input, ','));
  }

  lemma PrivateAreOctets()
    ensures forall range | range in PRIVATE_IP_RANGES :: RangeOfOctets(range)
  {}

  /** "@private" is 10/8, 172.16/12, 192.168/16 and 127/8. */
  lemma PrivateExactly(ip: IpAddress)
    requires AreOctets(ip)
    ensures MultiOf("@private").Some?
    ensures (exists range :: range in MultiOf("@private").value && Contains(range, ip))
      <==> ip[0] == 10 || ip[0] == 127 || (ip[0] == 172 && 16 <= ip[1] < 32) || (ip[0] == 192 && ip[1] == 168)
  {
    var ranges := MultiOf("@private").value;
    PrivateAreOctets();
    IsUnionOfIntervals(ranges, ip);
    BlockOf(ip, 10, 0, 255);
    BlockOf(ip, 172, 16, 31);
    BlockOf(ip, 192, 168, 168);
    BlockOf(ip, 127, 0, 255);
    assert IsOctet(ip[1]);
    OneOfFour(ranges, Number(ip));
  }

  lemma OneOfFour(ranges: seq<IpRange>, n: int)
    requires |ranges| == 4
    ensures (exists range :: range in ranges && InInterval(range, n))
      <==> InInterval(ranges[0], n) || InInterval(ranges[1], n) || InInterval(ranges[2], n) || InInterval(ranges[3], n)
  {
    assert ranges[0] in ranges && ranges[1] in ranges && ranges[2] in ranges && ranges[3] in ranges;
  }

  lemma BlockOf(ip: IpAddress, a: nat, b: nat, c: nat)
    requires AreOctets(ip) && a <= 255 && b <= 255 && c <= 255
    ensures InInterval(IpRange([a, b, 0, 0], Some([a, c, 255, 255])), Number(ip)) <==> ip[0] == a && b <= ip[1] <= c
  {
    assert IsOctet(ip[0]) && IsOctet(ip[1]) && IsOctet(ip[2]) && IsOctet(ip[3]);
  }

  /** A list is accepted exactly if it is empty or each of its parts is. */
  lemma MultiExactly(input: string)
    requires input != "@private" && input != ""
    ensures var parts := Strings.Split(input, ',');
      && (MultiOf(input).Some? <==> EachParses(RangeOf, parts))
      && (MultiOf(input).Some? ==>
            |MultiOf(input).value| == |parts| && forall i | 0 <= i < |parts| :: RangeOf(parts[i]) == Some(MultiOf(input).value[i]))
  {
    var parts := Strings.Split(input, ',');
    EachIsParsed(RangeOf, parts);
    EachExactly(RangeOf, parts);
  }

  predicate EachParses<T>(parse: string -> Option<T>, strParts: seq<string>) {
    forall i | 0 <= i < |strParts| :: parse(strParts[i]).Some?
  }

  lemma EachExactly<T>(parse: string -> Option<T>, strParts: seq<string>)
    ensures ParseEach(parse, strParts).Some? <==> EachParses(parse, strParts)
  {
    EachIsParsed(parse, strParts);
    if EachParses(parse, strParts) {
      ParsedEach(parse, strParts, seq(|strParts|, i requires 0 <= i < |strParts| => parse(strParts[i]).value));
    }
  }

  // ----- locations -----------------------------------------------------------------------------

  datatype IpLocation = IpLocation(address: IpAddress, port: int)

  const DEFAULT_PORT: int := 7420

  function LocationOf(input: string): Option<IpLocation> {
    var strParts := Strings.Split(input, ':');
    if |strParts| != 1 && |strParts| != 2 then None
    else
      var address := AddressOf(strParts[0]);
      if address.None? then None
      else if |strParts| == 1 then Some(IpLocation(address.value, DEFAULT_PORT))
      else
        var port := Stoi(strParts[1]);
        if port.Some? then Some(IpLocation(address.value, port.value)) else None
  }

  /** Read are exactly an address, for the default port, or an address and a number. */
  lemma LocationExactly(input: string, location: IpLocation)
    ensures LocationOf(input) == Some(location) <==>
      || (location.port == 7420 && ':' !in input && AddressOf(input) == Some(location.address))
      || exists a: string, b: string :: IsLocationText(input, a, b, location)
  {
    var parts := Strings.Split(input, ':');
    Strings.FewParts(input, ':');
    if ':' !in input {
      Strings.SplitFirst(input, ':', "");
    }
    forall a: string, b: string | IsLocationText(input, a, b, location) ensures parts == [a, b] {
      Strings.SplitTwo(a, ':', b);
    }
    if LocationOf(input) == Some(location) && |parts| == 2 {
      assert IsLocationText(input, parts[0], parts[1], location);
    }
  }

  ghost predicate IsLocationText(input: string, a: string, b: string, location: IpLocation) {
    && input == a + ":" + b && ':' !in a && ':' !in b
    && AddressOf(a) == Some(location.address) && Stoi(b) == Some(location.port)
  }

  function LocationText(location: IpLocation): string {
    AddressText(location.address) + ":" + IntText(location.port)
  }

  /** A location reads back from its text; without a port it has the default one. */
  lemma LocationReadsBack(location: IpLocation)
    requires AreOctets(location.address) && IsInt(location.port)
    ensures LocationOf(LocationText(location)) == Some(location)
    ensures LocationOf(AddressText(location.address)) == Some(location.(port := 7420))
  {
    var address, port := AddressText(location.address), IntText(location.port);
    AddressReadsBack(location.address);
    StoiReadsBack(location.port);
    Strings.SplitFirst(address, ':', port);
    assert ':' !in port;
    Strings.SplitFirst(port, ':', "");
  }
}
