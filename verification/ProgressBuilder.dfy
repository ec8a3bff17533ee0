/**
 The progress line: an action symbol, an item cut to a third of the screen, a bar and a percentage,
 written through a moving index into a buffer that is allocated beforehand.
 */
module ProgressBuilder {
  import opened Utf8
  import opened Wrappers

  const SPACE: Byte := 0x20
  const DOT: Byte := 0x2E
  const PERCENT: Byte := 0x25
  const OPEN: Byte := 0x5B
  const CLOSE: Byte := 0x5D
  const FILLED: Byte := 0x3D
  const UNFILLED: Byte := 0x2D
  const ELLIPSES: seq<Byte> := [DOT, DOT, DOT]
  const DIGITS: seq<Byte> := [0x30, 0x31, 0x32, 0x33, 0x34, 0x35, 0x36, 0x37, 0x38, 0x39]

  datatype Builder = Builder(action: seq<Byte>, item: seq<Byte>, itemUtf8: WidthInformation)

  /** What the constructor establishes; it aborts unless the action is one column wide. */
  predicate Built(wcwidth: WideChar -> int, b: Builder) {
    && Lex(b.action).Some? && Lex(b.item).Some?
    && AreChunks(Lex(b.action).value) && AreChunks(Lex(b.item).value)
    && TotalWidth(wcwidth, Lex(b.action).value) == 1
    && Described(wcwidth, Lex(b.item).value, b.itemUtf8.characters, b.itemUtf8.totalWidth)
  }

  method Create(wcwidth: WideChar -> int, action: seq<Byte>, item: seq<Byte>) returns (r: Option<Builder>)
    requires Lex(action).Some? && Lex(item).Some?
    ensures r.Some? ==> r.value.action == action && r.value.item == item && Built(wcwidth, r.value)
    ensures r.Some? <==> AreChunks(Lex(action).value) && TotalWidth(wcwidth, Lex(action).value) == 1
  {
    var itemUtf8 := ForString(wcwidth, item);
    var actionUtf8 := ForString(wcwidth, action);
    if actionUtf8.value.totalWidth != 1 {
      return None;
    }
    return Some(Builder(action, item, itemUtf8.value));
  }

  // ----- the item ------------------------------------------------------------------------------

  const U64: int := 0x1_0000_0000_0000_0000

  /** A third, rounded toward zero. */
  function ItemSpace(columns: int): nat {
    if columns < 0 then 0 else columns / 3
  }

  /** `item_space - kEllipses.size()`, unsigned. */
  function Limit(itemSpace: nat): nat {
    (itemSpace - |ELLIPSES|) % U64
  }

  /** The loop that counts characters from the end, standing before `characters[k - 1]`; nothing when
      it leaves the list at either end. */
  function Elide(characters: seq<CharacterInfo>, k: nat, currentWidth: int, limit: nat): (r: Option<nat>)
    requires k <= |characters|
    ensures r.Some? ==> r.value < |characters|
  {
    if k == 0 then None
    else if currentWidth + characters[k - 1].width > limit then
      if k < |characters| then Some(k) else None
    else Elide(characters, k - 1, currentWidth + characters[k - 1].width, limit)
  }

  function ElideFrom(b: Builder, itemSpace: nat): (r: Option<nat>)
    ensures r.Some? ==> r.value < |b.itemUtf8.characters|
  {
    Elide(b.itemUtf8.characters, |b.itemUtf8.characters|, 0, Limit(itemSpace))
  }

  function Spaces(n: nat): seq<Byte> {
    seq(n, _ => SPACE)
  }

  predicate Elided(b: Builder, itemSpace: nat) {
    b.itemUtf8.totalWidth > itemSpace
  }

  /** What is shown of the item. */
  function ShownItem(b: Builder, itemSpace: nat): Option<seq<Byte>> {
    if Elided(b, itemSpace) then
      var from := ElideFrom(b, itemSpace);
      if from.Some? && b.itemUtf8.characters[from.value].index <= |b.item|
      then Some(ELLIPSES + b.item[b.itemUtf8.characters[from.value].index..])
      else None
    else Some(b.item + Spaces(itemSpace - b.itemUtf8.totalWidth))
  }

  // ----- the percentage ------------------------------------------------------------------------

  /** Conversion from `double` to `int`. */
  function Truncated(x: real): int {
    if x >= 0.0 then x.Floor else -(-x).Floor
  }

  /** The loop's `factor`, `scaled_percent` and `all_zeros` before its step `i`. */
  function FactorAt(i: nat): nat {
    if i == 0 then 1000 else if i == 1 then 100 else if i == 2 then 10 else if i == 3 then 1 else 0
  }

  function ScaledAt(scaled: nat, i: nat): nat {
    if i == 0 then scaled else if i == 1 then scaled % 1000 else if i == 2 then scaled % 100
    else if i == 3 then scaled % 10 else 0
  }

  predicate AllZeros(scaled: nat, i: nat) {
    if i == 4 then scaled == 0 else scaled < 10 * FactorAt(i)
  }

  /** "XXX.X%", where `scaled` is in tenths of a percent. */
  function PercentText(scaled: nat): seq<Byte>
    requires scaled <= 1000
  {
    [if scaled < 1000 then SPACE else DIGITS[scaled / 1000],
     if scaled < 100 then SPACE else DIGITS[scaled % 1000 / 100],
     DIGITS[scaled % 100 / 10],
     DOT,
     DIGITS[scaled % 10],
     PERCENT]
  }

  /** Where the loop's step `i` prints its digit. */
  function Place(i: nat): nat {
    if i < 3 then i else 4
  }

  lemma DigitStep(scaled: nat, i: nat)
    requires scaled <= 1000 && i < 4
    ensures var digit := ScaledAt(scaled, i) / FactorAt(i);
      && 0 <= digit < 10
      && PercentText(scaled)[Place(i)] == (if digit == 0 && i < 2 && AllZeros(scaled, i) then SPACE else DIGITS[digit])
      && ScaledAt(scaled, i) - digit * FactorAt(i) == ScaledAt(scaled, i + 1)
      && (AllZeros(scaled, i + 1) <==> AllZeros(scaled, i) && digit == 0)
    ensures FactorAt(i + 1) == FactorAt(i) / 10
  {
    if i < 2 {
      LeadingDigitStep(scaled, i);
    } else {
      LastDigitStep(scaled, i);
    }
  }

  lemma LastDigitStep(scaled: nat, i: nat)
    requires scaled <= 1000 && 2 <= i < 4
    ensures var digit := ScaledAt(scaled, i) / FactorAt(i);
      && 0 <= digit < 10
      && PercentText(scaled)[Place(i)] == DIGITS[digit]
      && ScaledAt(scaled, i) - digit * FactorAt(i) == ScaledAt(scaled, i + 1)
      && (AllZeros(scaled, i + 1) <==> AllZeros(scaled, i) && digit == 0)
  {
    if i == 2 {
      assert FactorAt(i) == 10 && ScaledAt(scaled, i) == scaled % 100;
      Tens(scaled);
    } else {
      assert FactorAt(i) == 1 && ScaledAt(scaled, i) == scaled % 10;
    }
  }

  lemma Tens(scaled: nat)
    ensures 0 <= scaled % 100 / 10 < 10 && scaled % 100 - scaled % 100 / 10 * 10 == scaled % 10
    ensures scaled % 100 / 10 == 0 <==> scaled % 100 < 10
  {
    var q, m := scaled / 100, scaled % 100;
    assert scaled == 100 * q + m;
    var d, u := m / 10, m % 10;
    assert m == 10 * d + u && 0 <= u < 10;
    assert scaled == 10 * (10 * q + d) + u;
    assert scaled % 10 == u;
  }

  lemma LeadingDigitStep(scaled: nat, i: nat)
    requires scaled <= 1000 && i < 2
    ensures var digit := ScaledAt(scaled, i) / FactorAt(i);
      && 0 <= digit < 10
      && PercentText(scaled)[i] == (if digit == 0 && AllZeros(scaled, i) then SPACE else DIGITS[digit])
      && ScaledAt(scaled, i) - digit * FactorAt(i) == ScaledAt(scaled, i + 1)
      && (AllZeros(scaled, i + 1) <==> AllZeros(scaled, i) && digit == 0)
  {
    if i == 0 {
      assert FactorAt(i) == 1000 && ScaledAt(scaled, i) == scaled;
      assert scaled / 1000 == if scaled < 1000 then 0 else 1;
    } else {
      assert FactorAt(i) == 100 && ScaledAt(scaled, i) == scaled % 1000;
      Hundreds(scaled);
    }
  }

  lemma Hundreds(scaled: nat)
    requires scaled <= 1000
    ensures 0 <= scaled % 1000 / 100 < 10 && scaled % 1000 - scaled % 1000 / 100 * 100 == scaled % 100
    ensures scaled % 1000 / 100 == 0 <==> scaled < 100 || scaled == 1000
  {}

  /** What a place shows: a digit, or nothing. */
  function Value(b: Byte): nat {
    if b == 0x31 then 1 else if b == 0x32 then 2 else if b == 0x33 then 3 else if b == 0x34 then 4
    else if b == 0x35 then 5 else if b == 0x36 then 6 else if b == 0x37 then 7 else if b == 0x38 then 8
    else if b == 0x39 then 9 else 0
  }

  lemma DigitValue(d: nat)
    requires d < 10
    ensures Value(DIGITS[d]) == d && DIGITS[d] != SPACE
  {}

  /** The six characters say exactly `scaled` tenths of a percent, without leading zeros. */
  lemma PercentDenotes(scaled: nat)
    requires scaled <= 1000
    ensures var t := PercentText(scaled);
      && |t| == 6 && t[3] == DOT && t[5] == PERCENT
      && 1000 * Value(t[0]) + 100 * Value(t[1]) + 10 * Value(t[2]) + Value(t[4]) == scaled
      && (t[0] == SPACE <==> scaled < 1000) && (t[1] == SPACE <==> scaled < 100) && t[2] != SPACE
  {
    DigitValue(scaled / 1000);
    DigitValue(scaled % 1000 / 100);
    DigitValue(scaled % 100 / 10);
    DigitValue(scaled % 10);
    PlacesAdd(scaled);
  }

  lemma PlacesAdd(scaled: nat)
    requires scaled <= 1000
    ensures scaled < 1000 <==> scaled / 1000 == 0
    ensures scaled < 1000 ==> (scaled < 100 <==> scaled % 1000 / 100 == 0)
    ensures 1000 * (scaled / 1000) + 100 * (scaled % 1000 / 100) + 10 * (scaled % 100 / 10) + scaled % 10 == scaled
  {
    Hundreds(scaled);
    Tens(scaled);
    assert scaled == 1000 * (scaled / 1000) + scaled % 1000;
  }

  // ----- the line ------------------------------------------------------------------------------

  function Capacity(columns: int): nat {
    if columns * 4 > 15 then columns * 4 else 15
  }

  function RemainingCols(columns: int): int {
    columns - (1 + 1 + ItemSpace(columns) + 1 + 1) - (1 + 1 + 6)
  }

  function BarCols(columns: int): nat {
    if RemainingCols(columns) > 0 then RemainingCols(columns) else 0
  }

  function Bar(n: nat, filled: int): seq<Byte> {
    seq(n, i => if i < filled then FILLED else UNFILLED)
  }

  function Portion(cols: int, progress: real): int {
    Truncated(cols as real * progress)
  }

  function FilledCols(columns: int, progress: real): int {
    Portion(RemainingCols(columns), progress)
  }

  function Line(b: Builder, shown: seq<Byte>, columns: int, progress: real): seq<Byte>
    requires 0.0 <= progress <= 1.0
  {
    b.action + [SPACE] + shown + [SPACE, OPEN] + Bar(BarCols(columns), FilledCols(columns, progress))
    + [CLOSE, SPACE] + PercentText(Truncated(progress * 1000.0))
  }

  /** Where `BuildLine` is defined: the elision stops on a character, and the line fits the buffer. */
  predicate Safe(b: Builder, columns: int) {
    && ShownItem(b, ItemSpace(columns)).Some?
    && |b.action| + |ShownItem(b, ItemSpace(columns)).value| + BarCols(columns) + 11 <= Capacity(columns)
  }

  // ----- writing it ----------------------------------------------------------------------------

  /** What is written before `it` is `text`, and everything after it is still a space. */
  ghost predicate Holds(a: array<Byte>, it: nat, text: seq<Byte>)
    reads a
  {
    it <= a.Length && a[..it] == text && forall k | it <= k < a.Length :: a[k] == SPACE
  }

  /** `*it++ = c`. */
  method Put(c: Byte, a: array<Byte>, start: nat, ghost text: seq<Byte>) returns (it: nat)
    requires Holds(a, start, text) && start < a.Length
    modifies a
    ensures it == start + 1 && Holds(a, it, text + [c])
  {
    a[start] := c;
    it := start + 1;
  }

  /** `it += n` passes over spaces. */
  lemma PassOver(a: array<Byte>, it: nat, n: nat, text: seq<Byte>)
    requires Holds(a, it, text) && it + n <= a.Length
    ensures Holds(a, it + n, text + Spaces(n))
  {}

  method Copy(src: seq<Byte>, a: array<Byte>, start: nat, ghost text: seq<Byte>) returns (it: nat)
    requires Holds(a, start, text) && start + |src| <= a.Length
    modifies a
    ensures it == start + |src| && Holds(a, it, text + src)
  {
    it := start;
    while it < start + |src|
      invariant start <= it <= start + |src| && Holds(a, it, text + src[..it - start])
    {
      ghost var n := it - start;
      assert text + src[..n + 1] == text + src[..n] + [src[n]];
      it := Put(src[it - start], a, it, text + src[..n]);
    }
    assert src[..|src|] == src;
  }

  method PercentToStringIterator(percent: real, a: array<Byte>, start: nat, ghost text: seq<Byte>) returns (it: nat)
    requires 0.0 <= percent <= 1.0 && Holds(a, start, text) && start + 6 <= a.Length
    modifies a
    ensures it == start + 6 && Holds(a, it, text + PercentText(Truncated(percent * 1000.0)))
  {
    it := start;
    var factor := 1000;
    var scaledPercent := Truncated(percent * 1000.0);
    var allZeros := true;
    ghost var scaled := scaledPercent;
    ghost var percentText := PercentText(scaled);
    var i := 0;
    while i < 4
      invariant 0 <= i <= 4 && it == start + (if i == 4 then 5 else i)
      invariant Holds(a, it, text + percentText[..it - start])
      invariant factor == FactorAt(i) && scaledPercent == ScaledAt(scaled, i) && allZeros == AllZeros(scaled, i)
    {
      DigitStep(scaled, i);
      if i == 3 {
        assert text + percentText[..4] == text + percentText[..3] + [DOT];
        it := Put(DOT, a, it, text + percentText[..3]);
      }
      var digit := scaledPercent / factor;
      ghost var n := it - start;
      assert text + percentText[..n + 1] == text + percentText[..n] + [percentText[Place(i)]];
      if digit == 0 && i < 2 && allZeros {
        it := Put(SPACE, a, it, text + percentText[..n]);
      } else {
        if digit != 0 {
          allZeros := false;
        }
        it := Put(DIGITS[digit], a, it, text + percentText[..n]);
      }
      scaledPercent := scaledPercent - digit * factor;
      if scaledPercent < 0 {
        scaledPercent := 0;
      }
      factor := factor / 10;
      i := i + 1;
    }
    assert text + percentText == text + percentText[..5] + [PERCENT];
    it := Put(PERCENT, a, it, text + percentText[..5]);
  }

  /** Figures out where to start printing the item. */
  method FirstShown(b: Builder, itemSpace: nat) returns (infoIt: int)
    ensures var r := ElideFrom(b, itemSpace);
      r.Some? ==> infoIt == r.value
  {
    var characters := b.itemUtf8.characters;
    var currentWidth := 0;
    infoIt := |characters| - 1;
    while infoIt >= 0
      invariant -1 <= infoIt < |characters|
      invariant ElideFrom(b, itemSpace) == Elide(characters, infoIt + 1, currentWidth, Limit(itemSpace))
    {
      if currentWidth + characters[infoIt].width > Limit(itemSpace) {
        infoIt := infoIt + 1;
        break;
      }
      currentWidth := currentWidth + characters[infoIt].width;
      infoIt := infoIt - 1;
    }
  }

  /** `screen` is the width of the terminal, or 75 when there is none. */
  method BuildLine(b: Builder, screen: nat, progress: real) returns (line: seq<Byte>)
    requires 0.0 <= progress <= 1.0 && Safe(b, screen - 1)
    ensures line == Line(b, ShownItem(b, ItemSpace(screen - 1)).value, screen - 1, progress)
  {
    var columns := screen - 1;
    var result := new Byte[Capacity(columns)](_ => SPACE);
    var it := WriteHead(b, columns, result);
    ghost var head := b.action + [SPACE] + ShownItem(b, ItemSpace(columns)).value + [SPACE, OPEN];
    it := WriteProgress(columns, progress, result, it, head);
    line := result[..it];
  }

  /** The action and the item, up to the opening bracket. */
  method WriteHead(b: Builder, columns: int, a: array<Byte>) returns (it: nat)
    requires Safe(b, columns) && a.Length == Capacity(columns) && Holds(a, 0, [])
    modifies a
    ensures var head := b.action + [SPACE] + ShownItem(b, ItemSpace(columns)).value + [SPACE, OPEN];
      it == |head| && Holds(a, it, head)
  {
    it := Copy(b.action, a, 0, []);
    assert [] + b.action == b.action && Spaces(1) == [SPACE];
    PassOver(a, it, 1, b.action);
    it := it + 1;
    ghost var shown := ShownItem(b, ItemSpace(columns)).value;
    it := WriteItem(b, ItemSpace(columns), a, it, b.action + [SPACE]);
    PassOver(a, it, 1, b.action + [SPACE] + shown);
    it := it + 1;
    it := Put(OPEN, a, it, b.action + [SPACE] + shown + [SPACE]);
    Regroup(b.action + [SPACE] + shown, [SPACE], [OPEN]);
  }

  /** The bar, the closing bracket and the percentage. */
  method WriteProgress(columns: int, progress: real, a: array<Byte>, start: nat, ghost text: seq<Byte>)
    returns (it: nat)
    requires 0.0 <= progress <= 1.0 && Holds(a, start, text) && start + BarCols(columns) + 8 <= a.Length
    modifies a
    ensures it == start + BarCols(columns) + 8
    ensures Holds(a, it, text + Bar(BarCols(columns), FilledCols(columns, progress)) + [CLOSE, SPACE]
                         + PercentText(Truncated(progress * 1000.0)))
  {
    var colsTaken := 1 + 1 + ItemSpace(columns) + 1 + 1;
    var remainingCols := columns - colsTaken - (1 + 1 + 6);
    var filledCols := FilledCols(columns, progress);
    ghost var bar := Bar(BarCols(columns), filledCols);
    it := WriteBar(remainingCols, filledCols, a, start, text);
    it := Put(CLOSE, a, it, text + bar);
    it := Put(SPACE, a, it, text + bar + [CLOSE]);
    Regroup(text + bar, [CLOSE], [SPACE]);
    it := PercentToStringIterator(progress, a, it, text + bar + [CLOSE, SPACE]);
  }

  method WriteItem(b: Builder, itemSpace: nat, a: array<Byte>, start: nat, ghost text: seq<Byte>)
    returns (it: nat)
    requires ShownItem(b, itemSpace).Some? && start + |ShownItem(b, itemSpace).value| <= a.Length
    requires Holds(a, start, text)
    modifies a
    ensures var shown := ShownItem(b, itemSpace).value;
      it == start + |shown| && Holds(a, it, text + shown)
  {
    if b.itemUtf8.totalWidth > itemSpace {
      it := Copy(ELLIPSES, a, start, text);
      var infoIt := FirstShown(b, itemSpace);
      var rest := b.item[b.itemUtf8.characters[infoIt].index..];
      it := Copy(rest, a, it, text + ELLIPSES);
      Regroup(text, ELLIPSES, rest);
    } else {
      it := Copy(b.item, a, start, text);
      var left := itemSpace - b.itemUtf8.totalWidth;
      PassOver(a, it, left, text + b.item);
      it := it + left;
      Regroup(text, b.item, Spaces(left));
    }
  }

  method WriteBar(remainingCols: int, filledCols: int, a: array<Byte>, start: nat, ghost text: seq<Byte>)
    returns (it: nat)
    requires Holds(a, start, text) && start + remainingCols <= a.Length
    modifies a
    ensures it == start + (if remainingCols > 0 then remainingCols else 0)
    ensures Holds(a, it, text + Bar(if remainingCols > 0 then remainingCols else 0, filledCols))
  {
    it := start;
    var i := 0;
    while i < remainingCols
      invariant 0 <= i && (i <= remainingCols || i == 0) && it == start + i
      invariant Holds(a, it, text + Bar(i, filledCols))
    {
      var c := if i < filledCols then FILLED else UNFILLED;
      assert text + Bar(i + 1, filledCols) == text + Bar(i, filledCols) + [c];
      it := Put(c, a, it, text + Bar(i, filledCols));
      i := i + 1;
    }
  }

  lemma Regroup(a: seq<Byte>, b: seq<Byte>, c: seq<Byte>)
    ensures a + b + c == a + (b + c)
  {}

  // ----- what the line is ----------------------------------------------------------------------

  /** Every character takes `low` to 2 columns. */
  predicate WidthsFrom(wcwidth: WideChar -> int, chunks: seq<seq<Byte>>, low: int)
    requires AreChunks(chunks)
  {
    forall s | s in chunks :: low <= WidthAt(wcwidth, s) <= 2
  }

  /** The columns of the characters from the `k`th on. */
  function WidthFrom(characters: seq<CharacterInfo>, k: nat): int
    requires k <= |characters|
    decreases |characters| - k
  {
    if k == |characters| then 0 else characters[k].width + WidthFrom(characters, k + 1)
  }

  predicate Narrow(characters: seq<CharacterInfo>) {
    forall c | c in characters :: 0 <= c.width <= 2
  }

  lemma {:induction false} WidthFromIsTotal(wcwidth: WideChar -> int, chunks: seq<seq<Byte>>,
                                            characters: seq<CharacterInfo>, k: nat)
    requires AreChunks(chunks) && Describes(wcwidth, chunks, characters) && k <= |chunks|
    ensures WidthFrom(characters, k) == TotalWidth(wcwidth, chunks[k..])
    decreases |chunks| - k
  {
    if k == |chunks| {
      assert chunks[k..] == [];
    } else {
      WidthFromIsTotal(wcwidth, chunks, characters, k + 1);
      assert chunks[k..] == [chunks[k]] + chunks[k + 1..];
      TotalWidthAppend(wcwidth, [chunks[k]], chunks[k + 1..]);
      assert [chunks[k]][..0] == [];
    }
  }

  lemma AreNarrow(wcwidth: WideChar -> int, b: Builder)
    requires Built(wcwidth, b) && WidthsFrom(wcwidth, Lex(b.item).value, 0)
    ensures Narrow(b.itemUtf8.characters) && b.itemUtf8.totalWidth == WidthFrom(b.itemUtf8.characters, 0)
  {
    var chunks := Lex(b.item).value;
    WidthFromIsTotal(wcwidth, chunks, b.itemUtf8.characters, 0);
    assert chunks[0..] == chunks;
    forall c | c in b.itemUtf8.characters ensures 0 <= c.width <= 2 {
      var i :| 0 <= i < |chunks| && b.itemUtf8.characters[i] == c;
      assert chunks[i] in chunks;
    }
  }

  lemma {:induction false} WidthFromShrinks(characters: seq<CharacterInfo>, k: nat)
    requires Narrow(characters) && k <= |characters|
    ensures 0 <= WidthFrom(characters, k)
    ensures k > 0 ==> WidthFrom(characters, k) <= WidthFrom(characters, 0)
    decreases |characters| - k
  {
    if k < |characters| {
      WidthFromShrinks(characters, k + 1);
      assert characters[k] in characters;
    }
    if k > 0 {
      ShrinksFrom(characters, 0, k);
    }
  }

  lemma {:induction false} ShrinksFrom(characters: seq<CharacterInfo>, j: nat, k: nat)
    requires Narrow(characters) && j <= k <= |characters|
    ensures WidthFrom(characters, k) <= WidthFrom(characters, j)
    decreases k - j
  {
    if j < k {
      ShrinksFrom(characters, j + 1, k);
      assert characters[j] in characters;
    }
  }

  /** What the elision leaves is at most one column short of its limit. */
  lemma {:induction false} ElideWidth(characters: seq<CharacterInfo>, k: nat, limit: nat)
    requires Narrow(characters) && k <= |characters|
    requires WidthFrom(characters, k) <= limit < WidthFrom(characters, 0)
    ensures var r := Elide(characters, k, WidthFrom(characters, k), limit);
      && (r.None? <==> k == |characters| && characters[k - 1].width > limit)
      && (r.Some? ==> limit - 1 <= WidthFrom(characters, r.value) <= limit)
    decreases k
  {
    assert k > 0;
    assert characters[k - 1] in characters;
    assert WidthFrom(characters, k - 1) == characters[k - 1].width + WidthFrom(characters, k);
    if WidthFrom(characters, k - 1) <= limit {
      ElideWidth(characters, k - 1, limit);
    }
  }

  /** With no limit to speak of, the loop runs off the front of the list. */
  lemma {:induction false} ElideRunsOff(characters: seq<CharacterInfo>, k: nat, limit: nat)
    requires Narrow(characters) && k <= |characters| && WidthFrom(characters, 0) <= limit
    ensures Elide(characters, k, WidthFrom(characters, k), limit).None?
    decreases k
  {
    if k > 0 {
      WidthFromShrinks(characters, k - 1);
      assert WidthFrom(characters, k - 1) == characters[k - 1].width + WidthFrom(characters, k);
      ElideRunsOff(characters, k - 1, limit);
    }
  }

  /** Columns bound bytes when no character is without width. */
  lemma {:induction false} WidthsAdd(wcwidth: WideChar -> int, chunks: seq<seq<Byte>>, low: nat)
    requires AreChunks(chunks) && WidthsFrom(wcwidth, chunks, low) && low <= 1
    ensures TotalWidth(wcwidth, chunks) >= 0 && |Concat(chunks)| <= 4 * |chunks|
    ensures low == 1 ==> TotalWidth(wcwidth, chunks) >= |chunks|
  {
    if chunks != [] {
      var front, last := chunks[..|chunks| - 1], chunks[|chunks| - 1];
      WidthsAdd(wcwidth, front, low);
      assert chunks == front + [last] && last in chunks;
      ConcatAppend(front, [last]);
      assert [last][1..] == [] && Concat([last]) == last + Concat([]);
    }
  }

  lemma ElideExactly(characters: seq<CharacterInfo>, itemSpace: nat)
    requires Narrow(characters) && itemSpace < WidthFrom(characters, 0) < U64 - 3
    ensures var r := Elide(characters, |characters|, 0, Limit(itemSpace));
      && (r.Some? <==> itemSpace >= 3 && characters != [] && characters[|characters| - 1].width <= itemSpace - 3)
      && (r.Some? ==> itemSpace - 4 <= WidthFrom(characters, r.value) <= itemSpace - 3)
  {
    if itemSpace >= 3 {
      assert Limit(itemSpace) == itemSpace - 3;
      ElideWidth(characters, |characters|, itemSpace - 3);
    } else {
      assert Limit(itemSpace) == U64 + itemSpace - 3;
      ElideRunsOff(characters, |characters|, Limit(itemSpace));
    }
  }

  lemma IndexAt(wcwidth: WideChar -> int, b: Builder, j: nat)
    requires Built(wcwidth, b) && j < |b.itemUtf8.characters|
    ensures var chunks, index := Lex(b.item).value, b.itemUtf8.characters[j].index;
      && j < |chunks| && index <= |b.item| && b.item[index..] == Concat(chunks[j..])
      && Lex(b.item[index..]) == Some(chunks[j..])
  {
    FromIndex(b.item, j);
    LexParts(b.item[b.itemUtf8.characters[j].index..]);
  }

  /** When the item is cut, the loop stops on a character exactly if there is room for the last one. */
  lemma ElisionExactly(wcwidth: WideChar -> int, b: Builder, itemSpace: nat)
    requires Built(wcwidth, b) && WidthsFrom(wcwidth, Lex(b.item).value, 0)
    requires Elided(b, itemSpace) && b.itemUtf8.totalWidth < U64 - 3
    ensures var characters := b.itemUtf8.characters;
      ShownItem(b, itemSpace).Some?
      <==> itemSpace >= 3 && characters != [] && characters[|characters| - 1].width <= itemSpace - 3
  {
    AreNarrow(wcwidth, b);
    ElideExactly(b.itemUtf8.characters, itemSpace);
    ElidedIsShown(wcwidth, b, itemSpace);
  }

  lemma ElidedIsShown(wcwidth: WideChar -> int, b: Builder, itemSpace: nat)
    requires Built(wcwidth, b) && Elided(b, itemSpace)
    ensures ShownItem(b, itemSpace).Some? <==> ElideFrom(b, itemSpace).Some?
  {
    if ElideFrom(b, itemSpace).Some? {
      IndexAt(wcwidth, b, ElideFrom(b, itemSpace).value);
    }
  }

  /** `bytes` print as `n` columns. */
  predicate Shows(wcwidth: WideChar -> int, bytes: seq<Byte>, n: int) {
    Lex(bytes).Some? && AreChunks(Lex(bytes).value) && TotalWidth(wcwidth, Lex(bytes).value) == n
  }

  /** What is left of a cut item: whole characters, with about the width there is room for. */
  lemma Left(wcwidth: WideChar -> int, b: Builder, itemSpace: nat) returns (j: nat, width: int)
    requires Built(wcwidth, b) && WidthsFrom(wcwidth, Lex(b.item).value, 0)
    requires Elided(b, itemSpace) && b.itemUtf8.totalWidth < U64 - 3 && ShownItem(b, itemSpace).Some?
    ensures 0 <= width && itemSpace - 4 <= width <= itemSpace - 3 && j <= |Lex(b.item).value|
    ensures var rest := Concat(Lex(b.item).value[j..]);
      ShownItem(b, itemSpace) == Some(ELLIPSES + rest) && Shows(wcwidth, rest, width)
  {
    AreNarrow(wcwidth, b);
    ElideExactly(b.itemUtf8.characters, itemSpace);
    j := ElideFrom(b, itemSpace).value;
    IndexAt(wcwidth, b, j);
    width := WidthFrom(b.itemUtf8.characters, j);
    WidthFromShrinks(b.itemUtf8.characters, j);
    WidthFromIsTotal(wcwidth, Lex(b.item).value, b.itemUtf8.characters, j);
  }

  lemma ShowsAppend(wcwidth: WideChar -> int, a: seq<Byte>, m: int, b: seq<Byte>, n: int)
    requires Shows(wcwidth, a, m) && Shows(wcwidth, b, n)
    ensures Shows(wcwidth, a + b, m + n)
  {
    LexAppend(a, b);
    TotalWidthAppend(wcwidth, Lex(a).value, Lex(b).value);
  }

  predicate Printable(b: Byte) {
    0x20 <= b < 0x7F
  }

  ghost predicate AsciiIsOne(wcwidth: WideChar -> int) {
    forall b: Byte | Printable(b) :: wcwidth(Wide(b)) == 1
  }

  lemma {:induction false} ShowsAscii(wcwidth: WideChar -> int, bytes: seq<Byte>)
    requires AsciiIsOne(wcwidth) && forall b | b in bytes :: Printable(b)
    ensures Shows(wcwidth, bytes, |bytes|)
    decreases |bytes|
  {
    if bytes == [] {
    } else {
      var c := bytes[0];
      assert Printable(c);
      OneAscii(wcwidth, c);
      ShowsAscii(wcwidth, bytes[1..]);
      ShowsAppend(wcwidth, [c], 1, bytes[1..], |bytes| - 1);
      assert [c] + bytes[1..] == bytes;
    }
  }

  lemma OneAscii(wcwidth: WideChar -> int, c: Byte)
    requires AsciiIsOne(wcwidth) && Printable(c)
    ensures Shows(wcwidth, [c], 1)
  {
    assert LeadLength(c) == 1;
    assert Concat([[c]]) == [c];
    LexConcat([[c]]);
    assert [[c]][..0] == [];
  }

  /** The item takes its third of the screen, or one column less when a wide character did not fit. */
  lemma ShownWidth(wcwidth: WideChar -> int, b: Builder, itemSpace: nat) returns (n: nat)
    requires Built(wcwidth, b) && AsciiIsOne(wcwidth) && WidthsFrom(wcwidth, Lex(b.item).value, 0)
    requires ShownItem(b, itemSpace).Some? && b.itemUtf8.totalWidth < U64 - 3
    ensures Shows(wcwidth, ShownItem(b, itemSpace).value, n)
    ensures n == itemSpace || (n == itemSpace - 1 && Elided(b, itemSpace))
  {
    if Elided(b, itemSpace) {
      var j, width := Left(wcwidth, b, itemSpace);
      DotsShow(wcwidth);
      ShowsAppend(wcwidth, ELLIPSES, 3, Concat(Lex(b.item).value[j..]), width);
      n := 3 + width;
    } else {
      UncutShows(wcwidth, b, itemSpace);
      n := itemSpace;
    }
  }

  lemma DotsShow(wcwidth: WideChar -> int)
    requires AsciiIsOne(wcwidth)
    ensures Shows(wcwidth, ELLIPSES, 3)
  {
    ShowsAscii(wcwidth, ELLIPSES);
  }

  lemma UncutShows(wcwidth: WideChar -> int, b: Builder, itemSpace: nat)
    requires Built(wcwidth, b) && AsciiIsOne(wcwidth) && !Elided(b, itemSpace)
    ensures Shows(wcwidth, ShownItem(b, itemSpace).value, itemSpace)
  {
    var left := itemSpace - b.itemUtf8.totalWidth;
    ShowsAscii(wcwidth, Spaces(left));
    ShowsAppend(wcwidth, b.item, b.itemUtf8.totalWidth, Spaces(left), left);
  }

  lemma BarAndPercent(wcwidth: WideChar -> int, n: nat, filled: int, scaled: nat)
    requires AsciiIsOne(wcwidth) && scaled <= 1000
    ensures Shows(wcwidth, Bar(n, filled), n) && Shows(wcwidth, PercentText(scaled), 6)
    ensures Shows(wcwidth, [SPACE], 1) && Shows(wcwidth, [SPACE, OPEN], 2) && Shows(wcwidth, [CLOSE, SPACE], 2)
  {
    ShowsAscii(wcwidth, Bar(n, filled));
    forall d | d in DIGITS ensures Printable(d) {}
    ShowsAscii(wcwidth, PercentText(scaled));
    ShowsAscii(wcwidth, [SPACE]);
    ShowsAscii(wcwidth, [SPACE, OPEN]);
    ShowsAscii(wcwidth, [CLOSE, SPACE]);
  }

  /** The columns a line needs: all of them but the last, once there are enough. */
  function Needed(columns: int): int {
    ItemSpace(columns) + 12 + BarCols(columns)
  }

  /** The line is as wide as it should be, or one column less for a wide character. */
  lemma LineWidth(wcwidth: WideChar -> int, b: Builder, columns: int, progress: real) returns (n: nat)
    requires Built(wcwidth, b) && AsciiIsOne(wcwidth) && WidthsFrom(wcwidth, Lex(b.item).value, 0)
    requires ShownItem(b, ItemSpace(columns)).Some? && b.itemUtf8.totalWidth < U64 - 3 && 0.0 <= progress <= 1.0
    ensures Shows(wcwidth, Line(b, ShownItem(b, ItemSpace(columns)).value, columns, progress), n)
    ensures n == Needed(columns) || (n == Needed(columns) - 1 && Elided(b, ItemSpace(columns)))
  {
    var shown := ShownItem(b, ItemSpace(columns)).value;
    var k := ShownWidth(wcwidth, b, ItemSpace(columns));
    var bars, filled, scaled := BarCols(columns), FilledCols(columns, progress), Truncated(progress * 1000.0);
    BarAndPercent(wcwidth, bars, filled, scaled);
    var s1 := b.action + [SPACE];
    ShowsAppend(wcwidth, b.action, 1, [SPACE], 1);
    ShowsAppend(wcwidth, s1, 2, shown, k);
    ShowsAppend(wcwidth, s1 + shown, 2 + k, [SPACE, OPEN], 2);
    var s2 := s1 + shown + [SPACE, OPEN];
    ShowsAppend(wcwidth, s2, 4 + k, Bar(bars, filled), bars);
    ShowsAppend(wcwidth, s2 + Bar(bars, filled), 4 + k + bars, [CLOSE, SPACE], 2);
    var s3 := s2 + Bar(bars, filled) + [CLOSE, SPACE];
    ShowsAppend(wcwidth, s3, 6 + k + bars, PercentText(scaled), 6);
    n := 12 + k + bars;
  }

  /** The line, byte by byte: the action, a space, the item, " [", as many "=" as the progress fills and
      "-" for the rest, "] " and the percentage. */
  lemma LineReads(b: Builder, shown: seq<Byte>, columns: nat, progress: real)
    requires 0.0 <= progress <= 1.0
    ensures BarCols(columns) == if columns - columns / 3 > 12 then columns - columns / 3 - 12 else 0
    ensures var line, n, at := Line(b, shown, columns, progress), BarCols(columns), |b.action| + 1 + |shown|;
      && |line| == at + n + 10
      && line[..at] == b.action + [0x20] + shown && line[at..at + 2] == [0x20, 0x5B]
      && IsBar(line[at + 2..at + 2 + n], n, progress) && line[at + 2 + n..at + 4 + n] == [0x5D, 0x20]
      && line[at + 4 + n..] == PercentText((progress * 1000.0).Floor)
  {
    LineSlices(b, shown, columns, progress);
    BarReads(BarCols(columns), progress, FilledCols(columns, progress));
  }

  lemma LineSlices(b: Builder, shown: seq<Byte>, columns: nat, progress: real)
    requires 0.0 <= progress <= 1.0
    ensures var line, n, at := Line(b, shown, columns, progress), BarCols(columns), |b.action| + 1 + |shown|;
      && |line| == at + n + 10
      && line[..at] == b.action + [SPACE] + shown && line[at..at + 2] == [SPACE, OPEN]
      && line[at + 2..at + 2 + n] == Bar(n, FilledCols(columns, progress))
      && line[at + 2 + n..at + 4 + n] == [CLOSE, SPACE]
      && line[at + 4 + n..] == PercentText((progress * 1000.0).Floor)
  {
    var percent := PercentText(Truncated(progress * 1000.0));
    Slices(b.action + [SPACE] + shown, [SPACE, OPEN], Bar(BarCols(columns), FilledCols(columns, progress)),
           [CLOSE, SPACE], percent);
    assert |percent| == 6;
  }

  /** A bar of which this part is filled. */
  predicate IsBar(bar: seq<Byte>, n: nat, progress: real) {
    |bar| == n && forall i | 0 <= i < n :: bar[i] == if (i + 1) as real <= n as real * progress then 0x3D else 0x2D
  }

  lemma BarReads(n: nat, progress: real, filled: int)
    requires 0.0 <= progress && (n > 0 ==> filled == Portion(n, progress))
    ensures IsBar(Bar(n, filled), n, progress)
  {
    var x := n as real * progress;
    forall i | 0 <= i < n ensures Bar(n, filled)[i] == if (i + 1) as real <= x then 0x3D else 0x2D {
      FloorReaches(x, i);
    }
  }

  lemma Slices(a: seq<Byte>, b: seq<Byte>, c: seq<Byte>, d: seq<Byte>, e: seq<Byte>)
    ensures var s := a + b + c + d + e;
      && s[..|a|] == a && s[|a|..|a| + |b|] == b && s[|a| + |b|..|a| + |b| + |c|] == c
      && s[|a| + |b| + |c|..|a| + |b| + |c| + |d|] == d && s[|a| + |b| + |c| + |d|..] == e
  {}

  lemma FloorReaches(x: real, i: nat)
    ensures i < Truncated(x) <==> (i + 1) as real <= x
  {}

  /** The elision keeps as many of the last characters as fit. */
  lemma {:induction false} ElideIsLongest(characters: seq<CharacterInfo>, k: nat, limit: nat)
    requires k <= |characters| && WidthFrom(characters, k) <= limit
    ensures var r := Elide(characters, k, WidthFrom(characters, k), limit);
      r.Some? ==> r.value >= 1 && WidthFrom(characters, r.value) <= limit < WidthFrom(characters, r.value - 1)
    decreases k
  {
    if k > 0 && WidthFrom(characters, k - 1) <= limit {
      ElideIsLongest(characters, k - 1, limit);
    }
  }

  /** What is shown of an item that is cut: three dots, and its last characters, as many as fit beside
      them; of another one all, and spaces. */
  lemma ShownReads(b: Builder, itemSpace: nat)
    requires ShownItem(b, itemSpace).Some? && 3 <= itemSpace < U64
    ensures var shown, characters := ShownItem(b, itemSpace).value, b.itemUtf8.characters;
      if b.itemUtf8.totalWidth > itemSpace then
        exists j: nat ::
          && 1 <= j < |characters| && characters[j].index <= |b.item|
          && shown == [0x2E, 0x2E, 0x2E] + b.item[characters[j].index..]
          && WidthFrom(characters, j) <= itemSpace - 3 < WidthFrom(characters, j - 1)
      else
        |shown| == |b.item| + itemSpace - b.itemUtf8.totalWidth && shown[..|b.item|] == b.item
        && forall i | |b.item| <= i < |shown| :: shown[i] == 0x20
  {
    if Elided(b, itemSpace) {
      ElideIsLongest(b.itemUtf8.characters, |b.itemUtf8.characters|, itemSpace - 3);
      assert Limit(itemSpace) == itemSpace - 3;
    }
  }

  /** From 17 columns on the line needs exactly what there is, and on less it never fits unless cut. */
  lemma NeedsWhatThereIsExactly(columns: int)
    ensures Needed(columns) == columns <==> columns >= 17
    ensures Needed(columns) >= columns
  {}

  lemma OneChunk(chunks: seq<seq<Byte>>)
    requires AreChunks(chunks) && |chunks| == 1
    ensures 1 <= |Concat(chunks)| <= 4
  {
    assert chunks[0] in chunks && chunks[1..] == [];
    assert Concat(chunks) == chunks[0];
  }

  lemma ShownIsShort(wcwidth: WideChar -> int, b: Builder, itemSpace: nat)
    requires Built(wcwidth, b) && WidthsFrom(wcwidth, Lex(b.item).value, 1)
    requires ShownItem(b, itemSpace).Some? && b.itemUtf8.totalWidth < U64 - 3
    ensures |ShownItem(b, itemSpace).value| <= 4 * itemSpace
  {
    var chunks := Lex(b.item).value;
    LexParts(b.item);
    WidthsAdd(wcwidth, chunks, 1);
    if Elided(b, itemSpace) {
      var j, width := Left(wcwidth, b, itemSpace);
      LexConcat(chunks[j..]);
      WidthsAdd(wcwidth, chunks[j..], 1);
    }
  }

  /** On 17 columns or more it fits the screen with the last column left free, whatever the action's
      one column is made of; and it fits the buffer unless the action has very many bytes. */
  lemma LineFits(wcwidth: WideChar -> int, b: Builder, columns: int, progress: real) returns (n: nat)
    requires Built(wcwidth, b) && AsciiIsOne(wcwidth)
    requires WidthsFrom(wcwidth, Lex(b.item).value, 1) && b.itemUtf8.totalWidth < U64 - 3
    requires columns >= 17 && 0.0 <= progress <= 1.0
    ensures ShownItem(b, ItemSpace(columns)).Some? && columns - 1 <= n <= columns
    ensures Shows(wcwidth, Line(b, ShownItem(b, ItemSpace(columns)).value, columns, progress), n)
    ensures |b.action| <= 3 * (columns - ItemSpace(columns)) + 1 ==> Safe(b, columns)
  {
    WideIsShown(wcwidth, b, ItemSpace(columns));
    ShownIsShort(wcwidth, b, ItemSpace(columns));
    NeedsWhatThereIsExactly(columns);
    n := LineWidth(wcwidth, b, columns, progress);
  }

  lemma WideIsShown(wcwidth: WideChar -> int, b: Builder, itemSpace: nat)
    requires Built(wcwidth, b) && WidthsFrom(wcwidth, Lex(b.item).value, 0)
    requires itemSpace >= 5 && b.itemUtf8.totalWidth < U64 - 3
    ensures ShownItem(b, itemSpace).Some?
  {
    if Elided(b, itemSpace) {
      var characters := b.itemUtf8.characters;
      AreNarrow(wcwidth, b);
      assert characters != [] && characters[|characters| - 1] in characters;
      ElisionExactly(wcwidth, b, itemSpace);
    }
  }

  /** By how much the bytes exceed the columns of an item. */
  function Excess(b: Builder): int {
    |b.action| + |b.item| - b.itemUtf8.totalWidth
  }

  /** An item that is shown whole is safe exactly up to this excess: enough characters without width
      overrun the buffer on any screen. */
  lemma UncutIsSafeExactly(b: Builder, columns: int)
    requires !Elided(b, ItemSpace(columns))
    ensures Safe(b, columns) <==> Excess(b) <= UncutBound(columns)
  {}

  function UncutBound(columns: int): int {
    if columns >= 17 then 3 * columns + 1
    else if columns >= 4 then 4 * columns - ItemSpace(columns) - 11
    else 4 - ItemSpace(columns)
  }

  /** An item that is cut is safe exactly when it keeps no more bytes than this: it overruns the
      buffer just as well. */
  lemma CutIsSafeExactly(wcwidth: WideChar -> int, b: Builder, columns: int)
    requires Built(wcwidth, b) && Elided(b, ItemSpace(columns)) && ShownItem(b, ItemSpace(columns)).Some?
    ensures var kept := |b.item| - b.itemUtf8.characters[ElideFrom(b, ItemSpace(columns)).value].index;
      Safe(b, columns) <==> |b.action| + kept <= CutBound(columns)
  {
    IndexAt(wcwidth, b, ElideFrom(b, ItemSpace(columns)).value);
  }

  function CutBound(columns: int): int {
    if columns >= 17 then 3 * columns + ItemSpace(columns) - 2 else if columns >= 4 then 4 * columns - 14 else 1
  }

  /** With ordinary characters, of one column or two, the line is safe on every screen where the
      elision stops, except that on three or four columns their bytes can be too many. */
  lemma OrdinaryIsSafeExactly(wcwidth: WideChar -> int, b: Builder, columns: int)
    requires Built(wcwidth, b) && |Lex(b.action).value| == 1
    requires WidthsFrom(wcwidth, Lex(b.item).value, 1) && b.itemUtf8.totalWidth < U64 - 3
    ensures Safe(b, columns)
      <==> ShownItem(b, ItemSpace(columns)).Some? && (columns == 3 || columns == 4 ==> Excess(b) <= columns)
  {
    LexParts(b.action);
    OneChunk(Lex(b.action).value);
    if Elided(b, ItemSpace(columns)) {
      OrdinaryCut(wcwidth, b, columns);
    } else {
      LexParts(b.item);
      WidthsAdd(wcwidth, Lex(b.item).value, 1);
      UncutIsSafeExactly(b, columns);
    }
  }

  lemma OrdinaryCut(wcwidth: WideChar -> int, b: Builder, columns: int)
    requires Built(wcwidth, b) && 1 <= |b.action| <= 4 && Elided(b, ItemSpace(columns))
    requires WidthsFrom(wcwidth, Lex(b.item).value, 1) && b.itemUtf8.totalWidth < U64 - 3
    ensures Safe(b, columns) <==> ShownItem(b, ItemSpace(columns)).Some?
    ensures Safe(b, columns) ==> columns >= 9
  {
    ElisionExactly(wcwidth, b, ItemSpace(columns));
    if ShownItem(b, ItemSpace(columns)).Some? {
      var j, width := Left(wcwidth, b, ItemSpace(columns));
      LexConcat(Lex(b.item).value[j..]);
      WidthsAdd(wcwidth, Lex(b.item).value[j..], 1);
    }
  }

  /** As with a check mark and a euro sign, of one column each, on a terminal of five. */
  lemma NarrowScreenOverruns(wcwidth: WideChar -> int)
    requires forall c: WideChar :: wcwidth(c) == 1
    ensures var check, euro := [0xE2, 0x9C, 0x93], [0xE2, 0x82, 0xAC];
      var b := Builder(check, euro, WidthInformation([CharacterInfo(0, 1)], 1));
      Built(wcwidth, b) && !Elided(b, ItemSpace(5 - 1)) && !Safe(b, 5 - 1)
  {
    OneCharacter(wcwidth, [0xE2, 0x9C, 0x93]);
    OneCharacter(wcwidth, [0xE2, 0x82, 0xAC]);
  }

  lemma OneCharacter(wcwidth: WideChar -> int, s: seq<Byte>)
    requires IsChunk(s)
    ensures Lex(s) == Some([s]) && AreChunks([s])
    ensures Described(wcwidth, [s], [CharacterInfo(0, WidthAt(wcwidth, s))], WidthAt(wcwidth, s))
  {
    assert s + [] == s;
    LexOne(s, [], []);
    assert [s] + [] == [s] && [s][..0] == [];
  }

  // ----- the bar -------------------------------------------------------------------------------

  lemma FloorWithin(x: real, n: nat)
    requires 0.0 <= x <= n as real
    ensures 0 <= Truncated(x) <= n && (x == n as real ==> Truncated(x) == n)
  {}

  lemma FloorMonotone(x: real, y: real)
    requires 0.0 <= x <= y
    ensures Truncated(x) <= Truncated(y)
  {}

  lemma Scaled(r: real, p: real, q: real)
    requires 0.0 <= r && 0.0 <= p <= q
    ensures 0.0 <= r * p <= r * q
  {}

  lemma PortionWithin(n: nat, p: real)
    requires 0.0 <= p <= 1.0
    ensures 0 <= Portion(n, p) <= n && (p == 1.0 ==> Portion(n, p) == n)
  {
    var r := n as real;
    var x := r * p;
    Part(r, p);
    assert 0.0 <= x <= r;
    FloorWithin(x, n);
  }

  lemma Part(r: real, p: real)
    requires 0.0 <= r && 0.0 <= p <= 1.0
    ensures 0.0 <= r * p <= r && (p == 1.0 ==> r * p == r)
  {
    Scaled(r, p, 1.0);
    assert r * 1.0 == r;
  }

  lemma PortionMonotone(n: nat, p: real, q: real)
    requires 0.0 <= p <= q
    ensures Portion(n, p) <= Portion(n, q)
  {
    var r := n as real;
    Scaled(r, p, q);
    FloorMonotone(r * p, r * q);
  }

  lemma FilledWithin(columns: int, progress: real)
    requires RemainingCols(columns) >= 0 && 0.0 <= progress <= 1.0
    ensures 0 <= FilledCols(columns, progress) <= BarCols(columns)
    ensures progress == 1.0 ==> FilledCols(columns, progress) == BarCols(columns)
  {
    PortionWithin(RemainingCols(columns), progress);
  }

  /** More progress never shows less of the bar or a lower percentage. */
  lemma ProgressIsMonotone(columns: int, p: real, q: real)
    requires RemainingCols(columns) >= 0 && 0.0 <= p <= q <= 1.0
    ensures FilledCols(columns, p) <= FilledCols(columns, q)
    ensures Truncated(p * 1000.0) <= Truncated(q * 1000.0)
  {
    PortionMonotone(RemainingCols(columns), p, q);
    FloorMonotone(p * 1000.0, q * 1000.0);
  }
}
