/**
 The console: lines that stay at the bottom of the terminal while log messages scroll past above.

 What is written goes to a model of the terminal with rows of any number and length; ESC [ A moves
 up and ESC [ J clears to the end of the screen, as in ECMA-48, sections 8.3.22 and 8.3.39.
 */
module Console {
  import Strings

  datatype Token = Ch(c: char) | MoveUp | ClearToEos

  // ----- the terminal --------------------------------------------------------------------------

  datatype Terminal = Terminal(rows: seq<string>, row: nat, col: nat)

  predicate OnScreen(t: Terminal) {
    t.row < |t.rows|
  }

  function Pad(row: string, col: nat): string {
    if |row| < col then row + seq(col - |row|, _ => ' ') else row
  }

  function Put(row: string, col: nat, c: char): string {
    var r := Pad(row, col);
    if col < |r| then r[col := c] else r + [c]
  }

  function Feed(t: Terminal, token: Token): (r: Terminal)
    requires OnScreen(t)
    ensures OnScreen(r)
  {
    match token
    case MoveUp => if t.row == 0 then t else t.(row := t.row - 1)
    case ClearToEos => t.(rows := t.rows[..t.row] + [Pad(t.rows[t.row], t.col)[..t.col]])
    case Ch(c) =>
      if c == '\r' then t.(col := 0)
      else if c == '\n' then
        Terminal(if t.row + 1 == |t.rows| then t.rows + [""] else t.rows, t.row + 1, 0)
      else Terminal(t.rows[t.row := Put(t.rows[t.row], t.col, c)], t.row, t.col + 1)
  }

  function FeedAll(t: Terminal, tokens: seq<Token>): (r: Terminal)
    requires OnScreen(t)
    ensures OnScreen(r)
    decreases |tokens|
  {
    if tokens == [] then t else FeedAll(Feed(t, tokens[0]), tokens[1..])
  }

  lemma {:induction false} FeedAppend(t: Terminal, a: seq<Token>, b: seq<Token>)
    requires OnScreen(t)
    ensures FeedAll(t, a + b) == FeedAll(FeedAll(t, a), b)
    decreases |a|
  {
    if a == [] {
      assert a + b == b;
    } else {
      assert (a + b)[1..] == a[1..] + b;
      FeedAppend(Feed(t, a[0]), a[1..], b);
    }
  }

  /** The terminal with these rows and the cursor after the last character. */
  function Showing(rows: seq<string>): (t: Terminal)
    requires rows != []
    ensures OnScreen(t)
  {
    Terminal(rows, |rows| - 1, |rows[|rows| - 1]|)
  }

  function Chars(s: string): seq<Token> {
    if s == "" then [] else [Ch(s[0])] + Chars(s[1..])
  }

  lemma {:induction false} CharsAppend(a: string, b: string)
    ensures Chars(a + b) == Chars(a) + Chars(b)
  {
    if a == "" {
      assert a + b == b;
    } else {
      CharsAppend(a[1..], b);
      assert (a + b)[0] == a[0] && (a + b)[1..] == a[1..] + b;
      assert [Ch(a[0])] + (Chars(a[1..]) + Chars(b)) == [Ch(a[0])] + Chars(a[1..]) + Chars(b);
    }
  }

  /** The rows after text is written at the end of the last one. */
  function Written(rows: seq<string>, parts: seq<string>): (r: seq<string>)
    requires rows != [] && parts != []
    ensures r != []
  {
    rows[..|rows| - 1] + [rows[|rows| - 1] + parts[0]] + parts[1..]
  }

  lemma WrittenPush(rows: seq<string>, c: char, parts: seq<string>)
    requires rows != [] && parts != []
    ensures Written(rows, Strings.Push(c, parts)) == Written(Written(rows, [[c]]), parts)
    ensures Written(rows, [""] + parts) == Written(rows + [""], parts)
  {
    var n, last := |rows| - 1, rows[|rows| - 1];
    assert Written(rows, [[c]]) == rows[..n] + [last + [c]];
    assert last + ([c] + parts[0]) == last + [c] + parts[0];
    assert last + "" == last && "" + parts[0] == parts[0];
    assert [""] + parts == [""] + ([parts[0]] + parts[1..]);
  }

  lemma {:induction false} WritesText(rows: seq<string>, s: string)
    requires rows != [] && '\r' !in s
    ensures FeedAll(Showing(rows), Chars(s)) == Showing(Written(rows, Strings.Split(s, '\n')))
    decreases |s|
  {
    if s == "" {
      assert rows[|rows| - 1] + "" == rows[|rows| - 1];
      assert Written(rows, [""]) == rows;
    } else {
      var parts := Strings.Split(s[1..], '\n');
      assert Chars(s)[1..] == Chars(s[1..]);
      WrittenPush(rows, s[0], parts);
      if s[0] == '\n' {
        WritesText(rows + [""], s[1..]);
      } else {
        OneCharacter(rows, s[0]);
        WritesText(Written(rows, [[s[0]]]), s[1..]);
      }
    }
  }

  lemma OneCharacter(rows: seq<string>, c: char)
    requires rows != [] && c != '\n' && c != '\r'
    ensures Feed(Showing(rows), Ch(c)) == Showing(Written(rows, [[c]]))
  {
    var n, last := |rows| - 1, rows[|rows| - 1];
    assert Written(rows, [[c]]) == rows[..n] + [last + [c]];
    assert rows[n := last + [c]] == rows[..n] + [last + [c]];
  }

  // ----- what the console writes ---------------------------------------------------------------

  const U64: int := 0x1_0000_0000_0000_0000
  const LIMIT: nat := 0x8000_0000

  /** `size_t` arithmetic. */
  function Unsigned(n: int): nat {
    n % U64
  }

  /** How often erasing moves up: `lines.size() - diff` and that less one, both unsigned. */
  function Ups(size: nat, diff: int): nat {
    if Unsigned(size - diff) > 0 then Unsigned(Unsigned(size - diff) - 1) else 0
  }

  function Repeat(n: nat): seq<Token> {
    seq(n, _ => MoveUp)
  }

  function EraseTokens(size: nat, diff: int): seq<Token> {
    [Ch('\r')] + Repeat(Ups(size, diff)) + [ClearToEos]
  }

  function DrawTokens(contents: seq<string>): seq<Token> {
    Chars(Strings.Join(contents, "\n"))
  }

  datatype Level = Verbose | Info | Warning | Error | Errno

  function Prefix(level: Level): string {
    match level
    case Verbose => "[VERBOSE] "
    case Info => ""
    case Warning => "[WARNING] "
    case Error => "[ERROR] "
    case Errno => "[ERROR] "
  }

  /** What a message prints before its newline; `reason` is what `strerror` and `errno` give. */
  function LogText(level: Level, str: string, reason: string): string {
    Prefix(level) + str + (if level == Errno then ": " + reason else "")
  }

  datatype Op =
    | Claim
    | Destroy(i: nat)
    | Update(i: nat, text: string)
    | DrawAll
    | Log(level: Level, str: string, reason: string)

  /** `contents` are those of the lines claimed, `diff` counts lines added since the last draw. */
  datatype State = State(contents: seq<string>, diff: int, out: seq<Token>, verbose: bool)

  function Init(verbose: bool): State {
    State([], 0, [], verbose)
  }

  predicate Enabled(s: State, op: Op) {
    match op
    case Claim => |s.contents| + 1 < LIMIT
    case Destroy(i) => i < |s.contents|
    case Update(i, _) => i < |s.contents|
    case _ => true
  }

  predicate Hidden(s: State, op: Op) {
    op.Log? && op.level == Verbose && !s.verbose
  }

  function Message(op: Op): seq<Token> {
    if op.Log? then Chars(LogText(op.level, op.str, op.reason) + "\n") else []
  }

  /** Erase, say what there is to say, and draw again. */
  function Redraw(s: State, op: Op): State {
    s.(out := s.out + EraseTokens(|s.contents|, s.diff) + Message(op) + DrawTokens(s.contents), diff := 0)
  }

  function Apply(s: State, op: Op): State
    requires Enabled(s, op)
  {
    match op
    case Claim => s.(contents := s.contents + [""], diff := s.diff + 1)
    case Destroy(i) => s.(contents := s.contents[..i] + s.contents[i + 1..], diff := s.diff - 1)
    case Update(i, text) => s.(contents := s.contents[i := text])
    case DrawAll => Redraw(s, op)
    case Log(_, _, _) => if Hidden(s, op) then s else Redraw(s, op)
  }

  // ----- what it should show -------------------------------------------------------------------

  /** The log so far, and the block drawn last. */
  datatype View = View(history: seq<string>, shown: seq<string>)

  /** An empty block leaves the cursor on an empty row. */
  function Rows(v: View): (rows: seq<string>)
    ensures rows != []
  {
    v.history + if v.shown == [] then [""] else v.shown
  }

  function Expected(s: State, v: View, op: Op): View {
    if op.Log? && !Hidden(s, op) then
      View(v.history + Strings.Split(LogText(op.level, op.str, op.reason), '\n'), s.contents)
    else if op.DrawAll? then v.(shown := s.contents)
    else v
  }

  /** Texts do not return the carriage, and lines are single lines. */
  predicate Plain(op: Op) {
    match op
    case Update(_, text) => '\n' !in text && '\r' !in text
    case Log(_, str, reason) => '\r' !in str && '\r' !in reason
    case _ => true
  }

  predicate IsLine(text: string) {
    '\n' !in text && '\r' !in text
  }

  predicate AreLines(contents: seq<string>) {
    forall text | text in contents :: IsLine(text)
  }

  /** `lines.size() - diff` is the number of rows drawn last. */
  predicate Inv(s: State, v: View) {
    && |s.contents| - s.diff == |v.shown| && |v.shown| < LIMIT && |s.contents| < LIMIT
    && AreLines(s.contents)
    && FeedAll(Showing([""]), s.out) == Showing(Rows(v))
  }

  lemma {:induction false} MovesUp(t: Terminal, n: nat)
    requires OnScreen(t) && n <= t.row
    ensures FeedAll(t, Repeat(n)) == t.(row := t.row - n)
    decreases n
  {
    if n > 0 {
      assert Repeat(n)[1..] == Repeat(n - 1);
      MovesUp(Feed(t, MoveUp), n - 1);
    }
  }

  lemma FeedThree(t: Terminal, a: seq<Token>, b: seq<Token>, c: seq<Token>)
    requires OnScreen(t)
    ensures FeedAll(t, a + b + c) == FeedAll(FeedAll(FeedAll(t, a), b), c)
  {
    FeedAppend(t, a + b, c);
    FeedAppend(t, a, b);
  }

  /** Erasing takes away as many rows as `lines.size() - diff` says, and at least one. */
  lemma EraseTakes(rows: seq<string>, size: nat, diff: int)
    requires rows != [] && 0 <= size - diff <= |rows| && size - diff < LIMIT
    ensures FeedAll(Showing(rows), EraseTokens(size, diff)) == Showing(rows[..|rows| - 1 - Ups(size, diff)] + [""])
    ensures Ups(size, diff) == if size == diff then 0 else size - diff - 1
  {
    var n := Ups(size, diff);
    var t := Showing(rows).(col := 0);
    FeedThree(Showing(rows), [Ch('\r')], Repeat(n), [ClearToEos]);
    One(Showing(rows), Ch('\r'));
    MovesUp(t, n);
    One(t.(row := t.row - n), ClearToEos);
  }

  /** Erasing takes away the block and nothing else, whichever sign `diff` has. */
  lemma EraseKeepsHistory(v: View, size: nat, diff: int)
    requires size - diff == |v.shown| && |v.shown| < LIMIT
    ensures FeedAll(Showing(Rows(v)), EraseTokens(size, diff)) == Showing(v.history + [""])
  {
    EraseTakes(Rows(v), size, diff);
    assert Rows(v)[..|v.history|] == v.history;
  }

  lemma One(t: Terminal, token: Token)
    requires OnScreen(t)
    ensures FeedAll(t, [token]) == Feed(t, token)
  {
    assert [token][1..] == [];
    assert FeedAll(Feed(t, token), []) == Feed(t, token);
  }

  lemma {:induction false} JoinHasNoReturn(contents: seq<string>)
    requires forall text | text in contents :: '\r' !in text
    ensures '\r' !in Strings.Join(contents, "\n")
  {
    if contents != [] {
      JoinHasNoReturn(contents[1..]);
      assert contents[0] in contents;
    }
  }

  lemma WrittenBelow(history: seq<string>, parts: seq<string>)
    requires parts != []
    ensures Written(history + [""], parts) == history + parts
  {
    var rows := history + [""];
    assert rows[..|rows| - 1] == history && rows[|rows| - 1] == "";
    assert "" + parts[0] == parts[0];
    assert parts == [parts[0]] + parts[1..];
  }

  /** Rows drawn for `contents` when the screen's last row is empty. */
  lemma DrawsBlock(history: seq<string>, contents: seq<string>)
    requires forall text | text in contents :: '\r' !in text
    ensures FeedAll(Showing(history + [""]), DrawTokens(contents)) == Showing(history + Block(contents))
  {
    JoinHasNoReturn(contents);
    WritesText(history + [""], Strings.Join(contents, "\n"));
    WrittenBelow(history, Block(contents));
  }

  function Block(contents: seq<string>): (rows: seq<string>)
    ensures rows != []
  {
    Strings.Split(Strings.Join(contents, "\n"), '\n')
  }

  lemma DrawShows(history: seq<string>, contents: seq<string>)
    requires AreLines(contents)
    ensures FeedAll(Showing(history + [""]), DrawTokens(contents)) == Showing(Rows(View(history, contents)))
  {
    assert forall text | text in contents :: IsLine(text);
    DrawsBlock(history, contents);
    if contents != [] {
      Strings.SplitJoin(contents, '\n');
    }
  }

  lemma LogShows(history: seq<string>, text: string)
    requires '\r' !in text
    ensures FeedAll(Showing(history + [""]), Chars(text + "\n")) == Showing(history + Strings.Split(text, '\n') + [""])
  {
    var parts := Strings.Split(text, '\n');
    Strings.SplitAppend(text, '\n', "");
    assert text + ['\n'] + "" == text + "\n";
    WritesText(history + [""], text + "\n");
    WrittenBelow(history, parts + [""]);
    assert history + (parts + [""]) == history + parts + [""];
  }

  /** Erasing, printing a message, if any, and drawing: the log grows above the block. */
  lemma RedrawShows(s: State, v: View, message: seq<Token>, added: seq<string>)
    requires Inv(s, v)
    requires FeedAll(Showing(v.history + [""]), message) == Showing(v.history + added + [""])
    ensures var drawn := EraseTokens(|s.contents|, s.diff) + message + DrawTokens(s.contents);
      FeedAll(Showing([""]), s.out + drawn) == Showing(Rows(View(v.history + added, s.contents)))
  {
    var erase, draw := EraseTokens(|s.contents|, s.diff), DrawTokens(s.contents);
    FeedAppend(Showing([""]), s.out, erase + message + draw);
    FeedThree(Showing(Rows(v)), erase, message, draw);
    EraseKeepsHistory(v, |s.contents|, s.diff);
    DrawShows(v.history + added, s.contents);
  }

  lemma RedrawInv(s: State, v: View, op: Op, added: seq<string>)
    requires Inv(s, v) && FeedAll(Showing(v.history + [""]), Message(op)) == Showing(v.history + added + [""])
    ensures Inv(Redraw(s, op), View(v.history + added, s.contents))
  {
    RedrawShows(s, v, Message(op), added);
    var erase, message, draw := EraseTokens(|s.contents|, s.diff), Message(op), DrawTokens(s.contents);
    assert s.out + erase + message + draw == s.out + (erase + message + draw);
  }

  lemma StepShows(s: State, v: View, op: Op)
    requires Inv(s, v) && Enabled(s, op) && Plain(op)
    ensures Inv(Apply(s, op), Expected(s, v, op))
  {
    match op
    case Claim => assert IsLine("");
    case Destroy(i) =>
    case Update(i, text) =>
    case DrawAll =>
      assert v.history + [] == v.history;
      RedrawInv(s, v, op, []);
    case Log(level, str, reason) =>
      if !Hidden(s, op) {
        LogShows(v.history, LogText(level, str, reason));
        RedrawInv(s, v, op, Strings.Split(LogText(level, str, reason), '\n'));
      }
  }

  /** What a message of one line leaves on the screen: itself, with the prefix of its level, below the
      log so far and above the lines; and nothing for a verbose one unless that is enabled. */
  lemma MessageIsShown(s: State, v: View, level: Level, str: string, reason: string)
    requires Inv(s, v) && IsLine(str) && IsLine(reason)
    ensures var t := Apply(s, Log(level, str, reason));
      if level == Verbose && !s.verbose then t == s
      else
        var text := match level
          case Verbose => "[VERBOSE] " + str
          case Info => str
          case Warning => "[WARNING] " + str
          case Error => "[ERROR] " + str
          case Errno => "[ERROR] " + str + ": " + reason;
        && t.contents == s.contents
        && FeedAll(Showing([""]), t.out) == Showing(v.history + [text] + if s.contents == [] then [""] else s.contents)
  {
    var op := Log(level, str, reason);
    StepShows(s, v, op);
    LogTextReads(level, str, reason);
    if !(level == Verbose && !s.verbose) {
      LineIsAdded(s, v, op);
    }
  }

  lemma LogTextReads(level: Level, str: string, reason: string)
    requires IsLine(str) && IsLine(reason)
    ensures LogText(level, str, reason) == match level
      case Verbose => "[VERBOSE] " + str
      case Info => str
      case Warning => "[WARNING] " + str
      case Error => "[ERROR] " + str
      case Errno => "[ERROR] " + str + ": " + reason
    ensures IsLine(LogText(level, str, reason))
  {
    assert "" + str + "" == str;
    assert Prefix(level) + str + "" == Prefix(level) + str;
    assert Prefix(level) + str + (": " + reason) == Prefix(level) + str + ": " + reason;
  }

  lemma LineIsAdded(s: State, v: View, op: Op)
    requires Inv(s, v) && op.Log? && !Hidden(s, op) && IsLine(LogText(op.level, op.str, op.reason))
    ensures Rows(Expected(s, v, op))
      == v.history + [LogText(op.level, op.str, op.reason)] + if s.contents == [] then [""] else s.contents
  {
    Strings.SplitFirst(LogText(op.level, op.str, op.reason), '\n', "");
  }

  // ----- runs ----------------------------------------------------------------------------------

  predicate CanRun(s: State, ops: seq<Op>)
    decreases |ops|
  {
    ops == [] || (Enabled(s, ops[0]) && CanRun(Apply(s, ops[0]), ops[1..]))
  }

  function Run(s: State, ops: seq<Op>): State
    requires CanRun(s, ops)
    decreases |ops|
  {
    if ops == [] then s else Run(Apply(s, ops[0]), ops[1..])
  }

  function RunExpected(s: State, v: View, ops: seq<Op>): View
    requires CanRun(s, ops)
    decreases |ops|
  {
    if ops == [] then v else RunExpected(Apply(s, ops[0]), Expected(s, v, ops[0]), ops[1..])
  }

  lemma {:induction false} RunInv(s: State, v: View, ops: seq<Op>)
    requires Inv(s, v) && CanRun(s, ops) && forall op | op in ops :: Plain(op)
    ensures Inv(Run(s, ops), RunExpected(s, v, ops))
    decreases |ops|
  {
    if ops != [] {
      StepShows(s, v, ops[0]);
      RunInv(Apply(s, ops[0]), Expected(s, v, ops[0]), ops[1..]);
    }
  }

  /** After any run of claims, releases, updates, draws and messages the screen is the whole log,
      followed by the block last drawn: nothing of the log is ever erased. */
  lemma LogIsNeverErased(verbose: bool, ops: seq<Op>)
    requires CanRun(Init(verbose), ops) && forall op | op in ops :: Plain(op)
    ensures FeedAll(Showing([""]), Run(Init(verbose), ops).out)
      == Showing(Rows(RunExpected(Init(verbose), View([], []), ops)))
    ensures |Run(Init(verbose), ops).contents| - Run(Init(verbose), ops).diff
      == |RunExpected(Init(verbose), View([], []), ops).shown|
  {
    assert [] + [""] == [""];
    RunInv(Init(verbose), View([], []), ops);
  }

  lemma {:induction false} HistoryGrows(s: State, v: View, ops: seq<Op>)
    requires CanRun(s, ops)
    ensures v.history <= RunExpected(s, v, ops).history
    decreases |ops|
  {
    if ops != [] {
      HistoryGrows(Apply(s, ops[0]), Expected(s, v, ops[0]), ops[1..]);
    }
  }

  // ----- why the lines must be single lines ----------------------------------------------------

  lemma {:induction false} OnePart(s: string)
    ensures |Strings.Split(s, '\n')| == 1 <==> '\n' !in s
  {
    if s != "" {
      OnePart(s[1..]);
    }
  }

  lemma {:induction false} RowsDrawn(contents: seq<string>)
    requires contents != []
    ensures var n := |Strings.Split(Strings.Join(contents, "\n"), '\n')|;
      n >= |contents| && (n == |contents| <==> Strings.Without(contents, '\n'))
  {
    OnePart(contents[0]);
    assert contents == [contents[0]] + contents[1..];
    if |contents| > 1 {
      RowsDrawn(contents[1..]);
      Strings.SplitAppend(contents[0], '\n', Strings.Join(contents[1..], "\n"));
    }
  }

  lemma RedrawGives(rows: seq<string>, contents: seq<string>)
    requires contents != [] && |contents| < LIMIT && forall text | text in contents :: '\r' !in text
    requires |contents| <= |rows|
    ensures FeedAll(Showing(rows), EraseTokens(|contents|, 0) + DrawTokens(contents))
      == Showing(rows[..|rows| - |contents|] + Block(contents))
  {
    FeedAppend(Showing(rows), EraseTokens(|contents|, 0), DrawTokens(contents));
    EraseTakes(rows, |contents|, 0);
    DrawsBlock(rows[..|rows| - |contents|], contents);
  }

  /** Drawing the same lines again changes nothing, exactly when no line holds a newline: otherwise
      rows of the old block are left above, as if they were log output. */
  lemma RedrawIsStableExactly(history: seq<string>, contents: seq<string>)
    requires contents != [] && |contents| < LIMIT && forall text | text in contents :: '\r' !in text
    ensures var drawn := FeedAll(Showing(history + [""]), DrawTokens(contents));
      FeedAll(drawn, EraseTokens(|contents|, 0) + DrawTokens(contents)) == drawn
      <==> Strings.Without(contents, '\n')
  {
    var rows := history + Block(contents);
    DrawsBlock(history, contents);
    RowsDrawn(contents);
    RedrawGives(rows, contents);
    var left := rows[..|rows| - |contents|];
    if |Block(contents)| == |contents| {
      assert left == history;
    } else {
      assert |left + Block(contents)| > |rows|;
    }
  }

  // ----- the console as an object --------------------------------------------------------------

  class ConsoleLine {
    var content: string

    constructor ()
      ensures content == ""
    {
      content := "";
    }

    method Update(line: string)
      modifies this
      ensures content == line
    {
      content := line;
    }
  }

  lemma DrawOneMore(contents: seq<string>, last: string)
    ensures DrawTokens(contents + [last])
      == if contents == [] then Chars(last) else DrawTokens(contents) + [Ch('\n')] + Chars(last)
    ensures contents == [] ==> DrawTokens(contents) == []
  {
    if contents != [] {
      var joined := Strings.Join(contents, "\n");
      Strings.JoinSnoc(contents, last, "\n");
      CharsAppend(joined + "\n", last);
      CharsAppend(joined, "\n");
      assert Chars("\n") == [Ch('\n')];
    }
  }

  /** What is out after one more line. */
  lemma NextDrawn(out: seq<Token>, contents: seq<string>, n: nat)
    requires n < |contents|
    ensures out + DrawTokens(contents[..n + 1])
      == if n == 0 then out + Chars(contents[0]) else out + DrawTokens(contents[..n]) + [Ch('\n')] + Chars(contents[n])
    ensures out + DrawTokens(contents[..0]) == out
  {
    DrawOneMore(contents[..n], contents[n]);
    assert contents[..n + 1] == contents[..n] + [contents[n]];
    Regroup(out, DrawTokens(contents[..n]), [Ch('\n')], Chars(contents[n]));
    assert contents[..0] == [] && DrawTokens([]) == [];
  }

  lemma Regroup(a: seq<Token>, b: seq<Token>, c: seq<Token>, d: seq<Token>)
    ensures a + (b + c + d) == a + b + c + d
  {}

  class Screen {
    var lines: seq<ConsoleLine>
    var diff: int
    var out: seq<Token>
    var verbose: bool

    /** No line is in the list twice. */
    ghost predicate Valid()
      reads this
    {
      |lines| < LIMIT && forall i, j | 0 <= i < j < |lines| :: lines[i] != lines[j]
    }

    ghost function Contents(): (contents: seq<string>)
      reads this, lines
    {
      seq(|lines|, i requires 0 <= i < |lines| reads this, lines => lines[i].content)
    }

    ghost function Abstract(): State
      reads this, lines
    {
      State(Contents(), diff, out, verbose)
    }

    constructor (verboseLogging: bool)
      ensures Valid() && Abstract() == Init(verboseLogging)
    {
      lines, diff, out, verbose := [], 0, [], verboseLogging;
    }

    method Claim() returns (line: ConsoleLine)
      requires Valid() && Enabled(Abstract(), Op.Claim)
      modifies this
      ensures Valid() && fresh(line) && lines == old(lines) + [line]
      ensures Abstract() == Apply(old(Abstract()), Op.Claim)
    {
      line := new ConsoleLine();
      lines := lines + [line];
      diff := diff + 1;
      assert Contents() == old(Contents()) + [""];
    }

    /** The destructor of a line. */
    method Destroy(line: ConsoleLine) returns (ghost i: nat)
      requires Valid() && line in lines
      modifies this
      ensures i < |old(lines)| && old(lines)[i] == line && Valid() && line !in lines
      ensures Abstract() == Apply(old(Abstract()), Op.Destroy(i))
    {
      var it :| 0 <= it < |lines| && lines[it] == line;
      i := it;
      lines := lines[..it] + lines[it + 1..];
      diff := diff - 1;
      assert Contents() == old(Contents())[..i] + old(Contents())[i + 1..];
    }

    method InternalUnsafeEraseOldLines()
      requires 0 <= |lines| - diff < LIMIT
      modifies this`out
      ensures out == old(out) + EraseTokens(|lines|, diff)
    {
      out := out + [Ch('\r')];
      if Unsigned(|lines| - diff) > 0 {
        var i := 0;
        while i < Unsigned(Unsigned(|lines| - diff) - 1)
          invariant 0 <= i <= Ups(|lines|, diff)
          invariant out == old(out) + ([Ch('\r')] + Repeat(i))
        {
          out := out + [MoveUp];
          i := i + 1;
          assert Repeat(i) == Repeat(i - 1) + [MoveUp];
        }
      }
      out := out + [ClearToEos];
    }

    method InternalUnsafeDrawAll()
      modifies this`out, this`diff
      ensures out == old(out) + DrawTokens(Contents()) && diff == 0
    {
      var first := true;
      ghost var contents := Contents();
      for n := 0 to |lines|
        invariant lines == old(lines) && Contents() == contents && diff == old(diff)
        invariant first <==> n == 0
        invariant out == old(out) + DrawTokens(contents[..n])
      {
        NextDrawn(old(out), contents, n);
        if !first {
          out := out + [Ch('\n')];
        } else {
          first := false;
        }
        out := out + Chars(lines[n].content);
      }
      assert contents[..|lines|] == contents;
      diff := 0;
      assert Contents() == contents;
    }

    method DrawAll()
      requires Valid() && 0 <= |lines| - diff < LIMIT
      modifies this`out, this`diff
      ensures Valid() && Abstract() == Apply(old(Abstract()), Op.DrawAll)
    {
      InternalUnsafeEraseOldLines();
      InternalUnsafeDrawAll();
      assert Contents() == old(Contents());
    }

    method LogGenericString(level: Level, str: string, reason: string)
      requires Valid() && 0 <= |lines| - diff < LIMIT
      modifies this`out, this`diff
      ensures Valid() && Abstract() == Apply(old(Abstract()), Op.Log(level, str, reason))
    {
      if level == Verbose && !verbose {
        return;
      }
      InternalUnsafeEraseOldLines();
      out := out + Chars(LogText(level, str, reason) + "\n");
      InternalUnsafeDrawAll();
      assert Contents() == old(Contents());
    }
  }
}
