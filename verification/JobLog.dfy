/**
 Pull jobs and their log files: what is in memory against what a later `Job::Load` reads back.
 */
module JobLog {
  import Path
  import opened Guarded
  import Strings
  import opened Wrappers

  const PATH_PREFIX := "Path "
  const COMPLETED_PREFIX := "Completed "

  /** What a log says, line by line; also what a `Job` keeps in memory besides its id. */
  datatype Parsed = Parsed(path: string, completed: set<string>)

  const NOTHING := Parsed("", {})

  /** The lines `std::getline` yields: text after the last newline counts if there is any. */
  function Lines(log: string): seq<string> {
    DropEmptyLast(Strings.Split(log, '\n'))
  }

  function DropEmptyLast(parts: seq<string>): seq<string>
    requires parts != []
  {
    if parts[|parts| - 1] == "" then parts[..|parts| - 1] else parts
  }

  function ParseLine(acc: Parsed, line: string): Parsed {
    if "#" <= line then acc
    else if PATH_PREFIX <= line then acc.(path := line[|PATH_PREFIX|..])
    else if COMPLETED_PREFIX <= line then acc.(completed := acc.completed + {line[|COMPLETED_PREFIX|..]})
    else acc
  }

  function ParseLines(acc: Parsed, lines: seq<string>): Parsed
    decreases |lines|
  {
    if lines == [] then acc else ParseLine(ParseLines(acc, lines[..|lines| - 1]), lines[|lines| - 1])
  }

  function Parse(log: string): Parsed {
    ParseLines(NOTHING, Lines(log))
  }

  /** Nothing for a log whose path is not resolved, as when it has none. */
  function LoadLog(log: string): Option<Parsed> {
    var p := Parse(log);
    if Path.IsResolved(p.path) then Some(p) else None
  }

  method LoadLines(log: string) returns (r: Option<Parsed>)
    ensures r == LoadLog(log)
  {
    var lines := Lines(log);
    var pathStr, completed := "", {};
    var i := 0;
    while i < |lines|
      invariant 0 <= i <= |lines|
      invariant Parsed(pathStr, completed) == ParseLines(NOTHING, lines[..i])
    {
      var line := lines[i];
      assert lines[..i + 1][..i] == lines[..i];
      i := i + 1;
      if "#" <= line {
        continue;
      } else if PATH_PREFIX <= line {
        pathStr := line[|PATH_PREFIX|..];
      } else if COMPLETED_PREFIX <= line {
        completed := completed + {line[|COMPLETED_PREFIX|..]};
      }
    }
    assert lines[..i] == lines;
    var resolved := Path.CheckResolved(pathStr);
    return if resolved then Some(Parsed(pathStr, completed)) else None;
  }

  /** A log is refused exactly if the path it gives is not "/" and has an empty, "." or ".." component
      behind at most one slash at the front; otherwise it is what its lines say. */
  lemma LoadsExactly(log: string)
    ensures var path := Parse(log).path;
      var parts := Strings.Split(if path != "" && path[0] == '/' then path[1..] else path, '/');
      LoadLog(log) == if path != "/" && ("" in parts || "." in parts || ".." in parts) then None else Some(Parse(log))
  {
    Path.ResolvedExactly(Parse(log).path);
  }

  function FirstLine(created: string): string {
    "# Job created at " + created + " for:"
  }

  function Header(created: string, path: string): string {
    FirstLine(created) + "\n" + (PATH_PREFIX + path) + "\n"
  }

  function CompletedLine(path: string): string {
    COMPLETED_PREFIX + path + "\n"
  }

  predicate Terminated(log: string) {
    log == "" || log[|log| - 1] == '\n'
  }

  // ----- reading back what was written ---------------------------------------------------------

  lemma LinesAppend(a: string, line: string)
    requires Terminated(a) && '\n' !in line
    ensures Lines(a + line + "\n") == Lines(a) + [line]
    ensures line != "" ==> Lines(a + line) == Lines(a) + [line]
  {
    PartsAppend(a, line);
    LinesOfWhole(a + line);
    assert a + line + "\n" == a + line + ['\n'];
  }

  lemma PartsAppend(a: string, line: string)
    requires Terminated(a) && '\n' !in line
    ensures Strings.Split(a + line, '\n') == Lines(a) + [line]
  {
    if a == "" {
      Strings.SplitFirst(line, '\n', "");
      assert a + line == line;
    } else {
      PartsAfter(a[..|a| - 1], line);
      assert a == a[..|a| - 1] + ['\n'];
    }
  }

  lemma PartsAfter(b: string, line: string)
    requires '\n' !in line
    ensures Strings.Split(b + ['\n'] + line, '\n') == Lines(b + ['\n']) + [line]
  {
    Strings.SplitFirst(line, '\n', "");
    Strings.SplitAppend(b, '\n', line);
    Strings.SplitAppend(b, '\n', "");
    assert b + ['\n'] + "" == b + ['\n'];
  }

  lemma ParseLinesSnoc(acc: Parsed, lines: seq<string>, line: string)
    ensures ParseLines(acc, lines + [line]) == ParseLine(ParseLines(acc, lines), line)
  {
    assert (lines + [line])[..|lines|] == lines;
  }

  /** A line added to complete lines is read as that line, with or without its newline. */
  lemma ParseAppend(a: string, line: string)
    requires Terminated(a) && '\n' !in line
    ensures Parse(a + line + "\n") == ParseLine(Parse(a), line)
    ensures line != "" ==> Parse(a + line) == ParseLine(Parse(a), line)
  {
    LinesAppend(a, line);
    ParseLinesSnoc(NOTHING, Lines(a), line);
  }

  lemma {:induction false} ParsedHasNoNewline(acc: Parsed, lines: seq<string>)
    requires '\n' !in acc.path && Strings.Without(lines, '\n')
    requires forall p | p in acc.completed :: '\n' !in p
    ensures '\n' !in ParseLines(acc, lines).path
    ensures forall p | p in ParseLines(acc, lines).completed :: '\n' !in p
    decreases |lines|
  {
    if lines != [] {
      ParsedHasNoNewline(acc, lines[..|lines| - 1]);
      assert lines[|lines| - 1] in lines;
    }
  }

  lemma LogsHaveNoNewline(log: string)
    ensures '\n' !in Parse(log).path
    ensures forall p | p in Parse(log).completed :: '\n' !in p
  {
    Strings.SplitParts(log, '\n');
    ParsedHasNoNewline(NOTHING, Lines(log));
  }

  lemma ParsePathLine(acc: Parsed, path: string)
    ensures ParseLine(acc, PATH_PREFIX + path) == acc.(path := path)
  {
    var line := PATH_PREFIX + path;
    assert line[0] == 'P';
    assert line[|PATH_PREFIX|..] == path;
  }

  lemma ParseCompletedLine(acc: Parsed, path: string)
    ensures ParseLine(acc, COMPLETED_PREFIX + path) == acc.(completed := acc.completed + {path})
  {
    var line := COMPLETED_PREFIX + path;
    assert line[0] == 'C';
    assert line[|COMPLETED_PREFIX|..] == path;
  }

  lemma TwoLines(first: string, second: string)
    requires '\n' !in first && '\n' !in second
    ensures Parse(first + "\n" + second + "\n") == ParseLine(ParseLine(NOTHING, first), second)
  {
    ParseAppend("", first);
    assert "" + first == first;
    assert Parse("") == NOTHING;
    ParseAppend(first + "\n", second);
  }

  lemma NewReadsBack(created: string, path: string)
    requires '\n' !in created && '\n' !in path
    ensures Parse(Header(created, path)) == Parsed(path, {})
  {
    TwoLines(FirstLine(created), PATH_PREFIX + path);
    assert FirstLine(created)[0] == '#';
    ParsePathLine(NOTHING, path);
  }

  /** A new job's log reads back as its path with nothing completed, exactly when the path is one line. */
  lemma NewReadsBackExactly(created: string, path: string)
    requires '\n' !in created
    ensures Parse(Header(created, path)) == Parsed(path, {}) <==> '\n' !in path
  {
    LogsHaveNoNewline(Header(created, path));
    if '\n' !in path {
      NewReadsBack(created, path);
    }
  }

  lemma CompletionReadsBack(log: string, path: string)
    requires Terminated(log) && '\n' !in path
    ensures Parse(log + CompletedLine(path)) == Parse(log).(completed := Parse(log).completed + {path})
  {
    ParseAppend(log, COMPLETED_PREFIX + path);
    ParseCompletedLine(Parse(log), path);
    assert log + (COMPLETED_PREFIX + path) + "\n" == log + CompletedLine(path);
  }

  /** A file whose name holds a newline can complete any other one, in the eyes of the next session. */
  lemma NewlineCompletesAnotherPath(log: string, a: string, b: string)
    requires '\n' !in b
    ensures b in Parse(log + CompletedLine(a + "\n" + COMPLETED_PREFIX + b)).completed
  {
    var first, second := CompletedLine(a), CompletedLine(b);
    CompletionReadsBack(log + first, b);
    TwoInOne(COMPLETED_PREFIX, a, "\n", b);
    Regroup(log, first, second);
  }

  lemma TwoInOne(prefix: string, a: string, end: string, b: string)
    ensures (prefix + a + end) + (prefix + b + end) == prefix + (a + end + prefix + b) + end
  {}

  lemma Regroup(a: string, b: string, c: string)
    ensures a + b + c == a + (b + c)
  {}

  // ----- logs whose last line is torn ----------------------------------------------------------

  /** The complete lines of a log. */
  function Whole(log: string): string {
    if Terminated(log) then log else Whole(log[..|log| - 1])
  }

  lemma {:induction false} WholeIsPrefix(log: string)
    ensures Whole(log) <= log && Terminated(Whole(log)) && '\n' !in log[|Whole(log)|..]
    ensures |Whole(log)| == |log| <==> Terminated(log)
  {
    if !Terminated(log) {
      var n := |log| - 1;
      WholeIsPrefix(log[..n]);
      assert log[|Whole(log)|..] == log[..n][|Whole(log)|..] + [log[n]];
    }
  }

  /** And what is left of a line that was not written to its end; nothing in a complete log. */
  function Rest(log: string): (rest: string)
    ensures log == Whole(log) + rest && Terminated(Whole(log)) && '\n' !in rest
    ensures rest == "" <==> Terminated(log)
  {
    WholeIsPrefix(log);
    log[|Whole(log)|..]
  }

  /** A prefix whose later characters are not the first of `u` is not completed by `u`. */
  lemma PrefixInside(prefix: string, t: string, u: string)
    requires t != "" && u != "" && forall i | 1 <= i < |prefix| :: prefix[i] != u[0]
    ensures prefix <= t + u <==> prefix <= t
  {
    if |t| < |prefix| {
      assert (t + u)[|t|] == u[0];
    } else {
      assert (t + u)[..|prefix|] == t[..|prefix|];
    }
  }

  /** A completion written behind a torn line becomes the end of that line. */
  lemma TornLine(acc: Parsed, torn: string, path: string)
    requires torn != ""
    ensures ParseLine(acc, torn + (COMPLETED_PREFIX + path))
      == if "#" <= torn then acc
         else if PATH_PREFIX <= torn then acc.(path := torn[|PATH_PREFIX|..] + (COMPLETED_PREFIX + path))
         else if COMPLETED_PREFIX <= torn then
           acc.(completed := acc.completed + {torn[|COMPLETED_PREFIX|..] + (COMPLETED_PREFIX + path)})
         else acc
  {
    var u := COMPLETED_PREFIX + path;
    assert u[0] == 'C';
    PrefixInside("#", torn, u);
    PrefixInside(PATH_PREFIX, torn, u);
    PrefixInside(COMPLETED_PREFIX, torn, u);
    AfterPrefix(PATH_PREFIX, torn, u);
    AfterPrefix(COMPLETED_PREFIX, torn, u);
  }

  lemma AfterPrefix(prefix: string, t: string, u: string)
    ensures prefix <= t ==> (t + u)[|prefix|..] == t[|prefix|..] + u
  {}

  lemma TornParse(log: string, path: string)
    requires !Terminated(log) && '\n' !in path
    ensures Parse(log) == ParseLine(Parse(Whole(log)), Rest(log))
    ensures Parse(log + CompletedLine(path)) == ParseLine(Parse(Whole(log)), Rest(log) + (COMPLETED_PREFIX + path))
  {
    var whole, rest, u := Whole(log), Rest(log), COMPLETED_PREFIX + path;
    ParseAppend(whole, rest);
    ParseAppend(whole, rest + u);
    Regroup4(whole, rest, u, "\n");
  }

  lemma Regroup4(a: string, b: string, c: string, d: string)
    ensures (a + b) + (c + d) == a + (b + c) + d
  {}

  /** Whether a log goes on to read as one more path when the path is written to it: always for a
      one-line path behind complete lines. Behind a torn line the path must have been there before,
      and the torn line must not say anything that is lost or changed by what is written to it. */
  predicate ReadsBack(log: string, path: string) {
    '\n' !in path && (Terminated(log) || TornReadsBack(Parse(Whole(log)).completed, Rest(log), path))
  }

  predicate TornReadsBack(completed: set<string>, torn: string, path: string) {
    && path in completed && !(PATH_PREFIX <= torn)
    && (COMPLETED_PREFIX <= torn ==>
          var other := torn[|COMPLETED_PREFIX|..];
          other in completed && other + (COMPLETED_PREFIX + path) in completed)
  }

  /** After a completion is written, memory and log agree exactly on this condition. */
  lemma CompletionReadsBackExactly(log: string, path: string)
    ensures Parse(log + CompletedLine(path)) == Parse(log).(completed := Parse(log).completed + {path})
      <==> ReadsBack(log, path)
  {
    LogsHaveNoNewline(log + CompletedLine(path));
    if '\n' in path {
      assert path in Parse(log).completed + {path};
    } else if Terminated(log) {
      CompletionReadsBack(log, path);
    } else {
      TornParse(log, path);
      TornAgreesExactly(Parse(Whole(log)), Rest(log), path);
    }
  }

  lemma TornAgreesExactly(acc: Parsed, torn: string, path: string)
    requires torn != ""
    ensures var before := ParseLine(acc, torn);
      ParseLine(acc, torn + (COMPLETED_PREFIX + path)) == before.(completed := before.completed + {path})
      <==> TornReadsBack(acc.completed, torn, path)
  {
    TornLine(acc, torn, path);
    if "#" <= torn {
      assert torn[0] == '#';
      AlreadyIn(acc.completed, path);
    } else if PATH_PREFIX <= torn {
      assert |torn[|PATH_PREFIX|..] + (COMPLETED_PREFIX + path)| > |torn[|PATH_PREFIX|..]|;
    } else if !(COMPLETED_PREFIX <= torn) {
      AlreadyIn(acc.completed, path);
    } else {
      var other := torn[|COMPLETED_PREFIX|..];
      assert |other + (COMPLETED_PREFIX + path)| > |other| && |other + (COMPLETED_PREFIX + path)| > |path|;
      TwoForOne(acc.completed, other, path, other + (COMPLETED_PREFIX + path));
    }
  }

  lemma AlreadyIn(s: set<string>, p: string)
    ensures s == s + {p} <==> p in s
  {
    assert p in s + {p};
  }

  lemma TwoForOne(s: set<string>, x: string, p: string, y: string)
    requires y != x && y != p
    ensures s + {y} == s + {x} + {p} <==> x in s && p in s && y in s
  {
    assert x in s + {x} + {p} && p in s + {x} + {p} && y in s + {y};
  }

  /** The path itself is in the log's next reading exactly if it is one line and was written behind
      complete lines, or was in the complete lines before: otherwise the completion is lost. */
  lemma CompletionIsRecordedExactly(log: string, path: string)
    ensures path in Parse(log + CompletedLine(path)).completed
      <==> '\n' !in path && (Terminated(log) || path in Parse(Whole(log)).completed)
  {
    LogsHaveNoNewline(log + CompletedLine(path));
    if '\n' !in path {
      if Terminated(log) {
        CompletionReadsBack(log, path);
      } else {
        TornParse(log, path);
        TornLine(Parse(Whole(log)), Rest(log), path);
        assert COMPLETED_PREFIX <= Rest(log) ==>
            |Rest(log)[|COMPLETED_PREFIX|..] + (COMPLETED_PREFIX + path)| > |path|;
      }
    }
  }

  // ----- every run of the job table ------------------------------------------------------------

  /** The log directory, and the server's table of jobs. */
  datatype Store = Store(disk: map<string, string>, jobs: map<string, Parsed>)

  datatype Op =
    | New(id: string, created: string, path: string)   // a start request
    | Continue(id: string)                             // a continue request
    | Success(id: string, path: string)                // a success request
    | Restart(kept: map<string, string>)               // of the server, with what is left of some logs

  function Apply(s: Store, op: Op): Store {
    match op
    case New(id, created, path) =>
      Store(s.disk[id := Header(created, path)], TryEmplace(s.jobs, id, Parsed(path, {})))
    case Continue(id) =>
      if id in s.disk && LoadLog(s.disk[id]).Some?
      then s.(jobs := TryEmplace(s.jobs, id, LoadLog(s.disk[id]).value))
      else s
    case Success(id, path) =>
      if id in s.jobs && id in s.disk
      then Store(s.disk[id := s.disk[id] + CompletedLine(path)],
                 s.jobs[id := s.jobs[id].(completed := s.jobs[id].completed + {path})])
      else s
    case Restart(kept) =>
      Store(map id | id in s.disk :: if id in kept then kept[id] else s.disk[id], map[])
  }

  /** Ids are fresh, a date is a single line, and a crash leaves a first part of each log. */
  predicate Given(s: Store, op: Op) {
    match op
    case New(id, created, path) => id !in s.disk && id !in s.jobs && '\n' !in created
    case Restart(kept) => forall id | id in kept :: id in s.disk && kept[id] <= s.disk[id]
    case _ => true
  }

  /** What is written reads back. */
  predicate Sane(s: Store, op: Op) {
    match op
    case New(_, _, path) => '\n' !in path
    case Success(id, path) => id in s.jobs && id in s.disk ==> ReadsBack(s.disk[id], path)
    case _ => true
  }

  /** Every job in the table is what its log reads as. */
  ghost predicate Agrees(s: Store) {
    forall id | id in s.jobs :: id in s.disk && Parse(s.disk[id]) == s.jobs[id]
  }

  lemma StepAgreesExactly(s: Store, op: Op)
    requires Agrees(s) && Given(s, op)
    ensures Agrees(Apply(s, op)) <==> Sane(s, op)
  {
    var t := Apply(s, op);
    match op
    case New(id, created, path) =>
      NewReadsBackExactly(created, path);
      assert id in t.jobs && t.jobs[id] == Parsed(path, {}) && t.disk[id] == Header(created, path);
    case Continue(id) =>
    case Success(id, path) =>
      if id in s.jobs {
        CompletionReadsBackExactly(s.disk[id], path);
        assert id in t.jobs && t.disk[id] == s.disk[id] + CompletedLine(path);
      }
    case Restart(_) =>
  }

  predicate SaneRun(s: Store, ops: seq<Op>)
    decreases |ops|
  {
    ops == [] || (Given(s, ops[0]) && Sane(s, ops[0]) && SaneRun(Apply(s, ops[0]), ops[1..]))
  }

  function Run(s: Store, ops: seq<Op>): Store
    decreases |ops|
  {
    if ops == [] then s else Run(Apply(s, ops[0]), ops[1..])
  }

  /** After any interleaving of requests and restarts, whatever the crashes left of the logs, every
      job in the table is what its log reads back as; a job that was already in the table is not
      replaced by what was loaded. */
  lemma {:induction false} RunAgrees(s: Store, ops: seq<Op>)
    requires Agrees(s) && SaneRun(s, ops)
    ensures var r := Run(s, ops);
      forall id | id in r.jobs :: id in r.disk && Parse(r.disk[id]) == r.jobs[id]
        && (Path.IsResolved(r.jobs[id].path) ==> LoadLog(r.disk[id]) == Some(r.jobs[id]))
    ensures Agrees(Run(s, ops))
    decreases |ops|
  {
    if ops != [] {
      StepAgreesExactly(s, ops[0]);
      RunAgrees(Apply(s, ops[0]), ops[1..]);
    }
  }

  // ----- logs that lose lines ------------------------------------------------------------------

  /** Some of the last lines are gone, but not the one with the path. */
  predicate IsLineCut(log: string, kept: string) {
    kept <= log && Terminated(kept) && Parse(kept).path == Parse(log).path
  }

  lemma LinesConcat(a: string, b: string)
    requires Terminated(a)
    ensures Lines(a + b) == Lines(a) + Lines(b)
  {
    if a == "" {
      assert a + b == b;
    } else {
      assert a == a[..|a| - 1] + ['\n'];
      LinesConcatAfter(a[..|a| - 1], b);
    }
  }

  lemma LinesConcatAfter(front: string, b: string)
    ensures Lines(front + ['\n'] + b) == Lines(front + ['\n']) + Lines(b)
  {
    LinesAfter(front, b);
    LinesOfWhole(front);
  }

  lemma LinesOfWhole(front: string)
    ensures Lines(front + ['\n']) == Strings.Split(front, '\n')
  {
    LinesAfter(front, "");
    assert front + ['\n'] + "" == front + ['\n'];
    assert Strings.Split("", '\n') == [""] && Lines("") == [];
  }

  lemma LinesAfter(front: string, b: string)
    ensures Lines(front + ['\n'] + b) == Strings.Split(front, '\n') + Lines(b)
  {
    Strings.SplitAppend(front, '\n', b);
    DropInAppend(Strings.Split(front, '\n'), Strings.Split(b, '\n'));
  }

  lemma DropInAppend(a: seq<string>, b: seq<string>)
    requires b != []
    ensures DropEmptyLast(a + b) == a + DropEmptyLast(b)
  {
    assert (a + b)[..|a + b| - 1] == a + b[..|b| - 1];
  }

  lemma {:induction false} MoreLinesMore(acc: Parsed, lines: seq<string>, more: seq<string>)
    ensures ParseLines(acc, lines).completed <= ParseLines(acc, lines + more).completed
    decreases |more|
  {
    if more == [] {
      assert lines + more == lines;
    } else {
      var front, last := more[..|more| - 1], more[|more| - 1];
      MoreLinesMore(acc, lines, front);
      assert lines + more == lines + front + [last];
      ParseLinesSnoc(acc, lines + front, last);
    }
  }

  /** What is left of such a log says nothing that the log did not. */
  lemma LineCutAddsNothing(log: string, kept: string)
    requires kept <= log && Terminated(kept)
    ensures Parse(kept).completed <= Parse(log).completed
  {
    LinesConcat(kept, log[|kept|..]);
    assert log == kept + log[|kept|..];
    MoreLinesMore(NOTHING, Lines(kept), Lines(log[|kept|..]));
  }

  // ----- logs cut short ------------------------------------------------------------------------

  /** The log of a job after the given completions. */
  function Render(created: string, path: string, done: seq<string>): string
    decreases |done|
  {
    if done == [] then Header(created, path)
    else Render(created, path, done[..|done| - 1]) + CompletedLine(done[|done| - 1])
  }

  predicate OneLine(paths: seq<string>) {
    Strings.Without(paths, '\n')
  }

  function SetOf(paths: seq<string>): set<string> {
    set p | p in paths
  }

  lemma SetOfSnoc(paths: seq<string>)
    requires paths != []
    ensures SetOf(paths) == SetOf(paths[..|paths| - 1]) + {paths[|paths| - 1]}
  {}

  lemma {:induction false} RenderReadsBack(created: string, path: string, done: seq<string>)
    requires '\n' !in created && '\n' !in path && OneLine(done)
    ensures Parse(Render(created, path, done)) == Parsed(path, SetOf(done))
    ensures Terminated(Render(created, path, done))
    decreases |done|
  {
    if done == [] {
      NewReadsBackExactly(created, path);
    } else {
      var front, last := done[..|done| - 1], done[|done| - 1];
      RenderReadsBack(created, path, front);
      CompletionReadsBack(Render(created, path, front), last);
      assert last in done;
      SetOfSnoc(done);
    }
  }

  /** A log cut `n` characters into the line after its first `k` completions. */
  function Cut(created: string, path: string, done: seq<string>, k: nat, n: nat): string
    requires k < |done| && n <= |COMPLETED_PREFIX| + |done[k]|
  {
    Render(created, path, done[..k]) + (COMPLETED_PREFIX + done[k])[..n]
  }

  predicate IsCut(created: string, path: string, done: seq<string>, k: nat, n: nat, log: string) {
    k < |done| && n <= |COMPLETED_PREFIX| + |done[k]| && log == Cut(created, path, done, k, n)
  }

  /** Every first part of a log is one of its header, or of this form: nothing else can be left. */
  lemma EveryCut(created: string, path: string, done: seq<string>, m: nat)
    requires m < |Render(created, path, done)|
    ensures var log := Render(created, path, done)[..m];
      if m < |Header(created, path)| then log == Header(created, path)[..m]
      else exists k: nat, n: nat :: IsCut(created, path, done, k, n, log)
  {
    if m < |Header(created, path)| {
      HeaderFirst(created, path, done);
    } else {
      LaterCut(created, path, done, m);
    }
  }

  lemma {:induction false} HeaderFirst(created: string, path: string, done: seq<string>)
    ensures Header(created, path) <= Render(created, path, done)
    decreases |done|
  {
    if done != [] {
      HeaderFirst(created, path, done[..|done| - 1]);
    }
  }

  /** What a cut header reads as: no completions, and the path as far as it was written; `LoadLog`
      takes such a path if it is resolved. */
  lemma HeaderCutReadsBack(created: string, path: string, m: nat)
    requires '\n' !in created && '\n' !in path && m < |Header(created, path)|
    ensures var start := |FirstLine(created)| + 1 + |PATH_PREFIX|;
      Parse(Header(created, path)[..m]) == Parsed(if m <= start then "" else path[..m - start], {})
  {
    var first, line := FirstLine(created), PATH_PREFIX + path;
    assert first[0] == '#' && Parse("") == NOTHING;
    if m <= |first| {
      var log := Header(created, path)[..m];
      assert log == first[..m] && "" + log == log;
      if m > 0 {
        assert log[0] == '#';
        ParseAppend("", log);
      }
    } else {
      var n := m - |first| - 1;
      assert Header(created, path)[..m] == first + "\n" + line[..n];
      HeaderLineCut(first, path, n);
    }
  }

  /** So a cut header is refused exactly if nothing of the path is there, or what is there is more
      than "/" and ends with a slash or with "." or ".." as a component: any other cut loads a job
      for the first part of the path, and one behind its first character a job for "/". */
  lemma CutHeaderLoadsExactly(created: string, path: string, m: nat)
    requires '\n' !in created && '\n' !in path && Path.IsRoot(path) && m < |Header(created, path)|
    ensures var start := |FirstLine(created)| + 1 + |PATH_PREFIX|;
      var left := if m <= start then "" else path[..m - start];
      LoadLog(Header(created, path)[..m])
        == if left == "" || (left != "/" && (Path.EndsWith(left, "/") || Path.EndsWith(left, "/.") || Path.EndsWith(left, "/..")))
           then None else Some(Parsed(left, {}))
  {
    HeaderCutReadsBack(created, path, m);
    var start := |FirstLine(created)| + 1 + |PATH_PREFIX|;
    var n := if m <= start then 0 else m - start;
    assert path[..0] == "";
    Path.CutResolvedExactly(path, n);
  }

  lemma ParseCutPathLine(path: string, n: nat)
    requires 0 < n <= |PATH_PREFIX| + |path|
    ensures ParseLine(NOTHING, (PATH_PREFIX + path)[..n])
      == Parsed(if n <= |PATH_PREFIX| then "" else path[..n - |PATH_PREFIX|], {})
  {
    var line := (PATH_PREFIX + path)[..n];
    if n < |PATH_PREFIX| {
      assert line[0] == 'P';
    } else {
      assert line == PATH_PREFIX + path[..n - |PATH_PREFIX|];
      ParsePathLine(NOTHING, path[..n - |PATH_PREFIX|]);
    }
  }

  lemma HeaderLineCut(first: string, path: string, n: nat)
    requires first != "" && first[0] == '#' && '\n' !in first && '\n' !in path && n <= |PATH_PREFIX| + |path|
    ensures Parse(first + "\n" + (PATH_PREFIX + path)[..n])
      == Parsed(if n <= |PATH_PREFIX| then "" else path[..n - |PATH_PREFIX|], {})
  {
    AfterFirst(first, (PATH_PREFIX + path)[..n]);
    if n > 0 {
      ParseCutPathLine(path, n);
    }
  }

  lemma AfterFirst(first: string, line: string)
    requires first != "" && first[0] == '#' && '\n' !in first && '\n' !in line
    ensures Parse(first + "\n" + line) == if line == "" then NOTHING else ParseLine(NOTHING, line)
  {
    ParseAppend("", first);
    assert "" + first == first && Parse("") == NOTHING;
    if line == "" {
      assert first + "\n" + line == first + "\n";
    } else {
      ParseAppend(first + "\n", line);
    }
  }

  lemma {:induction false} LaterCut(created: string, path: string, done: seq<string>, m: nat)
    requires |Header(created, path)| <= m < |Render(created, path, done)|
    ensures exists k: nat, n: nat :: IsCut(created, path, done, k, n, Render(created, path, done)[..m])
    decreases |done|
  {
    var front, last := done[..|done| - 1], done[|done| - 1];
    var before := Render(created, path, front);
    if m < |before| {
      LaterCut(created, path, front, m);
      var k: nat, n: nat :| IsCut(created, path, front, k, n, before[..m]);
      assert done[..k] == front[..k];
      assert IsCut(created, path, done, k, n, Render(created, path, done)[..m]);
    } else {
      var k, n := |done| - 1, m - |before|;
      assert CompletedLine(last)[..n] == (COMPLETED_PREFIX + last)[..n];
      assert IsCut(created, path, done, k, n, Render(created, path, done)[..m]);
    }
  }

  /** A cut log has the same path, and its completions are among the written ones exactly when the
      torn line is not yet recognised, or happens to read as a completed path. At a line boundary
      (n == 0) they always are. */
  lemma CutReadsBackExactly(created: string, path: string, done: seq<string>, k: nat, n: nat)
    requires '\n' !in created && '\n' !in path && OneLine(done)
    requires k < |done| && n <= |COMPLETED_PREFIX| + |done[k]|
    ensures var p := Parse(Cut(created, path, done, k, n));
      && p.path == path
      && SetOf(done[..k]) <= p.completed
      && (p.completed <= SetOf(done)
          <==> n < |COMPLETED_PREFIX| || done[k][..n - |COMPLETED_PREFIX|] in done)
  {
    CutParse(created, path, done, k, n);
    if |COMPLETED_PREFIX| <= n {
      assert done[k][..n - |COMPLETED_PREFIX|] in Parse(Cut(created, path, done, k, n)).completed;
    }
  }

  /** What the torn line adds. */
  function Torn(path: string, n: nat): set<string>
    requires n <= |COMPLETED_PREFIX| + |path|
  {
    if n < |COMPLETED_PREFIX| then {} else {path[..n - |COMPLETED_PREFIX|]}
  }

  lemma CutParse(created: string, path: string, done: seq<string>, k: nat, n: nat)
    requires '\n' !in created && '\n' !in path && OneLine(done)
    requires k < |done| && n <= |COMPLETED_PREFIX| + |done[k]|
    ensures Parse(Cut(created, path, done, k, n)) == Parsed(path, SetOf(done[..k]) + Torn(done[k], n))
  {
    var before, line := Render(created, path, done[..k]), (COMPLETED_PREFIX + done[k])[..n];
    RenderReadsBack(created, path, done[..k]);
    if n == 0 {
      assert before + line == before;
    } else {
      assert '\n' !in COMPLETED_PREFIX + done[k];
      ParseAppend(before, line);
      ParseTornLine(Parse(before), done[k], n);
    }
  }

  lemma ParseTornLine(acc: Parsed, path: string, n: nat)
    requires 0 < n <= |COMPLETED_PREFIX| + |path|
    ensures ParseLine(acc, (COMPLETED_PREFIX + path)[..n])
      == acc.(completed := acc.completed + Torn(path, n))
  {
    var line := (COMPLETED_PREFIX + path)[..n];
    if n < |COMPLETED_PREFIX| {
      assert line[0] == 'C';
    } else {
      assert line == COMPLETED_PREFIX + path[..n - |COMPLETED_PREFIX|];
      ParseCompletedLine(acc, path[..n - |COMPLETED_PREFIX|]);
    }
  }

  // ----- what any crashes leave of a log -------------------------------------------------------

  predicate EndsIn(paths: set<string>, text: string, q: string, n: nat) {
    q in paths && 0 < n <= |CompletedLine(q)| && n <= |text| && text[|text| - n..] == CompletedLine(q)[..n]
  }

  /** First parts of completion lines of these paths, one behind the other. */
  ghost predicate Pieces(paths: set<string>, text: string)
    decreases |text|
  {
    text == "" || exists q: string, n: nat :: EndsIn(paths, text, q, n) && Pieces(paths, text[..|text| - n])
  }

  lemma PiecesAppend(paths: set<string>, text: string, q: string)
    requires Pieces(paths, text) && q in paths
    ensures Pieces(paths, text + CompletedLine(q))
  {
    var all, n := text + CompletedLine(q), |CompletedLine(q)|;
    assert all[..|all| - n] == text;
    assert EndsIn(paths, all, q, n);
  }

  lemma {:induction false} PiecesCut(paths: set<string>, text: string, m: nat)
    requires Pieces(paths, text) && m <= |text|
    ensures Pieces(paths, text[..m])
    decreases |text|
  {
    if m == |text| {
      assert text[..m] == text;
    } else {
      var q: string, n: nat :| EndsIn(paths, text, q, n) && Pieces(paths, text[..|text| - n]);
      var front := text[..|text| - n];
      if m <= |front| {
        PiecesCut(paths, front, m);
        assert front[..m] == text[..m];
      } else {
        assert text[..m][..|front|] == front;
        assert text[..m][|front|..] == text[|front|..][..m - |front|];
        assert EndsIn(paths, text[..m], q, m - |front|);
      }
    }
  }

  lemma {:induction false} PiecesGrow(paths: set<string>, more: set<string>, text: string)
    requires Pieces(paths, text) && paths <= more
    ensures Pieces(more, text)
    decreases |text|
  {
    if text != "" {
      var q: string, n: nat :| EndsIn(paths, text, q, n) && Pieces(paths, text[..|text| - n]);
      PiecesGrow(paths, more, text[..|text| - n]);
      assert EndsIn(more, text, q, n);
    }
  }

  /** The first `m` characters of a header, and then such pieces. */
  ghost predicate IsPatchwork(paths: set<string>, header: string, m: nat, log: string) {
    m <= |header| && m <= |log| && log[..m] == header[..m] && Pieces(paths, log[m..])
  }

  lemma PatchworkAppend(paths: set<string>, header: string, m: nat, log: string, q: string)
    requires IsPatchwork(paths, header, m, log) && q in paths
    ensures IsPatchwork(paths, header, m, log + CompletedLine(q))
  {
    PiecesAppend(paths, log[m..], q);
    assert (log + CompletedLine(q))[m..] == log[m..] + CompletedLine(q);
    assert (log + CompletedLine(q))[..m] == log[..m];
  }

  lemma PatchworkCut(paths: set<string>, header: string, m: nat, log: string, kept: string)
    requires IsPatchwork(paths, header, m, log) && kept <= log
    ensures IsPatchwork(paths, header, if m <= |kept| then m else |kept|, kept)
  {
    if m <= |kept| {
      PiecesCut(paths, log[m..], |kept| - m);
      assert kept[m..] == log[m..][..|kept| - m];
      assert kept[..m] == log[..m];
    } else {
      assert kept[..|kept|] == log[..m][..|kept|] == header[..|kept|];
    }
  }

  predicate StartsIn(paths: set<string>, line: string, q: string, n: nat) {
    && q in paths && 0 < n <= |line| && n <= |COMPLETED_PREFIX| + |q|
    && line[..n] == (COMPLETED_PREFIX + q)[..n]
  }

  /** The same without line breaks. */
  ghost predicate MadeLine(paths: set<string>, line: string)
    decreases |line|
  {
    line == "" || exists q: string, n: nat :: StartsIn(paths, line, q, n) && MadeLine(paths, line[n..])
  }

  lemma {:induction false} MadeLineAppend(paths: set<string>, line: string, q: string, n: nat)
    requires MadeLine(paths, line) && q in paths && n <= |COMPLETED_PREFIX| + |q|
    ensures MadeLine(paths, line + (COMPLETED_PREFIX + q)[..n])
    decreases |line|
  {
    var end := (COMPLETED_PREFIX + q)[..n];
    if line == "" {
      assert line + end == end && end[..n] == end;
      assert n > 0 ==> StartsIn(paths, end, q, n) && end[n..] == "";
    } else {
      var r: string, k: nat :| StartsIn(paths, line, r, k) && MadeLine(paths, line[k..]);
      MadeLineAppend(paths, line[k..], q, n);
      assert (line + end)[..k] == line[..k] && (line + end)[k..] == line[k..] + end;
      assert StartsIn(paths, line + end, r, k);
    }
  }

  lemma {:induction false} MadeLineGrows(paths: set<string>, more: set<string>, line: string)
    requires MadeLine(paths, line) && paths <= more
    ensures MadeLine(more, line)
    decreases |line|
  {
    if line != "" {
      var q: string, n: nat :| StartsIn(paths, line, q, n) && MadeLine(paths, line[n..]);
      MadeLineGrows(paths, more, line[n..]);
      assert StartsIn(more, line, q, n);
    }
  }

  /** `p` is a first part of a path of these, with nothing behind it but such first parts of lines. */
  ghost predicate IsTornFrom(paths: set<string>, p: string, q: string, n: nat) {
    q in paths && n <= |q| && n <= |p| && p[..n] == q[..n] && MadeLine(paths, p[n..])
  }

  lemma MadeLineStarts(paths: set<string>, line: string)
    requires MadeLine(paths, line)
    ensures line != "" ==> line[0] == 'C'
  {
    if line != "" {
      var q: string, n: nat :| StartsIn(paths, line, q, n);
      assert line[..n][0] == (COMPLETED_PREFIX + q)[..n][0];
    }
  }

  /** Completion lines do not overlap before the path. */
  lemma CompletedFrom(paths: set<string>, p: string)
    requires MadeLine(paths, COMPLETED_PREFIX + p)
    ensures exists q: string, n: nat :: IsTornFrom(paths, p, q, n)
  {
    var line := COMPLETED_PREFIX + p;
    var q: string, n: nat :| StartsIn(paths, line, q, n) && MadeLine(paths, line[n..]);
    if n < |COMPLETED_PREFIX| {
      MadeLineStarts(paths, line[n..]);
      assert false;
    } else {
      var k := n - |COMPLETED_PREFIX|;
      assert line[..n] == COMPLETED_PREFIX + p[..k] && (COMPLETED_PREFIX + q)[..n] == COMPLETED_PREFIX + q[..k];
      assert p[..k] == line[..n][|COMPLETED_PREFIX|..] == q[..k];
      assert line[n..] == p[k..];
      assert IsTornFrom(paths, p, q, k);
    }
  }

  predicate IsHeadLine(rest: string) {
    rest != "" && (rest[0] == '#' || rest[0] == 'P')
  }

  /** What such a log reads as, one piece after the other. */
  ghost predicate ReadsAsMade(paths: set<string>, log: string) {
    && (forall p | p in Parse(Whole(log)).completed :: MadeLine(paths, COMPLETED_PREFIX + p))
    && (MadeLine(paths, Rest(log)) || IsHeadLine(Rest(log)))
  }

  lemma WholeSnoc(log: string, c: char)
    requires c != '\n'
    ensures Whole(log + [c]) == Whole(log)
  {
    assert (log + [c])[..|log|] == log;
  }

  lemma {:induction false} WholeOf(whole: string, rest: string)
    requires Terminated(whole) && '\n' !in rest
    ensures Whole(whole + rest) == whole
    decreases |rest|
  {
    if rest == "" {
      assert whole + rest == whole;
    } else {
      var front, last := rest[..|rest| - 1], rest[|rest| - 1];
      WholeOf(whole, front);
      WholeSnoc(whole + front, last);
      assert whole + rest == whole + front + [last];
    }
  }

  lemma WholeIs(whole: string, rest: string)
    requires Terminated(whole) && '\n' !in rest
    ensures Whole(whole + rest) == whole && Rest(whole + rest) == rest
  {
    WholeOf(whole, rest);
    assert (whole + rest)[|whole|..] == rest;
  }

  lemma LineReadsAsMade(paths: set<string>, acc: Parsed, line: string)
    requires forall p | p in acc.completed :: MadeLine(paths, COMPLETED_PREFIX + p)
    requires MadeLine(paths, line) || IsHeadLine(line)
    ensures forall p | p in ParseLine(acc, line).completed :: MadeLine(paths, COMPLETED_PREFIX + p)
  {
    if COMPLETED_PREFIX <= line {
      assert line[0] == 'C' && line == COMPLETED_PREFIX + line[|COMPLETED_PREFIX|..];
    }
  }

  lemma RestGrows(paths: set<string>, log: string, q: string, n: nat)
    requires ReadsAsMade(paths, log) && q in paths && n <= |COMPLETED_PREFIX| + |q|
    ensures var rest := Rest(log) + (COMPLETED_PREFIX + q)[..n];
      MadeLine(paths, rest) || IsHeadLine(rest)
  {
    if MadeLine(paths, Rest(log)) {
      MadeLineAppend(paths, Rest(log), q, n);
    }
  }

  lemma PieceReadsAsMade(paths: set<string>, log: string, q: string, n: nat)
    requires ReadsAsMade(paths, log) && q in paths && '\n' !in q && n <= |CompletedLine(q)|
    ensures ReadsAsMade(paths, log + CompletedLine(q)[..n])
  {
    var u := COMPLETED_PREFIX + q;
    if n <= |u| {
      RestGrows(paths, log, q, n);
      assert CompletedLine(q)[..n] == u[..n] && '\n' !in u;
      RestReadsAsMade(paths, Whole(log), Rest(log), u[..n]);
    } else {
      RestGrows(paths, log, q, |u|);
      assert CompletedLine(q)[..n] == u + "\n" && u[..|u|] == u;
      LineEndsAsMade(paths, Whole(log), Rest(log), u);
    }
  }

  lemma RestReadsAsMade(paths: set<string>, whole: string, rest: string, more: string)
    requires Terminated(whole) && '\n' !in rest + more
    requires forall p | p in Parse(whole).completed :: MadeLine(paths, COMPLETED_PREFIX + p)
    requires MadeLine(paths, rest + more) || IsHeadLine(rest + more)
    ensures ReadsAsMade(paths, (whole + rest) + more)
  {
    Regroup(whole, rest, more);
    WholeIs(whole, rest + more);
  }

  lemma LineEndsAsMade(paths: set<string>, whole: string, rest: string, more: string)
    requires Terminated(whole) && '\n' !in rest + more
    requires forall p | p in Parse(whole).completed :: MadeLine(paths, COMPLETED_PREFIX + p)
    requires MadeLine(paths, rest + more) || IsHeadLine(rest + more)
    ensures ReadsAsMade(paths, (whole + rest) + (more + "\n"))
  {
    var line := rest + more;
    ParseAppend(whole, line);
    LineReadsAsMade(paths, Parse(whole), line);
    Regroup4(whole, rest, more, "\n");
    WholeIs(whole + line + "\n", "");
    assert whole + line + "\n" + "" == whole + line + "\n";
  }

  lemma SecondReadsAsMade(paths: set<string>, first: string, rest: string)
    requires first != "" && first[0] == '#' && '\n' !in first && '\n' !in rest && (rest == "" || rest[0] == 'P')
    ensures ReadsAsMade(paths, first + "\n" + rest)
  {
    WholeIs(first + "\n", rest);
    AfterFirst(first, "");
    assert first + "\n" + "" == first + "\n";
  }

  lemma HeaderReadsAsMade(paths: set<string>, created: string, path: string, m: nat)
    requires '\n' !in created && '\n' !in path && m <= |Header(created, path)|
    ensures ReadsAsMade(paths, Header(created, path)[..m])
  {
    var first, line, log := FirstLine(created), PATH_PREFIX + path, Header(created, path)[..m];
    assert Parse("") == NOTHING;
    if m <= |first| {
      assert log == "" + first[..m];
      WholeIs("", first[..m]);
    } else if m < |Header(created, path)| {
      var n := m - |first| - 1;
      assert log == first + "\n" + line[..n];
      SecondReadsAsMade(paths, first, line[..n]);
    } else {
      assert log == Header(created, path) == log + "";
      WholeIs(log, "");
      NewReadsBack(created, path);
    }
  }

  /** A log that is more than a first part of the header ends in a piece. */
  lemma LastPiece(paths: set<string>, header: string, m: nat, log: string) returns (q: string, n: nat)
    requires IsPatchwork(paths, header, m, log) && m < |log|
    ensures q in paths && 0 < n <= |CompletedLine(q)| && n <= |log| - m
    ensures log == log[..|log| - n] + CompletedLine(q)[..n]
    ensures IsPatchwork(paths, header, m, log[..|log| - n])
  {
    var text := log[m..];
    q, n :| EndsIn(paths, text, q, n) && Pieces(paths, text[..|text| - n]);
    var front := log[..|log| - n];
    assert front[m..] == text[..|text| - n] && front[..m] == log[..m];
    assert log[|log| - n..] == text[|text| - n..];
  }

  lemma {:induction false} PatchworkReads(paths: set<string>, created: string, path: string, m: nat, log: string)
    requires '\n' !in created && '\n' !in path && forall q | q in paths :: '\n' !in q
    requires IsPatchwork(paths, Header(created, path), m, log)
    ensures ReadsAsMade(paths, log)
    decreases |log|
  {
    if m == |log| {
      HeaderReadsAsMade(paths, created, path, m);
      assert log == log[..m];
    } else {
      var q, n := LastPiece(paths, Header(created, path), m, log);
      PatchworkReads(paths, created, path, m, log[..|log| - n]);
      PieceReadsAsMade(paths, log[..|log| - n], q, n);
    }
  }

  /** Whatever crashes left of a log of single lines, and whatever was written behind that: a path
      it records is a first part of a path that was written, with nothing or only first parts of
      other completion lines behind it. */
  lemma PatchworkRecords(paths: set<string>, created: string, path: string, m: nat, log: string, p: string)
    requires '\n' !in created && '\n' !in path && forall q | q in paths :: '\n' !in q
    requires IsPatchwork(paths, Header(created, path), m, log) && p in Parse(log).completed
    ensures exists q: string, n: nat :: IsTornFrom(paths, p, q, n)
  {
    PatchworkReads(paths, created, path, m, log);
    if Terminated(log) {
      assert Rest(log) == "" && Whole(log) == log;
    } else {
      TornParse(log, "");
      LineReadsAsMade(paths, Parse(Whole(log)), Rest(log));
    }
    CompletedFrom(paths, p);
  }

  // ----- a job as an object --------------------------------------------------------------------

  class Job {
    const id: string
    const path: string
    const completedPaths: GuardedSet<string>
    var log: string

    /** What is kept in memory. */
    ghost function Memory(): Parsed
      reads this, completedPaths
    {
      Parsed(path, completedPaths.data)
    }

    /** Memory is what the log reads as. */
    ghost predicate Valid()
      reads this, completedPaths
    {
      Parse(log) == Memory()
    }

    constructor New(id: string, created: string, path: string)
      requires '\n' !in created
      ensures this.id == id && Memory() == Parsed(path, {}) && log == Header(created, path)
      ensures fresh(completedPaths)
      ensures Valid() <==> '\n' !in path
    {
      this.id, this.path, log := id, path, Header(created, path);
      completedPaths := new GuardedSet({});
      new;
      NewReadsBackExactly(created, path);
    }

    constructor Opened(id: string, log: string, parsed: Parsed)
      ensures this.id == id && this.log == log && Memory() == parsed && fresh(completedPaths)
    {
      this.id, this.log, path := id, log, parsed.path;
      completedPaths := new GuardedSet(parsed.completed);
    }

    /** Any log whose path is resolved is taken, complete or torn. */
    static method Load(id: string, log: string) returns (job: Job?)
      ensures job == null <==> LoadLog(log) == None
      ensures job != null ==>
        fresh(job) && fresh(job.completedPaths) && job.id == id && job.log == log && job.Valid()
    {
      job := null;
      var parsed := LoadLines(log);
      if parsed.Some? {
        job := new Job.Opened(id, log, parsed.value);
      }
    }

    method IsCompleted(path: string) returns (completed: bool)
      ensures completed <==> path in Memory().completed
    {
      completed := completedPaths.Contains(path);
    }

    /** Memory gains the path whatever the log is. The log's next reading gains it exactly if it is one
      line and behind complete lines, unless it was there; memory and log go on to agree exactly on
      the condition above. */
    method MarkCompleted(path: string)
      modifies this`log, completedPaths
      ensures Memory() == old(Memory()).(completed := old(Memory()).completed + {path})
      ensures log == old(log) + CompletedLine(path)
      ensures path in Parse(log).completed
        <==> '\n' !in path && (Terminated(old(log)) || path in Parse(Whole(old(log))).completed)
      ensures old(Valid()) ==> (Valid() <==> ReadsBack(old(log), path))
    {
      CompletionReadsBackExactly(log, path);
      CompletionIsRecordedExactly(log, path);
      completedPaths.Insert(path);
      log := log + CompletedLine(path);
    }
  }
}
