/** Splitting on a character and joining with a separator, as absl::StrSplit and absl::StrJoin. */
module Strings {

  /** Always at least one part; the empty string has one empty part. */
  function Split(s: string, sep: char): (parts: seq<string>)
    ensures |parts| >= 1
  {
    if s == "" then [""]
    else
      var rest := Split(s[1..], sep);
      if s[0] == sep then [""] + rest else Push(s[0], rest)
  }

  /** One more character at the front of the first part. */
  function Push(c: char, parts: seq<string>): seq<string>
    requires parts != []
  {
    [[c] + parts[0]] + parts[1..]
  }

  lemma PushAppend(c: char, a: seq<string>, b: seq<string>)
    requires a != []
    ensures Push(c, a + b) == Push(c, a) + b
  {
    assert (a + b)[1..] == a[1..] + b;
  }

  function Join(parts: seq<string>, sep: string): string {
    if parts == [] then ""
    else if |parts| == 1 then parts[0]
    else parts[0] + sep + Join(parts[1..], sep)
  }

  predicate Without(parts: seq<string>, c: char) {
    forall p | p in parts :: c !in p
  }

  lemma {:induction false} SplitFirst(a: string, sep: char, b: string)
    requires sep !in a
    ensures Split(a + [sep] + b, sep) == [a] + Split(b, sep)
    ensures Split(a, sep) == [a]
  {
    var s := a + [sep] + b;
    if a == "" {
      assert s[1..] == b;
    } else {
      SplitFirst(a[1..], sep, b);
      assert s[0] == a[0] && s[1..] == a[1..] + [sep] + b;
      assert [a[0]] + a[1..] == a;
      PushAppend(a[0], [a[1..]], Split(b, sep));
    }
  }

  lemma SplitTwo(a: string, sep: char, b: string)
    requires sep !in a && sep !in b
    ensures Split(a + [sep] + b, sep) == [a, b]
  {
    SplitFirst(a, sep, b);
    SplitFirst(b, sep, "");
  }

  lemma EmptyAppend(a: seq<string>, b: seq<string>)
    ensures [""] + (a + b) == [""] + a + b
  {}

  lemma {:induction false} SplitAppend(a: string, sep: char, b: string)
    ensures Split(a + [sep] + b, sep) == Split(a, sep) + Split(b, sep)
  {
    var s := a + [sep] + b;
    if a == "" {
      assert s[1..] == b;
    } else {
      SplitAppend(a[1..], sep, b);
      assert s[0] == a[0] && s[1..] == a[1..] + [sep] + b;
      PushAppend(a[0], Split(a[1..], sep), Split(b, sep));
      EmptyAppend(Split(a[1..], sep), Split(b, sep));
    }
  }

  lemma {:induction false} SplitJoin(parts: seq<string>, sep: char)
    requires parts != [] && Without(parts, sep)
    ensures Split(Join(parts, [sep]), sep) == parts
  {
    assert parts == [parts[0]] + parts[1..];
    if |parts| == 1 {
      SplitFirst(parts[0], sep, "");
    } else {
      SplitJoin(parts[1..], sep);
      SplitFirst(parts[0], sep, Join(parts[1..], [sep]));
    }
  }

  lemma {:induction false} SplitParts(s: string, sep: char)
    ensures Without(Split(s, sep), sep)
  {
    if s != "" {
      SplitParts(s[1..], sep);
    }
  }

  lemma EmptyEnds(s: string, sep: char)
    ensures s == "" || s[0] == sep || s[|s| - 1] == sep ==> "" in Split(s, sep)
  {
    var parts := Split(s, sep);
    if s != "" && s[|s| - 1] == sep {
      SplitAppend(s[..|s| - 1], sep, "");
      assert s == s[..|s| - 1] + [sep] + "";
      assert "" == parts[|parts| - 1];
    } else {
      assert parts[0] in parts;
    }
  }

  lemma {:induction false} JoinSplit(s: string, sep: char)
    ensures Join(Split(s, sep), [sep]) == s
  {
    if s != "" {
      JoinSplit(s[1..], sep);
      var rest := Split(s[1..], sep);
      if s[0] == sep {
        assert Split(s, sep)[1..] == rest;
      } else {
        assert Split(s, sep)[1..] == rest[1..];
      }
    }
  }

  /** What one part or two say of the string. */
  lemma FewParts(s: string, sep: char)
    ensures |Split(s, sep)| == 1 ==> Split(s, sep)[0] == s && sep !in s
    ensures |Split(s, sep)| == 2 ==>
      var a, b := Split(s, sep)[0], Split(s, sep)[1];
      s == a + [sep] + b && sep !in a && sep !in b
  {
    var parts := Split(s, sep);
    JoinSplit(s, sep);
    SplitParts(s, sep);
    assert parts[0] in parts;
    if |parts| == 2 {
      assert parts[1] in parts && parts[1..] == [parts[1]];
    }
  }

  lemma {:induction false} JoinSnoc(parts: seq<string>, last: string, sep: string)
    requires parts != []
    ensures Join(parts + [last], sep) == Join(parts, sep) + sep + last
  {
    var all := parts + [last];
    if |parts| == 1 {
      assert all[1..] == [last];
    } else {
      JoinSnoc(parts[1..], last, sep);
      assert all[1..] == parts[1..] + [last];
    }
  }

  /** Separator-free parts can be read back from their join. */
  lemma JoinInjective(a: seq<string>, b: seq<string>, sep: char)
    requires a != [] && b != [] && Without(a, sep) && Without(b, sep)
    requires Join(a, [sep]) == Join(b, [sep])
    ensures a == b
  {
    SplitJoin(a, sep);
    SplitJoin(b, sep);
  }
}
