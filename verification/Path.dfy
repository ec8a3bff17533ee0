/** Path arithmetic on plain strings. */
module Path {
  import opened Wrappers
  import Strings

  predicate StartsWith(s: string, prefix: string) {
    prefix <= s
  }

  predicate EndsWithSlash(s: string) {
    s != "" && s[|s| - 1] == '/'
  }

  predicate IsAbsolute(self: string) {
    StartsWith(self, "/")
  }

  function DropTrailingSlash(s: string): string {
    if EndsWithSlash(s) then s[..|s| - 1] else s
  }

  function DropLeadingSlash(s: string): string {
    if IsAbsolute(s) then s[1..] else s
  }

  /** The two sides with one slash between them, and at most one slash dropped at the end. */
  function Join(self: string, other: string): string {
    DropTrailingSlash(DropTrailingSlash(self) + "/" + DropLeadingSlash(other))
  }

  method JoinInPlace(self: string, other: string) returns (p: string)
    ensures p == Join(self, other)
  {
    var weHaveSlash, otherHasSlash := EndsWithSlash(self), StartsWith(other, "/");
    var rest := other;
    p := self;
    if weHaveSlash && otherHasSlash {
      rest := rest[1..];
    } else if !weHaveSlash && !otherHasSlash {
      p := p + "/";
    }
    p := p + rest;
    assert p == DropTrailingSlash(self) + "/" + DropLeadingSlash(other);
    if EndsWithSlash(p) {
      p := p[..|p| - 1];
    }
  }

  predicate IsName(part: string) {
    part != "" && part != "." && part != ".."
  }

  /** No empty, "." or ".." component. */
  predicate IsResolved(self: string) {
    self == "/" || forall part | part in Strings.Split(DropLeadingSlash(self), '/') :: IsName(part)
  }

  method CheckResolved(self: string) returns (resolved: bool)
    ensures resolved == IsResolved(self)
  {
    var rest := self;
    if IsAbsolute(rest) {
      if rest == "/" {
        return true;
      }
      rest := rest[1..];
    }
    var parts := Strings.Split(rest, '/');
    assert rest == DropLeadingSlash(self) && self != "/";
    for i := 0 to |parts|
      invariant forall j | 0 <= j < i :: IsName(parts[j])
    {
      if parts[i] == "" || parts[i] == "." || parts[i] == ".." {
        assert parts[i] in parts && !IsName(parts[i]);
        return false;
      }
    }
    return true;
  }

  /** A test on the characters: nothing is returned where the source's assertions abort. */
  function IsChildOf(self: string, other: string): Option<bool> {
    if IsAbsolute(self) && IsResolved(self) && IsAbsolute(other) && IsResolved(other)
    then Some(StartsWith(self, other))
    else None
  }

  /** Nothing is returned where the source aborts, or where `substr` throws. */
  function RelativeTo(self: string, other: string): Option<string> {
    if IsChildOf(self, other) == Some(true) && |other| + 1 <= |self| then Some(self[|other| + 1..]) else None
  }

  predicate IsRoot(root: string) {
    IsAbsolute(root) && IsResolved(root) && root != "/"
  }

  predicate IsRelative(r: string) {
    IsResolved(r) && !IsAbsolute(r)
  }

  /** What a resolved path's ends look like. */
  lemma ResolvedEnds(s: string)
    requires IsResolved(s) && s != "/"
    ensures DropLeadingSlash(s) != "" && !IsAbsolute(DropLeadingSlash(s)) && !EndsWithSlash(s)
  {
    Strings.EmptyEnds(DropLeadingSlash(s), '/');
  }

  /** A root and a relative path join to their text with a slash between, absolute and resolved. */
  lemma JoinRoot(root: string, r: string)
    requires IsRoot(root) && IsRelative(r)
    ensures Join(root, r) == root + "/" + r && IsRoot(Join(root, r))
  {
    ResolvedEnds(root);
    ResolvedEnds(r);
    var a, p := root[1..], root + "/" + r;
    Strings.SplitAppend(a, '/', r);
    assert DropLeadingSlash(p) == a + "/" + r;
  }

  /** A request's path is joined below the root, although it is absolute itself. */
  lemma JoinAbsolute(root: string, p: string)
    requires IsRoot(root) && IsRoot(p)
    ensures Join(root, p) == root + p && IsRoot(Join(root, p))
    ensures Join(root, "/") == root && Join("/", p) == p
  {
    ResolvedEnds(root);
    ResolvedEnds(p);
    var r := p[1..];
    assert DropLeadingSlash(r) == r && p == "/" + r;
    JoinRoot(root, r);
    assert Join(root, p) == Join(root, r);
    assert root + "/" + r == root + p;
    assert root + "/" + "" == root + "/" && (root + "/")[..|root|] == root;
    assert DropTrailingSlash("/") == "" && "" + "/" + r == p;
  }

  /** The two joined are resolved unless both are "/", which join to the empty path. */
  lemma JoinResolvedExactly(root: string, p: string)
    requires IsAbsolute(root) && IsResolved(root) && IsAbsolute(p) && IsResolved(p)
    ensures IsResolved(Join(root, p)) <==> root != "/" || p != "/"
    ensures Join(root, p) == (if root == "/" then "" else root) + (if p == "/" then "" else p)
  {
    if root != "/" && p != "/" {
      JoinAbsolute(root, p);
    } else if root != "/" {
      JoinAbsolute(root, root);
      assert root + "" == root;
    } else if p != "/" {
      JoinAbsolute(p, p);
      assert "" + p == p;
    } else {
      ResolvedExactly("");
      assert Strings.Split("", '/')[0] == "";
    }
  }

  /** However many of the two sides bring a slash, there is one between them, and none at the end
      unless the right side ends with more than one. */
  lemma JoinExactly(s: string, o: string)
    requires (s == "" || s[|s| - 1] != '/') && (o == "" || o[0] != '/')
    ensures Join(s, o) == Join(s + "/", o) == Join(s, "/" + o) == Join(s + "/", "/" + o)
    ensures Join(s, o) == if o == "" then s else if o[|o| - 1] == '/' then s + "/" + o[..|o| - 1] else s + "/" + o
  {
    var p := s + "/" + o;
    assert DropTrailingSlash(s) == s && DropTrailingSlash(s + "/") == s;
    assert DropLeadingSlash(o) == o && DropLeadingSlash("/" + o) == o;
    if o == "" {
      assert p == s + "/" && p[..|s|] == s;
    } else {
      assert p[|p| - 1] == o[|o| - 1] && p[..|p| - 1] == s + "/" + o[..|o| - 1];
    }
  }

  /** What is refused: an empty, "." or ".." component behind at most one slash at the front. */
  lemma ResolvedExactly(self: string)
    ensures var parts := Strings.Split(if self != "" && self[0] == '/' then self[1..] else self, '/');
      IsResolved(self) <==> self == "/" || ("" !in parts && "." !in parts && ".." !in parts)
  {
    assert IsAbsolute(self) <==> self != "" && self[0] == '/';
    var parts := Strings.Split(DropLeadingSlash(self), '/');
    assert !IsName("") && !IsName(".") && !IsName("..");
    if "" !in parts && "." !in parts && ".." !in parts {
      forall part | part in parts ensures IsName(part) {}
    }
  }

  lemma {:induction false} LastSlash(s: string) returns (i: nat)
    requires '/' in s
    ensures i < |s| && s[i] == '/' && '/' !in s[i + 1..]
    decreases |s|
  {
    if s[|s| - 1] == '/' {
      i := |s| - 1;
    } else {
      i := LastSlash(s[..|s| - 1]);
      assert s[i + 1..] == s[..|s| - 1][i + 1..] + [s[|s| - 1]];
    }
  }

  /** A first part of a relative path is refused exactly if what is left of its last component is
      empty, "." or "..". */
  lemma FirstPartResolved(r: string, n: nat)
    requires IsRelative(r) && n <= |r| && '/' !in r[..n]
    ensures (forall part | part in Strings.Split(r[..n], '/') :: IsName(part)) <==> IsName(r[..n])
  {
    Strings.SplitFirst(r[..n], '/', "");
  }

  lemma LaterPartResolved(r: string, n: nat, i: nat)
    requires IsRelative(r) && i < n <= |r| && r[i] == '/' && '/' !in r[i + 1..n]
    ensures (forall part | part in Strings.Split(r[..n], '/') :: IsName(part)) <==> IsName(r[i + 1..n])
  {
    var a, b, rest := r[..i], r[i + 1..n], r[i + 1..];
    assert r == a + ['/'] + rest && r[..n] == a + ['/'] + b;
    ResolvedEnds(r);
    Strings.SplitAppend(a, '/', rest);
    Strings.SplitAppend(a, '/', b);
    Strings.SplitFirst(b, '/', "");
    assert b in Strings.Split(r[..n], '/');
    forall part | part in Strings.Split(a, '/') ensures IsName(part) {
      assert part in Strings.Split(r, '/');
    }
  }

  /** A first part of an absolute path is refused exactly if it is empty, or is not "/" and ends
      with a slash, or with "." or ".." as a component. */
  predicate EndsUnresolved(p: string) {
    p == "" || (p != "/" && (EndsWith(p, "/") || EndsWith(p, "/.") || EndsWith(p, "/..")))
  }

  predicate EndsWith(s: string, end: string) {
    |end| <= |s| && s[|s| - |end|..] == end
  }

  lemma CutResolvedExactly(p: string, n: nat)
    requires IsRoot(p) && n <= |p|
    ensures IsResolved(p[..n]) <==> !EndsUnresolved(p[..n])
  {
    if n == 0 {
      assert p[..n] == "";
      ResolvedExactly("");
    } else if n == 1 {
      assert p[..n] == "/";
    } else {
      ResolvedEnds(p);
      var r, cut := p[1..], p[..n];
      assert cut[1..] == r[..n - 1] && DropLeadingSlash(cut) == r[..n - 1] && cut[0] == '/';
      if '/' in r[..n - 1] {
        var i := LastSlash(r[..n - 1]);
        assert r[i + 1..n - 1] == r[..n - 1][i + 1..] == cut[i + 2..];
        LaterPartResolved(r, n - 1, i);
        LastComponent(cut, i + 1);
      } else {
        FirstPartResolved(r, n - 1);
        LastComponent(cut, 0);
      }
    }
  }

  lemma LastComponent(p: string, i: nat)
    requires i + 1 <= |p| && p[i] == '/' && '/' !in p[i + 1..] && |p| > 1
    ensures IsName(p[i + 1..]) <==> !EndsUnresolved(p)
  {
    EndsWithLast(p, i, "");
    EndsWithLast(p, i, ".");
    EndsWithLast(p, i, "..");
    assert "/" + "" == "/" && "/" + "." == "/." && "/" + ".." == "/..";
  }

  lemma EndsWithLast(p: string, i: nat, x: string)
    requires i < |p| && p[i] == '/' && '/' !in p[i + 1..] && '/' !in x
    ensures EndsWith(p, "/" + x) <==> p[i + 1..] == x
  {
    assert p[i..] == "/" + p[i + 1..];
    var j := |p| - |x| - 1;
    if j >= 0 && p[j..] == "/" + x {
      assert p[j] == ("/" + x)[0];
      OnlySlash(p, i, j);
      SlashIsFirst(p, x, j, i);
    }
  }

  lemma OnlySlash(p: string, i: nat, j: nat)
    requires i < |p| && '/' !in p[i + 1..] && j < |p| && p[j] == '/'
    ensures j <= i
  {
    if j > i {
      InTail(p, i, j);
    }
  }

  lemma InTail(p: string, i: nat, j: nat)
    requires i < j < |p|
    ensures p[j] in p[i + 1..]
  {
    assert p[i + 1..][j - i - 1] == p[j];
  }

  lemma SlashIsFirst(p: string, x: string, j: nat, i: nat)
    requires j <= i < |p| && p[j..] == "/" + x && '/' !in x && p[i] == '/'
    ensures i == j
  {
    assert p[j + 1..] == p[j..][1..] == x;
    if i > j {
      InTail(p, j, i);
    }
  }

  lemma JoinRelative(a: string, b: string)
    requires IsRelative(a) && IsRelative(b)
    ensures Join(a, b) == a + "/" + b && IsRelative(Join(a, b))
  {
    ResolvedEnds(a);
    ResolvedEnds(b);
    Strings.SplitAppend(a, '/', b);
  }

  lemma JoinAssociative(root: string, a: string, b: string)
    requires IsRoot(root) && IsRelative(a) && IsRelative(b)
    ensures Join(Join(root, a), b) == Join(root, Join(a, b))
  {
    JoinRoot(root, a);
    JoinRelative(a, b);
    JoinRoot(Join(root, a), b);
    JoinRoot(root, Join(a, b));
    assert (root + "/" + a) + "/" + b == root + "/" + (a + "/" + b);
  }

  lemma RelativeToUndoesJoin(root: string, r: string)
    requires IsRoot(root) && IsRelative(r)
    ensures RelativeTo(Join(root, r), root) == Some(r)
  {
    JoinRoot(root, r);
    assert (root + "/" + r)[|root| + 1..] == r;
  }

  /** On paths the source accepts, the law holds exactly below a base other than "/" and at a
      component boundary: `IsChildOf` compares characters, and `RelativeTo` drops one more. */
  lemma JoinUndoesRelativeToExactly(p: string, base: string)
    requires IsChildOf(p, base) == Some(true)
    ensures (RelativeTo(p, base).Some? && Join(base, RelativeTo(p, base).value) == p)
      <==> (base != "/" && |base| < |p| && p[|base|] == '/')
  {
    if |base| + 1 <= |p| {
      var r := p[|base| + 1..];
      if base == "/" {
        assert |Join(base, r)| < |p|;
      } else {
        ResolvedEnds(base);
        ResolvedEnds(p);
        if p[|base|] == '/' {
          TailIsRelative(base, r, p);
        } else {
          assert |Join(base, r)| < |p| || Join(base, r)[|base|] == '/';
        }
      }
    }
  }

  lemma TailIsRelative(base: string, r: string, p: string)
    requires IsRoot(base) && IsRoot(p) && p == base + "/" + r
    ensures Join(base, r) == p
  {
    var a := base[1..];
    assert p[1..] == a + ['/'] + r;
    Strings.SplitAppend(a, '/', r);
    var parts := Strings.Split(r, '/');
    assert parts[0] in Strings.Split(p[1..], '/');
    Strings.EmptyEnds(r, '/');
    assert forall part | part in parts :: part in Strings.Split(p[1..], '/');
    assert DropLeadingSlash(p) == p[1..] && p != "/";
    assert forall part | part in parts :: IsName(part);
    assert r != "" && r[0] != '/' && DropLeadingSlash(r) == r;
    JoinRoot(base, r);
  }

  /** A sibling whose name extends the base's passes `IsChildOf`, and loses a character. */
  lemma SiblingIsTakenForChild()
    ensures IsChildOf("/ab", "/a") == Some(true) && RelativeTo("/ab", "/a") == Some("")
  {
    OneComponentResolved("ab");
    OneComponentResolved("a");
    assert "/" + "ab" == "/ab" && "/" + "a" == "/a" && "/a" <= "/ab";
    assert |"/a"| == 2 && |"/ab"| == 3 && "/ab"[3..] == "";
  }

  lemma OneComponentResolved(name: string)
    requires IsName(name) && '/' !in name
    ensures IsAbsolute("/" + name) && IsResolved("/" + name)
  {
    var path := "/" + name;
    Strings.SplitFirst(name, '/', "");
    assert path[0] == '/' && path[1..] == name && DropLeadingSlash(path) == name;
    assert Strings.Split(name, '/') == [name];
  }

  predicate IsComponent(name: string) {
    IsName(name) && '/' !in name
  }

  predicate AreComponents(names: seq<string>) {
    forall n | n in names :: IsComponent(n)
  }

  lemma ComponentsResolved(names: seq<string>)
    requires names != [] && AreComponents(names)
    ensures IsRelative(Strings.Join(names, "/"))
  {
    var s := Strings.Join(names, "/");
    Strings.SplitJoin(names, '/');
    Strings.EmptyEnds(s, '/');
    assert forall part | part in names :: IsComponent(part);
    assert s != "" && s[0] != '/';
    assert DropLeadingSlash(s) == s;
  }

  /** The path of an object under `root`, one component at a time as the crawler builds it. */
  function Extend(root: string, names: seq<string>): string {
    if names == [] then root else Join(Extend(root, names[..|names| - 1]), names[|names| - 1])
  }

  lemma {:induction false} ExtendText(root: string, names: seq<string>)
    requires IsRoot(root) && AreComponents(names)
    ensures Extend(root, names) == if names == [] then root else root + "/" + Strings.Join(names, "/")
  {
    if names != [] {
      var front, last := names[..|names| - 1], names[|names| - 1];
      assert names == front + [last];
      ExtendText(root, front);
      ComponentsResolved([last]);
      if front == [] {
        JoinRoot(root, last);
      } else {
        ComponentsResolved(front);
        var r := Strings.Join(front, "/");
        JoinAssociative(root, r, last);
        JoinRelative(r, last);
        JoinRoot(root, r);
        JoinRoot(root, r + "/" + last);
        Strings.JoinSnoc(front, last, "/");
      }
    }
  }

  /** It is the slash-joined list of names below the root, and `RelativeTo` gives that list back. */
  lemma ExtendIsJoined(root: string, names: seq<string>)
    requires IsRoot(root) && AreComponents(names) && names != []
    ensures var r := Strings.Join(names, "/");
      && Extend(root, names) == root + "/" + r && IsRoot(Extend(root, names))
      && RelativeTo(Extend(root, names), root) == Some(r)
      && IsRelative(r)
  {
    var r := Strings.Join(names, "/");
    ExtendText(root, names);
    ComponentsResolved(names);
    JoinRoot(root, r);
    RelativeToUndoesJoin(root, r);
  }
}
