/** The two path validators: string tests on cleaned absolute paths, read as tests on path components. */
module PathContainment {
  import opened Text

  // ---------------------------------------------------------------- filepath, lexically, on slash-separated paths

  function FirstSlash(s: string): (i: nat)
    ensures i <= |s| && '/' !in s[..i] && (i < |s| ==> s[i] == '/')
  {
    if s == "" || s[0] == '/' then 0 else 1 + FirstSlash(s[1..])
  }

  /** strings.Split(s, "/"). */
  function Split(s: string): (parts: seq<string>)
    ensures |parts| >= 1 && forall i :: 0 <= i < |parts| ==> '/' !in parts[i]
    decreases |s|
  {
    var i := FirstSlash(s);
    if i == |s| then [s] else [s[..i]] + Split(s[i + 1..])
  }

  function JoinSlash(parts: seq<string>): string {
    if parts == [] then "" else if |parts| == 1 then parts[0] else parts[0] + "/" + JoinSlash(parts[1..])
  }

  /** What one component does to the component stack of filepath.Clean. */
  function Enter(p: string, stack: seq<string>, rooted: bool): seq<string> {
    if p == "" || p == "." then stack
    else if p != ".." then stack + [p]
    else if stack != [] && stack[|stack| - 1] != ".." then stack[..|stack| - 1]
    else if rooted then stack else stack + [p]
  }

  function Resolve(parts: seq<string>, stack: seq<string>, rooted: bool): seq<string>
    decreases |parts|
  {
    if parts == [] then stack else Resolve(parts[1..], Enter(parts[0], stack, rooted), rooted)
  }

  predicate Rooted(p: string) {
    p != "" && p[0] == '/'
  }

  function Clean(p: string): string {
    var stack := Resolve(Split(p), [], Rooted(p));
    if Rooted(p) then "/" + JoinSlash(stack) else if stack == [] then "." else JoinSlash(stack)
  }

  /** filepath.Join of two elements: empty leading elements are ignored. */
  function Join(a: string, b: string): string {
    if a != "" then Clean(a + "/" + b) else if b != "" then Clean(b) else ""
  }

  /** filepath.Abs with working directory `cwd`. */
  function Abs(cwd: string, p: string): string {
    if Rooted(p) then Clean(p) else Join(cwd, p)
  }

  // ---------------------------------------------------------------- the validators

  datatype Verdict = EmptyPath | Outside | Protected | Allowed(abs: string)

  /** `ToolDispatcher.ValidatePath`, once both paths are absolute. */
  function DispatcherCheck(abs: string, ws: string): Verdict {
    if !HasPrefix(abs, ws + "/") && abs != ws then Outside
    else if Contains(abs, ".git") || Contains(abs, ".aetronyx") then Protected
    else Allowed(abs)
  }

  /** filepath.Rel of a path inside the workspace. */
  function Rel(ws: string, abs: string): string
    requires HasPrefix(abs + "/", ws + "/")
  {
    TestsAgree(abs, ws);
    if abs == ws then "." else abs[|ws| + 1..]
  }

  /** `ValidatePath` of the write path, once both paths are absolute. */
  function WriteCheck(abs: string, ws: string): Verdict {
    if !HasPrefix(abs + "/", ws + "/") then Outside
    else
      var top := Split(Rel(ws, abs))[0];
      if top == ".git" || top == ".aetronyx" then Protected else Allowed(abs)
  }

  function DispatcherValidatePath(cwd: string, workspace: string, path: string): Verdict {
    if path == "" then EmptyPath else DispatcherCheck(Abs(cwd, Join(workspace, path)), Abs(cwd, workspace))
  }

  function WriteValidatePath(cwd: string, workspace: string, path: string): Verdict {
    if path == "" then EmptyPath else WriteCheck(Abs(cwd, Join(workspace, path)), Abs(cwd, workspace))
  }

  // ---------------------------------------------------------------- absolute paths are rendered component lists

  /** A real directory or file name. */
  predicate Plain(name: string) {
    name != "" && name != "." && name != ".." && '/' !in name
  }

  predicate AllPlain(names: seq<string>) {
    forall i :: 0 <= i < |names| ==> Plain(names[i])
  }

  function Render(names: seq<string>): string {
    "/" + JoinSlash(names)
  }

  lemma {:induction false} ResolvePlain(parts: seq<string>, stack: seq<string>)
    requires AllPlain(stack) && forall i :: 0 <= i < |parts| ==> '/' !in parts[i]
    ensures AllPlain(Resolve(parts, stack, true))
    decreases |parts|
  {
    if parts != [] {
      ResolvePlain(parts[1..], Enter(parts[0], stack, true));
    }
  }

  /** The component lists behind an absolute path. */
  function Components(cwd: string, p: string): seq<string> {
    Resolve(Split(if Rooted(p) then p else cwd + "/" + p), [], true)
  }

  lemma AbsIsRendered(cwd: string, p: string)
    requires Rooted(cwd)
    ensures Abs(cwd, p) == Render(Components(cwd, p)) && AllPlain(Components(cwd, p))
  {
    hide Split, Resolve;
    ResolvePlain(Split(if Rooted(p) then p else cwd + "/" + p), []);
  }

  // ---------------------------------------------------------------- string prefix is component prefix

  /** The two string tests are one test, on any two strings. */
  lemma TestsAgree(abs: string, ws: string)
    ensures HasPrefix(abs + "/", ws + "/") <==> HasPrefix(abs, ws + "/") || abs == ws
  {
    if HasPrefix(abs, ws + "/") {
      assert (abs + "/")[..|ws| + 1] == abs[..|ws| + 1];
    }
    if HasPrefix(abs + "/", ws + "/") {
      assert (abs + "/")[..|ws| + 1] == ws + "/";
      if |ws| < |abs| {
        assert abs[..|ws| + 1] == ws + "/";
      } else {
        assert abs == (abs + "/")[..|ws|] == (ws + "/")[..|ws|] == ws;
      }
    }
  }

  /** Every component followed by a slash. */
  function Slashed(names: seq<string>): string {
    if names == [] then "" else names[0] + "/" + Slashed(names[1..])
  }

  lemma {:induction false} JoinIsSlashed(names: seq<string>)
    requires names != []
    ensures JoinSlash(names) + "/" == Slashed(names)
  {
    if |names| > 1 {
      JoinIsSlashed(names[1..]);
      assert JoinSlash(names) + "/" == names[0] + "/" + (JoinSlash(names[1..]) + "/");
    }
  }

  /** Two names, each ended by its first slash, are equal if one text starts with the other. */
  lemma SameFirstName(a: string, x: string, b: string, y: string)
    requires '/' !in a && '/' !in b && HasPrefix(a + "/" + x, b + "/" + y)
    ensures a == b && HasPrefix(x, y)
  {
    var s, t := a + "/" + x, b + "/" + y;
    assert s[..|t|] == t && s[|a|] == '/' && t[|b|] == '/';
    assert s[|b|] == t[|b|];
    assert a == s[..|a|] == t[..|a|] == b;
    assert x == s[|a| + 1..] && y == t[|a| + 1..];
    assert s[|a| + 1..][..|y|] == s[..|t|][|a| + 1..];
  }

  lemma PrefixUnderName(a: string, x: string, y: string)
    requires HasPrefix(x, y)
    ensures HasPrefix(a + "/" + x, a + "/" + y)
  {
    assert (a + "/" + x)[..|a + "/" + y|] == a + "/" + x[..|y|];
  }

  lemma {:induction false} SlashedPrefix(t: seq<string>, w: seq<string>)
    requires AllPlain(t) && AllPlain(w)
    ensures HasPrefix(Slashed(t), Slashed(w)) <==> w <= t
  {
    if w == [] {
      assert Slashed(t)[..0] == "";
    } else if t == [] {
      assert |Slashed(w)| > 0;
    } else {
      SlashedPrefix(t[1..], w[1..]);
      assert w == [w[0]] + w[1..] && t == [t[0]] + t[1..];
      if w <= t {
        assert w[1..] <= t[1..];
        PrefixUnderName(t[0], Slashed(t[1..]), Slashed(w[1..]));
      }
      if HasPrefix(Slashed(t), Slashed(w)) {
        SameFirstName(t[0], Slashed(t[1..]), w[0], Slashed(w[1..]));
      }
    }
  }

  lemma RenderedPrefix(t: seq<string>, w: seq<string>)
    requires AllPlain(t) && AllPlain(w)
    ensures HasPrefix(Render(t) + "/", Render(w) + "/") <==> if w == [] then t == [] else w <= t
  {
    hide JoinSlash, Slashed;
    if w != [] { JoinIsSlashed(w); SlashedHead(w); }
    if t != [] { JoinIsSlashed(t); SlashedHead(t); }
    SlashedPrefix(t, w);
    EmptyJoin();
    var a, b := Render(t) + "/", Render(w) + "/";
    assert a == if t == [] then "//" else "/" + Slashed(t);
    assert b == if w == [] then "//" else "/" + Slashed(w);
    if w == [] || t == [] {
      if HasPrefix(a, b) { assert a[1] == a[..|b|][1] == b[1]; }
      if w == t { assert a[..2] == b; }
    } else {
      PrefixUnderSlash(Slashed(t), Slashed(w));
    }
  }

  lemma EmptyJoin()
    ensures JoinSlash([]) == ""
  {
  }

  lemma SlashedHead(names: seq<string>)
    requires AllPlain(names) && names != []
    ensures Slashed(names) != "" && Slashed(names)[0] != '/'
  {
    assert names[0][0] in names[0];
    assert Slashed(names)[0] == names[0][0];
  }

  lemma PrefixUnderSlash(s: string, p: string)
    ensures HasPrefix("/" + s, "/" + p) <==> HasPrefix(s, p)
  {
    if |p| <= |s| { assert ("/" + s)[..|"/" + p|] == "/" + s[..|p|]; }
    if HasPrefix("/" + s, "/" + p) {
      assert s[..|p|] == ("/" + s)[..|p| + 1][1..] == p;
    }
  }

  /** Both string tests hold exactly when the workspace's components begin the target's. A workspace at the file
      system root is the exception: there they admit the root alone. */
  lemma ContainmentIsByComponents(cwd: string, workspace: string, target: string)
    requires Rooted(cwd)
    ensures var abs, ws := Abs(cwd, target), Abs(cwd, workspace);
            var t, w := Components(cwd, target), Components(cwd, workspace);
            && (HasPrefix(abs + "/", ws + "/") <==> if w == [] then t == [] else w <= t)
            && (HasPrefix(abs, ws + "/") || abs == ws <==> if w == [] then t == [] else w <= t)
  {
    AbsIsRendered(cwd, target);
    AbsIsRendered(cwd, workspace);
    RenderedPrefix(Components(cwd, target), Components(cwd, workspace));
    TestsAgree(Abs(cwd, target), Abs(cwd, workspace));
  }

  // ---------------------------------------------------------------- the two validators compared

  lemma {:induction false} ContainsAt(s: string, i: nat, sub: string)
    requires i + |sub| <= |s| && s[i..i + |sub|] == sub
    ensures Contains(s, sub)
  {
    if i == 0 {
      assert s[..|sub|] == sub;
    } else {
      assert s[1..][i - 1..i - 1 + |sub|] == s[i..i + |sub|];
      ContainsAt(s[1..], i - 1, sub);
    }
  }

  lemma SplitHead(s: string)
    ensures var top := Split(s)[0]; |top| <= |s| && s[..|top|] == top
  {
  }

  /** The dispatcher accepts exactly the paths the write validator accepts whose absolute form does not contain
      ".git" or ".aetronyx" anywhere; so whatever the dispatcher accepts can be written. */
  lemma DispatcherIsStricter(cwd: string, workspace: string, path: string)
    ensures var tool, write := DispatcherValidatePath(cwd, workspace, path), WriteValidatePath(cwd, workspace, path);
            && (tool.Allowed? <==> write.Allowed? && !Contains(write.abs, ".git") && !Contains(write.abs, ".aetronyx"))
            && (tool.Allowed? ==> write == tool)
            && (tool == Outside <==> write == Outside)
            && (tool == EmptyPath <==> write == EmptyPath)
  {
    hide Contains, Split, Abs, Join, HasPrefix;
    if path != "" {
      var abs, ws := Abs(cwd, Join(workspace, path)), Abs(cwd, workspace);
      TestsAgree(abs, ws);
      if HasPrefix(abs + "/", ws + "/") {
        ProtectedTopIsContained(abs, ws);
      }
    }
  }

  lemma ProtectedTopIsContained(abs: string, ws: string)
    requires HasPrefix(abs + "/", ws + "/")
    ensures Split(Rel(ws, abs))[0] == ".git" ==> Contains(abs, ".git")
    ensures Split(Rel(ws, abs))[0] == ".aetronyx" ==> Contains(abs, ".aetronyx")
  {
    hide Contains, Split;
    TestsAgree(abs, ws);
    var rel := Rel(ws, abs);
    var top := Split(rel)[0];
    SplitHead(rel);
    if abs == ws {
      assert |top| <= 1;
    } else {
      assert rel[..|top|] == abs[|ws| + 1..|ws| + 1 + |top|];
      ContainsAt(abs, |ws| + 1, top);
    }
  }

  /** What the write validator protects: the first component below the workspace, nothing deeper. */
  lemma WriteProtectsTopComponent(cwd: string, workspace: string, path: string)
    requires Rooted(cwd) && path != ""
    ensures var t, w := Components(cwd, Join(workspace, path)), Components(cwd, workspace);
            WriteValidatePath(cwd, workspace, path) ==
            if !(if w == [] then t == [] else w <= t) then Outside
            else if |t| > |w| && (t[|w|] == ".git" || t[|w|] == ".aetronyx") then Protected
            else Allowed(Abs(cwd, Join(workspace, path)))
  {
    hide Split, Resolve, Join, JoinSlash, Clean;
    var target := Join(workspace, path);
    var t, w := Components(cwd, target), Components(cwd, workspace);
    var abs, ws := Abs(cwd, target), Abs(cwd, workspace);
    ContainmentIsByComponents(cwd, workspace, target);
    AbsIsRendered(cwd, target);
    AbsIsRendered(cwd, workspace);
    if HasPrefix(abs + "/", ws + "/") {
      RelTop(t, w);
    }
  }

  lemma {:induction false} JoinAppend(w: seq<string>, r: seq<string>)
    requires w != [] && r != []
    ensures JoinSlash(w + r) == JoinSlash(w) + "/" + JoinSlash(r)
  {
    assert (w + r)[1..] == w[1..] + r;
    if |w| > 1 {
      JoinAppend(w[1..], r);
    } else {
      assert w[1..] + r == r;
    }
  }

  lemma SplitJoinHead(r: seq<string>)
    requires r != [] && '/' !in r[0]
    ensures Split(JoinSlash(r))[0] == r[0]
  {
    var s := JoinSlash(r);
    assert s[..|r[0]|] == r[0];
    FirstSlashAt(s, |r[0]|);
  }

  lemma FirstSlashAt(s: string, n: nat)
    requires n <= |s| && '/' !in s[..n] && (n < |s| ==> s[n] == '/')
    ensures FirstSlash(s) == n
  {
    if n > 0 {
      assert s[1..][..n - 1] == s[..n][1..];
      assert s[0] == s[..n][0];
      FirstSlashAt(s[1..], n - 1);
    }
  }

  lemma RelTop(t: seq<string>, w: seq<string>)
    requires AllPlain(t) && AllPlain(w) && HasPrefix(Render(t) + "/", Render(w) + "/")
    ensures Split(Rel(Render(w), Render(t)))[0] == if |t| > |w| then t[|w|] else "."
  {
    hide Split, JoinSlash;
    RenderedPrefix(t, w);
    if t == w {
      SplitDot();
    } else {
      var r := t[|w|..];
      assert t == w + r && r[0] == t[|w|];
      JoinAppend(w, r);
      assert Render(t) == Render(w) + "/" + JoinSlash(r);
      assert Render(t)[|Render(w)| + 1..] == JoinSlash(r);
      SplitJoinHead(r);
    }
  }

  lemma SplitDot()
    ensures Split(".")[0] == "."
  {
    FirstSlashAt(".", 1);
  }
}
