/** What cleaning a path does, as rules on its text, and what becomes of a path that climbs out of the workspace. */
module PathRules {
  import opened Text
  import opened PathContainment

  // ---------------------------------------------------------------- splitting and resolving, piece by piece

  /** The first component and the rest. */
  lemma SplitStep(head: string, rest: string)
    requires '/' !in head
    ensures Split(head + "/" + rest) == [head] + Split(rest)
  {
    var s := head + "/" + rest;
    assert s[..|head|] == head && s[|head| + 1..] == rest;
    FirstSlashAt(s, |head|);
  }

  lemma {:induction false} SplitConcat(a: string, b: string)
    ensures Split(a + "/" + b) == Split(a) + Split(b)
    decreases |a|
  {
    hide Split;
    var i := FirstSlash(a);
    if i == |a| {
      assert a[..i] == a;
      SplitStep(a, b);
      SplitName(a);
    } else {
      var head, rest := a[..i], a[i + 1..];
      assert a == head + "/" + rest;
      assert a + "/" + b == head + "/" + (rest + "/" + b);
      SplitStep(head, rest);
      SplitStep(head, rest + "/" + b);
      SplitConcat(rest, b);
      assert [head] + (Split(rest) + Split(b)) == [head] + Split(rest) + Split(b);
    }
  }

  lemma SplitName(n: string)
    requires '/' !in n
    ensures Split(n) == [n]
  {
    assert n[..|n|] == n;
    FirstSlashAt(n, |n|);
  }

  lemma {:induction false} ResolveConcat(x: seq<string>, y: seq<string>, stack: seq<string>, rooted: bool)
    ensures Resolve(x + y, stack, rooted) == Resolve(y, Resolve(x, stack, rooted), rooted)
    decreases |x|
  {
    if x == [] {
      assert x + y == y;
    } else {
      assert (x + y)[1..] == x[1..] + y;
      ResolveConcat(x[1..], y, Enter(x[0], stack, rooted), rooted);
    }
  }

  /** A segment that the component stack does not notice. */
  lemma ResolveSkips(x: seq<string>, skipped: seq<string>, y: seq<string>, rooted: bool)
    requires forall stack :: Resolve(skipped, stack, rooted) == stack
    ensures Resolve(x + skipped + y, [], rooted) == Resolve(x + y, [], rooted)
  {
    hide Resolve;
    ResolveConcat(x + skipped, y, [], rooted);
    ResolveConcat(x, skipped, [], rooted);
    ResolveConcat(x, y, [], rooted);
  }

  lemma EmptySegment(stack: seq<string>, rooted: bool)
    ensures Resolve([""], stack, rooted) == stack && Resolve(["."], stack, rooted) == stack
  {
  }

  lemma ThereAndBack(n: string, stack: seq<string>, rooted: bool)
    requires Plain(n)
    ensures Resolve([n, ".."], stack, rooted) == stack
  {
    assert [n, ".."][1..] == [".."] && [".."][1..] == [];
    assert (stack + [n])[..|stack + [n]| - 1] == stack;
  }

  lemma CleanBySegments(p: string, q: string)
    requires Rooted(p) == Rooted(q) && Resolve(Split(p), [], Rooted(p)) == Resolve(Split(q), [], Rooted(q))
    ensures Clean(p) == Clean(q)
  {
  }

  // ---------------------------------------------------------------- the rules

  /** Several slashes are one. */
  lemma DoubledSlash(a: string, b: string)
    ensures Clean(a + "//" + b) == Clean(a + "/" + b)
  {
    hide Resolve, Split, Clean;
    var p, q := a + "//" + b, a + "/" + b;
    assert p == a + "/" + "" + "/" + b;
    SplitConcat(a + "/" + "", b);
    SplitConcat(a, "");
    SplitConcat(a, b);
    SplitName("");
    forall stack ensures Resolve([""], stack, Rooted(p)) == stack { EmptySegment(stack, Rooted(p)); }
    ResolveSkips(Split(a), [""], Split(b), Rooted(p));
    CleanBySegments(p, q);
  }

  /** A dot component is nothing. */
  lemma DotComponent(a: string, b: string)
    ensures Clean(a + "/./" + b) == Clean(a + "/" + b)
  {
    hide Resolve, Split, Clean;
    var p, q := a + "/./" + b, a + "/" + b;
    assert p == a + "/" + "." + "/" + b;
    SplitConcat(a + "/" + ".", b);
    SplitConcat(a, ".");
    SplitConcat(a, b);
    SplitName(".");
    forall stack ensures Resolve(["."], stack, Rooted(p)) == stack { EmptySegment(stack, Rooted(p)); }
    ResolveSkips(Split(a), ["."], Split(b), Rooted(p));
    CleanBySegments(p, q);
  }

  /** A name and the step back out of it are nothing. */
  lemma NameAndBack(a: string, n: string, b: string)
    requires Plain(n)
    ensures Clean(a + "/" + n + "/../" + b) == Clean(a + "/" + b)
  {
    hide Resolve, Split, Clean;
    var p, q := a + "/" + n + "/../" + b, a + "/" + b;
    assert p == a + "/" + n + "/" + ".." + "/" + b;
    SplitConcat(a + "/" + n + "/" + "..", b);
    SplitConcat(a + "/" + n, "..");
    SplitConcat(a, n);
    SplitConcat(a, b);
    SplitName(n);
    SplitName("..");
    assert Split(a) + [n] + [".."] + Split(b) == Split(a) + [n, ".."] + Split(b);
    forall stack ensures Resolve([n, ".."], stack, Rooted(p)) == stack { ThereAndBack(n, stack, Rooted(p)); }
    ResolveSkips(Split(a), [n, ".."], Split(b), Rooted(p));
    CleanBySegments(p, q);
  }

  /** The root is its own parent. */
  lemma RootParent(b: string)
    ensures Clean("/../" + b) == Clean("/" + b)
  {
    hide Split, Clean;
    var p, q := "/../" + b, "/" + b;
    assert p == "" + "/" + ".." + "/" + b && q == "" + "/" + b;
    SplitConcat("" + "/" + "..", b);
    SplitConcat("", "..");
    SplitConcat("", b);
    SplitName("");
    SplitName("..");
    var front := ["", ".."];
    assert Split(p) == front + Split(b) && Split(q) == [""] + Split(b);
    assert front[1..] == [".."] && [".."][1..] == [];
    ResolveConcat(front, Split(b), [], true);
    ResolveConcat([""], Split(b), [], true);
    CleanBySegments(p, q);
  }

  /** The same at the end of a path. */
  lemma TrailingParts(a: string, n: string)
    requires a != "" && Plain(n)
    ensures Clean(a + "/") == Clean(a) && Clean(a + "/.") == Clean(a) && Clean(a + "/" + n + "/..") == Clean(a)
  {
    hide Resolve, Split, Clean;
    assert a + "/" == a + "/" + "" && a + "/." == a + "/" + "." && a + "/" + n + "/.." == a + "/" + n + "/" + "..";
    SplitConcat(a, "");
    SplitConcat(a, ".");
    SplitConcat(a + "/" + n, "..");
    SplitConcat(a, n);
    SplitName("");
    SplitName(".");
    SplitName("..");
    SplitName(n);
    assert Split(a) + [n] + [".."] == Split(a) + [n, ".."];
    forall stack ensures Resolve([""], stack, Rooted(a)) == stack && Resolve(["."], stack, Rooted(a)) == stack {
      EmptySegment(stack, Rooted(a));
    }
    forall stack ensures Resolve([n, ".."], stack, Rooted(a)) == stack { ThereAndBack(n, stack, Rooted(a)); }
    ResolveConcat(Split(a), [""], [], Rooted(a));
    ResolveConcat(Split(a), ["."], [], Rooted(a));
    ResolveConcat(Split(a), [n, ".."], [], Rooted(a));
    CleanBySegments(a + "/", a);
    CleanBySegments(a + "/.", a);
    CleanBySegments(a + "/" + n + "/..", a);
  }

  lemma {:induction false} SplitJoin(names: seq<string>)
    requires names != [] && forall i :: 0 <= i < |names| ==> '/' !in names[i]
    ensures Split(JoinSlash(names)) == names
  {
    SplitName(names[0]);
    if |names| > 1 {
      SplitJoin(names[1..]);
      SplitConcat(names[0], JoinSlash(names[1..]));
      assert [names[0]] + names[1..] == names;
    } else {
      assert names == [names[0]];
    }
  }

  lemma {:induction false} ResolveNames(names: seq<string>, stack: seq<string>, rooted: bool)
    requires AllPlain(names)
    ensures Resolve(names, stack, rooted) == stack + names
    decreases |names|
  {
    if names == [] {
      assert stack + names == stack;
    } else {
      ResolveNames(names[1..], stack + [names[0]], rooted);
      assert stack + [names[0]] + names[1..] == stack + names;
    }
  }

  lemma EmptyJoin()
    ensures JoinSlash([]) == ""
  {
  }

  /** The components of a rooted list of real names are those names. */
  lemma ResolveRendered(names: seq<string>)
    requires AllPlain(names)
    ensures Rooted(Render(names)) && Resolve(Split(Render(names)), [], true) == names
  {
    hide Split, Resolve;
    var text := JoinSlash(names);
    assert Render(names) == "" + "/" + text;
    hide JoinSlash;
    SplitConcat("", text);
    SplitName("");
    EmptySegment([], true);
    ResolveConcat([""], Split(text), [], true);
    if names == [] {
      EmptyJoin();
    } else {
      SplitJoin(names);
      ResolveNames(names, [], true);
      assert [] + names == names;
    }
  }

  /** A rooted list of real names is clean, and appending a name appends a component. */
  lemma RenderedIsClean(names: seq<string>, n: string)
    requires AllPlain(names) && Plain(n)
    ensures Clean(Render(names)) == Render(names)
    ensures Clean(Render(names) + "/" + n) == Render(names + [n])
  {
    hide Split, Resolve, JoinSlash;
    ResolveRendered(names);
    SplitConcat(Render(names), n);
    SplitName(n);
    ResolveConcat(Split(Render(names)), [n], [], true);
    ResolveNames([n], names, true);
  }

  // ---------------------------------------------------------------- climbing out

  function Ups(k: nat): string {
    if k == 0 then "" else "../" + Ups(k - 1)
  }

  /** k steps up, then down through some names. */
  function Climb(k: nat, down: seq<string>): string {
    Ups(k) + JoinSlash(down)
  }

  function Upper(w: seq<string>, k: nat): seq<string> {
    if k >= |w| then [] else w[..|w| - k]
  }

  lemma {:induction false} ResolveClimb(w: seq<string>, k: nat, down: seq<string>)
    requires AllPlain(w) && AllPlain(down)
    ensures Resolve(Split(Climb(k, down)), w, true) == Upper(w, k) + down
    decreases k
  {
    hide Split, Resolve, JoinSlash, Climb;
    if k == 0 {
      ResolveDown(w, down);
    } else {
      ResolveStepUp(w, k, down);
      var up := Upper(w, 1);
      ResolveClimb(up, k - 1, down);
      assert Upper(up, k - 1) == Upper(w, k);
    }
  }

  lemma ResolveDown(w: seq<string>, down: seq<string>)
    requires AllPlain(w) && AllPlain(down)
    ensures Resolve(Split(Climb(0, down)), w, true) == Upper(w, 0) + down
  {
    hide Split, Resolve;
    assert Climb(0, down) == JoinSlash(down) && Upper(w, 0) == w;
    if down == [] {
      SplitName("");
      EmptySegment(w, true);
    } else {
      SplitJoin(down);
      ResolveNames(down, w, true);
    }
  }

  lemma ResolveStepUp(w: seq<string>, k: nat, down: seq<string>)
    requires k > 0 && AllPlain(w)
    ensures Resolve(Split(Climb(k, down)), w, true) == Resolve(Split(Climb(k - 1, down)), Upper(w, 1), true)
  {
    hide Split, JoinSlash;
    var rest := Climb(k - 1, down);
    assert Climb(k, down) == ".." + "/" + rest;
    SplitConcat("..", rest);
    SplitName("..");
    ResolveConcat([".."], Split(rest), w, true);
    assert Resolve([".."], w, true) == Upper(w, 1) by { assert [".."][1..] == []; }
  }

  /** Where such a path leads from a clean workspace. */
  lemma ClimbLeads(cwd: string, w: seq<string>, k: nat, down: seq<string>)
    requires AllPlain(w) && AllPlain(down)
    ensures Abs(cwd, Render(w)) == Render(w)
    ensures Abs(cwd, Join(Render(w), Climb(k, down))) == Render(Upper(w, k) + down)
  {
    hide Split, Resolve, JoinSlash;
    var path := Climb(k, down);
    ResolveRendered(w);
    SplitConcat(Render(w), path);
    ResolveConcat(Split(Render(w)), Split(path), [], true);
    ResolveClimb(w, k, down);
    assert Clean(Render(w) + "/" + path) == Render(Upper(w, k) + down);
    ResolveRendered(Upper(w, k) + down);
  }

  /** A path that climbs k steps and then goes down is outside exactly when it does not go down again the way it came
      up. Both validators say so, whatever else they test. */
  lemma ClimbingOut(cwd: string, w: seq<string>, k: nat, down: seq<string>)
    requires w != [] && AllPlain(w) && AllPlain(down) && k > 0
    ensures var path, left := Climb(k, down), w[|Upper(w, k)|..];
            && (DispatcherValidatePath(cwd, Render(w), path) == Outside <==> !(left <= down))
            && (WriteValidatePath(cwd, Render(w), path) == Outside <==> !(left <= down))
  {
    hide Split, Resolve, JoinSlash, Clean, Join, Render, Abs, Contains, HasPrefix;
    var path, up := Climb(k, down), Upper(w, k);
    ClimbIsPath(k, down);
    ClimbLeads(cwd, w, k, down);
    var t := up + down;
    RenderedPrefix(t, w);
    TestsAgree(Render(t), Render(w));
    assert w == up + w[|up|..];
    PrefixAfter(up, w[|up|..], down);
  }

  lemma ClimbIsPath(k: nat, down: seq<string>)
    requires k > 0
    ensures Climb(k, down) != ""
  {
  }

  lemma PrefixAfter(common: seq<string>, a: seq<string>, b: seq<string>)
    ensures common + a <= common + b <==> a <= b
  {
    if |a| <= |b| {
      assert (common + b)[..|common + a|] == common + b[..|a|];
      assert (common + b[..|a|])[|common|..] == b[..|a|] && (common + a)[|common|..] == a;
    }
  }

  /** Two paths a caller may not write, from any directory. */
  lemma TraversalRefused(cwd: string)
    ensures DispatcherValidatePath(cwd, "/w", "../outside.txt") == Outside == WriteValidatePath(cwd, "/w", "../outside.txt")
    ensures DispatcherValidatePath(cwd, "/w", "sub/../../outside.txt") == Outside
    ensures WriteValidatePath(cwd, "/w", "sub/../../outside.txt") == Outside
  {
    hide Split, Resolve, Clean, DispatcherCheck, WriteCheck, DispatcherValidatePath, WriteValidatePath, Contains;
    var w, down := ["w"], ["outside.txt"];
    assert Render(w) == "/w" && Climb(1, down) == "../outside.txt" by { assert Ups(1) == "../" + Ups(0); }
    NoSlashInside();
    ClimbingOut(cwd, w, 1, down);
    var path := "sub/../../outside.txt";
    NameAndBack("/w", "sub", "../outside.txt");
    assert "/w" + "/" + path == "/w" + "/" + "sub" + "/../" + "../outside.txt";
    assert Join("/w", path) == Join("/w", "../outside.txt");
    SameJoin(cwd, "/w", path, "../outside.txt");
  }

  lemma SameJoin(cwd: string, workspace: string, p: string, q: string)
    requires p != "" && q != "" && Join(workspace, p) == Join(workspace, q)
    ensures DispatcherValidatePath(cwd, workspace, p) == DispatcherValidatePath(cwd, workspace, q)
    ensures WriteValidatePath(cwd, workspace, p) == WriteValidatePath(cwd, workspace, q)
  {
    hide Join, Abs, DispatcherCheck, WriteCheck;
  }

  lemma NoSlashInside()
    ensures Plain("w") && Plain("outside.txt") && Plain("sub")
  {
  }
}
