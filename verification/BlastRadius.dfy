/** Impact analysis over the import graph: the loops, the sets they compute, and the laws of those sets. */
module BlastRadius {
  import opened Text
  import opened RepoGraph

  datatype FileImpact = FileImpact(path: string, lang: string, reason: string, loc: nat, exported: seq<string>)

  datatype SymbolImpact = SymbolImpact(name: string, definedIn: string, calledBy: seq<string>)

  datatype Report = Report(direct: seq<FileImpact>, importers: seq<FileImpact>, importees: seq<FileImpact>,
                           callers: seq<SymbolImpact>, tests: seq<string>,
                           directCount: nat, importerCount: nat, importeeCount: nat, callerCount: nat, testCount: nat)

  /** filepath.Match, given. */
  type Glob = (string, string) -> bool

  // ---------------------------------------------------------------- the sets

  predicate Matches(glob: Glob, pattern: string, rel: string) {
    glob(pattern, rel) || HasSuffix(rel, pattern) || HasSuffix(rel, "/" + pattern)
  }

  ghost function Direct(nodes: Nodes, glob: Glob, patterns: seq<string>): set<string> {
    set rel | rel in nodes && exists p :: p in patterns && Matches(glob, p, rel)
  }

  ghost function Importers(edges: seq<Edge>, files: set<string>): set<string> {
    set e | e in edges && e.kind == "imports" && e.to in files :: e.from
  }

  ghost function Importees(edges: seq<Edge>, files: set<string>): set<string> {
    set e | e in edges && e.kind == "imports" && e.from in files :: e.to
  }

  ghost function Impacted(nodes: Nodes, edges: seq<Edge>, glob: Glob, patterns: seq<string>): set<string> {
    var d := Direct(nodes, glob, patterns);
    d + Importers(edges, d) + Importees(edges, d)
  }

  predicate IsTestFile(rel: string) {
    Contains(Base(rel), "_test") || HasPrefix(Base(rel), "test_")
  }

  ghost predicate ImportsOneOf(edges: seq<Edge>, rel: string, files: set<string>) {
    exists e :: e in edges && e.from == rel && e.kind == "imports" && e.to in files
  }

  ghost function RelevantTests(nodes: Nodes, edges: seq<Edge>, impacted: set<string>): set<string> {
    set rel | rel in nodes && IsTestFile(rel) && (rel in impacted || ImportsOneOf(edges, rel, impacted))
  }

  // ---------------------------------------------------------------- the loops

  method ExpandGlobs(nodes: Nodes, glob: Glob, patterns: seq<string>) returns (matched: set<string>)
    ensures matched == Direct(nodes, glob, patterns)
  {
    hide Matches;
    matched := {};
    for i := 0 to |patterns|
      invariant matched == Direct(nodes, glob, patterns[..i])
    {
      var todo := nodes.Keys;
      assert forall p :: p in patterns[..i + 1] <==> p in patterns[..i] || p == patterns[i];
      while todo != {}
        invariant todo <= nodes.Keys
        invariant matched <= Direct(nodes, glob, patterns[..i + 1])
        invariant Direct(nodes, glob, patterns[..i]) <= matched
        invariant forall rel :: rel in nodes.Keys - todo && Matches(glob, patterns[i], rel) ==> rel in matched
      {
        var rel :| rel in todo;
        todo := todo - {rel};
        if Matches(glob, patterns[i], rel) {
          matched := matched + {rel};
        }
      }
    }
    assert patterns[..|patterns|] == patterns;
  }

  method FindImporters(edges: seq<Edge>, directSet: set<string>) returns (result: set<string>)
    ensures result == Importers(edges, directSet)
  {
    result := {};
    for i := 0 to |edges|
      invariant result == Importers(edges[..i], directSet)
    {
      assert edges[..i + 1] == edges[..i] + [edges[i]];
      if edges[i].kind == "imports" && edges[i].to in directSet {
        result := result + {edges[i].from};
      }
    }
    assert edges[..|edges|] == edges;
  }

  method FindImportees(edges: seq<Edge>, directSet: set<string>) returns (result: set<string>)
    ensures result == Importees(edges, directSet)
  {
    result := {};
    for i := 0 to |edges|
      invariant result == Importees(edges[..i], directSet)
    {
      assert edges[..i + 1] == edges[..i] + [edges[i]];
      if edges[i].kind == "imports" && edges[i].from in directSet {
        result := result + {edges[i].to};
      }
    }
    assert edges[..|edges|] == edges;
  }

  method ImportsImpacted(edges: seq<Edge>, rel: string, impacted: set<string>) returns (found: bool)
    ensures found <==> ImportsOneOf(edges, rel, impacted)
  {
    for i := 0 to |edges|
      invariant forall k :: 0 <= k < i ==> !(edges[k].from == rel && edges[k].kind == "imports" && edges[k].to in impacted)
    {
      if edges[i].from == rel && edges[i].kind == "imports" && edges[i].to in impacted { return true; }
    }
    return false;
  }

  method FindRelevantTests(nodes: Nodes, edges: seq<Edge>, impacted: set<string>) returns (tests: seq<string>)
    ensures NoDuplicates(tests) && forall t :: t in tests <==> t in RelevantTests(nodes, edges, impacted)
  {
    hide IsTestFile, ImportsOneOf;
    tests := [];
    var todo := nodes.Keys;
    while todo != {}
      invariant todo <= nodes.Keys && NoDuplicates(tests)
      invariant forall t :: t in tests <==> t in RelevantTests(nodes, edges, impacted) && t !in todo
    {
      var rel :| rel in todo;
      assert rel !in tests;
      todo := todo - {rel};
      if !IsTestFile(rel) { continue; }
      if rel in impacted {
        tests := tests + [rel];
        continue;
      }
      var found := ImportsImpacted(edges, rel, impacted);
      if found {
        tests := tests + [rel];
      }
    }
  }

  /** The exported ones among some symbols, in order. */
  function Exports(symbols: seq<Symbol>): seq<Symbol> {
    if symbols == [] then []
    else Exports(symbols[..|symbols| - 1]) +
         if symbols[|symbols| - 1].kind == "export" then [symbols[|symbols| - 1]] else []
  }

  function Names(symbols: seq<Symbol>): seq<string> {
    if symbols == [] then [] else Names(symbols[..|symbols| - 1]) + [symbols[|symbols| - 1].name]
  }

  function ImpactOf(nodes: Nodes, rel: string, reason: string): FileImpact
    requires rel in nodes
  {
    FileImpact(rel, nodes[rel].lang, reason, nodes[rel].loc, Names(Exports(nodes[rel].symbols)))
  }

  /** `impacts` lists the files of `paths`, each once, in some order, with their facts. */
  ghost predicate Lists(nodes: Nodes, impacts: seq<FileImpact>, paths: set<string>, reason: string) {
    && (forall i, j :: 0 <= i < j < |impacts| ==> impacts[i].path != impacts[j].path)
    && (forall i :: 0 <= i < |impacts| ==> impacts[i].path in paths)
    && (forall i :: 0 <= i < |impacts| ==> impacts[i].path in nodes && impacts[i] == ImpactOf(nodes, impacts[i].path, reason))
    && forall p :: p in paths ==> exists i :: 0 <= i < |impacts| && impacts[i].path == p
  }

  /** The inner loop of `toFileImpacts`. */
  method ExportedNames(symbols: seq<Symbol>) returns (names: seq<string>)
    ensures names == Names(Exports(symbols))
  {
    names := [];
    for i := 0 to |symbols|
      invariant names == Names(Exports(symbols[..i]))
    {
      assert symbols[..i + 1][..i] == symbols[..i];
      if symbols[i].kind == "export" {
        ghost var exported := Exports(symbols[..i]) + [symbols[i]];
        assert exported[..|exported| - 1] == Exports(symbols[..i]);
        names := names + [symbols[i].name];
      } else {
        assert Exports(symbols[..i + 1]) == Exports(symbols[..i]);
      }
    }
    assert symbols[..|symbols|] == symbols;
  }

  method ToFileImpacts(nodes: Nodes, paths: set<string>, reason: string) returns (result: seq<FileImpact>)
    ensures Lists(nodes, result, paths * nodes.Keys, reason)
  {
    result := [];
    var todo := paths;
    while todo != {}
      invariant todo <= paths && Lists(nodes, result, (paths - todo) * nodes.Keys, reason)
    {
      var rel :| rel in todo;
      if rel in nodes {
        ListsGrow(nodes, result, (paths - todo) * nodes.Keys, reason, rel);
        var exported := ExportedNames(nodes[rel].symbols);
        result := result + [FileImpact(rel, nodes[rel].lang, reason, nodes[rel].loc, exported)];
        assert (paths - (todo - {rel})) * nodes.Keys == (paths - todo) * nodes.Keys + {rel};
      } else {
        assert (paths - (todo - {rel})) * nodes.Keys == (paths - todo) * nodes.Keys;
      }
      todo := todo - {rel};
    }
    assert (paths - todo) * nodes.Keys == paths * nodes.Keys;
  }

  lemma ListsGrow(nodes: Nodes, impacts: seq<FileImpact>, paths: set<string>, reason: string, rel: string)
    requires Lists(nodes, impacts, paths, reason) && rel in nodes && rel !in paths
    ensures Lists(nodes, impacts + [ImpactOf(nodes, rel, reason)], paths + {rel}, reason)
  {
    var grown := impacts + [ImpactOf(nodes, rel, reason)];
    forall p | p in paths + {rel} ensures exists i :: 0 <= i < |grown| && grown[i].path == p {
      if p == rel {
        assert grown[|impacts|].path == rel;
      } else {
        var i :| 0 <= i < |impacts| && impacts[i].path == p;
        assert grown[i].path == p;
      }
    }
  }

  function Without(impacts: seq<FileImpact>, exclude: set<string>): seq<FileImpact> {
    if impacts == [] then []
    else Without(impacts[..|impacts| - 1], exclude) +
         if impacts[|impacts| - 1].path in exclude then [] else [impacts[|impacts| - 1]]
  }

  method Dedup(impacts: seq<FileImpact>, exclude: set<string>) returns (out: seq<FileImpact>)
    ensures out == Without(impacts, exclude)
  {
    out := [];
    for i := 0 to |impacts|
      invariant out == Without(impacts[..i], exclude)
    {
      assert impacts[..i + 1][..i] == impacts[..i];
      if impacts[i].path !in exclude {
        out := out + [impacts[i]];
      }
    }
    assert impacts[..|impacts|] == impacts;
  }

  /** Deduplication takes the excluded paths out of a listing and leaves it a listing. */
  lemma {:induction false} WithoutLists(nodes: Nodes, impacts: seq<FileImpact>, paths: set<string>, reason: string,
                                        exclude: set<string>)
    requires Lists(nodes, impacts, paths, reason)
    ensures Lists(nodes, Without(impacts, exclude), paths - exclude, reason)
  {
    if impacts == [] {
      assert paths - exclude == {};
    } else {
      hide Lists, ImpactOf, Without;
      var front, last := impacts[..|impacts| - 1], impacts[|impacts| - 1];
      ListsShrink(nodes, impacts, paths, reason);
      WithoutLists(nodes, front, paths - {last.path}, reason, exclude);
      var kept := (paths - {last.path}) - exclude;
      WithoutLast(impacts, exclude);
      OneLess(paths, last.path, exclude);
      if last.path !in exclude {
        ListsGrow(nodes, Without(front, exclude), kept, reason, last.path);
      }
    }
  }

  lemma OneLess(paths: set<string>, p: string, exclude: set<string>)
    requires p in paths
    ensures paths - exclude == paths - {p} - exclude + if p in exclude then {} else {p}
    ensures p in exclude ==> paths - {p} - exclude == paths - exclude
  {
  }

  lemma WithoutLast(impacts: seq<FileImpact>, exclude: set<string>)
    requires impacts != []
    ensures var front, last := Without(impacts[..|impacts| - 1], exclude), impacts[|impacts| - 1];
            Without(impacts, exclude) == if last.path in exclude then front else front + [last]
  {
  }

  lemma ListsShrink(nodes: Nodes, impacts: seq<FileImpact>, paths: set<string>, reason: string)
    requires Lists(nodes, impacts, paths, reason) && impacts != []
    ensures var last := impacts[|impacts| - 1];
            Lists(nodes, impacts[..|impacts| - 1], paths - {last.path}, reason)
            && last.path in nodes && last.path in paths && last == ImpactOf(nodes, last.path, reason)
  {
    var front, last := impacts[..|impacts| - 1], impacts[|impacts| - 1];
    forall p | p in paths - {last.path} ensures exists i :: 0 <= i < |front| && front[i].path == p {
      var i :| 0 <= i < |impacts| && impacts[i].path == p;
      assert front[i].path == p;
    }
  }

  // ---------------------------------------------------------------- symbol callers

  /** Each member of `s` once, in some order. */
  ghost predicate IsOrder(order: seq<string>, s: set<string>) {
    NoDuplicates(order) && forall x :: x in order <==> x in s
  }

  /** The exported symbols of some files, file by file. */
  function ExportsAlong(nodes: Nodes, order: seq<string>): seq<Symbol> {
    if order == [] then []
    else ExportsAlong(nodes, order[..|order| - 1]) + ExportsOf(nodes, order[|order| - 1])
  }

  function ExportsOf(nodes: Nodes, rel: string): seq<Symbol> {
    if rel in nodes then Exports(nodes[rel].symbols) else []
  }

  /** The sources of the call edges to a symbol, in edge order. */
  function Callers(edges: seq<Edge>, name: string): seq<string> {
    if edges == [] then []
    else
      var e := edges[|edges| - 1];
      Callers(edges[..|edges| - 1], name) + if e.kind == "calls" && e.to == name then [e.from] else []
  }

  ghost predicate CallersListed(edges: seq<Edge>, syms: seq<Symbol>, impacts: seq<SymbolImpact>) {
    && |impacts| == |syms|
    && forall i :: 0 <= i < |syms| ==>
         impacts[i] == SymbolImpact(syms[i].name, syms[i].file, Callers(edges, syms[i].name))
  }

  ghost predicate SymbolsReported(nodes: Nodes, edges: seq<Edge>, files: set<string>, impacts: seq<SymbolImpact>) {
    exists order :: IsOrder(order, files) && CallersListed(edges, ExportsAlong(nodes, order), impacts)
  }

  method CollectExportedSymbols(nodes: Nodes, directSet: set<string>) returns (syms: seq<Symbol>, ghost order: seq<string>)
    ensures IsOrder(order, directSet) && syms == ExportsAlong(nodes, order)
  {
    syms, order := [], [];
    var todo := directSet;
    while todo != {}
      invariant todo <= directSet && IsOrder(order, directSet - todo)
      invariant syms == ExportsAlong(nodes, order)
    {
      var rel :| rel in todo;
      assert rel !in order;
      assert (order + [rel])[..|order|] == order;
      order, todo := order + [rel], todo - {rel};
      if rel !in nodes { continue; }
      ghost var before := syms;
      var symbols := nodes[rel].symbols;
      for i := 0 to |symbols|
        invariant syms == before + Exports(symbols[..i])
      {
        assert symbols[..i + 1][..i] == symbols[..i];
        if symbols[i].kind == "export" {
          syms := syms + [symbols[i]];
        }
      }
      assert symbols[..|symbols|] == symbols;
    }
  }

  method FindSymbolCallers(edges: seq<Edge>, syms: seq<Symbol>) returns (impacts: seq<SymbolImpact>)
    ensures CallersListed(edges, syms, impacts)
  {
    impacts := [];
    for i := 0 to |syms|
      invariant CallersListed(edges, syms[..i], impacts)
    {
      var callers := [];
      for j := 0 to |edges|
        invariant callers == Callers(edges[..j], syms[i].name)
      {
        assert edges[..j + 1][..j] == edges[..j];
        if edges[j].kind == "calls" && edges[j].to == syms[i].name {
          callers := callers + [edges[j].from];
        }
      }
      assert edges[..|edges|] == edges;
      impacts := impacts + [SymbolImpact(syms[i].name, syms[i].file, callers)];
    }
    assert syms[..|syms|] == syms;
  }

  method ComputeBlastRadius(g: Graph, glob: Glob, specFiles: seq<string>) returns (r: Report)
    ensures var d := Direct(g.nodes, glob, specFiles);
            && Lists(g.nodes, r.direct, d, "direct dependency")
            && Lists(g.nodes, r.importers, Importers(g.edges, d) * g.nodes.Keys - d, "imports direct file")
            && Lists(g.nodes, r.importees, Importees(g.edges, d) * g.nodes.Keys - d, "imported by direct file")
    ensures SymbolsReported(g.nodes, g.edges, Direct(g.nodes, glob, specFiles), r.callers)
    ensures NoDuplicates(r.tests)
    ensures forall t :: t in r.tests <==> t in RelevantTests(g.nodes, g.edges, Impacted(g.nodes, g.edges, glob, specFiles))
    ensures r.directCount == |r.direct| && r.importerCount == |r.importers|
    ensures r.importeeCount == |r.importees| && r.callerCount == |r.callers| && r.testCount == |r.tests|
  {
    hide Lists, NoDuplicates, RelevantTests, Importers, Importees, Without, IsOrder, CallersListed, ExportsAlong;
    var directSet := ExpandGlobs(g.nodes, glob, specFiles);
    var direct := ToFileImpacts(g.nodes, directSet, "direct dependency");
    assert directSet * g.nodes.Keys == directSet;
    var importerSet := FindImporters(g.edges, directSet);
    var importers := ToFileImpacts(g.nodes, importerSet, "imports direct file");
    var importeeSet := FindImportees(g.edges, directSet);
    var importees := ToFileImpacts(g.nodes, importeeSet, "imported by direct file");
    var symbols, order := CollectExportedSymbols(g.nodes, directSet);
    var callers := FindSymbolCallers(g.edges, symbols);
    var allImpacted := directSet + importerSet + importeeSet;
    var tests := FindRelevantTests(g.nodes, g.edges, allImpacted);
    WithoutLists(g.nodes, importers, importerSet * g.nodes.Keys, "imports direct file", directSet);
    WithoutLists(g.nodes, importees, importeeSet * g.nodes.Keys, "imported by direct file", directSet);
    importers := Dedup(importers, directSet);
    importees := Dedup(importees, directSet);
    r := Report(direct, importers, importees, callers, tests, |direct|, |importers|, |importees|, |callers|, |tests|);
  }

  // ---------------------------------------------------------------- laws

  ghost function Paths(impacts: seq<FileImpact>): set<string> {
    if impacts == [] then {} else Paths(impacts[..|impacts| - 1]) + {impacts[|impacts| - 1].path}
  }

  lemma {:induction false} PathsMembers(impacts: seq<FileImpact>, p: string)
    ensures p in Paths(impacts) <==> exists i :: 0 <= i < |impacts| && impacts[i].path == p
  {
    if impacts != [] {
      var front := impacts[..|impacts| - 1];
      PathsMembers(front, p);
      if i :| 0 <= i < |front| && front[i].path == p {
        assert impacts[i].path == p;
      }
    }
  }

  lemma {:induction false} PathsCount(impacts: seq<FileImpact>)
    requires forall i, j :: 0 <= i < j < |impacts| ==> impacts[i].path != impacts[j].path
    ensures |Paths(impacts)| == |impacts|
  {
    if impacts != [] {
      var front := impacts[..|impacts| - 1];
      PathsCount(front);
      PathsMembers(front, impacts[|impacts| - 1].path);
    }
  }

  /** A listing has as many entries as its set has members. */
  lemma ListingSize(nodes: Nodes, impacts: seq<FileImpact>, paths: set<string>, reason: string)
    requires Lists(nodes, impacts, paths, reason)
    ensures Paths(impacts) == paths && |impacts| == |paths|
  {
    PathsCount(impacts);
    forall p ensures p in Paths(impacts) <==> p in paths {
      PathsMembers(impacts, p);
    }
  }

  /** On a graph built by addImportEdges no importer or importee is lost for want of a node, so the three counts
      are the sizes of the sets, and the three sets of files do not overlap with the direct one. */
  lemma CountsAreCardinalities(nodes: Nodes, moduleName: string, edges: seq<Edge>, glob: Glob, patterns: seq<string>,
                               direct: seq<FileImpact>, importers: seq<FileImpact>, importees: seq<FileImpact>)
    requires WellBuilt(nodes, moduleName, edges)
    requires var d := Direct(nodes, glob, patterns);
             && Lists(nodes, direct, d, "direct dependency")
             && Lists(nodes, importers, Importers(edges, d) * nodes.Keys - d, "imports direct file")
             && Lists(nodes, importees, Importees(edges, d) * nodes.Keys - d, "imported by direct file")
    ensures var d := Direct(nodes, glob, patterns);
            && |direct| == |d| && |importers| == |Importers(edges, d) - d| && |importees| == |Importees(edges, d) - d|
            && Paths(importers) == Importers(edges, d) - d && Paths(importees) == Importees(edges, d) - d
            && Paths(direct) !! Paths(importers) && Paths(direct) !! Paths(importees)
  {
    hide Lists, Paths, Direct, Importers, Importees, WellBuilt;
    var d := Direct(nodes, glob, patterns);
    ListingSize(nodes, direct, d, "direct dependency");
    ListingSize(nodes, importers, Importers(edges, d) * nodes.Keys - d, "imports direct file");
    ListingSize(nodes, importees, Importees(edges, d) * nodes.Keys - d, "imported by direct file");
    EdgesStayInside(nodes, moduleName, edges, d);
    assert Importers(edges, d) * nodes.Keys == Importers(edges, d);
    assert Importees(edges, d) * nodes.Keys == Importees(edges, d);
  }

  lemma ExportsStep(nodes: Nodes, order: seq<string>, rel: string)
    ensures multiset(ExportsAlong(nodes, order + [rel])) ==
            multiset(ExportsAlong(nodes, order)) + multiset(ExportsOf(nodes, rel))
  {
    hide ExportsOf;
    assert (order + [rel])[..|order|] == order;
  }

  lemma {:induction false} ExportsWithout(nodes: Nodes, order: seq<string>, k: nat)
    requires k < |order|
    ensures multiset(ExportsAlong(nodes, order)) ==
            multiset(ExportsAlong(nodes, order[..k] + order[k + 1..])) + multiset(ExportsOf(nodes, order[k]))
  {
    hide ExportsAlong, ExportsOf;
    var front, last := order[..|order| - 1], order[|order| - 1];
    assert order == front + [last];
    ExportsStep(nodes, front, last);
    if k == |order| - 1 {
      assert order[..k] + order[k + 1..] == front;
    } else {
      ExportsWithout(nodes, front, k);
      ExportsStep(nodes, front[..k] + front[k + 1..], last);
      assert order[..k] + order[k + 1..] == front[..k] + front[k + 1..] + [last];
    }
  }

  lemma {:induction false} ExportsInAnyOrder(nodes: Nodes, a: seq<string>, b: seq<string>, files: set<string>)
    requires IsOrder(a, files) && IsOrder(b, files)
    ensures multiset(ExportsAlong(nodes, a)) == multiset(ExportsAlong(nodes, b))
  {
    hide ExportsAlong, ExportsOf;
    if a == [] {
      if b != [] { HeadIsMember(b); assert false; }
    } else {
      var last, front := a[|a| - 1], a[..|a| - 1];
      assert a == front + [last] && last in a;
      var k :| 0 <= k < |b| && b[k] == last;
      var rest := b[..k] + b[k + 1..];
      assert a[..|a| - 1] + a[|a|..] == front;
      ExportsWithout(nodes, a, |a| - 1);
      ExportsWithout(nodes, b, k);
      RestOfOrder(a, |a| - 1, files);
      RestOfOrder(b, k, files);
      ExportsInAnyOrder(nodes, front, rest, files - {last});
    }
  }

  lemma RestOfOrder(b: seq<string>, k: nat, files: set<string>)
    requires IsOrder(b, files) && k < |b|
    ensures IsOrder(b[..k] + b[k + 1..], files - {b[k]})
  {
    assert b == b[..k] + ([b[k]] + b[k + 1..]);
  }

  /** On a graph built by addImportEdges nothing calls anything, so every exported symbol of the direct files is
      reported without callers; and how many symbols are reported does not depend on the order of the map. */
  lemma SymbolsHaveNoCallers(nodes: Nodes, moduleName: string, edges: seq<Edge>, files: set<string>,
                             order: seq<string>, impacts: seq<SymbolImpact>)
    requires WellBuilt(nodes, moduleName, edges) && IsOrder(order, files)
    ensures SymbolsReported(nodes, edges, files, impacts) ==>
              |impacts| == |ExportsAlong(nodes, order)| && forall i :: 0 <= i < |impacts| ==> impacts[i].calledBy == []
  {
    hide IsOrder, ExportsAlong, WellBuilt, Callers;
    if actual :| IsOrder(actual, files) && CallersListed(edges, ExportsAlong(nodes, actual), impacts) {
      var syms, same := ExportsAlong(nodes, actual), ExportsAlong(nodes, order);
      ExportsInAnyOrder(nodes, actual, order, files);
      assert |multiset(syms)| == |syms| && |multiset(same)| == |same|;
      forall i | 0 <= i < |impacts| ensures impacts[i].calledBy == [] {
        NoCallEdges(nodes, moduleName, edges, syms[i].name);
      }
    }
  }

  lemma {:induction false} NoCallEdges(nodes: Nodes, moduleName: string, edges: seq<Edge>, name: string)
    requires WellBuilt(nodes, moduleName, edges)
    ensures Callers(edges, name) == []
  {
    hide Candidate;
    if edges != [] {
      var last := edges[|edges| - 1];
      assert last in edges && ImportEdge(nodes, moduleName, last);
      NoCallEdges(nodes, moduleName, edges[..|edges| - 1], name);
    }
  }

  lemma EdgesStayInside(nodes: Nodes, moduleName: string, edges: seq<Edge>, files: set<string>)
    requires WellBuilt(nodes, moduleName, edges)
    ensures Importers(edges, files) <= nodes.Keys && Importees(edges, files) <= nodes.Keys
  {
    hide Candidate;
    forall e | e in edges ensures e.from in nodes && e.to in nodes {
      assert ImportEdge(nodes, moduleName, e);
    }
  }

  lemma DirectUnion(nodes: Nodes, glob: Glob, a: seq<string>, b: seq<string>)
    ensures Direct(nodes, glob, a + b) == Direct(nodes, glob, a) + Direct(nodes, glob, b)
  {
    hide Matches;
    assert forall p :: p in a + b <==> p in a || p in b;
  }

  lemma NeighboursUnion(edges: seq<Edge>, x: set<string>, y: set<string>)
    ensures Importers(edges, x + y) == Importers(edges, x) + Importers(edges, y)
    ensures Importees(edges, x + y) == Importees(edges, x) + Importees(edges, y)
  {
  }

  /** The impact of two pattern lists together is the union of their impacts; so are the relevant tests. */
  lemma ImpactUnion(nodes: Nodes, edges: seq<Edge>, glob: Glob, a: seq<string>, b: seq<string>)
    ensures Impacted(nodes, edges, glob, a + b) == Impacted(nodes, edges, glob, a) + Impacted(nodes, edges, glob, b)
    ensures RelevantTests(nodes, edges, Impacted(nodes, edges, glob, a + b)) ==
            RelevantTests(nodes, edges, Impacted(nodes, edges, glob, a)) +
            RelevantTests(nodes, edges, Impacted(nodes, edges, glob, b))
  {
    hide Direct, Importers, Importees, RelevantTests;
    DirectUnion(nodes, glob, a, b);
    NeighboursUnion(edges, Direct(nodes, glob, a), Direct(nodes, glob, b));
    TestsUnion(nodes, edges, Impacted(nodes, edges, glob, a), Impacted(nodes, edges, glob, b));
  }

  lemma TestsUnion(nodes: Nodes, edges: seq<Edge>, x: set<string>, y: set<string>)
    ensures RelevantTests(nodes, edges, x + y) == RelevantTests(nodes, edges, x) + RelevantTests(nodes, edges, y)
  {
    hide IsTestFile;
    forall rel ensures ImportsOneOf(edges, rel, x + y) <==> ImportsOneOf(edges, rel, x) || ImportsOneOf(edges, rel, y) {
    }
  }

  /** Importers and importees after deduplication do not distribute on the nose: an importer of `a` may be
      matched directly by `b`. What is lost is exactly the direct set of both. */
  lemma DeduplicatedUnion(nodes: Nodes, edges: seq<Edge>, glob: Glob, a: seq<string>, b: seq<string>)
    ensures var da, db, d := Direct(nodes, glob, a), Direct(nodes, glob, b), Direct(nodes, glob, a + b);
            && Importers(edges, d) - d == (Importers(edges, da) - da) + (Importers(edges, db) - db) - d
            && Importees(edges, d) - d == (Importees(edges, da) - da) + (Importees(edges, db) - db) - d
  {
    hide Direct, Importers, Importees;
    DirectUnion(nodes, glob, a, b);
    NeighboursUnion(edges, Direct(nodes, glob, a), Direct(nodes, glob, b));
  }

  // ---------------------------------------------------------------- what the tests on names are

  /** A pattern matches what the glob matches and every path that ends in it. */
  lemma MatchesMeans(glob: Glob, pattern: string, rel: string)
    ensures Matches(glob, pattern, rel) <==> glob(pattern, rel) || exists front :: rel == front + pattern
  {
    if HasSuffix(rel, pattern) {
      assert rel == rel[..|rel| - |pattern|] + pattern;
    }
    if HasSuffix(rel, "/" + pattern) {
      var front := rel[..|rel| - |pattern| - 1] + "/";
      assert rel == rel[..|rel| - |pattern| - 1] + ("/" + pattern) == front + pattern;
    }
    if front :| rel == front + pattern {
      assert rel[|rel| - |pattern|..] == pattern;
    }
  }

  /** A test file has _test in its name or test_ in front of it, whatever its directory. */
  lemma TestFileMeans(dir: string, base: string)
    requires '/' !in base
    ensures IsTestFile(dir + "/" + base) <==> IsTestFile(base)
    ensures IsTestFile(base) <==> (exists i: nat :: OccursAt(base, "_test", i)) || OccursAt(base, "test_", 0)
  {
    hide Contains, LastSlash;
    DirAndBase(dir, base);
    ContainsMeans(base, "_test");
  }

  /** The exported symbols are those of kind export, in their order. */
  lemma {:induction false} ExportsMean(a: seq<Symbol>, b: seq<Symbol>)
    ensures Exports(a + b) == Exports(a) + Exports(b)
    ensures |b| == 1 ==> Exports(b) == if b[0].kind == "export" then b else []
  {
    hide Exports;
    NoExports();
    if b == [] {
      assert a + b == a;
    } else {
      var front, last := b[..|b| - 1], b[|b| - 1];
      assert a + b == (a + front) + [last] && b == front + [last];
      ExportsMean(a, front);
      ExportsLast(a + front, last);
      ExportsLast(front, last);
    }
  }

  lemma NoExports()
    ensures Exports([]) == []
  {
  }

  lemma ExportsLast(symbols: seq<Symbol>, s: Symbol)
    ensures Exports(symbols + [s]) == Exports(symbols) + if s.kind == "export" then [s] else []
  {
    assert (symbols + [s])[..|symbols|] == symbols;
  }

  /** What is reported of a file: its own language and size, and the names of its exports in their order. */
  lemma FileFacts(nodes: Nodes, rel: string, reason: string)
    requires rel in nodes
    ensures var i := ImpactOf(nodes, rel, reason);
            && i.path == rel && i.reason == reason && i.lang == nodes[rel].lang && i.loc == nodes[rel].loc
            && |i.exported| == |Exports(nodes[rel].symbols)|
            && forall k :: 0 <= k < |i.exported| ==> i.exported[k] == Exports(nodes[rel].symbols)[k].name
  {
    NamesMean(Exports(nodes[rel].symbols));
  }

  lemma {:induction false} NamesMean(symbols: seq<Symbol>)
    ensures |Names(symbols)| == |symbols| && forall k :: 0 <= k < |symbols| ==> Names(symbols)[k] == symbols[k].name
  {
    if symbols != [] {
      NamesMean(symbols[..|symbols| - 1]);
    }
  }

  /** The callers are the sources of the call edges to the symbol, in edge order. */
  lemma {:induction false} CallersMean(a: seq<Edge>, b: seq<Edge>, name: string)
    ensures Callers(a + b, name) == Callers(a, name) + Callers(b, name)
    ensures |b| == 1 ==> Callers(b, name) == if b[0].kind == "calls" && b[0].to == name then [b[0].from] else []
  {
    hide Callers;
    NoCalls(name);
    if b == [] {
      assert a + b == a;
    } else {
      var front, last := b[..|b| - 1], b[|b| - 1];
      assert a + b == (a + front) + [last] && b == front + [last];
      CallersMean(a, front, name);
      CallersLast(a + front, last, name);
      CallersLast(front, last, name);
    }
  }

  lemma NoCalls(name: string)
    ensures Callers([], name) == []
  {
  }

  lemma CallersLast(edges: seq<Edge>, e: Edge, name: string)
    ensures Callers(edges + [e], name) == Callers(edges, name) + if e.kind == "calls" && e.to == name then [e.from] else []
  {
    assert (edges + [e])[..|edges|] == edges;
  }
}
