/** The import graph of a workspace. Maps are walked in whatever order the runtime picks. */
module RepoGraph {
  import opened Text

  datatype Symbol = Symbol(name: string, kind: string, file: string)

  datatype Node = Node(lang: string, loc: nat, symbols: seq<Symbol>, imports: seq<string>)

  datatype Edge = Edge(from: string, to: string, kind: string)

  /** Keys are clean workspace-relative paths. */
  type Nodes = map<string, Node>

  // ---------------------------------------------------------------- path pieces

  /** Index of the last '/', or -1. */
  function LastSlash(s: string): (i: int)
    ensures -1 <= i < |s|
    ensures i >= 0 ==> s[i] == '/'
    ensures forall j :: i < j < |s| ==> s[j] != '/'
  {
    if s == "" then -1 else if s[|s| - 1] == '/' then |s| - 1 else LastSlash(s[..|s| - 1])
  }

  /** filepath.Dir of a clean relative path. */
  function Dir(rel: string): string {
    if LastSlash(rel) < 0 then "." else rel[..LastSlash(rel)]
  }

  /** filepath.Base of a clean relative path. */
  function Base(rel: string): string {
    rel[LastSlash(rel) + 1..]
  }

  /** A file name without what filepath.Ext finds: everything before its last dot. */
  function Stem(name: string): string {
    if LastDot(name) < 0 then name else name[..LastDot(name)]
  }

  function LastDot(s: string): (i: int)
    ensures -1 <= i < |s|
  {
    if s == "" then -1 else if s[|s| - 1] == '.' then |s| - 1 else LastDot(s[..|s| - 1])
  }

  // ---------------------------------------------------------------- resolving an import

  function StripModule(imp: string, moduleName: string): string {
    if moduleName != "" && HasPrefix(imp, moduleName + "/") then imp[|moduleName| + 1..] else imp
  }

  predicate InDirectory(rel: string, suffix: string) {
    HasPrefix(rel, suffix + "/") || rel == suffix || Dir(rel) == suffix || Dir(rel) == "./" + suffix
  }

  predicate Named(rel: string, imp: string) {
    Stem(Base(rel)) == imp
  }

  /** What an import may resolve to: the path itself; failing that a file of that directory; failing that a file
      of that name. */
  ghost predicate Candidate(nodes: Nodes, imp: string, moduleName: string, to: string) {
    var suffix := StripModule(imp, moduleName);
    && to in nodes
    && if suffix in nodes then to == suffix
       else if exists rel :: rel in nodes && InDirectory(rel, suffix) then InDirectory(to, suffix)
       else Named(to, imp)
  }

  /** The first path, in some walk of the map, with a property; or none. */
  method PickNode(nodes: Nodes, p: string -> bool) returns (found: Option<string>)
    ensures found.None? ==> forall rel :: rel in nodes ==> !p(rel)
    ensures found.Some? ==> found.value in nodes && p(found.value)
  {
    var todo := nodes.Keys;
    while todo != {}
      invariant todo <= nodes.Keys && forall rel :: rel in nodes.Keys - todo ==> !p(rel)
    {
      var rel :| rel in todo;
      if p(rel) { return Some(rel); }
      todo := todo - {rel};
    }
    return None;
  }

  /** The empty string means the import is not in the workspace. */
  method ResolveImport(nodes: Nodes, imp: string, moduleName: string) returns (to: string)
    ensures Candidate(nodes, imp, moduleName, to) || (to == "" && forall c :: !Candidate(nodes, imp, moduleName, c))
  {
    var suffix := StripModule(imp, moduleName);
    if suffix in nodes { return suffix; }
    var found := PickNode(nodes, (rel: string) => InDirectory(rel, suffix));
    if found.Some? { return found.value; }
    found := PickNode(nodes, (rel: string) => Named(rel, imp));
    if found.Some? { return found.value; }
    return "";
  }

  // ---------------------------------------------------------------- edges

  /** An edge addImportEdges may add: between two different known files, for an import of the first. */
  ghost predicate ImportEdge(nodes: Nodes, moduleName: string, e: Edge) {
    && e.kind == "imports" && e.from in nodes && e.to in nodes && e.from != e.to
    && exists imp :: imp in nodes[e.from].imports && Candidate(nodes, imp, moduleName, e.to)
  }

  /** `imp` cannot go unrepresented: something resolves it, and nothing that does is the file itself. */
  ghost predicate MustAppear(nodes: Nodes, moduleName: string, rel: string, imp: string) {
    && (exists c :: Candidate(nodes, imp, moduleName, c))
    && forall c :: Candidate(nodes, imp, moduleName, c) ==> c != rel && c != ""
  }

  ghost predicate Represented(nodes: Nodes, moduleName: string, edges: seq<Edge>, rel: string, imp: string) {
    exists e :: e in edges && e.kind == "imports" && e.from == rel && Candidate(nodes, imp, moduleName, e.to)
  }

  class Graph {
    const nodes: Nodes
    var edges: seq<Edge>

    constructor (nodes: Nodes)
      ensures this.nodes == nodes && edges == []
    {
      this.nodes := nodes;
      edges := [];
    }

    method AddImportEdges(moduleName: string)
      modifies this
      ensures old(edges) <= edges
      ensures forall e :: e in edges[|old(edges)|..] ==> ImportEdge(nodes, moduleName, e)
      ensures forall rel, imp :: rel in nodes && imp in nodes[rel].imports && MustAppear(nodes, moduleName, rel, imp) ==>
                Represented(nodes, moduleName, edges, rel, imp)
    {
      hide Candidate;
      var todo := nodes.Keys;
      while todo != {}
        invariant todo <= nodes.Keys && old(edges) <= edges
        invariant forall e :: e in edges[|old(edges)|..] ==> ImportEdge(nodes, moduleName, e)
        invariant forall rel, imp ::
                    (rel in nodes.Keys - todo && imp in nodes[rel].imports && MustAppear(nodes, moduleName, rel, imp))
                    ==> Represented(nodes, moduleName, edges, rel, imp)
      {
        var rel :| rel in todo;
        AddEdgesOf(rel, moduleName);
        todo := todo - {rel};
      }
    }

    /** The inner loop: one file's imports. */
    method AddEdgesOf(rel: string, moduleName: string)
      requires rel in nodes
      modifies this
      ensures old(edges) <= edges
      ensures forall e :: e in edges[|old(edges)|..] ==> ImportEdge(nodes, moduleName, e)
      ensures forall imp :: imp in nodes[rel].imports && MustAppear(nodes, moduleName, rel, imp) ==>
                Represented(nodes, moduleName, edges, rel, imp)
    {
      hide Candidate;
      var imports := nodes[rel].imports;
      for i := 0 to |imports|
        invariant old(edges) <= edges
        invariant forall e :: e in edges[|old(edges)|..] ==> ImportEdge(nodes, moduleName, e)
        invariant forall imp :: imp in imports[..i] && MustAppear(nodes, moduleName, rel, imp) ==>
                    Represented(nodes, moduleName, edges, rel, imp)
      {
        var to := ResolveImport(nodes, imports[i], moduleName);
        CandidateKnown(nodes, imports[i], moduleName, to);
        if to != "" && to != rel {
          assert ImportEdge(nodes, moduleName, Edge(rel, to, "imports"));
          edges := edges + [Edge(rel, to, "imports")];
          assert edges[|edges| - 1] == Edge(rel, to, "imports");
        }
      }
    }
  }

  lemma CandidateKnown(nodes: Nodes, imp: string, moduleName: string, to: string)
    ensures Candidate(nodes, imp, moduleName, to) ==> to in nodes
  {
  }

  /** Every edge of the graph came from addImportEdges. */
  ghost predicate WellBuilt(nodes: Nodes, moduleName: string, edges: seq<Edge>) {
    forall e :: e in edges ==> ImportEdge(nodes, moduleName, e)
  }

  // ---------------------------------------------------------------- what the path pieces are

  /** The directory and the file name, on either side of the last slash. */
  lemma DirAndBase(dir: string, base: string)
    requires '/' !in base
    ensures Dir(dir + "/" + base) == dir && Base(dir + "/" + base) == base
    ensures Dir(base) == "." && Base(base) == base
  {
    var rel := dir + "/" + base;
    assert rel[|dir|] == '/' && forall j :: |dir| < j < |rel| ==> rel[j] == base[j - |dir| - 1];
    assert LastSlash(rel) == |dir|;
    assert LastSlash(base) == -1;
  }

  /** A stem is what comes before the last dot, or everything. */
  lemma {:induction false} StemMeans(stem: string, ext: string)
    requires '.' !in ext
    ensures Stem(stem + "." + ext) == stem && ('.' !in stem ==> Stem(stem) == stem)
  {
    LastDotAt(stem, ext);
    if '.' !in stem { NoDot(stem); }
  }

  lemma {:induction false} LastDotAt(stem: string, ext: string)
    requires '.' !in ext
    ensures LastDot(stem + "." + ext) == |stem|
  {
    var s := stem + "." + ext;
    if ext != "" {
      assert s[|s| - 1] == ext[|ext| - 1];
      assert s[..|s| - 1] == stem + "." + ext[..|ext| - 1];
      LastDotAt(stem, ext[..|ext| - 1]);
    }
  }

  lemma {:induction false} NoDot(s: string)
    requires '.' !in s
    ensures LastDot(s) == -1
  {
    if s != "" { NoDot(s[..|s| - 1]); }
  }

  /** The name an import without a directory is looked up by. */
  lemma NamedMeans(dir: string, stem: string, ext: string, imp: string)
    requires '/' !in stem && '/' !in ext && '.' !in ext
    ensures Named(dir + "/" + stem + "." + ext, imp) <==> imp == stem
    ensures Named(stem + "." + ext, imp) <==> imp == stem
  {
    var base := stem + "." + ext;
    assert dir + "/" + stem + "." + ext == dir + "/" + base;
    DirAndBase(dir, base);
    StemMeans(stem, ext);
  }

  /** The module's own path is taken off an import, once and only in front of a slash. */
  lemma StripModuleMeans(moduleName: string, rest: string, imp: string)
    ensures moduleName != "" ==> StripModule(moduleName + "/" + rest, moduleName) == rest
    ensures moduleName == "" || (forall tail :: imp != moduleName + "/" + tail) ==> StripModule(imp, moduleName) == imp
  {
    var long := moduleName + "/" + rest;
    assert long[..|moduleName| + 1] == moduleName + "/" && long[|moduleName| + 1..] == rest;
    if HasPrefix(imp, moduleName + "/") {
      assert imp == moduleName + "/" + imp[|moduleName| + 1..];
    }
  }

  /** A file is in a directory when its path continues it after a slash. */
  lemma InDirectoryMeans(dir: string, below: string)
    ensures InDirectory(dir + "/" + below, dir)
    ensures '/' !in below ==> InDirectory("./" + dir + "/" + below, dir)
  {
    assert (dir + "/" + below)[..|dir| + 1] == dir + "/";
    if '/' !in below { DirAndBase("./" + dir, below); }
  }
}
