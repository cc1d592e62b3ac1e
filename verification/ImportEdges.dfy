/** The edge builder of the import scan: which modules a module's import statements lead to. */
module ImportEdges {
  import opened Common
  import opened Graphs
  import opened Texts
  import ImportCycles

  /** What of a syntax tree the builder looks at. */
  datatype Ast =
    | Import(names: seq<string>)
    | ImportFrom(level: nat, source: Option<string>, names: seq<string>)
      // an `if TYPE_CHECKING:` statement; only its `else` branch runs
    | Guard(body: seq<Ast>, orelse: seq<Ast>)
    | Def(children: seq<Ast>)
    | Other(children: seq<Ast>)

  function Children(n: Ast): (c: seq<Ast>)
    ensures forall m <- c :: m < n
  {
    match n
    case Import(_) => []
    case ImportFrom(_, _, _) => []
    case Guard(body, orelse) => body + orelse
    case Def(c) => c
    case Other(c) => c
  }

  /** One module: its dotted name, and whether it is a package. */
  datatype Module = Module(name: string, package: bool)

  // --- what an import statement names --------------------------------------------------------------

  /** The package `drop` levels up, or none when there is no such level. */
  function Base(m: Module, level: nat): Option<string>
    requires level > 0
  {
    var parts := Split(m.name, '.');
    var drop := if m.package then level - 1 else level;
    if drop >= |parts| then None else Some(Join(parts[..|parts| - drop], '.'))
  }

  function Prefix(m: Module, s: Ast): Option<string>
    requires s.ImportFrom?
  {
    if s.level > 0 then
      var base := Base(m, s.level);
      if base.None? then None
      else if s.source.Some? && s.source.value != "" then Some(base.value + "." + s.source.value)
      else base
    else if s.source.Some? && s.source.value != "" then s.source
    else None
  }

  function Candidates(m: Module, s: Ast): set<string> {
    match s
    case Import(names) => Named(names)
    case ImportFrom(_, _, names) =>
      var prefix := Prefix(m, s);
      if prefix.None? then {} else {prefix.value} + Members(prefix.value, names)
    case _ => {}
  }

  function Targets(m: Module, s: Ast): set<string> {
    set t | t in Candidates(m, s) && "nerdit" <= t
  }

  function Named(names: seq<string>): set<string> {
    set n <- names :: n
  }

  function Members(prefix: string, names: seq<string>): set<string> {
    set n <- names :: prefix + "." + n
  }

  // --- the module a dotted name lies in ------------------------------------------------------------

  /** `t.rpartition(".")[0]`. */
  function Chop(t: string): (head: string)
    ensures |head| < |t| || (t == "" && head == "")
    ensures head == t[..|head|] && (head != "" ==> t[|head|] == '.')
    decreases |t|
  {
    if t == "" then ""
    else if t[|t| - 1] == '.' then t[..|t| - 1]
    else Chop(t[..|t| - 1])
  }

  /** `p` is `t`, or `t` up to one of its dots. */
  predicate IsDottedPrefix(p: string, t: string) {
    |p| <= |t| && p == t[..|p|] && (|p| < |t| ==> t[|p|] == '.')
  }

  lemma {:induction false} ChopSkipsNoDot(t: string, p: string)
    requires IsDottedPrefix(p, t) && p != t
    ensures |p| <= |Chop(t)| && IsDottedPrefix(p, Chop(t))
    decreases |t|
  {
    if t[|t| - 1] == '.' {
      assert t[..|t| - 1][..|p|] == p;
    } else {
      var u := t[..|t| - 1];
      assert u[..|p|] == p;
      ChopSkipsNoDot(u, p);
    }
  }

  /** `r` is the longest known module `t` lies in, or empty when there is none. */
  predicate IsHome(mods: set<string>, t: string, r: string) {
    && (r != "" ==> r in mods && IsDottedPrefix(r, t))
    && (forall p <- mods :: p != "" && IsDottedPrefix(p, t) ==> |p| <= |r|)
  }

  function Home(mods: set<string>, t: string): string
    decreases |t|
  {
    if t == "" || t in mods then t else Home(mods, Chop(t))
  }

  lemma {:induction false} HomeIsLongest(mods: set<string>, t: string)
    ensures IsHome(mods, t, Home(mods, t))
    decreases |t|
  {
    if t != "" && t !in mods {
      HomeIsLongest(mods, Chop(t));
      forall p | p in mods && p != "" && IsDottedPrefix(p, t)
        ensures |p| <= |Home(mods, t)|
      {
        ChopSkipsNoDot(t, p);
      }
      var r := Home(mods, t);
      if r != "" {
        assert r == t[..|Chop(t)|][..|r|] == t[..|r|];
        assert |r| < |Chop(t)| ==> Chop(t)[|r|] == t[|r|];
      }
    }
  }

  lemma HomeIsUnique(mods: set<string>, t: string, a: string, b: string)
    requires IsHome(mods, t, a) && IsHome(mods, t, b)
    ensures a == b
  {
  }

  // --- which statements the scan counts --------------------------------------------------------------------------

  /** The node at the end of a path of child positions. */
  function NodeAt(n: Ast, path: seq<nat>): Option<Ast>
    decreases |path|
  {
    if path == [] then Some(n)
    else if path[0] < |Children(n)| then NodeAt(Children(n)[path[0]], path[1..])
    else None
  }

  /** No node on the path below `n` is a type-checking guard. */
  predicate Unguarded(n: Ast, path: seq<nat>)
    decreases |path|
  {
    path == [] || (path[0] < |Children(n)| && !Children(n)[path[0]].Guard? && Unguarded(Children(n)[path[0]], path[1..]))
  }

  /** Some node on the path below `n` is a function. */
  predicate InsideFunction(n: Ast, path: seq<nat>)
    decreases |path|
  {
    path != [] && path[0] < |Children(n)|
    && (Children(n)[path[0]].Def? || InsideFunction(Children(n)[path[0]], path[1..]))
  }

  /** A statement the scan counts, at a path below `n`. */
  predicate Counts(n: Ast, path: seq<nat>, s: Ast) {
    path != [] && Unguarded(n, path) && NodeAt(n, path) == Some(s)
  }

  /** An edge of a module: where it leads, and whether its statement is inside a function. */
  datatype Edge = Edge(target: string, inside: bool)

  function StatementEdges(mods: set<string>, m: Module, s: Ast, inside: bool): set<Edge> {
    set t | t in Targets(m, s) && Home(mods, t) != "" && Home(mods, t) != m.name :: Edge(Home(mods, t), inside)
  }

  /** What `visit` collects below `n`. */
  function Visited(mods: set<string>, m: Module, n: Ast, inside: bool): set<Edge>
    decreases n
  {
    set k, e | 0 <= k < |Children(n)| && e in VisitedChild(mods, m, n, k, inside) :: e
  }

  function VisitedChild(mods: set<string>, m: Module, n: Ast, k: nat, inside: bool): set<Edge>
    requires k < |Children(n)|
    decreases n, 0
  {
    var c := Children(n)[k];
    if c.Guard? then {}
    else StatementEdges(mods, m, c, inside || c.Def?) + Visited(mods, m, c, inside || c.Def?)
  }

  // --- what is collected is what counts ----------------------------------------------------------------

  lemma PathOfOne(n: Ast, k: nat)
    requires k < |Children(n)|
    ensures var c := Children(n)[k];
      && NodeAt(n, [k]) == Some(c) && Unguarded(n, [k]) == !c.Guard? && InsideFunction(n, [k]) == c.Def?
  {
    assert [k][1..] == [];
  }

  lemma PathFrom(n: Ast, k: nat, path: seq<nat>)
    requires k < |Children(n)|
    ensures var c := Children(n)[k];
      && NodeAt(n, [k] + path) == NodeAt(c, path)
      && Unguarded(n, [k] + path) == (!c.Guard? && Unguarded(c, path))
      && InsideFunction(n, [k] + path) == (c.Def? || InsideFunction(c, path))
  {
    assert ([k] + path)[1..] == path;
  }

  lemma {:induction false} VisitedCounts(mods: set<string>, m: Module, n: Ast, inside: bool, e: Edge)
    requires e in Visited(mods, m, n, inside)
    ensures exists path, s :: Counts(n, path, s) && e in StatementEdges(mods, m, s, inside || InsideFunction(n, path))
    decreases n
  {
    var k :| 0 <= k < |Children(n)| && e in VisitedChild(mods, m, n, k, inside);
    var c := Children(n)[k];
    var within := inside || c.Def?;
    if e in StatementEdges(mods, m, c, within) {
      PathOfOne(n, k);
      assert Counts(n, [k], c);
    } else {
      VisitedCounts(mods, m, c, within, e);
      var path, s :| Counts(c, path, s) && e in StatementEdges(mods, m, s, within || InsideFunction(c, path));
      PathFrom(n, k, path);
      assert Counts(n, [k] + path, s);
    }
  }

  lemma {:induction false} CountedIsVisited(
    mods: set<string>, m: Module, n: Ast, inside: bool, path: seq<nat>, s: Ast, e: Edge)
    requires Counts(n, path, s) && e in StatementEdges(mods, m, s, inside || InsideFunction(n, path))
    ensures e in Visited(mods, m, n, inside)
    decreases |path|
  {
    var k, rest := path[0], path[1..];
    var c := Children(n)[k];
    var within := inside || c.Def?;
    assert path == [k] + rest;
    PathFrom(n, k, rest);
    if rest == [] {
      PathOfOne(n, k);
      assert e in StatementEdges(mods, m, c, within);
    } else {
      CountedIsVisited(mods, m, c, within, rest, s, e);
    }
    assert e in VisitedChild(mods, m, n, k, inside);
  }

  /**
   * A module has an edge exactly for a statement outside every type-checking guard that names a
   * target whose longest known prefix is another module; it is deferred exactly inside a function.
   */
  lemma EdgesAreTheUnguardedImports(mods: set<string>, m: Module, root: Ast, e: Edge)
    ensures e in Visited(mods, m, root, false) <==>
      exists path, s, t ::
        && Counts(root, path, s) && e.inside == InsideFunction(root, path)
        && t in Targets(m, s) && IsHome(mods, t, e.target) && e.target != "" && e.target != m.name
  {
    if e in Visited(mods, m, root, false) {
      VisitedCounts(mods, m, root, false, e);
      var path, s :| Counts(root, path, s) && e in StatementEdges(mods, m, s, false || InsideFunction(root, path));
      var t :| t in Targets(m, s) && Home(mods, t) != "" && Home(mods, t) != m.name
               && e == Edge(Home(mods, t), InsideFunction(root, path));
      HomeIsLongest(mods, t);
    }
    if exists path, s, t :: Counts(root, path, s) && e.inside == InsideFunction(root, path)
                            && t in Targets(m, s) && IsHome(mods, t, e.target) && e.target != "" && e.target != m.name {
      var path, s, t :| Counts(root, path, s) && e.inside == InsideFunction(root, path)
                        && t in Targets(m, s) && IsHome(mods, t, e.target) && e.target != "" && e.target != m.name;
      HomeIsLongest(mods, t);
      HomeIsUnique(mods, t, Home(mods, t), e.target);
      assert e in StatementEdges(mods, m, s, false || InsideFunction(root, path));
      CountedIsVisited(mods, m, root, false, path, s, e);
    }
  }

  // --- what is counted and what runs ---------------------------------------------------------------

  /** The path enters no type-checking guard by its body. */
  predicate Runs(n: Ast, path: seq<nat>)
    decreases |path|
  {
    path == [] || (path[0] < |Children(n)| && (n.Guard? ==> path[0] >= |n.body|) && Runs(Children(n)[path[0]], path[1..]))
  }

  /** A statement that runs when the module, or the function around it, does. */
  predicate RunsAt(n: Ast, path: seq<nat>, s: Ast) {
    path != [] && Runs(n, path) && NodeAt(n, path) == Some(s)
  }

  predicate IsEdgeOf(mods: set<string>, m: Module, root: Ast, path: seq<nat>, s: Ast, e: Edge) {
    e in StatementEdges(mods, m, s, InsideFunction(root, path))
  }

  /** An edge of some statement that runs. */
  ghost predicate IsRunningEdge(mods: set<string>, m: Module, root: Ast, e: Edge) {
    exists path, s :: RunsAt(root, path, s) && IsEdgeOf(mods, m, root, path, s, e)
  }

  lemma {:induction false} UnguardedRuns(n: Ast, path: seq<nat>)
    requires !n.Guard? && Unguarded(n, path)
    ensures Runs(n, path)
    decreases |path|
  {
    if path != [] {
      UnguardedRuns(Children(n)[path[0]], path[1..]);
    }
  }

  /** What a statement in some guard's `else` branch leads to, an unguarded statement leads to as well. */
  ghost predicate ElseBranchesAddNothing(mods: set<string>, m: Module, root: Ast) {
    forall path, s, e :: RunsAt(root, path, s) && !Unguarded(root, path) && IsEdgeOf(mods, m, root, path, s, e) ==>
      exists other, u :: Counts(root, other, u) && IsEdgeOf(mods, m, root, other, u, e)
  }

  /**
   * The scan's edges all come from statements that run, and are all the edges there are exactly when
   * no `else` branch of a type-checking `if` leads anywhere the rest of the module does not.
   */
  lemma ScanSeesWhatRunsExactlyWhen(mods: set<string>, m: Module, root: Ast)
    requires !root.Guard?
    ensures forall e <- Visited(mods, m, root, false) :: IsRunningEdge(mods, m, root, e)
    ensures (forall e :: IsRunningEdge(mods, m, root, e) ==> e in Visited(mods, m, root, false)) <==>
      ElseBranchesAddNothing(mods, m, root)
  {
    forall e | e in Visited(mods, m, root, false)
      ensures IsRunningEdge(mods, m, root, e)
    {
      var path, s := VisitedComesFrom(mods, m, root, e);
      UnguardedRuns(root, path);
      assert RunsAt(root, path, s);
    }
    if ElseBranchesAddNothing(mods, m, root) {
      forall e | IsRunningEdge(mods, m, root, e)
        ensures e in Visited(mods, m, root, false)
      {
        RunningIsVisited(mods, m, root, e);
      }
    } else {
      var path, s, e :| RunsAt(root, path, s) && !Unguarded(root, path) && IsEdgeOf(mods, m, root, path, s, e)
                        && !exists other, u :: Counts(root, other, u) && IsEdgeOf(mods, m, root, other, u, e);
      if e in Visited(mods, m, root, false) {
        var other, u := VisitedComesFrom(mods, m, root, e);
      }
      assert IsRunningEdge(mods, m, root, e) && e !in Visited(mods, m, root, false);
    }
  }

  lemma VisitedComesFrom(mods: set<string>, m: Module, root: Ast, e: Edge) returns (path: seq<nat>, s: Ast)
    requires e in Visited(mods, m, root, false)
    ensures Counts(root, path, s) && IsEdgeOf(mods, m, root, path, s, e)
  {
    VisitedCounts(mods, m, root, false, e);
    path, s :| Counts(root, path, s) && e in StatementEdges(mods, m, s, false || InsideFunction(root, path));
  }

  lemma RunningIsVisited(mods: set<string>, m: Module, root: Ast, e: Edge)
    requires ElseBranchesAddNothing(mods, m, root) && IsRunningEdge(mods, m, root, e)
    ensures e in Visited(mods, m, root, false)
  {
    var path, s :| RunsAt(root, path, s) && IsEdgeOf(mods, m, root, path, s, e);
    if !Unguarded(root, path) {
      var other, u :| Counts(root, other, u) && IsEdgeOf(mods, m, root, other, u, e);
      CountedIsVisited(mods, m, root, false, other, u, e);
    } else {
      CountedIsVisited(mods, m, root, false, path, s, e);
    }
  }

  /** No type-checking `if` outside another one's branches has an `else` branch. */
  predicate ElsesAreEmpty(n: Ast)
    decreases n
  {
    forall c <- Children(n) :: if c.Guard? then c.orelse == [] else ElsesAreEmpty(c)
  }

  lemma {:induction false} RunsUnguarded(n: Ast, path: seq<nat>)
    requires !n.Guard? && ElsesAreEmpty(n) && Runs(n, path) && NodeAt(n, path).Some? && !NodeAt(n, path).value.Guard?
    ensures Unguarded(n, path)
    decreases |path|
  {
    if path != [] {
      var c := Children(n)[path[0]];
      if !c.Guard? {
        RunsUnguarded(c, path[1..]);
      }
    }
  }

  /** What a reader of the module can check: where those `else` branches are empty, the scan sees exactly what runs. */
  lemma EmptyElsesSuffice(mods: set<string>, m: Module, root: Ast, e: Edge)
    requires !root.Guard? && ElsesAreEmpty(root)
    ensures ElseBranchesAddNothing(mods, m, root)
    ensures e in Visited(mods, m, root, false) <==> IsRunningEdge(mods, m, root, e)
  {
    forall path, s, f | RunsAt(root, path, s) && IsEdgeOf(mods, m, root, path, s, f)
      ensures Unguarded(root, path)
    {
      assert !s.Guard?;
      RunsUnguarded(root, path);
    }
    ScanSeesWhatRunsExactlyWhen(mods, m, root);
  }

  /** `if TYPE_CHECKING: pass` with an `else` branch that imports another module. */
  function ElseImport(target: string): Ast {
    Other([Guard([], [Import([target])])])
  }

  /** The import runs, and the scan has no edge for it. */
  lemma ElseImportsAreMissed(mods: set<string>, m: Module, target: string)
    requires target in mods && target != m.name && "nerdit" <= target
    ensures IsRunningEdge(mods, m, ElseImport(target), Edge(target, false))
    ensures Visited(mods, m, ElseImport(target), false) == {}
  {
    var root := ElseImport(target);
    var guard := Children(root)[0];
    var s := Import([target]);
    assert guard == Guard([], [s]) && Children(guard) == [s];
    PathOfOne(guard, 0);
    PathFrom(root, 0, [0]);
    assert [0] + [0] == [0, 0];
    assert [0, 0][1..] == [0] && [0][1..] == [];
    assert Runs(guard, [0]);
    assert RunsAt(root, [0, 0], s);
    assert target in Named([target]) by {
      assert target in [target];
    }
    assert Home(mods, target) == target;
    assert IsEdgeOf(mods, m, root, [0, 0], s, Edge(target, false));
    assert VisitedChild(mods, m, root, 0, false) == {};
  }

  // --- the builder -----------------------------------------------------------------------------------

  function Leads(edges: set<Edge>): set<string> {
    set e <- edges :: e.target
  }

  function Deferred(name: string, edges: set<Edge>): set<(string, string)> {
    set e <- edges | e.inside :: (name, e.target)
  }

  method FindHome(mods: set<string>, target: string) returns (t: string)
    ensures t == Home(mods, target) && IsHome(mods, target, t)
  {
    t := target;
    while t != "" && t !in mods
      invariant Home(mods, t) == Home(mods, target)
      decreases |t|
    {
      t := Chop(t);
    }
    HomeIsLongest(mods, target);
  }

  class EdgeBuilder {
    const mods: set<string>
    var edges: map<string, set<string>>
    var deferred: set<(string, string)>

    constructor (mods: set<string>)
      ensures this.mods == mods && edges == (map m | m in mods :: {}) && deferred == {}
    {
      this.mods := mods;
      edges := map m | m in mods :: {};
      deferred := {};
    }

    predicate Knows(m: Module)
      reads this
    {
      m.name in edges
    }

    /** The module's edges are `before` and those of `found`. */
    ghost predicate Grown(m: Module, before: map<string, set<string>>, late: set<(string, string)>, found: set<Edge>)
      reads this
      requires m.name in before
    {
      edges == before[m.name := before[m.name] + Leads(found)] && deferred == late + Deferred(m.name, found)
    }

    method AddEdge(m: Module, t: string, inside: bool)
      requires Knows(m)
      modifies this`edges, this`deferred
      ensures Grown(m, old(edges), old(deferred), {Edge(t, inside)}) && Knows(m)
    {
      OneEdge(m.name, Edge(t, inside));
      edges := edges[m.name := edges[m.name] + {t}];
      if inside {
        deferred := deferred + {(m.name, t)};
      }
    }

    /** Adds one statement's edges. */
    method AddStatement(m: Module, s: Ast, inside: bool)
      requires Knows(m)
      modifies this`edges, this`deferred
      ensures Grown(m, old(edges), old(deferred), StatementEdges(mods, m, s, inside)) && Knows(m)
    {
      var targets := Targets(m, s);
      var todo := targets;
      ghost var found: set<Edge> := {};
      NothingFound(m, edges, deferred);
      while todo != {}
        invariant todo <= targets && Knows(m)
        invariant found == TargetEdges(mods, m, targets - todo, inside)
        invariant Grown(m, old(edges), old(deferred), found)
        decreases todo
      {
        var tgt :| tgt in todo;
        TakeTarget(targets, todo, tgt);
        OneMoreTarget(mods, m, targets - todo, tgt, inside);
        todo := todo - {tgt};
        var t := FindHome(mods, tgt);
        if t != "" && t != m.name {
          ghost var before, late := edges, deferred;
          AddEdge(m, t, inside);
          GrownTwice(m.name, old(edges), old(deferred), found, {Edge(t, inside)}, before, late);
          found := found + {Edge(t, inside)};
        }
      }
      assert targets - todo == targets;
    }

    /** `visit`: every child, and what lies below it, but nothing of a type-checking guard. */
    method Visit(m: Module, n: Ast, inside: bool)
      requires Knows(m)
      modifies this`edges, this`deferred
      ensures Grown(m, old(edges), old(deferred), Visited(mods, m, n, inside)) && Knows(m)
      decreases n
    {
      var children := Children(n);
      ghost var found: set<Edge> := {};
      NothingFound(m, edges, deferred);
      assert VisitedUpTo(mods, m, n, 0, inside) == {};
      for k := 0 to |children|
        invariant Knows(m) && found == VisitedUpTo(mods, m, n, k, inside)
        invariant Grown(m, old(edges), old(deferred), found)
      {
        var child := children[k];
        OneMoreChild(mods, m, n, k, inside);
        if !child.Guard? {
          var f := inside || child.Def?;
          ghost var before, late := edges, deferred;
          AddStatement(m, child, f);
          GrownTwice(m.name, old(edges), old(deferred), found, StatementEdges(mods, m, child, f), before, late);
          found := found + StatementEdges(mods, m, child, f);
          before, late := edges, deferred;
          Visit(m, child, f);
          GrownTwice(m.name, old(edges), old(deferred), found, Visited(mods, m, child, f), before, late);
          found := found + Visited(mods, m, child, f);
        }
      }
    }

    /** Every module's tree; the result is a graph over the modules, without self-edges. */
    method Build(modules: seq<(Module, Ast)>)
      requires edges == (map m | m in mods :: {}) && deferred == {}
      requires (forall p <- modules :: p.0.name in mods)
      requires (forall i, j :: 0 <= i < j < |modules| ==> modules[i].0.name != modules[j].0.name)
      modifies this`edges, this`deferred
      ensures edges.Keys == mods && forall m <- edges :: edges[m] <= mods && m !in edges[m]
      ensures forall p <- modules :: edges[p.0.name] == Leads(Visited(mods, p.0, p.1, false))
    {
      for i := 0 to |modules|
        invariant edges.Keys == mods && forall m <- edges :: edges[m] <= mods && m !in edges[m]
        invariant forall j :: 0 <= j < i ==> edges[modules[j].0.name] == Leads(Visited(mods, modules[j].0, modules[j].1, false))
        invariant forall j :: i <= j < |modules| ==> edges[modules[j].0.name] == {}
      {
        var (m, tree) := modules[i];
        assert modules[i] in modules;
        VisitedStaysInside(mods, m, tree, false);
        Visit(m, tree, false);
      }
    }
  }

  /**
   * The whole script: the edges of every module's unguarded imports, the components of more than one
   * module, and an exit status of 0 exactly when those edges form no cycle.
   */
  method ScanImports(modules: seq<(Module, Ast)>) returns (edges: Graph, sccs: seq<seq<Node>>, exitStatus: int)
    requires forall i, j :: 0 <= i < j < |modules| ==> modules[i].0.name != modules[j].0.name
    ensures var mods := set p <- modules :: p.0.name;
      && edges.Keys == mods
      && forall p <- modules :: edges[p.0.name] == Leads(Visited(mods, p.0, p.1, false))
    ensures ImportCycles.ReportsExactlyTheCycles(edges, sccs)
    ensures exitStatus == (if Cyclic(edges) then 1 else 0)
  {
    var names := seq(|modules|, i requires 0 <= i < |modules| => modules[i].0.name);
    var mods := set p <- modules :: p.0.name;
    assert ImportCycles.Elements(names) == mods by {
      forall m | m in mods
        ensures m in names
      {
        var i :| 0 <= i < |modules| && modules[i].0.name == m;
        assert names[i] == m;
      }
    }
    var builder := new EdgeBuilder(mods);
    builder.Build(modules);
    edges := builder.edges;
    var scan := new ImportCycles.CycleScan(edges);
    exitStatus := scan.Run(names);
    sccs := scan.sccs;
  }

  function TargetEdges(mods: set<string>, m: Module, targets: set<string>, inside: bool): set<Edge> {
    set t | t in targets && Home(mods, t) != "" && Home(mods, t) != m.name :: Edge(Home(mods, t), inside)
  }

  lemma TakeTarget(targets: set<string>, todo: set<string>, t: string)
    requires t in todo && todo <= targets
    ensures targets - (todo - {t}) == targets - todo + {t}
    ensures todo - {t} < todo
  {
  }

  lemma OneMoreTarget(mods: set<string>, m: Module, targets: set<string>, t: string, inside: bool)
    ensures TargetEdges(mods, m, targets + {t}, inside) ==
      TargetEdges(mods, m, targets, inside)
      + if Home(mods, t) != "" && Home(mods, t) != m.name then {Edge(Home(mods, t), inside)} else {}
  {
    var more := TargetEdges(mods, m, targets + {t}, inside);
    forall u | u in targets + {t} && Home(mods, u) != "" && Home(mods, u) != m.name
      ensures Edge(Home(mods, u), inside) in more
    {
    }
  }

  lemma OneMoreEdge(name: string, found: set<Edge>, e: Edge)
    ensures Leads(found + {e}) == Leads(found) + {e.target}
    ensures Deferred(name, found + {e}) == Deferred(name, found) + if e.inside then {(name, e.target)} else {}
  {
    forall t
      ensures t in Leads(found + {e}) <==> t in Leads(found) + {e.target}
    {
      if t in Leads(found) {
        var f :| f in found && f.target == t;
        assert f in found + {e};
      }
      assert e in found + {e};
    }
    forall p
      ensures p in Deferred(name, found + {e}) <==>
        p in Deferred(name, found) + if e.inside then {(name, e.target)} else {}
    {
      if p in Deferred(name, found) {
        var f :| f in found && f.inside && (name, f.target) == p;
        assert f in found + {e};
      }
      assert e in found + {e};
    }
  }

  lemma OneEdge(name: string, e: Edge)
    ensures Leads({e}) == {e.target}
    ensures Deferred(name, {e}) == if e.inside then {(name, e.target)} else {}
  {
    OneMoreEdge(name, {}, e);
    assert {} + {e} == {e};
    assert Leads({}) == {} && Deferred(name, {}) == {};
  }

  lemma NothingFound(m: Module, edges: map<string, set<string>>, deferred: set<(string, string)>)
    requires m.name in edges
    ensures edges == edges[m.name := edges[m.name] + Leads({})] && deferred == deferred + Deferred(m.name, {})
  {
    assert Leads({}) == {} && edges[m.name] + {} == edges[m.name];
    assert Deferred(m.name, {}) == {};
  }

  function VisitedUpTo(mods: set<string>, m: Module, n: Ast, k: nat, inside: bool): set<Edge>
    requires k <= |Children(n)|
  {
    set i, e | 0 <= i < k && e in VisitedChild(mods, m, n, i, inside) :: e
  }

  lemma OneMoreChild(mods: set<string>, m: Module, n: Ast, k: nat, inside: bool)
    requires k < |Children(n)|
    ensures VisitedUpTo(mods, m, n, k + 1, inside) ==
      VisitedUpTo(mods, m, n, k, inside) + VisitedChild(mods, m, n, k, inside)
  {
  }

  lemma LeadsOfBoth(name: string, a: set<Edge>, b: set<Edge>)
    ensures Leads(a + b) == Leads(a) + Leads(b) && Deferred(name, a + b) == Deferred(name, a) + Deferred(name, b)
  {
    forall t
      ensures t in Leads(a + b) <==> t in Leads(a) + Leads(b)
    {
      if t in Leads(a) {
        var f :| f in a && f.target == t;
        assert f in a + b;
      }
      if t in Leads(b) {
        var f :| f in b && f.target == t;
        assert f in a + b;
      }
    }
    forall p
      ensures p in Deferred(name, a + b) <==> p in Deferred(name, a) + Deferred(name, b)
    {
      if p in Deferred(name, a) {
        var f :| f in a && f.inside && (name, f.target) == p;
        assert f in a + b;
      }
      if p in Deferred(name, b) {
        var f :| f in b && f.inside && (name, f.target) == p;
        assert f in a + b;
      }
    }
  }

  lemma GrownTwice(
    name: string, start: map<string, set<string>>, late0: set<(string, string)>, a: set<Edge>, b: set<Edge>,
    before: map<string, set<string>>, late: set<(string, string)>)
    requires name in start && before == start[name := start[name] + Leads(a)] && late == late0 + Deferred(name, a)
    ensures name in before
    ensures before[name := before[name] + Leads(b)] == start[name := start[name] + Leads(a + b)]
    ensures late + Deferred(name, b) == late0 + Deferred(name, a + b)
  {
    LeadsOfBoth(name, a, b);
    assert start[name] + Leads(a) + Leads(b) == start[name] + Leads(a + b);
  }

  lemma {:induction false} VisitedStaysInside(mods: set<string>, m: Module, n: Ast, inside: bool)
    ensures Leads(Visited(mods, m, n, inside)) <= mods && m.name !in Leads(Visited(mods, m, n, inside))
  {
    forall e | e in Visited(mods, m, n, inside)
      ensures e.target in mods && e.target != m.name
    {
      VisitedCounts(mods, m, n, inside, e);
      var path, s :| Counts(n, path, s) && e in StatementEdges(mods, m, s, inside || InsideFunction(n, path));
      var t :| t in Targets(m, s) && Home(mods, t) != "" && Home(mods, t) == e.target;
      HomeIsLongest(mods, t);
    }
  }
}
