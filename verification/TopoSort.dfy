/**
 The publisher's depth-first topological sort: packages are emitted in post-order, so that a package's
 dependencies are published before it. The graph may have cycles and repeated names.
*/
module TopoSort {

  datatype Pkg = Pkg(name: string, deps: seq<string>)

  function Names(packages: seq<Pkg>): set<string> {
    set p | p in packages :: p.name
  }

  /** A package named `a` depends on a package of the set named `b`. */
  ghost predicate Edge(packages: seq<Pkg>, a: string, b: string) {
    b in Names(packages) && exists p :: p in packages && p.name == a && b in p.deps
  }

  ghost predicate Path(packages: seq<Pkg>, p: seq<string>) {
    |p| > 0 && forall i | 0 <= i < |p| - 1 :: Edge(packages, p[i], p[i + 1])
  }

  ghost predicate Reaches(packages: seq<Pkg>, a: string, b: string) {
    exists p :: Path(packages, p) && p[0] == a && p[|p| - 1] == b
  }

  ghost predicate Acyclic(packages: seq<Pkg>) {
    forall p :: Path(packages, p) && |p| > 1 ==> p[0] != p[|p| - 1]
  }

  ghost predicate UniqueNames(packages: seq<Pkg>) {
    forall i, j | 0 <= i < j < |packages| :: packages[i].name != packages[j].name
  }

  /** Dependency `d` of `sorted[i]` comes before it, or depends on it in turn. */
  ghost predicate Placed(packages: seq<Pkg>, sorted: seq<Pkg>, i: nat, d: string)
    requires i < |sorted|
  {
    d in sorted[i].deps && d in Names(packages) ==>
      d in Names(sorted[..i]) || Reaches(packages, d, sorted[i].name)
  }

  ghost predicate DepsFirstOrCyclic(packages: seq<Pkg>, sorted: seq<Pkg>) {
    forall i, d | 0 <= i < |sorted| && d in sorted[i].deps :: Placed(packages, sorted, i, d)
  }

  ghost predicate DepsFirst(packages: seq<Pkg>, sorted: seq<Pkg>) {
    forall i, d | 0 <= i < |sorted| && d in sorted[i].deps && d in Names(packages) :: d in Names(sorted[..i])
  }

  // -------------------------------------------------------------------- the graph

  lemma Prepend(packages: seq<Pkg>, a: string, p: seq<string>)
    requires Path(packages, p) && Edge(packages, a, p[0])
    ensures Path(packages, [a] + p)
  {
    var q := [a] + p;
    forall i | 0 <= i < |q| - 1 ensures Edge(packages, q[i], q[i + 1]) {
      if i > 0 { assert Edge(packages, p[i - 1], p[i - 1 + 1]); }
    }
  }

  lemma EdgeBackIsCycle(packages: seq<Pkg>, a: string, d: string)
    requires Edge(packages, a, d) && Reaches(packages, d, a)
    ensures !Acyclic(packages)
  {
    var p :| Path(packages, p) && p[0] == d && p[|p| - 1] == a;
    Prepend(packages, a, p);
    var q := [a] + p;
    assert q[0] == q[|q| - 1];
  }

  /** Without cycles the second way for a dependency to be placed is ruled out. */
  lemma AcyclicPutsDepsFirst(packages: seq<Pkg>, sorted: seq<Pkg>)
    requires Acyclic(packages) && DepsFirstOrCyclic(packages, sorted)
    requires forall p <- sorted :: p in packages
    ensures DepsFirst(packages, sorted)
  {
    forall i, d | 0 <= i < |sorted| && d in sorted[i].deps && d in Names(packages)
      ensures d in Names(sorted[..i])
    {
      assert Placed(packages, sorted, i, d);
      assert sorted[i] in packages && Edge(packages, sorted[i].name, d);
      if Reaches(packages, d, sorted[i].name) { EdgeBackIsCycle(packages, sorted[i].name, d); }
    }
  }

  function Position(sorted: seq<Pkg>, name: string): (i: nat)
    requires name in Names(sorted)
    ensures i < |sorted| && sorted[i].name == name
  {
    if sorted[0].name == name then 0 else 1 + Position(sorted[1..], name)
  }

  /** An order that puts every dependency first steps back along every path. */
  lemma {:induction false} PathsStepBack(packages: seq<Pkg>, sorted: seq<Pkg>, p: seq<string>)
    requires DepsFirst(packages, sorted) && UniqueNames(packages) && UniqueNames(sorted)
    requires Names(sorted) == Names(packages) && forall x <- sorted :: x in packages
    requires Path(packages, p) && p[0] in Names(packages)
    ensures p[|p| - 1] in Names(packages)
    ensures Position(sorted, p[|p| - 1]) <= Position(sorted, p[0]) - (|p| - 1)
    decreases |p|
  {
    if |p| == 1 {
    } else {
      var n := |p| - 2;
      var front := p[..n + 1];
      forall i | 0 <= i < |front| - 1 ensures Edge(packages, front[i], front[i + 1]) {
        assert Edge(packages, p[i], p[i + 1]);
      }
      PathsStepBack(packages, sorted, front);
      assert Edge(packages, p[n], p[n + 1]);
      EdgeStepsBack(packages, sorted, p[n], p[n + 1]);
    }
  }

  lemma EdgeStepsBack(packages: seq<Pkg>, sorted: seq<Pkg>, a: string, b: string)
    requires DepsFirst(packages, sorted) && UniqueNames(packages) && UniqueNames(sorted)
    requires Names(sorted) == Names(packages) && forall x <- sorted :: x in packages
    requires a in Names(packages) && Edge(packages, a, b)
    ensures Position(sorted, b) < Position(sorted, a)
  {
    var i, j := Position(sorted, a), Position(sorted, b);
    var x :| x in packages && x.name == a && b in x.deps;
    assert sorted[i] in packages;
    assert sorted[i] == x;
    assert b in Names(sorted[..i]);
    var y :| y in sorted[..i] && y.name == b;
    var k :| 0 <= k < i && sorted[k] == y;
    assert sorted[k].name == sorted[j].name;
  }

  lemma DepsFirstMeansAcyclic(packages: seq<Pkg>, sorted: seq<Pkg>)
    requires DepsFirst(packages, sorted) && UniqueNames(packages) && UniqueNames(sorted)
    requires Names(sorted) == Names(packages) && forall p <- sorted :: p in packages
    ensures Acyclic(packages)
  {
    forall p | Path(packages, p) && |p| > 1 ensures p[0] != p[|p| - 1] {
      assert Edge(packages, p[0], p[1]);
      PathsStepBack(packages, sorted, p);
    }
  }

  lemma {:induction false} OncePerName(s: seq<Pkg>, p: Pkg)
    requires UniqueNames(s)
    ensures multiset(s)[p] == if p in s then 1 else 0
  {
    if s == [] {
    } else {
      assert s == [s[0]] + s[1..];
      OncePerName(s[1..], p);
      assert s[0] !in s[1..];
    }
  }

  lemma SameNamesSamePackages(packages: seq<Pkg>, sorted: seq<Pkg>)
    requires UniqueNames(packages) && UniqueNames(sorted) && Names(sorted) == Names(packages)
    requires forall p <- sorted :: p in packages
    ensures multiset(sorted) == multiset(packages)
  {
    forall p ensures multiset(sorted)[p] == multiset(packages)[p] {
      OncePerName(sorted, p);
      OncePerName(packages, p);
      if p in packages {
        assert p.name in Names(sorted);
        var q :| q in sorted && q.name == p.name;
        assert q == p;
      }
    }
  }

  // ----------------------------------------------------------------- the search

  /** `new Map(...)`: of packages with the same name the last one wins. */
  function ByName(packages: seq<Pkg>): (m: map<string, Pkg>)
    ensures m.Keys == Names(packages)
    ensures forall n <- m :: m[n] in packages && m[n].name == n
  {
    if packages == [] then map[]
    else
      var last := packages[|packages| - 1];
      var front := packages[..|packages| - 1];
      assert packages == front + [last];
      ByName(front)[last.name := last]
  }

  function OnStack(stack: seq<string>): set<string> {
    set n | n in stack
  }

  class Search {
    const packages: seq<Pkg>
    const byName: map<string, Pkg>
    var visited: set<string>
    var sorted: seq<Pkg>

    constructor (packages: seq<Pkg>)
      ensures this.packages == packages && Valid([]) && sorted == []
    {
      this.packages, byName, visited, sorted := packages, ByName(packages), {}, [];
    }

    /** `stack` holds the names whose visit has begun and not ended, outermost first. */
    ghost predicate Valid(stack: seq<string>)
      reads this
    {
      && byName == ByName(packages)
      && visited == Names(sorted) + OnStack(stack) && visited <= Names(packages)
      && UniqueNames(sorted) && (forall p <- sorted :: p in packages)
      && DepsFirstOrCyclic(packages, sorted)
      && (forall n <- stack :: n !in Names(sorted))
      && (stack != [] ==> Path(packages, stack))
    }

    method Visit(pkg: Pkg, ghost stack: seq<string>)
      requires pkg in packages && Valid(stack)
      requires stack != [] ==> Edge(packages, stack[|stack| - 1], pkg.name)
      modifies this
      ensures Valid(stack) && old(sorted) <= sorted && old(visited) <= visited
      ensures pkg.name in visited
      decreases Names(packages) - visited
    {
      hide Names, Edge, Path, Reaches, UniqueNames, DepsFirstOrCyclic, Settled, ByName;
      if pkg.name in visited { return; }
      NamesAre(packages, pkg);
      visited := visited + {pkg.name};
      ghost var inner := stack + [pkg.name];
      PushedIsPath(packages, stack, pkg.name);
      var i := 0;
      while i < |pkg.deps|
        invariant 0 <= i <= |pkg.deps|
        invariant Valid(inner) && old(sorted) <= sorted && old(visited) + {pkg.name} <= visited
        invariant forall k | 0 <= k < i :: Settled(packages, sorted, pkg.name, pkg.deps[k])
      {
        var depName := pkg.deps[i];
        if depName in byName {
          DepIsEdge(packages, pkg, depName);
          ghost var before := sorted;
          Visit(byName[depName], inner);
          forall k | 0 <= k < i ensures Settled(packages, sorted, pkg.name, pkg.deps[k]) {
            StaysSettled(packages, before, sorted, pkg.name, pkg.deps[k]);
          }
          if depName !in Names(sorted) { OnStackReaches(packages, inner, depName); }
        }
        NowSettled(packages, sorted, pkg.name, depName);
        i := i + 1;
      }
      Emitted(packages, sorted, pkg);
      NamesGrow(sorted, pkg);
      sorted := sorted + [pkg];
    }
  }

  /** A dependency the visit of `name` need not wait for any more. */
  ghost predicate Settled(packages: seq<Pkg>, sorted: seq<Pkg>, name: string, d: string) {
    d in Names(packages) ==> d in Names(sorted) || Reaches(packages, d, name)
  }

  lemma NowSettled(packages: seq<Pkg>, sorted: seq<Pkg>, name: string, d: string)
    requires d !in Names(packages) || d in Names(sorted) || Reaches(packages, d, name)
    ensures Settled(packages, sorted, name, d)
  {
  }

  lemma NamesAre(packages: seq<Pkg>, pkg: Pkg)
    requires pkg in packages
    ensures pkg.name in Names(packages)
  {
  }

  lemma NamesGrow(sorted: seq<Pkg>, pkg: Pkg)
    ensures Names(sorted + [pkg]) == Names(sorted) + {pkg.name}
  {
  }

  lemma DepIsEdge(packages: seq<Pkg>, pkg: Pkg, d: string)
    requires pkg in packages && d in pkg.deps && d in Names(packages)
    ensures Edge(packages, pkg.name, d)
  {
  }

  lemma StaysSettled(packages: seq<Pkg>, before: seq<Pkg>, after: seq<Pkg>, name: string, d: string)
    requires before <= after && Settled(packages, before, name, d)
    ensures Settled(packages, after, name, d)
  {
    if d in Names(before) {
      var p :| p in before && p.name == d;
      assert p in after;
    }
  }

  lemma PushedIsPath(packages: seq<Pkg>, stack: seq<string>, name: string)
    requires stack != [] ==> Path(packages, stack) && Edge(packages, stack[|stack| - 1], name)
    ensures Path(packages, stack + [name])
  {
    var p := stack + [name];
    forall i | 0 <= i < |p| - 1 ensures Edge(packages, p[i], p[i + 1]) {
      if i < |stack| - 1 { assert Edge(packages, stack[i], stack[i + 1]); }
    }
  }

  lemma OnStackReaches(packages: seq<Pkg>, stack: seq<string>, d: string)
    requires stack != [] && Path(packages, stack) && d in stack
    ensures Reaches(packages, d, stack[|stack| - 1])
  {
    var j :| 0 <= j < |stack| && stack[j] == d;
    var p := stack[j..];
    forall i | 0 <= i < |p| - 1 ensures Edge(packages, p[i], p[i + 1]) {
      assert Edge(packages, stack[j + i], stack[j + i + 1]);
    }
    assert Path(packages, p) && p[0] == d && p[|p| - 1] == stack[|stack| - 1];
  }

  lemma Emitted(packages: seq<Pkg>, sorted: seq<Pkg>, pkg: Pkg)
    requires DepsFirstOrCyclic(packages, sorted) && UniqueNames(sorted) && pkg.name !in Names(sorted)
    requires forall k | 0 <= k < |pkg.deps| :: Settled(packages, sorted, pkg.name, pkg.deps[k])
    ensures DepsFirstOrCyclic(packages, sorted + [pkg]) && UniqueNames(sorted + [pkg])
  {
    var all := sorted + [pkg];
    forall i, d | 0 <= i < |all| && d in all[i].deps ensures Placed(packages, all, i, d) {
      if i < |sorted| {
        assert Placed(packages, sorted, i, d);
        assert all[..i] == sorted[..i];
      } else {
        assert all[..i] == sorted;
        var k :| 0 <= k < |pkg.deps| && pkg.deps[k] == d;
        assert Settled(packages, sorted, pkg.name, pkg.deps[k]);
      }
    }
    forall i | 0 <= i < |sorted| ensures sorted[i].name != pkg.name {
      assert sorted[i] in sorted;
    }
  }

  /**
   On every graph the sort ends with each name once, and a dependency comes after its dependant only
   when the two are on a cycle. With unique names the result is a permutation, and it puts every
   dependency first exactly when the graph has no cycle.
  */
  method Sort(packages: seq<Pkg>) returns (sorted: seq<Pkg>)
    ensures UniqueNames(sorted) && Names(sorted) == Names(packages) && forall p <- sorted :: p in packages
    ensures DepsFirstOrCyclic(packages, sorted)
    ensures Acyclic(packages) ==> DepsFirst(packages, sorted)
    ensures UniqueNames(packages) ==> multiset(sorted) == multiset(packages)
    ensures UniqueNames(packages) ==> (DepsFirst(packages, sorted) <==> Acyclic(packages))
  {
    hide Names, Edge, Path, Reaches, Acyclic, UniqueNames, DepsFirst, DepsFirstOrCyclic, ByName;
    var search := new Search(packages);
    var i := 0;
    while i < |packages|
      invariant 0 <= i <= |packages|
      invariant search.packages == packages && search.Valid([])
      invariant forall k | 0 <= k < i :: packages[k].name in search.visited
    {
      search.Visit(packages[i], []);
      i := i + 1;
    }
    sorted := search.sorted;
    Whole(packages, sorted);
  }

  lemma Whole(packages: seq<Pkg>, sorted: seq<Pkg>)
    requires UniqueNames(sorted) && DepsFirstOrCyclic(packages, sorted) && forall p <- sorted :: p in packages
    requires forall k | 0 <= k < |packages| :: packages[k].name in Names(sorted)
    ensures Names(sorted) == Names(packages)
    ensures Acyclic(packages) ==> DepsFirst(packages, sorted)
    ensures UniqueNames(packages) ==> multiset(sorted) == multiset(packages)
    ensures UniqueNames(packages) && DepsFirst(packages, sorted) ==> Acyclic(packages)
  {
    forall n | n in Names(packages) ensures n in Names(sorted) {
      var p :| p in packages && p.name == n;
      var k :| 0 <= k < |packages| && packages[k] == p;
    }
    hide Acyclic, DepsFirst, DepsFirstOrCyclic, UniqueNames;
    if Acyclic(packages) { AcyclicPutsDepsFirst(packages, sorted); }
    if UniqueNames(packages) {
      SameNamesSamePackages(packages, sorted);
      if DepsFirst(packages, sorted) { DepsFirstMeansAcyclic(packages, sorted); }
    }
  }
}
