/**
 A cycle between packages that find_init_cycles does not report (scripts/audit_imports.py).

 r and x share a package and import each other; r imports y, of another package, which imports x.
 The search reports [r, x, r], closes x, and never sees that r, y, x, r is a cycle too.
 */
module MissedCycle {
  import opened ImportGraph
  import opened InitCycles

  function Pick(s: set<Module>, m: Module): seq<Module> { if m in s then [m] else [] }

  lemma SortedThree(r: Module, x: Module, y: Module, s: set<Module>)
    ensures Sorted([r, x, y], s) == Pick(s, r) + (Pick(s, x) + Pick(s, y))
  {
    assert [r, x, y][1..] == [x, y] && [x, y][1..] == [y] && [y][1..] == [];
    assert Sorted([y], s) == Pick(s, y) + Sorted([], s) == Pick(s, y);
    assert Sorted([x, y], s) == Pick(s, x) + Sorted([y], s);
  }

  lemma MeetTwo(g: Graph, order: seq<Module>, st: Search, a: Module, b: Module)
    requires st.Coherent() && a in Nodes(g) && b in Nodes(g)
    ensures VisitAll(g, order, st, [a, b]) == Meet(g, order, Meet(g, order, st, a), b)
  {
    assert [a, b][1..] == [b] && [b][1..] == [];
    MeetOne(g, order, Meet(g, order, st, a), b);
  }

  lemma MeetOne(g: Graph, order: seq<Module>, st: Search, a: Module)
    requires st.Coherent() && a in Nodes(g)
    ensures VisitAll(g, order, st, [a]) == Meet(g, order, st, a)
  {
    var ns := [a];
    assert ns[1..] == [];
    assert VisitAll(g, order, Meet(g, order, st, a), ns[1..]) == Meet(g, order, st, a);
  }

  /** Visiting a node with one successor. */
  lemma VisitOne(g: Graph, order: seq<Module>, st: Search, v: Module, n: Module)
    requires st.Coherent() && st.ColorOf(v) == White && v in Nodes(g) && n in Nodes(g)
    requires Sorted(order, Successors(g, v)) == [n] && n != v
    ensures st.ColorOf(n) == Gray ==> n in st.stack && Visit(g, order, st, v) == Close(Report(Open(st, v), n), v)
    ensures st.ColorOf(n) == Black ==> Visit(g, order, st, v) == Close(Open(st, v), v)
  {
    Opening(g, st, v);
    MeetOne(g, order, Open(st, v), n);
  }

  ghost predicate ThreeModules(g: Graph, r: Module, x: Module, y: Module) {
    && r != x && x != y && r != y
    && g.Keys == {r, x, y}
    && g[r] == {x, y} && g[x] == {r} && g[y] == {x}
  }

  lemma ThreeNodes(g: Graph, r: Module, x: Module, y: Module)
    requires ThreeModules(g, r, x, y)
    ensures r in Nodes(g) && x in Nodes(g) && y in Nodes(g)
    ensures forall m :: m in Nodes(g) ==> m in [r, x, y]
  {
    assert r in g.Keys && x in g.Keys && y in g.Keys;
  }

  lemma ThreeSorted(g: Graph, r: Module, x: Module, y: Module)
    requires ThreeModules(g, r, x, y)
    ensures Sorted([r, x, y], Successors(g, r)) == [x, y]
    ensures Sorted([r, x, y], Successors(g, x)) == [r]
    ensures Sorted([r, x, y], Successors(g, y)) == [x]
    ensures Sorted([r, x, y], g.Keys) == [r, x, y]
  {
    SortedThree(r, x, y, g[r]);
    SortedThree(r, x, y, g[x]);
    SortedThree(r, x, y, g[y]);
    SortedThree(r, x, y, g.Keys);
  }

  // The search after entering r, after x, and after y.

  function InR(r: Module): Search { Search(map[r := Gray], [r], []) }

  function AfterX(r: Module, x: Module): Search { Search(map[r := Gray, x := Black], [r], [[r, x, r]]) }

  function AfterY(r: Module, x: Module, y: Module): Search {
    Search(map[r := Gray, x := Black, y := Black], [r], [[r, x, r]])
  }

  function AfterR(r: Module, x: Module, y: Module): Search {
    Search(map[r := Black, x := Black, y := Black], [], [[r, x, r]])
  }

  lemma StateAfterX(r: Module, x: Module)
    requires r != x
    ensures InR(r).Coherent() && r in Open(InR(r), x).stack
    ensures Close(Report(Open(InR(r), x), r), x) == AfterX(r, x)
  {
    var entered := Open(InR(r), x);
    assert entered.stack == [r, x] && IndexOf([r, x], r) == 0 && [r, x][0..] + [r] == [r, x, r];
    assert Close(Report(entered, r), x).color == map[r := Gray, x := Black];
  }

  lemma StateAfterY(r: Module, x: Module, y: Module)
    requires r != x && x != y && r != y
    ensures AfterX(r, x).Coherent() && Close(Open(AfterX(r, x), y), y) == AfterY(r, x, y)
    ensures Open(START, r) == InR(r) && Close(AfterY(r, x, y), r) == AfterR(r, x, y)
  {
    assert Close(Open(AfterX(r, x), y), y).color == map[r := Gray, x := Black, y := Black];
  }

  lemma VisitR(g: Graph, r: Module, x: Module, y: Module)
    requires ThreeModules(g, r, x, y)
    ensures r in Nodes(g) && Visit(g, [r, x, y], START, r) == AfterR(r, x, y)
  {
    var order := [r, x, y];
    ThreeNodes(g, r, x, y);
    ThreeSorted(g, r, x, y);
    StateAfterX(r, x);
    StateAfterY(r, x, y);
    VisitOne(g, order, InR(r), x, r);
    VisitOne(g, order, AfterX(r, x), y, x);
    MeetTwo(g, order, InR(r), x, y);
  }

  /** r and x import each other; r imports y, which imports x. The search, entering at r, is done
      with x before it sees y, and reports [r, x, r] only. */
  lemma SearchOfThree(g: Graph, r: Module, x: Module, y: Module)
    requires ThreeModules(g, r, x, y)
    ensures FindCycles(g, [r, x, y]) == [[r, x, r]]
  {
    var order := [r, x, y];
    ThreeNodes(g, r, x, y);
    ThreeSorted(g, r, x, y);
    VisitR(g, r, x, y);
    var end := AfterR(r, x, y);
    assert order[1..] == [x, y];
    MeetTwo(g, order, end, x, y);
    assert Meet(g, order, START, r) == end;
    assert VisitAll(g, order, START, order) == VisitAll(g, order, end, order[1..]);
  }

  lemma SameLengthHops(modules: set<Module>, src: Module, targets: set<Module>)
    requires forall m :: m in modules ==> |m.name| == 13
    requires targets <= modules && src !in targets
    ensures Hops(modules, src, targets) == targets
  {
    forall m | m in modules ensures RunBy(m, targets) <==> m in targets {
      if RunBy(m, targets) {
        var t :| t in targets && DottedPrefix(m.name, t.name);
        assert m.name == t.name[..13] == t.name;
      }
      assert DottedPrefix(m.name, m.name);
    }
  }

  lemma OwnExtension(modules: set<Module>, top: Graph)
    requires forall m :: m in top ==> Hops(modules, m, top[m]) == top[m] && top[m] != {}
    ensures Extended(modules, top) == top
  {
    assert Extended(modules, top).Keys == top.Keys;
  }

  ghost predicate ClosedGraph(g: Graph) {
    forall m :: m in g ==> g[m] <= g.Keys && m !in g[m] && g[m] != {} && |m.name| == 13
  }

  lemma ThreeClosed(g: Graph, r: Module, x: Module, y: Module)
    requires ThreeModules(g, r, x, y) && |r.name| == |x.name| == |y.name| == 13
    ensures ClosedGraph(g) && Resolved(g.Keys, g)
  {
  }

  lemma SameLengthExtension(g: Graph)
    requires ClosedGraph(g)
    ensures Extended(g.Keys, g) == g
  {
    var modules := g.Keys;
    assert forall m :: m in modules ==> |m.name| == 13;
    forall m | m in g ensures Hops(modules, m, g[m]) == g[m] && g[m] != {} {
      SameLengthHops(modules, m, g[m]);
    }
    OwnExtension(modules, g);
  }

  lemma CycleOfThree(g: Graph, r: Module, x: Module, y: Module)
    requires ThreeModules(g, r, x, y)
    ensures SimpleCycle(g, [r, y, x, r])
  {
    var cycle := [r, y, x, r];
    assert Edge(g, cycle, 0) && Edge(g, cycle, 1) && Edge(g, cycle, 2);
  }

  lemma OnePackageDropped(r: Module, x: Module)
    requires Package(r) == Package(x)
    ensures Kept([[r, x, r]]) == []
  {
    assert Packages([r, x, r]) == {Package(r)};
    assert [[r, x, r]][..0] == [];
  }

  /** The verdict on a graph that is its own extension. */
  ghost predicate Missed(top: Graph, order: seq<Module>, cycle: seq<Module>) {
    && Extended(top.Keys, top) == top
    && Resolved(top.Keys, top)
    && Enumerates(order, top)
    && SimpleCycle(top, cycle)
    && |Packages(cycle)| >= 2
    && Kept(FindCycles(top, order)) == []
  }

  lemma ThreeFindings(g: Graph, r: Module, x: Module, y: Module)
    requires ThreeModules(g, r, x, y) && Package(r) == Package(x)
    ensures Enumerates([r, x, y], g) && Kept(FindCycles(g, [r, x, y])) == []
  {
    ThreeNodes(g, r, x, y);
    SearchOfThree(g, r, x, y);
    OnePackageDropped(r, x);
  }

  lemma MissedInThree(g: Graph, r: Module, x: Module, y: Module)
    requires ThreeModules(g, r, x, y) && Package(r) == Package(x) != Package(y)
    requires |r.name| == |x.name| == |y.name| == 13
    ensures Missed(g, [r, x, y], [r, y, x, r])
  {
    ThreeClosed(g, r, x, y);
    SameLengthExtension(g);
    ThreeFindings(g, r, x, y);
    CycleOfThree(g, r, x, y);
    SpansTwo(r, x, y);
  }

  lemma SpansTwo(r: Module, x: Module, y: Module)
    requires Package(r) != Package(y)
    ensures |Packages([r, y, x, r])| >= 2
  {
    TwoPackages([r, y, x, r], 0, 1);
  }

  lemma ThreeGraph(r: Module, x: Module, y: Module) returns (g: Graph)
    requires r != x && x != y && r != y
    ensures ThreeModules(g, r, x, y)
  {
    g := map[r := {x, y}, x := {r}, y := {x}];
  }

  /** The module transcria.<a>.<leaf>. */
  lemma Example(a: string, leaf: string) returns (m: Module)
    requires |a| == 1 && a[0] != '.' && |leaf| == 1
    ensures |m.name| == 13 && m.name[12] == leaf[0]
    ensures Package(m) == "transcria." + a
  {
    m := Module("transcria" + ("." + (a + ("." + leaf))));
    PackageUnderTranscria(a, "." + leaf);
    assert "transcria" + ("." + a) == "transcria." + a;
  }

  /** So `find_init_cycles` can return nothing although two packages import each other. */
  lemma CycleBetweenPackagesMissed() returns (top: Graph, order: seq<Module>, cycle: seq<Module>)
    ensures Missed(top, order, cycle)
  {
    var r := Example("a", "r");
    var x := Example("a", "x");
    var y := Example("b", "y");
    assert Package(r)[10] == 'a' && Package(y)[10] == 'b';
    top := ThreeGraph(r, x, y);
    order, cycle := [r, x, y], [r, y, x, r];
    MissedInThree(top, r, x, y);
  }
}
