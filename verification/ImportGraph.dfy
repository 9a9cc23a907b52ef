/**
 Cycle detection on the import graph: a three-colour depth-first search over a shared colour map
 and stack (scripts/audit_imports.py, find_cycles).

 The search visits successors and roots in the order `sorted` gives. The model takes that order as
 a parameter, an enumeration of the module names, and holds for every enumeration.
 */
module ImportGraph {

  /** A module, named in dotted notation. */
  datatype Module = Module(name: string)

  type Graph = map<Module, set<Module>>

  function Successors(g: Graph, v: Module): set<Module> {
    if v in g then g[v] else {}
  }

  function Nodes(g: Graph): set<Module> {
    g.Keys + set u, v | u in g.Keys && v in g[u] :: v
  }

  /** The members of s, as the enumeration lists them. */
  function Sorted(order: seq<Module>, s: set<Module>): (r: seq<Module>)
    ensures forall v :: v in r <==> v in order && v in s
  {
    if order == [] then [] else
      (if order[0] in s then [order[0]] else []) + Sorted(order[1..], s)
  }

  ghost predicate Enumerates(order: seq<Module>, g: Graph) {
    forall v :: v in Nodes(g) ==> v in order
  }

  // ---------------------------------------------------------------------------
  // The search as a function of its state
  // ---------------------------------------------------------------------------

  datatype Color = White | Gray | Black

  datatype Search = Search(color: map<Module, Color>, stack: seq<Module>, cycles: seq<seq<Module>>) {
    function ColorOf(v: Module): Color { if v in color then color[v] else White }

    /** The stack holds exactly the nodes whose visit is under way. */
    ghost predicate Coherent() { forall v :: v in stack <==> ColorOf(v) == Gray }
  }

  const START := Search(map[], [], [])

  function Unvisited(g: Graph, st: Search): set<Module> {
    set v | v in Nodes(g) && st.ColorOf(v) == White
  }

  function IndexOf(stack: seq<Module>, v: Module): (i: nat)
    requires v in stack
    ensures i < |stack| && stack[i] == v
  {
    if stack[0] == v then 0 else 1 + IndexOf(stack[1..], v)
  }

  function Open(st: Search, v: Module): Search {
    st.(color := st.color[v := Gray], stack := st.stack + [v])
  }

  function Close(st: Search, v: Module): Search
    requires st.stack != []
  {
    st.(color := st.color[v := Black], stack := st.stack[..|st.stack| - 1])
  }

  function Report(st: Search, v: Module): Search
    requires v in st.stack
  {
    st.(cycles := st.cycles + [st.stack[IndexOf(st.stack, v)..] + [v]])
  }

  lemma Opening(g: Graph, st: Search, v: Module)
    requires st.Coherent() && st.ColorOf(v) == White && v in Nodes(g)
    ensures Open(st, v).Coherent()
    ensures Unvisited(g, Open(st, v)) < Unvisited(g, st)
  {
    assert v in Unvisited(g, st) && v !in Unvisited(g, Open(st, v));
  }

  lemma Closing(g: Graph, st: Search, explored: Search, v: Module)
    requires st.Coherent() && st.ColorOf(v) == White
    requires explored.Coherent() && explored.stack == st.stack + [v]
    ensures Close(explored, v).stack == st.stack && Close(explored, v).Coherent()
    ensures Unvisited(g, Close(explored, v)) <= Unvisited(g, explored)
  {
    assert Close(explored, v).stack == st.stack;
    assert forall u :: u in explored.stack <==> u in st.stack || u == v;
  }

  function Visit(g: Graph, order: seq<Module>, st: Search, v: Module): (r: Search)
    requires st.Coherent() && st.ColorOf(v) == White && v in Nodes(g)
    ensures r.Coherent() && r.stack == st.stack
    ensures Unvisited(g, r) < Unvisited(g, st)
    decreases Unvisited(g, st), 0
  {
    Opening(g, st, v);
    var explored := VisitAll(g, order, Open(st, v), Sorted(order, Successors(g, v)));
    Closing(g, st, explored, v);
    Close(explored, v)
  }

  function VisitAll(g: Graph, order: seq<Module>, st: Search, ns: seq<Module>): (r: Search)
    requires st.Coherent()
    requires forall n :: n in ns ==> n in Nodes(g)
    ensures r.Coherent() && r.stack == st.stack
    ensures Unvisited(g, r) <= Unvisited(g, st)
    decreases Unvisited(g, st), |ns| + 1
  {
    if ns == [] then st else
      assert ns[0] in ns;
      VisitAll(g, order, Meet(g, order, st, ns[0]), ns[1..])
  }

  /** One neighbour: a cycle when it is on the stack, a visit when it is new. */
  function Meet(g: Graph, order: seq<Module>, st: Search, n: Module): (r: Search)
    requires st.Coherent() && n in Nodes(g)
    ensures r.Coherent() && r.stack == st.stack
    ensures Unvisited(g, r) <= Unvisited(g, st)
    decreases Unvisited(g, st), 1
  {
    match st.ColorOf(n)
    case Gray => Report(st, n)
    case White => Visit(g, order, st, n)
    case Black => st
  }

  function FindCycles(g: Graph, order: seq<Module>): seq<seq<Module>> {
    VisitAll(g, order, START, Sorted(order, g.Keys)).cycles
  }

  // ---------------------------------------------------------------------------
  // The search as it runs, on mutable state
  // ---------------------------------------------------------------------------

  class CycleSearch {
    var color: map<Module, Color>
    var stack: seq<Module>
    var cycles: seq<seq<Module>>

    constructor ()
      ensures Current() == START
    {
      color, stack, cycles := map[], [], [];
    }

    function Current(): Search
      reads this
    {
      Search(color, stack, cycles)
    }

    method Dfs(g: Graph, order: seq<Module>, node: Module)
      requires Current().Coherent() && Current().ColorOf(node) == White && node in Nodes(g)
      modifies this
      ensures Current() == Visit(g, order, old(Current()), node)
      decreases Unvisited(g, Current())
    {
      Opening(g, Current(), node);
      color := color[node := Gray];
      stack := stack + [node];
      ghost var entered := Current();
      var neighbors := Sorted(order, Successors(g, node));
      for i := 0 to |neighbors|
        invariant Current().Coherent()
        invariant Unvisited(g, Current()) <= Unvisited(g, entered)
        invariant forall n :: n in neighbors[i..] ==> n in Nodes(g)
        invariant VisitAll(g, order, Current(), neighbors[i..]) == VisitAll(g, order, entered, neighbors)
      {
        var neighbor := neighbors[i];
        assert neighbors[i..][1..] == neighbors[i + 1..];
        if Current().ColorOf(neighbor) == Gray {
          cycles := cycles + [stack[IndexOf(stack, neighbor)..] + [neighbor]];
        } else if Current().ColorOf(neighbor) == White {
          Dfs(g, order, neighbor);
        }
      }
      stack := stack[..|stack| - 1];
      color := color[node := Black];
    }

    method Find(g: Graph, order: seq<Module>) returns (found: seq<seq<Module>>)
      requires Current() == START
      modifies this
      ensures found == FindCycles(g, order)
    {
      var modules := Sorted(order, g.Keys);
      for i := 0 to |modules|
        invariant Current().Coherent() && stack == []
        invariant VisitAll(g, order, Current(), modules[i..]) == VisitAll(g, order, START, modules)
      {
        assert modules[i..][1..] == modules[i + 1..];
        if Current().ColorOf(modules[i]) == White {
          Dfs(g, order, modules[i]);
        }
      }
      found := cycles;
    }
  }

  // ---------------------------------------------------------------------------
  // What a reported cycle is
  // ---------------------------------------------------------------------------

  predicate Edge(g: Graph, w: seq<Module>, i: nat)
    requires i + 1 < |w|
  {
    w[i + 1] in Successors(g, w[i])
  }

  predicate Walk(g: Graph, w: seq<Module>) {
    forall i :: 0 <= i < |w| - 1 ==> Edge(g, w, i)
  }

  predicate ClosedWalk(g: Graph, w: seq<Module>) {
    |w| >= 2 && w[0] == w[|w| - 1] && Walk(g, w)
  }

  ghost predicate Cyclic(g: Graph) {
    exists w :: ClosedWalk(g, w)
  }

  /** [v0, ..., vk, v0] along edges, with v0 to vk distinct. */
  predicate SimpleCycle(g: Graph, c: seq<Module>) {
    && ClosedWalk(g, c)
    && forall i, j :: 0 <= i < j < |c| - 1 ==> c[i] != c[j]
  }

  ghost predicate AllBlack(st: Search, w: seq<Module>) {
    forall i :: 0 <= i < |w| ==> st.ColorOf(w[i]) == Black
  }

  /** The edge from u to v is the one that closes a reported cycle. */
  ghost predicate Closes(cycles: seq<seq<Module>>, u: Module, v: Module) {
    exists c :: c in cycles && |c| >= 2 && c[|c| - 2] == u && c[|c| - 1] == v
  }

  ghost predicate ClosesAt(cycles: seq<seq<Module>>, w: seq<Module>, i: nat)
    requires i + 1 < |w|
  {
    Closes(cycles, w[i], w[i + 1])
  }

  /** The walk takes the closing edge of a reported cycle. */
  ghost predicate Hit(cycles: seq<seq<Module>>, w: seq<Module>) {
    exists i :: 0 <= i < |w| - 1 && ClosesAt(cycles, w, i)
  }

  ghost predicate Settled(st: Search, u: Module, v: Module) {
    st.ColorOf(v) == Black || Closes(st.cycles, u, v)
  }

  ghost predicate BlackIsClosed(g: Graph, st: Search) {
    forall u, v :: st.ColorOf(u) == Black && v in Successors(g, u) ==> Settled(st, u, v)
  }

  ghost predicate BlackIsHit(g: Graph, st: Search) {
    forall w :: ClosedWalk(g, w) && AllBlack(st, w) ==> Hit(st.cycles, w)
  }

  ghost predicate DistinctStack(st: Search) {
    forall i, j :: 0 <= i < j < |st.stack| ==> st.stack[i] != st.stack[j]
  }

  ghost predicate Sound(g: Graph, st: Search) {
    && st.Coherent()
    && DistinctStack(st)
    && Walk(g, st.stack)
    && (forall c :: c in st.cycles ==> SimpleCycle(g, c))
    && BlackIsClosed(g, st)
    && BlackIsHit(g, st)
  }

  ghost predicate Extends(st: Search, r: Search) {
    && st.cycles <= r.cycles
    && forall u :: st.ColorOf(u) != White ==> r.ColorOf(u) == st.ColorOf(u)
  }

  /** The search is done with the nodes ns, as successors of the node on top of the stack. */
  ghost predicate AllDone(st: Search, ns: seq<Module>) {
    forall n :: n in ns ==> st.ColorOf(n) == Black || (st.stack != [] && Closes(st.cycles, st.stack[|st.stack| - 1], n))
  }

  /** The nodes ns are where the search may go next. */
  ghost predicate Reachable(g: Graph, st: Search, ns: seq<Module>) {
    st.stack == [] || forall n :: n in ns ==> n in Successors(g, st.stack[|st.stack| - 1])
  }

  lemma OpeningIsSound(g: Graph, st: Search, v: Module)
    requires Sound(g, st) && st.ColorOf(v) == White && Reachable(g, st, [v])
    ensures Sound(g, Open(st, v)) && Extends(st, Open(st, v))
    ensures forall n :: n in Successors(g, v) ==> Reachable(g, Open(st, v), [n])
  {
    var entered := Open(st, v);
    assert v in [v];
    assert v !in st.stack;
    assert Walk(g, entered.stack) by {
      forall i | 0 <= i < |entered.stack| - 1 ensures Edge(g, entered.stack, i) {
        if i < |st.stack| - 1 { assert Edge(g, st.stack, i); }
      }
    }
    BlackStays(g, st, entered);
  }

  lemma ClosingIsSound(g: Graph, st: Search, explored: Search, v: Module)
    requires Sound(g, st) && st.ColorOf(v) == White
    requires Sound(g, explored) && Extends(Open(st, v), explored) && explored.stack == st.stack + [v]
    requires forall n :: n in Successors(g, v) ==> Settled(explored, v, n)
    ensures Sound(g, Close(explored, v)) && Extends(st, Close(explored, v))
  {
    var closed := Close(explored, v);
    assert closed.stack == st.stack;
    assert forall u :: u in explored.stack <==> u in st.stack || u == v;
    assert Open(st, v).ColorOf(v) == Gray;
    ClosingKeepsHit(g, explored, closed, v);
  }

  lemma {:induction false} VisitIsSound(g: Graph, order: seq<Module>, st: Search, v: Module)
    requires Sound(g, st) && Enumerates(order, g)
    requires st.ColorOf(v) == White && v in Nodes(g) && Reachable(g, st, [v])
    ensures var r := Visit(g, order, st, v);
            Sound(g, r) && Extends(st, r) && r.ColorOf(v) == Black
    decreases Unvisited(g, st), 0
  {
    Opening(g, st, v);
    OpeningIsSound(g, st, v);
    var entered, ns := Open(st, v), Sorted(order, Successors(g, v));
    assert forall n :: n in Successors(g, v) ==> n in Nodes(g) && n in ns;
    VisitAllIsSound(g, order, entered, ns);
    ClosingIsSound(g, st, VisitAll(g, order, entered, ns), v);
  }

  lemma {:induction false} MeetIsSound(g: Graph, order: seq<Module>, st: Search, n: Module)
    requires Sound(g, st) && Enumerates(order, g) && n in Nodes(g) && Reachable(g, st, [n])
    ensures var r := Meet(g, order, st, n);
            Sound(g, r) && Extends(st, r) && AllDone(r, [n])
    decreases Unvisited(g, st), 1
  {
    assert n in [n];
    match st.ColorOf(n) {
      case Gray => ReportIsSound(g, st, n);
      case White => VisitIsSound(g, order, st, n);
      case Black =>
    }
  }

  lemma {:induction false} VisitAllIsSound(g: Graph, order: seq<Module>, st: Search, ns: seq<Module>)
    requires Sound(g, st) && Enumerates(order, g)
    requires (forall n :: n in ns ==> n in Nodes(g)) && Reachable(g, st, ns)
    ensures var r := VisitAll(g, order, st, ns);
            Sound(g, r) && Extends(st, r) && AllDone(r, ns)
    decreases Unvisited(g, st), |ns| + 1
  {
    if ns != [] {
      HeadAndTail(g, st, ns);
      MeetIsSound(g, order, st, ns[0]);
      var next := Meet(g, order, st, ns[0]);
      VisitAllIsSound(g, order, next, ns[1..]);
      StaysDone(st, next, VisitAll(g, order, next, ns[1..]), ns);
    }
  }

  lemma HeadAndTail(g: Graph, st: Search, ns: seq<Module>)
    requires ns != [] && (forall n :: n in ns ==> n in Nodes(g)) && Reachable(g, st, ns)
    ensures ns[0] in Nodes(g) && Reachable(g, st, [ns[0]])
    ensures (forall n :: n in ns[1..] ==> n in Nodes(g)) && Reachable(g, st, ns[1..])
  {
    assert ns[0] in ns;
    assert forall n :: n in ns[1..] ==> n in ns;
  }

  lemma StaysDone(st: Search, next: Search, r: Search, ns: seq<Module>)
    requires Extends(st, next) && Extends(next, r) && ns != [] && next.stack == r.stack
    requires AllDone(next, [ns[0]]) && AllDone(r, ns[1..])
    ensures Extends(st, r) && AllDone(r, ns)
  {
    assert ns[0] in [ns[0]];
    if next.ColorOf(ns[0]) != Black {
      ClosesGrows(next.cycles, r.cycles, r.stack[|r.stack| - 1], ns[0]);
    }
    assert forall m :: m in ns <==> m == ns[0] || m in ns[1..];
  }

  lemma ClosesGrows(cycles: seq<seq<Module>>, more: seq<seq<Module>>, u: Module, v: Module)
    requires cycles <= more && Closes(cycles, u, v)
    ensures Closes(more, u, v)
  {
    var c :| c in cycles && |c| >= 2 && c[|c| - 2] == u && c[|c| - 1] == v;
    assert c in more;
  }

  /** More cycles and the same finished nodes. */
  lemma BlackStays(g: Graph, st: Search, st': Search)
    requires BlackIsClosed(g, st) && BlackIsHit(g, st) && st.cycles <= st'.cycles
    requires forall u :: st'.ColorOf(u) == Black <==> st.ColorOf(u) == Black
    ensures BlackIsClosed(g, st') && BlackIsHit(g, st')
  {
    forall u, v | st'.ColorOf(u) == Black && v in Successors(g, u) ensures Settled(st', u, v) {
      assert Settled(st, u, v);
      if st.ColorOf(v) != Black { ClosesGrows(st.cycles, st'.cycles, u, v); }
    }
    forall w | ClosedWalk(g, w) && AllBlack(st', w) ensures Hit(st'.cycles, w) {
      assert AllBlack(st, w) && Hit(st.cycles, w);
      var i :| 0 <= i < |w| - 1 && ClosesAt(st.cycles, w, i);
      ClosesGrows(st.cycles, st'.cycles, w[i], w[i + 1]);
      assert ClosesAt(st'.cycles, w, i);
    }
  }

  /** A grey neighbour of the node on top of the stack closes a simple cycle. */
  lemma ReportIsSimple(g: Graph, st: Search, n: Module)
    requires Walk(g, st.stack) && DistinctStack(st)
    requires n in st.stack && n in Successors(g, st.stack[|st.stack| - 1])
    ensures SimpleCycle(g, st.stack[IndexOf(st.stack, n)..] + [n])
  {
    var d := IndexOf(st.stack, n);
    var c := st.stack[d..] + [n];
    forall i | 0 <= i < |c| - 1 ensures Edge(g, c, i) {
      if i < |c| - 2 { assert Edge(g, st.stack, d + i); }
    }
    assert Walk(g, c);
  }

  lemma ReportIsSound(g: Graph, st: Search, n: Module)
    requires Sound(g, st) && n in st.stack && n in Successors(g, st.stack[|st.stack| - 1])
    ensures Sound(g, Report(st, n)) && Extends(st, Report(st, n))
    ensures Closes(Report(st, n).cycles, st.stack[|st.stack| - 1], n)
  {
    var c := st.stack[IndexOf(st.stack, n)..] + [n];
    ReportIsSimple(g, st, n);
    BlackStays(g, st, Report(st, n));
    assert c in Report(st, n).cycles && c[|c| - 2] == st.stack[|st.stack| - 1] && c[|c| - 1] == n;
  }

  /** From a finished node on, a walk that takes no closing edge stays among finished nodes. */
  lemma {:induction false} BlackStaysBlack(g: Graph, st: Search, w: seq<Module>, i: nat, j: nat)
    requires BlackIsClosed(g, st) && Walk(g, w) && !Hit(st.cycles, w)
    requires i <= j < |w| && st.ColorOf(w[i]) == Black
    ensures st.ColorOf(w[j]) == Black
  {
    if i < j {
      BlackStaysBlack(g, st, w, i, j - 1);
      assert Edge(g, w, j - 1) && !ClosesAt(st.cycles, w, j - 1);
    }
  }

  /** Finishing a node whose edges are all settled adds no closed walk that the report misses. */
  lemma ClosingKeepsHit(g: Graph, st: Search, st': Search, v: Module)
    requires BlackIsClosed(g, st) && BlackIsHit(g, st) && st.ColorOf(v) != Black && st'.cycles == st.cycles
    requires forall n :: n in Successors(g, v) ==> Settled(st, v, n)
    requires forall u :: st'.ColorOf(u) == Black <==> u == v || st.ColorOf(u) == Black
    ensures BlackIsClosed(g, st') && BlackIsHit(g, st')
  {
    forall w | ClosedWalk(g, w) && AllBlack(st', w) ensures Hit(st'.cycles, w) {
      if !AllBlack(st, w) && !Hit(st.cycles, w) {
        var k :| 0 <= k < |w| && st.ColorOf(w[k]) != Black;
        var i := if k == |w| - 1 then 0 else k;
        assert w[i] == v && Edge(g, w, i) && !ClosesAt(st.cycles, w, i);
        BlackStaysBlack(g, st, w, i + 1, |w| - 1);
        BlackStaysBlack(g, st, w, 0, i);
      }
    }
  }

  /** Every reported list is a real simple cycle. */
  lemma ReportedCyclesAreReal(g: Graph, order: seq<Module>)
    requires Enumerates(order, g)
    ensures forall c :: c in FindCycles(g, order) ==> SimpleCycle(g, c)
  {
    VisitAllIsSound(g, order, START, Sorted(order, g.Keys));
  }

  lemma WalkFromKeys(g: Graph, order: seq<Module>, w: seq<Module>, i: nat)
    requires Enumerates(order, g) && ClosedWalk(g, w) && i < |w|
    ensures w[i] in Sorted(order, g.Keys)
  {
    var k := if i == |w| - 1 then 0 else i;
    assert Edge(g, w, k);
    assert w[k] in Nodes(g);
  }

  /** Whatever the order, every closed walk of the graph takes the closing edge of some reported
      cycle: without those edges the graph would be acyclic. */
  lemma EveryCycleIsHit(g: Graph, order: seq<Module>, w: seq<Module>)
    requires Enumerates(order, g) && ClosedWalk(g, w)
    ensures Hit(FindCycles(g, order), w)
  {
    var roots := Sorted(order, g.Keys);
    VisitAllIsSound(g, order, START, roots);
    var end := VisitAll(g, order, START, roots);
    assert AllBlack(end, w) by {
      forall i | 0 <= i < |w| ensures end.ColorOf(w[i]) == Black {
        WalkFromKeys(g, order, w, i);
      }
    }
  }

  /** The search reports nothing if and only if the graph has no cycle. */
  lemma FindCyclesIsComplete(g: Graph, order: seq<Module>)
    requires Enumerates(order, g)
    ensures FindCycles(g, order) == [] <==> !Cyclic(g)
  {
    var cycles := FindCycles(g, order);
    if w :| ClosedWalk(g, w) {
      EveryCycleIsHit(g, order, w);
    }
    if cycles != [] {
      ReportedCyclesAreReal(g, order);
      assert cycles[0] in cycles;
    }
  }
}
