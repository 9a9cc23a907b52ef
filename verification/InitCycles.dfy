/**
 Import cycles between packages, counting the packages' own `__init__` modules
 (scripts/audit_imports.py, resolve and find_init_cycles).
 */
module InitCycles {
  import opened Wrappers
  import opened ImportGraph
  import opened ClosingEdges

  // ---------------------------------------------------------------------------
  // Dotted names
  // ---------------------------------------------------------------------------

  /** p is name, or name up to one of its dots. */
  predicate DottedPrefix(p: string, name: string) {
    p <= name && (|p| == |name| || name[|p|] == '.')
  }

  /** What stands before the last dot; nothing when there is none. */
  function BeforeLastDot(s: string): (head: string)
    ensures head <= s && (s != "" ==> |head| < |s|)
    ensures forall i :: |head| < i < |s| ==> s[i] != '.'
    ensures head != "" ==> s[|head|] == '.'
  {
    if s == "" then ""
    else if s[|s| - 1] == '.' then s[..|s| - 1]
    else BeforeLastDot(s[..|s| - 1])
  }

  /** An imported name stands for the longest of its dotted prefixes that is a module. */
  method Resolve(modules: set<Module>, target: string) returns (r: Option<Module>)
    ensures r.Some? ==> r.value in modules && r.value.name != "" && DottedPrefix(r.value.name, target)
    ensures r.Some? ==> forall m :: m in modules && DottedPrefix(m.name, target) ==> |m.name| <= |r.value.name|
    ensures r.None? ==> forall m :: m in modules && DottedPrefix(m.name, target) ==> m.name == ""
  {
    var name := target;
    while name != "" && Module(name) !in modules
      invariant name <= target && (name == "" || DottedPrefix(name, target))
      invariant forall m :: m in modules && DottedPrefix(m.name, target) ==> |m.name| <= |name|
      decreases |name|
    {
      var head := BeforeLastDot(name);
      forall m | m in modules && DottedPrefix(m.name, target) ensures |m.name| <= |head| {
        assert m.name <= name && m != Module(name);
        assert |m.name| < |name|;
        assert name[|m.name|] == target[|m.name|] == '.';
      }
      assert head != "" ==> target[|head|] == name[|head|];
      name := head;
    }
    r := if name != "" then Some(Module(name)) else None;
  }

  /** The packages executed on the way to a module, and the module itself. */
  function Ancestors(modules: set<Module>, m: Module): set<Module> {
    set a | a in modules && DottedPrefix(a.name, m.name)
  }

  /** The first n dot-separated parts of a name. */
  function Parts(s: string, n: nat): string
    requires n >= 1
  {
    if s == "" then ""
    else if s[0] == '.' then (if n == 1 then "" else "." + Parts(s[1..], n - 1))
    else [s[0]] + Parts(s[1..], n)
  }

  function Package(m: Module): string {
    if Parts(m.name, 1) == "transcria" then Parts(m.name, 2) else Parts(m.name, 1)
  }

  ghost predicate NoDot(s: string) { forall i :: 0 <= i < |s| ==> s[i] != '.' }

  lemma {:induction false} PartsSkip(p: string, s: string, n: nat)
    requires n >= 1 && NoDot(p)
    ensures Parts(p + s, n) == p + Parts(s, n)
  {
    if p == "" {
      assert p + s == s && p + Parts(s, n) == Parts(s, n);
    } else {
      assert (p + s)[1..] == p[1..] + s;
      PartsSkip(p[1..], s, n);
      assert p == [p[0]] + p[1..];
    }
  }

  /** p is name itself, or what stands before one of its dots. */
  lemma PrefixOfName(p: string, name: string)
    ensures DottedPrefix(p, name) <==> p == name || p + "." <= name
  {
    if p <= name && |p| < |name| && name[|p|] == '.' {
      assert p + "." == name[..|p| + 1];
    }
    if p + "." <= name {
      assert name[..|p| + 1] == p + ".";
      assert p == (p + ".")[..|p|] == name[..|p|];
    }
  }

  /** A module belongs to the package its name starts with: the first part, or the first two when the first
      is transcria. */
  lemma PackageOfName(head: string, rest: string)
    requires NoDot(head) && (rest == "" || rest[0] == '.')
    ensures head != "transcria" ==> Package(Module(head + rest)) == head
    ensures head == "transcria" && rest == "" ==> Package(Module(head + rest)) == head
  {
    PartsSkip(head, rest, 1);
    PartsSkip(head, rest, 2);
    assert Parts(rest, 1) == "";
    assert head + "" == head;
  }

  lemma PackageUnderTranscria(part: string, rest: string)
    requires NoDot(part) && (rest == "" || rest[0] == '.')
    ensures Package(Module("transcria" + ("." + (part + rest)))) == "transcria" + ("." + part)
  {
    var tail := "." + (part + rest);
    PartsSkip("transcria", tail, 1);
    PartsSkip("transcria", tail, 2);
    assert tail[1..] == part + rest;
    PartsSkip(part, rest, 1);
    assert Parts(rest, 1) == "";
    assert part + "" == part;
  }

  // ---------------------------------------------------------------------------
  // The extended graph
  // ---------------------------------------------------------------------------

  /** Importing one of the targets runs the module m. */
  ghost predicate RunBy(m: Module, targets: set<Module>) {
    exists t :: t in targets && DottedPrefix(m.name, t.name)
  }

  ghost function Hops(modules: set<Module>, src: Module, targets: set<Module>): set<Module> {
    set m | m in modules && m != src && RunBy(m, targets)
  }

  ghost function Extended(modules: set<Module>, top: Graph): Graph {
    map src | src in top && Hops(modules, src, top[src]) != {} :: Hops(modules, src, top[src])
  }

  lemma OneMoreTarget(modules: set<Module>, src: Module, done: set<Module>, target: Module)
    ensures Hops(modules, src, done + {target})
            == Hops(modules, src, done) + set m | m in Ancestors(modules, target) && m != src
  {
    forall m ensures RunBy(m, done + {target}) <==> RunBy(m, done) || DottedPrefix(m.name, target.name) {
      if RunBy(m, done) {
        var t :| t in done && DottedPrefix(m.name, t.name);
        assert t in done + {target};
      }
    }
  }

  method AddHops(modules: set<Module>, src: Module, targets: set<Module>) returns (hops: set<Module>)
    ensures hops == Hops(modules, src, targets)
  {
    hops := {};
    var todo := targets;
    while todo != {}
      invariant todo <= targets
      invariant hops == Hops(modules, src, targets - todo)
      decreases todo
    {
      var target :| target in todo;
      OneMoreTarget(modules, src, targets - todo, target);
      assert targets - todo + {target} == targets - (todo - {target});
      hops := hops + set m | m in Ancestors(modules, target) && m != src;
      todo := todo - {target};
    }
    assert targets - todo == targets;
  }

  method Extend(modules: set<Module>, top: Graph) returns (edges: Graph)
    ensures edges == Extended(modules, top)
  {
    edges := map[];
    var todo := top.Keys;
    while todo != {}
      invariant todo <= top.Keys
      invariant edges == map src | src in Extended(modules, top) && src !in todo :: Extended(modules, top)[src]
      decreases todo
    {
      var src :| src in todo;
      var hops := AddHops(modules, src, top[src]);
      if hops != {} {
        edges := edges[src := hops];
      }
      todo := todo - {src};
    }
  }

  // ---------------------------------------------------------------------------
  // Findings
  // ---------------------------------------------------------------------------

  function NodeSet(c: seq<Module>): set<Module> { set m | m in c }

  function Packages(c: seq<Module>): set<string> { set m | m in c :: Package(m) }

  ghost predicate Seen(findings: seq<seq<Module>>, c: seq<Module>) {
    exists f :: f in findings && NodeSet(f) == NodeSet(c)
  }

  ghost function Kept(cycles: seq<seq<Module>>): seq<seq<Module>> {
    if cycles == [] then [] else
      var earlier, c := Kept(cycles[..|cycles| - 1]), cycles[|cycles| - 1];
      if Seen(earlier, c) || |Packages(c)| < 2 then earlier else earlier + [c]
  }

  /** `seen` holds the node sets of the findings. */
  ghost predicate Remembers(seen: set<set<Module>>, findings: seq<seq<Module>>) {
    forall c: seq<Module> :: NodeSet(c) in seen <==> Seen(findings, c)
  }

  lemma RemembersOneMore(seen: set<set<Module>>, findings: seq<seq<Module>>, f: seq<Module>)
    requires Remembers(seen, findings)
    ensures Remembers(seen + {NodeSet(f)}, findings + [f])
  {
    forall c: seq<Module> ensures NodeSet(c) in seen + {NodeSet(f)} <==> Seen(findings + [f], c) {
      assert forall g :: g in findings + [f] <==> g in findings || g == f;
      assert Seen(findings + [f], c) <==> Seen(findings, c) || NodeSet(f) == NodeSet(c);
    }
  }

  lemma KeptStep(cycles: seq<seq<Module>>, i: nat)
    requires i < |cycles|
    ensures var earlier := Kept(cycles[..i]);
            Kept(cycles[..i + 1])
            == if Seen(earlier, cycles[i]) || |Packages(cycles[i])| < 2 then earlier else earlier + [cycles[i]]
  {
    assert cycles[..i + 1][..i] == cycles[..i];
  }

  method FindInitCycles(modules: set<Module>, top: Graph, order: seq<Module>) returns (findings: seq<seq<Module>>)
    ensures findings == Kept(FindCycles(Extended(modules, top), order))
  {
    var edges := Extend(modules, top);
    var search := new CycleSearch();
    var cycles := search.Find(edges, order);
    var seen: set<set<Module>> := {};
    findings := [];
    for i := 0 to |cycles|
      invariant findings == Kept(cycles[..i])
      invariant Remembers(seen, findings)
    {
      KeptStep(cycles, i);
      var key := NodeSet(cycles[i]);
      if key in seen || |Packages(cycles[i])| < 2 {
        continue;
      }
      RemembersOneMore(seen, findings, cycles[i]);
      seen := seen + {key};
      findings := findings + [cycles[i]];
    }
    assert cycles[..|cycles|] == cycles;
  }

  /** The findings are cycles reported by the search that span two packages or more, one for each
      set of nodes. */
  lemma {:induction false} KeptIsSelection(cycles: seq<seq<Module>>)
    ensures forall f :: f in Kept(cycles) ==> f in cycles && |Packages(f)| >= 2
    ensures forall i, j :: 0 <= i < j < |Kept(cycles)| ==> NodeSet(Kept(cycles)[i]) != NodeSet(Kept(cycles)[j])
  {
    if cycles != [] {
      var earlier, c := cycles[..|cycles| - 1], cycles[|cycles| - 1];
      assert cycles == earlier + [c];
      KeptIsSelection(earlier);
      assert forall f :: f in Kept(earlier) && NodeSet(f) == NodeSet(c) ==> Seen(Kept(earlier), c);
    }
  }

  /** No reported cycle between packages is dropped, up to its set of nodes. */
  lemma {:induction false} KeptCoversAll(cycles: seq<seq<Module>>, d: seq<Module>)
    requires d in cycles && |Packages(d)| >= 2
    ensures Seen(Kept(cycles), d)
  {
    var earlier, c := cycles[..|cycles| - 1], cycles[|cycles| - 1];
    assert cycles == earlier + [c];
    if d in earlier {
      KeptCoversAll(earlier, d);
    }
    if Seen(Kept(earlier), d) {
      var f :| f in Kept(earlier) && NodeSet(f) == NodeSet(d);
      assert f in Kept(cycles);
    } else {
      assert d in Kept(cycles);
    }
  }

  /** Findings keep the order of the reported cycles, and the first of those with the same nodes. */
  lemma {:induction false} KeptInOrder(cycles: seq<seq<Module>>, n: nat)
    requires n <= |cycles|
    ensures Kept(cycles[..n]) <= Kept(cycles)
  {
    if n < |cycles| {
      var m := |cycles| - 1;
      assert cycles[..m][..n] == cycles[..n];
      KeptInOrder(cycles[..m], n);
    } else {
      assert cycles[..n] == cycles;
    }
  }

  lemma FindingsAreReal(modules: set<Module>, top: Graph, order: seq<Module>, f: seq<Module>)
    requires Enumerates(order, Extended(modules, top))
    requires f in Kept(FindCycles(Extended(modules, top), order))
    ensures SimpleCycle(Extended(modules, top), f) && |Packages(f)| >= 2
  {
    KeptIsSelection(FindCycles(Extended(modules, top), order));
    ReportedCyclesAreReal(Extended(modules, top), order);
  }

  // ---------------------------------------------------------------------------
  // What an empty result means
  // ---------------------------------------------------------------------------

  /** The edges `build_graph` produces: between modules, never from a module to itself. */
  ghost predicate Resolved(modules: set<Module>, top: Graph) {
    forall src, t :: src in top && t in top[src] ==> t in modules && t != src
  }

  lemma ExtendedHoldsEveryEdge(modules: set<Module>, top: Graph, u: Module, v: Module)
    requires Resolved(modules, top) && v in Successors(top, u)
    ensures v in Successors(Extended(modules, top), u)
  {
    assert u in top && v in top[u] && v in modules && v != u;
    assert DottedPrefix(v.name, v.name);
    assert RunBy(v, top[u]);
    assert v in Hops(modules, u, top[u]);
  }

  /** The edges of the extended graph: from an importer to the modules its targets are, or are inside of by
      name, itself excepted. */
  lemma ExtendedEdges(modules: set<Module>, top: Graph, u: Module, v: Module)
    ensures v in Successors(Extended(modules, top), u) <==>
              && u in top && v in modules && v != u
              && exists t: Module :: t in top[u] && (v.name == t.name || v.name + "." <= t.name)
  {
    if u in top {
      forall t: Module ensures DottedPrefix(v.name, t.name) <==> v.name == t.name || v.name + "." <= t.name {
        PrefixOfName(v.name, t.name);
      }
      assert RunBy(v, top[u]) <==> exists t: Module :: t in top[u] && (v.name == t.name || v.name + "." <= t.name);
    }
  }

  /** Counting the `__init__` modules only adds cycles. */
  lemma ExtendedAcyclicImpliesAcyclic(modules: set<Module>, top: Graph)
    requires Resolved(modules, top) && !Cyclic(Extended(modules, top))
    ensures !Cyclic(top)
  {
    forall w | ClosedWalk(top, w) ensures false {
      forall i | 0 <= i < |w| - 1 ensures Edge(Extended(modules, top), w, i) {
        assert Edge(top, w, i);
        ExtendedHoldsEveryEdge(modules, top, w[i], w[i + 1]);
      }
      assert ClosedWalk(Extended(modules, top), w);
    }
  }

  ghost predicate InOnePackage(w: seq<Module>) {
    forall i, j :: 0 <= i < j < |w| ==> Package(w[i]) == Package(w[j])
  }

  lemma TwoPackages(w: seq<Module>, i: nat, j: nat)
    requires i < |w| && j < |w| && Package(w[i]) != Package(w[j])
    ensures |Packages(w)| >= 2
  {
    var a, b := Package(w[i]), Package(w[j]);
    assert w[i] in w && w[j] in w;
    assert b in Packages(w) - {a};
    assert |Packages(w) - {a}| == |Packages(w)| - 1;
  }

  lemma FewPackagesMeansOne(w: seq<Module>)
    requires |Packages(w)| < 2
    ensures InOnePackage(w)
  {
    forall i, j | 0 <= i < j < |w| ensures Package(w[i]) == Package(w[j]) {
      if Package(w[i]) != Package(w[j]) {
        TwoPackages(w, i, j);
      }
    }
  }

  lemma OnePackageMeansFew(w: seq<Module>)
    requires InOnePackage(w)
    ensures |Packages(w)| < 2
  {
    if w == [] {
      assert Packages(w) == {};
    } else {
      assert Packages(w) == {Package(w[0])} by {
        assert w[0] in w;
        forall p | p in Packages(w) ensures p == Package(w[0]) {
          var i :| 0 <= i < |w| && p == Package(w[i]);
        }
      }
    }
  }

  /** The edge from u to v closes a cycle that stays within one package. */
  ghost predicate Inner(g: Graph, u: Module, v: Module) {
    exists c :: SimpleCycle(g, c) && InOnePackage(c) && c[|c| - 2] == u && c[|c| - 1] == v
  }

  ghost predicate InnerAt(g: Graph, w: seq<Module>, i: nat)
    requires i + 1 < |w|
  {
    Inner(g, w[i], w[i + 1])
  }

  /** The edge from w[i] closes a cycle whose nodes are those of a finding. */
  ghost predicate FoundAt(g: Graph, findings: seq<seq<Module>>, w: seq<Module>, i: nat)
    requires i + 1 < |w|
  {
    exists c :: SimpleCycle(g, c) && c[|c| - 2] == w[i] && c[|c| - 1] == w[i + 1] && Seen(findings, c)
  }

  /** What the findings cover: every cycle of the extended graph takes an edge that closes a finding, up
      to its set of nodes, or an edge that closes a cycle within one package. */
  lemma EveryCycleIsFoundOrInner(modules: set<Module>, top: Graph, order: seq<Module>, w: seq<Module>) returns (i: nat)
    requires Enumerates(order, Extended(modules, top)) && ClosedWalk(Extended(modules, top), w)
    ensures i < |w| - 1
    ensures var g := Extended(modules, top);
            InnerAt(g, w, i) || FoundAt(g, Kept(FindCycles(g, order)), w, i)
  {
    var g := Extended(modules, top);
    var cycles := FindCycles(g, order);
    EveryCycleIsHit(g, order, w);
    i :| 0 <= i < |w| - 1 && ClosesAt(cycles, w, i);
    var c :| c in cycles && |c| >= 2 && c[|c| - 2] == w[i] && c[|c| - 1] == w[i + 1];
    ReportedCyclesAreReal(g, order);
    if |Packages(c)| >= 2 {
      KeptCoversAll(cycles, c);
      assert FoundAt(g, Kept(cycles), w, i);
    } else {
      FewPackagesMeansOne(c);
      assert Inner(g, w[i], w[i + 1]);
    }
  }

  ghost predicate Leaves(g: Graph, w: seq<Module>) {
    ClosedWalk(g, w) && !InOnePackage(w)
  }

  ghost predicate AvoidsInner(g: Graph, w: seq<Module>) {
    forall i :: 0 <= i < |w| - 1 ==> !InnerAt(g, w, i)
  }

  /** If cycles leave their package, then one of them does so without the help of a cycle within one. */
  ghost predicate LeavesPlainly(g: Graph) {
    (exists w :: Leaves(g, w)) ==> exists w :: Leaves(g, w) && AvoidsInner(g, w)
  }

  lemma FindingLeaves(modules: set<Module>, top: Graph, order: seq<Module>, f: seq<Module>)
    requires Enumerates(order, Extended(modules, top)) && f in Kept(FindCycles(Extended(modules, top), order))
    ensures Leaves(Extended(modules, top), f)
  {
    FindingsAreReal(modules, top, order, f);
    if InOnePackage(f) {
      OnePackageMeansFew(f);
    }
  }

  /** What an empty result can hide: every cycle of the extended graph, whatever packages it spans,
      takes an edge of a cycle that stays within one package. */
  lemma EmptyFindingsHideOnlyInner(modules: set<Module>, top: Graph, order: seq<Module>, w: seq<Module>)
    requires Enumerates(order, Extended(modules, top)) && ClosedWalk(Extended(modules, top), w)
    requires Kept(FindCycles(Extended(modules, top), order)) == []
    ensures exists i :: 0 <= i < |w| - 1 && InnerAt(Extended(modules, top), w, i)
  {
    var i := EveryCycleIsFoundOrInner(modules, top, order, w);
    assert !FoundAt(Extended(modules, top), [], w, i);
  }

  /** The edge from w[i] closes a cycle that is reported by the search and stays within one package. */
  ghost predicate DroppedAt(cycles: seq<seq<Module>>, w: seq<Module>, i: nat)
    requires i + 1 < |w|
  {
    exists c :: c in cycles && InOnePackage(c) && ClosedBy(c, w[i], w[i + 1])
  }

  /** The walk takes the closing edge of a cycle that the search reports and the package test drops. */
  ghost predicate TakesDropped(cycles: seq<seq<Module>>, w: seq<Module>) {
    exists i :: 0 <= i < |w| - 1 && DroppedAt(cycles, w, i)
  }

  /** A finding takes no such edge: closing edges are not shared between reported cycles. */
  lemma FindingTakesNoDropped(modules: set<Module>, top: Graph, order: seq<Module>, f: seq<Module>)
    requires Enumerates(order, Extended(modules, top)) && f in Kept(FindCycles(Extended(modules, top), order))
    ensures !TakesDropped(FindCycles(Extended(modules, top), order), f)
  {
    var g := Extended(modules, top);
    var cycles := FindCycles(g, order);
    KeptIsSelection(cycles);
    forall i | 0 <= i < |f| - 1 ensures !DroppedAt(cycles, f, i) {
      if c :| c in cycles && InOnePackage(c) && ClosedBy(c, f[i], f[i + 1]) {
        ClosingEdgesAreOwn(g, order, f, c, i);
        OnePackageMeansFew(c);
      }
    }
  }

  lemma EmptyMeansDropped(modules: set<Module>, top: Graph, order: seq<Module>, w: seq<Module>)
    requires Enumerates(order, Extended(modules, top)) && ClosedWalk(Extended(modules, top), w)
    requires Kept(FindCycles(Extended(modules, top), order)) == []
    ensures TakesDropped(FindCycles(Extended(modules, top), order), w)
  {
    var g := Extended(modules, top);
    var cycles := FindCycles(g, order);
    EveryCycleIsHit(g, order, w);
    var i :| 0 <= i < |w| - 1 && ClosesAt(cycles, w, i);
    var c :| c in cycles && |c| >= 2 && c[|c| - 2] == w[i] && c[|c| - 1] == w[i + 1];
    if |Packages(c)| >= 2 {
      KeptCoversAll(cycles, c);
    }
    FewPackagesMeansOne(c);
    assert ClosedBy(c, w[i], w[i + 1]) && DroppedAt(cycles, w, i);
  }

  /** On every graph and in every order: nothing is found if and only if each cycle that leaves its package
      takes the closing edge of a reported cycle that does not. Hence an empty result is the promised one,
      that no cycle leaves its package, if and only if those that do, should there be any, do not all take
      such an edge. */
  lemma EmptyFindingsExactly(modules: set<Module>, top: Graph, order: seq<Module>)
    requires Enumerates(order, Extended(modules, top))
    ensures var g := Extended(modules, top);
            var cycles := FindCycles(g, order);
            && (Kept(cycles) == [] <==> forall w :: Leaves(g, w) ==> TakesDropped(cycles, w))
            && ((Kept(cycles) == [] <==> !exists w :: Leaves(g, w))
                <==> ((exists w :: Leaves(g, w)) ==> exists w :: Leaves(g, w) && !TakesDropped(cycles, w)))
  {
    var g := Extended(modules, top);
    var cycles := FindCycles(g, order);
    if Kept(cycles) == [] {
      forall w | Leaves(g, w) ensures TakesDropped(cycles, w) {
        EmptyMeansDropped(modules, top, order, w);
      }
    } else {
      var f := Kept(cycles)[0];
      FindingLeaves(modules, top, order, f);
      FindingTakesNoDropped(modules, top, order, f);
    }
  }

  /** On the graph alone, whatever the order: if the cycles that leave their package include one that does so
      plainly, whenever there are any, then nothing is found if and only if no cycle leaves its package. */
  lemma EmptyMeansNoneLeaves(modules: set<Module>, top: Graph, order: seq<Module>)
    requires Enumerates(order, Extended(modules, top)) && LeavesPlainly(Extended(modules, top))
    ensures Kept(FindCycles(Extended(modules, top), order)) == [] <==> !exists w :: Leaves(Extended(modules, top), w)
  {
    var findings := Kept(FindCycles(Extended(modules, top), order));
    if findings != [] {
      FindingLeaves(modules, top, order, findings[0]);
    } else {
      forall w | Leaves(Extended(modules, top), w) ensures false {
        var v :| Leaves(Extended(modules, top), v) && AvoidsInner(Extended(modules, top), v);
        EmptyFindingsHideOnlyInner(modules, top, order, v);
      }
    }
  }
}
