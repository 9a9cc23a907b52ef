/**
 Which cycles the three-colour search reports (scripts/audit_imports.py, find_cycles): the edge that closes
 a reported cycle closes no other one, and no reported cycle takes it on the way.
 */
module ClosingEdges {
  import opened ImportGraph

  ghost predicate ClosedBy(c: seq<Module>, u: Module, v: Module) {
    |c| >= 2 && c[|c| - 2] == u && c[|c| - 1] == v
  }

  /** a stands right below b on the stack. */
  ghost predicate Adjacent(stack: seq<Module>, a: Module, b: Module) {
    exists j :: 0 < j < |stack| && stack[j - 1] == a && stack[j] == b
  }

  /** The part of the stack from v up to u, and back to v. */
  ghost predicate Slice(stack: seq<Module>, c: seq<Module>, u: Module, v: Module) {
    exists i: nat, j: nat :: SliceAt(stack, c, u, v, i, j)
  }

  ghost predicate SliceAt(stack: seq<Module>, c: seq<Module>, u: Module, v: Module, i: nat, j: nat) {
    i <= j < |stack| && stack[i] == v && stack[j] == u && c == stack[i..j + 1] + [v]
  }

  /** Edge i of c other than the closing one: it was taken to visit c[i + 1]. */
  ghost predicate TreeEdge(st: Search, c: seq<Module>, i: nat)
    requires i + 1 < |c|
  {
    && !Closes(st.cycles, c[i], c[i + 1])
    && (st.ColorOf(c[i + 1]) == Black || Adjacent(st.stack, c[i], c[i + 1]))
  }

  /** What the search knows of a reported cycle: it was met, it closes with its last edge only, and as long
      as the visit of its last node is under way it can be read off the stack. */
  ghost predicate Recorded(st: Search, c: seq<Module>) {
    && |c| >= 2
    && st.ColorOf(c[|c| - 2]) != White && st.ColorOf(c[|c| - 1]) != White
    && (forall i :: 0 <= i < |c| - 2 ==> TreeEdge(st, c, i))
    && (st.ColorOf(c[|c| - 2]) == Gray ==> Slice(st.stack, c, c[|c| - 2], c[|c| - 1]))
  }

  ghost predicate OneListPerEdge(cycles: seq<seq<Module>>) {
    forall c, d :: c in cycles && d in cycles && |c| >= 2 && ClosedBy(d, c[|c| - 2], c[|c| - 1]) ==> c == d
  }

  ghost predicate StackIsTree(st: Search) {
    forall j :: 0 < j < |st.stack| ==> !Closes(st.cycles, st.stack[j - 1], st.stack[j])
  }

  ghost predicate Exact(st: Search) {
    && st.Coherent()
    && DistinctStack(st)
    && StackIsTree(st)
    && OneListPerEdge(st.cycles)
    && forall c :: c in st.cycles ==> Recorded(st, c)
  }

  lemma AdjacentGrows(stack: seq<Module>, v: Module, a: Module, b: Module)
    requires Adjacent(stack, a, b)
    ensures Adjacent(stack + [v], a, b)
  {
    var j :| 0 < j < |stack| && stack[j - 1] == a && stack[j] == b;
    assert (stack + [v])[j - 1] == a && (stack + [v])[j] == b;
  }

  lemma SliceGrows(stack: seq<Module>, v: Module, c: seq<Module>, a: Module, b: Module)
    requires Slice(stack, c, a, b)
    ensures Slice(stack + [v], c, a, b)
  {
    var i: nat, j: nat :| SliceAt(stack, c, a, b, i, j);
    assert (stack + [v])[i..j + 1] == stack[i..j + 1];
    assert SliceAt(stack + [v], c, a, b, i, j);
  }

  lemma OpeningKeepsRecord(st: Search, v: Module, c: seq<Module>)
    requires Recorded(st, c) && st.ColorOf(v) == White
    ensures Recorded(Open(st, v), c)
  {
    forall i | 0 <= i < |c| - 2 ensures TreeEdge(Open(st, v), c, i) {
      assert TreeEdge(st, c, i);
      if st.ColorOf(c[i + 1]) != Black {
        AdjacentGrows(st.stack, v, c[i], c[i + 1]);
      }
    }
    if st.ColorOf(c[|c| - 2]) == Gray {
      SliceGrows(st.stack, v, c, c[|c| - 2], c[|c| - 1]);
    }
  }

  lemma OpeningIsExact(st: Search, v: Module)
    requires Exact(st) && st.ColorOf(v) == White
    ensures Exact(Open(st, v))
  {
    forall c | c in st.cycles ensures Recorded(Open(st, v), c) {
      OpeningKeepsRecord(st, v, c);
    }
    forall u ensures !Closes(st.cycles, u, v) {
      assert forall c :: c in st.cycles ==> Recorded(st, c);
    }
  }

  /** The top of the stack is above one node at most, and below none. */
  lemma AdjacentShrinks(st: Search, a: Module, b: Module)
    requires DistinctStack(st) && st.stack != [] && Adjacent(st.stack, a, b) && b != st.stack[|st.stack| - 1]
    ensures Adjacent(st.stack[..|st.stack| - 1], a, b)
  {
    var j :| 0 < j < |st.stack| && st.stack[j - 1] == a && st.stack[j] == b;
    var rest := st.stack[..|st.stack| - 1];
    assert rest[j - 1] == a && rest[j] == b;
  }

  lemma SliceShrinks(st: Search, c: seq<Module>, a: Module, b: Module)
    requires DistinctStack(st) && st.stack != [] && Slice(st.stack, c, a, b) && a != st.stack[|st.stack| - 1]
    ensures Slice(st.stack[..|st.stack| - 1], c, a, b)
  {
    var rest := st.stack[..|st.stack| - 1];
    var i: nat, j: nat :| SliceAt(st.stack, c, a, b, i, j);
    assert rest[i..j + 1] == st.stack[i..j + 1];
    assert SliceAt(rest, c, a, b, i, j);
  }

  lemma ClosingKeepsRecord(st: Search, v: Module, c: seq<Module>)
    requires Recorded(st, c) && DistinctStack(st) && st.stack != [] && st.stack[|st.stack| - 1] == v
    ensures Recorded(Close(st, v), c)
  {
    forall i | 0 <= i < |c| - 2 ensures TreeEdge(Close(st, v), c, i) {
      assert TreeEdge(st, c, i);
      if st.ColorOf(c[i + 1]) != Black && c[i + 1] != v {
        AdjacentShrinks(st, c[i], c[i + 1]);
      }
    }
    if Close(st, v).ColorOf(c[|c| - 2]) == Gray {
      SliceShrinks(st, c, c[|c| - 2], c[|c| - 1]);
    }
  }

  lemma ClosingIsExact(st: Search, v: Module)
    requires Exact(st) && st.stack != [] && st.stack[|st.stack| - 1] == v && Close(st, v).Coherent()
    ensures Exact(Close(st, v))
  {
    forall c | c in st.cycles ensures Recorded(Close(st, v), c) {
      ClosingKeepsRecord(st, v, c);
    }
  }

  lemma TopIsNotBelow(st: Search, a: Module, b: Module)
    requires DistinctStack(st) && Adjacent(st.stack, a, b)
    ensures a != st.stack[|st.stack| - 1]
  {
  }

  lemma SliceIsReport(st: Search, c: seq<Module>, v: Module)
    requires DistinctStack(st) && st.stack != [] && v in st.stack && Slice(st.stack, c, st.stack[|st.stack| - 1], v)
    ensures c == st.stack[IndexOf(st.stack, v)..] + [v]
  {
    var i: nat, j: nat :| SliceAt(st.stack, c, st.stack[|st.stack| - 1], v, i, j);
    assert i == IndexOf(st.stack, v);
    assert j == |st.stack| - 1;
    assert st.stack[i..j + 1] == st.stack[i..];
  }

  lemma ClosesOneMore(cycles: seq<seq<Module>>, c: seq<Module>, u: Module, v: Module)
    ensures Closes(cycles + [c], u, v) <==> Closes(cycles, u, v) || ClosedBy(c, u, v)
  {
    assert forall d :: d in cycles + [c] <==> d in cycles || d == c;
  }

  lemma ReportKeepsTreeEdge(st: Search, n: Module, c: seq<Module>, i: nat)
    requires DistinctStack(st) && n in st.stack && st.ColorOf(n) != Black && i + 1 < |c| && TreeEdge(st, c, i)
    ensures TreeEdge(Report(st, n), c, i)
  {
    ClosesOneMore(st.cycles, st.stack[IndexOf(st.stack, n)..] + [n], c[i], c[i + 1]);
    if st.ColorOf(c[i + 1]) != Black {
      TopIsNotBelow(st, c[i], c[i + 1]);
    }
  }

  /** A report leaves what is recorded of an earlier cycle as it was. */
  lemma ReportKeepsRecord(st: Search, n: Module, c: seq<Module>)
    requires Exact(st) && n in st.stack && c in st.cycles
    ensures Recorded(Report(st, n), c)
  {
    assert Recorded(st, c);
    forall i | 0 <= i < |c| - 2 ensures TreeEdge(Report(st, n), c, i) {
      ReportKeepsTreeEdge(st, n, c, i);
    }
  }

  lemma ReportTakesTreeEdges(st: Search, n: Module, i: nat)
    requires Exact(st) && n in st.stack && IndexOf(st.stack, n) + i + 1 < |st.stack|
    ensures TreeEdge(Report(st, n), st.stack[IndexOf(st.stack, n)..] + [n], i)
  {
    var d := IndexOf(st.stack, n);
    var r := st.stack[d..] + [n];
    assert r[i] == st.stack[d + i] && r[i + 1] == st.stack[d + i + 1];
    ClosesOneMore(st.cycles, r, r[i], r[i + 1]);
    assert Adjacent(st.stack, r[i], r[i + 1]);
  }

  /** And the reported cycle is recorded. */
  lemma ReportIsRecorded(st: Search, n: Module)
    requires Exact(st) && n in st.stack
    ensures Recorded(Report(st, n), st.stack[IndexOf(st.stack, n)..] + [n])
  {
    var d, last := IndexOf(st.stack, n), |st.stack| - 1;
    var r := st.stack[d..] + [n];
    forall i | 0 <= i < |r| - 2 ensures TreeEdge(Report(st, n), r, i) {
      ReportTakesTreeEdges(st, n, i);
    }
    assert st.stack[last] in st.stack;
    assert st.stack[d..] == st.stack[d..last + 1];
    assert SliceAt(st.stack, r, st.stack[last], n, d, last);
  }

  lemma ReportKeepsOneList(st: Search, n: Module)
    requires Exact(st) && n in st.stack
    ensures OneListPerEdge(Report(st, n).cycles)
  {
    var u, r := st.stack[|st.stack| - 1], st.stack[IndexOf(st.stack, n)..] + [n];
    forall c | c in st.cycles && ClosedBy(c, u, n) ensures c == r {
      assert Recorded(st, c);
      SliceIsReport(st, c, n);
    }
  }

  lemma ReportIsExact(st: Search, n: Module)
    requires Exact(st) && n in st.stack
    ensures Exact(Report(st, n))
  {
    var r := st.stack[IndexOf(st.stack, n)..] + [n];
    forall c | c in Report(st, n).cycles ensures Recorded(Report(st, n), c) {
      if c in st.cycles {
        ReportKeepsRecord(st, n, c);
      } else {
        ReportIsRecorded(st, n);
      }
    }
    forall j | 0 < j < |st.stack| ensures !Closes(Report(st, n).cycles, st.stack[j - 1], st.stack[j]) {
      ClosesOneMore(st.cycles, r, st.stack[j - 1], st.stack[j]);
    }
    ReportKeepsOneList(st, n);
  }

  lemma {:induction false} VisitIsExact(g: Graph, order: seq<Module>, st: Search, v: Module)
    requires Exact(st) && st.ColorOf(v) == White && v in Nodes(g)
    ensures Exact(Visit(g, order, st, v))
    decreases Unvisited(g, st), 0
  {
    Opening(g, st, v);
    OpeningIsExact(st, v);
    var entered, ns := Open(st, v), Sorted(order, Successors(g, v));
    assert forall n :: n in Successors(g, v) ==> n in Nodes(g);
    VisitAllIsExact(g, order, entered, ns);
    var explored := VisitAll(g, order, entered, ns);
    Closing(g, st, explored, v);
    ClosingIsExact(explored, v);
  }

  lemma {:induction false} MeetIsExact(g: Graph, order: seq<Module>, st: Search, n: Module)
    requires Exact(st) && n in Nodes(g)
    ensures Exact(Meet(g, order, st, n))
    decreases Unvisited(g, st), 1
  {
    match st.ColorOf(n) {
      case Gray => ReportIsExact(st, n);
      case White => VisitIsExact(g, order, st, n);
      case Black =>
    }
  }

  lemma {:induction false} VisitAllIsExact(g: Graph, order: seq<Module>, st: Search, ns: seq<Module>)
    requires Exact(st) && forall n :: n in ns ==> n in Nodes(g)
    ensures Exact(VisitAll(g, order, st, ns))
    decreases Unvisited(g, st), |ns| + 1
  {
    if ns != [] {
      assert ns[0] in ns;
      MeetIsExact(g, order, st, ns[0]);
      VisitAllIsExact(g, order, Meet(g, order, st, ns[0]), ns[1..]);
    }
  }

  /** A reported cycle takes the closing edge of no other reported cycle, and its own only to close. */
  lemma ClosingEdgesAreOwn(g: Graph, order: seq<Module>, c: seq<Module>, d: seq<Module>, i: nat)
    requires c in FindCycles(g, order) && d in FindCycles(g, order)
    requires i + 1 < |c| && ClosedBy(d, c[i], c[i + 1])
    ensures i == |c| - 2 && c == d
  {
    var roots := Sorted(order, g.Keys);
    VisitAllIsExact(g, order, START, roots);
    var end := VisitAll(g, order, START, roots);
    assert Recorded(end, c);
    assert i < |c| - 2 ==> TreeEdge(end, c, i);
  }
}
