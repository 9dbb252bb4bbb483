// Reachability in a cyclic e-graph: the stack loop against the path-guarded
// recursion.

module Reachability {
  import opened Morphisms

  // E-classes by canonical id, each a list of nodes given by their children;
  // `find` takes any id to its class.
  datatype EGraph = EGraph(find: int -> int, classes: map<int, seq<seq<int>>>)
  {
    ghost predicate Valid() {
      && (forall x :: find(find(x)) == find(x))
      && (forall c :: c in classes ==> find(c) == c)
      && forall c, i, j :: c in classes && 0 <= i < |classes[c]| && 0 <= j < |classes[c][i]| ==> find(classes[c][i][j]) in classes
    }

    // The children of a class, node by node.
    function Children(c: int): seq<int>
      requires c in classes
    {
      Flat(classes[c])
    }

    predicate Edge(a: int, b: int) {
      a in classes && exists i :: 0 <= i < |Children(a)| && find(Children(a)[i]) == b
    }

    // A walk along the edges.
    ghost predicate Walk(p: seq<int>) {
      p != [] && forall i :: 0 < i < |p| ==> Edge(p[i - 1], p[i])
    }

    // A walk from a to b that leaves no class of the guard.
    ghost predicate Leads(a: int, b: int, guard: set<int>) {
      exists p :: Walk(p) && p[0] == a && p[|p| - 1] == b && forall i :: 0 <= i < |p| - 1 ==> p[i] !in guard
    }
  }

  function Flat(nodes: seq<seq<int>>): seq<int> {
    if nodes == [] then [] else nodes[0] + Flat(nodes[1..])
  }

  lemma {:induction false} FlatMember(nodes: seq<seq<int>>, x: int)
    ensures x in Flat(nodes) <==> exists i, j :: 0 <= i < |nodes| && 0 <= j < |nodes[i]| && nodes[i][j] == x
  {
    if nodes == [] {
    } else {
      FlatMember(nodes[1..], x);
      if x in Flat(nodes) && x !in nodes[0] {
        var i, j :| 0 <= i < |nodes[1..]| && 0 <= j < |nodes[1..][i]| && nodes[1..][i][j] == x;
        assert nodes[i + 1][j] == x;
      }
      if i, j :| 0 <= i < |nodes| && 0 <= j < |nodes[i]| && nodes[i][j] == x {
        if i > 0 {
          assert nodes[1..][i - 1][j] == x;
        }
      }
    }
  }

  lemma ChildIsClass(eg: EGraph, c: int, k: int)
    requires eg.Valid() && c in eg.classes && 0 <= k < |eg.Children(c)|
    ensures eg.find(eg.Children(c)[k]) in eg.classes
  {
    FlatMember(eg.classes[c], eg.Children(c)[k]);
  }

  // ---------------------------------------------------------------------------
  //  Walks
  // ---------------------------------------------------------------------------

  lemma LeadsNowhere(eg: EGraph, a: int, guard: set<int>)
    ensures eg.Leads(a, a, guard)
    ensures a in guard ==> forall b :: eg.Leads(a, b, guard) ==> b == a
  {
    assert eg.Walk([a]);
    forall b | a in guard && eg.Leads(a, b, guard)
      ensures b == a
    {
      var p :| eg.Walk(p) && p[0] == a && p[|p| - 1] == b && forall i :: 0 <= i < |p| - 1 ==> p[i] !in guard;
      assert |p| == 1;
    }
  }

  // One edge out of an unguarded class, then onwards.
  lemma LeadsStep(eg: EGraph, a: int, c: int, b: int, guard: set<int>)
    requires a !in guard && eg.Edge(a, c) && eg.Leads(c, b, guard + {a})
    ensures eg.Leads(a, b, guard)
  {
    var p :| eg.Walk(p) && p[0] == c && p[|p| - 1] == b && forall i :: 0 <= i < |p| - 1 ==> p[i] !in guard + {a};
    var q := [a] + p;
    forall i | 0 < i < |q|
      ensures eg.Edge(q[i - 1], q[i])
    {
      if i > 1 {
        assert q[i - 1] == p[i - 2] && q[i] == p[i - 1];
      }
    }
    assert eg.Walk(q);
    assert forall i :: 0 <= i < |q| - 1 ==> q[i] !in guard;
  }

  lemma {:induction false} LastVisit(p: seq<int>, a: int, n: nat) returns (k: nat)
    requires 0 < n <= |p| && p[0] == a
    ensures k < n && p[k] == a && forall i :: k < i < n ==> p[i] != a
    decreases n
  {
    if p[n - 1] == a {
      k := n - 1;
    } else {
      k := LastVisit(p, a, n - 1);
    }
  }

  // A walk can be cut after its last visit to where it began, so the rest of
  // it never returns there.
  lemma LeadsWithout(eg: EGraph, a: int, b: int, guard: set<int>) returns (c: int)
    requires eg.Leads(a, b, guard) && a != b
    ensures a !in guard && eg.Edge(a, c) && eg.Leads(c, b, guard + {a})
  {
    var p :| eg.Walk(p) && p[0] == a && p[|p| - 1] == b && forall i :: 0 <= i < |p| - 1 ==> p[i] !in guard;
    var k := LastVisit(p, a, |p|);
    assert k < |p| - 1;
    c := p[k + 1];
    var q := p[k + 1..];
    forall i | 0 < i < |q|
      ensures eg.Edge(q[i - 1], q[i])
    {
      assert q[i - 1] == p[k + i] && q[i] == p[k + 1 + i];
    }
    assert eg.Walk(q) && q[0] == c && q[|q| - 1] == b;
    forall i | 0 <= i < |q| - 1
      ensures q[i] !in guard + {a}
    {
      assert q[i] == p[k + 1 + i];
    }
  }

  // ---------------------------------------------------------------------------
  //  The path-guarded recursion
  // ---------------------------------------------------------------------------

  // With a guard, the recursion returns what can be walked to without leaving a
  // guarded class.
  method Descendants(eg: EGraph, id: int, guard: set<int>) returns (out: set<int>)
    requires eg.Valid() && eg.find(id) in eg.classes && guard <= eg.classes.Keys
    ensures forall b :: b in out <==> eg.Leads(eg.find(id), b, guard)
    decreases eg.classes.Keys - guard
  {
    hide EGraph.Leads, EGraph.Edge;
    var c := eg.find(id);
    LeadsNowhere(eg, c, guard);
    if c in guard {
      return {c};
    }
    out := {c};
    var kids := eg.Children(c);
    for i := 0 to |kids|
      invariant forall b :: b in out ==> eg.Leads(c, b, guard)
      invariant c in out
      invariant forall k, b :: 0 <= k < i && eg.Leads(eg.find(kids[k]), b, guard + {c}) ==> b in out
    {
      ChildIsClass(eg, c, i);
      var more := Descendants(eg, kids[i], guard + {c});
      EdgeTo(eg, c, i);
      forall b | b in more
        ensures eg.Leads(c, b, guard)
      {
        LeadsStep(eg, c, eg.find(kids[i]), b, guard);
      }
      out := out + more;
    }
    forall b | eg.Leads(c, b, guard)
      ensures b in out
    {
      if b != c {
        var d := LeadsWithout(eg, c, b, guard);
        var k := EdgeFrom(eg, c, d);
      }
    }
  }

  lemma EdgeTo(eg: EGraph, a: int, i: int)
    requires a in eg.classes && 0 <= i < |eg.Children(a)|
    ensures eg.Edge(a, eg.find(eg.Children(a)[i]))
  {
  }

  lemma EdgeFrom(eg: EGraph, a: int, b: int) returns (i: nat)
    requires eg.Edge(a, b)
    ensures a in eg.classes && i < |eg.Children(a)| && eg.find(eg.Children(a)[i]) == b
  {
    i :| 0 <= i < |eg.Children(a)| && eg.find(eg.Children(a)[i]) == b;
  }

  // ---------------------------------------------------------------------------
  //  The worklist
  // ---------------------------------------------------------------------------

  ghost predicate Explored(eg: EGraph, root: int, stack: seq<int>, order: seq<int>) {
    && Distinct(order) && (forall c :: c in order ==> c in eg.classes)
    && (forall c :: c in order ==> eg.Leads(root, c, {}))
    && (forall x :: x in stack ==> eg.find(x) in eg.classes && eg.Leads(root, eg.find(x), {}))
    && (root in order || exists x :: x in stack && eg.find(x) == root)
    && forall c, k :: c in order && 0 <= k < |eg.Children(c)| ==>
         eg.find(eg.Children(c)[k]) in order || exists x :: x in stack && eg.find(x) == eg.find(eg.Children(c)[k])
  }

  lemma {:induction false} LeadsOn(eg: EGraph, a: int, b: int, c: int)
    requires eg.Leads(a, b, {}) && eg.Edge(b, c)
    ensures eg.Leads(a, c, {})
  {
    var p :| eg.Walk(p) && p[0] == a && p[|p| - 1] == b && forall i :: 0 <= i < |p| - 1 ==> p[i] !in {};
    var q := p + [c];
    forall i | 0 < i < |q|
      ensures eg.Edge(q[i - 1], q[i])
    {
      if i < |p| {
        assert q[i - 1] == p[i - 1] && q[i] == p[i];
      }
    }
    assert eg.Walk(q) && q[0] == a && q[|q| - 1] == c;
  }

  // A set closed under edges holds everything its members lead to.
  lemma ClosedHolds(eg: EGraph, order: seq<int>, a: int, b: int)
    requires a in order && eg.Leads(a, b, {})
    requires forall c, d :: c in order && eg.Edge(c, d) ==> d in order
    ensures b in order
  {
    hide EGraph.Edge;
    var p :| eg.Walk(p) && p[0] == a && p[|p| - 1] == b && forall i :: 0 <= i < |p| - 1 ==> p[i] !in {};
    for i := 0 to |p| - 1
      invariant p[i] in order
    {
      assert eg.Edge(p[i], p[i + 1]);
    }
  }

  // Pop a class already explored.
  lemma SkipSeen(eg: EGraph, root: int, rest: seq<int>, x: int, order: seq<int>)
    requires Explored(eg, root, rest + [x], order) && eg.find(x) in order
    ensures Explored(eg, root, rest, order)
  {
    hide EGraph.Leads, EGraph.Edge;
    var stack := rest + [x];
    assert forall y :: y in stack <==> y in rest || y == x;
  }

  // Open a new class: it joins the order, its children the stack.
  lemma OpenClass(eg: EGraph, root: int, rest: seq<int>, x: int, order: seq<int>)
    requires eg.Valid() && Explored(eg, root, rest + [x], order) && eg.find(x) !in order
    ensures Explored(eg, root, rest + eg.Children(eg.find(x)), order + [eg.find(x)])
  {
    hide EGraph.Leads, EGraph.Edge, EGraph.Children;
    var c, stack := eg.find(x), rest + [x];
    var kids := eg.Children(c);
    assert x in stack;
    forall k | 0 <= k < |kids|
      ensures eg.find(kids[k]) in eg.classes && eg.Leads(root, eg.find(kids[k]), {})
    {
      ChildIsClass(eg, c, k);
      EdgeTo(eg, c, k);
      LeadsOn(eg, root, c, eg.find(kids[k]));
    }
    assert forall y :: y in stack <==> y in rest || y == x;
    assert forall y :: y in rest + kids <==> y in rest || y in kids;
    assert forall y :: y in order + [c] <==> y in order || y == c;
    forall b, k | b in order + [c] && 0 <= k < |eg.Children(b)|
      ensures eg.find(eg.Children(b)[k]) in order + [c]
        || exists y :: y in rest + kids && eg.find(y) == eg.find(eg.Children(b)[k])
    {
      var child := eg.Children(b)[k];
      if b == c {
        assert child in rest + kids;
      } else if eg.find(child) !in order + [c] {
        assert b in order;
        assert exists y :: y in stack && eg.find(y) == eg.find(child);
        var y :| y in stack && eg.find(y) == eg.find(child);
        assert y in rest + kids;
      }
    }
  }

  // The loop visits every reachable class exactly once.
  method Reachable(eg: EGraph, id: int) returns (order: seq<int>)
    requires eg.Valid() && eg.find(id) in eg.classes
    ensures Distinct(order)
    ensures forall b :: b in order <==> eg.Leads(eg.find(id), b, {})
  {
    hide EGraph.Leads, EGraph.Edge, EGraph.Children, Explored;
    var root := eg.find(id);
    var seen: set<int> := {};
    var stack := [root];
    order := [];
    StartExplored(eg, root);
    while stack != []
      invariant Explored(eg, root, stack, order)
      invariant forall c :: c in seen <==> c in order
      invariant seen <= eg.classes.Keys
      decreases |eg.classes.Keys - seen|, |stack|
    {
      var x, rest := stack[|stack| - 1], stack[..|stack| - 1];
      assert stack == rest + [x];
      var c := eg.find(x);
      PoppedIsClass(eg, root, rest, x, order);
      if c in seen {
        SkipSeen(eg, root, rest, x, order);
        stack := rest;
      } else {
        OpenClass(eg, root, rest, x, order);
        assert eg.classes.Keys - (seen + {c}) < eg.classes.Keys - seen by {
          assert c in eg.classes.Keys - seen;
        }
        Smaller(eg.classes.Keys - (seen + {c}), eg.classes.Keys - seen);
        seen, order := seen + {c}, order + [c];
        stack := rest + eg.Children(c);
      }
    }
    AllExplored(eg, root, order);
  }

  lemma Smaller<T>(a: set<T>, b: set<T>)
    requires a < b
    ensures |a| < |b|
  {
    assert b == a + (b - a);
  }

  lemma StartExplored(eg: EGraph, root: int)
    requires eg.Valid() && root in eg.classes
    ensures Explored(eg, root, [root], [])
  {
    LeadsNowhere(eg, root, {});
    assert root in [root] && eg.find(root) == root;
  }

  lemma PoppedIsClass(eg: EGraph, root: int, rest: seq<int>, x: int, order: seq<int>)
    requires Explored(eg, root, rest + [x], order)
    ensures eg.find(x) in eg.classes
  {
    assert x in rest + [x];
  }

  lemma AllExplored(eg: EGraph, root: int, order: seq<int>)
    requires Explored(eg, root, [], order)
    ensures Distinct(order) && forall b :: b in order <==> eg.Leads(root, b, {})
  {
    hide EGraph.Leads, EGraph.Walk;
    forall c, d | c in order && eg.Edge(c, d)
      ensures d in order
    {
      var k := EdgeFrom(eg, c, d);
    }
    forall b | eg.Leads(root, b, {})
      ensures b in order
    {
      ClosedHolds(eg, order, root, b);
    }
  }

  // Both traversals give the same classes.
  method BothAgree(eg: EGraph, id: int) returns (order: seq<int>, out: set<int>)
    requires eg.Valid() && eg.find(id) in eg.classes
    ensures Distinct(order) && forall b :: b in out <==> b in order
  {
    order := Reachable(eg, id);
    out := Descendants(eg, id, {});
  }
}
