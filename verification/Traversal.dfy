// The two worklist traversals of a term DAG: the deduplicated postorder the
// compilers walk, and the count of its distinct subterms.

module Traversal {
  import opened Terms
  import opened Morphisms

  function OpSubterms(root: Term): set<Term> {
    set s | s in Subterms(root) && s.Op?
  }

  // Every op argument of an entry stands before that entry.
  ghost predicate ChildrenFirst(order: seq<Term>) {
    forall i, a :: 0 <= i < |order| && order[i].Op? && a in order[i].args && a.Op? ==> a in order[..i]
  }

  type Work = seq<(Term, bool)>

  // A term is waiting above position i of the stack.
  ghost predicate Above(work: Work, i: nat, a: Term) {
    exists j :: i < j < |work| && work[j].0 == a
  }

  // Everything above an opened term is smaller than it, so the stack never
  // holds a term above one of its own descendants.
  ghost predicate Nested(work: Work) {
    forall i, j :: 0 <= i < j < |work| && work[i].1 ==> Size(work[j].0) < Size(work[i].0)
  }

  // The arguments of an opened term are finished or waiting above it.
  ghost predicate ArgsCovered(work: Work, order: seq<Term>) {
    forall i, a :: 0 <= i < |work| && work[i].1 && work[i].0.Op? && a in work[i].0.args && a.Op?
      ==> a in order || Above(work, i, a)
  }

  ghost predicate InDag(root: Term, work: Work) {
    forall i :: 0 <= i < |work| ==> work[i].0 in Subterms(root)
  }

  ghost predicate Opened(work: Work, order: seq<Term>, expanded: set<Term>) {
    forall i :: 0 <= i < |work| && work[i].1 ==> work[i].0.Op? && work[i].0 in expanded && work[i].0 !in order
  }

  // What has been expanded is finished, or still open on the stack.
  ghost predicate Entered(root: Term, work: Work, order: seq<Term>, expanded: set<Term>) {
    && (forall t :: t in order ==> t in expanded)
    && forall t :: t in expanded ==> t in OpSubterms(root) && (t in order || (t, true) in work)
  }

  ghost predicate Consistent(root: Term, work: Work, order: seq<Term>, expanded: set<Term>) {
    && InDag(root, work) && Opened(work, order, expanded) && Entered(root, work, order, expanded)
    && Distinct(order) && ChildrenFirst(order)
    && Nested(work) && ArgsCovered(work, order)
  }

  // Dropping a visited entry uncovers nothing: its term is finished, or open
  // further up than every term that waits for it.
  lemma SkipExpanded(root: Term, work: Work, order: seq<Term>, expanded: set<Term>)
    requires Consistent(root, work, order, expanded)
    requires work != [] && !work[|work| - 1].1
    requires work[|work| - 1].0 in expanded || !work[|work| - 1].0.Op?
    ensures Consistent(root, work[..|work| - 1], order, expanded)
  {
    hide OpSubterms, Distinct, ChildrenFirst, Above, ArgsCovered, Entered;
    SkipEnters(root, work, order, expanded);
    SkipCovers(root, work, order, expanded);
  }

  lemma SkipEnters(root: Term, work: Work, order: seq<Term>, expanded: set<Term>)
    requires Entered(root, work, order, expanded) && work != [] && !work[|work| - 1].1
    ensures Entered(root, work[..|work| - 1], order, expanded)
  {
    hide OpSubterms;
    var rest := work[..|work| - 1];
    forall t | t in expanded
      ensures t in order || (t, true) in rest
    {
      if t !in order {
        var k :| 0 <= k < |work| && work[k] == (t, true);
        assert rest[k] == (t, true);
      }
    }
  }

  // An op met again is finished: it cannot be open below itself.
  lemma TopIsFinished(root: Term, work: Work, order: seq<Term>, expanded: set<Term>)
    requires Nested(work) && Entered(root, work, order, expanded) && work != [] && !work[|work| - 1].1
    requires work[|work| - 1].0 in expanded || !work[|work| - 1].0.Op?
    ensures work[|work| - 1].0.Op? ==> work[|work| - 1].0 in order
  {
    hide OpSubterms;
  }

  lemma SkipCovers(root: Term, work: Work, order: seq<Term>, expanded: set<Term>)
    requires ArgsCovered(work, order) && Nested(work) && Entered(root, work, order, expanded)
    requires work != [] && !work[|work| - 1].1
    requires work[|work| - 1].0 in expanded || !work[|work| - 1].0.Op?
    ensures ArgsCovered(work[..|work| - 1], order)
  {
    hide OpSubterms;
    var n := |work| - 1;
    var rest := work[..n];
    TopIsFinished(root, work, order, expanded);
    forall i, a | 0 <= i < n && rest[i].1 && rest[i].0.Op? && a in rest[i].0.args && a.Op?
      ensures a in order || Above(rest, i, a)
    {
      if a !in order {
        assert work[i] == rest[i];
        var j :| i < j < |work| && work[j].0 == a;
        assert j != n && rest[j].0 == a;
      }
    }
  }

  // Opening a new term pushes it back with its arguments above it.
  lemma Open(root: Term, base: Work, x: Term, order: seq<Term>, expanded: set<Term>, pushed: Work)
    requires Consistent(root, base + [(x, false)], order, expanded)
    requires x.Op? && x !in expanded && Pushes(pushed, x)
    ensures Consistent(root, base + [(x, true)] + pushed, order, expanded + {x}) && x in OpSubterms(root)
  {
    hide OpSubterms, Distinct, ChildrenFirst, ArgsCovered, Nested, Entered, InDag, Opened, Pushes;
    OpenEnters(root, base, x, order, expanded, pushed);
    OpenNests(root, base, x, order, expanded, pushed);
    OpenCovers(base, x, order, pushed);
  }

  // The arguments of a term, to visit.
  ghost predicate Pushes(pushed: Work, x: Term)
    requires x.Op?
  {
    |pushed| == |x.args| && forall i :: 0 <= i < |pushed| ==> pushed[i] == (x.args[i], false)
  }

  lemma OpenEnters(root: Term, base: Work, x: Term, order: seq<Term>, expanded: set<Term>, pushed: Work)
    requires Entered(root, base + [(x, false)], order, expanded) && InDag(root, base + [(x, false)]) && x.Op?
    ensures Entered(root, base + [(x, true)] + pushed, order, expanded + {x}) && x in OpSubterms(root)
  {
    var n, work, next := |base|, base + [(x, false)], base + [(x, true)] + pushed;
    assert work[n] == (x, false) && next[n] == (x, true);
    forall t | t in expanded && t !in order
      ensures (t, true) in next
    {
      var k :| 0 <= k < |work| && work[k] == (t, true);
      assert next[k] == (t, true);
    }
  }

  lemma OpenNests(root: Term, base: Work, x: Term, order: seq<Term>, expanded: set<Term>, pushed: Work)
    requires InDag(root, base + [(x, false)]) && Nested(base + [(x, false)]) && Opened(base + [(x, false)], order, expanded)
    requires x.Op? && x !in expanded && Pushes(pushed, x) && Entered(root, base + [(x, false)], order, expanded)
    ensures var next := base + [(x, true)] + pushed;
      InDag(root, next) && Nested(next) && Opened(next, order, expanded + {x})
  {
    hide OpSubterms;
    var n, work, next := |base|, base + [(x, false)], base + [(x, true)] + pushed;
    assert work[n] == (x, false) && next[n] == (x, true);
    SubtermsClosed(root);
    forall i | n < i < |next|
      ensures next[i].0 in Subterms(root) && Size(next[i].0) < Size(x) && !next[i].1
    {
      assert next[i] == pushed[i - n - 1];
      SizeOfMember(x.args, next[i].0);
    }
    assert forall i :: 0 <= i < n ==> next[i] == work[i] == base[i];
    assert forall t :: t in order ==> t in expanded;
  }

  lemma OpenCovers(base: Work, x: Term, order: seq<Term>, pushed: Work)
    requires ArgsCovered(base + [(x, false)], order) && x.Op? && Pushes(pushed, x)
    ensures ArgsCovered(base + [(x, true)] + pushed, order)
  {
    var n, work, next := |base|, base + [(x, false)], base + [(x, true)] + pushed;
    forall i, a | 0 <= i < |next| && next[i].1 && next[i].0.Op? && a in next[i].0.args && a.Op?
      ensures a in order || Above(next, i, a)
    {
      if i == n {
        var k :| 0 <= k < |x.args| && x.args[k] == a;
        assert next[n + 1 + k].0 == a;
      } else if a !in order {
        assert next[i] == work[i];
        var j :| i < j < |work| && work[j].0 == a;
        assert next[j].0 == a;
      }
    }
  }

  // Closing a term appends it after all of its arguments.
  lemma Close(root: Term, work: Work, order: seq<Term>, expanded: set<Term>)
    requires Consistent(root, work, order, expanded)
    requires work != [] && work[|work| - 1].1
    ensures Consistent(root, work[..|work| - 1], order + [work[|work| - 1].0], expanded)
  {
    hide OpSubterms, Distinct, ChildrenFirst, ArgsCovered, Entered, Opened;
    CloseOrders(work, order, expanded);
    CloseEnters(root, work, order, expanded);
    CloseCovers(work, order);
  }

  lemma CloseOrders(work: Work, order: seq<Term>, expanded: set<Term>)
    requires Distinct(order) && ChildrenFirst(order) && ArgsCovered(work, order) && Opened(work, order, expanded)
    requires work != [] && work[|work| - 1].1
    ensures var next := order + [work[|work| - 1].0]; Distinct(next) && ChildrenFirst(next)
  {
    var n := |work| - 1;
    var x := work[n].0;
    var next := order + [x];
    forall a | a in x.args && a.Op?
      ensures a in order
    {
      assert !Above(work, n, a);
    }
    forall i, a | 0 <= i < |next| && next[i].Op? && a in next[i].args && a.Op?
      ensures a in next[..i]
    {
      if i < |order| {
        assert next[i] == order[i] && next[..i] == order[..i];
      } else {
        assert next[..i] == order;
      }
    }
  }

  lemma CloseEnters(root: Term, work: Work, order: seq<Term>, expanded: set<Term>)
    requires Entered(root, work, order, expanded) && Opened(work, order, expanded) && Nested(work)
    requires work != [] && work[|work| - 1].1
    ensures var rest, next := work[..|work| - 1], order + [work[|work| - 1].0];
      Entered(root, rest, next, expanded) && Opened(rest, next, expanded)
  {
    hide OpSubterms;
    var n := |work| - 1;
    var rest, x := work[..n], work[n].0;
    var next := order + [x];
    forall t | t in expanded
      ensures t in next || (t, true) in rest
    {
      if t !in next {
        var k :| 0 <= k < |work| && work[k] == (t, true);
        assert rest[k] == (t, true);
      }
    }
    forall i | 0 <= i < n && rest[i].1
      ensures rest[i].0 !in next
    {
      assert rest[i] == work[i] && Size(x) < Size(work[i].0);
    }
  }

  lemma CloseCovers(work: Work, order: seq<Term>)
    requires ArgsCovered(work, order) && work != []
    ensures ArgsCovered(work[..|work| - 1], order + [work[|work| - 1].0])
  {
    var n := |work| - 1;
    var rest, next := work[..n], order + [work[n].0];
    forall i, a | 0 <= i < n && rest[i].1 && rest[i].0.Op? && a in rest[i].0.args && a.Op?
      ensures a in next || Above(rest, i, a)
    {
      if a !in next {
        assert rest[i] == work[i];
        var j :| i < j < |work| && work[j].0 == a;
        assert j != n && rest[j].0 == a;
      }
    }
  }

  // Where the root stands: still to visit, open at the bottom, or last out.
  ghost predicate RootPlace(root: Term, work: Work, order: seq<Term>, expanded: set<Term>) {
    || (work == [(root, false)] && order == [] && expanded == {})
    || (root.Op? && root in expanded && |work| > 0 && work[0] == (root, true))
    || (work == [] && (root.Op? ==> root in expanded && order != [] && order[|order| - 1] == root))
  }

  lemma RootSkips(root: Term, work: Work, order: seq<Term>, expanded: set<Term>)
    requires RootPlace(root, work, order, expanded) && work != [] && !work[|work| - 1].1
    requires work[|work| - 1].0 in expanded || !work[|work| - 1].0.Op?
    ensures RootPlace(root, work[..|work| - 1], order, expanded)
  {
  }

  lemma RootCloses(root: Term, work: Work, order: seq<Term>, expanded: set<Term>)
    requires RootPlace(root, work, order, expanded) && work != [] && work[|work| - 1].1
    ensures RootPlace(root, work[..|work| - 1], order + [work[|work| - 1].0], expanded)
  {
  }

  lemma RootOpens(root: Term, base: Work, x: Term, order: seq<Term>, expanded: set<Term>, pushed: Work)
    requires RootPlace(root, base + [(x, false)], order, expanded) && x.Op?
    ensures RootPlace(root, base + [(x, true)] + pushed, order, expanded + {x})
  {
    var work, next := base + [(x, false)], base + [(x, true)] + pushed;
    if base == [] {
      assert work[0] == (x, false) && next[0] == (x, true);
    } else {
      assert work[0] == base[0] == next[0];
    }
  }

  lemma StartConsistent(root: Term)
    ensures Consistent(root, [(root, false)], [], {}) && RootPlace(root, [(root, false)], [], {})
  {
  }

  // The deduplicated postorder: each distinct op of the DAG once, arguments
  // first, the root last.
  method Postorder(root: Term) returns (order: seq<Term>)
    ensures Distinct(order) && ChildrenFirst(order)
    ensures forall t :: t in order <==> t in OpSubterms(root)
    ensures root.Op? ==> order != [] && order[|order| - 1] == root
    ensures !root.Op? ==> order == []
  {
    hide Consistent, RootPlace, OpSubterms, ChildrenFirst, Distinct;
    order := [];
    var expanded: set<Term> := {};
    var work: Work := [(root, false)];
    StartConsistent(root);
    while work != []
      invariant Consistent(root, work, order, expanded)
      invariant RootPlace(root, work, order, expanded)
      decreases OpSubterms(root) - expanded, |work|
    {
      var n := |work| - 1;
      var (t, done) := work[n];
      OpenIsOp(root, work, order, expanded);
      if !t.Op? {
        SkipExpanded(root, work, order, expanded);
        RootSkips(root, work, order, expanded);
        work := work[..n];
      } else if done {
        Close(root, work, order, expanded);
        RootCloses(root, work, order, expanded);
        order := order + [t];
        work := work[..n];
      } else if t in expanded {
        SkipExpanded(root, work, order, expanded);
        RootSkips(root, work, order, expanded);
        work := work[..n];
      } else {
        var pushed := seq(|t.args|, i requires 0 <= i < |t.args| => (t.args[i], false));
        assert work == work[..n] + [(t, false)];
        Open(root, work[..n], t, order, expanded, pushed);
        RootOpens(root, work[..n], t, order, expanded, pushed);
        expanded := expanded + {t};
        work := work[..n] + [(t, true)] + pushed;
      }
    }
    AllVisited(root, order, expanded);
  }

  lemma OpenIsOp(root: Term, work: Work, order: seq<Term>, expanded: set<Term>)
    requires Consistent(root, work, order, expanded) && work != []
    ensures work[|work| - 1].1 ==> work[|work| - 1].0.Op?
  {
    hide OpSubterms, Distinct, ChildrenFirst, ArgsCovered, Nested, Entered, InDag;
  }

  lemma AllVisited(root: Term, order: seq<Term>, expanded: set<Term>)
    requires Consistent(root, [], order, expanded) && RootPlace(root, [], order, expanded)
    ensures Distinct(order) && ChildrenFirst(order)
    ensures root.Op? ==> order != [] && order[|order| - 1] == root
    ensures forall t :: t in order <==> t in OpSubterms(root)
    ensures !root.Op? ==> order == []
  {
    if root.Op? {
      var c := Subterms(root) * (expanded + (set s | s in Subterms(root) && !s.Op?));
      SubtermsClosed(root);
      forall t, a | t in c && t.Op? && a in t.args
        ensures a in c
      {
        if a.Op? {
          var i :| 0 <= i < |order| && order[i] == t;
          assert a in order[..i];
        }
      }
      ClosedContainsSubterms(root, c);
    } else {
      assert order == [] || order[0] in OpSubterms(root);
    }
  }

  // The size of a DAG: how many distinct subterms it has, leaves included.
  method DagSize(root: Term) returns (n: nat)
    ensures n == |Subterms(root)|
  {
    var seen: set<Term> := {};
    var stack := [root];
    while stack != []
      invariant seen <= Subterms(root)
      invariant forall t :: t in stack ==> t in Subterms(root)
      invariant root in seen || root in stack
      invariant forall t, a :: t in seen && t.Op? && a in t.args ==> a in seen || a in stack
      decreases Subterms(root) - seen, |stack|
    {
      var t := stack[|stack| - 1];
      ghost var before := stack;
      stack := stack[..|stack| - 1];
      assert before == stack + [t];
      if t !in seen {
        seen := seen + {t};
        if t.Op? {
          SubtermsClosed(root);
          stack := stack + t.args;
        }
      }
    }
    ClosedContainsSubterms(root, seen);
    assert seen == Subterms(root);
    n := |seen|;
  }

  // What the stack loop below knows: it lists each op it has seen once, and an
  // op argument of a listed op is listed or waiting.
  ghost predicate Listing(root: Term, out: seq<Term>, seen: set<Term>, stack: seq<Term>) {
    && (forall t :: t in seen <==> t in out)
    && Distinct(out) && (forall t :: t in out ==> t in OpSubterms(root))
    && (forall t :: t in stack ==> t in Subterms(root))
    && (root.Op? ==> root in out || root in stack)
    && forall t, a :: t in out && t.Op? && a in t.args && a.Op? ==> a in out || a in stack
  }

  lemma ListingSkips(root: Term, out: seq<Term>, seen: set<Term>, stack: seq<Term>, t: Term)
    requires Listing(root, out, seen, stack + [t]) && (!t.Op? || t in seen)
    ensures Listing(root, out, seen, stack)
  {
    hide OpSubterms, Distinct;
    assert forall x :: x in stack + [t] <==> x in stack || x == t;
  }

  lemma ListingTakes(root: Term, out: seq<Term>, seen: set<Term>, stack: seq<Term>, t: Term)
    requires Listing(root, out, seen, stack + [t]) && t.Op? && t !in seen
    ensures t in OpSubterms(root) && Listing(root, out + [t], seen + {t}, stack + t.args)
  {
    assert t in stack + [t];
    TakenDistinct(out, t);
    SubtermsClosed(root);
    ListingArgs(out, stack, t);
  }

  lemma TakenDistinct(out: seq<Term>, t: Term)
    requires Distinct(out) && t !in out
    ensures Distinct(out + [t])
  {
  }

  lemma ListingArgs(out: seq<Term>, stack: seq<Term>, t: Term)
    requires t.Op?
    requires forall u, a :: u in out && u.Op? && a in u.args && a.Op? ==> a in out || a in stack + [t]
    ensures forall u, a :: u in out + [t] && u.Op? && a in u.args && a.Op? ==> a in out + [t] || a in stack + t.args
  {
    forall u, a | u in out + [t] && u.Op? && a in u.args && a.Op?
      ensures a in out + [t] || a in stack + t.args
    {
      if u == t {
        assert a in t.args;
      } else {
        assert u in out;
      }
    }
  }

  lemma ListingStarts(root: Term)
    ensures Listing(root, [], {}, [root])
  {
  }

  // The distinct op subterms, in the order the stack yields them.
  method ListOps(root: Term) returns (out: seq<Term>)
    ensures Distinct(out) && forall t :: t in out <==> t in OpSubterms(root)
  {
    hide Listing, OpSubterms, Distinct;
    var seen: set<Term> := {};
    var stack := [root];
    out := [];
    ListingStarts(root);
    while stack != []
      invariant Listing(root, out, seen, stack)
      decreases OpSubterms(root) - seen, |stack|
    {
      var t := stack[|stack| - 1];
      ghost var before := stack;
      stack := stack[..|stack| - 1];
      assert before == stack + [t];
      if t.Op? && t !in seen {
        ListingTakes(root, out, seen, stack, t);
        seen := seen + {t};
        out := out + [t];
        stack := stack + t.args;
      } else {
        ListingSkips(root, out, seen, stack, t);
      }
    }
    AllListed(root, out, seen);
  }

  lemma AllListed(root: Term, out: seq<Term>, seen: set<Term>)
    requires Listing(root, out, seen, [])
    ensures Distinct(out) && forall t :: t in out <==> t in OpSubterms(root)
  {
    if root.Op? {
      OpsClosed(root, out);
    }
  }

  lemma OpsClosed(root: Term, out: seq<Term>)
    requires root in out && forall t, a :: t in out && t.Op? && a in t.args && a.Op? ==> a in out
    ensures forall t :: t in OpSubterms(root) ==> t in out
  {
    var c := set t | t in Subterms(root) && (t in out || !t.Op?);
    SubtermsClosed(root);
    forall t, a | t in c && t.Op? && a in t.args
      ensures a in c
    {
    }
    ClosedContainsSubterms(root, c);
  }
}
