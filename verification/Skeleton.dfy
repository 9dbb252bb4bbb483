// The concat skeleton of an extracted program: its block outputs, and the
// concat tree over them.

module Skeleton {
  import opened Terms
  import opened Morphisms
  import opened ConcatTree

  predicate IsConcat(t: Term) {
    t.Op? && t.op == "concat"
  }

  // The leaves of the concat chain at the root, left to right.
  function BlockOutputs(t: Term): seq<Term> {
    if IsConcat(t) then BlockOutputsAll(t.args) else [t]
  }

  function BlockOutputsAll(ts: seq<Term>): seq<Term> {
    if ts == [] then [] else BlockOutputs(ts[0]) + BlockOutputsAll(ts[1..])
  }

  function Reverse<T>(s: seq<T>): seq<T> {
    if s == [] then [] else Reverse(s[1..]) + [s[0]]
  }

  // What a stack of pending terms will yield, top first.
  function Unwind(stack: seq<Term>): seq<Term> {
    if stack == [] then []
    else BlockOutputs(stack[|stack| - 1]) + Unwind(stack[..|stack| - 1])
  }

  function Height(stack: seq<Term>): nat {
    if stack == [] then 0 else Size(stack[|stack| - 1]) + Height(stack[..|stack| - 1])
  }

  lemma {:induction false} UnwindReversed(rest: seq<Term>, args: seq<Term>)
    ensures Unwind(rest + Reverse(args)) == BlockOutputsAll(args) + Unwind(rest)
    ensures Height(rest + Reverse(args)) == SizeAll(args) + Height(rest)
  {
    hide BlockOutputs, Size;
    if args == [] {
      NilConcat(rest);
      NilConcat(Unwind(rest));
    } else {
      var below := rest + Reverse(args[1..]);
      ConcatAssoc(rest, Reverse(args[1..]), [args[0]]);
      UnwindSnoc(below, args[0]);
      UnwindReversed(rest, args[1..]);
      ConcatAssoc(BlockOutputs(args[0]), BlockOutputsAll(args[1..]), Unwind(rest));
    }
  }

  lemma UnwindSnoc(below: seq<Term>, t: Term)
    ensures Unwind(below + [t]) == BlockOutputs(t) + Unwind(below)
    ensures Height(below + [t]) == Size(t) + Height(below)
  {
    assert (below + [t])[..|below|] == below;
  }

  lemma BlocksOf(t: Term)
    ensures BlockOutputs(t) == if IsConcat(t) then BlockOutputsAll(t.args) else [t]
    ensures if t.Op? then Size(t) == 1 + SizeAll(t.args) else Size(t) == 1
  {
  }

  lemma NothingPending()
    ensures Unwind([]) == [] && Height([]) == 0
  {
  }

  method ListBlocks(root: Term) returns (out: seq<Term>)
    ensures out == BlockOutputs(root)
  {
    hide *;
    out := [];
    var stack := [root];
    NothingPending();
    UnwindSnoc([], root);
    NilConcat(stack);
    NilConcat(BlockOutputs(root));
    while stack != []
      invariant out + Unwind(stack) == BlockOutputs(root)
      decreases Height(stack)
    {
      var x, rest := stack[|stack| - 1], stack[..|stack| - 1];
      assert stack == rest + [x];
      UnwindSnoc(rest, x);
      BlocksOf(x);
      if IsConcat(x) {
        ConcatIsOp(x);
        stack := rest + Reverse(x.args);
        UnwindReversed(rest, x.args);
      } else {
        ConcatAssoc(out, [x], Unwind(rest));
        out := out + [x];
        stack := rest;
      }
    }
    NilConcat(out);
  }

  lemma ConcatIsOp(t: Term)
    requires IsConcat(t)
    ensures t.Op?
  {
  }

  // ---------------------------------------------------------------------------
  //  The skeleton
  // ---------------------------------------------------------------------------

  function Find(blocks: seq<Term>, t: Term): (i: int)
    ensures 0 <= i <= |blocks| && (i < |blocks| ==> blocks[i] == t)
    ensures forall j :: 0 <= j < i ==> blocks[j] != t
  {
    if blocks == [] || blocks[0] == t then 0 else 1 + Find(blocks[1..], t)
  }

  // The concat tree with each block leaf replaced by its index.
  function ConcatSkeleton(t: Term, blocks: seq<Term>): Tree {
    if IsConcat(t) then Node(ConcatSkeletonAll(t.args, blocks))
    else
      var i := Find(blocks, t);
      if i < |blocks| then At(i) else Verbatim(t)
  }

  function ConcatSkeletonAll(ts: seq<Term>, blocks: seq<Term>): seq<Tree> {
    if ts == [] then [] else [ConcatSkeleton(ts[0], blocks)] + ConcatSkeletonAll(ts[1..], blocks)
  }

  // Each listed block as the first position that holds it.
  function Firsts(blocks: seq<Term>, xs: seq<Term>): (r: seq<Tree>)
    ensures |r| == |xs| && forall i :: 0 <= i < |xs| ==> r[i] == At(Find(blocks, xs[i]))
  {
    seq(|xs|, i requires 0 <= i < |xs| => At(Find(blocks, xs[i])))
  }

  // Over its own block outputs the skeleton's leaves are, left to right, the
  // first positions of the blocks: no leaf is verbatim, and the leaves are the
  // block indices in order exactly when no block is repeated.
  lemma SkeletonLeaves(root: Term)
    ensures var blocks := BlockOutputs(root);
      && Leaves(ConcatSkeleton(root, blocks)) == Firsts(blocks, blocks)
      && (forall i :: 0 <= i < |blocks| ==> Find(blocks, blocks[i]) < |blocks|)
      && (Leaves(ConcatSkeleton(root, blocks)) == Ats(0, |blocks|) <==> Distinct(blocks))
  {
    var blocks := BlockOutputs(root);
    SubtreeLeaves(root, blocks);
    FirstsInOrder(blocks);
  }

  lemma FirstsInOrder(blocks: seq<Term>)
    ensures forall i :: 0 <= i < |blocks| ==> Find(blocks, blocks[i]) <= i
    ensures Firsts(blocks, blocks) == Ats(0, |blocks|) <==> Distinct(blocks)
  {
    var found, order := Firsts(blocks, blocks), Ats(0, |blocks|);
    if Distinct(blocks) {
      assert forall i :: 0 <= i < |blocks| ==> found[i] == order[i];
    }
    if found == order {
      forall i, j | 0 <= i < j < |blocks|
        ensures blocks[i] != blocks[j]
      {
        assert found[i] == At(0 + i) && found[j] == At(0 + j);
      }
    }
  }

  lemma {:induction false} SubtreeLeaves(t: Term, blocks: seq<Term>)
    requires forall x :: x in BlockOutputs(t) ==> x in blocks
    ensures Leaves(ConcatSkeleton(t, blocks)) == Firsts(blocks, BlockOutputs(t))
    decreases t, 0
  {
    if IsConcat(t) {
      SubtreeLeavesAll(t.args, blocks);
    } else {
      assert BlockOutputs(t)[0] == t;
      FindMember(blocks, t);
    }
  }

  lemma FindMember(blocks: seq<Term>, t: Term)
    requires t in blocks
    ensures Find(blocks, t) < |blocks|
  {
  }

  lemma {:induction false} SubtreeLeavesAll(ts: seq<Term>, blocks: seq<Term>)
    requires forall x :: x in BlockOutputsAll(ts) ==> x in blocks
    ensures LeavesAll(ConcatSkeletonAll(ts, blocks)) == Firsts(blocks, BlockOutputsAll(ts))
    decreases ts, 0
  {
    hide ConcatSkeleton, Leaves, BlockOutputs, Find;
    if ts == [] {
    } else {
      LeavesCons(ConcatSkeleton(ts[0], blocks), ConcatSkeletonAll(ts[1..], blocks));
      SubtreeLeaves(ts[0], blocks);
      SubtreeLeavesAll(ts[1..], blocks);
    }
  }

  // A tree already numbered in order is left alone by the relabelling.
  lemma {:induction false} NumberedSame(t: Tree, c: int)
    requires Leaves(t) == Ats(c, |Leaves(t)|)
    ensures Numbered(t, c) == t
    decreases t, 0
  {
    if t.Node? {
      NumberedAllSame(t.kids, c);
    } else {
      assert Leaves(t)[0] == t;
    }
  }

  lemma {:induction false} NumberedAllSame(ts: seq<Tree>, c: int)
    requires LeavesAll(ts) == Ats(c, |LeavesAll(ts)|)
    ensures NumberedAll(ts, c) == ts
    decreases ts, 0
  {
    if ts == [] {
    } else {
      hide Leaves, Numbered;
      var n, m := |Leaves(ts[0])|, |LeavesAll(ts[1..])|;
      AtsSplit(c, n, m, Leaves(ts[0]), LeavesAll(ts[1..]));
      NumberedSame(ts[0], c);
      NumberedAllSame(ts[1..], c + n);
      assert ts == [ts[0]] + ts[1..];
    }
  }

  lemma AtsSplit(c: int, n: nat, m: nat, a: seq<Tree>, b: seq<Tree>)
    requires |a| == n && |b| == m && a + b == Ats(c, n + m)
    ensures a == Ats(c, n) && b == Ats(c + n, m)
  {
    assert forall i :: 0 <= i < n ==> a[i] == (a + b)[i];
    assert forall i :: 0 <= i < m ==> b[i] == (a + b)[n + i];
  }

  lemma AtsWired(n: nat)
    ensures Wired(Ats(0, n), n)
  {
  }

  // ---------------------------------------------------------------------------
  //  Rebuilding
  // ---------------------------------------------------------------------------

  // Two fillings of a numbered tree agree exactly when they agree everywhere.
  lemma {:induction false} RebuildInjective(t: Tree, c: nat, a: seq<Term>, b: seq<Term>)
    requires |a| == |b| && Leaves(t) == Ats(c, |Leaves(t)|) && c + |Leaves(t)| <= |a|
    requires Fits(t, |a|)
    ensures Rebuild(t, a) == Rebuild(t, b) <==> a[c..c + |Leaves(t)|] == b[c..c + |Leaves(t)|]
    decreases t, 0
  {
    hide LeavesAll, RebuildAll, FitsAll;
    if t.Node? {
      RebuildAllInjective(t.kids, c, a, b);
    } else {
      assert Leaves(t)[0] == t;
      assert a[c..c + 1] == [a[c]] && b[c..c + 1] == [b[c]];
    }
  }

  lemma {:induction false} RebuildAllInjective(ts: seq<Tree>, c: nat, a: seq<Term>, b: seq<Term>)
    requires |a| == |b| && LeavesAll(ts) == Ats(c, |LeavesAll(ts)|) && c + |LeavesAll(ts)| <= |a|
    requires FitsAll(ts, |a|)
    ensures RebuildAll(ts, a) == RebuildAll(ts, b) <==> a[c..c + |LeavesAll(ts)|] == b[c..c + |LeavesAll(ts)|]
    decreases ts, 0
  {
    hide *;
    if ts == [] {
      NothingRebuilt(c, a, b);
    } else {
      var n, m := |Leaves(ts[0])|, |LeavesAll(ts[1..])|;
      TreesCons(ts, a);
      TreesCons(ts, b);
      AtsSplit(c, n, m, Leaves(ts[0]), LeavesAll(ts[1..]));
      RebuildInjective(ts[0], c, a, b);
      RebuildAllInjective(ts[1..], c + n, a, b);
      SliceJoin(a, b, c, n, m);
      assert |LeavesAll(ts)| == n + m && c + (n + m) == c + n + m;
      ConsEqual(Rebuild(ts[0], a), RebuildAll(ts[1..], a), Rebuild(ts[0], b), RebuildAll(ts[1..], b));
    }
  }

  lemma NothingRebuilt(c: nat, a: seq<Term>, b: seq<Term>)
    requires c <= |a| == |b|
    ensures LeavesAll([]) == [] && RebuildAll([], a) == RebuildAll([], b) == [] && a[c..c] == b[c..c]
  {
  }

  lemma TreesCons(ts: seq<Tree>, w: seq<Term>)
    requires ts != [] && FitsAll(ts, |w|)
    ensures LeavesAll(ts) == Leaves(ts[0]) + LeavesAll(ts[1..]) && Fits(ts[0], |w|) && FitsAll(ts[1..], |w|)
    ensures RebuildAll(ts, w) == [Rebuild(ts[0], w)] + RebuildAll(ts[1..], w)
  {
    hide Leaves, Rebuild, Fits;
  }

  lemma SliceJoin<T>(a: seq<T>, b: seq<T>, c: nat, n: nat, m: nat)
    requires |a| == |b| && c + n + m <= |a|
    ensures a[c..c + (n + m)] == b[c..c + (n + m)] <==>
      a[c..c + n] == b[c..c + n] && a[c + n..c + n + m] == b[c + n..c + n + m]
  {
    assert a[c..c + (n + m)] == a[c..c + n] + a[c + n..c + n + m];
    assert b[c..c + (n + m)] == b[c..c + n] + b[c + n..c + n + m];
    SliceParts(a, c, n, n + m);
    SliceParts(b, c, n, n + m);
  }

  lemma ConsEqual<T>(x: T, s: seq<T>, y: T, t: seq<T>)
    ensures [x] + s == [y] + t <==> x == y && s == t
  {
    assert ([x] + s)[0] == x && ([y] + t)[0] == y;
    assert ([x] + s)[1..] == s && ([y] + t)[1..] == t;
  }

  // Every concat on the spine carries the attributes the emitter writes.
  predicate SpineAt(t: Term) {
    IsConcat(t) ==> t.attrs == ConcatAttrs() && SpineAtAll(t.args)
  }

  predicate SpineAtAll(ts: seq<Term>) {
    if ts == [] then true else SpineAt(ts[0]) && SpineAtAll(ts[1..])
  }

  // Refilled with its own blocks, the skeleton is the root, exactly when every
  // concat is along the emitter's dimension.
  lemma {:induction false} RebuildIsRoot(t: Term, blocks: seq<Term>)
    requires forall x :: x in BlockOutputs(t) ==> x in blocks
    ensures Fits(ConcatSkeleton(t, blocks), |blocks|)
    ensures Rebuild(ConcatSkeleton(t, blocks), blocks) == t <==> SpineAt(t)
    decreases t, 0
  {
    if IsConcat(t) {
      RebuildAllIsRoot(t.args, blocks);
    } else {
      assert t in BlockOutputs(t);
    }
  }

  lemma {:induction false} RebuildAllIsRoot(ts: seq<Term>, blocks: seq<Term>)
    requires forall x :: x in BlockOutputsAll(ts) ==> x in blocks
    ensures FitsAll(ConcatSkeletonAll(ts, blocks), |blocks|)
    ensures RebuildAll(ConcatSkeletonAll(ts, blocks), blocks) == ts <==> SpineAtAll(ts)
    decreases ts, 0
  {
    hide *;
    if ts == [] {
      NothingToRebuild(blocks);
    } else {
      var first, rest := ConcatSkeleton(ts[0], blocks), ConcatSkeletonAll(ts[1..], blocks);
      RootsCons(ts, blocks);
      RebuildIsRoot(ts[0], blocks);
      RebuildAllIsRoot(ts[1..], blocks);
      RebuildCons(first, rest, blocks);
      ConsEqual(Rebuild(first, blocks), RebuildAll(rest, blocks), ts[0], ts[1..]);
      assert ts == [ts[0]] + ts[1..];
    }
  }

  lemma NothingToRebuild(blocks: seq<Term>)
    ensures FitsAll(ConcatSkeletonAll([], blocks), |blocks|)
    ensures RebuildAll(ConcatSkeletonAll([], blocks), blocks) == [] && SpineAtAll([])
  {
  }

  lemma RootsCons(ts: seq<Term>, blocks: seq<Term>)
    requires ts != [] && forall x :: x in BlockOutputsAll(ts) ==> x in blocks
    ensures forall x :: x in BlockOutputs(ts[0]) || x in BlockOutputsAll(ts[1..]) ==> x in blocks
    ensures ConcatSkeletonAll(ts, blocks) == [ConcatSkeleton(ts[0], blocks)] + ConcatSkeletonAll(ts[1..], blocks)
    ensures SpineAtAll(ts) <==> SpineAt(ts[0]) && SpineAtAll(ts[1..])
  {
    hide BlockOutputs, ConcatSkeleton, SpineAt;
    assert BlockOutputsAll(ts) == BlockOutputs(ts[0]) + BlockOutputsAll(ts[1..]);
  }
}
