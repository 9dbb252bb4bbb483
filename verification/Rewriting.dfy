// Subterms of a morphism and replacement inside one: replacing a subterm by an
// equivalent one keeps the meaning of the whole.

module Rewriting {
  import opened Terms
  import opened Morphisms
  import opened Census
  import opened Unroll

  // ---------------------------------------------------------------------------
  //  Subterms
  // ---------------------------------------------------------------------------

  function Children(m: Morph): seq<Morph> {
    match m
    case Loop(step, _, _, _) => [step]
    case Seq(ps) => ps
    case Par(ps) => ps
    case _ => []
  }

  function Inside(m: Morph): set<Morph> {
    {m} +
    match m
    case Loop(step, _, _, _) => Inside(step)
    case Seq(ps) => InsideAll(ps)
    case Par(ps) => InsideAll(ps)
    case _ => {}
  }

  function InsideAll(ps: seq<Morph>): set<Morph> {
    if ps == [] then {} else Inside(ps[0]) + InsideAll(ps[1..])
  }

  lemma {:induction false} InsideAllMember(ps: seq<Morph>, p: Morph)
    requires p in ps
    ensures Inside(p) <= InsideAll(ps)
  {
    if p == ps[0] {
    } else {
      InsideAllMember(ps[1..], p);
    }
  }

  lemma {:induction false} InsideAllInverse(ps: seq<Morph>, s: Morph)
    requires s in InsideAll(ps)
    ensures exists p :: p in ps && s in Inside(p)
  {
    if s in Inside(ps[0]) {
    } else {
      InsideAllInverse(ps[1..], s);
    }
  }

  lemma InsideOfChildren(m: Morph)
    ensures Inside(m) == {m} + InsideAll(Children(m))
  {
    if m.Loop? {
      assert Children(m)[1..] == [];
    }
  }

  lemma InsideChild(m: Morph, s: Morph)
    requires s in Inside(m) && s != m
    ensures exists c :: c in Children(m) && s in Inside(c)
  {
    InsideOfChildren(m);
    InsideAllInverse(Children(m), s);
  }

  lemma ChildInside(m: Morph, c: Morph)
    requires c in Children(m)
    ensures Inside(c) <= Inside(m)
  {
    InsideOfChildren(m);
    InsideAllMember(Children(m), c);
  }

  ghost predicate ChildClosed(c: set<Morph>) {
    forall m, p :: m in c && p in Children(m) ==> p in c
  }

  // The least closed set around a morphism is its set of subterms.
  lemma {:induction false} ClosedContainsInside(m: Morph, c: set<Morph>)
    requires m in c && ChildClosed(c)
    ensures Inside(m) <= c
    decreases Tally(m, Nodes)
  {
    forall s | s in Inside(m)
      ensures s in c
    {
      if s != m {
        InsideChild(m, s);
        var p :| p in Children(m) && s in Inside(p);
        ChildSmaller(m, p);
        ClosedContainsInside(p, c);
      }
    }
  }

  // Every subterm of a well-formed morphism is well formed.
  lemma {:induction false} InsideWF(m: Morph, s: Morph)
    requires WF(m) && s in Inside(m)
    ensures WF(s)
    decreases Tally(m, Nodes)
  {
    if s == m {
    } else {
      InsideChild(m, s);
      var p :| p in Children(m) && s in Inside(p);
      ChildSmaller(m, p);
      ChildWF(m, p);
      InsideWF(p, s);
    }
  }

  lemma ChildWF(m: Morph, p: Morph)
    requires WF(m) && p in Children(m)
    ensures WF(p)
  {
    if !m.Loop? {
      var i :| 0 <= i < |Children(m)| && Children(m)[i] == p;
      AllWFMember(Children(m), i);
    }
  }

  // ---------------------------------------------------------------------------
  //  Node counts
  // ---------------------------------------------------------------------------

  lemma {:induction false} NodesPositive(m: Morph)
    ensures Tally(m, Nodes) >= 1
    decreases m, 0
  {
    match m
    case Loop(step, _, _, _) => NodesPositive(step);
    case Seq(ps) => NodesNonNegative(ps);
    case Par(ps) => NodesNonNegative(ps);
    case _ =>
  }

  lemma {:induction false} NodesNonNegative(ps: seq<Morph>)
    ensures TallyAll(ps, Nodes) >= |ps|
    decreases ps, 0
  {
    if ps == [] {
    } else {
      NodesPositive(ps[0]);
      NodesNonNegative(ps[1..]);
    }
  }

  lemma {:induction false} MemberSmaller(ps: seq<Morph>, p: Morph)
    requires p in ps
    ensures Tally(p, Nodes) <= TallyAll(ps, Nodes)
  {
    NodesPositive(ps[0]);
    NodesNonNegative(ps[1..]);
    if p == ps[0] {
    } else {
      MemberSmaller(ps[1..], p);
    }
  }

  lemma NodesOfChildren(m: Morph)
    ensures Tally(m, Nodes) == 1 + TallyAll(Children(m), Nodes)
  {
    if m.Loop? {
      assert Children(m)[1..] == [];
    }
  }

  lemma ChildSmaller(m: Morph, p: Morph)
    requires p in Children(m)
    ensures 1 <= Tally(p, Nodes) < Tally(m, Nodes)
  {
    NodesPositive(p);
    NodesOfChildren(m);
    MemberSmaller(Children(m), p);
  }

  lemma {:induction false} InsideSmaller(m: Morph, s: Morph)
    requires s in Inside(m)
    ensures Tally(s, Nodes) <= Tally(m, Nodes)
    ensures s != m ==> Tally(s, Nodes) < Tally(m, Nodes)
    decreases Tally(m, Nodes)
  {
    if s == m {
    } else {
      InsideChild(m, s);
      var p :| p in Children(m) && s in Inside(p);
      ChildSmaller(m, p);
      InsideSmaller(p, s);
    }
  }

  // ---------------------------------------------------------------------------
  //  Listing the subterms
  // ---------------------------------------------------------------------------

  // The distinct subterms in the order a stack of pending terms yields them.
  function Walk(stack: seq<Morph>, out: seq<Morph>): seq<Morph>
    decreases Pending(stack), |stack|
  {
    if stack == [] then out
    else
      var rest, t := stack[..|stack| - 1], stack[|stack| - 1];
      PendingPop(stack);
      if t in out then Walk(rest, out) else Walk(rest + Children(t), out + [t])
  }

  function Pending(stack: seq<Morph>): (n: nat) {
    NodesNonNegative(stack);
    TallyAll(stack, Nodes)
  }

  lemma PendingPop(stack: seq<Morph>)
    requires stack != []
    ensures var rest, t := stack[..|stack| - 1], stack[|stack| - 1];
      Pending(rest) < Pending(stack) && Pending(rest + Children(t)) < Pending(stack)
  {
    var rest, t := stack[..|stack| - 1], stack[|stack| - 1];
    assert stack == rest + [t];
    TallySnoc(rest, t, Nodes);
    NodesPositive(t);
    NodesOfChildren(t);
    TallyConcat(rest, Children(t), Nodes);
  }

  function SubtermList(m: Morph): seq<Morph> {
    Walk([m], [])
  }

  method ListSubterms(m: Morph) returns (out: seq<Morph>)
    ensures out == SubtermList(m)
  {
    out := [];
    var stack := [m];
    while stack != []
      invariant Walk(stack, out) == SubtermList(m)
      decreases Pending(stack)
    {
      PendingPop(stack);
      var t := stack[|stack| - 1];
      stack := stack[..|stack| - 1];
      if t !in out {
        out := out + [t];
        stack := stack + Children(t);
      }
    }
  }

  ghost predicate Walked(m: Morph, stack: seq<Morph>, out: seq<Morph>) {
    && Distinct(out)
    && (forall t :: t in stack || t in out ==> t in Inside(m))
    && (forall t, p :: t in out && p in Children(t) ==> p in out || p in stack)
    && (m in out || m in stack)
  }

  // The list holds each subterm exactly once.
  lemma {:induction false} SubtermListLaw(m: Morph)
    ensures Distinct(SubtermList(m))
    ensures forall t :: t in SubtermList(m) <==> t in Inside(m)
  {
    WalkLaw(m, [m], []);
  }

  lemma {:induction false} WalkLaw(m: Morph, stack: seq<Morph>, out: seq<Morph>)
    requires Walked(m, stack, out)
    ensures Distinct(Walk(stack, out))
    ensures forall t :: t in Walk(stack, out) <==> t in Inside(m)
    decreases Pending(stack), |stack|
  {
    hide Walked, Inside, Children, Pending, Distinct, Walk;
    WalkStep(stack, out);
    if stack == [] {
      WalkDone(m, out);
    } else {
      var rest, t := stack[..|stack| - 1], stack[|stack| - 1];
      assert stack == rest + [t];
      PendingPop(stack);
      if t in out {
        WalkedSkip(m, rest, t, out);
        WalkLaw(m, rest, out);
      } else {
        WalkedOpen(m, rest, t, out);
        WalkLaw(m, rest + Children(t), out + [t]);
      }
    }
  }

  lemma WalkStep(stack: seq<Morph>, out: seq<Morph>)
    ensures Walk(stack, out) ==
      if stack == [] then out
      else
        var rest, t := stack[..|stack| - 1], stack[|stack| - 1];
        if t in out then Walk(rest, out) else Walk(rest + Children(t), out + [t])
  {
    hide Pending, Children;
  }

  lemma WalkDone(m: Morph, out: seq<Morph>)
    requires Walked(m, [], out)
    ensures Distinct(out) && forall t :: t in out <==> t in Inside(m)
  {
    hide Inside, Children;
    var c := set t | t in out;
    ClosedContainsInside(m, c);
  }

  lemma WalkedSkip(m: Morph, rest: seq<Morph>, t: Morph, out: seq<Morph>)
    requires Walked(m, rest + [t], out) && t in out
    ensures Walked(m, rest, out)
  {
    hide Inside, Children;
    assert forall p :: p in rest + [t] <==> p in rest || p == t;
  }

  lemma WalkedOpen(m: Morph, rest: seq<Morph>, t: Morph, out: seq<Morph>)
    requires Walked(m, rest + [t], out) && t !in out
    ensures Walked(m, rest + Children(t), out + [t])
  {
    assert t in rest + [t];
    forall p | p in Children(t)
      ensures p in Inside(m)
    {
      ChildInside(t, p);
      InsideTransitive(m, t);
    }
  }

  lemma {:induction false} InsideTransitive(m: Morph, s: Morph)
    requires s in Inside(m)
    ensures Inside(s) <= Inside(m)
    decreases Tally(m, Nodes)
  {
    if s == m {
    } else {
      InsideChild(m, s);
      var p :| p in Children(m) && s in Inside(p);
      ChildSmaller(m, p);
      InsideTransitive(p, s);
      ChildInside(m, p);
    }
  }

  // ---------------------------------------------------------------------------
  //  Replacement
  // ---------------------------------------------------------------------------

  // Rebuild a morphism with every occurrence of a subterm replaced.
  function Replace(m: Morph, target: Morph, fold: Morph): Morph {
    if m == target then fold
    else
      match m
      case Loop(step, n, nx, ny) => Loop(Replace(step, target, fold), n, nx, ny)
      case Seq(ps) => Seq(ReplaceAll(ps, target, fold))
      case Par(ps) => Par(ReplaceAll(ps, target, fold))
      case _ => m
  }

  function ReplaceAll(ps: seq<Morph>, target: Morph, fold: Morph): (r: seq<Morph>)
    ensures |r| == |ps|
  {
    if ps == [] then [] else [Replace(ps[0], target, fold)] + ReplaceAll(ps[1..], target, fold)
  }

  lemma EquivSame(m: Morph)
    requires WF(m)
    ensures Equiv(m, m)
  {
  }

  lemma EquivFlip(a: Morph, b: Morph)
    requires Equiv(a, b)
    ensures Equiv(b, a)
  {
    hide Apply, WF, In, Out;
  }

  lemma EquivChain(a: Morph, b: Morph, c: Morph)
    requires Equiv(a, b) && Equiv(b, c)
    ensures Equiv(a, c)
  {
    hide Apply, WF, In, Out;
    forall w: seq<Term> | In(a) <= |w|
      ensures Apply(a, w) == Apply(c, w)
    {
      assert Apply(a, w) == Apply(b, w);
    }
  }

  ghost predicate PairwiseEquiv(ps: seq<Morph>, qs: seq<Morph>) {
    if ps == [] then qs == []
    else qs != [] && Equiv(ps[0], qs[0]) && PairwiseEquiv(ps[1..], qs[1..])
  }

  lemma {:induction false} PairwiseArity(ps: seq<Morph>, qs: seq<Morph>)
    requires PairwiseEquiv(ps, qs)
    ensures |ps| == |qs| && AllWF(ps) && AllWF(qs)
    ensures SeqIn(ps) == SeqIn(qs) && SeqDelta(ps) == SeqDelta(qs)
    ensures ParIn(ps) == ParIn(qs) && ParOut(ps) == ParOut(qs)
  {
    hide Apply, WF, In, Out;
    if ps == [] {
    } else {
      PairwiseArity(ps[1..], qs[1..]);
    }
  }

  lemma {:induction false} SeqCongruence(ps: seq<Morph>, qs: seq<Morph>, w: seq<Term>)
    requires PairwiseEquiv(ps, qs) && AllWF(ps) && AllWF(qs) && SeqIn(ps) <= |w| && SeqIn(qs) <= |w|
    ensures ApplySeq(ps, w) == ApplySeq(qs, w)
  {
    hide Apply, WF, In, Out;
    if ps == [] {
    } else {
      assert Apply(ps[0], w) == Apply(qs[0], w);
      SeqCongruence(ps[1..], qs[1..], Apply(ps[0], w));
    }
  }

  lemma {:induction false} ParCongruence(ps: seq<Morph>, qs: seq<Morph>, w: seq<Term>)
    requires PairwiseEquiv(ps, qs) && AllWF(ps) && AllWF(qs) && ParIn(ps) <= |w| && ParIn(qs) <= |w|
    ensures ApplyPar(ps, w) == ApplyPar(qs, w)
  {
    hide Apply, WF, In, Out;
    if ps == [] {
    } else {
      ArityNonNegative(ps[0]);
      AllArityNonNegative(ps[1..]);
      AllArityNonNegative(qs[1..]);
      var i := In(ps[0]);
      assert Apply(ps[0], w[..i]) == Apply(qs[0], w[..i]);
      ParCongruence(ps[1..], qs[1..], w[i..]);
    }
  }

  lemma {:induction false} LoopCongruence(p: Morph, q: Morph, n: int, nx: int, ny: int, s: Term, xs: seq<Term>)
    requires n >= 0 && nx >= 1 && ny >= 0 && Equiv(p, q) && In(p) == 1 + nx && Out(p) == 1 + ny
    requires Groups(n, nx) <= |xs|
    ensures ApplyLoop(p, n, nx, ny, s, xs) == ApplyLoop(q, n, nx, ny, s, xs)
    decreases n
  {
    hide Apply, WF, In, Out;
    if n <= 0 {
    } else {
      var res := Apply(p, [s] + xs[..nx]);
      assert res == Apply(q, [s] + xs[..nx]);
      LoopCongruence(p, q, n - 1, nx, ny, res[0], xs[nx..]);
    }
  }

  // Replacing a subterm by an equivalent one keeps arity and action.
  lemma {:induction false} ReplaceSound(m: Morph, target: Morph, fold: Morph)
    requires WF(m) && Equiv(target, fold)
    ensures Equiv(m, Replace(m, target, fold))
    decreases m, 0
  {
    if m == target {
    } else {
      match m
      case Loop(step, n, nx, ny) =>
        ReplaceSound(step, target, fold);
        LoopOfEquiv(step, Replace(step, target, fold), n, nx, ny);
      case Seq(ps) =>
        ReplaceAllSound(ps, target, fold);
        SeqOfEquiv(ps, ReplaceAll(ps, target, fold));
      case Par(ps) =>
        ReplaceAllSound(ps, target, fold);
        ParOfEquiv(ps, ReplaceAll(ps, target, fold));
      case _ =>
    }
  }

  lemma {:induction false} ReplaceAllSound(ps: seq<Morph>, target: Morph, fold: Morph)
    requires AllWF(ps) && Equiv(target, fold)
    ensures PairwiseEquiv(ps, ReplaceAll(ps, target, fold))
    decreases ps, 0
  {
    if ps == [] {
    } else {
      ReplaceSound(ps[0], target, fold);
      ReplaceAllSound(ps[1..], target, fold);
    }
  }

  lemma LoopOfEquiv(p: Morph, q: Morph, n: int, nx: int, ny: int)
    requires WF(Loop(p, n, nx, ny)) && Equiv(p, q)
    ensures Equiv(Loop(p, n, nx, ny), Loop(q, n, nx, ny))
  {
    hide Equiv, ApplyLoop, Groups;
    EquivParts(p, q);
    forall w: seq<Term> | In(Loop(p, n, nx, ny)) <= |w|
      ensures Apply(Loop(p, n, nx, ny), w) == Apply(Loop(q, n, nx, ny), w)
    {
      LoopCongruence(p, q, n, nx, ny, w[0], w[1..]);
    }
    EquivIntro(Loop(p, n, nx, ny), Loop(q, n, nx, ny));
  }

  lemma EquivParts(a: Morph, b: Morph)
    requires Equiv(a, b)
    ensures WF(a) && WF(b) && In(a) == In(b) && Out(a) == Out(b)
  {
  }

  lemma EquivIntro(a: Morph, b: Morph)
    requires WF(a) && WF(b) && In(a) == In(b) && Out(a) == Out(b)
    requires forall w: seq<Term> :: In(a) <= |w| ==> Apply(a, w) == Apply(b, w)
    ensures Equiv(a, b)
  {
  }

  lemma SeqOfEquiv(ps: seq<Morph>, qs: seq<Morph>)
    requires ps != [] && PairwiseEquiv(ps, qs)
    ensures Equiv(Seq(ps), Seq(qs))
  {
    hide AllWF, SeqIn, SeqDelta, ApplySeq, PairwiseEquiv;
    PairwiseArity(ps, qs);
    forall w: seq<Term> | SeqIn(ps) <= |w|
      ensures Apply(Seq(ps), w) == Apply(Seq(qs), w)
    {
      SeqCongruence(ps, qs, w);
    }
  }

  lemma ParOfEquiv(ps: seq<Morph>, qs: seq<Morph>)
    requires PairwiseEquiv(ps, qs)
    ensures Equiv(Par(ps), Par(qs))
  {
    hide AllWF, ParIn, ParOut, ApplyPar, PairwiseEquiv;
    PairwiseArity(ps, qs);
    forall w: seq<Term> | ParIn(ps) <= |w|
      ensures Apply(Par(ps), w) == Apply(Par(qs), w)
    {
      ParCongruence(ps, qs, w);
    }
  }

  // How many subterms a replacement replaces: occurrences inside a replaced
  // one are gone with it.
  function Hits(m: Morph, target: Morph): nat {
    if m == target then 1
    else
      match m
      case Loop(step, _, _, _) => Hits(step, target)
      case Seq(ps) => HitsAll(ps, target)
      case Par(ps) => HitsAll(ps, target)
      case _ => 0
  }

  function HitsAll(ps: seq<Morph>, target: Morph): nat {
    if ps == [] then 0 else Hits(ps[0], target) + HitsAll(ps[1..], target)
  }

  // Replacing a subterm changes the size of every enclosing term by the
  // difference in size, once for each occurrence replaced.
  lemma {:induction false} ReplaceCost(m: Morph, target: Morph, fold: Morph)
    ensures Tally(Replace(m, target, fold), Nodes)
         == Tally(m, Nodes) + Hits(m, target) * (Tally(fold, Nodes) - Tally(target, Nodes))
    ensures Hits(m, target) > 0 <==> target in Inside(m)
    decreases m, 0
  {
    hide TallyAll, ReplaceAll, HitsAll, InsideAll;
    if m == target {
    } else {
      match m
      case Loop(step, _, _, _) => ReplaceCost(step, target, fold);
      case Seq(ps) => ReplaceAllCost(ps, target, fold);
      case Par(ps) => ReplaceAllCost(ps, target, fold);
      case _ =>
    }
  }

  lemma {:induction false} ReplaceAllCost(ps: seq<Morph>, target: Morph, fold: Morph)
    ensures TallyAll(ReplaceAll(ps, target, fold), Nodes)
         == TallyAll(ps, Nodes) + HitsAll(ps, target) * (Tally(fold, Nodes) - Tally(target, Nodes))
    ensures HitsAll(ps, target) > 0 <==> target in InsideAll(ps)
    decreases ps, 0
  {
    hide Tally, Replace, Hits, Inside;
    if ps == [] {
    } else {
      ReplaceCost(ps[0], target, fold);
      ReplaceAllCost(ps[1..], target, fold);
      Distribute(Hits(ps[0], target), HitsAll(ps[1..], target), Tally(fold, Nodes) - Tally(target, Nodes));
    }
  }

  // Where the target does not occur nothing changes; where it does, the
  // replacement turns up.
  lemma {:induction false} ReplaceFinds(m: Morph, target: Morph, fold: Morph)
    ensures Hits(m, target) == 0 ==> Replace(m, target, fold) == m
    ensures Hits(m, target) > 0 ==> fold in Inside(Replace(m, target, fold))
    decreases m, 0
  {
    hide *;
    ReplaceNode(m, target, fold);
    InsideNode(Replace(m, target, fold));
    InsideSelf(fold);
    if m != target {
      match m
      case Loop(step, _, _, _) => ReplaceFinds(step, target, fold);
      case Seq(ps) => ReplaceAllFinds(ps, target, fold);
      case Par(ps) => ReplaceAllFinds(ps, target, fold);
      case _ =>
    }
  }

  lemma InsideSelf(m: Morph)
    ensures m in Inside(m)
  {
  }

  // A replacement at one node, and what is inside a node.
  lemma ReplaceNode(m: Morph, target: Morph, fold: Morph)
    ensures m == target ==> Replace(m, target, fold) == fold && Hits(m, target) == 1
    ensures m != target && m.Loop? ==>
      && Replace(m, target, fold) == Loop(Replace(m.step, target, fold), m.n, m.nx, m.ny)
      && Hits(m, target) == Hits(m.step, target)
    ensures m != target && (m.Seq? || m.Par?) ==>
      var ps := ReplaceAll(m.parts, target, fold);
      && Replace(m, target, fold) == (if m.Seq? then Seq(ps) else Par(ps)) && Hits(m, target) == HitsAll(m.parts, target)
    ensures m != target && !m.Loop? && !m.Seq? && !m.Par? ==> Replace(m, target, fold) == m && Hits(m, target) == 0
  {
    hide ReplaceAll, HitsAll, InsideAll, Inside;
  }

  lemma InsideNode(m: Morph)
    ensures m.Loop? ==> Inside(m) == {m} + Inside(m.step)
    ensures m.Seq? || m.Par? ==> Inside(m) == {m} + InsideAll(m.parts)
    ensures !m.Loop? && !m.Seq? && !m.Par? ==> Inside(m) == {m}
  {
    hide InsideAll;
  }

  lemma {:induction false} ReplaceAllFinds(ps: seq<Morph>, target: Morph, fold: Morph)
    ensures HitsAll(ps, target) == 0 ==> ReplaceAll(ps, target, fold) == ps
    ensures HitsAll(ps, target) > 0 ==> fold in InsideAll(ReplaceAll(ps, target, fold))
    decreases ps, 0
  {
    hide Hits, Replace, Inside;
    if ps == [] {
    } else {
      ReplaceFinds(ps[0], target, fold);
      ReplaceAllFinds(ps[1..], target, fold);
      ReplaceCons(ps, target, fold);
      assert ps == [ps[0]] + ps[1..];
    }
  }

  lemma ReplaceCons(ps: seq<Morph>, target: Morph, fold: Morph)
    requires ps != []
    ensures var first, rest := Replace(ps[0], target, fold), ReplaceAll(ps[1..], target, fold);
      ReplaceAll(ps, target, fold) == [first] + rest
      && InsideAll(ReplaceAll(ps, target, fold)) == Inside(first) + InsideAll(rest)
  {
    hide Replace, Inside, InsideAll;
    InsideAllCons(Replace(ps[0], target, fold), ReplaceAll(ps[1..], target, fold));
  }

  lemma InsideAllCons(p: Morph, ps: seq<Morph>)
    ensures InsideAll([p] + ps) == Inside(p) + InsideAll(ps)
  {
    hide Inside;
    assert ([p] + ps)[1..] == ps;
  }

  // When neither occurs in the other, no occurrence of the target is left.
  lemma {:induction false} ReplaceGone(m: Morph, target: Morph, fold: Morph)
    requires target !in Inside(fold) && fold !in Inside(target)
    ensures target !in Inside(Replace(m, target, fold))
    decreases m, 0
  {
    hide *;
    ReplaceNode(m, target, fold);
    InsideNode(Replace(m, target, fold));
    ReplaceFinds(m, target, fold);
    if m != target {
      match m
      case Loop(step, _, _, _) => ReplaceGone(step, target, fold);
      case Seq(ps) => ReplaceAllGone(ps, target, fold);
      case Par(ps) => ReplaceAllGone(ps, target, fold);
      case _ =>
    }
  }

  lemma {:induction false} ReplaceAllGone(ps: seq<Morph>, target: Morph, fold: Morph)
    requires target !in Inside(fold) && fold !in Inside(target)
    ensures target !in InsideAll(ReplaceAll(ps, target, fold))
    decreases ps, 0
  {
    hide Replace, Inside;
    if ps == [] {
    } else {
      ReplaceGone(ps[0], target, fold);
      ReplaceAllGone(ps[1..], target, fold);
      ReplaceCons(ps, target, fold);
    }
  }
}
