// Compiling a term DAG to a morphism: the postorder walk threads a context of
// live wires and mints one rewiring and one arrow per distinct op.

module Segments {
  import opened Terms
  import opened Morphisms
  import opened Constructors
  import opened Census
  import opened Gather

  function Elements(s: seq<Term>): set<Term> {
    set x | x in s
  }

  // ---------------------------------------------------------------------------
  //  What a compiled prefix computes
  // ---------------------------------------------------------------------------

  // On wires carrying the instantiated `before` terms, the morphism leaves
  // the instantiated `after` terms and does not touch the tail.
  ghost predicate Rewires(m: Morph, inputs: seq<Term>, before: seq<Term>, after: seq<Term>) {
    && WF(m) && In(m) <= |before| && |before| - In(m) + Out(m) == |after|
    && forall env: map<Term, Term>, tail: seq<Term> {:trigger SubstAll(before, env) + tail} ::
         env.Keys == Elements(inputs) ==>
           Apply(m, SubstAll(before, env) + tail) == SubstAll(after, env) + tail
  }

  // The same for a list of parts applied in sequence.
  ghost predicate Carries(ps: seq<Morph>, inputs: seq<Term>, before: seq<Term>, after: seq<Term>) {
    && AllWF(ps) && SeqIn(ps) <= |before| && |before| + SeqDelta(ps) == |after|
    && forall env: map<Term, Term>, tail: seq<Term> {:trigger SubstAll(before, env) + tail} ::
         env.Keys == Elements(inputs) ==>
           ApplySeq(ps, SubstAll(before, env) + tail) == SubstAll(after, env) + tail
  }

  lemma CarriesNone(inputs: seq<Term>, before: seq<Term>)
    ensures Carries([], inputs, before, before)
  {
  }

  lemma CarriesSnoc(ps: seq<Morph>, m: Morph, inputs: seq<Term>, before: seq<Term>, ctx: seq<Term>, next: seq<Term>)
    requires Carries(ps, inputs, before, ctx) && Rewires(m, inputs, ctx, next)
    ensures Carries(ps + [m], inputs, before, next)
    ensures SeqIn(ps + [m]) == Max(SeqIn(ps), In(m) - SeqDelta(ps))
    ensures SeqDelta(ps + [m]) == SeqDelta(ps) + Out(m) - In(m)
  {
    SeqSnocArity(ps, m);
    forall env: map<Term, Term>, tail: seq<Term> | env.Keys == Elements(inputs)
      ensures ApplySeq(ps + [m], SubstAll(before, env) + tail) == SubstAll(next, env) + tail
    {
      SeqSnoc(ps, m, SubstAll(before, env) + tail);
    }
  }

  lemma CarriesSeqOf(ps: seq<Morph>, inputs: seq<Term>, before: seq<Term>, after: seq<Term>)
    requires Carries(ps, inputs, before, after) && ps != []
    ensures Rewires(SeqOf(ps), inputs, before, after)
    ensures In(SeqOf(ps)) == SeqIn(ps) && Out(SeqOf(ps)) == SeqIn(ps) + SeqDelta(ps)
  {
    SeqOfLaw(ps);
    forall env: map<Term, Term>, tail: seq<Term> | env.Keys == Elements(inputs)
      ensures Apply(SeqOf(ps), SubstAll(before, env) + tail) == SubstAll(after, env) + tail
    {
      SeqOfApply(ps, SubstAll(before, env) + tail);
    }
  }

  // ---------------------------------------------------------------------------
  //  The generators
  // ---------------------------------------------------------------------------

  function Generators(leaves: seq<Term>): (r: seq<Morph>)
    ensures |r| == |leaves| && forall i :: 0 <= i < |leaves| ==> r[i] == Leaf(leaves[i])
  {
    seq(|leaves|, i requires 0 <= i < |leaves| => Leaf(leaves[i]))
  }

  lemma {:induction false} GeneratorsApply(leaves: seq<Term>, w: seq<Term>)
    ensures AllWF(Generators(leaves)) && ParIn(Generators(leaves)) == 0 && ParOut(Generators(leaves)) == |leaves|
    ensures ApplyPar(Generators(leaves), w) == leaves + w
  {
    if leaves != [] {
      assert Generators(leaves) == [Leaf(leaves[0])] + Generators(leaves[1..]);
      GeneratorsApply(leaves[1..], w);
      assert [] + w == w;
      ParCons(Leaf(leaves[0]), Generators(leaves[1..]), [], w);
      assert Apply(Leaf(leaves[0]), []) == [leaves[0]];
      ConsTail(leaves, w);
    } else {
      assert leaves + w == w;
    }
  }

  lemma {:induction false} GeneratorsTally(leaves: seq<Term>, c: Stat)
    requires IsGate(c)
    ensures TallyAll(Generators(leaves), c) == if IsMint(c) then Minted(leaves, c) else 0
  {
    hide Tally, TallyAll, Own, Minted, IsGate;
    TallyCons(Generators(leaves));
    MintedCons(leaves, c);
    if leaves == [] {
    } else {
      assert Generators(leaves)[1..] == Generators(leaves[1..]);
      LeafGates(leaves[0], c);
      GeneratorsTally(leaves[1..], c);
    }
  }

  lemma LeafGates(t: Term, c: Stat)
    requires IsGate(c)
    ensures Tally(Leaf(t), c) == if c.LeafNodes? || c == LeafOf(t) then 1 else 0
  {
  }

  lemma MintedCons(leaves: seq<Term>, c: Stat)
    ensures IsMint(c) && leaves == [] ==> Minted(leaves, c) == 0
    ensures IsMint(c) && leaves != [] ==>
      var first := if c.LeafNodes? || c == LeafOf(leaves[0]) then 1 else 0;
      Minted(leaves, c) == Minted(leaves[1..], c) + first
  {
    assert leaves != [] ==> leaves == [leaves[0]] + leaves[1..];
  }

  // Closed leaves are fixed by every instantiation of the inputs.
  lemma ClosedLeaves(leaves: seq<Term>, inputs: seq<Term>, env: map<Term, Term>)
    requires env.Keys == Elements(inputs)
    requires forall x :: x in leaves ==> !x.Op? && x !in inputs
    ensures SubstAll(leaves, env) == leaves
  {
    forall i | 0 <= i < |leaves|
      ensures Subst(leaves[i], env) == leaves[i]
    {
      assert leaves[i] in leaves;
      SubstFixed(leaves[i], env);
    }
  }

  lemma GeneratorsRewire(leaves: seq<Term>, inputs: seq<Term>)
    requires forall x :: x in leaves ==> !x.Op? && x !in inputs
    ensures Rewires(ParOf(Generators(leaves)), inputs, inputs, leaves + inputs)
    ensures In(ParOf(Generators(leaves))) == 0 && Out(ParOf(Generators(leaves))) == |leaves|
  {
    var m := ParOf(Generators(leaves));
    GeneratorsApply(leaves, []);
    ParOfLaw(Generators(leaves));
    forall env: map<Term, Term>, tail: seq<Term> | env.Keys == Elements(inputs)
      ensures Apply(m, SubstAll(inputs, env) + tail) == SubstAll(leaves + inputs, env) + tail
    {
      var w := SubstAll(inputs, env) + tail;
      GeneratorsApply(leaves, w);
      ParOfApply(Generators(leaves), w);
      ClosedLeaves(leaves, inputs, env);
      SubstAllConcat(leaves, inputs, env);
      ConcatAssoc(leaves, SubstAll(inputs, env), tail);
    }
  }

  // ---------------------------------------------------------------------------
  //  One op
  // ---------------------------------------------------------------------------

  function ArrowOf(node: Term): Morph
    requires node.Op?
  {
    Arr(node.op, |node.args|, node.attrs)
  }

  function NodeBody(node: Term, live: nat): Morph
    requires node.Op?
  {
    Beside(ArrowOf(node), live)
  }

  function NodeSegment(feed: Morph, node: Term, live: nat): Morph
    requires node.Op?
  {
    SeqOf((if feed.Id? then [] else [feed]) + [NodeBody(node, live)])
  }

  lemma NodeBodyArity(node: Term, live: nat)
    requires node.Op?
    ensures WF(NodeBody(node, live))
    ensures In(NodeBody(node, live)) == |node.args| + live && Out(NodeBody(node, live)) == 1 + live
  {
    BesideArity(ArrowOf(node), live);
  }

  lemma NodeBodyApply(node: Term, live: nat, a: seq<Term>, b: seq<Term>)
    requires node.Op? && |a| == |node.args| && live <= |b|
    requires WF(NodeBody(node, live)) && In(NodeBody(node, live)) <= |a + b|
    ensures Apply(NodeBody(node, live), a + b) == [Op(node.op, a, node.attrs)] + b
  {
    BesideApply(ArrowOf(node), live, a, b);
    assert a[..|a|] == a && a[|a|..] == [];
  }

  lemma NodeBodyRewires(node: Term, live: seq<Term>, inputs: seq<Term>)
    requires node.Op? && node !in inputs
    ensures Rewires(NodeBody(node, |live|), inputs, node.args + live, [node] + live)
    ensures In(NodeBody(node, |live|)) == |node.args| + |live|
  {
    NodeBodyArity(node, |live|);
    forall env: map<Term, Term>, tail: seq<Term> | env.Keys == Elements(inputs)
      ensures Apply(NodeBody(node, |live|), SubstAll(node.args + live, env) + tail) == SubstAll([node] + live, env) + tail
    {
      var a, b := SubstAll(node.args, env), SubstAll(live, env);
      SubstAllConcat(node.args, live, env);
      SubstAllConcat([node], live, env);
      ConcatAssoc(a, b, tail);
      ConcatAssoc([Subst(node, env)], b, tail);
      NodeBodyApply(node, |live|, a, b + tail);
    }
  }

  lemma FeedRewires(ctx: seq<Term>, wanted: seq<Term>, keep: set<Term>, order: seq<int>, inputs: seq<Term>)
    requires Arranges(Slots(ctx, multiset(wanted), keep), wanted, order)
    ensures var feed := Mux(FanMaps(Copies(ctx, multiset(wanted), keep)), order);
      Rewires(feed, inputs, ctx, wanted + Kept(ctx, keep)) && In(feed) == |ctx|
  {
    var feed := Mux(FanMaps(Copies(ctx, multiset(wanted), keep)), order);
    RewireApply(ctx, multiset(wanted), keep, wanted, order, map[], []);
    forall env: map<Term, Term>, tail: seq<Term> | env.Keys == Elements(inputs)
      ensures Apply(feed, SubstAll(ctx, env) + tail) == SubstAll(wanted + Kept(ctx, keep), env) + tail
    {
      RewireApply(ctx, multiset(wanted), keep, wanted, order, env, tail);
    }
  }

  // An identity feed can be left out of the segment.
  lemma SkipIdentity(feed: Morph, body: Morph, inputs: seq<Term>, before: seq<Term>, mid: seq<Term>, after: seq<Term>)
    requires Rewires(feed, inputs, before, mid) && feed.Id? && Rewires(body, inputs, mid, after)
    ensures Rewires(body, inputs, before, after)
  {
    forall env: map<Term, Term>, tail: seq<Term> | env.Keys == Elements(inputs)
      ensures Apply(body, SubstAll(before, env) + tail) == SubstAll(after, env) + tail
    {
      assert Apply(feed, SubstAll(before, env) + tail) == SubstAll(mid, env) + tail;
    }
  }

  lemma SegmentRewires(feed: Morph, node: Term, inputs: seq<Term>, ctx: seq<Term>, live: seq<Term>)
    requires node.Op? && node !in inputs
    requires Rewires(feed, inputs, ctx, node.args + live) && In(feed) == |ctx|
    ensures Rewires(NodeSegment(feed, node, |live|), inputs, ctx, [node] + live)
    ensures In(NodeSegment(feed, node, |live|)) == |ctx|
  {
    var body := NodeBody(node, |live|);
    NodeBodyRewires(node, live, inputs);
    CarriesNone(inputs, ctx);
    if feed.Id? {
      SkipIdentity(feed, body, inputs, ctx, node.args + live, [node] + live);
      CarriesSnoc([], body, inputs, ctx, ctx, [node] + live);
      assert [] + [body] == [body];
      CarriesSeqOf([body], inputs, ctx, [node] + live);
    } else {
      CarriesSnoc([], feed, inputs, ctx, ctx, node.args + live);
      assert [] + [feed] == [feed];
      CarriesSnoc([feed], body, inputs, ctx, node.args + live, [node] + live);
      CarriesSeqOf([feed] + [body], inputs, ctx, [node] + live);
    }
  }

  lemma {:induction false} NothingKept(ctx: seq<Term>)
    ensures Kept(ctx, {}) == []
  {
    if ctx == [] {
    } else {
      NothingKept(ctx[1..]);
    }
  }
}
