// Which wires the compiler holds live between two ops: exactly the produced
// terms with uses remaining, and the inputs nothing ever uses.

module Liveness {
  import opened Terms
  import opened Morphisms
  import opened Gather
  import opened Traversal

  function ArgsOf(t: Term): seq<Term> {
    if t.Op? then t.args else []
  }

  // Every argument occurrence in a list of ops.
  function Uses(nodes: seq<Term>): multiset<Term> {
    if nodes == [] then multiset{}
    else Uses(nodes[..|nodes| - 1]) + multiset(ArgsOf(nodes[|nodes| - 1]))
  }

  function Occurrences(nodes: seq<Term>): nat {
    if nodes == [] then 0
    else Occurrences(nodes[..|nodes| - 1]) + |ArgsOf(nodes[|nodes| - 1])|
  }

  function Total(nodes: seq<Term>, outputs: seq<Term>): multiset<Term> {
    Uses(nodes) + multiset(outputs)
  }

  lemma PrefixStep(nodes: seq<Term>, i: nat)
    requires i < |nodes|
    ensures Uses(nodes[..i + 1]) == Uses(nodes[..i]) + multiset(ArgsOf(nodes[i]))
    ensures Occurrences(nodes[..i + 1]) == Occurrences(nodes[..i]) + |ArgsOf(nodes[i])|
  {
    assert nodes[..i + 1][..i] == nodes[..i];
  }

  lemma {:induction false} UsesPrefix(nodes: seq<Term>, i: nat)
    requires i <= |nodes|
    ensures Uses(nodes[..i]) <= Uses(nodes)
    decreases |nodes| - i
  {
    if i < |nodes| {
      PrefixStep(nodes, i);
      UsesPrefix(nodes, i + 1);
    } else {
      assert nodes[..i] == nodes;
    }
  }

  lemma InUses(nodes: seq<Term>, i: nat, a: Term)
    requires i < |nodes| && a in ArgsOf(nodes[i])
    ensures a in Uses(nodes)
  {
    PrefixStep(nodes, i);
    UsesPrefix(nodes, i + 1);
  }

  lemma {:induction false} UsesInverse(nodes: seq<Term>, a: Term)
    requires a in Uses(nodes)
    ensures exists i :: 0 <= i < |nodes| && a in ArgsOf(nodes[i])
  {
    var n := |nodes| - 1;
    if a in ArgsOf(nodes[n]) {
    } else {
      UsesInverse(nodes[..n], a);
      var i :| 0 <= i < n && a in ArgsOf(nodes[..n][i]);
      assert a in ArgsOf(nodes[i]);
    }
  }

  // An op is not an argument of itself or of anything listed before it.
  lemma {:induction false} NotUsedEarly(nodes: seq<Term>, i: nat, j: nat)
    requires Distinct(nodes) && ChildrenFirst(nodes) && i < |nodes| && nodes[i].Op? && j <= i + 1
    ensures nodes[i] !in Uses(nodes[..j])
  {
    if j == 0 {
    } else {
      hide Uses, ChildrenFirst, Distinct;
      NotUsedEarly(nodes, i, j - 1);
      PrefixStep(nodes, j - 1);
      NotArgument(nodes, i, j - 1);
    }
  }

  lemma NotArgument(nodes: seq<Term>, i: nat, j: nat)
    requires Distinct(nodes) && ChildrenFirst(nodes) && j <= i < |nodes| && nodes[i].Op?
    ensures nodes[i] !in ArgsOf(nodes[j])
  {
    assert nodes[i] !in nodes[..j];
  }

  lemma SplitUses(before: multiset<Term>, now: multiset<Term>, all: multiset<Term>, out: multiset<Term>, rest: multiset<Term>)
    requires before + now <= all && before + rest == all + out
    ensures now <= rest && (before + now) + (rest - now) == all + out
  {
    forall x
      ensures now[x] <= rest[x]
    {
      assert (before + rest)[x] == (all + out)[x] && (before + now)[x] <= all[x];
    }
  }

  // A list of ops to compile, arguments first, over generators and inputs.
  datatype Job = Job(nodes: seq<Term>, leaves: seq<Term>, inputs: seq<Term>, outputs: seq<Term>) {

    function Counts(): multiset<Term> {
      Total(nodes, outputs)
    }

    ghost predicate Wired() {
      && Distinct(nodes) && (forall t :: t in nodes ==> t.Op?) && ChildrenFirst(nodes)
      && Distinct(leaves) && (forall x :: x in leaves ==> !x.Op? && x !in inputs)
      && Distinct(inputs) && (forall x :: x in inputs ==> !x.Op?)
      && (forall t :: t in Counts() && !t.Op? ==> t in leaves || t in inputs)
      && (forall t :: t in outputs && t.Op? ==> t in nodes)
      && (forall t :: t in leaves || t in nodes ==> t in Counts())
    }

    ghost predicate Produced(i: nat, w: Term)
      requires i <= |nodes|
    {
      w in leaves || w in inputs || w in nodes[..i]
    }

    // An input that no op reads and no output returns.
    ghost predicate Dead(w: Term) {
      w in inputs && w !in Counts()
    }

    // The context after i ops holds each produced term that is still wanted,
    // and the dead inputs, once each.
    ghost predicate Live(i: nat, ctx: seq<Term>, remaining: multiset<Term>) {
      && i <= |nodes|
      && Uses(nodes[..i]) + remaining == Counts()
      && Distinct(ctx) && Holds(i, ctx, remaining)
    }

    ghost predicate Holds(i: nat, ctx: seq<Term>, remaining: multiset<Term>)
      requires i <= |nodes|
    {
      forall w :: w in ctx <==> Produced(i, w) && (w in remaining || Dead(w))
    }

    lemma LiveAtStart()
      requires Wired()
      ensures Live(0, leaves + inputs, Counts())
    {
      var ctx := leaves + inputs;
      forall i, j | 0 <= i < j < |ctx|
        ensures ctx[i] != ctx[j]
      {
        assert i < |leaves| ==> ctx[i] in leaves;
        assert j >= |leaves| ==> ctx[j] in inputs;
      }
    }

    // Uses split between the ops so far, the next op, and what remains.
    lemma UsesRemain(i: nat, remaining: multiset<Term>)
      requires i < |nodes| && Uses(nodes[..i]) + remaining == Counts()
      ensures multiset(ArgsOf(nodes[i])) <= remaining
      ensures Uses(nodes[..i + 1]) + (remaining - multiset(ArgsOf(nodes[i]))) == Counts()
    {
      PrefixStep(nodes, i);
      UsesPrefix(nodes, i + 1);
      SplitUses(Uses(nodes[..i]), multiset(ArgsOf(nodes[i])), Uses(nodes), multiset(outputs), remaining);
    }

    // The next op finds all of its arguments in the context.
    lemma ArgsAreLive(i: nat, ctx: seq<Term>, remaining: multiset<Term>)
      requires Wired() && Live(i, ctx, remaining) && i < |nodes|
      ensures multiset(nodes[i].args) <= remaining
      ensures forall a :: a in nodes[i].args ==> a in ctx
    {
      UsesRemain(i, remaining);
      forall a | a in nodes[i].args
        ensures a in ctx
      {
        assert a in multiset(nodes[i].args);
        assert a.Op? ==> a in nodes[..i];
        assert a in Counts();
      }
    }

    // The next op is not in the context, and is wanted later.
    lemma NodeIsNew(i: nat, ctx: seq<Term>, remaining: multiset<Term>)
      requires Wired() && Live(i, ctx, remaining) && i < |nodes|
      ensures nodes[i] !in ctx && nodes[i] in remaining - multiset(nodes[i].args)
    {
      UsesRemain(i, remaining);
      NotUsedEarly(nodes, i, i + 1);
      assert nodes[i] in Counts();
      assert nodes[i] !in nodes[..i];
    }

    lemma KeepExactly(i: nat, ctx: seq<Term>, remaining: multiset<Term>, w: Term)
      requires Wired() && Live(i, ctx, remaining) && i < |nodes|
      ensures var use := multiset(nodes[i].args);
        w in ctx && w in StillLive(ctx, use, remaining) <==> Produced(i, w) && (w in remaining - use || Dead(w))
    {
      UsesRemain(i, remaining);
    }

    lemma NextMember(i: nat, ctx: seq<Term>, remaining: multiset<Term>, live: seq<Term>, w: Term)
      requires Wired() && Live(i, ctx, remaining) && i < |nodes|
      requires w in live <==> w in ctx && w in StillLive(ctx, multiset(nodes[i].args), remaining)
      ensures w in [nodes[i]] + live <==> Produced(i + 1, w) && (w in remaining - multiset(nodes[i].args) || Dead(w))
    {
      hide Wired, Live, Produced, Dead, StillLive;
      NodeIsNew(i, ctx, remaining);
      KeepExactly(i, ctx, remaining, w);
      ProducedNext(i, w);
    }

    lemma ProducedNext(i: nat, w: Term)
      requires i < |nodes|
      ensures Produced(i + 1, w) <==> Produced(i, w) || w == nodes[i]
    {
      assert nodes[..i + 1] == nodes[..i] + [nodes[i]];
    }

    lemma NextHolds(i: nat, ctx: seq<Term>, remaining: multiset<Term>, live: seq<Term>)
      requires Wired() && Live(i, ctx, remaining) && i < |nodes|
      requires live == Kept(ctx, StillLive(ctx, multiset(nodes[i].args), remaining))
      ensures Holds(i + 1, [nodes[i]] + live, remaining - multiset(nodes[i].args))
    {
      KeptMembers(ctx, StillLive(ctx, multiset(nodes[i].args), remaining));
      forall w
        ensures w in [nodes[i]] + live <==> Produced(i + 1, w) && (w in remaining - multiset(nodes[i].args) || Dead(w))
      {
        NextMember(i, ctx, remaining, live, w);
      }
    }

    lemma LiveStep(i: nat, ctx: seq<Term>, remaining: multiset<Term>)
      requires Wired() && Live(i, ctx, remaining) && i < |nodes|
      ensures var use := multiset(nodes[i].args);
        Live(i + 1, [nodes[i]] + Kept(ctx, StillLive(ctx, use, remaining)), remaining - use)
    {
      var use := multiset(nodes[i].args);
      var live := Kept(ctx, StillLive(ctx, use, remaining));
      UsesRemain(i, remaining);
      NodeIsNew(i, ctx, remaining);
      KeptMembers(ctx, StillLive(ctx, use, remaining));
      DistinctCons(nodes[i], live);
      NextHolds(i, ctx, remaining, live);
    }

    lemma LiveAtEnd(ctx: seq<Term>, remaining: multiset<Term>)
      requires Wired() && Live(|nodes|, ctx, remaining)
      ensures remaining == multiset(outputs)
      ensures forall w :: w in outputs ==> w in ctx
      ensures forall w :: w in ctx && w !in outputs <==> Dead(w)
    {
      assert nodes[..|nodes|] == nodes;
      forall w
        ensures w in outputs ==> w in ctx
        ensures w in ctx && w !in outputs <==> Dead(w)
      {
        EndMember(ctx, remaining, w);
      }
    }

    lemma EndMember(ctx: seq<Term>, remaining: multiset<Term>, w: Term)
      requires Wired() && Holds(|nodes|, ctx, remaining) && remaining == multiset(outputs)
      ensures w in outputs ==> w in ctx
      ensures w in ctx && w !in outputs <==> Dead(w)
    {
      hide Uses;
      assert nodes[..|nodes|] == nodes;
      assert w in multiset(outputs) <==> w in outputs;
      assert w in outputs ==> w in Counts();
    }
  }

  lemma DistinctCons(x: Term, s: seq<Term>)
    requires x !in s && Distinct(s)
    ensures Distinct([x] + s)
  {
  }

  // The wires an op leaves in the context: unused by it, or used again later.
  function StillLive(ctx: seq<Term>, use: multiset<Term>, remaining: multiset<Term>): set<Term> {
    set w | w in ctx && (remaining[w] != use[w] || use[w] == 0)
  }

  lemma RequestsMatch(ctx: seq<Term>, wanted: seq<Term>, keep: set<Term>)
    requires Distinct(ctx) && forall a :: a in wanted ==> a in ctx
    ensures multiset(Marked(Slots(ctx, multiset(wanted), keep), true)) == multiset(wanted)
  {
    SlotsRequested(ctx, multiset(wanted), keep);
    forall x
      ensures multiset(Marked(Slots(ctx, multiset(wanted), keep), true))[x] == multiset(wanted)[x]
    {
      assert x in multiset(wanted) <==> x in wanted;
    }
  }
}
