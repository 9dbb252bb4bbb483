// The compilers: closed (`dag_to_comb`) and open over input wires, which the
// loop proposers use to turn a step template into a scan step.

module Compiler {
  import opened Terms
  import opened Morphisms
  import opened Constructors
  import opened Census
  import opened Gather
  import opened Segments
  import opened Liveness

  // ---------------------------------------------------------------------------
  //  Fan-out plans
  // ---------------------------------------------------------------------------

  // Per wire: how often the op takes it, and whether it is wanted again.
  method PlanNode(ctx: seq<Term>, args: seq<Term>, remaining: multiset<Term>)
    returns (maps: seq<Morph>, slots: seq<Slot>)
    requires multiset(args) <= remaining
    ensures var keep := StillLive(ctx, multiset(args), remaining);
      maps == FanMaps(Copies(ctx, multiset(args), keep)) && slots == Slots(ctx, multiset(args), keep)
  {
    hide FanMaps, Copies, Slots;
    var use := multiset(args);
    ghost var keep := StillLive(ctx, use, remaining);
    maps, slots := [], [];
    NothingPlanned(use, keep);
    for i := 0 to |ctx|
      invariant maps == FanMaps(Copies(ctx[..i], use, keep))
      invariant slots == Slots(ctx[..i], use, keep)
    {
      var w := ctx[i];
      var u, after := use[w], remaining[w] - use[w];
      PlanOne(ctx, i, use, keep);
      if u > 0 && after > 0 {
        maps := maps + [Dup(u + 1)];
      } else if u > 1 {
        maps := maps + [Dup(u)];
      } else {
        maps := maps + [Id(1)];
      }
      slots := slots + Rep((w, true), u);
      if after > 0 || u == 0 {
        slots := slots + [(w, false)];
      }
    }
    assert ctx[..|ctx|] == ctx;
  }

  lemma NothingPlanned(use: multiset<Term>, keep: set<Term>)
    ensures FanMaps(Copies([], use, keep)) == [] && Slots([], use, keep) == []
  {
  }

  lemma PlanOne(ctx: seq<Term>, i: nat, use: multiset<Term>, keep: set<Term>)
    requires i < |ctx|
    ensures FanMaps(Copies(ctx[..i + 1], use, keep))
         == FanMaps(Copies(ctx[..i], use, keep)) + [FanMap(CopiesOf(ctx[i], use, keep))]
    ensures Slots(ctx[..i + 1], use, keep)
         == Slots(ctx[..i], use, keep) + Piece(ctx[i], use, keep)
  {
    hide Slots;
    assert ctx[..i + 1] == ctx[..i] + [ctx[i]];
    SlotsSnoc(ctx[..i], ctx[i], use, keep);
  }

  // Per wire: a copy for each output it feeds, or a drop.
  method PlanClose(ctx: seq<Term>, outputs: seq<Term>) returns (maps: seq<Morph>, slots: seq<Slot>)
    ensures maps == FanMaps(Copies(ctx, multiset(outputs), {})) && slots == Slots(ctx, multiset(outputs), {})
  {
    hide FanMaps, Copies, Slots;
    var use := multiset(outputs);
    maps, slots := [], [];
    NothingPlanned(use, {});
    for i := 0 to |ctx|
      invariant maps == FanMaps(Copies(ctx[..i], use, {}))
      invariant slots == Slots(ctx[..i], use, {})
    {
      var w := ctx[i];
      var u := use[w];
      PlanOne(ctx, i, use, {});
      if u == 0 {
        maps := maps + [Drop];
      } else {
        maps := maps + [if u > 1 then Dup(u) else Id(1)];
        slots := slots + Rep((w, true), u);
      }
    }
    assert ctx[..|ctx|] == ctx;
  }

  // ---------------------------------------------------------------------------
  //  The sharing account
  // ---------------------------------------------------------------------------

  // After i ops: every duplicated copy is accounted for by the context it
  // widened or the argument it fed.
  ghost predicate Accounted(ps: seq<Morph>, job: Job, i: nat, width: nat)
    requires i <= |job.nodes|
  {
    && TallyAll(ps, DupCopies) - TallyAll(ps, Dups)
         == width - |job.leaves| - |job.inputs| - i + Occurrences(job.nodes[..i])
    && TallyAll(ps, DupCopies) >= 2 * TallyAll(ps, Dups)
    && TallyAll(ps, Drops) == TallyAll(ps, Loops) == 0
    && TallyAll(ps, Arrs) == i
    && forall c :: IsMint(c) ==> TallyAll(ps, c) == Minted(job.leaves, c)
  }

  lemma SegmentTally(maps: seq<Morph>, order: seq<int>, node: Term, live: nat, c: Stat)
    requires node.Op? && IsGate(c)
    ensures Tally(NodeSegment(Mux(maps, order), node, live), c) == TallyAll(maps, c) + if c == Arrs then 1 else 0
  {
    hide Mux, SeqOf, NodeBody, Tally, TallyAll, IsGate;
    var feed, body := Mux(maps, order), NodeBody(node, live);
    var front := if feed.Id? then [] else [feed];
    MuxGates(maps, order, c);
    BodyTally(node, live, c);
    NodeGates([], c);
    TallyOne(front, c);
    SeqOfGates(front + [body], c);
    TallySnoc(front, body, c);
  }

  lemma BodyTally(node: Term, live: nat, c: Stat)
    requires node.Op? && IsGate(c)
    ensures Tally(NodeBody(node, live), c) == if c == Arrs then 1 else 0
  {
    hide ParOf;
    var arrow, rest := ArrowOf(node), Id(live);
    ParOfGates([arrow, rest], c);
    assert [arrow, rest][1..] == [rest] && [rest][1..] == [];
    assert TallyAll([rest], c) == 0;
  }

  lemma {:induction false} NoZeros(copies: seq<nat>)
    requires forall i :: 0 <= i < |copies| ==> copies[i] > 0
    ensures Zeros(copies) == 0
  {
    if copies == [] {
    } else {
      NoZeros(copies[1..]);
    }
  }

  lemma AccountStep(ps: seq<Morph>, job: Job, i: nat, ctx: seq<Term>, remaining: multiset<Term>, order: seq<int>)
    requires job.Wired() && job.Live(i, ctx, remaining) && i < |job.nodes|
    requires Accounted(ps, job, i, |ctx|)
    ensures var node, use := job.nodes[i], multiset(job.nodes[i].args);
      var keep := StillLive(ctx, use, remaining);
      var feed, live := Mux(FanMaps(Copies(ctx, use, keep)), order), Kept(ctx, keep);
      Accounted(ps + [NodeSegment(feed, node, |live|)], job, i + 1, 1 + |live|)
  {
    hide Tally, TallyAll, NodeSegment, Mux, FanMaps, FanOut, Copies, Zeros, Kept, StillLive, Occurrences, Job.Live,
      IsMint, Minted;
    var node, use := job.nodes[i], multiset(job.nodes[i].args);
    var keep := StillLive(ctx, use, remaining);
    var copies, live := Copies(ctx, use, keep), Kept(ctx, keep);
    LiveCopies(job, i, ctx, remaining);
    PrefixStep(job.nodes, i);
    SegmentAdds(ps, FanMaps(copies), order, node, |live|);
    FanTally(ctx, copies);
  }

  // What one segment adds to the tally, counter by counter.
  lemma SegmentAdds(ps: seq<Morph>, maps: seq<Morph>, order: seq<int>, node: Term, live: nat)
    requires node.Op?
    ensures var all := ps + [NodeSegment(Mux(maps, order), node, live)];
      && TallyAll(all, Arrs) == TallyAll(ps, Arrs) + TallyAll(maps, Arrs) + 1
      && (forall c :: IsMint(c) ==> TallyAll(all, c) == TallyAll(ps, c) + TallyAll(maps, c))
      && TallyAll(all, Dups) == TallyAll(ps, Dups) + TallyAll(maps, Dups)
      && TallyAll(all, DupCopies) == TallyAll(ps, DupCopies) + TallyAll(maps, DupCopies)
      && TallyAll(all, Drops) == TallyAll(ps, Drops) + TallyAll(maps, Drops)
      && TallyAll(all, Loops) == TallyAll(ps, Loops) + TallyAll(maps, Loops)
  {
    hide Tally, TallyAll, NodeSegment, Mux;
    var segment := NodeSegment(Mux(maps, order), node, live);
    forall c | IsGate(c)
      ensures TallyAll(ps + [segment], c) == TallyAll(ps, c) + TallyAll(maps, c) + if c == Arrs then 1 else 0
    {
      TallySnoc(ps, segment, c);
      SegmentTally(maps, order, node, live, c);
    }
  }

  // Every live wire is wanted or kept, so none is dropped.
  lemma LiveCopies(job: Job, i: nat, ctx: seq<Term>, remaining: multiset<Term>)
    requires job.Wired() && job.Live(i, ctx, remaining) && i < |job.nodes|
    ensures var use := multiset(job.nodes[i].args);
      var keep := StillLive(ctx, use, remaining);
      var copies := Copies(ctx, use, keep);
      && |copies| == |ctx| && Zeros(copies) == 0 && |FanOut(ctx, copies)| == |job.nodes[i].args| + |Kept(ctx, keep)|
  {
    var node, use := job.nodes[i], multiset(job.nodes[i].args);
    var keep := StillLive(ctx, use, remaining);
    job.ArgsAreLive(i, ctx, remaining);
    FannedWidth(ctx, node.args, keep);
    NoZeros(Copies(ctx, use, keep));
  }

  // Fan-out makes one wire for each request and one for each kept wire.
  lemma FannedWidth(ctx: seq<Term>, wanted: seq<Term>, keep: set<Term>)
    requires Distinct(ctx) && forall a :: a in wanted ==> a in ctx
    ensures |FanOut(ctx, Copies(ctx, multiset(wanted), keep))| == |wanted| + |Kept(ctx, keep)|
  {
    var slots := Slots(ctx, multiset(wanted), keep);
    RequestsMatch(ctx, wanted, keep);
    SlotsNames(ctx, multiset(wanted), keep);
    SlotsLive(ctx, multiset(wanted), keep);
    MarkedCount(slots);
    assert |Marked(slots, true)| == |multiset(Marked(slots, true))| == |multiset(wanted)| == |wanted|;
  }

  // ---------------------------------------------------------------------------
  //  Closing the context into the output bundle
  // ---------------------------------------------------------------------------

  function Ones(n: nat): seq<nat> {
    seq(n, _ => 1)
  }

  lemma {:induction false} FanOnes<T>(ws: seq<T>)
    ensures FanOut(ws, Ones(|ws|)) == ws
  {
    if ws == [] {
    } else {
      FanOnes(ws[1..]);
      assert Ones(|ws|)[1..] == Ones(|ws[1..]|);
    }
  }

  lemma EachOnce(ctx: seq<Term>)
    requires Distinct(ctx)
    ensures Copies(ctx, multiset(ctx), {}) == Ones(|ctx|)
  {
    forall i | 0 <= i < |ctx|
      ensures multiset(ctx)[ctx[i]] == 1
    {
      OccursOnce(ctx, i);
    }
  }

  lemma OccursOnce(ctx: seq<Term>, i: nat)
    requires Distinct(ctx) && i < |ctx|
    ensures multiset(ctx)[ctx[i]] == 1
  {
    var a, b := ctx[..i], ctx[i + 1..];
    assert ctx == a + [ctx[i]] + b;
    assert ctx[i] !in a && ctx[i] !in b;
    assert multiset(ctx) == multiset(a) + multiset{ctx[i]} + multiset(b);
  }

  // A context that already is the output bundle closes with an identity.
  lemma BundleInPlace(ctx: seq<Term>, order: seq<int>)
    requires Distinct(ctx) && Arranges(Slots(ctx, multiset(ctx), {}), ctx, order)
    ensures Mux(FanMaps(Copies(ctx, multiset(ctx), {})), order).Id?
  {
    var slots := Slots(ctx, multiset(ctx), {});
    EachOnce(ctx);
    FanOnes(ctx);
    SlotsNames(ctx, multiset(ctx), {});
    SlotsLive(ctx, multiset(ctx), {});
    NothingKept(ctx);
    InPlaceOrder(slots, ctx, order);
    OnlyIds(FanMaps(Ones(|ctx|)));
  }

  lemma InPlaceOrder(slots: seq<Slot>, ctx: seq<Term>, order: seq<int>)
    requires Distinct(ctx) && Names(slots) == ctx && Arranges(slots, ctx, order)
    ensures InOrder(order)
  {
    forall j | 0 <= j < |order|
      ensures order[j] == j
    {
      assert Names(slots)[order[j]] == ctx[j] && Names(slots)[j] == ctx[j];
    }
  }

  lemma {:induction false} OnlyIds(maps: seq<Morph>)
    requires forall i :: 0 <= i < |maps| ==> maps[i] == Id(1)
    ensures FlatPar(maps) == maps && ParOf(maps).Id?
  {
    if maps == [] {
    } else {
      OnlyIds(maps[1..]);
    }
  }

  function Identity(inputs: seq<Term>): map<Term, Term> {
    map x | x in inputs :: x
  }

  // An identity can only close a context that is the output bundle.
  lemma IdentityClosesOnly(close: Morph, inputs: seq<Term>, ctx: seq<Term>, outputs: seq<Term>)
    requires close.Id? && Rewires(close, inputs, ctx, outputs)
    ensures ctx == outputs
  {
    var env := Identity(inputs);
    assert env.Keys == Elements(inputs);
    SubstAllFixed(ctx, env);
    SubstAllFixed(outputs, env);
    assert Apply(close, SubstAll(ctx, env) + []) == SubstAll(outputs, env) + [];
    assert ctx + [] == ctx && outputs + [] == outputs;
  }

  // ---------------------------------------------------------------------------
  //  Compiling a job
  // ---------------------------------------------------------------------------

  function DeadInputs(job: Job): set<Term> {
    set x | x in job.inputs && x !in job.Counts()
  }

  // No op, and the output bundle already is the initial context: the one case
  // in which nothing in the result mentions the input wires.
  predicate Bare(job: Job) {
    job.inputs != [] && job.nodes == [] && job.outputs == job.leaves + job.inputs
  }

  // What a compiled job promises about the morphism's shape.
  ghost predicate Account(m: Morph, job: Job) {
    && Tally(m, DupCopies) - Tally(m, Dups)
         == |job.outputs| + |DeadInputs(job)| + Occurrences(job.nodes) - |job.leaves| - |job.inputs| - |job.nodes|
    && Tally(m, DupCopies) >= 2 * Tally(m, Dups)
    && Tally(m, Drops) == |DeadInputs(job)|
    && Tally(m, Loops) == 0
    && Tally(m, Arrs) == |job.nodes|
    && forall c :: IsMint(c) ==> Tally(m, c) == Minted(job.leaves, c)
  }

  // The compiler's state after i ops: the live context, the parts that carry
  // the inputs to it, and the sharing account.
  ghost predicate State(job: Job, i: nat, ctx: seq<Term>, remaining: multiset<Term>, ps: seq<Morph>) {
    && job.Live(i, ctx, remaining)
    && ps != [] && Carries(ps, job.inputs, job.inputs, ctx)
    && SeqIn(ps) == (if i == 0 then 0 else |job.inputs|)
    && (i == 0 ==> ctx == job.leaves + job.inputs)
    && Accounted(ps, job, i, |ctx|)
  }

  lemma StartState(job: Job)
    requires job.Wired()
    ensures State(job, 0, job.leaves + job.inputs, job.Counts(), [ParOf(Generators(job.leaves))])
  {
    var generators := ParOf(Generators(job.leaves));
    job.LiveAtStart();
    GeneratorsRewire(job.leaves, job.inputs);
    CarriesNone(job.inputs, job.inputs);
    CarriesSnoc([], generators, job.inputs, job.inputs, job.inputs, job.leaves + job.inputs);
    assert [] + [generators] == [generators] && [generators][1..] == [];
    forall c | IsGate(c)
      ensures TallyAll([generators], c) == if IsMint(c) then Minted(job.leaves, c) else 0
    {
      ParOfGates(Generators(job.leaves), c);
      GeneratorsTally(job.leaves, c);
    }
  }

  lemma NodeIsOp(job: Job, i: nat)
    requires job.Wired() && i < |job.nodes|
    ensures job.nodes[i].Op? && job.nodes[i] !in job.inputs
  {
    assert job.nodes[i] in job.nodes;
  }

  lemma CarriesBounds(ps: seq<Morph>, inputs: seq<Term>, before: seq<Term>, after: seq<Term>)
    requires Carries(ps, inputs, before, after)
    ensures SeqIn(ps) <= |before| && |before| + SeqDelta(ps) == |after|
  {
    hide SeqIn, SeqDelta, Subst;
  }

  lemma NextState(job: Job, i: nat, ctx: seq<Term>, remaining: multiset<Term>, ps: seq<Morph>, order: seq<int>)
    requires job.Wired() && State(job, i, ctx, remaining, ps) && i < |job.nodes|
    requires var use := multiset(job.nodes[i].args);
      Arranges(Slots(ctx, use, StillLive(ctx, use, remaining)), job.nodes[i].args, order)
    ensures var node, use := job.nodes[i], multiset(job.nodes[i].args);
      var keep := StillLive(ctx, use, remaining);
      var segment := NodeSegment(Mux(FanMaps(Copies(ctx, use, keep)), order), node, |Kept(ctx, keep)|);
      State(job, i + 1, [node] + Kept(ctx, keep), remaining - use, ps + [segment])
  {
    hide Carries, Rewires, Accounted, Job.Live, Job.Wired, Slots, Copies, Mux, FanMaps, Kept, StillLive, Arranges,
         NodeSegment, SeqIn, SeqDelta, In;
    NodeIsOp(job, i);
    var node, use := job.nodes[i], multiset(job.nodes[i].args);
    var keep := StillLive(ctx, use, remaining);
    var live := Kept(ctx, keep);
    var feed := Mux(FanMaps(Copies(ctx, use, keep)), order);
    CarriesBounds(ps, job.inputs, job.inputs, ctx);
    FeedRewires(ctx, node.args, keep, order, job.inputs);
    SegmentRewires(feed, node, job.inputs, ctx, live);
    AccountStep(ps, job, i, ctx, remaining, order);
    job.LiveStep(i, ctx, remaining);
    CarriesSnoc(ps, NodeSegment(feed, node, |live|), job.inputs, job.inputs, ctx, [node] + live);
  }

  // Take one use of each argument off the counter.
  method Consume(counter: multiset<Term>, args: seq<Term>) returns (remaining: multiset<Term>)
    requires multiset(args) <= counter
    ensures remaining == counter - multiset(args)
  {
    remaining := counter;
    for j := 0 to |args|
      invariant remaining == counter - multiset(args[..j])
    {
      assert args[..j + 1] == args[..j] + [args[j]];
      assert args == args[..j + 1] + args[j + 1..];
      remaining := remaining[args[j] := remaining[args[j]] - 1];
    }
    assert args[..|args|] == args;
  }

  lemma StateIsLive(job: Job, i: nat, ctx: seq<Term>, remaining: multiset<Term>, ps: seq<Morph>)
    requires State(job, i, ctx, remaining, ps)
    ensures job.Live(i, ctx, remaining) && Distinct(ctx)
  {
  }

  // A feed is left out when it idles, and has no idle part otherwise.
  lemma FeedTidy(copies: seq<nat>, order: seq<int>)
    ensures var feed := Mux(FanMaps(copies), order); Normal(feed) && (feed.Id? || Lean(feed))
  {
    hide SeqOf, ParOf, Normal;
    var maps := FanMaps(copies);
    var par, prm := ParOf(maps), PermOf(order);
    AtomsProduct(maps);
    PermIsAtom(order);
    var parts := (if par.Id? then [] else [par]) + (if prm.Id? then [] else [prm]);
    assert parts == (if par.Id? then (if prm.Id? then [] else [prm]) else if prm.Id? then [par] else [par, prm]);
    TidyList(parts);
    if parts != [] {
      TidySeqOf(parts);
    } else {
      PermIsAtom([]);
      IdIsNormal(|maps|);
    }
  }

  lemma IdIsNormal(n: int)
    ensures Normal(Id(n))
  {
  }

  lemma {:induction false} TidyList(ps: seq<Morph>)
    requires forall p :: p in ps ==> Normal(p) && !p.Seq? && !p.Id?
    ensures Tidy(ps)
  {
    hide Normal;
    if ps == [] {
    } else {
      TidyList(ps[1..]);
      assert ps[0] in ps && forall p :: p in ps ==> p == ps[0] || p in ps[1..];
      assert Lean(ps[0]);
    }
  }

  lemma SegmentTidy(copies: seq<nat>, order: seq<int>, node: Term, live: nat)
    requires node.Op?
    ensures var segment := NodeSegment(Mux(FanMaps(copies), order), node, live); Normal(segment) && Lean(segment)
  {
    hide SeqOf, ParOf, Mux, FanMaps, Normal, Lean;
    var feed, body := Mux(FanMaps(copies), order), NodeBody(node, live);
    FeedTidy(copies, order);
    BodyTidy(node, live);
    NothingTidy();
    NilConcat([body]);
    NilConcat([feed]);
    if feed.Id? {
      TidySnoc([], body);
      TidySeqOf([body]);
    } else {
      TidySnoc([], feed);
      TidySnoc([feed], body);
      assert [feed] + [body] == [feed, body];
      TidySeqOf([feed, body]);
    }
  }

  lemma BodyTidy(node: Term, live: nat)
    requires node.Op?
    ensures Normal(NodeBody(node, live)) && Lean(NodeBody(node, live))
  {
    hide ParOf, Normal;
    var arrow, rest := ArrowOf(node), Id(live);
    AtomsProduct([arrow, rest]);
    ParOfNotWires([arrow, rest], arrow);
  }

  lemma StartTidy(leaves: seq<Term>)
    ensures Tidy([ParOf(Generators(leaves))])
  {
    hide Normal;
    AtomsProduct(Generators(leaves));
    LeavesNotWires(leaves);
    NothingTidy();
    NilConcat([ParOf(Generators(leaves))]);
    TidySnoc([], ParOf(Generators(leaves)));
  }

  lemma LeavesNotWires(leaves: seq<Term>)
    ensures ParOf(Generators(leaves)).Id? ==> ParOf(Generators(leaves)) == Id(0)
  {
    if leaves != [] {
      assert Generators(leaves)[0] == Leaf(leaves[0]);
      ParOfNotWires(Generators(leaves), Leaf(leaves[0]));
    }
  }

  // Emit the segment of one op and advance the context.
  method EmitNode(job: Job, i: nat, ctx: seq<Term>, before: multiset<Term>, ps: seq<Morph>)
    returns (next: seq<Term>, remaining: multiset<Term>, emitted: seq<Morph>)
    requires job.Wired() && State(job, i, ctx, before, ps) && i < |job.nodes| && Tidy(ps)
    ensures State(job, i + 1, next, remaining, emitted) && Tidy(emitted)
  {
    hide State, Tidy, Job.Wired, Job.Live, NodeSegment, Mux, FanMaps, Copies, Arranges, Slots, Marked, StillLive, Kept;
    StateIsLive(job, i, ctx, before, ps);
    NodeIsOp(job, i);
    var node := job.nodes[i];
    job.ArgsAreLive(i, ctx, before);
    ghost var keep := StillLive(ctx, multiset(node.args), before);
    var maps, slots := PlanNode(ctx, node.args, before);
    remaining := Consume(before, node.args);
    RequestsMatch(ctx, node.args, keep);
    var order := Arrange(slots, node.args);
    NextState(job, i, ctx, before, ps, order);
    SlotsLive(ctx, multiset(node.args), keep);
    var live := Marked(slots, false);
    SegmentTidy(Copies(ctx, multiset(node.args), keep), order, node, |live|);
    TidySnoc(ps, NodeSegment(Mux(maps, order), node, |live|));
    emitted := ps + [NodeSegment(Mux(maps, order), node, |live|)];
    next := [node] + live;
  }

  method CompileJob(job: Job) returns (m: Morph)
    requires job.Wired()
    ensures Rewires(m, job.inputs, job.inputs, job.outputs)
    ensures In(m) == |job.inputs| <==> !Bare(job)
    ensures Account(m, job) && Normal(m) && Lean(m)
  {
    hide State, Tidy, Normal, Lean, Account, Rewires;
    StartTidy(job.leaves);
    var ctx := job.leaves + job.inputs;
    var remaining := job.Counts();
    var morphs := [ParOf(Generators(job.leaves))];
    StartState(job);
    for i := 0 to |job.nodes|
      invariant State(job, i, ctx, remaining, morphs) && Tidy(morphs)
    {
      ctx, remaining, morphs := EmitNode(job, i, ctx, remaining, morphs);
    }
    m := CloseJob(job, ctx, remaining, morphs);
  }

  // Arrange the surviving context into the output bundle.
  method CloseJob(job: Job, ctx: seq<Term>, ghost remaining: multiset<Term>, morphs: seq<Morph>) returns (m: Morph)
    requires job.Wired() && State(job, |job.nodes|, ctx, remaining, morphs) && Tidy(morphs)
    ensures Rewires(m, job.inputs, job.inputs, job.outputs)
    ensures In(m) == |job.inputs| <==> !Bare(job)
    ensures Account(m, job) && Normal(m) && Lean(m)
  {
    hide State, Tidy, Normal, Lean, Account, Rewires, Job.Wired, Job.Live, Mux, FanMaps, Copies, Arranges, Slots, In, Bare;
    StateIsLive(job, |job.nodes|, ctx, remaining, morphs);
    job.LiveAtEnd(ctx, remaining);
    var maps, slots := PlanClose(ctx, job.outputs);
    RequestsMatch(ctx, job.outputs, {});
    var order := Arrange(slots, job.outputs);
    var close := Mux(maps, order);
    if close.Id? && close.width == |ctx| {
      m := SeqOf(morphs);
      TidySeqOf(morphs);
      ClosedInPlace(job, ctx, remaining, morphs, order);
    } else {
      m := SeqOf(morphs + [close]);
      CloseRewires(job, ctx, order);
      FeedTidy(Copies(ctx, multiset(job.outputs), {}), order);
      IdleWidth(close);
      TidySnoc(morphs, close);
      TidySeqOf(morphs + [close]);
      NotBare(job, ctx, remaining, morphs, order);
      ClosedByFeed(job, ctx, remaining, morphs, order);
    }
  }

  lemma IdleWidth(m: Morph)
    ensures m.Id? ==> m.width == In(m)
  {
  }

  ghost function Close(job: Job, ctx: seq<Term>, order: seq<int>): Morph {
    Mux(FanMaps(Copies(ctx, multiset(job.outputs), {})), order)
  }

  lemma CloseRewires(job: Job, ctx: seq<Term>, order: seq<int>)
    requires Arranges(Slots(ctx, multiset(job.outputs), {}), job.outputs, order)
    ensures Rewires(Close(job, ctx, order), job.inputs, ctx, job.outputs) && In(Close(job, ctx, order)) == |ctx|
  {
    hide Rewires, Mux, FanMaps, Copies, Arranges, Slots, In;
    NothingKept(ctx);
    NilConcat(job.outputs);
    FeedRewires(ctx, job.outputs, {}, order, job.inputs);
  }

  // The parts and the closing feed together settle the account.
  lemma SettleAccount(m: Morph, ps: seq<Morph>, job: Job, ctx: seq<Term>, remaining: multiset<Term>, order: seq<int>)
    requires job.Wired() && job.Live(|job.nodes|, ctx, remaining) && Accounted(ps, job, |job.nodes|, |ctx|)
    requires forall c :: IsGate(c) ==> Tally(m, c) == TallyAll(ps, c) + Tally(Close(job, ctx, order), c)
    ensures Account(m, job)
  {
    hide Tally, TallyAll, Close, Job.Live, Job.Wired, DeadInputs, Occurrences;
    var close := Close(job, ctx, order);
    CloseAccount(ps, job, ctx, remaining, order);
    assert job.nodes[..|job.nodes|] == job.nodes;
    assert Tally(m, Dups) == TallyAll(ps, Dups) + Tally(close, Dups);
    assert Tally(m, DupCopies) == TallyAll(ps, DupCopies) + Tally(close, DupCopies);
    assert Tally(m, Drops) == TallyAll(ps, Drops) + Tally(close, Drops);
    assert Tally(m, Loops) == TallyAll(ps, Loops) + Tally(close, Loops);
    assert Tally(m, Arrs) == TallyAll(ps, Arrs) + Tally(close, Arrs);
    assert forall c :: IsMint(c) ==> Tally(m, c) == TallyAll(ps, c) + Tally(close, c);
  }

  lemma IdleGates(close: Morph, c: Stat)
    requires close.Id? && IsGate(c)
    ensures Tally(close, c) == 0
  {
  }

  lemma InPlaceAccount(job: Job, ctx: seq<Term>, remaining: multiset<Term>, ps: seq<Morph>, order: seq<int>)
    requires job.Wired() && job.Live(|job.nodes|, ctx, remaining) && Accounted(ps, job, |job.nodes|, |ctx|)
    requires Close(job, ctx, order).Id?
    ensures Account(SeqOf(ps), job)
  {
    forall c | IsGate(c)
      ensures Tally(SeqOf(ps), c) == TallyAll(ps, c) + Tally(Close(job, ctx, order), c)
    {
      SeqOfGates(ps, c);
      IdleGates(Close(job, ctx, order), c);
    }
    SettleAccount(SeqOf(ps), ps, job, ctx, remaining, order);
  }

  lemma ClosedInPlace(job: Job, ctx: seq<Term>, remaining: multiset<Term>, ps: seq<Morph>, order: seq<int>)
    requires job.Wired() && State(job, |job.nodes|, ctx, remaining, ps)
    requires Arranges(Slots(ctx, multiset(job.outputs), {}), job.outputs, order) && Close(job, ctx, order).Id?
    ensures Rewires(SeqOf(ps), job.inputs, job.inputs, job.outputs)
    ensures In(SeqOf(ps)) == |job.inputs| <==> !Bare(job)
    ensures Account(SeqOf(ps), job)
  {
    CloseRewires(job, ctx, order);
    IdentityClosesOnly(Close(job, ctx, order), job.inputs, ctx, job.outputs);
    CarriesSeqOf(ps, job.inputs, job.inputs, ctx);
    InPlaceAccount(job, ctx, remaining, ps, order);
  }

  lemma NotBare(job: Job, ctx: seq<Term>, remaining: multiset<Term>, ps: seq<Morph>, order: seq<int>)
    requires job.Wired() && State(job, |job.nodes|, ctx, remaining, ps)
    requires Arranges(Slots(ctx, multiset(job.outputs), {}), job.outputs, order)
    requires var close := Close(job, ctx, order); !(close.Id? && close.width == |ctx|)
    ensures !Bare(job)
  {
    CloseRewires(job, ctx, order);
    if ctx == job.outputs {
      BundleInPlace(ctx, order);
    }
  }

  lemma ClosedByFeed(job: Job, ctx: seq<Term>, remaining: multiset<Term>, ps: seq<Morph>, order: seq<int>)
    requires job.Wired() && State(job, |job.nodes|, ctx, remaining, ps)
    requires Arranges(Slots(ctx, multiset(job.outputs), {}), job.outputs, order)
    ensures var m := SeqOf(ps + [Close(job, ctx, order)]);
      Rewires(m, job.inputs, job.inputs, job.outputs) && In(m) == |job.inputs| && Account(m, job)
  {
    hide Rewires, Carries, Close, Arranges, Slots, Accounted, Account, Job.Live, Job.Wired, Tally, TallyAll, SeqOf,
         In, SeqIn, SeqDelta, IsGate;
    var close := Close(job, ctx, order);
    CloseRewires(job, ctx, order);
    CarriesBounds(ps, job.inputs, job.inputs, ctx);
    CarriesSnoc(ps, close, job.inputs, job.inputs, ctx, job.outputs);
    CarriesSeqOf(ps + [close], job.inputs, job.inputs, job.outputs);
    forall c | IsGate(c)
      ensures Tally(SeqOf(ps + [close]), c) == TallyAll(ps, c) + Tally(close, c)
    {
      SeqOfGates(ps + [close], c);
      TallySnoc(ps, close, c);
    }
    SettleAccount(SeqOf(ps + [close]), ps, job, ctx, remaining, order);
  }

  lemma CloseAccount(ps: seq<Morph>, job: Job, ctx: seq<Term>, remaining: multiset<Term>, order: seq<int>)
    requires job.Wired() && job.Live(|job.nodes|, ctx, remaining)
    requires Accounted(ps, job, |job.nodes|, |ctx|)
    ensures var close := Close(job, ctx, order);
      && TallyAll(ps, DupCopies) + Tally(close, DupCopies) - TallyAll(ps, Dups) - Tally(close, Dups)
           == |job.outputs| + |DeadInputs(job)| + Occurrences(job.nodes) - |job.leaves| - |job.inputs| - |job.nodes|
      && Tally(close, DupCopies) >= 2 * Tally(close, Dups)
      && Tally(close, Drops) == |DeadInputs(job)|
      && Tally(close, Loops) == Tally(close, Arrs) == 0
      && forall c :: IsMint(c) ==> Tally(close, c) == 0
  {
    hide Tally, TallyAll, Mux, FanMaps, FanOut, Copies, Zeros, Kept, Occurrences, Job.Live, Job.Counts;
    var copies := Copies(ctx, multiset(job.outputs), {});
    forall c | IsGate(c)
      ensures Tally(Mux(FanMaps(copies), order), c) == TallyAll(FanMaps(copies), c)
    {
      MuxGates(FanMaps(copies), order, c);
    }
    FanTally(ctx, copies);
    job.LiveAtEnd(ctx, remaining);
    LiveIsDistinct(job, |job.nodes|, ctx, remaining);
    FannedWidth(ctx, job.outputs, {});
    NothingKept(ctx);
    assert job.nodes[..|job.nodes|] == job.nodes;
    ZerosAreUnwanted(ctx, job.outputs);
    DeadAreUnwanted(job, ctx, remaining);
  }

  lemma LiveIsDistinct(job: Job, i: nat, ctx: seq<Term>, remaining: multiset<Term>)
    requires job.Wired() && job.Live(i, ctx, remaining)
    ensures Distinct(ctx)
  {
  }

  lemma DeadAreUnwanted(job: Job, ctx: seq<Term>, remaining: multiset<Term>)
    requires job.Wired() && job.Live(|job.nodes|, ctx, remaining)
    ensures DeadInputs(job) == Unwanted(ctx, job.outputs)
  {
    hide Job.Live, Job.Counts;
    job.LiveAtEnd(ctx, remaining);
  }

  function Unwanted(ctx: seq<Term>, outputs: seq<Term>): set<Term> {
    set w | w in ctx && w !in outputs
  }

  lemma UnwantedCons(ctx: seq<Term>, outputs: seq<Term>)
    requires Distinct(ctx) && ctx != []
    ensures |Unwanted(ctx, outputs)| == |Unwanted(ctx[1..], outputs)| + if ctx[0] in outputs then 0 else 1
  {
    var rest := Unwanted(ctx[1..], outputs);
    assert ctx == [ctx[0]] + ctx[1..];
    if ctx[0] in outputs {
      assert Unwanted(ctx, outputs) == rest;
    } else {
      assert Unwanted(ctx, outputs) == {ctx[0]} + rest;
    }
  }

  // Closing drops exactly the wires no output asks for.
  lemma {:induction false} ZerosAreUnwanted(ctx: seq<Term>, outputs: seq<Term>)
    requires Distinct(ctx)
    ensures Zeros(Copies(ctx, multiset(outputs), {})) == |Unwanted(ctx, outputs)|
  {
    if ctx == [] {
    } else {
      ZerosAreUnwanted(ctx[1..], outputs);
      assert Copies(ctx, multiset(outputs), {})[1..] == Copies(ctx[1..], multiset(outputs), {});
      UnwantedCons(ctx, outputs);
    }
  }
}
