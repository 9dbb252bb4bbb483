// The bridge itself: a term DAG to a morphism, with or without input wires,
// and a closed morphism back to a term.

module Bridge {
  import opened Wrappers
  import opened Terms
  import opened Morphisms
  import opened Constructors
  import opened Census
  import opened Traversal
  import opened Segments
  import opened Liveness
  import opened Compiler

  // The outputs a root stands for: a pack root is the bundle of its arguments.
  function OutputsOf(root: Term): seq<Term> {
    if IsPack(root) then root.args else [root]
  }

  // The ops that become arrows: all of them, a pack root apart.
  function NodesOf(root: Term): set<Term> {
    OpSubterms(root) - if IsPack(root) then {root} else {}
  }

  // ---------------------------------------------------------------------------
  //  Argument occurrences over a set of ops
  // ---------------------------------------------------------------------------

  ghost function ArgBag(s: set<Term>): multiset<Term> {
    if s == {} then multiset{}
    else
      var t :| t in s;
      multiset(ArgsOf(t)) + ArgBag(s - {t})
  }

  lemma {:induction false} ArgBagRemove(s: set<Term>, t: Term)
    requires t in s
    ensures ArgBag(s) == multiset(ArgsOf(t)) + ArgBag(s - {t})
    decreases s
  {
    var u :| u in s && ArgBag(s) == multiset(ArgsOf(u)) + ArgBag(s - {u});
    if u == t {
    } else {
      ArgBagRemove(s - {u}, t);
      ArgBagRemove(s - {t}, u);
      assert s - {u} - {t} == s - {t} - {u};
    }
  }

  lemma {:induction false} ArgBagOfNodes(nodes: seq<Term>)
    requires Distinct(nodes)
    ensures ArgBag(Elements(nodes)) == Uses(nodes)
  {
    if nodes == [] {
    } else {
      var n := |nodes| - 1;
      ArgBagOfNodes(nodes[..n]);
      ElementsSnoc(nodes);
      ArgBagRemove(Elements(nodes), nodes[n]);
    }
  }

  lemma ElementsSnoc(s: seq<Term>)
    requires s != [] && Distinct(s)
    ensures s[|s| - 1] in Elements(s) && Elements(s) - {s[|s| - 1]} == Elements(s[..|s| - 1])
  {
    assert s == s[..|s| - 1] + [s[|s| - 1]];
  }

  lemma {:induction false} UsesSize(nodes: seq<Term>)
    ensures |Uses(nodes)| == Occurrences(nodes)
  {
    if nodes == [] {
    } else {
      UsesSize(nodes[..|nodes| - 1]);
    }
  }

  lemma {:induction false} ElementsSize(s: seq<Term>)
    requires Distinct(s)
    ensures |Elements(s)| == |s|
  {
    if s == [] {
    } else {
      var n := |s| - 1;
      ElementsSize(s[..n]);
      ElementsSnoc(s);
    }
  }

  // A bag is as large as its support exactly when nothing occurs twice.
  lemma {:induction false} BagSize(bag: multiset<Term>, support: set<Term>)
    requires forall t :: t in bag <==> t in support
    ensures |bag| >= |support|
    ensures |bag| == |support| <==> forall t :: bag[t] <= 1
    decreases support
  {
    if support == {} {
      assert bag == multiset{};
    } else {
      var t :| t in support;
      var rest := bag[t := 0];
      BagSize(rest, support - {t});
      assert |bag| == |rest| + bag[t] by {
        assert bag == rest[t := bag[t]];
      }
      assert forall u :: u != t ==> rest[u] == bag[u];
    }
  }

  // ---------------------------------------------------------------------------
  //  Wiring a root
  // ---------------------------------------------------------------------------

  // The argument occurrences of a list of ops, in order.
  function Flat(nodes: seq<Term>): seq<Term> {
    if nodes == [] then [] else Flat(nodes[..|nodes| - 1]) + ArgsOf(nodes[|nodes| - 1])
  }

  lemma {:induction false} FlatUses(nodes: seq<Term>)
    ensures multiset(Flat(nodes)) == Uses(nodes)
  {
    if nodes == [] {
    } else {
      FlatUses(nodes[..|nodes| - 1]);
    }
  }

  // The leaves that are not inputs, in order of first occurrence.
  function FirstUses(xs: seq<Term>, inputs: seq<Term>): seq<Term> {
    if xs == [] then []
    else
      var n := |xs| - 1;
      var before := FirstUses(xs[..n], inputs);
      if !xs[n].Op? && xs[n] !in inputs && xs[n] !in before then before + [xs[n]] else before
  }

  lemma {:induction false} FirstUsesLaw(xs: seq<Term>, inputs: seq<Term>)
    ensures Distinct(FirstUses(xs, inputs))
    ensures forall x :: x in FirstUses(xs, inputs) <==> !x.Op? && x !in inputs && x in xs
  {
    if xs == [] {
    } else {
      FirstUsesLaw(xs[..|xs| - 1], inputs);
      assert xs == xs[..|xs| - 1] + [xs[|xs| - 1]];
    }
  }

  // Collect the closed generators in order of first use.
  method CollectLeaves(nodes: seq<Term>, outputs: seq<Term>, inputs: seq<Term>) returns (leaves: seq<Term>)
    ensures leaves == FirstUses(Flat(nodes) + outputs, inputs)
  {
    leaves := [];
    for i := 0 to |nodes|
      invariant leaves == FirstUses(Flat(nodes[..i]), inputs)
    {
      leaves := ScanLeaves(ArgsOf(nodes[i]), inputs, Flat(nodes[..i]), leaves);
      assert nodes[..i + 1][..i] == nodes[..i];
    }
    assert nodes[..|nodes|] == nodes;
    leaves := ScanLeaves(outputs, inputs, Flat(nodes), leaves);
  }

  lemma FirstUsesSnoc(xs: seq<Term>, x: Term, inputs: seq<Term>)
    ensures var before := FirstUses(xs, inputs);
      FirstUses(xs + [x], inputs) == if !x.Op? && x !in inputs && x !in before then before + [x] else before
  {
    assert (xs + [x])[..|xs|] == xs;
  }

  method ScanLeaves(args: seq<Term>, inputs: seq<Term>, ghost seen: seq<Term>, found: seq<Term>)
    returns (leaves: seq<Term>)
    requires found == FirstUses(seen, inputs)
    ensures leaves == FirstUses(seen + args, inputs)
  {
    hide FirstUses;
    leaves := found;
    assert seen + args[..0] == seen;
    for j := 0 to |args|
      invariant leaves == FirstUses(seen + args[..j], inputs)
    {
      FirstUsesSnoc(seen + args[..j], args[j], inputs);
      assert seen + args[..j + 1] == seen + args[..j] + [args[j]];
      if !args[j].Op? && args[j] !in inputs && args[j] !in leaves {
        leaves := leaves + [args[j]];
      }
    }
    assert args[..|args|] == args;
  }

  // Every proper subterm is an argument of some op of the DAG.
  lemma {:induction false} HasParent(root: Term, t: Term)
    requires t in Subterms(root) && t != root
    ensures exists s :: s in OpSubterms(root) && t in s.args
    decreases root
  {
    SubtermsAllInverse(root.args, t);
    var a :| a in root.args && t in Subterms(a);
    if a == t {
      assert root in OpSubterms(root);
    } else {
      HasParent(a, t);
      var s :| s in OpSubterms(a) && t in s.args;
      SubtermsAllMember(root.args, a);
      assert s in OpSubterms(root);
    }
  }

  // What the compilers read off a root, over the given input wires.
  ghost predicate Reads(job: Job, root: Term, inputs: seq<Term>) {
    && job.inputs == inputs && job.outputs == OutputsOf(root)
    && Elements(job.nodes) == NodesOf(root)
    && Distinct(job.nodes) && ChildrenFirst(job.nodes)
    && job.leaves == FirstUses(Flat(job.nodes) + job.outputs, inputs)
  }

  lemma LeavesRead(job: Job, root: Term, inputs: seq<Term>)
    requires Reads(job, root, inputs)
    ensures Distinct(job.leaves)
    ensures forall x :: x in job.leaves <==> !x.Op? && x !in inputs && x in job.Counts()
  {
    FirstUsesLaw(Flat(job.nodes) + job.outputs, inputs);
    FlatUses(job.nodes);
    assert multiset(Flat(job.nodes) + job.outputs) == job.Counts();
  }

  // The bundle mentions exactly the subterms of the root, itself apart from a
  // pack root.
  lemma CountsAreSubterms(job: Job, root: Term, inputs: seq<Term>, t: Term)
    requires Reads(job, root, inputs)
    ensures t in job.Counts() <==> t in Subterms(root) && (t != root || !IsPack(root))
  {
    hide Uses, Subterms, OpSubterms, ChildrenFirst, FirstUses, Flat, Distinct, Reads;
    ReadsOutputs(job, root, inputs);
    assert t in multiset(job.outputs) <==> t in job.outputs;
    if t in Uses(job.nodes) {
      UsedIsProper(job, root, inputs, t);
    }
    if IsPack(root) && t in root.args {
      RootIsSubterm(root);
      ArgSmaller(root, root, t);
    }
    if t in Subterms(root) && t != root {
      ProperIsUsed(job, root, inputs, t);
    }
    RootIsSubterm(root);
  }

  lemma ReadsOutputs(job: Job, root: Term, inputs: seq<Term>)
    requires Reads(job, root, inputs)
    ensures job.outputs == OutputsOf(root)
  {
    hide OpSubterms, ChildrenFirst, FirstUses, Flat, Distinct;
  }

  lemma RootIsSubterm(root: Term)
    ensures root in Subterms(root)
  {
  }

  // What an op of the job takes is a proper subterm, and the other way round
  // unless only a pack root takes it.
  lemma UsedIsProper(job: Job, root: Term, inputs: seq<Term>, t: Term)
    requires Reads(job, root, inputs) && t in Uses(job.nodes)
    ensures t in Subterms(root) && t != root
  {
    hide Uses, Subterms, ChildrenFirst, FirstUses, Flat, Distinct;
    UsesInverse(job.nodes, t);
    var i :| 0 <= i < |job.nodes| && t in ArgsOf(job.nodes[i]);
    assert job.nodes[i] in Elements(job.nodes);
    ArgSmaller(root, job.nodes[i], t);
  }

  lemma ProperIsUsed(job: Job, root: Term, inputs: seq<Term>, t: Term)
    requires Reads(job, root, inputs) && t in Subterms(root) && t != root
    ensures t in Uses(job.nodes) || (IsPack(root) && t in root.args)
  {
    hide Uses, Subterms, ChildrenFirst, FirstUses, Flat, Distinct;
    HasParent(root, t);
    var s :| s in OpSubterms(root) && t in s.args;
    if s != root || !IsPack(root) {
      assert s in Elements(job.nodes);
      var i :| 0 <= i < |job.nodes| && job.nodes[i] == s;
      InUses(job.nodes, i, t);
    }
  }

  lemma ArgSmaller(root: Term, s: Term, a: Term)
    requires s in Subterms(root) && s.Op? && a in s.args
    ensures a in Subterms(root) && a != root
  {
    SubtermsClosed(root);
    SubtermSize(root, s);
    SizeOfMember(s.args, a);
  }

  lemma ReadsIsWired(job: Job, root: Term, inputs: seq<Term>)
    requires Reads(job, root, inputs)
    requires Distinct(inputs) && forall x :: x in inputs ==> !x.Op?
    ensures job.Wired()
  {
    hide Uses, Subterms, ChildrenFirst, FirstUses, Flat;
    LeavesRead(job, root, inputs);
    forall t | t in job.nodes
      ensures t.Op? && t in job.Counts()
    {
      assert t in Elements(job.nodes);
      CountsAreSubterms(job, root, inputs, t);
    }
    forall t | t in job.outputs && t.Op?
      ensures t in job.nodes
    {
      assert t in multiset(job.outputs);
      CountsAreSubterms(job, root, inputs, t);
      assert t in Elements(job.nodes);
    }
  }

  method ReadRoot(root: Term, inputs: seq<Term>) returns (job: Job)
    ensures Reads(job, root, inputs)
  {
    var order := Postorder(root);
    var nodes := if IsPack(root) then order[..|order| - 1] else order;
    if IsPack(root) {
      assert order == nodes + [root];
    }
    assert Elements(nodes) == NodesOf(root) by {
      assert forall t :: t in order <==> t in OpSubterms(root);
    }
    PrefixChildrenFirst(order, |nodes|);
    var leaves := CollectLeaves(nodes, OutputsOf(root), inputs);
    job := Job(nodes, leaves, inputs, OutputsOf(root));
  }

  lemma PrefixChildrenFirst(order: seq<Term>, n: nat)
    requires ChildrenFirst(order) && n <= |order|
    ensures ChildrenFirst(order[..n])
  {
    forall i, a | 0 <= i < n && order[i].Op? && a in order[i].args && a.Op?
      ensures a in order[..n][..i]
    {
      assert order[..n][..i] == order[..i];
    }
  }

  // ---------------------------------------------------------------------------
  //  Open compilation
  // ---------------------------------------------------------------------------

  // No op becomes an arrow, the outputs are distinct, and they end with the
  // inputs: the result is a bundle of generators that never names its inputs.
  predicate BareRoot(root: Term, inputs: seq<Term>) {
    var outs := OutputsOf(root);
    && inputs != []
    && (forall t :: t in outs ==> !t.Op?)
    && Distinct(outs) && |outs| >= |inputs| && outs[|outs| - |inputs|..] == inputs
  }

  function UnusedInputs(root: Term, inputs: seq<Term>): set<Term> {
    set x | x in inputs && x !in Subterms(root)
  }

  // One generator for each leaf of the DAG that is no input, and no other: in
  // particular no op is a generator.
  ghost predicate Mints(m: Morph, root: Term, inputs: seq<Term>) {
    && (forall t :: Tally(m, LeafOf(t)) == if t in Subterms(root) && !t.Op? && t !in inputs then 1 else 0)
    && Tally(m, LeafNodes) == |set t | t in Subterms(root) && !t.Op? && t !in inputs|
  }

  lemma MintsExactly(m: Morph, job: Job, root: Term, inputs: seq<Term>)
    requires Reads(job, root, inputs) && Account(m, job)
    ensures Mints(m, root, inputs)
  {
    hide Tally, Reads, Subterms, Job.Counts;
    LeavesRead(job, root, inputs);
    forall t
      ensures t in job.leaves <==> t in Subterms(root) && !t.Op? && t !in inputs
      ensures Tally(m, LeafOf(t)) == if t in job.leaves then 1 else 0
    {
      CountsAreSubterms(job, root, inputs, t);
      assert IsMint(LeafOf(t));
      OnceEach(job.leaves, t);
    }
    assert IsMint(LeafNodes);
    ElementsSize(job.leaves);
    assert Elements(job.leaves) == set t | t in Subterms(root) && !t.Op? && t !in inputs;
  }

  lemma OnceEach(s: seq<Term>, t: Term)
    requires Distinct(s)
    ensures multiset(s)[t] == if t in s then 1 else 0
  {
    if t in s {
      var i :| 0 <= i < |s| && s[i] == t;
      OccursOnce(s, i);
    }
  }

  // Compile a DAG over free input wires, dead ones included.
  method CompileWithInputs(root: Term, inputs: seq<Term>) returns (m: Morph)
    requires Distinct(inputs) && forall x :: x in inputs ==> !x.Op?
    ensures Rewires(m, inputs, inputs, OutputsOf(root))
    ensures Out(m) - In(m) == |OutputsOf(root)| - |inputs|
    ensures In(m) == |inputs| <==> !BareRoot(root, inputs)
    ensures Tally(m, Drops) == |UnusedInputs(root, inputs)| && Tally(m, Loops) == 0
    ensures Tally(m, Arrs) == |NodesOf(root)| && Mints(m, root, inputs)
    ensures Normal(m) && Lean(m)
  {
    hide Mints, Normal, Lean;
    var job := ReadRoot(root, inputs);
    ReadsIsWired(job, root, inputs);
    m := CompileJob(job);
    MintsExactly(m, job, root, inputs);
    BareExactly(job, root, inputs);
    ElementsSize(job.nodes);
    DeadAreUnused(job, root, inputs);
  }

  lemma DeadAreUnused(job: Job, root: Term, inputs: seq<Term>)
    requires Reads(job, root, inputs) && forall x :: x in inputs ==> !x.Op?
    ensures DeadInputs(job) == UnusedInputs(root, inputs)
  {
    forall x | x in inputs
      ensures x in job.Counts() <==> x in Subterms(root)
    {
      CountsAreSubterms(job, root, inputs, x);
    }
  }

  lemma NoArrows(job: Job, root: Term, inputs: seq<Term>)
    requires Reads(job, root, inputs)
    ensures job.nodes == [] <==> forall t :: t in job.outputs ==> !t.Op?
  {
    if job.nodes == [] {
      assert NodesOf(root) == {};
      forall t | t in job.outputs
        ensures !t.Op?
      {
        assert t in multiset(job.outputs);
        CountsAreSubterms(job, root, inputs, t);
        assert t.Op? ==> t in NodesOf(root);
      }
    } else if forall t :: t in job.outputs ==> !t.Op? {
      assert job.nodes[0] in Elements(job.nodes);
      if IsPack(root) {
        NoOpBelow(root.args, job.nodes[0]);
      }
    }
  }

  lemma NoOpBelow(args: seq<Term>, t: Term)
    requires forall a :: a in args ==> !a.Op?
    requires t.Op?
    ensures t !in SubtermsAll(args)
  {
    if t in SubtermsAll(args) {
      SubtermsAllInverse(args, t);
    }
  }

  lemma BareExactly(job: Job, root: Term, inputs: seq<Term>)
    requires Reads(job, root, inputs) && job.Wired()
    ensures Bare(job) == BareRoot(root, inputs)
  {
    if Bare(job) {
      NoArrows(job, root, inputs);
      BareIsBareRoot(job);
    }
    if BareRoot(root, inputs) {
      BareRootIsBare(job, root, inputs);
    }
  }

  lemma BareRootIsBare(job: Job, root: Term, inputs: seq<Term>)
    requires Reads(job, root, inputs) && BareRoot(root, inputs)
    ensures Bare(job)
  {
    NoArrows(job, root, inputs);
    EndsWithInputs(job.leaves, inputs, job.outputs);
  }

  lemma EndsWithInputs(leaves: seq<Term>, inputs: seq<Term>, outs: seq<Term>)
    requires leaves == FirstUses([] + outs, inputs)
    requires Distinct(outs) && |outs| >= |inputs| && outs[|outs| - |inputs|..] == inputs
    requires forall x :: x in outs ==> !x.Op?
    ensures outs == leaves + inputs
  {
    var front := outs[..|outs| - |inputs|];
    assert outs == front + inputs && [] + outs == outs;
    FreshPrefix(front, inputs);
  }

  lemma BareIsBareRoot(job: Job)
    requires job.Wired()
    ensures var outs := job.leaves + job.inputs;
      Distinct(outs) && outs[|outs| - |job.inputs|..] == job.inputs
  {
    job.LiveAtStart();
  }

  lemma DistinctParts(front: seq<Term>, back: seq<Term>)
    requires Distinct(front + back)
    ensures Distinct(front) && forall x :: x in front ==> x !in back
  {
    var s := front + back;
    forall i, j | 0 <= i < j < |front|
      ensures front[i] != front[j]
    {
      assert s[i] != s[j];
    }
    forall i, k | 0 <= i < |front| && 0 <= k < |back|
      ensures front[i] != back[k]
    {
      assert s[i] != s[|front| + k];
    }
  }

  lemma FreshPrefix(front: seq<Term>, inputs: seq<Term>)
    requires Distinct(front + inputs) && forall x :: x in front + inputs ==> !x.Op?
    ensures FirstUses(front + inputs, inputs) == front
  {
    DistinctParts(front, inputs);
    assert forall x :: x in front ==> x in front + inputs;
    SkipInputs(front, inputs, |inputs|);
    AllFresh(front, inputs);
    assert front + inputs[..|inputs|] == front + inputs;
  }

  lemma {:induction false} SkipInputs(front: seq<Term>, inputs: seq<Term>, k: nat)
    requires k <= |inputs|
    ensures FirstUses(front + inputs[..k], inputs) == FirstUses(front, inputs)
  {
    hide FirstUses;
    if k == 0 {
      assert front + inputs[..0] == front;
    } else {
      SkipInputs(front, inputs, k - 1);
      FirstUsesSnoc(front + inputs[..k - 1], inputs[k - 1], inputs);
      assert front + inputs[..k] == front + inputs[..k - 1] + [inputs[k - 1]];
    }
  }

  lemma {:induction false} AllFresh(front: seq<Term>, inputs: seq<Term>)
    requires Distinct(front) && forall x :: x in front ==> !x.Op? && x !in inputs
    ensures FirstUses(front, inputs) == front
  {
    if front == [] {
    } else {
      var n := |front| - 1;
      AllFresh(front[..n], inputs);
      assert front[n] !in front[..n] && front == front[..n] + [front[n]];
    }
  }

  // The wires may carry anything: the outputs come back with each input
  // replaced by its wire, and the tail untouched.
  lemma OpenCompilationIsSubstitution(m: Morph, inputs: seq<Term>, outs: seq<Term>, ws: seq<Term>, tail: seq<Term>)
    requires Rewires(m, inputs, inputs, outs) && Distinct(inputs) && |ws| == |inputs|
    ensures Apply(m, ws + tail) == SubstAll(outs, Binding(inputs, ws)) + tail
  {
    var env := Binding(inputs, ws);
    BindingReads(inputs, ws);
    assert SubstAll(inputs, env) == ws;
    assert env.Keys == Elements(inputs);
  }

  function Binding(inputs: seq<Term>, ws: seq<Term>): map<Term, Term>
    requires |ws| == |inputs|
  {
    if inputs == [] then map[]
    else
      var n := |inputs| - 1;
      Binding(inputs[..n], ws[..n])[inputs[n] := ws[n]]
  }

  lemma {:induction false} BindingReads(inputs: seq<Term>, ws: seq<Term>)
    requires |ws| == |inputs| && Distinct(inputs)
    ensures Binding(inputs, ws).Keys == Elements(inputs)
    ensures forall i :: 0 <= i < |inputs| ==> inputs[i] in Binding(inputs, ws) && Binding(inputs, ws)[inputs[i]] == ws[i]
  {
    if inputs == [] {
    } else {
      var n := |inputs| - 1;
      BindingReads(inputs[..n], ws[..n]);
      ElementsSnoc(inputs);
    }
  }

  // ---------------------------------------------------------------------------
  //  Closed compilation and its round trip
  // ---------------------------------------------------------------------------

  // An op that becomes an arrow takes an argument outside the IR's classes.
  ghost predicate Unrepresentable(root: Term) {
    exists n, a :: n in NodesOf(root) && a in ArgsOf(n) && a.Raw?
  }

  // Expand a closed morphism: one wire is its term, several re-mint the pack.
  function CombToDag(m: Morph): Result<Term>
    requires WF(m) && In(m) == 0
  {
    var wires := Apply(m, []);
    if wires == [] then Failure(ValueError)
    else if |wires| == 1 then Success(wires[0])
    else Success(Op("pack", wires, map[]))
  }

  // The roots the expansion gives back: anything but a pack, and a pack that
  // carries no attribute and at least two outputs.
  predicate RoundTrips(root: Term) {
    !IsPack(root) || (root.attrs == map[] && |root.args| >= 2)
  }

  method DagToComb(root: Term) returns (r: Result<Morph>)
    ensures r.Failure? <==> Unrepresentable(root)
    ensures r.Failure? ==> r.error == TypeError
    ensures r.Success? ==> WF(r.value) && In(r.value) == 0 && Out(r.value) == |OutputsOf(root)|
    ensures r.Success? ==> forall tail :: Apply(r.value, tail) == OutputsOf(root) + tail
    ensures r.Success? ==> (CombToDag(r.value) == Success(root) <==> RoundTrips(root))
    ensures r.Success? ==> ExactSharing(r.value, root) && Normal(r.value) && Lean(r.value)
  {
    var job := ReadRoot(root, []);
    ReadsIsWired(job, root, []);
    var bad := FindRaw(job.nodes);
    RawMeansUnrepresentable(job, root, bad);
    if bad {
      return Failure(TypeError);
    }
    var m := CompileJob(job);
    ClosedAction(m, root);
    SharingAccount(m, job, root);
    r := Success(m);
  }

  lemma RawMeansUnrepresentable(job: Job, root: Term, found: bool)
    requires Reads(job, root, [])
    requires found <==> exists i, a :: 0 <= i < |job.nodes| && a in ArgsOf(job.nodes[i]) && a.Raw?
    ensures found <==> Unrepresentable(root)
  {
    assert forall i :: 0 <= i < |job.nodes| ==> job.nodes[i] in Elements(job.nodes);
    assert forall n :: n in NodesOf(root) ==> n in Elements(job.nodes);
  }

  method FindRaw(nodes: seq<Term>) returns (found: bool)
    ensures found <==> exists i, a :: 0 <= i < |nodes| && a in ArgsOf(nodes[i]) && a.Raw?
  {
    for i := 0 to |nodes|
      invariant forall k, a :: 0 <= k < i && a in ArgsOf(nodes[k]) ==> !a.Raw?
    {
      var args := ArgsOf(nodes[i]);
      for j := 0 to |args|
        invariant forall a :: a in args[..j] ==> !a.Raw?
      {
        assert args[..j + 1] == args[..j] + [args[j]];
        if args[j].Raw? {
          return true;
        }
      }
      assert args[..|args|] == args;
    }
    return false;
  }

  lemma ClosedAction(m: Morph, root: Term)
    requires Rewires(m, [], [], OutputsOf(root)) && In(m) == 0
    ensures forall tail :: Apply(m, tail) == OutputsOf(root) + tail
    ensures CombToDag(m) == Success(root) <==> RoundTrips(root)
  {
    forall tail
      ensures Apply(m, tail) == OutputsOf(root) + tail
    {
      var env: map<Term, Term> := map[];
      assert env.Keys == Elements([]);
      SubstAllFixed(OutputsOf(root), env);
      assert SubstAll([], env) + tail == tail;
    }
    assert Apply(m, []) == OutputsOf(root) + [] == OutputsOf(root);
    if IsPack(root) && |root.args| == 1 {
      SizeOfMember(root.args, root.args[0]);
    }
  }

  // Every extra copy a diagonal mints is an argument occurrence beyond the
  // one that each distinct term of the DAG must have, the root apart.
  ghost predicate ExactSharing(m: Morph, root: Term) {
    var bag := ArgBag(OpSubterms(root));
    && Tally(m, DupCopies) - Tally(m, Dups) == |bag| + 1 - |Subterms(root)|
    && (Tally(m, Dups) == 0 <==> forall t :: bag[t] <= 1)
    && Tally(m, Drops) == 0 && Tally(m, Loops) == 0
    && Tally(m, Arrs) == |NodesOf(root)| && Mints(m, root, [])
  }

  // The arguments of the whole DAG: those of the arrows and those of a pack
  // root; each subterm but the root is among them.
  lemma DagArguments(job: Job, root: Term)
    requires Reads(job, root, [])
    ensures var bag := ArgBag(OpSubterms(root));
      && |bag| == Occurrences(job.nodes) + (if IsPack(root) then |root.args| else 0)
      && forall t :: t in bag <==> t in Subterms(root) - {root}
  {
    ArgBagOfNodes(job.nodes);
    UsesSize(job.nodes);
    if IsPack(root) {
      ArgBagRemove(OpSubterms(root), root);
    } else {
      assert NodesOf(root) == OpSubterms(root);
    }
    forall t
      ensures t in Uses(job.nodes) || (IsPack(root) && t in root.args) <==> t in Subterms(root) - {root}
    {
      DagArgument(job, root, t);
    }
  }

  lemma DagArgument(job: Job, root: Term, t: Term)
    requires Reads(job, root, [])
    ensures t in Uses(job.nodes) || (IsPack(root) && t in root.args) <==> t in Subterms(root) - {root}
  {
    hide Uses, Subterms, OpSubterms, Reads;
    if t in Uses(job.nodes) {
      UsedIsProper(job, root, [], t);
    }
    if IsPack(root) && t in root.args {
      RootIsSubterm(root);
      ArgSmaller(root, root, t);
    }
    if t in Subterms(root) && t != root {
      ProperIsUsed(job, root, [], t);
    }
  }

  lemma SharingAccount(m: Morph, job: Job, root: Term)
    requires Reads(job, root, []) && Account(m, job)
    ensures ExactSharing(m, root)
  {
    hide Mints, Tally, Account, Reads, Subterms, OpSubterms, NodesOf, ArgBag, Occurrences;
    MintsExactly(m, job, root, []);
    var bag := ArgBag(OpSubterms(root));
    DagArguments(job, root);
    BagSize(bag, Subterms(root) - {root});
    DagCensus(job, root);
    ClosedAccount(m, job, root);
  }

  // The account of a closed compilation, which has no input to drop.
  lemma ClosedAccount(m: Morph, job: Job, root: Term)
    requires Reads(job, root, []) && Account(m, job)
    ensures Tally(m, DupCopies) - Tally(m, Dups)
         == |OutputsOf(root)| + Occurrences(job.nodes) - |job.leaves| - |job.nodes|
    ensures Tally(m, Dups) == 0 <==> Tally(m, DupCopies) - Tally(m, Dups) == 0
    ensures Tally(m, Drops) == 0 && Tally(m, Loops) == 0 && Tally(m, Arrs) == |NodesOf(root)|
  {
    hide Tally, Subterms, OpSubterms, NodesOf, Occurrences, IsMint, Minted, ChildrenFirst, FirstUses, Flat;
    DupCount(m);
    assert DeadInputs(job) == {};
    ElementsSize(job.nodes);
  }

  // Each subterm is a generator, an arrow, or the dissolved pack root.
  lemma DagCensus(job: Job, root: Term)
    requires Reads(job, root, [])
    ensures |Subterms(root)| == |job.leaves| + |job.nodes| + if IsPack(root) then 1 else 0
    ensures |Subterms(root) - {root}| == |Subterms(root)| - 1
  {
    LeavesRead(job, root, []);
    ElementsSize(job.nodes);
    ElementsSize(job.leaves);
    SubtermsPartition(job, root);
  }

  function DagParts(job: Job, root: Term): set<Term> {
    Elements(job.leaves) + Elements(job.nodes) + if IsPack(root) then {root} else {}
  }

  lemma SubtermsPartition(job: Job, root: Term)
    requires Reads(job, root, [])
    ensures Subterms(root) == DagParts(job, root)
  {
    forall t
      ensures t in Subterms(root) <==> t in DagParts(job, root)
    {
      SubtermPart(job, root, t);
    }
  }

  lemma SubtermPart(job: Job, root: Term, t: Term)
    requires Reads(job, root, [])
    ensures t in Subterms(root) <==> t in DagParts(job, root)
  {
    LeavesRead(job, root, []);
    CountsAreSubterms(job, root, [], t);
    assert t in job.nodes <==> t in NodesOf(root) by {
      assert t in job.nodes <==> t in Elements(job.nodes);
    }
  }
}
