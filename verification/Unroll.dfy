// The spelled scan: n copies of a step with the wire bookkeeping written out,
// and the proof that it is the bounded loop.

module Unroll {
  import opened Wrappers
  import opened Terms
  import opened Morphisms
  import opened Constructors

  // Same arity, same action on every bundle that is long enough.
  ghost predicate Equiv(a: Morph, b: Morph) {
    && WF(a) && WF(b) && In(a) == In(b) && Out(a) == Out(b)
    && forall w: seq<Term> :: In(a) <= |w| ==> Apply(a, w) == Apply(b, w)
  }

  function Range(lo: int, hi: int): (r: seq<int>)
    ensures |r| == if lo < hi then hi - lo else 0
    ensures forall i :: 0 <= i < |r| ==> r[i] == lo + i
  {
    if lo < hi then seq(hi - lo, i => lo + i) else []
  }

  // A scan step: the state and at least one input in, the state out first.
  predicate IsStep(step: Morph, nx: int, ny: int) {
    WF(step) && nx >= 1 && ny >= 0 && In(step) == 1 + nx && Out(step) == 1 + ny
  }

  // ---------------------------------------------------------------------------
  //  The spelling
  // ---------------------------------------------------------------------------

  // With y outputs emitted and r input wires after this step's: bring the
  // step's nx inputs next to the state.
  function StepOrder(nx: int, y: int, r: int): seq<int> {
    [0] + Range(y + 1, y + 1 + nx) + Range(1, y + 1) + Range(y + 1 + nx, y + 1 + nx + r)
  }

  function NonId(m: Morph): seq<Morph> {
    if m.Id? then [] else [m]
  }

  function StepParts(step: Morph, nx: int, y: int, r: int): seq<Morph> {
    NonId(PermOf(StepOrder(nx, y, r))) + [Beside(step, y + r)]
  }

  // The parts of one step, as a function of the outputs emitted before it and
  // the input wires left after it.
  type Cell = ((int, int)) -> seq<Morph>

  function ScanCell(step: Morph, nx: int): Cell {
    (p: (int, int)) => StepParts(step, nx, p.0, p.1)
  }

  // Those two numbers for each of the last k steps.
  function Plan(nx: int, ny: int, k: nat, y: int): (p: seq<(int, int)>)
    ensures |p| == k
  {
    if k == 0 then [] else [(y, Groups(k - 1, nx))] + Plan(nx, ny, k - 1, y + ny)
  }

  function FlatMap<A, B>(f: A -> seq<B>, s: seq<A>): seq<B> {
    if s == [] then [] else f(s[0]) + FlatMap(f, s[1..])
  }

  function Steps(cell: Cell, nx: int, ny: int, k: nat, y: int): seq<Morph> {
    FlatMap(cell, Plan(nx, ny, k, y))
  }

  // The output blocks back into emission order: block b-1 first, block 0 last.
  function BlockOrder(b: nat, ny: int): seq<int> {
    if b == 0 then [] else Range(Groups(b - 1, ny) + 1, Groups(b - 1, ny) + ny + 1) + BlockOrder(b - 1, ny)
  }

  function Fixing(n: nat, ny: int): Morph {
    PermOf([0] + BlockOrder(n, ny))
  }

  function SpelledParts(step: Morph, nx: int, ny: int, n: nat): seq<Morph> {
    Steps(ScanCell(step, nx), nx, ny, n, 0) + NonId(Fixing(n, ny))
  }

  function Spelled(step: Morph, n: nat): Morph {
    SeqOf(SpelledParts(step, In(step) - 1, Out(step) - 1, n))
  }

  method Unroll(step: Morph, n: int) returns (r: Result<Morph>)
    requires WF(step)
    ensures r.Failure? <==> n < 1 || In(step) < 2
    ensures r.Failure? ==> r.error == ValueError
    ensures r.Success? ==> r.value == Spelled(step, n)
  {
    hide SpelledParts, SeqOf, In, Out, WF;
    if n < 1 {
      return Failure(ValueError);
    }
    if In(step) - 1 < 1 {
      return Failure(ValueError);
    }
    var m := Spell(step, In(step) - 1, Out(step) - 1, n);
    r := Success(m);
  }

  method Spell(step: Morph, nx: int, ny: int, n: nat) returns (m: Morph)
    ensures m == SeqOf(SpelledParts(step, nx, ny, n))
  {
    hide Steps, SeqOf, Fixing, NonId, ScanCell;
    var parts := SpellSteps(step, nx, ny, n);
    parts := AppendFix(parts, n, ny);
    m := SeqOf(parts);
  }

  method SpellSteps(step: Morph, nx: int, ny: int, n: nat) returns (parts: seq<Morph>)
    ensures parts == Steps(ScanCell(step, nx), nx, ny, n, 0)
  {
    ghost var plan := Plan(nx, ny, n, 0);
    parts := [];
    for i := 1 to n + 1
      invariant parts == FlatMap(ScanCell(step, nx), plan[..i - 1])
    {
      var y := (i - 1) * ny;  // the outputs already emitted
      var r := (n - i) * nx;  // the inputs of the steps to come
      PlanOfStep(nx, ny, n, i);
      FlatMapPrefix(ScanCell(step, nx), plan, i - 1);
      parts := AppendStep(parts, step, nx, y, r);
    }
    assert plan[..n] == plan;
  }

  method AppendStep(before: seq<Morph>, step: Morph, nx: int, y: int, r: int) returns (parts: seq<Morph>)
    ensures parts == before + ScanCell(step, nx)((y, r))
  {
    var prm := PermOf(StepOrder(nx, y, r));
    parts := before;
    if !prm.Id? {
      parts := parts + [prm];
    }
    parts := parts + [Beside(step, y + r)];
  }

  method AppendFix(before: seq<Morph>, n: nat, ny: int) returns (parts: seq<Morph>)
    ensures parts == before + NonId(Fixing(n, ny))
  {
    var fixing := Fixing(n, ny);
    NilConcat(before);
    parts := if fixing.Id? then before else before + [fixing];
  }

  lemma {:induction false} PlanAt(nx: int, ny: int, k: nat, y: int, i: nat)
    requires i < k
    ensures Plan(nx, ny, k, y)[i] == (y + Groups(i, ny), Groups(k - 1 - i, nx))
  {
    if i == 0 {
    } else {
      PlanAt(nx, ny, k - 1, y + ny, i - 1);
    }
  }

  lemma PlanOfStep(nx: int, ny: int, n: nat, i: nat)
    requires 1 <= i <= n
    ensures Plan(nx, ny, n, 0)[i - 1] == ((i - 1) * ny, (n - i) * nx)
  {
    PlanAt(nx, ny, n, 0, i - 1);
    GroupsIsProduct(i - 1, ny);
    GroupsIsProduct(n - i, nx);
    assert n - 1 - (i - 1) == n - i;
  }

  lemma FlatMapPrefix<A, B>(f: A -> seq<B>, s: seq<A>, i: nat)
    requires i < |s|
    ensures FlatMap(f, s[..i + 1]) == FlatMap(f, s[..i]) + f(s[i])
  {
    assert s[..i + 1] == s[..i] + [s[i]];
    FlatMapSnoc(f, s[..i], s[i]);
  }

  lemma {:induction false} FlatMapSnoc<A, B>(f: A -> seq<B>, s: seq<A>, x: A)
    ensures FlatMap(f, s + [x]) == FlatMap(f, s) + f(x)
  {
    if s == [] {
      assert s + [x] == [x] && [x][1..] == [];
    } else {
      assert (s + [x])[1..] == s[1..] + [x];
      FlatMapSnoc(f, s[1..], x);
      ConcatAssoc(f(s[0]), FlatMap(f, s[1..]), f(x));
    }
  }

  // ---------------------------------------------------------------------------
  //  One spelled step
  // ---------------------------------------------------------------------------

  function StepSource(nx: nat, y: nat, i: nat): nat {
    if i == 0 then 0 else if i <= nx then y + i else if i <= nx + y then i - nx else i
  }

  // The order that brings the step's inputs next to the state.
  ghost predicate Moves(order: seq<int>, nx: nat, y: nat, r: nat) {
    && IsPerm(order) && |order| == 1 + nx + y + r
    && forall i :: 0 <= i < |order| ==> order[i] == StepSource(nx, y, i)
  }

  lemma StepOrderMoves(nx: nat, y: nat, r: nat)
    ensures Moves(StepOrder(nx, y, r), nx, y, r)
  {
    var order := StepOrder(nx, y, r);
    forall i | 0 <= i < |order|
      ensures order[i] == StepSource(nx, y, i)
    {
    }
    SourcesDiffer(order, nx, y, r);
  }

  lemma SourcesDiffer(order: seq<int>, nx: nat, y: nat, r: nat)
    requires |order| == 1 + nx + y + r && forall i :: 0 <= i < |order| ==> order[i] == StepSource(nx, y, i)
    ensures IsPerm(order)
  {
  }

  // Reindexing a bundle laid out [S, Y, x, X] brings x next to S.
  lemma MovesAction(order: seq<int>, nx: nat, y: nat, r: nat, s: Term, ys: seq<Term>, x: seq<Term>, xs: seq<Term>)
    requires Moves(order, nx, y, r) && |ys| == y && |x| == nx && r <= |xs|
    ensures Apply(PermOf(order), [s] + ys + x + xs) == ([s] + x) + (ys + xs)
  {
    var w, out := [s] + ys + x + xs, [s] + x + ys + xs;
    PermOfApply(order, w);
    forall i | 0 <= i < |w|
      ensures w[if i < |order| then order[i] else i] == out[i]
    {
      MovedWire(nx, y, s, ys, x, xs, i, if i < |order| then order[i] else i);
    }
    SplitByIndex(Reindex(order, w), w, out, |order|);
    ConcatAssoc([s] + x, ys, xs);
  }

  lemma MovedWire(nx: nat, y: nat, s: Term, ys: seq<Term>, x: seq<Term>, xs: seq<Term>, i: nat, j: nat)
    requires |ys| == y && |x| == nx && i < 1 + |ys| + |x| + |xs| && j == StepSource(nx, y, i)
    ensures ([s] + ys + x + xs)[j] == ([s] + x + ys + xs)[i]
  {
    WireAt(s, ys, x, xs, j);
    WireAt(s, x, ys, xs, i);
  }

  lemma SplitByIndex(front: seq<Term>, w: seq<Term>, out: seq<Term>, n: nat)
    requires n == |front| <= |w| == |out|
    requires forall i :: 0 <= i < n ==> front[i] == out[i]
    requires forall i :: n <= i < |w| ==> w[i] == out[i]
    ensures front + w[n..] == out
  {
  }

  // The wire at an index of a bundle laid out [s, a, b, c].
  lemma WireAt(s: Term, a: seq<Term>, b: seq<Term>, c: seq<Term>, i: nat)
    requires i < 1 + |a| + |b| + |c|
    ensures ([s] + a + b + c)[i] ==
      if i == 0 then s
      else if i <= |a| then a[i - 1]
      else if i <= |a| + |b| then b[i - 1 - |a|]
      else c[i - 1 - |a| - |b|]
  {
  }

  // A permutation whose identity form is left out, then a body.
  lemma GuardedPairArity(prm: Morph, body: Morph)
    requires WF(prm) && WF(body) && In(prm) == Out(prm) == In(body)
    ensures AllWF(NonId(prm) + [body])
    ensures SeqIn(NonId(prm) + [body]) == In(body) && SeqDelta(NonId(prm) + [body]) == Out(body) - In(body)
  {
    ArityNonNegative(body);
    SingleArity(body);
    SingleArity(prm);
    NilConcat([body]);
    if !prm.Id? {
      SeqSnocArity([prm], body);
    }
  }

  lemma GuardedPairApply(prm: Morph, body: Morph, w: seq<Term>)
    requires WF(prm) && WF(body) && In(prm) == Out(prm) == In(body) <= |w|
    ensures AllWF(NonId(prm) + [body]) && SeqIn(NonId(prm) + [body]) <= |w|
    ensures ApplySeq(NonId(prm) + [body], w) == Apply(body, Apply(prm, w))
  {
    GuardedPairArity(prm, body);
    SeqSnoc(NonId(prm), body, w);
    if !prm.Id? {
      SingleArity(prm);
      SeqSnoc([], prm, w);
      NilConcat([prm]);
    }
  }

  lemma PermOfArity(order: seq<int>)
    requires IsPerm(order)
    ensures WF(PermOf(order)) && In(PermOf(order)) == Out(PermOf(order)) == |order|
  {
  }

  // A step's parts turn [S, Y, x, X] into [S', y, Y, X].
  ghost predicate ActsOn(first: seq<Morph>, step: Morph, s: Term, ys: seq<Term>, x: seq<Term>, xs: seq<Term>)
    requires WF(step) && In(step) == 1 + |x|
  {
    && AllWF(first) && SeqIn(first) <= |[s] + ys + x + xs|
    && ApplySeq(first, [s] + ys + x + xs) == Apply(step, [s] + x) + (ys + xs)
  }

  ghost predicate ActsAsStep(first: seq<Morph>, step: Morph, nx: nat, y: nat, r: nat)
    requires WF(step) && In(step) == 1 + nx
  {
    && AllWF(first) && SeqIn(first) == 1 + nx + y + r && SeqDelta(first) == Out(step) - In(step)
    && forall s: Term, ys: seq<Term>, x: seq<Term>, xs: seq<Term> ::
         |ys| == y && |x| == nx && r <= |xs| ==> ActsOn(first, step, s, ys, x, xs)
  }

  lemma StepPartsAct(step: Morph, nx: nat, y: nat, r: nat)
    requires WF(step) && In(step) == 1 + nx
    ensures ActsAsStep(StepParts(step, nx, y, r), step, nx, y, r)
  {
    var order := StepOrder(nx, y, r);
    StepOrderMoves(nx, y, r);
    MovesThenActs(step, order, nx, y, r);
  }

  lemma MovesThenActs(step: Morph, order: seq<int>, nx: nat, y: nat, r: nat)
    requires WF(step) && In(step) == 1 + nx && Moves(order, nx, y, r)
    ensures ActsAsStep(NonId(PermOf(order)) + [Beside(step, y + r)], step, nx, y, r)
  {
    hide PermOf, Beside, NonId, IsPerm, AllWF, SeqIn, SeqDelta, WF, In, Out, ActsAsStep;
    PermOfArity(order);
    BesideArity(step, y + r);
    GuardedPairArity(PermOf(order), Beside(step, y + r));
    EachStepActs(NonId(PermOf(order)) + [Beside(step, y + r)], step, order, nx, y, r);
  }

  lemma EachStepActs(ps: seq<Morph>, step: Morph, order: seq<int>, nx: nat, y: nat, r: nat)
    requires WF(step) && In(step) == 1 + nx && Moves(order, nx, y, r)
    requires ps == NonId(PermOf(order)) + [Beside(step, y + r)]
    requires AllWF(ps) && SeqIn(ps) == 1 + nx + y + r && SeqDelta(ps) == Out(step) - In(step)
    ensures ActsAsStep(ps, step, nx, y, r)
  {
    hide PermOf, Beside, NonId, Moves, AllWF, SeqIn, SeqDelta, WF, In, Out, ActsOn;
    forall s: Term, ys: seq<Term>, x: seq<Term>, xs: seq<Term> | |ys| == y && |x| == nx && r <= |xs|
      ensures ActsOn(ps, step, s, ys, x, xs)
    {
      StepActs(ps, step, order, nx, r, s, ys, x, xs);
    }
  }

  lemma StepActs(ps: seq<Morph>, step: Morph, order: seq<int>, nx: nat, r: nat, s: Term, ys: seq<Term>, x: seq<Term>, xs: seq<Term>)
    requires WF(step) && In(step) == 1 + nx && Moves(order, nx, |ys|, r) && |x| == nx && r <= |xs|
    requires ps == NonId(PermOf(order)) + [Beside(step, |ys| + r)]
    ensures ActsOn(ps, step, s, ys, x, xs)
  {
    MovesAction(order, nx, |ys|, r, s, ys, x, xs);
    MoveThenStep(ps, step, order, |ys| + r, [s] + ys + x + xs, [s] + x, ys + xs);
  }

  lemma MoveThenStep(ps: seq<Morph>, step: Morph, order: seq<int>, idle: nat, w: seq<Term>, u: seq<Term>, t: seq<Term>)
    requires WF(step) && IsPerm(order) && |order| == In(step) + idle <= |w|
    requires |u| == In(step) && idle <= |t| && Apply(PermOf(order), w) == u + t
    requires ps == NonId(PermOf(order)) + [Beside(step, idle)]
    ensures AllWF(ps) && SeqIn(ps) <= |w| && ApplySeq(ps, w) == Apply(step, u) + t
  {
    PermOfArity(order);
    BesideArity(step, idle);
    GuardedPairApply(PermOf(order), Beside(step, idle), w);
    BesideApply(step, idle, u, t);
  }

  // ---------------------------------------------------------------------------
  //  All the steps
  // ---------------------------------------------------------------------------

  ghost predicate Good(cell: Cell, step: Morph, nx: nat)
    requires WF(step) && In(step) == 1 + nx
  {
    forall y: nat, r: nat :: ActsAsStep(cell((y, r)), step, nx, y, r)
  }

  lemma ScanCellGood(step: Morph, nx: nat)
    requires WF(step) && In(step) == 1 + nx
    ensures Good(ScanCell(step, nx), step, nx)
  {
    forall y: nat, r: nat
      ensures ActsAsStep(ScanCell(step, nx)((y, r)), step, nx, y, r)
    {
      StepPartsAct(step, nx, y, r);
    }
  }

  lemma StepsUnfold(cell: Cell, step: Morph, nx: nat, ny: nat, k: nat, y: nat) returns (first: seq<Morph>)
    requires WF(step) && In(step) == 1 + nx && Good(cell, step, nx)
    ensures ActsAsStep(first, step, nx, y, Groups(k, nx))
    ensures Steps(cell, nx, ny, k + 1, y) == first + Steps(cell, nx, ny, k, y + ny)
  {
    var plan := Plan(nx, ny, k + 1, y);
    assert plan[0] == (y, Groups(k, nx)) && plan[1..] == Plan(nx, ny, k, y + ny);
    first := cell((y, Groups(k, nx)));
  }

  // k steps consume k input groups and emit k output groups.
  ghost predicate Shaped(ps: seq<Morph>, nx: nat, ny: nat, k: nat, y: nat) {
    && AllWF(ps) && SeqDelta(ps) == Groups(k, ny) - Groups(k, nx)
    && SeqIn(ps) == if k == 0 then 0 else 1 + y + Groups(k, nx)
  }

  lemma ShapedCons(first: seq<Morph>, rest: seq<Morph>, step: Morph, nx: nat, ny: nat, k: nat, y: nat)
    requires IsStep(step, nx, ny) && ActsAsStep(first, step, nx, y, Groups(k, nx)) && Shaped(rest, nx, ny, k, y + ny)
    ensures Shaped(first + rest, nx, ny, k + 1, y)
  {
    AllWFConcat(first, rest);
    SeqConcatArity(first, rest);
  }

  lemma {:induction false} StepsArity(cell: Cell, step: Morph, nx: nat, ny: nat, k: nat, y: nat)
    requires IsStep(step, nx, ny) && Good(cell, step, nx)
    ensures Shaped(Steps(cell, nx, ny, k, y), nx, ny, k, y)
    decreases k
  {
    if k == 0 {
    } else {
      var first := StepsUnfold(cell, step, nx, ny, k - 1, y);
      StepsArity(cell, step, nx, ny, k - 1, y + ny);
      ShapedCons(first, Steps(cell, nx, ny, k - 1, y + ny), step, nx, ny, k - 1, y);
    }
  }

  // The first k blocks of ny wires, last block first.
  function Rev(s: seq<Term>, k: nat, ny: nat): (r: seq<Term>)
    requires Groups(k, ny) <= |s|
    ensures |r| == Groups(k, ny)
    decreases k
  {
    if k == 0 then [] else Rev(s[ny..], k - 1, ny) + s[..ny]
  }

  // What k spelled steps leave: the final state, the new output blocks last
  // first, the earlier outputs, the untouched wires.
  function Spread(state: Term, outs: seq<Term>, ys: seq<Term>, k: nat, ny: nat): seq<Term>
    requires Groups(k, ny) <= |outs|
  {
    [state] + Rev(outs, k, ny) + ys + outs[Groups(k, ny)..]
  }

  lemma LoopUnfold(step: Morph, k: nat, nx: nat, ny: nat, s: Term, xs: seq<Term>)
    requires IsStep(step, nx, ny) && k > 0 && Groups(k, nx) <= |xs|
    ensures var res := Apply(step, [s] + xs[..nx]);
      var rest, all := ApplyLoop(step, k - 1, nx, ny, res[0], xs[nx..]), ApplyLoop(step, k, nx, ny, s, xs);
      all[0] == rest[0] && all[1..] == res[1..] + rest[1..]
  {
    var res := Apply(step, [s] + xs[..nx]);
    var rest := ApplyLoop(step, k - 1, nx, ny, res[0], xs[nx..]);
    ConsParts(rest[0], res[1..], rest[1..]);
  }

  lemma ConsParts(a: Term, b: seq<Term>, c: seq<Term>)
    ensures ([a] + b + c)[0] == a && ([a] + b + c)[1..] == b + c
  {
  }

  lemma SpreadStep(state: Term, outs: seq<Term>, y: seq<Term>, ys: seq<Term>, k: nat, ny: nat)
    requires Groups(k, ny) <= |outs| && |y| == ny
    ensures Groups(k + 1, ny) == ny + Groups(k, ny)
    ensures Spread(state, outs, y + ys, k, ny) == Spread(state, y + outs, ys, k + 1, ny)
  {
    hide Groups, Rev;
    var n := Groups(k, ny);
    var all := y + outs;
    GroupsUnfold(k + 1, ny);
    PrefixGone(y, outs, n);
    RevUnfold(all, k + 1, ny);
    Regroup([state], Rev(outs, k, ny), y, ys, outs[n..]);
  }

  lemma PrefixGone<T>(a: seq<T>, b: seq<T>, n: nat)
    requires n <= |b|
    ensures (a + b)[|a|..] == b && (a + b)[..|a|] == a && (a + b)[|a| + n..] == b[n..]
  {
  }

  lemma Regroup<T>(a: seq<T>, b: seq<T>, c: seq<T>, d: seq<T>, e: seq<T>)
    ensures a + b + (c + d) + e == a + (b + c) + d + e
  {
  }

  // The bundle after k steps, the newest outputs in front of the older ones.
  function Unrolled(step: Morph, nx: nat, k: nat, s: Term, ys: seq<Term>, xs: seq<Term>): seq<Term>
    requires WF(step) && In(step) == 1 + nx && Out(step) >= 1 && Groups(k, nx) <= |xs|
    decreases k
  {
    if k == 0 then [s] + ys + xs
    else
      var res := Apply(step, [s] + xs[..nx]);
      Unrolled(step, nx, k - 1, res[0], res[1..] + ys, xs[nx..])
  }

  ghost predicate Scans(ps: seq<Morph>, step: Morph, nx: nat, k: nat, s: Term, ys: seq<Term>, xs: seq<Term>)
    requires WF(step) && In(step) == 1 + nx && Out(step) >= 1 && Groups(k, nx) <= |xs|
  {
    && AllWF(ps) && SeqIn(ps) <= |[s] + ys + xs|
    && ApplySeq(ps, [s] + ys + xs) == Unrolled(step, nx, k, s, ys, xs)
  }

  lemma {:induction false} StepsApply(cell: Cell, step: Morph, nx: nat, ny: nat, k: nat, s: Term, ys: seq<Term>, xs: seq<Term>)
    requires IsStep(step, nx, ny) && Good(cell, step, nx) && Groups(k, nx) <= |xs|
    ensures Scans(Steps(cell, nx, ny, k, |ys|), step, nx, k, s, ys, xs)
    decreases k
  {
    hide Apply, WF, In, Out, AllWF, SeqIn, Good, Steps, Scans, ActsAsStep;
    if k == 0 {
      NoScan(cell, step, nx, ny, s, ys, xs);
    } else {
      var first := StepsUnfold(cell, step, nx, ny, k - 1, |ys|);
      var more := Steps(cell, nx, ny, k - 1, |ys| + ny);
      var res := Apply(step, [s] + xs[..nx]);
      StepsApply(cell, step, nx, ny, k - 1, res[0], res[1..] + ys, xs[nx..]);
      ShapedPrefix(cell, step, nx, ny, k, s, ys, xs);
      ScansCons(first, more, Steps(cell, nx, ny, k, |ys|), step, nx, k, s, ys, xs);
    }
  }

  lemma NoScan(cell: Cell, step: Morph, nx: nat, ny: nat, s: Term, ys: seq<Term>, xs: seq<Term>)
    requires IsStep(step, nx, ny)
    ensures Scans(Steps(cell, nx, ny, 0, |ys|), step, nx, 0, s, ys, xs)
  {
  }

  lemma ShapedPrefix(cell: Cell, step: Morph, nx: nat, ny: nat, k: nat, s: Term, ys: seq<Term>, xs: seq<Term>)
    requires IsStep(step, nx, ny) && Good(cell, step, nx) && Groups(k, nx) <= |xs|
    ensures AllWF(Steps(cell, nx, ny, k, |ys|)) && SeqIn(Steps(cell, nx, ny, k, |ys|)) <= |[s] + ys + xs|
  {
    StepsArity(cell, step, nx, ny, k, |ys|);
  }

  lemma ScansCons(first: seq<Morph>, more: seq<Morph>, all: seq<Morph>, step: Morph, nx: nat, k: nat,
                  s: Term, ys: seq<Term>, xs: seq<Term>)
    requires WF(step) && In(step) == 1 + nx && Out(step) >= 1 && k > 0 && Groups(k, nx) <= |xs|
    requires all == first + more && AllWF(all) && SeqIn(all) <= |[s] + ys + xs|
    requires ActsAsStep(first, step, nx, |ys|, Groups(k - 1, nx))
    requires var res := Apply(step, [s] + xs[..nx]); Scans(more, step, nx, k - 1, res[0], res[1..] + ys, xs[nx..])
    ensures Scans(all, step, nx, k, s, ys, xs)
  {
    hide AllWF, SeqIn, ApplySeq, WF, In, Out, Apply;
    assert ActsOn(first, step, s, ys, xs[..nx], xs[nx..]);
    FirstThenMore(first, more, step, nx, s, ys, xs);
  }

  // Those steps compute the loop's final state and outputs.
  lemma {:induction false} UnrolledIsSpread(step: Morph, nx: nat, ny: nat, k: nat, s: Term, ys: seq<Term>, xs: seq<Term>)
    requires IsStep(step, nx, ny) && Groups(k, nx) <= |xs|
    ensures var run := ApplyLoop(step, k, nx, ny, s, xs);
      Unrolled(step, nx, k, s, ys, xs) == Spread(run[0], run[1..], ys, k, ny)
    decreases k
  {
    hide Apply, WF, In, Out, Spread;
    if k == 0 {
      NoSpread(s, xs, ys, ny);
    } else {
      var res := Apply(step, [s] + xs[..nx]);
      var run := ApplyLoop(step, k - 1, nx, ny, res[0], xs[nx..]);
      UnrolledIsSpread(step, nx, ny, k - 1, res[0], res[1..] + ys, xs[nx..]);
      SpreadStep(run[0], run[1..], res[1..], ys, k - 1, ny);
      LoopUnfold(step, k, nx, ny, s, xs);
    }
  }

  lemma NoSpread(s: Term, xs: seq<Term>, ys: seq<Term>, ny: nat)
    ensures Groups(0, ny) == 0 && Spread(s, xs, ys, 0, ny) == [s] + ys + xs
    ensures ([s] + xs)[1..] == xs
  {
  }

  lemma FirstThenMore(first: seq<Morph>, more: seq<Morph>, step: Morph, nx: nat, s: Term, ys: seq<Term>, xs: seq<Term>)
    requires WF(step) && In(step) == 1 + nx && nx <= |xs| && Out(step) >= 1 && ActsOn(first, step, s, ys, xs[..nx], xs[nx..])
    requires AllWF(more) && AllWF(first + more) && SeqIn(first + more) <= |[s] + ys + xs|
    ensures var res := Apply(step, [s] + xs[..nx]);
      && SeqIn(more) <= |[res[0]] + (res[1..] + ys) + xs[nx..]|
      && ApplySeq(first + more, [s] + ys + xs) == ApplySeq(more, [res[0]] + (res[1..] + ys) + xs[nx..])
  {
    ConcatAssoc([s] + ys, xs[..nx], xs[nx..]);
    TakeDrop(xs, nx);
    SeqConcat(first, more, [s] + ys + xs);
    StateFirst(Apply(step, [s] + xs[..nx]), ys, xs[nx..]);
  }

  lemma StateFirst(res: seq<Term>, ys: seq<Term>, xs: seq<Term>)
    requires res != []
    ensures res + (ys + xs) == [res[0]] + (res[1..] + ys) + xs
  {
  }

  // ---------------------------------------------------------------------------
  //  The closing permutation
  // ---------------------------------------------------------------------------

  lemma {:induction false} BlockOrderLaw(b: nat, ny: nat)
    ensures |BlockOrder(b, ny)| == Groups(b, ny) && Within(BlockOrder(b, ny), 1 + Groups(b, ny))
    ensures forall i :: 0 <= i < Groups(b, ny) ==> 1 <= BlockOrder(b, ny)[i] <= Groups(b, ny)
    ensures Distinct(BlockOrder(b, ny))
  {
    hide BlockOrder;
    if b == 0 {
      NoBlocks(ny);
    } else {
      BlockOrderLaw(b - 1, ny);
      BlockOrderUnfold(b, ny);
    }
  }

  lemma NoBlocks(ny: nat)
    ensures BlockOrder(0, ny) == []
  {
  }

  lemma BlockOrderUnfold(b: nat, ny: nat)
    requires b > 0
    ensures BlockOrder(b, ny) == Range(Groups(b - 1, ny) + 1, Groups(b, ny) + 1) + BlockOrder(b - 1, ny)
  {
  }

  lemma FixingIsPerm(n: nat, ny: nat)
    ensures IsPerm([0] + BlockOrder(n, ny)) && |[0] + BlockOrder(n, ny)| == 1 + Groups(n, ny)
  {
    BlockOrderLaw(n, ny);
    ConsPerm(BlockOrder(n, ny));
  }

  lemma ConsPerm(order: seq<int>)
    requires Distinct(order) && forall i :: 0 <= i < |order| ==> 1 <= order[i] <= |order|
    ensures IsPerm([0] + order)
  {
  }

  predicate Within(order: seq<int>, n: int) {
    forall i :: 0 <= i < |order| ==> 0 <= order[i] < n
  }

  lemma ReindexConcat(a: seq<int>, b: seq<int>, w: seq<Term>)
    requires Within(a, |w|) && Within(b, |w|)
    ensures Within(a + b, |w|) && Reindex(a + b, w) == Reindex(a, w) + Reindex(b, w)
  {
  }

  ghost predicate ReadsBack(order: seq<int>, w: seq<Term>, out: seq<Term>) {
    Within(order, |w|) && Reindex(order, w) == out
  }

  // Reading the reversed blocks in block order gives them back in order.
  lemma {:induction false} BlocksBack(state: Term, outs: seq<Term>, b: nat, ny: nat, tail: seq<Term>)
    requires Groups(b, ny) <= |outs|
    ensures ReadsBack(BlockOrder(b, ny), [state] + Rev(outs, b, ny) + tail, outs[..Groups(b, ny)])
    decreases b
  {
    if b == 0 {
      assert Reindex([], [state] + [] + tail) == [];
    } else {
      BlocksBack(state, outs[ny..], b - 1, ny, outs[..ny] + tail);
      LastBlock(state, outs, b, ny);
      FirstBlockBack([state] + Rev(outs[ny..], b - 1, ny), outs[..ny], outs[ny..], tail, BlockOrder(b - 1, ny),
                     BlockOrder(b, ny), [state] + Rev(outs, b, ny) + tail, outs[..Groups(b, ny)]);
    }
  }

  lemma LastBlock(state: Term, outs: seq<Term>, b: nat, ny: nat)
    requires b > 0 && Groups(b, ny) <= |outs|
    ensures var front, block, order := [state] + Rev(outs[ny..], b - 1, ny), outs[..ny], BlockOrder(b - 1, ny);
      && |order| <= |outs[ny..]| && |order| == Groups(b - 1, ny) && Within(order, |front|)
      && [state] + Rev(outs, b, ny) == front + block
      && BlockOrder(b, ny) == Range(|front|, |front| + |block|) + order
      && outs[..Groups(b, ny)] == (block + outs[ny..])[..|block| + |order|]
  {
    hide BlockOrder, Rev, Groups;
    GroupsUnfold(b, ny);
    RevUnfold(outs, b, ny);
    BlockOrderLaw(b - 1, ny);
    BlockOrderUnfold(b, ny);
    TakeDrop(outs, ny);
    ConcatAssoc([state], Rev(outs[ny..], b - 1, ny), outs[..ny]);
  }

  lemma GroupsUnfold(b: nat, ny: nat)
    requires b > 0
    ensures Groups(b, ny) == ny + Groups(b - 1, ny)
  {
  }

  lemma RevUnfold(outs: seq<Term>, b: nat, ny: nat)
    requires b > 0 && Groups(b, ny) <= |outs|
    ensures ny <= |outs| && Groups(b - 1, ny) <= |outs[ny..]|
    ensures Rev(outs, b, ny) == Rev(outs[ny..], b - 1, ny) + outs[..ny]
  {
  }

  // With the blocks before it in place, reading one more block in front.
  lemma FirstBlockBack(front: seq<Term>, block: seq<Term>, rest: seq<Term>, tail: seq<Term>, order: seq<int>,
                       all: seq<int>, w: seq<Term>, out: seq<Term>)
    requires |order| <= |rest| && Within(order, |front|) && ReadsBack(order, front + (block + tail), rest[..|order|])
    requires all == Range(|front|, |front| + |block|) + order && w == front + block + tail
    requires out == (block + rest)[..|block| + |order|]
    ensures ReadsBack(all, w, out)
  {
    ConcatAssoc(front, block, tail);
    ReadRange(|front|, |block|, front, block, tail);
    ReindexConcat(Range(|front|, |front| + |block|), order, w);
    TakeConcat(block, rest, |order|);
  }

  lemma TakeConcat<T>(a: seq<T>, b: seq<T>, n: nat)
    requires n <= |b|
    ensures (a + b)[..|a| + n] == a + b[..n]
  {
  }

  lemma ReadRange(lo: nat, n: nat, a: seq<Term>, b: seq<Term>, c: seq<Term>)
    requires |a| == lo && |b| == n
    ensures Within(Range(lo, lo + n), |a + b + c|)
    ensures Reindex(Range(lo, lo + n), a + b + c) == b
  {
    var w := a + b + c;
    assert |Range(lo, lo + n)| == n;
    forall i | 0 <= i < n
      ensures Range(lo, lo + n)[i] == lo + i && w[lo + i] == b[i]
    {
    }
  }

  lemma FixingApply(state: Term, outs: seq<Term>, n: nat, ny: nat)
    requires Groups(n, ny) <= |outs|
    ensures WF(Fixing(n, ny)) && In(Fixing(n, ny)) == Out(Fixing(n, ny)) == 1 + Groups(n, ny)
    ensures Apply(Fixing(n, ny), Spread(state, outs, [], n, ny)) == [state] + outs
  {
    hide Rev, BlockOrder, Groups, IsPerm, PermOf, Reindex;
    var g := Groups(n, ny);
    var w, tail := Spread(state, outs, [], n, ny), outs[g..];
    FixingIsPerm(n, ny);
    FixingArity(n, ny);
    PermOfApply([0] + BlockOrder(n, ny), w);
    NilConcat([state] + Rev(outs, n, ny));
    BlocksBack(state, outs, n, ny, tail);
    FixingReads(BlockOrder(n, ny), state, Rev(outs, n, ny), tail, outs[..g]);
    TakeDrop(outs, g);
    ConcatAssoc([state], outs[..g], tail);
  }

  // Reading the state, then what the order reads back, then the untouched tail.
  lemma FixingReads(order: seq<int>, state: Term, rev: seq<Term>, tail: seq<Term>, out: seq<Term>)
    requires |order| == |rev| && ReadsBack(order, [state] + rev + tail, out)
    ensures var w := [state] + rev + tail;
      && Within([0] + order, |w|) && Reindex([0] + order, w) == [state] + out
      && w[|[0] + order|..] == tail
  {
    var w := [state] + rev + tail;
    ReindexConcat([0], order, w);
    assert Reindex([0], w) == [state];
  }

  // ---------------------------------------------------------------------------
  //  The spelling is the loop
  // ---------------------------------------------------------------------------

  lemma FixedScanArity(cell: Cell, fixing: Morph, step: Morph, nx: nat, ny: nat, n: nat)
    requires IsStep(step, nx, ny) && Good(cell, step, nx) && n >= 1
    requires WF(fixing) && In(fixing) == Out(fixing) == 1 + Groups(n, ny)
    ensures ScanArity(Steps(cell, nx, ny, n, 0) + NonId(fixing), nx, ny, n)
  {
    hide AllWF, SeqIn, SeqDelta, WF, In, Out, Steps, Good, Groups;
    StepsArity(cell, step, nx, ny, n, 0);
    NoArity();
    if fixing.Id? {
      NilConcat(Steps(cell, nx, ny, n, 0));
    } else {
      SeqSnocArity(Steps(cell, nx, ny, n, 0), fixing);
    }
  }

  lemma NoArity()
    ensures SeqIn([]) == 0
  {
  }

  // The arity of a loop over n groups, for the parts of a composition.
  ghost predicate ScanArity(ps: seq<Morph>, nx: nat, ny: nat, n: nat) {
    ps != [] && AllWF(ps) && SeqIn(ps) == 1 + Groups(n, nx) && SeqIn(ps) + SeqDelta(ps) == 1 + Groups(n, ny)
  }

  ghost predicate RunsAsLoop(ps: seq<Morph>, step: Morph, nx: nat, ny: nat, n: nat, s: Term, xs: seq<Term>)
    requires IsStep(step, nx, ny) && Groups(n, nx) <= |xs|
  {
    && AllWF(ps) && SeqIn(ps) <= |[s] + xs|
    && ApplySeq(ps, [s] + xs) == ApplyLoop(step, n, nx, ny, s, xs)
  }

  lemma FixedScan(cell: Cell, fixing: Morph, step: Morph, nx: nat, ny: nat, n: nat, s: Term, xs: seq<Term>)
    requires IsStep(step, nx, ny) && Good(cell, step, nx) && Groups(n, nx) <= |xs| && fixing == Fixing(n, ny)
    ensures RunsAsLoop(Steps(cell, nx, ny, n, 0) + NonId(fixing), step, nx, ny, n, s, xs)
  {
    var run := ApplyLoop(step, n, nx, ny, s, xs);
    NilConcat([s]);
    StepsApply(cell, step, nx, ny, n, s, [], xs);
    UnrolledIsSpread(step, nx, ny, n, s, [], xs);
    FixingApply(run[0], run[1..], n, ny);
    HeadTail(run);
    CloseSteps(Steps(cell, nx, ny, n, 0), fixing, [s] + xs);
  }

  // A composite, then a permutation whose identity form is left out.
  lemma CloseSteps(steps: seq<Morph>, fixing: Morph, w: seq<Term>)
    requires AllWF(steps) && SeqIn(steps) <= |w| && WF(fixing)
    requires In(fixing) == Out(fixing) <= |w| + SeqDelta(steps)
    ensures AllWF(steps + NonId(fixing)) && SeqIn(steps + NonId(fixing)) <= |w|
    ensures ApplySeq(steps + NonId(fixing), w) == Apply(fixing, ApplySeq(steps, w))
  {
    hide ApplySeq, SeqIn, SeqDelta, AllWF;
    if fixing.Id? {
      NilConcat(steps);
    } else {
      SeqSnocArity(steps, fixing);
      SeqSnoc(steps, fixing, w);
    }
  }

  lemma FixingArity(n: nat, ny: nat)
    ensures WF(Fixing(n, ny)) && In(Fixing(n, ny)) == Out(Fixing(n, ny)) == 1 + Groups(n, ny)
  {
    FixingIsPerm(n, ny);
    PermOfArity([0] + BlockOrder(n, ny));
  }

  // The spelled scan has the loop's arity and the loop's action.
  lemma UnrollRefinesLoop(step: Morph, nx: nat, ny: nat, n: nat)
    requires IsStep(step, nx, ny) && n >= 1
    ensures Equiv(Spelled(step, n), Loop(step, n, nx, ny))
  {
    var m, cell := SpelledAs(step, nx, ny, n);
    CellsRefineLoop(m, cell, step, nx, ny, n);
  }

  // The spelling in terms of any function that gives each step's parts.
  lemma SpelledAs(step: Morph, nx: nat, ny: nat, n: nat) returns (m: Morph, cell: Cell)
    requires IsStep(step, nx, ny) && n >= 1
    ensures m == Spelled(step, n) && m == SeqOf(Steps(cell, nx, ny, n, 0) + NonId(Fixing(n, ny)))
    ensures Good(cell, step, nx)
  {
    hide SeqOf, Steps, Fixing, NonId, ScanCell, Good;
    ScanCellGood(step, nx);
    m, cell := Spelled(step, n), ScanCell(step, nx);
  }

  lemma CellsRefineLoop(m: Morph, cell: Cell, step: Morph, nx: nat, ny: nat, n: nat)
    requires IsStep(step, nx, ny) && Good(cell, step, nx) && n >= 1
    requires m == SeqOf(Steps(cell, nx, ny, n, 0) + NonId(Fixing(n, ny)))
    ensures Equiv(m, Loop(step, n, nx, ny))
  {
    var fixing := Fixing(n, ny);
    FixingArity(n, ny);
    FixedScanArity(cell, fixing, step, nx, ny, n);
    FixedScanRuns(cell, fixing, step, nx, ny, n);
    PartsRefineLoop(Steps(cell, nx, ny, n, 0) + NonId(fixing), step, nx, ny, n);
  }

  lemma FixedScanRuns(cell: Cell, fixing: Morph, step: Morph, nx: nat, ny: nat, n: nat)
    requires IsStep(step, nx, ny) && Good(cell, step, nx) && n >= 1 && fixing == Fixing(n, ny)
    ensures AllRunsAsLoop(Steps(cell, nx, ny, n, 0) + NonId(fixing), step, nx, ny, n)
  {
    forall s: Term, xs: seq<Term> | Groups(n, nx) <= |xs|
      ensures RunsAsLoop(Steps(cell, nx, ny, n, 0) + NonId(fixing), step, nx, ny, n, s, xs)
    {
      FixedScan(cell, fixing, step, nx, ny, n, s, xs);
    }
  }

  ghost predicate AllRunsAsLoop(ps: seq<Morph>, step: Morph, nx: nat, ny: nat, n: nat)
    requires IsStep(step, nx, ny)
  {
    forall s: Term, xs: seq<Term> :: Groups(n, nx) <= |xs| ==> RunsAsLoop(ps, step, nx, ny, n, s, xs)
  }

  lemma PartsRefineLoop(ps: seq<Morph>, step: Morph, nx: nat, ny: nat, n: nat)
    requires IsStep(step, nx, ny) && n >= 1 && ScanArity(ps, nx, ny, n) && AllRunsAsLoop(ps, step, nx, ny, n)
    ensures Equiv(SeqOf(ps), Loop(step, n, nx, ny))
  {
    hide SeqOf, Apply, WF, In, Out, AllWF, SeqIn, SeqDelta, ApplySeq, AllRunsAsLoop, IsStep;
    LoopShape(step, nx, ny, n);
    SeqOfLaw(ps);
    forall w: seq<Term> | In(SeqOf(ps)) <= |w|
      ensures Apply(SeqOf(ps), w) == Apply(Loop(step, n, nx, ny), w)
    {
      SeqOfApply(ps, w);
      PartsRun(ps, step, nx, ny, n, w);
    }
  }

  lemma LoopShape(step: Morph, nx: nat, ny: nat, n: nat)
    requires IsStep(step, nx, ny) && n >= 1
    ensures var loop := Loop(step, n, nx, ny);
      WF(loop) && In(loop) == 1 + Groups(n, nx) >= 1 && Out(loop) == 1 + Groups(n, ny)
  {
    hide Groups;
  }

  lemma PartsRun(ps: seq<Morph>, step: Morph, nx: nat, ny: nat, n: nat, w: seq<Term>)
    requires IsStep(step, nx, ny) && n >= 1 && AllRunsAsLoop(ps, step, nx, ny, n) && 1 + Groups(n, nx) <= |w|
    ensures AllWF(ps) && SeqIn(ps) <= |w| && WF(Loop(step, n, nx, ny)) && In(Loop(step, n, nx, ny)) <= |w|
    ensures ApplySeq(ps, w) == Apply(Loop(step, n, nx, ny), w)
  {
    hide ApplySeq, AllWF, SeqIn, ApplyLoop, Groups;
    LoopShape(step, nx, ny, n);
    assert RunsAsLoop(ps, step, nx, ny, n, w[0], w[1..]);
    HeadTail(w);
  }

  lemma HeadTail<T>(w: seq<T>)
    requires w != []
    ensures w == [w[0]] + w[1..]
  {
  }
}
