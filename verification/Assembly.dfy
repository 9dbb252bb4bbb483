// The assembled program: several folded chains, the blocks no chain covers, a
// drop segment, a scan permutation and the concat tree, glued into one closed
// morphism that expands to the rebuilt term.

module Assembly {
  import opened Wrappers
  import opened Terms
  import opened Morphisms
  import opened Constructors
  import opened Census
  import opened Segments
  import opened Bridge
  import opened Unroll
  import opened LoopRules
  import opened ConcatTree
  import opened Skeleton

  // ---------------------------------------------------------------------------
  //  One fold, by value
  // ---------------------------------------------------------------------------

  // The synthesised step: a pack of the next state and the block output, over
  // the state wire and the block's wires.
  datatype Schema = Schema(step: Term, inputs: seq<Term>)
  {
    predicate Valid() {
      && |inputs| >= 2 && Distinct(inputs) && (forall x :: x in inputs ==> !x.Op?)
      && IsPack(step) && |step.args| == 2 && !BareRoot(step, inputs)
    }

    function Width(): int {
      |inputs| - 1
    }

    // One application of the step: the next state and the block output.
    function Instance(s: Term, row: seq<Term>): (Term, Term)
      requires Valid() && |row| == Width()
    {
      var env := Binding(inputs, [s] + row);
      (Subst(step.args[0], env), Subst(step.args[1], env))
    }

    predicate Rows(rows: seq<seq<Term>>) {
      forall i :: 0 <= i < |rows| ==> |rows[i]| == Width()
    }

    function Final(s: Term, rows: seq<seq<Term>>): Term
      requires Valid() && Rows(rows)
      decreases |rows|
    {
      if rows == [] then s else Final(Instance(s, rows[0]).0, rows[1..])
    }

    function Outs(s: Term, rows: seq<seq<Term>>): (r: seq<Term>)
      requires Valid() && Rows(rows)
      ensures |r| == |rows|
      decreases |rows|
    {
      if rows == [] then []
      else [Instance(s, rows[0]).1] + Outs(Instance(s, rows[0]).0, rows[1..])
    }

    // The compiled step, as the assembler receives it.
    ghost predicate Compiled(m: Morph)
      requires Valid()
    {
      Rewires(m, inputs, inputs, step.args) && In(m) == |inputs| && Out(m) == 2
    }

    // What one copy of the compiled step holds: an arrow for each of the step's
    // ops, its closed leaves as generators, no loop.
    ghost predicate Counted(m: Morph) {
      Tally(m, Arrs) == |NodesOf(step)| && Tally(m, Loops) == 0 && Mints(m, step, inputs)
    }

    function ClosedLeaf(t: Term): bool {
      t in Subterms(step) && !t.Op? && t !in inputs
    }

    method Compile() returns (m: Morph)
      requires Valid()
      ensures Compiled(m) && Counted(m)
    {
      m := CompileWithInputs(step, inputs);
    }
  }

  function FlatRows(rows: seq<seq<Term>>): seq<Term> {
    if rows == [] then [] else rows[0] + FlatRows(rows[1..])
  }

  lemma {:induction false} FlatRowsSize(sc: Schema, rows: seq<seq<Term>>)
    requires sc.Rows(rows)
    ensures |FlatRows(rows)| == Groups(|rows|, sc.Width())
  {
    if rows == [] {
    } else {
      FlatRowsSize(sc, rows[1..]);
    }
  }

  lemma StepApply(sc: Schema, m: Morph, s: Term, row: seq<Term>)
    requires sc.Valid() && sc.Compiled(m) && |row| == sc.Width()
    ensures Apply(m, [s] + row) == [sc.Instance(s, row).0, sc.Instance(s, row).1]
  {
    hide Apply, In, Out, WF, Rewires;
    var ws := [s] + row;
    OpenCompilationIsSubstitution(m, sc.inputs, sc.step.args, ws, []);
    NilConcat(ws);
    NilConcat(SubstAll(sc.step.args, Binding(sc.inputs, ws)));
  }

  // The loop over a chain computes the chain's expansion.
  lemma {:induction false} LoopExpands(sc: Schema, m: Morph, s: Term, rows: seq<seq<Term>>)
    requires sc.Valid() && sc.Compiled(m) && sc.Rows(rows)
    ensures Groups(|rows|, sc.Width()) == |FlatRows(rows)|
    ensures ApplyLoop(m, |rows|, sc.Width(), 1, s, FlatRows(rows)) == [sc.Final(s, rows)] + sc.Outs(s, rows)
    decreases |rows|
  {
    hide Apply, In, Out, WF, Rewires, Schema.Instance, ApplyLoop;
    CompiledIsStep(sc, m);
    FlatRowsSize(sc, rows);
    if rows == [] {
      LoopNone(m, sc.Width(), s);
    } else {
      var next := sc.Instance(s, rows[0]);
      StepApply(sc, m, s, rows[0]);
      FlatRowsSize(sc, rows[1..]);
      LoopExpands(sc, m, next.0, rows[1..]);
      LoopCons(m, |rows|, sc.Width(), s, rows[0], FlatRows(rows[1..]), next.0, next.1,
               sc.Final(next.0, rows[1..]), sc.Outs(next.0, rows[1..]));
    }
  }

  lemma CompiledIsStep(sc: Schema, m: Morph)
    requires sc.Valid() && sc.Compiled(m)
    ensures IsStep(m, sc.Width(), 1)
  {
  }

  lemma LoopNone(m: Morph, nx: nat, s: Term)
    requires IsStep(m, nx, 1)
    ensures Groups(0, nx) == 0 && ApplyLoop(m, 0, nx, 1, s, []) == [s] + []
  {
  }

  lemma LoopCons(m: Morph, n: nat, nx: nat, s: Term, row: seq<Term>, more: seq<Term>, a: Term, b: Term, f: Term, outs: seq<Term>)
    requires IsStep(m, nx, 1) && n > 0 && |row| == nx && Groups(n - 1, nx) == |more|
    requires Apply(m, [s] + row) == [a, b] && ApplyLoop(m, n - 1, nx, 1, a, more) == [f] + outs
    ensures Groups(n, nx) == |row + more| && ApplyLoop(m, n, nx, 1, s, row + more) == [f] + ([b] + outs)
  {
    hide Apply, WF, In, Out;
    SplitPrefix(row, more, nx);
    assert row[..nx] == row && row[nx..] + more == more;
    assert [a, b][1..] == [b] && ([f] + outs)[1..] == outs;
    ConcatAssoc([f], [b], outs);
  }

  // The wires one fold consumes, and the ones it leaves.
  datatype Fold = Fold(seed: Term, rows: seq<seq<Term>>)

  function FoldIn(f: Fold): seq<Term> {
    [f.seed] + FlatRows(f.rows)
  }

  function FoldOut(sc: Schema, f: Fold): (r: seq<Term>)
    requires sc.Valid() && sc.Rows(f.rows)
    ensures |r| == 1 + |f.rows|
  {
    [sc.Final(f.seed, f.rows)] + sc.Outs(f.seed, f.rows)
  }

  predicate FoldsFit(sc: Schema, folds: seq<Fold>) {
    forall i :: 0 <= i < |folds| ==> folds[i].rows != [] && sc.Rows(folds[i].rows)
  }

  lemma SpelledFold(sc: Schema, m: Morph, f: Fold)
    requires sc.Valid() && sc.Compiled(m) && sc.Rows(f.rows) && f.rows != []
    ensures WF(Spelled(m, |f.rows|)) && In(Spelled(m, |f.rows|)) == |FoldIn(f)|
    ensures Out(Spelled(m, |f.rows|)) == 1 + |f.rows|
    ensures Apply(Spelled(m, |f.rows|), FoldIn(f)) == FoldOut(sc, f)
  {
    hide Spelled, Schema.Final, Schema.Outs, Rewires, FlatRows, Equiv, Apply, WF, In, Out, ApplyLoop;
    var n := |f.rows|;
    CompiledIsStep(sc, m);
    UnrollRefinesLoop(m, sc.Width(), 1, n);
    LoopExpands(sc, m, f.seed, f.rows);
    GroupsOfOne(n);
    LoopOnFold(m, n, sc.Width(), f.seed, FlatRows(f.rows));
  }

  lemma {:induction false} GroupsOfOne(n: nat)
    ensures Groups(n, 1) == n
  {
    if n == 0 {
    } else {
      GroupsOfOne(n - 1);
    }
  }

  lemma LoopOnFold(m: Morph, n: nat, nx: nat, s: Term, xs: seq<Term>)
    requires IsStep(m, nx, 1) && n >= 1 && Groups(n, nx) == |xs|
    requires Equiv(Spelled(m, n), Loop(m, n, nx, 1))
    ensures WF(Spelled(m, n)) && In(Spelled(m, n)) == 1 + |xs| && Out(Spelled(m, n)) == 1 + Groups(n, 1)
    ensures Apply(Spelled(m, n), [s] + xs) == ApplyLoop(m, n, nx, 1, s, xs)
  {
    hide Spelled, ApplyLoop, Groups, Apply, WF, In, Out;
    LoopFacts(m, n, nx, s, xs);
  }

  lemma LoopFacts(m: Morph, n: nat, nx: nat, s: Term, xs: seq<Term>)
    requires IsStep(m, nx, 1) && n >= 1 && Groups(n, nx) == |xs|
    ensures var loop := Loop(m, n, nx, 1);
      && WF(loop) && In(loop) == 1 + |xs| && Out(loop) == 1 + Groups(n, 1)
      && Apply(loop, [s] + xs) == ApplyLoop(m, n, nx, 1, s, xs)
  {
    hide ApplyLoop, Groups;
    assert ([s] + xs)[0] == s && ([s] + xs)[1..] == xs;
  }

  // ---------------------------------------------------------------------------
  //  The folds side by side
  // ---------------------------------------------------------------------------

  function AllIn(folds: seq<Fold>): seq<Term> {
    if folds == [] then [] else FoldIn(folds[0]) + AllIn(folds[1..])
  }

  function AllOut(sc: Schema, folds: seq<Fold>): seq<Term>
    requires sc.Valid() && FoldsFit(sc, folds)
  {
    if folds == [] then [] else FoldOut(sc, folds[0]) + AllOut(sc, folds[1..])
  }

  function AllKept(sc: Schema, folds: seq<Fold>): seq<Term>
    requires sc.Valid() && FoldsFit(sc, folds)
  {
    if folds == [] then [] else sc.Outs(folds[0].seed, folds[0].rows) + AllKept(sc, folds[1..])
  }

  function MidParts(m: Morph, folds: seq<Fold>, k: int): seq<Morph> {
    if folds == [] then [Id(k)] else [Spelled(m, |folds[0].rows|)] + MidParts(m, folds[1..], k)
  }

  function DropParts(folds: seq<Fold>, k: int): seq<Morph> {
    if folds == [] then [Id(k)] else [Drop, Id(|folds[0].rows|)] + DropParts(folds[1..], k)
  }

  lemma {:induction false} MidApply(sc: Schema, m: Morph, folds: seq<Fold>, extras: seq<Term>)
    requires sc.Valid() && sc.Compiled(m) && FoldsFit(sc, folds)
    ensures var ps := MidParts(m, folds, |extras|);
      && AllWF(ps) && ParIn(ps) == |AllIn(folds) + extras|
      && ApplyPar(ps, AllIn(folds) + extras) == AllOut(sc, folds) + extras
    decreases |folds|
  {
    hide Apply, In, Out, WF, AllWF, ParIn, ParOut, ApplyPar, Spelled, FoldIn, FoldOut, Rewires, Schema.Compiled,
         Schema.Valid;
    if folds == [] {
      IdAlone(extras);
    } else {
      var f := folds[0];
      SpelledFold(sc, m, f);
      MidApply(sc, m, folds[1..], extras);
      var rest := MidParts(m, folds[1..], |extras|);
      ParCons(Spelled(m, |f.rows|), rest, FoldIn(f), AllIn(folds[1..]) + extras);
      ConsArity(Spelled(m, |f.rows|), rest);
      ConcatAssoc(FoldIn(f), AllIn(folds[1..]), extras);
      ConcatAssoc(FoldOut(sc, f), AllOut(sc, folds[1..]), extras);
    }
  }

  lemma IdAlone(extras: seq<Term>)
    ensures AllWF([Id(|extras|)]) && ParIn([Id(|extras|)]) == |extras|
    ensures ApplyPar([Id(|extras|)], [] + extras) == [] + extras
  {
    SingletonPar(Id(|extras|), extras);
    NilConcat(extras);
  }

  lemma ConsArity(p: Morph, ps: seq<Morph>)
    ensures ParIn([p] + ps) == In(p) + ParIn(ps) && ParOut([p] + ps) == Out(p) + ParOut(ps)
  {
    assert ([p] + ps)[1..] == ps;
  }

  lemma {:induction false} DropApply(sc: Schema, folds: seq<Fold>, extras: seq<Term>)
    requires sc.Valid() && FoldsFit(sc, folds)
    ensures var ps := DropParts(folds, |extras|);
      && AllWF(ps) && ParIn(ps) == |AllOut(sc, folds) + extras|
      && ApplyPar(ps, AllOut(sc, folds) + extras) == AllKept(sc, folds) + extras
    decreases |folds|
  {
    hide Apply, WF, AllWF, ParIn, ParOut, ApplyPar, Schema.Valid, Schema.Final, Schema.Outs;
    if folds == [] {
      IdAlone(extras);
    } else {
      var f, rest := folds[0], DropParts(folds[1..], |extras|);
      DropApply(sc, folds[1..], extras);
      var more := AllOut(sc, folds[1..]) + extras;
      var outs := sc.Outs(f.seed, f.rows);
      DropOne(sc.Final(f.seed, f.rows), outs, rest, more, AllKept(sc, folds[1..]) + extras);
      assert [Drop, Id(|f.rows|)] + rest == [Drop] + ([Id(|outs|)] + rest);
      ConcatAssoc(FoldOut(sc, f), AllOut(sc, folds[1..]), extras);
      ConcatAssoc(outs, AllKept(sc, folds[1..]), extras);
    }
  }

  lemma DropOne(s: Term, outs: seq<Term>, rest: seq<Morph>, w: seq<Term>, r: seq<Term>)
    requires AllWF(rest) && ParIn(rest) == |w| && ApplyPar(rest, w) == r
    ensures var ps := [Drop] + ([Id(|outs|)] + rest);
      && AllWF(ps) && ParIn(ps) == |[s] + outs + w|
      && ApplyPar(ps, [s] + outs + w) == outs + r
  {
    var ps := [Id(|outs|)] + rest;
    ParCons(Id(|outs|), rest, outs, w);
    ConsArity(Id(|outs|), rest);
    ParCons(Drop, ps, [s], outs + w);
    ConsArity(Drop, ps);
    ConcatAssoc([s], outs, w);
    assert Apply(Drop, [s]) == [];
    NilConcat(outs + r);
  }

  // ---------------------------------------------------------------------------
  //  The stages of the program, by what they turn into what
  // ---------------------------------------------------------------------------

  ghost predicate Runs(m: Morph, a: seq<Term>, b: seq<Term>) {
    WF(m) && In(m) == |a| && Out(m) == |b| && Apply(m, a) == b
  }

  ghost predicate RunsAll(ps: seq<Morph>, a: seq<Term>, b: seq<Term>) {
    AllWF(ps) && SeqIn(ps) <= |a| && |a| + SeqDelta(ps) == |b| && ApplySeq(ps, a) == b
  }

  lemma RunsCons(p: Morph, ps: seq<Morph>, a: seq<Term>, b: seq<Term>, c: seq<Term>)
    requires Runs(p, a, b) && RunsAll(ps, b, c)
    ensures RunsAll([p] + ps, a, c) && SeqIn([p] + ps) == |a|
  {
    hide Apply, WF, In, Out;
    assert ([p] + ps)[1..] == ps;
  }

  lemma RunsSeqOf(ps: seq<Morph>, a: seq<Term>, b: seq<Term>)
    requires ps != [] && RunsAll(ps, a, b) && SeqIn(ps) == |a|
    ensures Runs(SeqOf(ps), a, b)
  {
    hide Apply, WF, In, Out, SeqOf, ApplySeq, SeqIn, SeqDelta, AllWF;
    SeqOfLaw(ps);
    SeqOfApply(ps, a);
  }

  lemma RunsPair(p: Morph, q: Morph, a: seq<Term>, b: seq<Term>, c: seq<Term>)
    requires Runs(p, a, b) && Runs(q, b, c)
    ensures Runs(SeqOf([p, q]), a, c)
  {
    hide Runs, SeqOf;
    assert RunsAll([], c, c);
    RunsCons(q, [], b, c, c);
    NilConcat([q]);
    RunsCons(p, [q], a, b, c);
    assert [p] + [q] == [p, q];
    RunsSeqOf([p, q], a, c);
  }

  lemma RunsTriple(p: Morph, q: Morph, r: Morph, a: seq<Term>, b: seq<Term>, c: seq<Term>, d: seq<Term>)
    requires Runs(p, a, b) && Runs(q, b, c) && Runs(r, c, d)
    ensures Runs(SeqOf([p, q, r]), a, d)
  {
    hide Runs, SeqOf;
    assert RunsAll([], d, d);
    RunsCons(r, [], c, d, d);
    NilConcat([r]);
    RunsCons(q, [r], b, c, d);
    assert [q] + [r] == [q, r] && [p] + [q, r] == [p, q, r];
    RunsCons(p, [q, r], a, b, d);
    RunsSeqOf([p, q, r], a, d);
  }

  // An empty composition at the end of a list dissolves.
  lemma EmptyTailDissolves(p: Morph, q: Morph)
    ensures SeqOf([p, q, Seq([])]) == SeqOf([p, q])
  {
    assert [p, q, Seq([])] == [p, q] + [Seq([])];
    FlatSeqConcat([p, q], [Seq([])]);
    assert [Seq([])][1..] == [];
    NilConcat(FlatSeq([p, q]));
  }

  lemma RunsParOf(ps: seq<Morph>, a: seq<Term>, b: seq<Term>)
    requires AllWF(ps) && ParIn(ps) == |a| && ApplyPar(ps, a) == b
    ensures Runs(ParOf(ps), a, b)
  {
    hide Apply, WF, In, Out, ParOf;
    ParOfLaw(ps);
    ParOfApply(ps, a);
  }

  lemma PreRuns(leaves: seq<Term>)
    ensures Runs(ParOf(Generators(leaves)), [], leaves)
  {
    GeneratorsApply(leaves, []);
    NilConcat(leaves);
    RunsParOf(Generators(leaves), [], leaves);
  }

  lemma TreeRuns(tree: Morph, skel: Tree, vals: seq<Term>)
    requires Fits(skel, |vals|) && Evaluates(tree, skel, |vals|) && tree != Seq([])
    ensures Runs(tree, vals, [Rebuild(skel, vals)])
  {
    hide Rebuild, Fits, Apply, WF, In, Out;
  }

  lemma PostRuns(drop: Morph, perm: Morph, tree: Morph, skel: Tree, w1: seq<Term>, w2: seq<Term>, vals: seq<Term>)
    requires Runs(drop, w1, w2) && Runs(perm, w2, vals)
    requires Fits(skel, |vals|) && Evaluates(tree, skel, |vals|)
    ensures Runs(SeqOf([drop, perm, tree]), w1, [Rebuild(skel, vals)])
  {
    if tree == Seq([]) {
      EmptyTailDissolves(drop, perm);
      RunsPair(drop, perm, w1, w2, vals);
      assert vals == [vals[0]];
    } else {
      hide Runs, SeqOf, Evaluates;
      TreeRuns(tree, skel, vals);
      RunsTriple(drop, perm, tree, w1, w2, vals, [Rebuild(skel, vals)]);
    }
  }

  // ---------------------------------------------------------------------------
  //  The scan permutation
  // ---------------------------------------------------------------------------

  // Each leaf is read where its block's wire sits.
  ghost predicate ReadsLeaves(order: seq<int>, base: seq<int>, leaves: seq<Tree>) {
    && |order| == |leaves|
    && forall l :: 0 <= l < |order| ==> 0 <= order[l] < |base| && leaves[l].At? && base[order[l]] == leaves[l].i
  }

  // Wires arrive as vals[base[0]], vals[base[1]], ...; reading them at the
  // positions where base holds 0, 1, ... puts them in order.
  ghost predicate Inverts(order: seq<int>, base: seq<int>) {
    |order| == |base| && forall l :: 0 <= l < |order| ==> 0 <= order[l] < |base| && base[order[l]] == l
  }

  lemma InverseIsPerm(order: seq<int>, base: seq<int>)
    requires Inverts(order, base)
    ensures IsPerm(order)
  {
    forall i, j | 0 <= i < j < |order|
      ensures order[i] != order[j]
    {
      assert base[order[i]] != base[order[j]];
    }
  }

  // Reading the leaves inverts the arrival order when they are in order; a
  // block read twice is one wire read twice.
  lemma LeavesInOrder(order: seq<int>, base: seq<int>)
    requires ReadsLeaves(order, base, Ats(0, |base|))
    ensures Inverts(order, base)
  {
  }

  lemma RepeatedScan(order: seq<int>, base: seq<int>, blocks: seq<Term>)
    requires ReadsLeaves(order, base, Firsts(blocks, blocks)) && Distinct(base) && !Distinct(blocks)
    ensures !WF(PermOf(order)) && PermOf(order).Perm?
  {
    hide Find;
    var i, j :| 0 <= i < j < |blocks| && blocks[i] == blocks[j];
    assert Firsts(blocks, blocks)[i] == Firsts(blocks, blocks)[j];
    SameWire(order, base, Firsts(blocks, blocks), i, j);
  }

  lemma SameWire(order: seq<int>, base: seq<int>, leaves: seq<Tree>, i: nat, j: nat)
    requires ReadsLeaves(order, base, leaves) && Distinct(base) && i < j < |leaves| && leaves[i] == leaves[j]
    ensures !IsPerm(order) && !InOrder(order)
  {
    assert base[order[i]] == base[order[j]];
    assert order[i] == order[j];
  }

  ghost predicate Arrives(w: seq<Term>, base: seq<int>, vals: seq<Term>) {
    |w| == |base| == |vals| && forall j :: 0 <= j < |base| ==> 0 <= base[j] < |vals| && w[j] == vals[base[j]]
  }

  lemma ScanRuns(order: seq<int>, base: seq<int>, w: seq<Term>, vals: seq<Term>)
    requires Inverts(order, base) && Arrives(w, base, vals)
    ensures Runs(PermOf(order), w, vals)
  {
    InverseIsPerm(order, base);
    PermOfApply(order, w);
    assert w[|order|..] == [];
    assert Reindex(order, w) == vals;
    NilConcat(vals);
  }

  // ---------------------------------------------------------------------------
  //  Chains
  // ---------------------------------------------------------------------------

  // A run of blocks folded by one loop: the term entering its first block, and
  // whether every block's expansion was verified.
  datatype Chain = Chain(blocks: seq<int>, seed: Term, ok: bool)

  function Covered(chains: seq<Chain>): seq<int> {
    if chains == [] then [] else chains[0].blocks + Covered(chains[1..])
  }

  predicate Bound(sc: Schema, blocks: seq<int>, bindings: seq<seq<Term>>) {
    forall j :: 0 <= j < |blocks| ==> 0 <= blocks[j] < |bindings| && |bindings[blocks[j]]| == sc.Width()
  }

  predicate ChainsFit(sc: Schema, chains: seq<Chain>, bindings: seq<seq<Term>>) {
    && Distinct(Covered(chains))
    && forall c :: 0 <= c < |chains| ==> chains[c].blocks != [] && Bound(sc, chains[c].blocks, bindings)
  }

  function RowsOf(blocks: seq<int>, bindings: seq<seq<Term>>): (r: seq<seq<Term>>)
    requires Within(blocks, |bindings|)
    ensures |r| == |blocks| && forall j :: 0 <= j < |blocks| ==> r[j] == bindings[blocks[j]]
  {
    seq(|blocks|, j requires 0 <= j < |blocks| => bindings[blocks[j]])
  }

  function ChainOuts(sc: Schema, c: Chain, bindings: seq<seq<Term>>): (r: seq<Term>)
    requires sc.Valid() && Bound(sc, c.blocks, bindings)
    ensures |r| == |c.blocks|
  {
    sc.Outs(c.seed, RowsOf(c.blocks, bindings))
  }

  // The expansion table holds a chain's outputs at its blocks.
  ghost predicate Recorded(sc: Schema, c: Chain, bindings: seq<seq<Term>>, expanded: map<int, Term>)
    requires sc.Valid() && Bound(sc, c.blocks, bindings)
  {
    forall j :: 0 <= j < |c.blocks| ==>
      c.blocks[j] in expanded && expanded[c.blocks[j]] == ChainOuts(sc, c, bindings)[j]
  }

  lemma OutsFrom(sc: Schema, s: Term, rows: seq<seq<Term>>, j: nat)
    requires sc.Valid() && sc.Rows(rows) && j < |rows|
    ensures var inst := sc.Instance(s, rows[j]);
      sc.Outs(s, rows[j..]) == [inst.1] + sc.Outs(inst.0, rows[j + 1..])
  {
    hide Schema.Instance;
    assert rows[j..][0] == rows[j] && rows[j..][1..] == rows[j + 1..];
  }

  lemma NoRows(sc: Schema, s: Term, rows: seq<seq<Term>>)
    requires sc.Valid() && sc.Rows(rows)
    ensures sc.Outs(s, rows[|rows|..]) == []
  {
  }

  // After j blocks the table holds their outputs, and is otherwise unchanged.
  ghost predicate Tracks(blocks: seq<int>, before: map<int, Term>, expanded: map<int, Term>, done: seq<Term>, j: nat)
    requires j <= |blocks|
  {
    && |done| == j
    && (forall k :: 0 <= k < j ==> blocks[k] in expanded && expanded[blocks[k]] == done[k])
    && (forall i :: i in expanded <==> i in before || i in blocks[..j])
    && forall i :: i in before && i !in blocks[..j] ==> expanded[i] == before[i]
  }

  lemma TracksStep(blocks: seq<int>, before: map<int, Term>, expanded: map<int, Term>, done: seq<Term>, j: nat, t: Term)
    requires j < |blocks| && Distinct(blocks) && Tracks(blocks, before, expanded, done, j)
    ensures Tracks(blocks, before, expanded[blocks[j] := t], done + [t], j + 1)
  {
    assert blocks[..j + 1] == blocks[..j] + [blocks[j]];
  }

  // Expand one chain block by block, carrying the state.
  method ExpandChain(sc: Schema, c: Chain, bindings: seq<seq<Term>>, before: map<int, Term>) returns (expanded: map<int, Term>)
    requires sc.Valid() && Bound(sc, c.blocks, bindings) && Distinct(c.blocks)
    ensures Recorded(sc, c, bindings, expanded)
    ensures forall i :: i in expanded <==> i in before || i in c.blocks
    ensures forall i :: i in before && i !in c.blocks ==> expanded[i] == before[i]
  {
    hide Schema.Instance, Schema.Outs, Schema.Valid, Tracks, Recorded, Distinct;
    var rows := RowsOf(c.blocks, bindings);
    var s := c.seed;
    expanded := before;
    assert rows[0..] == rows;
    ghost var done: seq<Term> := [];
    TracksNone(c.blocks, before);
    for j := 0 to |rows|
      invariant |done| == j && done + sc.Outs(s, rows[j..]) == sc.Outs(c.seed, rows)
      invariant Tracks(c.blocks, before, expanded, done, j)
    {
      var inst := sc.Instance(s, rows[j]);
      OutsFrom(sc, s, rows, j);
      ConcatAssoc(done, [inst.1], sc.Outs(inst.0, rows[j + 1..]));
      TracksStep(c.blocks, before, expanded, done, j, inst.1);
      done := done + [inst.1];
      s := inst.0;
      expanded := expanded[c.blocks[j] := inst.1];
    }
    NoRows(sc, s, rows);
    NilConcat(done);
    TracksAll(sc, c, bindings, before, expanded);
  }

  lemma TracksNone(blocks: seq<int>, before: map<int, Term>)
    ensures Tracks(blocks, before, before, [], 0)
  {
  }

  lemma TracksAll(sc: Schema, c: Chain, bindings: seq<seq<Term>>, before: map<int, Term>, expanded: map<int, Term>)
    requires sc.Valid() && Bound(sc, c.blocks, bindings)
    requires Tracks(c.blocks, before, expanded, ChainOuts(sc, c, bindings), |c.blocks|)
    ensures Recorded(sc, c, bindings, expanded)
    ensures forall i :: i in expanded <==> i in before || i in c.blocks
    ensures forall i :: i in before && i !in c.blocks ==> expanded[i] == before[i]
  {
    hide ChainOuts, Schema.Valid;
    assert c.blocks[..|c.blocks|] == c.blocks;
  }

  lemma CoveredSnoc(chains: seq<Chain>, c: Chain)
    ensures Covered(chains + [c]) == Covered(chains) + c.blocks
  {
    CoveredConcat(chains, [c]);
    assert [c][1..] == [];
    NilConcat(c.blocks);
  }

  lemma {:induction false} CoveredConcat(a: seq<Chain>, b: seq<Chain>)
    ensures Covered(a + b) == Covered(a) + Covered(b)
  {
    if a == [] {
      assert a + b == b;
    } else {
      assert (a + b)[1..] == a[1..] + b;
      CoveredConcat(a[1..], b);
      ConcatAssoc(a[0].blocks, Covered(a[1..]), Covered(b));
    }
  }

  // A chain's blocks, and everything before them, among distinct blocks.
  lemma ChainApart(chains: seq<Chain>, c: nat)
    requires Distinct(Covered(chains)) && c < |chains|
    ensures Distinct(chains[c].blocks) && forall i :: i in chains[c].blocks ==> i !in Covered(chains[..c])
  {
    hide Covered;
    SplitAt(chains, c);
    CoveredConcat(chains[..c] + [chains[c]], chains[c + 1..]);
    CoveredSnoc(chains[..c], chains[c]);
    DistinctPieces(Covered(chains[..c]), chains[c].blocks, Covered(chains[c + 1..]));
  }

  lemma SplitAt<T>(s: seq<T>, i: nat)
    requires i < |s|
    ensures s == s[..i] + [s[i]] + s[i + 1..]
  {
  }

  lemma DistinctPieces<T>(a: seq<T>, b: seq<T>, c: seq<T>)
    requires Distinct(a + b + c)
    ensures Distinct(a) && Distinct(b) && Distinct(a + b) && forall x :: x in b ==> x !in a
  {
    var s := a + b + c;
    assert forall i :: 0 <= i < |a + b| ==> (a + b)[i] == s[i];
    assert forall i :: 0 <= i < |a| ==> a[i] == s[i];
    assert forall i :: 0 <= i < |b| ==> b[i] == s[|a| + i];
  }

  // Expand every chain, verified or not.
  method ExpandChains(sc: Schema, chains: seq<Chain>, bindings: seq<seq<Term>>) returns (expanded: map<int, Term>)
    requires sc.Valid() && ChainsFit(sc, chains, bindings)
    ensures forall c :: 0 <= c < |chains| ==> Recorded(sc, chains[c], bindings, expanded)
    ensures forall i :: i in expanded <==> i in Covered(chains)
  {
    hide Recorded, Covered, Schema.Valid, Distinct;
    expanded := map[];
    CoveredNone();
    for c := 0 to |chains|
      invariant forall d :: 0 <= d < c ==> Recorded(sc, chains[d], bindings, expanded)
      invariant forall i :: i in expanded <==> i in Covered(chains[..c])
    {
      ChainApart(chains, c);
      assert chains[..c + 1] == chains[..c] + [chains[c]];
      CoveredSnoc(chains[..c], chains[c]);
      ghost var before := expanded;
      expanded := ExpandChain(sc, chains[c], bindings, expanded);
      forall d | 0 <= d < c
        ensures Recorded(sc, chains[d], bindings, expanded)
      {
        StaysRecorded(sc, chains, c, d, bindings, before, expanded);
      }
    }
    assert chains[..|chains|] == chains;
  }

  lemma CoveredNone()
    ensures Covered([]) == []
  {
  }

  lemma StaysRecorded(sc: Schema, chains: seq<Chain>, c: nat, d: nat, bindings: seq<seq<Term>>,
                      before: map<int, Term>, after: map<int, Term>)
    requires sc.Valid() && ChainsFit(sc, chains, bindings) && d < c < |chains|
    requires Recorded(sc, chains[d], bindings, before)
    requires forall i :: i in before ==> i in after
    requires forall i :: i in before && i !in chains[c].blocks ==> after[i] == before[i]
    ensures Recorded(sc, chains[d], bindings, after)
  {
    hide ChainOuts;
    ChainApart(chains, c);
    forall j | 0 <= j < |chains[d].blocks|
      ensures chains[d].blocks[j] !in chains[c].blocks
    {
      CoveredMember(chains[..c], d, chains[d].blocks[j]);
    }
  }

  lemma {:induction false} CoveredMember(chains: seq<Chain>, d: nat, i: int)
    requires d < |chains| && i in chains[d].blocks
    ensures i in Covered(chains)
  {
    if d == 0 {
    } else {
      CoveredMember(chains[1..], d - 1, i);
    }
  }

  // ---------------------------------------------------------------------------
  //  The verified chains as folds
  // ---------------------------------------------------------------------------

  function Verified(chains: seq<Chain>): seq<Chain> {
    if chains == [] then []
    else (if chains[0].ok then [chains[0]] else []) + Verified(chains[1..])
  }

  predicate ChainsWithin(chains: seq<Chain>, n: nat) {
    forall c :: 0 <= c < |chains| ==> Within(chains[c].blocks, n)
  }

  function FoldsOf(chains: seq<Chain>, bindings: seq<seq<Term>>): (r: seq<Fold>)
    requires ChainsWithin(chains, |bindings|)
    ensures |r| == |chains|
    ensures forall c :: 0 <= c < |chains| ==> r[c] == Fold(chains[c].seed, RowsOf(chains[c].blocks, bindings))
  {
    seq(|chains|, c requires 0 <= c < |chains| => Fold(chains[c].seed, RowsOf(chains[c].blocks, bindings)))
  }

  ghost predicate AllRecorded(sc: Schema, chains: seq<Chain>, bindings: seq<seq<Term>>, expanded: map<int, Term>)
    requires sc.Valid()
  {
    forall c :: 0 <= c < |chains| ==>
      && chains[c].blocks != [] && Bound(sc, chains[c].blocks, bindings)
      && Recorded(sc, chains[c], bindings, expanded)
  }

  lemma {:induction false} VerifiedLaw(chains: seq<Chain>)
    requires Distinct(Covered(chains))
    ensures Distinct(Covered(Verified(chains)))
    ensures forall i :: i in Covered(Verified(chains)) ==> i in Covered(chains)
    ensures forall c :: c in Verified(chains) <==> c in chains && c.ok
  {
    if chains == [] {
    } else {
      var first, rest := chains[0], chains[1..];
      DistinctApart(first.blocks, Covered(rest));
      VerifiedLaw(rest);
      if first.ok {
        assert Verified(chains)[1..] == Verified(rest);
        forall x | x in Covered(Verified(rest))
          ensures x !in first.blocks
        {
          assert x in Covered(rest);
        }
        DistinctJoin(first.blocks, Covered(Verified(rest)));
      } else {
        NilConcat(Verified(rest));
      }
    }
  }

  lemma DistinctApart<T>(a: seq<T>, b: seq<T>)
    requires Distinct(a + b)
    ensures Distinct(a) && Distinct(b) && forall x :: x in b ==> x !in a
  {
    NilConcat(a + b);
    DistinctPieces(a, b, []);
  }

  lemma DistinctJoin<T>(a: seq<T>, b: seq<T>)
    requires Distinct(a) && Distinct(b) && forall x :: x in b ==> x !in a
    ensures Distinct(a + b)
  {
    var s := a + b;
    forall i, j | 0 <= i < j < |s|
      ensures s[i] != s[j]
    {
      if i < |a| && j >= |a| {
        assert s[j] in b && s[i] in a;
      }
    }
  }

  // Wires that carry the table's entries for the listed blocks.
  ghost predicate Carry(kept: seq<Term>, at: seq<int>, expanded: map<int, Term>) {
    |kept| == |at| && forall j :: 0 <= j < |at| ==> at[j] in expanded && kept[j] == expanded[at[j]]
  }

  // What the folds leave on the wires is the expansion table, chain by chain.
  lemma {:induction false} KeptIsExpanded(sc: Schema, chains: seq<Chain>, bindings: seq<seq<Term>>, expanded: map<int, Term>)
    requires sc.Valid() && AllRecorded(sc, chains, bindings, expanded)
    ensures FoldsFit(sc, FoldsOf(chains, bindings))
    ensures Carry(AllKept(sc, FoldsOf(chains, bindings)), Covered(chains), expanded)
  {
    hide Schema.Outs, Schema.Valid, Recorded, Carry, FoldsFit, AllKept, Covered;
    if chains == [] {
      NothingKept(sc, expanded);
    } else {
      var c, rest := chains[0], FoldsOf(chains[1..], bindings);
      assert FoldsOf(chains, bindings) == [Fold(c.seed, RowsOf(c.blocks, bindings))] + rest;
      KeptIsExpanded(sc, chains[1..], bindings, expanded);
      ChainKept(sc, c, bindings, expanded);
      KeptCons(sc, Fold(c.seed, RowsOf(c.blocks, bindings)), rest);
      CoveredCons(chains);
      CarryJoin(ChainOuts(sc, c, bindings), c.blocks, AllKept(sc, rest), Covered(chains[1..]), expanded);
    }
  }

  lemma NothingKept(sc: Schema, expanded: map<int, Term>)
    requires sc.Valid()
    ensures FoldsFit(sc, []) && Carry(AllKept(sc, []), Covered([]), expanded)
  {
  }

  lemma KeptCons(sc: Schema, f: Fold, folds: seq<Fold>)
    requires sc.Valid() && FoldsFit(sc, folds) && f.rows != [] && sc.Rows(f.rows)
    ensures FoldsFit(sc, [f] + folds)
    ensures AllKept(sc, [f] + folds) == sc.Outs(f.seed, f.rows) + AllKept(sc, folds)
  {
    hide Schema.Outs, Schema.Valid;
    assert ([f] + folds)[1..] == folds;
  }

  lemma CoveredCons(chains: seq<Chain>)
    requires chains != []
    ensures Covered(chains) == chains[0].blocks + Covered(chains[1..])
  {
  }

  lemma CarryJoin(x: seq<Term>, a: seq<int>, y: seq<Term>, b: seq<int>, expanded: map<int, Term>)
    requires Carry(x, a, expanded) && Carry(y, b, expanded)
    ensures Carry(x + y, a + b, expanded)
  {
  }

  lemma ChainKept(sc: Schema, c: Chain, bindings: seq<seq<Term>>, expanded: map<int, Term>)
    requires sc.Valid() && Bound(sc, c.blocks, bindings) && Recorded(sc, c, bindings, expanded)
    ensures Carry(ChainOuts(sc, c, bindings), c.blocks, expanded)
  {
    hide ChainOuts, Schema.Valid;
  }

  // ---------------------------------------------------------------------------
  //  Wire positions
  // ---------------------------------------------------------------------------

  // A wire that leaves the folds: a covered block's output, or an extra.
  datatype Key = OfBlock(i: int) | Extra(k: int)

  ghost predicate Increasing(s: seq<int>) {
    forall i, j :: 0 <= i < j < |s| ==> s[i] < s[j]
  }

  ghost predicate Placed(at: map<Key, int>, keep: seq<int>, keys: seq<Key>, pos: int) {
    && |keep| == |keys| && Increasing(keep) && (forall j :: 0 <= j < |keep| ==> keep[j] < pos)
    && Distinct(keys) && forall j :: 0 <= j < |keys| ==> keys[j] in at && at[keys[j]] == keep[j]
  }

  function BlockKeys(blocks: seq<int>): (r: seq<Key>)
    ensures |r| == |blocks| && forall j :: 0 <= j < |blocks| ==> r[j] == OfBlock(blocks[j])
  {
    seq(|blocks|, j requires 0 <= j < |blocks| => OfBlock(blocks[j]))
  }

  function ExtraKeys(n: nat): (r: seq<Key>)
    ensures |r| == n && forall k :: 0 <= k < n ==> r[k] == Extra(k)
  {
    seq(n, k => Extra(k))
  }

  lemma PlaceOne(at: map<Key, int>, keep: seq<int>, keys: seq<Key>, pos: int, key: Key)
    requires Placed(at, keep, keys, pos) && key !in keys
    ensures Placed(at[key := pos], keep + [pos], keys + [key], pos + 1)
  {
    var all := keys + [key];
    assert forall j :: 0 <= j < |keys| ==> all[j] == keys[j] && all[j] in keys;
  }

  // Lay out the wires the folds leave: one state wire per chain, then its
  // blocks; the extras follow.  The kept positions come out in rising order.
  method PlaceWires(chains: seq<Chain>, nExtras: nat) returns (at: map<Key, int>, keep: seq<int>)
    requires Distinct(Covered(chains))
    ensures exists pos :: Placed(at, keep, BlockKeys(Covered(chains)) + ExtraKeys(nExtras), pos)
  {
    hide Placed, Covered, BlockKeys, ExtraKeys;
    at, keep := map[], [];
    var pos := 0;
    NothingPlaced();
    for c := 0 to |chains|
      invariant Placed(at, keep, BlockKeys(Covered(chains[..c])), pos)
    {
      ChainApart(chains, c);
      at, keep, pos := PlaceChain(chains, c, at, keep, pos + 1);
      assert chains[..c + 1] == chains[..c] + [chains[c]];
      CoveredSnoc(chains[..c], chains[c]);
    }
    assert chains[..|chains|] == chains;
    at, keep, pos := PlaceExtras(at, keep, pos, Covered(chains), nExtras);
  }

  lemma NothingPlaced()
    ensures Placed(map[], [], BlockKeys(Covered([])), 0)
  {
  }

  method PlaceExtras(at0: map<Key, int>, keep0: seq<int>, pos0: int, ghost covered: seq<int>, nExtras: nat)
    returns (at: map<Key, int>, keep: seq<int>, pos: int)
    requires Placed(at0, keep0, BlockKeys(covered), pos0)
    ensures Placed(at, keep, BlockKeys(covered) + ExtraKeys(nExtras), pos)
  {
    hide Placed;
    at, keep, pos := at0, keep0, pos0;
    ghost var keys := BlockKeys(covered);
    NilConcat(keys);
    for k := 0 to nExtras
      invariant Placed(at, keep, keys + ExtraKeys(k), pos) && pos == pos0 + k
    {
      assert Extra(k) !in keys + ExtraKeys(k);
      PlaceOne(at, keep, keys + ExtraKeys(k), pos, Extra(k));
      ConcatAssoc(keys, ExtraKeys(k), [Extra(k)]);
      assert ExtraKeys(k) + [Extra(k)] == ExtraKeys(k + 1);
      at, keep, pos := at[Extra(k) := pos], keep + [pos], pos + 1;
    }
  }

  method PlaceChain(chains: seq<Chain>, c: nat, at0: map<Key, int>, keep0: seq<int>, pos0: int)
    returns (at: map<Key, int>, keep: seq<int>, pos: int)
    requires c < |chains| && Distinct(chains[c].blocks)
    requires forall i :: i in chains[c].blocks ==> i !in Covered(chains[..c])
    requires Placed(at0, keep0, BlockKeys(Covered(chains[..c])), pos0 - 1)
    ensures Placed(at, keep, BlockKeys(Covered(chains[..c]) + chains[c].blocks), pos)
  {
    var blocks := chains[c].blocks;
    ghost var before := Covered(chains[..c]);
    at, keep, pos := at0, keep0, pos0;
    assert before + blocks[..0] == before;
    for j := 0 to |blocks|
      invariant Placed(at, keep, BlockKeys(before + blocks[..j]), pos)
    {
      var key := OfBlock(blocks[j]);
      KeyIsNew(before, blocks, j);
      PlaceOne(at, keep, BlockKeys(before + blocks[..j]), pos, key);
      assert before + blocks[..j + 1] == before + blocks[..j] + [blocks[j]];
      assert BlockKeys(before + blocks[..j + 1]) == BlockKeys(before + blocks[..j]) + [key];
      at, keep, pos := at[key := pos], keep + [pos], pos + 1;
    }
    assert blocks[..|blocks|] == blocks;
  }

  lemma KeyIsNew(before: seq<int>, blocks: seq<int>, j: nat)
    requires j < |blocks| && Distinct(blocks) && forall i :: i in blocks ==> i !in before
    ensures OfBlock(blocks[j]) !in BlockKeys(before + blocks[..j])
  {
    assert blocks[j] in blocks;
  }

  // The scan order: for each skeleton leaf, where its wire sits among the kept
  // ones.
  method ScanOrder(at: map<Key, int>, keep: seq<int>, covered: seq<int>, peeled: seq<int>, leaves: seq<Tree>, ghost pos: int)
    returns (order: seq<int>)
    requires Placed(at, keep, BlockKeys(covered) + ExtraKeys(|peeled|), pos)
    requires forall l :: 0 <= l < |leaves| ==> leaves[l].At? && (leaves[l].i in covered || leaves[l].i in peeled)
    ensures ReadsLeaves(order, covered + peeled, leaves)
  {
    hide Placed, ReadsLeaves;
    ghost var keys := BlockKeys(covered) + ExtraKeys(|peeled|);
    PlacedRises(at, keep, keys, pos);
    var shift := map j | 0 <= j < |keep| :: keep[j] := j;
    order := [];
    NothingRead(covered + peeled, leaves);
    for l := 0 to |leaves|
      invariant ReadsLeaves(order, covered + peeled, leaves[..l])
    {
      var i := leaves[l].i;
      var key;
      ghost var j;
      if i in peeled {
        var k := PositionIn(peeled, i);
        key := Extra(k);
        j := |covered| + k;
      } else {
        key := OfBlock(i);
        j :| 0 <= j < |covered| && covered[j] == i;
      }
      PlacedAt(at, keep, keys, pos, j);
      ReadOne(order, covered + peeled, leaves, l, shift[at[key]]);
      order := order + [shift[at[key]]];
    }
    assert leaves[..|leaves|] == leaves;
  }

  lemma NothingRead(base: seq<int>, leaves: seq<Tree>)
    ensures ReadsLeaves([], base, leaves[..0])
  {
  }

  lemma ReadOne(order: seq<int>, base: seq<int>, leaves: seq<Tree>, l: nat, at: int)
    requires l < |leaves| && ReadsLeaves(order, base, leaves[..l])
    requires 0 <= at < |base| && leaves[l].At? && base[at] == leaves[l].i
    ensures ReadsLeaves(order + [at], base, leaves[..l + 1])
  {
    assert leaves[..l + 1] == leaves[..l] + [leaves[l]];
  }

  lemma PlacedRises(at: map<Key, int>, keep: seq<int>, keys: seq<Key>, pos: int)
    requires Placed(at, keep, keys, pos)
    ensures Increasing(keep)
  {
  }

  lemma PlacedAt(at: map<Key, int>, keep: seq<int>, keys: seq<Key>, pos: int, j: int)
    requires Placed(at, keep, keys, pos) && 0 <= j < |keys|
    ensures |keep| == |keys| && keys[j] in at && at[keys[j]] == keep[j]
    ensures forall i :: 0 <= i < |keep| && keep[i] == keep[j] ==> i == j
  {
  }

  method PositionIn(s: seq<int>, x: int) returns (k: nat)
    requires x in s
    ensures k < |s| && s[k] == x
  {
    k := 0;
    assert s[..|s|] == s;
    while s[k] != x
      invariant k < |s| && x !in s[..k]
      decreases |s| - k
    {
      assert s[..k + 1] == s[..k] + [s[k]];
      k := k + 1;
    }
  }

  // ---------------------------------------------------------------------------
  //  What the program is made of
  // ---------------------------------------------------------------------------

  // The wires bound to the listed blocks.
  function BoundWires(blocks: seq<int>, bindings: seq<seq<Term>>): multiset<Term>
    requires Within(blocks, |bindings|)
  {
    if blocks == [] then multiset{} else multiset(bindings[blocks[0]]) + BoundWires(blocks[1..], bindings)
  }

  // The seeds and bound wires of the verified chains.
  function Supplied(chains: seq<Chain>, bindings: seq<seq<Term>>): multiset<Term>
    requires ChainsWithin(chains, |bindings|)
  {
    if chains == [] then multiset{}
    else
      (if chains[0].ok then multiset{chains[0].seed} + BoundWires(chains[0].blocks, bindings) else multiset{})
      + Supplied(chains[1..], bindings)
  }

  function FoldedBlocks(chains: seq<Chain>): nat {
    if chains == [] then 0 else (if chains[0].ok then |chains[0].blocks| else 0) + FoldedBlocks(chains[1..])
  }

  predicate InVerified(chains: seq<Chain>, i: int) {
    exists c :: 0 <= c < |chains| && chains[c].ok && i in chains[c].blocks
  }

  // The blocks no verified chain covers.
  function OutsideBlocks(blocks: seq<Term>, chains: seq<Chain>): multiset<Term> {
    if blocks == [] then multiset{}
    else
      var n := |blocks| - 1;
      OutsideBlocks(blocks[..n], chains) + if InVerified(chains, n) then multiset{} else multiset{blocks[n]}
  }

  // A folded program: the step's arrows once for each folded block and one
  // arrow for each concat; as generators, the seeds and wires of the verified
  // chains and the blocks outside them, each as often as it is listed there,
  // besides the step's own closed leaves; and no loop.
  ghost predicate Folded(prog: Morph, blocks: seq<Term>, sc: Schema, chains: seq<Chain>, bindings: seq<seq<Term>>, concats: nat)
    requires ChainsWithin(chains, |bindings|)
  {
    && Tally(prog, Arrs) == FoldedBlocks(chains) * |NodesOf(sc.step)| + concats
    && Tally(prog, Loops) == 0
    && forall t :: Tally(prog, LeafOf(t)) ==
         (Supplied(chains, bindings) + OutsideBlocks(blocks, chains))[t]
         + FoldedBlocks(chains) * if sc.ClosedLeaf(t) then 1 else 0
  }

  // A verified chain has the term as its seed or bound to one of its blocks.
  predicate Supplies(c: Chain, bindings: seq<seq<Term>>, t: Term)
    requires Within(c.blocks, |bindings|)
  {
    c.ok && (t == c.seed || exists i :: i in c.blocks && t in bindings[i])
  }

  // So every generator is a verified chain's seed, one of its bound wires, a
  // block outside the verified chains, or a closed leaf of the step.
  lemma GeneratorsAre(prog: Morph, blocks: seq<Term>, sc: Schema, chains: seq<Chain>, bindings: seq<seq<Term>>,
                      concats: nat, t: Term)
    requires ChainsWithin(chains, |bindings|) && Folded(prog, blocks, sc, chains, bindings, concats)
    requires Tally(prog, LeafOf(t)) > 0
    ensures
      || (exists c :: 0 <= c < |chains| && Supplies(chains[c], bindings, t))
      || (exists i :: 0 <= i < |blocks| && !InVerified(chains, i) && t == blocks[i])
      || sc.ClosedLeaf(t)
  {
    hide Supplied, OutsideBlocks, FoldedBlocks, InVerified, Supplies, Tally, Schema.ClosedLeaf;
    if t in Supplied(chains, bindings) {
      SuppliedBy(chains, bindings, t);
    } else if t in OutsideBlocks(blocks, chains) {
      OutsideIs(blocks, chains, t);
    }
  }

  lemma {:induction false} SuppliedBy(chains: seq<Chain>, bindings: seq<seq<Term>>, t: Term)
    requires ChainsWithin(chains, |bindings|) && t in Supplied(chains, bindings)
    ensures exists c :: 0 <= c < |chains| && Supplies(chains[c], bindings, t)
  {
    hide BoundWires;
    if t in Supplied(chains[1..], bindings) {
      SuppliedBy(chains[1..], bindings, t);
      var c :| 0 <= c < |chains[1..]| && Supplies(chains[1..][c], bindings, t);
      assert chains[c + 1] == chains[1..][c];
    } else {
      if t != chains[0].seed {
        BoundBy(chains[0].blocks, bindings, t);
      }
      assert Supplies(chains[0], bindings, t);
    }
  }

  lemma {:induction false} BoundBy(blocks: seq<int>, bindings: seq<seq<Term>>, t: Term)
    requires Within(blocks, |bindings|) && t in BoundWires(blocks, bindings)
    ensures exists i :: i in blocks && t in bindings[i]
  {
    if t in bindings[blocks[0]] {
      assert blocks[0] in blocks;
    } else {
      BoundBy(blocks[1..], bindings, t);
    }
  }

  lemma {:induction false} OutsideIs(blocks: seq<Term>, chains: seq<Chain>, t: Term)
    requires t in OutsideBlocks(blocks, chains)
    ensures exists i :: 0 <= i < |blocks| && !InVerified(chains, i) && t == blocks[i]
  {
    hide InVerified;
    var n := |blocks| - 1;
    if t in OutsideBlocks(blocks[..n], chains) {
      OutsideIs(blocks[..n], chains, t);
      var i :| 0 <= i < n && !InVerified(chains, i) && t == blocks[..n][i];
      assert blocks[i] == t;
    } else {
      assert !InVerified(chains, n) && t == blocks[n];
    }
  }

  // The assembler's folds hold exactly those wires.
  function RowCount(folds: seq<Fold>): nat {
    if folds == [] then 0 else |folds[0].rows| + RowCount(folds[1..])
  }

  lemma {:induction false} FlatRowsBound(blocks: seq<int>, bindings: seq<seq<Term>>)
    requires Within(blocks, |bindings|)
    ensures multiset(FlatRows(RowsOf(blocks, bindings))) == BoundWires(blocks, bindings)
  {
    if blocks == [] {
    } else {
      FlatRowsBound(blocks[1..], bindings);
      assert RowsOf(blocks, bindings)[1..] == RowsOf(blocks[1..], bindings);
    }
  }

  lemma {:induction false} FoldsSupply(chains: seq<Chain>, bindings: seq<seq<Term>>)
    requires ChainsWithin(chains, |bindings|)
    ensures ChainsWithin(Verified(chains), |bindings|)
    ensures multiset(AllIn(FoldsOf(Verified(chains), bindings))) == Supplied(chains, bindings)
    ensures RowCount(FoldsOf(Verified(chains), bindings)) == FoldedBlocks(chains)
  {
    hide *;
    if chains == [] {
      NothingSupplied(bindings);
    } else {
      var c, rest := chains[0], Verified(chains[1..]);
      WithinCons(chains, |bindings|);
      FoldsSupply(chains[1..], bindings);
      SuppliedCons(chains, bindings);
      if c.ok {
        var f := Fold(c.seed, RowsOf(c.blocks, bindings));
        VerifiedCons(c, rest, bindings);
        FoldsCons(f, FoldsOf(rest, bindings));
        FlatRowsBound(c.blocks, bindings);
      } else {
        NilConcat(rest);
      }
    }
  }

  lemma NothingSupplied(bindings: seq<seq<Term>>)
    ensures Verified([]) == [] && ChainsWithin([], |bindings|)
    ensures multiset(AllIn(FoldsOf([], bindings))) == Supplied([], bindings) == multiset{}
    ensures RowCount(FoldsOf([], bindings)) == FoldedBlocks([]) == 0
  {
  }

  lemma WithinCons(chains: seq<Chain>, n: nat)
    requires chains != [] && ChainsWithin(chains, n)
    ensures Within(chains[0].blocks, n) && ChainsWithin(chains[1..], n)
  {
    hide Within;
  }

  lemma SuppliedCons(chains: seq<Chain>, bindings: seq<seq<Term>>)
    requires chains != [] && ChainsWithin(chains, |bindings|) && Within(chains[0].blocks, |bindings|)
    requires ChainsWithin(chains[1..], |bindings|)
    ensures var c := chains[0];
      && Verified(chains) == (if c.ok then [c] else []) + Verified(chains[1..])
      && Supplied(chains, bindings)
         == (if c.ok then multiset{c.seed} + BoundWires(c.blocks, bindings) else multiset{}) + Supplied(chains[1..], bindings)
      && FoldedBlocks(chains) == (if c.ok then |c.blocks| else 0) + FoldedBlocks(chains[1..])
  {
    hide BoundWires, Within, ChainsWithin;
  }

  lemma VerifiedCons(c: Chain, rest: seq<Chain>, bindings: seq<seq<Term>>)
    requires Within(c.blocks, |bindings|) && ChainsWithin(rest, |bindings|)
    ensures ChainsWithin([c] + rest, |bindings|)
    ensures FoldsOf([c] + rest, bindings) == [Fold(c.seed, RowsOf(c.blocks, bindings))] + FoldsOf(rest, bindings)
  {
    hide Within;
    var all := [c] + rest;
    forall k | 0 <= k < |all|
      ensures Within(all[k].blocks, |bindings|)
    {
      assert k > 0 ==> all[k] == rest[k - 1];
    }
    assert forall k :: 0 < k < |all| ==> all[k] == rest[k - 1];
  }

  lemma FoldsCons(f: Fold, folds: seq<Fold>)
    ensures multiset(AllIn([f] + folds)) == multiset{f.seed} + multiset(FlatRows(f.rows)) + multiset(AllIn(folds))
    ensures RowCount([f] + folds) == |f.rows| + RowCount(folds)
  {
    hide FlatRows;
    assert ([f] + folds)[1..] == folds;
  }

  lemma {:induction false} CoveredByVerified(chains: seq<Chain>, i: int)
    ensures i in Covered(Verified(chains)) <==> InVerified(chains, i)
  {
    if chains == [] {
    } else {
      CoveredByVerified(chains[1..], i);
      InVerifiedCons(chains, i);
      if chains[0].ok {
        CoveredCons([chains[0]] + Verified(chains[1..]));
        assert ([chains[0]] + Verified(chains[1..]))[1..] == Verified(chains[1..]);
      } else {
        NilConcat(Verified(chains[1..]));
      }
    }
  }

  lemma InVerifiedCons(chains: seq<Chain>, i: int)
    requires chains != []
    ensures InVerified(chains, i) <==> (chains[0].ok && i in chains[0].blocks) || InVerified(chains[1..], i)
  {
    if InVerified(chains[1..], i) {
      var c :| 0 <= c < |chains[1..]| && chains[1..][c].ok && i in chains[1..][c].blocks;
      assert chains[c + 1] == chains[1..][c];
    }
    if InVerified(chains, i) {
      var c :| 0 <= c < |chains| && chains[c].ok && i in chains[c].blocks;
      assert c > 0 ==> chains[1..][c - 1] == chains[c];
    }
  }

  lemma {:induction false} PicksOutside(blocks: seq<Term>, chains: seq<Chain>, n: nat)
    requires n <= |blocks|
    ensures Within(Others(Covered(Verified(chains)), n), |blocks|)
    ensures multiset(Picks(blocks, Others(Covered(Verified(chains)), n))) == OutsideBlocks(blocks[..n], chains)
  {
    hide *;
    var pos := Covered(Verified(chains));
    if n == 0 {
      NothingOutside(blocks, chains, pos);
    } else {
      PicksOutside(blocks, chains, n - 1);
      CoveredByVerified(chains, n - 1);
      PickNext(blocks, pos, n);
      OutsideNext(blocks, chains, n);
    }
  }

  lemma NothingOutside(blocks: seq<Term>, chains: seq<Chain>, pos: seq<int>)
    ensures Within(Others(pos, 0), |blocks|)
    ensures multiset(Picks(blocks, Others(pos, 0))) == OutsideBlocks(blocks[..0], chains)
  {
  }

  lemma PickNext(blocks: seq<Term>, pos: seq<int>, n: nat)
    requires 0 < n <= |blocks| && Within(Others(pos, n - 1), |blocks|)
    ensures Within(Others(pos, n), |blocks|)
    ensures multiset(Picks(blocks, Others(pos, n)))
         == multiset(Picks(blocks, Others(pos, n - 1))) + if n - 1 in pos then multiset{} else multiset{blocks[n - 1]}
  {
    hide Others;
    var before := Others(pos, n - 1);
    OthersNext(pos, n);
    if n - 1 in pos {
      NilConcat(before);
    } else {
      PickSnoc(blocks, before, n - 1);
    }
  }

  lemma OthersNext(pos: seq<int>, n: nat)
    requires n > 0
    ensures Others(pos, n) == Others(pos, n - 1) + if n - 1 in pos then [] else [n - 1]
  {
  }

  lemma PickSnoc(blocks: seq<Term>, at: seq<int>, i: nat)
    requires Within(at, |blocks|) && i < |blocks|
    ensures Within(at + [i], |blocks|) && Picks(blocks, at + [i]) == Picks(blocks, at) + [blocks[i]]
  {
  }

  lemma OutsideNext(blocks: seq<Term>, chains: seq<Chain>, n: nat)
    requires 0 < n <= |blocks|
    ensures OutsideBlocks(blocks[..n], chains)
         == OutsideBlocks(blocks[..n - 1], chains) + if InVerified(chains, n - 1) then multiset{} else multiset{blocks[n - 1]}
  {
    hide InVerified;
    assert blocks[..n][..n - 1] == blocks[..n - 1];
  }

  lemma {:induction false} MidGates(m: Morph, folds: seq<Fold>, k: int, c: Stat)
    requires IsGate(c)
    ensures TallyAll(MidParts(m, folds, k), c) == RowCount(folds) * Tally(m, c)
  {
    hide Spelled, Tally, TallyAll, IsGate;
    if folds == [] {
      NodeGates([], c);
      TallyOne([Id(k)], c);
    } else {
      var n, rest := |folds[0].rows|, MidParts(m, folds[1..], k);
      SpelledCensus(m, n, c);
      MidGates(m, folds[1..], k, c);
      TallyConcat([Spelled(m, n)], rest, c);
      TallyOne([Spelled(m, n)], c);
      Distribute(n, RowCount(folds[1..]), Tally(m, c));
    }
  }

  lemma {:induction false} DropGates(folds: seq<Fold>, k: int, c: Stat)
    requires IsGate(c) && !c.Drops?
    ensures TallyAll(DropParts(folds, k), c) == 0
  {
    hide Tally, TallyAll, IsGate;
    NodeGates([], c);
    if folds == [] {
      TallyOne([Id(k)], c);
    } else {
      var n, rest := |folds[0].rows|, DropParts(folds[1..], k);
      DropGates(folds[1..], k, c);
      DropAlone(c);
      TallyConcat([Drop, Id(n)], rest, c);
      TallyConcat([Drop], [Id(n)], c);
      assert [Drop] + [Id(n)] == [Drop, Id(n)];
      TallyOne([Drop], c);
      TallyOne([Id(n)], c);
    }
  }

  lemma DropAlone(c: Stat)
    requires IsGate(c) && !c.Drops?
    ensures Tally(Drop, c) == 0
  {
  }

  // Gluing counts its wires, one step for each row, and the tree.
  lemma GlueGates(sc: Schema, step: Morph, folds: seq<Fold>, extras: seq<Term>, order: seq<int>, tree: Morph, c: Stat)
    requires IsGate(c) && !c.Drops?
    ensures Tally(Glue(sc, step, folds, extras, PermOf(order), tree), c)
         == (if IsMint(c) then Minted(AllIn(folds) + extras, c) else 0) + RowCount(folds) * Tally(step, c) + Tally(tree, c)
  {
    hide Tally, TallyAll, IsGate, IsMint, Minted, PermOf, ParOf, SeqOf, MidParts, DropParts, Generators;
    var wires, k := AllIn(folds) + extras, |extras|;
    var inner := [ParOf(DropParts(folds, k)), PermOf(order), tree];
    ParOfGates(Generators(wires), c);
    GeneratorsTally(wires, c);
    ParOfGates(MidParts(step, folds, k), c);
    MidGates(step, folds, k, c);
    ParOfGates(DropParts(folds, k), c);
    DropGates(folds, k, c);
    PermGates(order, c);
    TallyThree(inner[0], inner[1], inner[2], c);
    SeqOfGates(inner, c);
    TallyThree(ParOf(Generators(wires)), ParOf(MidParts(step, folds, k)), SeqOf(inner), c);
    SeqOfGates([ParOf(Generators(wires)), ParOf(MidParts(step, folds, k)), SeqOf(inner)], c);
  }

  lemma GlueIsFolded(blocks: seq<Term>, sc: Schema, chains: seq<Chain>, bindings: seq<seq<Term>>, step: Morph,
                     order: seq<int>, tree: Morph, concats: nat)
    requires ChainsWithin(chains, |bindings|) && ChainsWithin(Verified(chains), |bindings|)
    requires Within(Others(Covered(Verified(chains)), |blocks|), |blocks|)
    requires sc.Counted(step) && OnlyConcats(tree, concats)
    ensures var good := Verified(chains);
      Folded(Glue(sc, step, FoldsOf(good, bindings), Picks(blocks, Others(Covered(good), |blocks|)), PermOf(order), tree),
             blocks, sc, chains, bindings, concats)
  {
    hide *;
    var good := Verified(chains);
    var folds, extras := FoldsOf(good, bindings), Picks(blocks, Others(Covered(good), |blocks|));
    var prog := Glue(sc, step, folds, extras, PermOf(order), tree);
    FoldsSupply(chains, bindings);
    PicksOutside(blocks, chains, |blocks|);
    assert blocks[..|blocks|] == blocks;
    StepCounts(sc, step);
    TreeCounts(tree, concats);
    Gates();
    GlueGates(sc, step, folds, extras, order, tree, Arrs);
    GlueGates(sc, step, folds, extras, order, tree, Loops);
    forall t
      ensures Tally(prog, LeafOf(t)) == (Supplied(chains, bindings) + OutsideBlocks(blocks, chains))[t]
                                        + FoldedBlocks(chains) * if sc.ClosedLeaf(t) then 1 else 0
    {
      GlueGates(sc, step, folds, extras, order, tree, LeafOf(t));
      MintedBoth(AllIn(folds), extras, t);
    }
    IsFolded(prog, blocks, sc, chains, bindings, concats);
  }

  lemma IsFolded(prog: Morph, blocks: seq<Term>, sc: Schema, chains: seq<Chain>, bindings: seq<seq<Term>>, concats: nat)
    requires ChainsWithin(chains, |bindings|)
    requires Tally(prog, Arrs) == FoldedBlocks(chains) * |NodesOf(sc.step)| + concats && Tally(prog, Loops) == 0
    requires forall t :: Tally(prog, LeafOf(t)) == (Supplied(chains, bindings) + OutsideBlocks(blocks, chains))[t]
                                                   + FoldedBlocks(chains) * if sc.ClosedLeaf(t) then 1 else 0
    ensures Folded(prog, blocks, sc, chains, bindings, concats)
  {
    hide Tally, NodesOf, Supplied, OutsideBlocks, FoldedBlocks, Schema.ClosedLeaf;
  }

  lemma Gates()
    ensures IsGate(Arrs) && IsGate(Loops) && !IsMint(Arrs) && !IsMint(Loops)
    ensures forall t :: IsGate(LeafOf(t)) && IsMint(LeafOf(t))
  {
  }

  lemma MintedBoth(a: seq<Term>, b: seq<Term>, t: Term)
    ensures IsMint(LeafOf(t)) && Minted(a + b, LeafOf(t)) == (multiset(a) + multiset(b))[t]
  {
    assert multiset(a + b) == multiset(a) + multiset(b);
  }

  lemma TreeCounts(tree: Morph, concats: nat)
    requires OnlyConcats(tree, concats)
    ensures Tally(tree, Arrs) == concats && Tally(tree, Loops) == 0 && forall t :: Tally(tree, LeafOf(t)) == 0
  {
    hide Tally;
  }

  lemma StepCounts(sc: Schema, step: Morph)
    requires sc.Counted(step)
    ensures Tally(step, Arrs) == |NodesOf(sc.step)| && Tally(step, Loops) == 0
    ensures forall t :: Tally(step, LeafOf(t)) == if sc.ClosedLeaf(t) then 1 else 0
  {
    hide Tally, Subterms, NodesOf;
  }

  // ---------------------------------------------------------------------------
  //  The assembler
  // ---------------------------------------------------------------------------

  // The assembled program, the term it should expand to, and the expansion
  // table that term was rebuilt from.
  datatype Program = Program(prog: Morph, rebuilt: Term, expanded: map<int, Term>)

  // Each block's entry in the table, or the block itself.
  function Patched(blocks: seq<Term>, table: map<int, Term>): (r: seq<Term>)
    ensures |r| == |blocks|
    ensures forall i :: 0 <= i < |blocks| ==> r[i] == if i in table then table[i] else blocks[i]
  {
    seq(|blocks|, i requires 0 <= i < |blocks| => if i in table then table[i] else blocks[i])
  }

  // The table as the program's wires see it: only covered blocks.
  function Visible(table: map<int, Term>, covered: seq<int>): map<int, Term> {
    map i | i in table && i in covered :: table[i]
  }

  // No block of a failed chain was expanded to anything but itself.
  predicate NothingLeaks(blocks: seq<Term>, table: map<int, Term>, covered: seq<int>) {
    forall i :: 0 <= i < |blocks| && i in table && i !in covered ==> table[i] == blocks[i]
  }

  function Picks(blocks: seq<Term>, at: seq<int>): (r: seq<Term>)
    requires Within(at, |blocks|)
    ensures |r| == |at| && forall k :: 0 <= k < |at| ==> r[k] == blocks[at[k]]
  {
    seq(|at|, k requires 0 <= k < |at| => blocks[at[k]])
  }

  lemma {:induction false} VerifiedSome(chains: seq<Chain>)
    ensures Verified(chains) == [] <==> forall c :: c in chains ==> !c.ok
  {
    if chains == [] {
    } else {
      VerifiedSome(chains[1..]);
      assert chains[0] in chains;
    }
  }

  lemma VerifiedRecorded(sc: Schema, chains: seq<Chain>, bindings: seq<seq<Term>>, expanded: map<int, Term>)
    requires sc.Valid() && ChainsFit(sc, chains, bindings)
    requires forall c :: 0 <= c < |chains| ==> Recorded(sc, chains[c], bindings, expanded)
    ensures AllRecorded(sc, Verified(chains), bindings, expanded)
    ensures Distinct(Covered(Verified(chains)))
  {
    hide Recorded, Bound, Verified, Covered;
    VerifiedLaw(chains);
    var good := Verified(chains);
    forall c | 0 <= c < |good|
      ensures good[c].blocks != [] && Bound(sc, good[c].blocks, bindings) && Recorded(sc, good[c], bindings, expanded)
    {
      assert good[c] in good;
      var d :| 0 <= d < |chains| && chains[d] == good[c];
    }
  }

  lemma VerifiedFits(sc: Schema, chains: seq<Chain>, bindings: seq<seq<Term>>)
    requires ChainsFit(sc, chains, bindings)
    ensures var good := Verified(chains);
      && ChainsFit(sc, good, bindings) && Within(Covered(good), |bindings|)
      && ChainsWithin(chains, |bindings|) && ChainsWithin(good, |bindings|)
  {
    VerifiedLaw(chains);
    var good := Verified(chains);
    forall c | 0 <= c < |good|
      ensures good[c].blocks != [] && Bound(sc, good[c].blocks, bindings)
    {
      assert good[c] in good;
      var d :| 0 <= d < |chains| && chains[d] == good[c];
    }
    CoveredWithin(sc, good, bindings);
  }

  lemma {:induction false} CoveredWithin(sc: Schema, chains: seq<Chain>, bindings: seq<seq<Term>>)
    requires forall c :: 0 <= c < |chains| ==> Bound(sc, chains[c].blocks, bindings)
    ensures Within(Covered(chains), |bindings|)
  {
    if chains == [] {
    } else {
      CoveredWithin(sc, chains[1..], bindings);
    }
  }

  lemma WiresArrive(kept: seq<Term>, covered: seq<int>, expanded: map<int, Term>, blocks: seq<Term>, n: nat)
    requires n == |blocks| && Within(covered, n) && Carry(kept, covered, expanded)
    requires IsPerm(covered + Others(covered, n)) && |covered + Others(covered, n)| == n
    ensures Arrives(kept + Picks(blocks, Others(covered, n)), covered + Others(covered, n),
                    Patched(blocks, Visible(expanded, covered)))
  {
    var base, w := covered + Others(covered, n), kept + Picks(blocks, Others(covered, n));
    var vals := Patched(blocks, Visible(expanded, covered));
    forall j | 0 <= j < |base|
      ensures 0 <= base[j] < |vals| && w[j] == vals[base[j]]
    {
      if j < |covered| {
        assert base[j] == covered[j] && covered[j] in covered;
      } else {
        assert base[j] == Others(covered, n)[j - |covered|];
      }
    }
  }

  lemma ClosedExpansion(prog: Morph, t: Term)
    requires Runs(prog, [], [t])
    ensures WF(prog) && In(prog) == 0 && Out(prog) == 1 && CombToDag(prog) == Success(t)
  {
  }

  // The wires' blocks and the table's blocks rebuild the same term exactly
  // when nothing leaks.
  lemma LeakExactly(skel: Tree, blocks: seq<Term>, expanded: map<int, Term>, covered: seq<int>)
    requires Leaves(skel) == Ats(0, |blocks|)
    ensures Fits(skel, |blocks|)
    ensures Rebuild(skel, Patched(blocks, Visible(expanded, covered))) == Rebuild(skel, Patched(blocks, expanded))
      <==> NothingLeaks(blocks, expanded, covered)
  {
    hide Rebuild, Fits;
    var a, b := Patched(blocks, Visible(expanded, covered)), Patched(blocks, expanded);
    AtsWired(|blocks|);
    WiredFits(skel, |blocks|);
    RebuildInjective(skel, 0, a, b);
    assert a[0..|blocks|] == a && b[0..|blocks|] == b;
    if NothingLeaks(blocks, expanded, covered) {
      assert forall i :: 0 <= i < |blocks| ==> a[i] == b[i];
    }
    if a == b {
      forall i | 0 <= i < |blocks| && i in expanded && i !in covered
        ensures expanded[i] == blocks[i]
      {
        assert a[i] == b[i];
      }
    }
  }

  lemma RebuiltIsRoot(root: Term, skel: Tree, blocks: seq<Term>, expanded: map<int, Term>)
    requires blocks == BlockOutputs(root) && skel == ConcatSkeleton(root, blocks)
    ensures Fits(skel, |blocks|)
    ensures Patched(blocks, expanded) == blocks ==>
      (Rebuild(skel, Patched(blocks, expanded)) == root <==> SpineAt(root))
  {
    hide Rebuild, Fits, SpineAt, ConcatSkeleton;
    RebuildIsRoot(root, blocks);
  }

  // Every chain's expansion is in the table, and the rebuilt term is the
  // skeleton over that table; it is the root when the expansions are the blocks
  // themselves and every concat is along the emitter's dimension.  The program
  // is a morphism exactly when no block is repeated: a repeated block's wire
  // is read twice by the scan.  It is then closed over one output, and expands
  // to the rebuilt term exactly when nothing leaks.  In either case it is
  // folded: made of the step's copies, not of their outputs.
  ghost predicate Faithful(p: Program, root: Term, sc: Schema, chains: seq<Chain>, bindings: seq<seq<Term>>)
    requires sc.Valid() && ChainsFit(sc, chains, bindings)
  {
    var blocks := BlockOutputs(root);
    var skel := ConcatSkeleton(root, blocks);
    && Fits(skel, |blocks|) && p.rebuilt == Rebuild(skel, Patched(blocks, p.expanded))
    && (forall i :: i in p.expanded <==> i in Covered(chains))
    && (forall c :: 0 <= c < |chains| ==> Recorded(sc, chains[c], bindings, p.expanded))
    && (Patched(blocks, p.expanded) == blocks ==> (p.rebuilt == root <==> SpineAt(root)))
    && ChainsWithin(chains, |bindings|) && Folded(p.prog, blocks, sc, chains, bindings, Concats(skel))
    && (WF(p.prog) <==> Distinct(blocks))
    && (WF(p.prog) ==>
          && In(p.prog) == 0 && Out(p.prog) == 1
          && (CombToDag(p.prog) == Success(p.rebuilt) <==> NothingLeaks(blocks, p.expanded, Covered(Verified(chains)))))
  }

  function Glue(sc: Schema, step: Morph, folds: seq<Fold>, extras: seq<Term>, scan: Morph, tree: Morph): Morph {
    SeqOf([ParOf(Generators(AllIn(folds) + extras)), ParOf(MidParts(step, folds, |extras|)),
           SeqOf([ParOf(DropParts(folds, |extras|)), scan, tree])])
  }

  lemma GlueRuns(sc: Schema, step: Morph, folds: seq<Fold>, extras: seq<Term>, scan: Morph, tree: Morph,
                    skel: Tree, vals: seq<Term>)
    requires sc.Valid() && sc.Compiled(step) && FoldsFit(sc, folds)
    requires Runs(scan, AllKept(sc, folds) + extras, vals)
    requires Fits(skel, |vals|) && Evaluates(tree, skel, |vals|)
    ensures Runs(Glue(sc, step, folds, extras, scan, tree), [], [Rebuild(skel, vals)])
  {
    hide Runs, Evaluates, ParOf, SeqOf, MidParts, DropParts, Rebuild, Schema.Compiled, Schema.Valid;
    var w0, w1, w2 := AllIn(folds) + extras, AllOut(sc, folds) + extras, AllKept(sc, folds) + extras;
    PreRuns(w0);
    MidApply(sc, step, folds, extras);
    RunsParOf(MidParts(step, folds, |extras|), w0, w1);
    DropApply(sc, folds, extras);
    RunsParOf(DropParts(folds, |extras|), w1, w2);
    PostRuns(ParOf(DropParts(folds, |extras|)), scan, tree, skel, w1, w2, vals);
    RunsTriple(ParOf(Generators(w0)), ParOf(MidParts(step, folds, |extras|)),
               SeqOf([ParOf(DropParts(folds, |extras|)), scan, tree]), [], w0, w1, [Rebuild(skel, vals)]);
  }

  // What the assembler has in hand when it glues.
  ghost predicate Parts(root: Term, sc: Schema, chains: seq<Chain>, bindings: seq<seq<Term>>, expanded: map<int, Term>,
                        step: Morph, order: seq<int>, tree: Morph, p: Program)
    requires sc.Valid() && ChainsFit(sc, chains, bindings) && |bindings| == |BlockOutputs(root)|
  {
    var blocks, good := BlockOutputs(root), Verified(chains);
    var skel, rest := ConcatSkeleton(root, blocks), Others(Covered(good), |blocks|);
    && sc.Compiled(step) && sc.Counted(step) && OnlyConcats(tree, Concats(skel))
    && (forall c :: 0 <= c < |chains| ==> Recorded(sc, chains[c], bindings, expanded))
    && (forall i :: i in expanded <==> i in Covered(chains))
    && ChainsWithin(chains, |blocks|) && ChainsWithin(good, |blocks|) && Within(Covered(good), |blocks|)
    && ReadsLeaves(order, Covered(good) + rest, Leaves(skel))
    && Fits(Numbered(skel, 0), |Leaves(skel)|) && Evaluates(tree, Numbered(skel, 0), |Leaves(skel)|)
    && p.prog == Glue(sc, step, FoldsOf(good, bindings), Picks(blocks, rest), PermOf(order), tree)
    && Fits(skel, |blocks|) && p.rebuilt == Rebuild(skel, Patched(blocks, expanded)) && p.expanded == expanded
  }

  lemma GlueIsFaithful(root: Term, sc: Schema, chains: seq<Chain>, bindings: seq<seq<Term>>, expanded: map<int, Term>,
                       step: Morph, order: seq<int>, tree: Morph, p: Program)
    requires sc.Valid() && ChainsFit(sc, chains, bindings) && |bindings| == |BlockOutputs(root)|
    requires Parts(root, sc, chains, bindings, expanded, step, order, tree, p)
    ensures Faithful(p, root, sc, chains, bindings)
  {
    hide Recorded, Rebuild, Evaluates, WF, In, Out, ConcatSkeleton, FoldsOf, Glue, Fits, Schema.Valid, Schema.Compiled,
         CombToDag, Verified, Covered, BlockOutputs, Others, NothingLeaks, SpineAt, Patched, Picks, Numbered, Leaves,
         ReadsLeaves, Folded, OnlyConcats, Schema.Counted, Concats, ChainsWithin;
    var blocks := BlockOutputs(root);
    GlueIsFolded(blocks, sc, chains, bindings, step, order, tree, Concats(ConcatSkeleton(root, blocks)));
    RebuiltIsRoot(root, ConcatSkeleton(root, blocks), blocks, expanded);
    if Distinct(blocks) {
      GlueExpands(root, sc, chains, bindings, expanded, step, order, tree, p);
    } else {
      GlueIsIllFormed(root, sc, chains, bindings, expanded, step, order, tree, p);
    }
  }

  lemma GlueExpands(root: Term, sc: Schema, chains: seq<Chain>, bindings: seq<seq<Term>>, expanded: map<int, Term>,
                    step: Morph, order: seq<int>, tree: Morph, p: Program)
    requires sc.Valid() && ChainsFit(sc, chains, bindings) && |bindings| == |BlockOutputs(root)|
    requires Parts(root, sc, chains, bindings, expanded, step, order, tree, p) && Distinct(BlockOutputs(root))
    ensures WF(p.prog) && In(p.prog) == 0 && Out(p.prog) == 1
    ensures CombToDag(p.prog) == Success(p.rebuilt)
      <==> NothingLeaks(BlockOutputs(root), expanded, Covered(Verified(chains)))
  {
    hide Recorded, Runs, Rebuild, Evaluates, Apply, WF, In, Out, Inverts, ConcatSkeleton, FoldsOf, Glue, Fits,
         Schema.Valid, Schema.Compiled, CombToDag, Verified, Covered, BlockOutputs, Others, NothingLeaks,
         Patched, Visible, Picks, AllKept, FoldsFit, AllRecorded, Arrives, Numbered, Leaves, ReadsLeaves;
    var blocks, good := BlockOutputs(root), Verified(chains);
    var n, covered, folds, skel := |blocks|, Covered(good), FoldsOf(good, bindings), ConcatSkeleton(root, blocks);
    var vals, extras := Patched(blocks, Visible(expanded, covered)), Picks(blocks, Others(covered, n));
    SkeletonLeaves(root);
    NumberedSame(skel, 0);
    VerifiedRecorded(sc, chains, bindings, expanded);
    KeptIsExpanded(sc, good, bindings, expanded);
    FrontThenRestIsPerm(covered, n);
    LeavesInOrder(order, covered + Others(covered, n));
    WiresArrive(AllKept(sc, folds), covered, expanded, blocks, n);
    ScanRuns(order, covered + Others(covered, n), AllKept(sc, folds) + extras, vals);
    GlueRuns(sc, step, folds, extras, PermOf(order), tree, skel, vals);
    ClosedExpansion(p.prog, Rebuild(skel, vals));
    LeakExactly(skel, blocks, expanded, covered);
  }

  lemma GlueIsIllFormed(root: Term, sc: Schema, chains: seq<Chain>, bindings: seq<seq<Term>>, expanded: map<int, Term>,
                        step: Morph, order: seq<int>, tree: Morph, p: Program)
    requires sc.Valid() && ChainsFit(sc, chains, bindings) && |bindings| == |BlockOutputs(root)|
    requires Parts(root, sc, chains, bindings, expanded, step, order, tree, p) && !Distinct(BlockOutputs(root))
    ensures !WF(p.prog)
  {
    hide Recorded, Rebuild, Evaluates, WF, ConcatSkeleton, FoldsOf, Fits, Schema.Valid, Schema.Compiled, Verified,
         Covered, BlockOutputs, Others, Patched, Picks, Numbered, Leaves, ReadsLeaves, PermOf, SeqOf, ParOf, MidParts,
         DropParts, Generators, Distinct;
    var blocks, good := BlockOutputs(root), Verified(chains);
    var folds, rest := FoldsOf(good, bindings), Others(Covered(good), |blocks|);
    var extras := Picks(blocks, rest);
    SkeletonLeaves(root);
    VerifiedFits(sc, chains, bindings);
    FrontThenRestIsPerm(Covered(good), |blocks|);
    RepeatedScan(order, Covered(good) + rest, blocks);
    var inner := [ParOf(DropParts(folds, |extras|)), PermOf(order), tree];
    SeqOfHolds(inner, inner[1], PermOf(order));
    var outer := [ParOf(Generators(AllIn(folds) + extras)), ParOf(MidParts(step, folds, |extras|)), SeqOf(inner)];
    SeqOfHolds(outer, outer[2], PermOf(order));
  }

  // Every leaf of the skeleton is a covered block or one of the others.
  lemma LeavesPlaced(root: Term, covered: seq<int>)
    ensures var blocks := BlockOutputs(root);
      var leaves := Leaves(ConcatSkeleton(root, blocks));
      && |leaves| == |blocks|
      && forall l :: 0 <= l < |leaves| ==>
           leaves[l].At? && (leaves[l].i in covered || leaves[l].i in Others(covered, |blocks|))
  {
    hide Find, Others;
    SkeletonLeaves(root);
  }

  method Assemble(root: Term, sc: Schema, chains: seq<Chain>, bindings: seq<seq<Term>>) returns (r: Option<Program>)
    requires sc.Valid() && |bindings| == |BlockOutputs(root)| && ChainsFit(sc, chains, bindings)
    ensures r.None? <==> forall c :: c in chains ==> !c.ok
    ensures r.Some? ==> Faithful(r.value, root, sc, chains, bindings)
  {
    hide Recorded, Evaluates, Schema.Valid, Schema.Compiled, Faithful, ReadsLeaves, Placed, Rebuild, Fits, Verified,
         Covered, BlockOutputs, ConcatSkeleton, Numbered, Glue, FoldsOf, Leaves, Find, Distinct, Bound;
    var blocks := ListBlocks(root);
    var n := |blocks|;
    var expanded := ExpandChains(sc, chains, bindings);
    var good := Verified(chains);
    VerifiedSome(chains);
    if good == [] {
      return None;
    }
    VerifiedFits(sc, chains, bindings);
    var step := sc.Compile();
    var covered := Covered(good);
    var peeled := Others(covered, n);
    var skel := ConcatSkeleton(root, blocks);
    LeavesPlaced(root, covered);
    RebuiltIsRoot(root, skel, blocks, expanded);
    var at, keep := PlaceWires(good, |peeled|);
    ghost var pos :| Placed(at, keep, BlockKeys(covered) + ExtraKeys(|peeled|), pos);
    var order := ScanOrder(at, keep, covered, peeled, Leaves(skel), pos);
    var tree := EmitSkeleton(skel);
    var program := Program(
      Glue(sc, step, FoldsOf(good, bindings), Picks(blocks, peeled), PermOf(order), tree),
      Rebuild(skel, Patched(blocks, expanded)), expanded);
    GlueIsFaithful(root, sc, chains, bindings, expanded, step, order, tree, program);
    r := Some(program);
  }

  // With every chain verified nothing can leak.
  lemma AllVerified(blocks: seq<Term>, chains: seq<Chain>, expanded: map<int, Term>)
    requires (forall c :: c in chains ==> c.ok) && forall i :: i in expanded <==> i in Covered(chains)
    ensures NothingLeaks(blocks, expanded, Covered(Verified(chains)))
  {
    VerifiedIsAll(chains);
  }

  lemma {:induction false} VerifiedIsAll(chains: seq<Chain>)
    requires forall c :: c in chains ==> c.ok
    ensures Verified(chains) == chains
  {
    if chains == [] {
    } else {
      assert chains[0] in chains && chains == [chains[0]] + chains[1..];
      VerifiedIsAll(chains[1..]);
    }
  }

  // The single-loop assembler: one chain over the covered blocks, the others
  // verbatim.  Nothing can leak, so it expands to its rebuilt term whenever it
  // is a morphism, that is, whenever no block is repeated.
  method EmitSingleLoop(root: Term, sc: Schema, covered: seq<int>, seed: Term, bindings: seq<seq<Term>>)
    returns (prog: Morph, ghost table: map<int, Term>)
    requires sc.Valid() && |bindings| == |BlockOutputs(root)|
    requires covered != [] && Distinct(covered) && Bound(sc, covered, bindings)
    ensures (forall i :: i in table <==> i in covered) && Recorded(sc, Chain(covered, seed, true), bindings, table)
    ensures ChainsWithin([Chain(covered, seed, true)], |bindings|)
    ensures Folded(prog, BlockOutputs(root), sc, [Chain(covered, seed, true)], bindings,
                   Concats(ConcatSkeleton(root, BlockOutputs(root))))
    ensures WF(prog) <==> Distinct(BlockOutputs(root))
    ensures WF(prog) ==>
      var skel := ConcatSkeleton(root, BlockOutputs(root));
      && In(prog) == 0 && Out(prog) == 1 && Fits(skel, |BlockOutputs(root)|)
      && CombToDag(prog) == Success(Rebuild(skel, Patched(BlockOutputs(root), table)))
  {
    hide Recorded, Schema.Valid, Rebuild, WF, In, Out, CombToDag, Folded, Concats;
    var chains := [Chain(covered, seed, true)];
    assert chains[1..] == [] && Covered([]) == [];
    NilConcat(covered);
    var r := Assemble(root, sc, chains, bindings);
    assert chains[0] in chains;
    prog, table := r.value.prog, r.value.expanded;
    AllVerified(BlockOutputs(root), chains, table);
  }

  // ---------------------------------------------------------------------------
  //  The synthesised step
  // ---------------------------------------------------------------------------

  function StepVar(name: string): Term {
    Var(name, TensorType([]))
  }

  function StepInputs(): seq<Term> {
    [StepVar("@S"), StepVar("@xq"), StepVar("@xk"), StepVar("@xv"), StepVar("@cw"), StepVar("@ce"), StepVar("@cD"),
     StepVar("@cx"), StepVar("@cc")]
  }

  function Transposed(t: Term): Term {
    Op("transpose", [t], map["dim0" := Num(-1), "dim1" := Num(-2)])
  }

  // The step over nine wires S, q, k, v, w, eta, D, xi, c: the next state
  // w*S + (k*eta)^T v and the output om_decayed(q k^T / c, D, v) + xi * ((q/c) S).
  function StepNext(x: seq<Term>): Term
    requires |x| == 9
  {
    Plain("add", [Plain("mul", [x[4], x[0]]), Plain("matmul", [Transposed(Plain("mul", [x[2], x[5]])), x[3]])])
  }

  function StepOut(x: seq<Term>): Term
    requires |x| == 9
  {
    var score := Plain("matmul", [x[1], Transposed(x[2])]);
    var intra := Plain("om_decayed", [Plain("div", [score, x[8]]), x[6], x[3]]);
    Plain("add", [intra, Plain("mul", [x[7], Plain("matmul", [Plain("div", [x[1], x[8]]), x[0]])])])
  }

  function StepTemplate(): Term {
    Plain("pack", [StepNext(StepInputs()), StepOut(StepInputs())])
  }

  function StepSchema(): Schema {
    Schema(StepTemplate(), StepInputs())
  }

  lemma StepSchemaValid()
    ensures StepSchema().Valid() && StepSchema().Width() == 8
  {
    StepInputsDistinct();
    assert StepTemplate().args[0].Op?;
  }

  lemma StepInputsDistinct()
    ensures Distinct(StepInputs())
  {
    var x := StepInputs();
    assert x[0].name[1] == 'S' && x[1].name[2] == 'q' && x[2].name[2] == 'k' && x[3].name[2] == 'v';
    assert x[4].name[1..] == "cw" && x[5].name[1..] == "ce" && x[6].name[1..] == "cD";
    assert x[7].name[1..] == "cx" && x[8].name[1..] == "cc";
  }

  // Substituting into an op is substituting into its arguments.
  lemma SubstOp(op: string, args: seq<Term>, attrs: Attrs, env: map<Term, Term>)
    requires forall k :: k in env ==> !k.Op?
    ensures Subst(Op(op, args, attrs), env) == Op(op, SubstAll(args, env), attrs)
  {
  }

  // The same for an op with one, two or three arguments of known instances.
  lemma SubstArgs(op: string, args: seq<Term>, attrs: Attrs, env: map<Term, Term>, to: seq<Term>)
    requires forall k :: k in env ==> !k.Op?
    requires |to| == |args| && forall i :: 0 <= i < |args| ==> Subst(args[i], env) == to[i]
    ensures Subst(Op(op, args, attrs), env) == Op(op, to, attrs)
  {
    hide Subst;
    SubstOp(op, args, attrs, env);
    assert SubstAll(args, env) == to;
  }

  lemma StepInstance(x: seq<Term>, env: map<Term, Term>, w: seq<Term>)
    requires |x| == |w| == 9 && forall k :: k in env ==> !k.Op?
    requires forall i :: 0 <= i < 9 ==> Subst(x[i], env) == w[i]
    ensures Subst(StepNext(x), env) == StepNext(w) && Subst(StepOut(x), env) == StepOut(w)
  {
    hide Subst, StepNext, StepOut;
    NextInstance(x, env, w);
    OutInstance(x, env, w);
  }

  lemma NextInstance(x: seq<Term>, env: map<Term, Term>, w: seq<Term>)
    requires |x| == |w| == 9 && forall k :: k in env ==> !k.Op?
    requires forall i :: 0 <= i < 9 ==> Subst(x[i], env) == w[i]
    ensures Subst(StepNext(x), env) == StepNext(w)
  {
    hide Subst;
    var flip: Attrs := map["dim0" := Num(-1), "dim1" := Num(-2)];
    SubstArgs("mul", [x[4], x[0]], map[], env, [w[4], w[0]]);
    SubstArgs("mul", [x[2], x[5]], map[], env, [w[2], w[5]]);
    SubstArgs("transpose", [Plain("mul", [x[2], x[5]])], flip, env, [Plain("mul", [w[2], w[5]])]);
    SubstArgs("matmul", [Transposed(Plain("mul", [x[2], x[5]])), x[3]], map[], env,
              [Transposed(Plain("mul", [w[2], w[5]])), w[3]]);
    SubstArgs("add", StepNext(x).args, map[], env, StepNext(w).args);
  }

  lemma OutInstance(x: seq<Term>, env: map<Term, Term>, w: seq<Term>)
    requires |x| == |w| == 9 && forall k :: k in env ==> !k.Op?
    requires forall i :: 0 <= i < 9 ==> Subst(x[i], env) == w[i]
    ensures Subst(StepOut(x), env) == StepOut(w)
  {
    hide Subst;
    var flip: Attrs := map["dim0" := Num(-1), "dim1" := Num(-2)];
    SubstArgs("transpose", [x[2]], flip, env, [w[2]]);
    SubstArgs("matmul", [x[1], Transposed(x[2])], map[], env, [w[1], Transposed(w[2])]);
    SubstArgs("div", [Plain("matmul", [x[1], Transposed(x[2])]), x[8]], map[], env,
              [Plain("matmul", [w[1], Transposed(w[2])]), w[8]]);
    SubstArgs("om_decayed", StepOut(x).args[0].args, map[], env, StepOut(w).args[0].args);
    SubstArgs("div", [x[1], x[8]], map[], env, [w[1], w[8]]);
    SubstArgs("matmul", [Plain("div", [x[1], x[8]]), x[0]], map[], env, [Plain("div", [w[1], w[8]]), w[0]]);
    SubstArgs("mul", StepOut(x).args[1].args, map[], env, StepOut(w).args[1].args);
    SubstArgs("add", StepOut(x).args, map[], env, StepOut(w).args);
  }

  // One instance of the synthesised step is the step over the bound wires.
  lemma InstanceIs(s: Term, row: seq<Term>)
    requires StepSchema().Valid() && |row| == StepSchema().Width()
    ensures |[s] + row| == 9 && StepSchema().Instance(s, row) == (StepNext([s] + row), StepOut([s] + row))
  {
    hide StepNext, StepOut, Binding;
    var x, w := StepInputs(), [s] + row;
    var env := Binding(x, w);
    BindingReads(x, w);
    forall i | 0 <= i < 9
      ensures Subst(x[i], env) == w[i]
    {
      assert x[i] in env;
    }
    StepInstance(x, env, w);
  }

  // Two step outputs over the same wires and different states, side by side.
  lemma LeakBlocks(good: Term, wrong: Term, row: seq<Term>)
    requires good != wrong && |row| == 8
    ensures var a, b := StepOut([wrong] + row), StepOut([good] + row);
      var root := Op("concat", [a, b], ConcatAttrs());
      && a != b && !IsConcat(a) && !IsConcat(b) && BlockOutputs(root) == [a, b] && ConcatSkeleton(root, [a, b]) == Node([At(0), At(1)])
  {
    var a, b := StepOut([wrong] + row), StepOut([good] + row);
    assert a.args[1].args[1].args[1] == wrong && b.args[1].args[1].args[1] == good;
    ConcatOfTwo(a, b);
  }

  lemma ConcatOfTwo(a: Term, b: Term)
    requires a != b && !IsConcat(a) && !IsConcat(b)
    ensures var root := Op("concat", [a, b], ConcatAttrs());
      && BlockOutputs(root) == [a, b] && ConcatSkeleton(root, [a, b]) == Node([At(0), At(1)])
    ensures Fits(Node([At(0), At(1)]), 2)
    ensures forall w: seq<Term> :: |w| == 2 ==> Rebuild(Node([At(0), At(1)]), w) == Op("concat", w, ConcatAttrs())
  {
    hide Rebuild;
    assert [a, b][1..] == [b] && [b][1..] == [];
    assert BlockOutputsAll([b]) == [b] + [];
    assert BlockOutputsAll([a, b]) == [a] + [b];
    assert Find([a, b], a) == 0 && Find([a, b], b) == 1;
    assert ConcatSkeletonAll([b], [a, b]) == [At(1)] + [];
    assert ConcatSkeletonAll([a, b], [a, b]) == [At(0)] + [At(1)];
    PairFits();
    forall w: seq<Term> | |w| == 2
      ensures Rebuild(Node([At(0), At(1)]), w) == Op("concat", w, ConcatAttrs())
    {
      PairRebuilt(w);
    }
  }

  lemma PairFits()
    ensures Fits(Node([At(0), At(1)]), 2)
  {
    assert [At(0), At(1)][1..] == [At(1)] && [At(1)][1..] == [];
  }

  lemma PairRebuilt(w: seq<Term>)
    requires |w| == 2 && Fits(Node([At(0), At(1)]), 2)
    ensures Rebuild(Node([At(0), At(1)]), w) == Op("concat", w, ConcatAttrs())
  {
    assert [At(0), At(1)][1..] == [At(1)] && [At(1)][1..] == [];
    assert RebuildAll([At(1)], w) == [w[1]];
    assert RebuildAll([At(0), At(1)], w) == w;
  }

  lemma LeakChains(a: Chain, b: Chain)
    requires a.ok && !b.ok && a.blocks == [0] && b.blocks == [1]
    ensures Covered([a, b]) == [0, 1] && Covered(Verified([a, b])) == [0]
  {
    assert [a, b][1..] == [b] && [b][1..] == [] && [a][1..] == [];
    assert Covered([b]) == [1] && Verified([b]) == [];
    assert Verified([a, b]) == [a];
  }

  // A chain of one block records the step's output over its seed.
  lemma LoneChain(c: Chain, i: int, row: seq<Term>, bindings: seq<seq<Term>>, expanded: map<int, Term>)
    requires StepSchema().Valid() && StepSchema().Width() == 8 && Bound(StepSchema(), c.blocks, bindings)
    requires c.blocks == [i] && 0 <= i < |bindings| && bindings[i] == row && |row| == 8
    requires Recorded(StepSchema(), c, bindings, expanded)
    ensures i in expanded && |[c.seed] + row| == 9 && expanded[i] == StepOut([c.seed] + row)
  {
    hide StepOut, StepNext, Schema.Instance, StepSchema;
    InstanceIs(c.seed, row);
    assert RowsOf(c.blocks, bindings) == [row];
    assert c.blocks[0] == i;
    assert ChainOuts(StepSchema(), c, bindings)[0] == StepSchema().Instance(c.seed, row).1;
  }

  function LeakRoot(good: Term, wrong: Term, row: seq<Term>): Term
    requires |row| == 8
  {
    Op("concat", [StepOut([wrong] + row), StepOut([good] + row)], ConcatAttrs())
  }

  function LeakyChains(wrong: Term): seq<Chain> {
    [Chain([0], wrong, true), Chain([1], wrong, false)]
  }

  lemma LeakFits(good: Term, wrong: Term, row: seq<Term>)
    requires good != wrong && |row| == 8
    ensures var sc, root := StepSchema(), LeakRoot(good, wrong, row);
      && sc.Valid() && |BlockOutputs(root)| == 2 && ChainsFit(sc, LeakyChains(wrong), [row, row])
      && exists c :: c in LeakyChains(wrong) && c.ok
  {
    hide StepOut, StepSchema, Schema.Width, Schema.Valid;
    StepSchemaValid();
    LeakBlocks(good, wrong, row);
    LeakChains(LeakyChains(wrong)[0], LeakyChains(wrong)[1]);
    assert LeakyChains(wrong)[0] in LeakyChains(wrong);
  }

  lemma LeakFollows(good: Term, wrong: Term, row: seq<Term>, p: Program)
    requires good != wrong && |row| == 8
    requires var sc, root := StepSchema(), LeakRoot(good, wrong, row);
      && sc.Valid() && sc.Width() == 8 && |BlockOutputs(root)| == 2 && ChainsFit(sc, LeakyChains(wrong), [row, row])
      && Faithful(p, root, sc, LeakyChains(wrong), [row, row])
    ensures WF(p.prog) && In(p.prog) == 0 && CombToDag(p.prog) != Success(p.rebuilt)
    ensures p.rebuilt == Op("concat", [StepOut([wrong] + row), StepOut([wrong] + row)], ConcatAttrs())
  {
    hide StepOut, StepSchema, Schema.Width, Schema.Valid, CombToDag, WF, In, Out, Recorded, BlockOutputs,
         ConcatSkeleton, Rebuild, Fits, Verified, Covered, SpineAt;
    var a, b := StepOut([wrong] + row), StepOut([good] + row);
    var chains := LeakyChains(wrong);
    LeakBlocks(good, wrong, row);
    LeakChains(chains[0], chains[1]);
    LoneChain(chains[0], 0, row, [row, row], p.expanded);
    LoneChain(chains[1], 1, row, [row, row], p.expanded);
    ConcatOfTwo(a, b);
    assert Patched([a, b], p.expanded) == [a, a];
  }

  // A failed chain can leak: a block that is the step's own output over one
  // state, in a chain that carries another, keeps its entry in the table the
  // rebuilt term reads, while the program keeps the block itself.
  method LeakExample(good: Term, wrong: Term, row: seq<Term>) returns (p: Program)
    requires good != wrong && |row| == 8
    ensures WF(p.prog) && In(p.prog) == 0 && CombToDag(p.prog) != Success(p.rebuilt)
    ensures p.rebuilt == Op("concat", [StepOut([wrong] + row), StepOut([wrong] + row)], ConcatAttrs())
  {
    hide *;
    StepSchemaValid();
    LeakFits(good, wrong, row);
    var r := Assemble(LeakRoot(good, wrong, row), StepSchema(), LeakyChains(wrong), [row, row]);
    p := r.value;
    LeakFollows(good, wrong, row, p);
  }
}
