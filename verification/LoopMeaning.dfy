// The single-loop program end to end: bound along the compensated walk, the
// term it expands to denotes the direct decayed sum at every covered position.

module LoopMeaning {
  import opened Wrappers
  import opened Terms
  import opened Morphisms
  import opened Decay
  import opened Retention
  import opened Bridge
  import opened Denotation
  import opened RetnetMeaning
  import opened Assembly
  import opened Unroll
  import Trees = ConcatTree
  import Skeleton

  // ---------------------------------------------------------------------------
  //  The terms a chain threads
  // ---------------------------------------------------------------------------

  // The state term on reaching row i.
  function StateTerm(sc: Schema, s: Term, rows: seq<seq<Term>>, i: nat): Term
    requires sc.Valid() && sc.Rows(rows) && i <= |rows|
  {
    if i == 0 then s else sc.Instance(StateTerm(sc, s, rows, i - 1), rows[i - 1]).0
  }

  lemma {:induction false} OutsSuffix(sc: Schema, s: Term, rows: seq<seq<Term>>, i: nat)
    requires sc.Valid() && sc.Rows(rows) && i <= |rows|
    ensures sc.Outs(s, rows)[i..] == sc.Outs(StateTerm(sc, s, rows, i), rows[i..])
  {
    hide Schema.Instance, Schema.Outs, Schema.Valid;
    if i == 0 {
      assert rows[0..] == rows && sc.Outs(s, rows)[0..] == sc.Outs(s, rows);
    } else {
      OutsSuffix(sc, s, rows, i - 1);
      OutsFrom(sc, StateTerm(sc, s, rows, i - 1), rows, i - 1);
      assert sc.Outs(s, rows)[i..] == sc.Outs(s, rows)[i - 1..][1..];
    }
  }

  lemma OutAt(sc: Schema, s: Term, rows: seq<seq<Term>>, i: nat)
    requires sc.Valid() && sc.Rows(rows) && i < |rows|
    ensures sc.Outs(s, rows)[i] == sc.Instance(StateTerm(sc, s, rows, i), rows[i]).1
  {
    hide Schema.Instance, Schema.Outs, Schema.Valid, StateTerm;
    OutsSuffix(sc, s, rows, i);
    OutsFrom(sc, StateTerm(sc, s, rows, i), rows, i);
    assert sc.Outs(s, rows)[i..][0] == sc.Outs(s, rows)[i];
  }

  // ---------------------------------------------------------------------------
  //  Bindings along the walk
  // ---------------------------------------------------------------------------

  // A compensated walk: the covered blocks, where a steering pair exists, and
  // where a compensated read scale does.
  datatype Walk = Walk(blocks: seq<Block>, steer: int -> bool, readable: int -> bool)
  {
    // Every read could be compensated and every move was harmless.
    predicate Clean() {
      && blocks != [] && Contiguous(blocks) && HarmlessBefore(blocks, steer, |blocks| - 1)
      && forall i :: 0 <= i < |blocks| ==> !ReadNeeds(blocks[i], Off(i)) || readable(i)
    }

    function Off(i: int): int {
      if 0 <= i < |blocks| then OffAt(blocks, steer, i) else 0
    }

    // What the walk leaves bound for block i: the read scale, compensated where
    // it had to be, and the pair it steered with, where it needed one.
    function ReadScale(i: nat): Scale
      requires i < |blocks|
    {
      var b := blocks[i];
      if ReadNeeds(b, Off(i)) && readable(i) then b.Needed(Off(i)) else b.Bound()
    }

    function Effective(i: nat): Wires
      requires i < |blocks|
    {
      var b := blocks[i];
      var w := if i + 1 < |blocks| then MoveWires(b, blocks[i + 1], Off(i), MoveAt(blocks, steer, i)) else b.wires;
      Wires(w.cw, w.ce, ReadScale(i).offset)
    }

    function SiteAt(i: nat, e: nat): Site
      requires i < |blocks|
    {
      Site(blocks[i].start, blocks[i].width, e, Effective(i))
    }
  }

  lemma EffectiveReads(k: Walk, i: nat)
    requires k.Clean() && i < |k.blocks|
    ensures k.Effective(i).cx == k.blocks[i].start - k.Off(i) && k.ReadScale(i).length == k.blocks[i].width
  {
    hide OffAt, MoveAt, MoveWires, HarmlessBefore, Contiguous;
  }

  lemma EffectiveMoves(k: Walk, i: nat)
    requires k.Clean() && i + 1 < |k.blocks|
    ensures var w := k.Effective(i);
      w.ce + k.blocks[i].start == w.cw + k.Off(i) && k.Off(i + 1) == w.cw + k.Off(i)
  {
    var b, next, off := k.blocks[i], k.blocks[i + 1], k.Off(i);
    assert Harmless(b, off, MoveAt(k.blocks, k.steer, i));
  }

  // What a chain's wires stand for: raw queries over a denominator, keys and
  // values at each block's rows, and wires with the walk's exponents.
  ghost predicate ChainBound(x: Data, k: Walk, raw: Grid, c: real, e: nat, env: map<Term, Val>, rows: seq<seq<Term>>)
    requires x.Valid()
  {
    && |rows| == |k.blocks|
    && forall i :: 0 <= i < |rows| ==>
         && OutputBound(x, k.SiteAt(i, e), From(raw, k.blocks[i].start), c, k.ReadScale(i).length, env, rows[i])
         && (i + 1 < |rows| ==> UpdateBound(x, k.SiteAt(i, e), env, rows[i]))
  }

  // The seed stands for the accumulation before the first block, at the
  // normalisation its own family reads.
  ghost predicate SeedBound(x: Data, k: Walk, e: nat, env: map<Term, Val>, seed: Term)
    requires x.Valid() && k.blocks != []
  {
    IsMatrix(Eval(seed, env), x.d, e, CarriedState(x, k.blocks[0].Phi(), k.blocks[0].start))
  }

  // Along the chain the state term denotes the accumulation so far, at the
  // normalisation the walk tracks.
  lemma {:induction false} StatesMean(x: Data, k: Walk, raw: Grid, c: real, e: nat, env: map<Term, Val>, seed: Term,
                                      rows: seq<seq<Term>>, i: nat)
    requires x.Valid() && k.Clean() && SeedBound(x, k, e, env, seed) && ChainBound(x, k, raw, c, e, env, rows)
    requires StepSchema().Valid() && StepSchema().Rows(rows) && i < |k.blocks|
    ensures IsMatrix(Eval(StateTerm(StepSchema(), seed, rows, i), env), x.d, e,
                     CarriedState(x, k.Off(i), k.blocks[i].start))
  {
    hide Eval, IsMatrix, CarriedState, OffAt, OutputBound, UpdateBound, StepSchema, StepNext, StepOut, Schema.Instance,
         Schema.Valid, Walk.Effective, HarmlessBefore;
    if i == 0 {
      StartOff(k);
    } else {
      var st := StateTerm(StepSchema(), seed, rows, i - 1);
      StatesMean(x, k, raw, c, e, env, seed, rows, i - 1);
      EffectiveMoves(k, i - 1);
      RowIs(rows, i - 1);
      InstanceIs(st, rows[i - 1]);
      StepTemplateIsRetention(x, k.SiteAt(i - 1, e), k.Off(i - 1), From(raw, k.blocks[i - 1].start), c, env, st, rows[i - 1]);
    }
  }

  lemma StartOff(k: Walk)
    requires k.blocks != []
    ensures k.Off(0) == k.blocks[0].Phi()
  {
  }

  lemma RowIs(rows: seq<seq<Term>>, i: nat)
    requires StepSchema().Rows(rows) && i < |rows|
    ensures |rows[i]| == 8 == StepSchema().Width()
  {
    StepSchemaValid();
  }

  // Every output term of the chain denotes the direct decayed sums at its
  // block's positions.
  lemma OutsMean(x: Data, k: Walk, raw: Grid, c: real, e: nat, env: map<Term, Val>, seed: Term,
                 rows: seq<seq<Term>>, i: nat)
    requires x.Valid() && k.Clean() && SeedBound(x, k, e, env, seed) && ChainBound(x, k, raw, c, e, env, rows)
    requires StepSchema().Valid() && StepSchema().Rows(rows) && i < |k.blocks|
    ensures IsMatrix(Eval(StepSchema().Outs(seed, rows)[i], env), k.blocks[i].width, e, DirectRows(x, k.blocks[i].start))
  {
    hide Eval, IsMatrix, CarriedState, OffAt, OutputBound, UpdateBound, StepSchema, StepNext, StepOut, Schema.Instance,
         Schema.Valid, Walk.Effective, HarmlessBefore, DirectRows, StateTerm, Schema.Outs;
    var st := StateTerm(StepSchema(), seed, rows, i);
    StatesMean(x, k, raw, c, e, env, seed, rows, i);
    EffectiveReads(k, i);
    RowIs(rows, i);
    InstanceIs(st, rows[i]);
    OutAt(StepSchema(), seed, rows, i);
    StepTemplateIsRetention(x, k.SiteAt(i, e), k.Off(i), From(raw, k.blocks[i].start), c, env, st, rows[i]);
  }

  // ---------------------------------------------------------------------------
  //  The rebuilt concat
  // ---------------------------------------------------------------------------

  // No concat of the tree is empty.
  predicate Full(t: Trees.Tree) {
    t.Node? ==> t.kids != [] && FullAll(t.kids)
  }

  predicate FullAll(ts: seq<Trees.Tree>) {
    if ts == [] then true else Full(ts[0]) && FullAll(ts[1..])
  }

  // Where the rows of each tree begin, and where those of the last one end.
  function Cuts(ts: seq<Trees.Tree>, bounds: seq<int>, c: nat): (r: seq<int>)
    requires c + |Trees.LeavesAll(ts)| < |bounds|
    ensures |r| == |ts| + 1 && r[0] == bounds[c] && r[|ts|] == bounds[c + |Trees.LeavesAll(ts)|]
  {
    if ts == [] then [bounds[c]] else [bounds[c]] + Cuts(ts[1..], bounds, c + |Trees.Leaves(ts[0])|)
  }

  // A tree over consecutive leaves denotes their rows together.
  lemma {:induction false} TreeMeans(t: Trees.Tree, c: nat, vals: seq<Term>, env: map<Term, Val>, bounds: seq<int>, e: nat, f: Grid)
    requires HoldRows(vals, env, bounds, e, f) && Full(t) && Trees.Fits(t, |vals|)
    requires Trees.Leaves(t) == Trees.Ats(c, |Trees.Leaves(t)|) && c + |Trees.Leaves(t)| <= |vals|
    ensures bounds[c] <= bounds[c + |Trees.Leaves(t)|]
    ensures IsMatrix(Eval(Trees.Rebuild(t, vals), env), bounds[c + |Trees.Leaves(t)|] - bounds[c], e, From(f, bounds[c]))
    decreases t, 0
  {
    hide Eval, IsMatrix, From, Stack;
    if t.Node? {
      var outs := Trees.RebuildAll(t.kids, vals);
      TreesMean(t.kids, c, vals, env, bounds, e, f);
      StackMeans(outs, env, Cuts(t.kids, bounds, c), e, f);
      ConcatIsStack(outs, env);
    } else {
      assert Trees.Leaves(t)[0] == t;
    }
  }

  lemma {:induction false} TreesMean(ts: seq<Trees.Tree>, c: nat, vals: seq<Term>, env: map<Term, Val>, bounds: seq<int>, e: nat, f: Grid)
    requires HoldRows(vals, env, bounds, e, f) && FullAll(ts) && Trees.FitsAll(ts, |vals|)
    requires Trees.LeavesAll(ts) == Trees.Ats(c, |Trees.LeavesAll(ts)|) && c + |Trees.LeavesAll(ts)| <= |vals|
    ensures HoldRows(Trees.RebuildAll(ts, vals), env, Cuts(ts, bounds, c), e, f)
    decreases ts, 0
  {
    hide Eval, IsMatrix, From, Trees.Rebuild, Trees.Leaves, Full, Trees.Fits, HoldRows;
    BoundsOf(vals, env, bounds, e, f);
    if ts == [] {
      NoRowsHeld(env, [bounds[c]], e, f);
    } else {
      var n, m := |Trees.Leaves(ts[0])|, |Trees.LeavesAll(ts[1..])|;
      Skeleton.AtsSplit(c, n, m, Trees.Leaves(ts[0]), Trees.LeavesAll(ts[1..]));
      TreeMeans(ts[0], c, vals, env, bounds, e, f);
      TreesMean(ts[1..], c + n, vals, env, bounds, e, f);
      RowsCons(Trees.Rebuild(ts[0], vals), Trees.RebuildAll(ts[1..], vals), env, bounds[c], Cuts(ts[1..], bounds, c + n), e, f);
    }
  }

  lemma BoundsOf(outs: seq<Term>, env: map<Term, Val>, bounds: seq<int>, e: nat, f: Grid)
    requires HoldRows(outs, env, bounds, e, f)
    ensures |bounds| == |outs| + 1
  {
  }

  lemma NoRowsHeld(env: map<Term, Val>, bounds: seq<int>, e: nat, f: Grid)
    requires |bounds| == 1
    ensures HoldRows([], env, bounds, e, f)
  {
  }

  lemma RowsCons(first: Term, rest: seq<Term>, env: map<Term, Val>, lo: int, bounds: seq<int>, e: nat, f: Grid)
    requires HoldRows(rest, env, bounds, e, f) && lo <= bounds[0]
    requires IsMatrix(Eval(first, env), bounds[0] - lo, e, From(f, lo))
    ensures HoldRows([first] + rest, env, [lo] + bounds, e, f)
  {
    hide Eval, IsMatrix, From;
    var outs, all := [first] + rest, [lo] + bounds;
    forall i | 0 <= i < |outs|
      ensures all[i] <= all[i + 1] && IsMatrix(Eval(outs[i], env), all[i + 1] - all[i], e, From(f, all[i]))
    {
      if i > 0 {
        assert outs[i] == rest[i - 1] && all[i] == bounds[i - 1] && all[i + 1] == bounds[i];
      }
    }
  }

  // ---------------------------------------------------------------------------
  //  End to end
  // ---------------------------------------------------------------------------

  // The grid is the direct decayed sum on n rows.
  ghost predicate Agrees(x: Data, f: Grid, lo: int, n: int)
    requires x.Valid()
  {
    forall t, b :: lo <= t < lo + n ==> f(t, b) == x.Direct(t, b)
  }

  // How the root's blocks divide the positions: a covered block holds its walk
  // block's rows, where the grid is the direct decayed sum, and any other block
  // already denotes its own rows of the grid.
  ghost predicate Divides(x: Data, k: Walk, e: nat, env: map<Term, Val>, blocks: seq<Term>, covered: seq<int>,
                          bounds: seq<int>, f: Grid)
    requires x.Valid() && |covered| == |k.blocks| && Within(covered, |blocks|)
  {
    && |bounds| == |blocks| + 1
    && (forall j :: 0 <= j < |covered| ==>
          && bounds[covered[j]] == k.blocks[j].start
          && bounds[covered[j] + 1] == k.blocks[j].start + k.blocks[j].width
          && Agrees(x, f, k.blocks[j].start, k.blocks[j].width))
    && forall i :: 0 <= i < |blocks| && i !in covered ==>
         bounds[i] <= bounds[i + 1] && IsMatrix(Eval(blocks[i], env), bounds[i + 1] - bounds[i], e, From(f, bounds[i]))
  }

  // A covered block's entry in the table holds its rows of the grid.
  lemma EntryHolds(x: Data, k: Walk, raw: Grid, c: real, e: nat, env: map<Term, Val>, covered: seq<int>,
                   seed: Term, bindings: seq<seq<Term>>, table: map<int, Term>, j: nat, f: Grid)
    requires x.Valid() && k.Clean() && SeedBound(x, k, e, env, seed) && StepSchema().Valid()
    requires j < |covered| == |k.blocks| && Bound(StepSchema(), covered, bindings)
    requires ChainBound(x, k, raw, c, e, env, RowsOf(covered, bindings))
    requires Agrees(x, f, k.blocks[j].start, k.blocks[j].width)
    requires Recorded(StepSchema(), Chain(covered, seed, true), bindings, table)
    ensures covered[j] in table
    ensures IsMatrix(Eval(table[covered[j]], env), k.blocks[j].width, e, From(f, k.blocks[j].start))
  {
    hide *;
    EntryIs(StepSchema(), Chain(covered, seed, true), bindings, table, j);
    OutsMean(x, k, raw, c, e, env, seed, RowsOf(covered, bindings), j);
    SameRows(x, Eval(table[covered[j]], env), k.blocks[j].start, k.blocks[j].width, e, f);
  }

  lemma EntryIs(sc: Schema, c: Chain, bindings: seq<seq<Term>>, table: map<int, Term>, j: nat)
    requires sc.Valid() && j < |c.blocks| && Bound(sc, c.blocks, bindings) && Recorded(sc, c, bindings, table)
    ensures Within(c.blocks, |bindings|)
    ensures var rows := RowsOf(c.blocks, bindings);
      sc.Rows(rows) && c.blocks[j] in table && table[c.blocks[j]] == sc.Outs(c.seed, rows)[j]
  {
    hide Schema.Valid, Schema.Outs;
  }

  // The table's blocks hold the rows of the grid.
  lemma TableHolds(x: Data, k: Walk, raw: Grid, c: real, e: nat, env: map<Term, Val>, blocks: seq<Term>, covered: seq<int>,
                   seed: Term, bindings: seq<seq<Term>>, table: map<int, Term>, bounds: seq<int>, f: Grid)
    requires x.Valid() && k.Clean() && SeedBound(x, k, e, env, seed) && StepSchema().Valid()
    requires |covered| == |k.blocks| && |bindings| == |blocks| && Bound(StepSchema(), covered, bindings)
    requires ChainBound(x, k, raw, c, e, env, RowsOf(covered, bindings))
    requires Divides(x, k, e, env, blocks, covered, bounds, f)
    requires Recorded(StepSchema(), Chain(covered, seed, true), bindings, table) && forall i :: i in table <==> i in covered
    ensures HoldRows(Patched(blocks, table), env, bounds, e, f)
  {
    hide Eval, IsMatrix, From, Walk.Clean, SeedBound, ChainBound, StepSchema, Schema.Valid, Recorded, Agrees, Patched,
         HoldRows, Divides;
    var vals := Patched(blocks, table);
    DividesRows(x, k, e, env, blocks, covered, bounds, f);
    forall i | 0 <= i < |vals|
      ensures bounds[i] <= bounds[i + 1] && IsMatrix(Eval(vals[i], env), bounds[i + 1] - bounds[i], e, From(f, bounds[i]))
    {
      if i in covered {
        var j :| 0 <= j < |covered| && covered[j] == i;
        DividesCovered(x, k, e, env, blocks, covered, bounds, f, j);
        EntryHolds(x, k, raw, c, e, env, covered, seed, bindings, table, j, f);
      } else {
        DividesOther(x, k, e, env, blocks, covered, bounds, f, i);
      }
    }
    RowsHeld(vals, env, bounds, e, f);
  }

  lemma DividesRows(x: Data, k: Walk, e: nat, env: map<Term, Val>, blocks: seq<Term>, covered: seq<int>,
                    bounds: seq<int>, f: Grid)
    requires x.Valid() && |covered| == |k.blocks| && Within(covered, |blocks|)
    requires Divides(x, k, e, env, blocks, covered, bounds, f)
    ensures |bounds| == |blocks| + 1
  {
  }

  lemma DividesCovered(x: Data, k: Walk, e: nat, env: map<Term, Val>, blocks: seq<Term>, covered: seq<int>,
                       bounds: seq<int>, f: Grid, j: nat)
    requires x.Valid() && j < |covered| == |k.blocks| && Within(covered, |blocks|)
    requires Divides(x, k, e, env, blocks, covered, bounds, f)
    ensures |bounds| == |blocks| + 1 && Agrees(x, f, k.blocks[j].start, k.blocks[j].width)
    ensures bounds[covered[j]] == k.blocks[j].start
    ensures bounds[covered[j] + 1] == k.blocks[j].start + k.blocks[j].width
  {
    hide Agrees, IsMatrix, Eval, From;
  }

  lemma DividesOther(x: Data, k: Walk, e: nat, env: map<Term, Val>, blocks: seq<Term>, covered: seq<int>,
                     bounds: seq<int>, f: Grid, i: nat)
    requires x.Valid() && |covered| == |k.blocks| && Within(covered, |blocks|) && i < |blocks| && i !in covered
    requires Divides(x, k, e, env, blocks, covered, bounds, f)
    ensures |bounds| == |blocks| + 1 && bounds[i] <= bounds[i + 1]
    ensures IsMatrix(Eval(blocks[i], env), bounds[i + 1] - bounds[i], e, From(f, bounds[i]))
  {
    hide Agrees, IsMatrix, Eval, From;
  }

  lemma SameRows(x: Data, v: Option<Val>, lo: int, n: int, m: int, f: Grid)
    requires x.Valid() && IsMatrix(v, n, m, DirectRows(x, lo))
    requires Agrees(x, f, lo, n)
    ensures IsMatrix(v, n, m, From(f, lo))
  {
    hide Data.Direct;
    forall i, j | 0 <= i < n && 0 <= j < m
      ensures v.value.at(i, j) == From(f, lo)(i, j)
    {
      assert f(lo + i, j) == x.Direct(lo + i, j);
    }
  }

  lemma CleanIsSome(k: Walk)
    requires k.Clean()
    ensures k.blocks != []
  {
  }

  // Emitting the single-loop program over wires bound along a clean walk: the
  // term it expands to denotes the whole grid, which is the direct decayed sum
  // at every covered position.
  method EmitRetention(root: Term, covered: seq<int>, seed: Term, bindings: seq<seq<Term>>,
                       ghost x: Data, ghost k: Walk, ghost raw: Grid, ghost c: real, ghost e: nat,
                       ghost env: map<Term, Val>, ghost bounds: seq<int>, ghost f: Grid) returns (prog: Morph)
    requires var blocks := Skeleton.BlockOutputs(root);
      && Distinct(blocks) && |bindings| == |blocks| && Full(Skeleton.ConcatSkeleton(root, blocks))
      && StepSchema().Valid() && Distinct(covered) && Bound(StepSchema(), covered, bindings)
      && x.Valid() && k.Clean() && |covered| == |k.blocks| && SeedBound(x, k, e, env, seed)
      && ChainBound(x, k, raw, c, e, env, RowsOf(covered, bindings))
      && Divides(x, k, e, env, blocks, covered, bounds, f)
    ensures WF(prog) && In(prog) == 0 && CombToDag(prog).Success?
    ensures IsMatrix(Eval(CombToDag(prog).value, env), bounds[|bindings|] - bounds[0], e, From(f, bounds[0]))
  {
    hide *;
    CleanIsSome(k);
    ghost var table;
    prog, table := EmitSingleLoop(root, StepSchema(), covered, seed, bindings);
    ghost var blocks := Skeleton.BlockOutputs(root);
    ghost var skel, vals := Skeleton.ConcatSkeleton(root, blocks), Patched(blocks, table);
    TableHolds(x, k, raw, c, e, env, blocks, covered, seed, bindings, table, bounds, f);
    Skeleton.SkeletonLeaves(root);
    TreeMeans(skel, 0, vals, env, bounds, e, f);
  }
}
