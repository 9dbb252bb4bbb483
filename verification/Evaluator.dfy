// The loops that measure and run a morphism, against its arity and action.

module Evaluator {
  import opened Terms
  import opened Morphisms

  method MeasureArity(m: Morph) returns (i: int, o: int)
    requires WF(m)
    ensures i == In(m) && o == Out(m)
    decreases m, 0
  {
    match m
    case Leaf(_) => i, o := 0, 1;
    case Arr(_, n, _) => i, o := n, 1;
    case Id(w) => i, o := w, w;
    case Dup(k) => i, o := 1, k;
    case Perm(order) => i, o := |order|, |order|;
    case Drop => i, o := 1, 0;
    case Seq(ps) => i, o := MeasureSeq(ps);
    case Par(ps) => i, o := MeasurePar(ps);
    case Loop(_, n, nx, ny) =>
      GroupsIsProduct(n, nx);
      GroupsIsProduct(n, ny);
      i, o := 1 + n * nx, 1 + n * ny;
  }

  // The footprint of a composition: the least bundle that starves no part.
  method MeasureSeq(ps: seq<Morph>) returns (i: int, o: int)
    requires AllWF(ps)
    ensures i == SeqIn(ps) && o == SeqIn(ps) + SeqDelta(ps)
    decreases ps, 0
  {
    var demand, delta := 0, 0;
    AllArityNonNegative(ps);
    for j := 0 to |ps|
      invariant AllWF(ps[j..])
      invariant SeqIn(ps) == Max(demand, SeqIn(ps[j..]) - delta)
      invariant SeqDelta(ps) == delta + SeqDelta(ps[j..])
      invariant demand + delta >= 0
    {
      assert ps[j..][0] == ps[j] && ps[j..][1..] == ps[j + 1..];
      var pi, po := MeasureArity(ps[j]);
      ArityNonNegative(ps[j]);
      demand := Max(demand, pi - delta);
      delta := delta + po - pi;
    }
    assert ps[|ps|..] == [];
    i, o := demand, demand + delta;
  }

  method MeasurePar(ps: seq<Morph>) returns (i: int, o: int)
    requires AllWF(ps)
    ensures i == ParIn(ps) && o == ParOut(ps)
    decreases ps, 0
  {
    i, o := 0, 0;
    for j := 0 to |ps|
      invariant AllWF(ps[j..])
      invariant ParIn(ps) == i + ParIn(ps[j..]) && ParOut(ps) == o + ParOut(ps[j..])
    {
      assert ps[j..][0] == ps[j] && ps[j..][1..] == ps[j + 1..];
      var pi, po := MeasureArity(ps[j]);
      i, o := i + pi, o + po;
    }
    assert ps[|ps|..] == [];
  }

  method Run(m: Morph, w: seq<Term>) returns (r: seq<Term>)
    requires WF(m) && In(m) <= |w|
    ensures r == Apply(m, w)
    decreases m, 0
  {
    ArityNonNegative(m);
    match m
    case Leaf(t) => r := [t] + w;
    case Arr(op, n, attrs) => r := [Op(op, w[..n], attrs)] + w[n..];
    case Id(_) => r := w;
    case Dup(k) => r := seq(k, _ => w[0]) + w[1..];
    case Perm(order) => r := Reindex(order, w) + w[|order|..];
    case Drop => r := w[1..];
    case Seq(ps) => r := RunSeq(ps, w);
    case Par(ps) => r := RunPar(ps, w);
    case Loop(step, n, nx, ny) => r := RunLoop(step, n, nx, ny, w);
  }

  method RunSeq(ps: seq<Morph>, w: seq<Term>) returns (r: seq<Term>)
    requires AllWF(ps) && SeqIn(ps) <= |w|
    ensures r == ApplySeq(ps, w)
    decreases ps, 0
  {
    r := w;
    for j := 0 to |ps|
      invariant AllWF(ps[j..]) && SeqIn(ps[j..]) <= |r|
      invariant ApplySeq(ps[j..], r) == ApplySeq(ps, w)
    {
      assert ps[j..][0] == ps[j] && ps[j..][1..] == ps[j + 1..];
      r := Run(ps[j], r);
    }
    assert ps[|ps|..] == [];
  }

  method RunPar(ps: seq<Morph>, w: seq<Term>) returns (r: seq<Term>)
    requires AllWF(ps) && ParIn(ps) <= |w|
    ensures r == ApplyPar(ps, w)
    decreases ps, 0
  {
    hide Apply, In, Out, WF;
    var cur, out := 0, [];
    for j := 0 to |ps|
      invariant 0 <= cur <= |w| && AllWF(ps[j..]) && ParIn(ps[j..]) <= |w[cur..]|
      invariant out + ApplyPar(ps[j..], w[cur..]) == ApplyPar(ps, w)
    {
      var i := MeasurePart(ps, j);
      ParStep(ps[j..], w[cur..], out);
      Resume(w, cur, i);
      var res := Run(ps[j], w[cur..cur + i]);
      out, cur := out + res, cur + i;
    }
    assert ps[|ps|..] == [];
    r := out + w[cur..];
  }

  method MeasurePart(ps: seq<Morph>, j: nat) returns (i: nat)
    requires j < |ps| && AllWF(ps[j..])
    ensures i == In(ps[j]) && ps[j..][0] == ps[j] && ps[j..][1..] == ps[j + 1..]
    decreases ps, 0
  {
    assert ps[j..][0] == ps[j];
    var n, _ := MeasureArity(ps[j]);
    ArityNonNegative(ps[j]);
    i := n;
  }

  lemma ParStep(ps: seq<Morph>, w: seq<Term>, out: seq<Term>)
    requires AllWF(ps) && ps != [] && ParIn(ps) <= |w|
    ensures WF(ps[0]) && 0 <= In(ps[0]) <= |w| && ParIn(ps[1..]) <= |w[In(ps[0])..]|
    ensures out + ApplyPar(ps, w) == out + Apply(ps[0], w[..In(ps[0])]) + ApplyPar(ps[1..], w[In(ps[0])..])
  {
    ArityNonNegative(ps[0]);
    AllArityNonNegative(ps[1..]);
    ConcatAssoc(out, Apply(ps[0], w[..In(ps[0])]), ApplyPar(ps[1..], w[In(ps[0])..]));
  }

  lemma Resume<T>(w: seq<T>, cur: nat, i: nat)
    requires cur + i <= |w|
    ensures w[cur..][..i] == w[cur..cur + i] && w[cur..][i..] == w[cur + i..]
  {
  }

  method RunLoop(step: Morph, n: int, nx: int, ny: int, w: seq<Term>) returns (r: seq<Term>)
    requires n >= 0 && nx >= 1 && ny >= 0 && WF(step) && In(step) == 1 + nx && Out(step) == 1 + ny
    requires 1 + Groups(n, nx) <= |w|
    ensures r == ApplyLoop(step, n, nx, ny, w[0], w[1..])
    decreases step, 1
  {
    hide *;
    var state, pos, outs := w[0], 1, [];
    JoinedNone(ApplyLoop(step, n, nx, ny, state, w[1..]));
    for i := 0 to n
      invariant 1 <= pos <= |w| && Groups(n - i, nx) <= |w[pos..]|
      invariant Joined(outs, ApplyLoop(step, n - i, nx, ny, state, w[pos..])) == ApplyLoop(step, n, nx, ny, w[0], w[1..])
    {
      GroupsStep(n - i, nx);
      Resume(w, pos, nx);
      var res := Run(step, [state] + w[pos..pos + nx]);
      LoopStep(step, n - i, nx, ny, outs, state, w[pos..]);
      pos := pos + nx;
      state, outs := res[0], outs + res[1..];
    }
    LoopDone(step, nx, ny, outs, state, w[pos..]);
    r := [state] + outs + w[pos..];
  }

  lemma GroupsStep(n: int, k: int)
    requires n > 0 && k >= 0
    ensures Groups(n, k) == k + Groups(n - 1, k) && Groups(n - 1, k) >= 0
  {
  }

  // Outputs collected so far, spliced behind the state of what is to come.
  function Joined(outs: seq<Term>, rest: seq<Term>): seq<Term>
    requires rest != []
  {
    [rest[0]] + outs + rest[1..]
  }

  lemma JoinedNone(rest: seq<Term>)
    requires rest != []
    ensures Joined([], rest) == rest
  {
  }

  lemma LoopDone(step: Morph, nx: int, ny: int, outs: seq<Term>, state: Term, xs: seq<Term>)
    requires nx >= 1 && ny >= 0 && WF(step) && In(step) == 1 + nx && Out(step) == 1 + ny
    ensures Joined(outs, ApplyLoop(step, 0, nx, ny, state, xs)) == [state] + outs + xs
  {
  }

  lemma LoopStep(step: Morph, n: int, nx: int, ny: int, outs: seq<Term>, state: Term, xs: seq<Term>)
    requires n > 0 && nx >= 1 && ny >= 0 && WF(step) && In(step) == 1 + nx && Out(step) == 1 + ny
    requires Groups(n, nx) <= |xs|
    ensures var res := Apply(step, [state] + xs[..nx]);
      Joined(outs, ApplyLoop(step, n, nx, ny, state, xs))
      == Joined(outs + res[1..], ApplyLoop(step, n - 1, nx, ny, res[0], xs[nx..]))
  {
    var res := Apply(step, [state] + xs[..nx]);
    JoinedStep(outs, res, ApplyLoop(step, n - 1, nx, ny, res[0], xs[nx..]));
  }

  lemma JoinedStep(outs: seq<Term>, res: seq<Term>, rest: seq<Term>)
    requires res != [] && rest != []
    ensures Joined(outs, [rest[0]] + res[1..] + rest[1..]) == Joined(outs + res[1..], rest)
  {
  }
}
