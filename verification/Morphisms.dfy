// The wire-bundle morphisms: their arities, their action on a bundle of
// terms, and the frame law every later proof rests on.

module Morphisms {
  import opened Terms

  // A morphism consumes a prefix of the ambient wires and prepends its
  // outputs.  Widths are integers, as in the source, so that an ill-formed
  // spelling can be written down and shown never to match.
  datatype Morph =
    | Leaf(term: Term)
    | Arr(op: string, n: int, attrs: Attrs)
    | Id(width: int)
    | Dup(k: int)
    | Perm(order: seq<int>)
    | Drop
    | Seq(parts: seq<Morph>)
    | Par(parts: seq<Morph>)
    | Loop(step: Morph, n: int, nx: int, ny: int)

  function Max(a: int, b: int): int {
    if a < b then b else a
  }

  predicate Distinct<T(==)>(s: seq<T>) {
    forall i, j :: 0 <= i < j < |s| ==> s[i] != s[j]
  }

  predicate IsPerm(order: seq<int>) {
    && (forall i :: 0 <= i < |order| ==> 0 <= order[i] < |order|)
    && Distinct(order)
  }

  // ---------------------------------------------------------------------------
  //  Arity
  // ---------------------------------------------------------------------------

  // n groups of k wires: the product n*k, by repeated addition.
  function Groups(n: int, k: int): (r: int)
    ensures n >= 0 && k >= 0 ==> r >= 0
    decreases if n < 0 then -n else n
  {
    if n == 0 then 0 else if n > 0 then k + Groups(n - 1, k) else Groups(n + 1, k) - k
  }

  lemma {:induction false} GroupsIsProduct(n: int, k: int)
    ensures Groups(n, k) == n * k
    decreases if n < 0 then -n else n
  {
    if n > 0 {
      GroupsIsProduct(n - 1, k);
      OneMore(n - 1, k);
    } else if n < 0 {
      GroupsIsProduct(n + 1, k);
      OneMore(n, k);
    }
  }

  lemma OneMore(n: int, k: int)
    ensures (n + 1) * k == n * k + k
  {
  }

  lemma Distribute(a: int, b: int, d: int)
    ensures (a + b) * d == a * d + b * d
  {
  }

  // The wires a morphism consumes.
  function In(m: Morph): int {
    match m
    case Leaf(_) => 0
    case Arr(_, n, _) => n
    case Id(w) => w
    case Dup(_) => 1
    case Perm(order) => |order|
    case Drop => 1
    case Seq(ps) => SeqIn(ps)
    case Par(ps) => ParIn(ps)
    case Loop(_, n, nx, _) => 1 + Groups(n, nx)
  }

  // The wires a morphism produces.
  function Out(m: Morph): int {
    match m
    case Leaf(_) => 1
    case Arr(_, _, _) => 1
    case Id(w) => w
    case Dup(k) => k
    case Perm(order) => |order|
    case Drop => 0
    case Seq(ps) => SeqIn(ps) + SeqDelta(ps)
    case Par(ps) => ParOut(ps)
    case Loop(_, n, _, ny) => 1 + Groups(n, ny)
  }

  // The smallest initial bundle that never starves a part of a composition.
  function SeqIn(ps: seq<Morph>): int {
    if ps == [] then 0
    else Max(In(ps[0]), SeqIn(ps[1..]) - Out(ps[0]) + In(ps[0]))
  }

  // How much a composition lengthens the bundle.
  function SeqDelta(ps: seq<Morph>): int {
    if ps == [] then 0 else Out(ps[0]) - In(ps[0]) + SeqDelta(ps[1..])
  }

  function ParIn(ps: seq<Morph>): int {
    if ps == [] then 0 else In(ps[0]) + ParIn(ps[1..])
  }

  function ParOut(ps: seq<Morph>): int {
    if ps == [] then 0 else Out(ps[0]) + ParOut(ps[1..])
  }

  // No empty composition, no negative width, true permutations, and loop
  // bodies of the arity the loop was declared with.
  predicate WF(m: Morph) {
    match m
    case Leaf(_) => true
    case Arr(_, n, _) => n >= 0
    case Id(w) => w >= 0
    case Dup(k) => k >= 0
    case Perm(order) => IsPerm(order)
    case Drop => true
    case Seq(ps) => ps != [] && AllWF(ps)
    case Par(ps) => AllWF(ps)
    case Loop(step, n, nx, ny) =>
      n >= 1 && nx >= 1 && ny >= 0 && WF(step) && In(step) == 1 + nx && Out(step) == 1 + ny
  }

  predicate AllWF(ps: seq<Morph>) {
    if ps == [] then true else WF(ps[0]) && AllWF(ps[1..])
  }

  lemma {:induction false} ArityNonNegative(m: Morph)
    requires WF(m)
    ensures In(m) >= 0 && Out(m) >= 0
    decreases m, 0
  {
    match m
    case Seq(ps) => AllArityNonNegative(ps);
    case Par(ps) => AllArityNonNegative(ps);
    case Loop(_, n, nx, ny) => assert Groups(n, nx) >= 0 && Groups(n, ny) >= 0;
    case _ =>
  }

  lemma {:induction false} AllArityNonNegative(ps: seq<Morph>)
    requires AllWF(ps)
    ensures SeqIn(ps) >= 0 && SeqIn(ps) + SeqDelta(ps) >= 0
    ensures ParIn(ps) >= 0 && ParOut(ps) >= 0
    decreases ps, 0
  {
    if ps == [] {
    } else {
      ArityNonNegative(ps[0]);
      AllArityNonNegative(ps[1..]);
    }
  }

  lemma {:induction false} AllWFMember(ps: seq<Morph>, i: int)
    requires AllWF(ps) && 0 <= i < |ps|
    ensures WF(ps[i])
  {
    if i <= 0 {
    } else {
      AllWFMember(ps[1..], i - 1);
    }
  }

  // ---------------------------------------------------------------------------
  //  Action
  // ---------------------------------------------------------------------------

  // Apply a morphism to a prefix of the wires, keeping the rest as a tail.
  function Apply(m: Morph, w: seq<Term>): (r: seq<Term>)
    requires WF(m) && In(m) <= |w|
    ensures |r| == |w| - In(m) + Out(m)
    decreases m, 0
  {
    match m
    case Leaf(t) => [t] + w
    case Arr(op, n, attrs) => [Op(op, w[..n], attrs)] + w[n..]
    case Id(_) => w
    case Dup(k) => seq(k, _ => w[0]) + w[1..]
    case Perm(order) => Reindex(order, w) + w[|order|..]
    case Drop => w[1..]
    case Seq(ps) => ApplySeq(ps, w)
    case Par(ps) => ApplyPar(ps, w)
    case Loop(step, n, nx, ny) =>
      ApplyLoop(step, n, nx, ny, w[0], w[1..])
  }

  // The permuted wires: out[i] = in[order[i]].
  function Reindex(order: seq<int>, w: seq<Term>): (r: seq<Term>)
    requires forall i :: 0 <= i < |order| ==> 0 <= order[i] < |w|
    ensures |r| == |order|
    ensures forall i :: 0 <= i < |order| ==> r[i] == w[order[i]]
  {
    seq(|order|, i requires 0 <= i < |order| => w[order[i]])
  }

  function ApplySeq(ps: seq<Morph>, w: seq<Term>): (r: seq<Term>)
    requires AllWF(ps) && SeqIn(ps) <= |w|
    ensures |r| == |w| + SeqDelta(ps)
    decreases ps, 0
  {
    if ps == [] then w else ApplySeq(ps[1..], Apply(ps[0], w))
  }

  // The parts act on contiguous segments of the consumed prefix.
  function ApplyPar(ps: seq<Morph>, w: seq<Term>): (r: seq<Term>)
    requires AllWF(ps) && ParIn(ps) <= |w|
    ensures |r| == |w| - ParIn(ps) + ParOut(ps)
    decreases ps, 0
  {
    if ps == [] then w
    else
      AllArityNonNegative(ps);
      ArityNonNegative(ps[0]);
      AllArityNonNegative(ps[1..]);
      Apply(ps[0], w[..In(ps[0])]) + ApplyPar(ps[1..], w[In(ps[0])..])
  }

  // Fold the step over n input groups: the final state, the per-step outputs
  // in order, then the untouched wires.
  function ApplyLoop(step: Morph, n: int, nx: int, ny: int, state: Term, xs: seq<Term>): (r: seq<Term>)
    requires n >= 0 && nx >= 1 && ny >= 0 && WF(step) && In(step) == 1 + nx && Out(step) == 1 + ny
    requires Groups(n, nx) <= |xs|
    ensures |r| == 1 + |xs| - Groups(n, nx) + Groups(n, ny)
    decreases step, 1 + n
  {
    if n == 0 then [state] + xs
    else
      var res := Apply(step, [state] + xs[..nx]);
      var rest := ApplyLoop(step, n - 1, nx, ny, res[0], xs[nx..]);
      [rest[0]] + res[1..] + rest[1..]
  }

  // ---------------------------------------------------------------------------
  //  The frame law
  // ---------------------------------------------------------------------------

  // Wires beyond the arity pass through untouched.
  lemma {:induction false} Frame(m: Morph, w: seq<Term>, t: seq<Term>)
    requires WF(m) && In(m) <= |w|
    ensures Apply(m, w + t) == Apply(m, w) + t
    decreases m, 0
  {
    match m
    case Leaf(s) => ConcatAssoc([s], w, t);
    case Arr(op, n, attrs) =>
      SplitPrefix(w, t, n);
      ConcatAssoc([Op(op, w[..n], attrs)], w[n..], t);
    case Id(_) =>
    case Dup(k) =>
      SplitPrefix(w, t, 1);
      ConcatAssoc(seq(k, _ => w[0]), w[1..], t);
    case Perm(order) =>
      SplitPrefix(w, t, |order|);
      assert Reindex(order, w + t) == Reindex(order, w);
      ConcatAssoc(Reindex(order, w), w[|order|..], t);
    case Drop => SplitPrefix(w, t, 1);
    case Seq(ps) => FrameSeq(ps, w, t);
    case Par(ps) => FramePar(ps, w, t);
    case Loop(step, n, nx, ny) =>
      SplitPrefix(w, t, 1);
      FrameLoop(step, n, nx, ny, w[0], w[1..], t);
  }

  lemma {:induction false} FrameSeq(ps: seq<Morph>, w: seq<Term>, t: seq<Term>)
    requires AllWF(ps) && SeqIn(ps) <= |w|
    ensures ApplySeq(ps, w + t) == ApplySeq(ps, w) + t
    decreases ps, 0
  {
    if ps == [] {
    } else {
      Frame(ps[0], w, t);
      FrameSeq(ps[1..], Apply(ps[0], w), t);
    }
  }

  lemma {:induction false} FramePar(ps: seq<Morph>, w: seq<Term>, t: seq<Term>)
    requires AllWF(ps) && ParIn(ps) <= |w|
    ensures ApplyPar(ps, w + t) == ApplyPar(ps, w) + t
    decreases ps, 0
  {
    if ps == [] {
    } else {
      AllArityNonNegative(ps);
      ArityNonNegative(ps[0]);
      AllArityNonNegative(ps[1..]);
      var i := In(ps[0]);
      SplitPrefix(w, t, i);
      FramePar(ps[1..], w[i..], t);
      ConcatAssoc(Apply(ps[0], w[..i]), ApplyPar(ps[1..], w[i..]), t);
    }
  }

  lemma InterleaveTail(rest: seq<Term>, outs: seq<Term>, t: seq<Term>)
    requires rest != []
    ensures [(rest + t)[0]] + outs + (rest + t)[1..] == ([rest[0]] + outs + rest[1..]) + t
  {
  }

  lemma {:induction false} FrameLoop(step: Morph, n: int, nx: int, ny: int, state: Term, xs: seq<Term>, t: seq<Term>)
    requires n >= 0 && nx >= 1 && ny >= 0 && WF(step) && In(step) == 1 + nx && Out(step) == 1 + ny
    requires Groups(n, nx) <= |xs|
    ensures ApplyLoop(step, n, nx, ny, state, xs + t) == ApplyLoop(step, n, nx, ny, state, xs) + t
    decreases n
  {
    hide Apply, WF, In, Out;
    if n > 0 {
      SplitPrefix(xs, t, nx);
      var res := Apply(step, [state] + xs[..nx]);
      FrameLoop(step, n - 1, nx, ny, res[0], xs[nx..], t);
      InterleaveTail(ApplyLoop(step, n - 1, nx, ny, res[0], xs[nx..]), res[1..], t);
    } else {
      assert [state] + (xs + t) == ([state] + xs) + t;
    }
  }

  // A morphism acts on its own wires and leaves the tail.
  lemma ActsOnPrefix(m: Morph, w: seq<Term>)
    requires WF(m) && 0 <= In(m) <= |w|
    ensures Apply(m, w) == Apply(m, w[..In(m)]) + w[In(m)..]
  {
    TakeDrop(w, In(m));
    Frame(m, w[..In(m)], w[In(m)..]);
  }

  // ---------------------------------------------------------------------------
  //  Concatenated part lists
  // ---------------------------------------------------------------------------

  lemma {:induction false} AllWFConcat(ps: seq<Morph>, qs: seq<Morph>)
    ensures AllWF(ps + qs) == (AllWF(ps) && AllWF(qs))
  {
    if ps == [] {
      assert ps + qs == qs;
    } else {
      assert (ps + qs)[1..] == ps[1..] + qs;
      AllWFConcat(ps[1..], qs);
    }
  }

  lemma {:induction false} SeqConcatArity(ps: seq<Morph>, qs: seq<Morph>)
    requires AllWF(ps) && AllWF(qs)
    ensures SeqDelta(ps + qs) == SeqDelta(ps) + SeqDelta(qs)
    ensures SeqIn(ps + qs) == Max(SeqIn(ps), SeqIn(qs) - SeqDelta(ps))
  {
    AllArityNonNegative(qs);
    if ps == [] {
      assert ps + qs == qs;
    } else {
      assert (ps + qs)[1..] == ps[1..] + qs;
      SeqConcatArity(ps[1..], qs);
    }
  }

  lemma {:induction false} SeqConcat(ps: seq<Morph>, qs: seq<Morph>, w: seq<Term>)
    requires AllWF(ps) && AllWF(qs) && AllWF(ps + qs) && SeqIn(ps + qs) <= |w|
    ensures SeqIn(ps) <= |w| && SeqIn(qs) <= |w| + SeqDelta(ps)
    ensures ApplySeq(ps + qs, w) == ApplySeq(qs, ApplySeq(ps, w))
  {
    SeqConcatArity(ps, qs);
    if ps == [] {
      assert ps + qs == qs;
    } else {
      assert (ps + qs)[1..] == ps[1..] + qs;
      AllWFConcat(ps[1..], qs);
      SeqConcat(ps[1..], qs, Apply(ps[0], w));
    }
  }

  lemma SingleArity(p: Morph)
    ensures ParIn([p]) == In(p) && ParOut([p]) == Out(p)
    ensures SeqIn([p]) == Max(In(p), In(p) - Out(p)) && SeqDelta([p]) == Out(p) - In(p)
    ensures AllWF([p]) == WF(p)
  {
    assert [p][1..] == [];
  }

  lemma SeqSnocArity(ps: seq<Morph>, m: Morph)
    requires AllWF(ps) && WF(m)
    ensures AllWF(ps + [m]) && SeqDelta(ps + [m]) == SeqDelta(ps) + Out(m) - In(m)
    ensures SeqIn(ps + [m]) == Max(SeqIn(ps), In(m) - SeqDelta(ps))
  {
    SingleArity(m);
    ArityNonNegative(m);
    AllWFConcat(ps, [m]);
    SeqConcatArity(ps, [m]);
  }

  lemma SeqSnoc(ps: seq<Morph>, m: Morph, w: seq<Term>)
    requires AllWF(ps) && WF(m) && AllWF(ps + [m]) && SeqIn(ps + [m]) <= |w|
    ensures SeqIn(ps) <= |w| && In(m) <= |w| + SeqDelta(ps)
    ensures ApplySeq(ps + [m], w) == Apply(m, ApplySeq(ps, w))
  {
    SeqSnocArity(ps, m);
    SingleArity(m);
    SeqConcat(ps, [m], w);
    assert [m][1..] == [];
  }

  lemma PairArity(p: Morph, q: Morph)
    ensures ParIn([p, q]) == In(p) + In(q) && ParOut([p, q]) == Out(p) + Out(q)
    ensures WF(p) && WF(q) ==> AllWF([p, q])
  {
    SingleArity(q);
    assert [p, q][1..] == [q];
  }

  lemma {:induction false} ParConcatArity(ps: seq<Morph>, qs: seq<Morph>)
    ensures ParIn(ps + qs) == ParIn(ps) + ParIn(qs)
    ensures ParOut(ps + qs) == ParOut(ps) + ParOut(qs)
  {
    if ps == [] {
      assert ps + qs == qs;
    } else {
      assert (ps + qs)[1..] == ps[1..] + qs;
      ParConcatArity(ps[1..], qs);
    }
  }

  lemma ParCons(p: Morph, qs: seq<Morph>, a: seq<Term>, b: seq<Term>)
    requires WF(p) && AllWF(qs) && In(p) == |a| && ParIn(qs) <= |b|
    ensures AllWF([p] + qs) && ParIn([p] + qs) <= |a + b|
    ensures ApplyPar([p] + qs, a + b) == Apply(p, a) + ApplyPar(qs, b)
  {
    assert ([p] + qs)[1..] == qs;
    assert (a + b)[..In(p)] == a && (a + b)[In(p)..] == b;
  }

  lemma {:induction false} ParConcat(ps: seq<Morph>, qs: seq<Morph>, w1: seq<Term>, w2: seq<Term>)
    requires AllWF(ps) && AllWF(qs) && AllWF(ps + qs)
    requires ParIn(ps) == |w1| && ParIn(qs) <= |w2| && ParIn(ps + qs) <= |w1 + w2|
    ensures ApplyPar(ps + qs, w1 + w2) == ApplyPar(ps, w1) + ApplyPar(qs, w2)
  {
    if ps == [] {
      assert ps + qs == qs;
      assert w1 + w2 == w2;
    } else {
      assert (ps + qs)[1..] == ps[1..] + qs;
      AllWFConcat(ps[1..], qs);
      ParConcatArity(ps[1..], qs);
      ArityNonNegative(ps[0]);
      AllArityNonNegative(ps[1..]);
      var i := In(ps[0]);
      ParConcat(ps[1..], qs, w1[i..], w2);
      SplitPrefix(w1, w2, i);
      ConcatAssoc(Apply(ps[0], w1[..i]), ApplyPar(ps[1..], w1[i..]), ApplyPar(qs, w2));
    }
  }

  lemma SplitPrefix<T>(a: seq<T>, b: seq<T>, i: int)
    requires 0 <= i <= |a|
    ensures (a + b)[..i] == a[..i] && (a + b)[i..] == a[i..] + b
  {
  }

  lemma TakeDrop<T>(s: seq<T>, n: int)
    requires 0 <= n <= |s|
    ensures s[..n] + s[n..] == s
  {
  }

  lemma NilConcat<T>(s: seq<T>)
    ensures [] + s == s && s + [] == s
  {
  }

  lemma ConcatAssoc<T>(a: seq<T>, b: seq<T>, c: seq<T>)
    ensures a + (b + c) == (a + b) + c
  {
  }
}
