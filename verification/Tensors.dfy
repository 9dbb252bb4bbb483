// Splits of tensors of any rank: when a block split passes under an inserted
// axis, and when it distributes over a broadcasting product.

module Tensors {
  import opened Wrappers
  import opened Bisection

  // Entries are read through full index tuples.
  datatype Tensor = Tensor(shape: seq<int>, at: seq<int> -> real)

  predicate InRange(idx: seq<int>, shape: seq<int>) {
    |idx| == |shape| && forall j :: 0 <= j < |idx| ==> 0 <= idx[j] < shape[j]
  }

  // The same shape, the same entries.
  ghost predicate Same(t: Tensor, u: Tensor) {
    t.shape == u.shape && forall idx :: InRange(idx, t.shape) ==> t.at(idx) == u.at(idx)
  }

  // A signed axis of a tensor of rank r.
  predicate IsAxis(d: int, r: int) {
    -r <= d < r
  }

  function Axis(d: int, r: int): (ax: int)
    requires r > 0
    ensures 0 <= ax < r
  {
    d % r
  }

  lemma AxisIs(d: int, r: int)
    requires r > 0 && IsAxis(d, r)
    ensures Axis(d, r) == if d < 0 then d + r else d
  {
    var q := d / r;
    Divides(d, r, q, d % r);
    var want := if d < 0 then -1 else 0;
    if q < want {
      Multiples(q, want - 1, r);
    } else if q > want {
      Multiples(want + 1, q, r);
    }
  }

  lemma Multiples(p: int, q: int, r: int)
    requires p <= q && r > 0
    ensures p * r <= q * r
  {
  }

  function Bump(idx: seq<int>, ax: int, shift: int): (r: seq<int>)
    ensures |r| == |idx|
    ensures forall j :: 0 <= j < |idx| ==> r[j] == if j == ax then idx[j] + shift else idx[j]
  {
    if 0 <= ax < |idx| then idx[ax := idx[ax] + shift] else idx
  }

  // The i-th block of an axis.
  function SplitAt(t: Tensor, sizes: seq<int>, ax: int, i: int): Tensor
    requires 0 <= ax < |t.shape| && 0 <= i < |sizes|
  {
    Tensor(t.shape[ax := sizes[i]], (idx: seq<int>) => t.at(Bump(idx, ax, Start(sizes, i))))
  }

  predicate SplitOk(t: Tensor, sizes: seq<int>, d: int, i: int) {
    && Positive(sizes) && 0 <= i < |sizes| && t.shape != [] && IsAxis(d, |t.shape|)
    && t.shape[Axis(d, |t.shape|)] == Total(sizes)
  }

  function Split(t: Tensor, sizes: seq<int>, d: int, i: int): Tensor
    requires SplitOk(t, sizes, d, i)
  {
    SplitAt(t, sizes, Axis(d, |t.shape|), i)
  }

  lemma {:induction false} StartBelow(sizes: seq<int>, i: int)
    requires Positive(sizes) && 0 <= i < |sizes|
    ensures 0 <= Start(sizes, i) && Start(sizes, i) + sizes[i] <= Total(sizes)
    decreases |sizes|
  {
    var n := |sizes| - 1;
    TotalNonNegative(sizes[..n]);
    if n <= i {
    } else {
      StartBelow(sizes[..n], i);
      assert sizes[..n][..i] == sizes[..i];
    }
  }

  // The blocks of an axis tile it: each entry of the tensor stands in one of
  // them, as far along as it stands beyond the blocks before.
  lemma SplitsTile(t: Tensor, sizes: seq<int>, d: int, idx: seq<int>) returns (i: int)
    requires SplitOk(t, sizes, d, 0) && InRange(idx, t.shape)
    ensures SplitOk(t, sizes, d, i)
    ensures var back := Bump(idx, Axis(d, |t.shape|), -Start(sizes, i));
      InRange(back, Split(t, sizes, d, i).shape) && Split(t, sizes, d, i).at(back) == t.at(idx)
  {
    hide Total, Start;
    var ax := Axis(d, |t.shape|);
    i := BlockOf(sizes, idx[ax]);
    var s := Start(sizes, i);
    assert Bump(Bump(idx, ax, -s), ax, s) == idx;
  }

  lemma {:induction false} BlockOf(sizes: seq<int>, p: int) returns (i: int)
    requires Positive(sizes) && 0 <= p < Total(sizes)
    ensures 0 <= i < |sizes| && Start(sizes, i) <= p < Start(sizes, i) + sizes[i]
    decreases |sizes|
  {
    var n := |sizes| - 1;
    if p < Total(sizes[..n]) {
      i := BlockOf(sizes[..n], p);
      assert sizes[..n][..i] == sizes[..i];
    } else {
      i := n;
    }
  }

  // ---------------------------------------------------------------------------
  //  Under an inserted axis
  // ---------------------------------------------------------------------------

  function Insert<T>(s: seq<T>, at: int, x: T): (r: seq<T>)
    requires 0 <= at <= |s|
    ensures |r| == |s| + 1
    ensures forall j :: 0 <= j < |r| ==> r[j] == if j < at then s[j] else if j == at then x else s[j - 1]
  {
    s[..at] + [x] + s[at..]
  }

  function Remove(s: seq<int>, at: int): (r: seq<int>)
    ensures 0 <= at < |s| ==> |r| == |s| - 1
    ensures 0 <= at < |s| ==> forall j :: 0 <= j < |r| ==> r[j] == if j < at then s[j] else s[j + 1]
  {
    if 0 <= at < |s| then s[..at] + s[at + 1..] else s
  }

  function InsertAxis(t: Tensor, ax: int): Tensor
    requires 0 <= ax <= |t.shape|
  {
    Tensor(Insert(t.shape, ax, 1), (idx: seq<int>) => t.at(Remove(idx, ax)))
  }

  function Unsqueeze(t: Tensor, u: int): Tensor {
    InsertAxis(t, Axis(u, |t.shape| + 1))
  }

  // The inserted axis has one entry, and there the tensor is unchanged.
  lemma UnsqueezeReads(t: Tensor, u: int, idx: seq<int>)
    requires |idx| == |t.shape|
    ensures var ax := Axis(u, |t.shape| + 1);
      Unsqueeze(t, u).shape[ax] == 1 && Unsqueeze(t, u).at(Insert(idx, ax, 0)) == t.at(idx)
  {
    var ax := Axis(u, |t.shape| + 1);
    assert Remove(Insert(idx, ax, 0), ax) == idx;
  }

  // The axis the split takes below the insertion, where the law applies.
  function DeriveSplitUnsqueeze(shape: seq<int>, sizes: seq<int>, d: int, u: int, i: int): Option<int> {
    if !Positive(sizes) || !(0 <= i < |sizes|) then None
    else
      var ra := |shape|;
      var uOut, dOut := Axis(u, ra + 1), Axis(d, ra + 1);
      if dOut == uOut then None
      else
        var p := Below(dOut, uOut);
        if shape[p] != Total(sizes) then None else Some(p - ra)
  }

  // The law applies exactly where the split of the unsqueezed tensor is defined
  // on an axis other than the inserted one.
  lemma DerivesExactly(a: Tensor, sizes: seq<int>, d: int, u: int, i: int)
    requires IsAxis(d, |a.shape| + 1)
    ensures DeriveSplitUnsqueeze(a.shape, sizes, d, u, i).Some? <==>
      SplitOk(Unsqueeze(a, u), sizes, d, i) && Axis(d, |a.shape| + 1) != Axis(u, |a.shape| + 1)
  {
    hide Total, Positive, InsertAxis, Axis;
    InsertedShape(a, Axis(u, |a.shape| + 1));
  }

  // A split commutes with the insertion of an axis it does not cut, at every
  // rank and every signed axis.
  lemma SplitUnsqueeze(a: Tensor, sizes: seq<int>, d: int, u: int, i: int)
    requires IsAxis(d, |a.shape| + 1) && DeriveSplitUnsqueeze(a.shape, sizes, d, u, i).Some?
    ensures var dp := DeriveSplitUnsqueeze(a.shape, sizes, d, u, i).value;
      && SplitOk(Unsqueeze(a, u), sizes, d, i) && SplitOk(a, sizes, dp, i)
      && Same(Split(Unsqueeze(a, u), sizes, d, i), Unsqueeze(Split(a, sizes, dp, i), u))
  {
    hide Total, Start, Positive, Same, InsertAxis, SplitAt, Insert;
    var ra := |a.shape|;
    var uOut, dOut := Axis(u, ra + 1), Axis(d, ra + 1);
    var p := Below(dOut, uOut);
    AxisIs(p - ra, ra);
    InsertedShape(a, uOut);
    SplitShape(a, sizes, p, i);
    SplitUnderInsert(a, sizes, dOut, uOut, i);
  }

  // Where an axis of the larger tensor lies in the smaller one.
  function Below(d: int, u: int): int {
    if d < u then d else d - 1
  }

  lemma InsertedShape(a: Tensor, u: int)
    requires 0 <= u <= |a.shape|
    ensures |InsertAxis(a, u).shape| == |a.shape| + 1
    ensures forall d :: 0 <= d <= |a.shape| && d != u ==> InsertAxis(a, u).shape[d] == a.shape[Below(d, u)]
  {
  }

  lemma SplitUnderInsert(a: Tensor, sizes: seq<int>, d: int, u: int, i: int)
    requires 0 <= u <= |a.shape| && 0 <= d <= |a.shape| && d != u && 0 <= i < |sizes|
    ensures Same(SplitAt(InsertAxis(a, u), sizes, d, i), InsertAxis(SplitAt(a, sizes, Below(d, u), i), u))
  {
    hide Start, Insert, Remove, Bump;
    var lhs, rhs := SplitAt(InsertAxis(a, u), sizes, d, i), InsertAxis(SplitAt(a, sizes, Below(d, u), i), u);
    InsertUpdate(a.shape, u, d, sizes[i]);
    forall idx | InRange(idx, lhs.shape)
      ensures lhs.at(idx) == rhs.at(idx)
    {
      RemoveBump(idx, d, u, Start(sizes, i));
    }
  }

  lemma InsertUpdate(s: seq<int>, u: int, d: int, x: int)
    requires 0 <= u <= |s| && 0 <= d <= |s| && d != u
    ensures Insert(s, u, 1)[d := x] == Insert(s[Below(d, u) := x], u, 1)
  {
  }

  lemma RemoveBump(idx: seq<int>, d: int, u: int, shift: int)
    requires 0 <= u < |idx| && 0 <= d < |idx| && d != u
    ensures Remove(Bump(idx, d, shift), u) == Bump(Remove(idx, u), Below(d, u), shift)
  {
  }

  // ---------------------------------------------------------------------------
  //  Over a broadcasting product
  // ---------------------------------------------------------------------------

  function Longer(ra: int, rb: int): int {
    if ra < rb then rb else ra
  }

  function MaxRank(a: seq<int>, b: seq<int>): int {
    Longer(|a|, |b|)
  }

  // An axis of the output grid, seen in an operand of lower rank.
  function Extent(shape: seq<int>, r: int, j: int): int
    requires |shape| <= r && 0 <= j < r
  {
    if j < r - |shape| then 1 else shape[j - (r - |shape|)]
  }

  predicate Fit(x: int, y: int) {
    x == y || x == 1 || y == 1
  }

  predicate Compatible(a: seq<int>, b: seq<int>) {
    var r := MaxRank(a, b);
    forall j :: 0 <= j < r ==> Fit(Extent(a, r, j), Extent(b, r, j))
  }

  function Broadcast(a: seq<int>, b: seq<int>): (s: seq<int>)
    ensures |s| == MaxRank(a, b)
    ensures forall j :: 0 <= j < |s| ==>
      s[j] == if Extent(a, |s|, j) == 1 then Extent(b, |s|, j) else Extent(a, |s|, j)
  {
    var r := MaxRank(a, b);
    seq(r, j requires 0 <= j < r => if Extent(a, r, j) == 1 then Extent(b, r, j) else Extent(a, r, j))
  }

  // The operand index behind an output index: right-aligned, and zero along
  // every axis of extent one.
  function Align(idx: seq<int>, shape: seq<int>): (r: seq<int>)
    ensures |r| == |shape|
    ensures |idx| >= |shape| ==>
      forall j :: 0 <= j < |shape| ==> r[j] == if shape[j] == 1 then 0 else idx[j + |idx| - |shape|]
  {
    seq(|shape|, j requires 0 <= j < |shape| =>
      if shape[j] == 1 || |idx| < |shape| then 0 else idx[j + |idx| - |shape|])
  }

  function Read(t: Tensor, idx: seq<int>): real {
    t.at(Align(idx, t.shape))
  }

  function Mul(a: Tensor, b: Tensor): Tensor {
    Tensor(Broadcast(a.shape, b.shape), (idx: seq<int>) => Read(a, idx) * Read(b, idx))
  }

  // With no axis of extent one, the shorter operand is read at the trailing
  // part of the index.
  lemma MulReads(a: Tensor, b: Tensor, idx: seq<int>)
    requires |idx| == |a.shape| >= |b.shape|
    requires (forall j :: 0 <= j < |a.shape| ==> a.shape[j] != 1) && forall j :: 0 <= j < |b.shape| ==> b.shape[j] != 1
    ensures Mul(a, b).at(idx) == a.at(idx) * b.at(idx[|idx| - |b.shape|..])
  {
    assert Align(idx, a.shape) == idx;
    assert Align(idx, b.shape) == idx[|idx| - |b.shape|..];
  }

  // An axis of extent one is read at its only entry, wherever the index is.
  lemma MulStretches(t: Tensor, idx: seq<int>, j: int, x: int)
    requires |idx| == |t.shape| && 0 <= j < |idx| && t.shape[j] == 1
    ensures Read(t, idx[j := x]) == Read(t, idx)
  {
    assert Align(idx[j := x], t.shape) == Align(idx, t.shape);
  }

  // The guard of the law: right-aligned to the product's grid, both operands
  // cover the split axis at the partition's total.
  predicate Covers(shape: seq<int>, r: int, na: int, total: int) {
    var nb := na - (r - |shape|);
    0 <= nb < |shape| && shape[nb] == total
  }

  predicate AlignedGuard(a: Tensor, b: Tensor, sizes: seq<int>, d: int, i: int) {
    && Positive(sizes) && 0 <= i < |sizes| && a.shape != [] && b.shape != []
    && var r := MaxRank(a.shape, b.shape);
       Covers(a.shape, r, Axis(d, r), Total(sizes)) && Covers(b.shape, r, Axis(d, r), Total(sizes))
  }

  // Some axis of the operand, given by its distance from the end, can be split.
  predicate SplitsFromEnd(t: Tensor, sizes: seq<int>, back: int, i: int) {
    0 < back <= |t.shape| && SplitOk(t, sizes, |t.shape| - back, i)
  }

  // The guard passes exactly when both operands can be split: at the axis
  // itself when it is negative, at the axis as far from the end when it is not.
  // An axis out of range is reduced into it.
  lemma GuardExactly(a: Tensor, b: Tensor, sizes: seq<int>, d: int, i: int)
    ensures var r := MaxRank(a.shape, b.shape);
      && (IsAxis(d, r) && d < 0 ==>
            (AlignedGuard(a, b, sizes, d, i) <==> SplitOk(a, sizes, d, i) && SplitOk(b, sizes, d, i)))
      && (IsAxis(d, r) && d >= 0 ==>
            (AlignedGuard(a, b, sizes, d, i) <==> SplitsFromEnd(a, sizes, r - d, i) && SplitsFromEnd(b, sizes, r - d, i)))
      && (r > 0 ==> IsAxis(Axis(d, r), r) && (AlignedGuard(a, b, sizes, d, i) <==> AlignedGuard(a, b, sizes, Axis(d, r), i)))
  {
    hide Total, Positive, Axis;
    var r := MaxRank(a.shape, b.shape);
    if r > 0 {
      AxisIs(Axis(d, r), r);
      if IsAxis(d, r) {
        AxisIs(d, r);
        CoversExactly(a, sizes, r, Axis(d, r), d, i);
        CoversExactly(b, sizes, r, Axis(d, r), d, i);
      }
    }
  }

  lemma CoversExactly(t: Tensor, sizes: seq<int>, r: int, na: int, d: int, i: int)
    requires |t.shape| <= r && IsAxis(d, r) && na == if d < 0 then d + r else d
    ensures Positive(sizes) && 0 <= i < |sizes| && d < 0 ==>
      (Covers(t.shape, r, na, Total(sizes)) <==> SplitOk(t, sizes, d, i))
    ensures Positive(sizes) && 0 <= i < |sizes| && d >= 0 ==>
      (Covers(t.shape, r, na, Total(sizes)) <==> SplitsFromEnd(t, sizes, r - d, i))
  {
    hide Total, Positive, Axis;
    var n := |t.shape|;
    if n > 0 {
      if IsAxis(d, n) {
        AxisIs(d, n);
      }
      if 0 < r - d <= n {
        AxisIs(n - (r - d), n);
      }
    }
  }

  // The split of the product is defined.
  predicate ProductSplits(a: Tensor, b: Tensor, sizes: seq<int>, d: int, i: int) {
    Compatible(a.shape, b.shape) && SplitOk(Mul(a, b), sizes, d, i)
  }

  // The product of the splits is defined, and is the split of the product.
  ghost predicate Distributes(a: Tensor, b: Tensor, sizes: seq<int>, d: int, i: int)
    requires ProductSplits(a, b, sizes, d, i)
  {
    && SplitOk(a, sizes, d, i) && SplitOk(b, sizes, d, i)
    && Compatible(Split(a, sizes, d, i).shape, Split(b, sizes, d, i).shape)
    && Same(Split(Mul(a, b), sizes, d, i), Mul(Split(a, sizes, d, i), Split(b, sizes, d, i)))
  }

  // Reading a split operand is reading the operand further along.
  lemma ReadSplit(t: Tensor, sizes: seq<int>, ax: int, i: int, idx: seq<int>)
    requires Positive(sizes) && 0 <= i < |sizes| && 0 <= ax < |t.shape| <= |idx| && t.shape[ax] == Total(sizes)
    requires 0 <= idx[ax + |idx| - |t.shape|] < sizes[i]
    ensures Read(SplitAt(t, sizes, ax, i), idx) == Read(t, Bump(idx, ax + |idx| - |t.shape|, Start(sizes, i)))
  {
    hide Total, Start;
    StartBelow(sizes, i);
    var s, u := Start(sizes, i), SplitAt(t, sizes, ax, i);
    var x, y := Bump(Align(idx, u.shape), ax, s), Align(Bump(idx, ax + |idx| - |t.shape|, s), t.shape);
    forall j | 0 <= j < |t.shape|
      ensures x[j] == y[j]
    {
    }
    assert x == y;
  }

  lemma CutShapes(a: seq<int>, b: seq<int>, na: int, x: int)
    requires Compatible(a, b)
    requires var r := MaxRank(a, b); 0 <= na - (r - |a|) < |a| && 0 <= na - (r - |b|) < |b|
    ensures var r := MaxRank(a, b);
      var ca, cb := a[na - (r - |a|) := x], b[na - (r - |b|) := x];
      Compatible(ca, cb) && Broadcast(ca, cb) == Broadcast(a, b)[na := x]
  {
    var r := MaxRank(a, b);
    var ca, cb := a[na - (r - |a|) := x], b[na - (r - |b|) := x];
    forall j | 0 <= j < r
      ensures Extent(ca, r, j) == if j == na then x else Extent(a, r, j)
      ensures Extent(cb, r, j) == if j == na then x else Extent(b, r, j)
    {
    }
    assert Broadcast(ca, cb) == Broadcast(a, b)[na := x];
  }

  // With a negative axis, or operands of equal rank, a split distributes over
  // the product whenever the guard holds.
  lemma SplitMulAligned(a: Tensor, b: Tensor, sizes: seq<int>, d: int, i: int)
    requires AlignedGuard(a, b, sizes, d, i) && ProductSplits(a, b, sizes, d, i)
    requires d < 0 || |a.shape| == |b.shape|
    ensures Distributes(a, b, sizes, d, i)
  {
    hide Total, Start, Compatible, Broadcast, Read, Same, SplitAt, Positive;
    var r := MaxRank(a.shape, b.shape);
    AxisIs(d, r);
    AxisIs(d, |a.shape|);
    AxisIs(d, |b.shape|);
    CutShapes(a.shape, b.shape, Axis(d, r), sizes[i]);
    SplitShape(a, sizes, Axis(d, |a.shape|), i);
    SplitShape(b, sizes, Axis(d, |b.shape|), i);
    SplitOverMul(a, b, sizes, Axis(d, r), i);
  }

  lemma SplitShape(t: Tensor, sizes: seq<int>, ax: int, i: int)
    requires 0 <= ax < |t.shape| && 0 <= i < |sizes|
    ensures SplitAt(t, sizes, ax, i).shape == t.shape[ax := sizes[i]]
  {
  }

  lemma SplitOverMul(a: Tensor, b: Tensor, sizes: seq<int>, na: int, i: int)
    requires Positive(sizes) && 0 <= i < |sizes| && Compatible(a.shape, b.shape)
    requires var r := MaxRank(a.shape, b.shape);
      0 <= na < r && Covers(a.shape, r, na, Total(sizes)) && Covers(b.shape, r, na, Total(sizes))
    ensures var r := MaxRank(a.shape, b.shape);
      Same(SplitAt(Mul(a, b), sizes, na, i),
           Mul(SplitAt(a, sizes, na - (r - |a.shape|), i), SplitAt(b, sizes, na - (r - |b.shape|), i)))
  {
    hide Total, Start, Compatible, Broadcast, Read, Bump, Positive;
    var r := MaxRank(a.shape, b.shape);
    var nb, nc := na - (r - |a.shape|), na - (r - |b.shape|);
    var ca, cb := SplitAt(a, sizes, nb, i), SplitAt(b, sizes, nc, i);
    CutShapes(a.shape, b.shape, na, sizes[i]);
    var lhs := SplitAt(Mul(a, b), sizes, na, i);
    forall idx | InRange(idx, lhs.shape)
      ensures lhs.at(idx) == Mul(ca, cb).at(idx)
    {
      assert |idx| == r && 0 <= idx[na] < sizes[i];
      SplitEntry(a, b, sizes, na, i, idx);
    }
  }

  lemma SplitEntry(a: Tensor, b: Tensor, sizes: seq<int>, na: int, i: int, idx: seq<int>)
    requires Positive(sizes) && 0 <= i < |sizes| && |idx| == MaxRank(a.shape, b.shape)
    requires var r := MaxRank(a.shape, b.shape);
      0 <= na < r && Covers(a.shape, r, na, Total(sizes)) && Covers(b.shape, r, na, Total(sizes))
    requires 0 <= idx[na] < sizes[i]
    ensures var r := MaxRank(a.shape, b.shape);
      SplitAt(Mul(a, b), sizes, na, i).at(idx)
      == Mul(SplitAt(a, sizes, na - (r - |a.shape|), i), SplitAt(b, sizes, na - (r - |b.shape|), i)).at(idx)
  {
    hide Total, Start, Broadcast, Read, Bump, Positive;
    var r := MaxRank(a.shape, b.shape);
    ReadSplit(a, sizes, na - (r - |a.shape|), i, idx);
    ReadSplit(b, sizes, na - (r - |b.shape|), i, idx);
  }

  function Twos(r: nat): Tensor {
    Tensor(seq(r, _ => 2), _ => 0.0)
  }

  // On operands of different rank a non-negative axis cuts the shorter operand
  // elsewhere, if it has that axis at all.
  lemma MisalignedSplit(ra: nat, rb: nat, d: int)
    requires ra > 0 && rb > 0 && ra != rb && Gap(ra, rb) <= d < Longer(ra, rb)
    ensures AlignedGuard(Twos(ra), Twos(rb), [1, 1], d, 0) && ProductSplits(Twos(ra), Twos(rb), [1, 1], d, 0)
    ensures !Distributes(Twos(ra), Twos(rb), [1, 1], d, 0)
  {
    hide *;
    RankGap(ra, rb);
    if ra < rb {
      LongerFirst(rb, ra, d);
      Flips(Twos(rb), Twos(ra), [1, 1], d, 0);
    } else {
      LongerFirst(ra, rb, d);
    }
  }

  function Gap(ra: int, rb: int): int {
    if ra < rb then rb - ra else ra - rb
  }

  lemma RankGap(ra: int, rb: int)
    ensures if ra < rb then Gap(ra, rb) == rb - ra && Longer(ra, rb) == rb else Gap(ra, rb) == ra - rb && Longer(ra, rb) == ra
  {
  }

  lemma LongerFirst(ra: nat, rb: nat, d: int)
    requires 0 < rb < ra && ra - rb <= d < ra
    ensures AlignedGuard(Twos(ra), Twos(rb), [1, 1], d, 0) && ProductSplits(Twos(ra), Twos(rb), [1, 1], d, 0)
    ensures !Distributes(Twos(ra), Twos(rb), [1, 1], d, 0)
  {
    hide Total, Start, Same, Broadcast, Compatible;
    var a, b := Twos(ra), Twos(rb);
    TwoOnes();
    AxisIs(d, ra);
    BroadcastTwos(ra, rb);
    if d < rb {
      AxisIs(d, rb);
      CutElsewhere(ra, rb, d);
      if Distributes(a, b, [1, 1], d, 0) {
        SameShape(Split(Mul(a, b), [1, 1], d, 0), Mul(Split(a, [1, 1], d, 0), Split(b, [1, 1], d, 0)));
      }
    }
  }

  // The product does not mind the order of its operands.
  lemma MulFlips(a: Tensor, b: Tensor)
    ensures Compatible(a.shape, b.shape) <==> Compatible(b.shape, a.shape)
    ensures Compatible(a.shape, b.shape) ==> Mul(a, b).shape == Mul(b, a).shape
    ensures forall idx :: Mul(a, b).at(idx) == Mul(b, a).at(idx)
  {
    hide Read, Extent;
    var r := MaxRank(a.shape, b.shape);
    assert r == MaxRank(b.shape, a.shape);
    if Compatible(a.shape, b.shape) {
      assert forall j :: 0 <= j < r ==> Fit(Extent(a.shape, r, j), Extent(b.shape, r, j));
      assert Broadcast(a.shape, b.shape) == Broadcast(b.shape, a.shape);
    }
    if Compatible(b.shape, a.shape) {
      assert forall j :: 0 <= j < r ==> Fit(Extent(b.shape, r, j), Extent(a.shape, r, j));
    }
  }

  lemma Flips(a: Tensor, b: Tensor, sizes: seq<int>, d: int, i: int)
    requires AlignedGuard(a, b, sizes, d, i) && ProductSplits(a, b, sizes, d, i)
    ensures AlignedGuard(b, a, sizes, d, i) && ProductSplits(b, a, sizes, d, i)
    ensures Distributes(b, a, sizes, d, i) ==> Distributes(a, b, sizes, d, i)
  {
    hide Read, Extent, Broadcast, Compatible, Mul, Total, Start, Positive, Axis;
    MulFlips(a, b);
    if Distributes(b, a, sizes, d, i) {
      var ca, cb := Split(a, sizes, d, i), Split(b, sizes, d, i);
      MulFlips(ca, cb);
      SplitSame(Mul(a, b), Mul(b, a), sizes, d, i);
      SameChain(Split(Mul(a, b), sizes, d, i), Split(Mul(b, a), sizes, d, i), Mul(cb, ca), Mul(ca, cb));
    }
  }

  lemma SplitSame(t: Tensor, u: Tensor, sizes: seq<int>, d: int, i: int)
    requires SplitOk(t, sizes, d, i) && t.shape == u.shape && forall idx :: t.at(idx) == u.at(idx)
    ensures SplitOk(u, sizes, d, i) && Same(Split(t, sizes, d, i), Split(u, sizes, d, i))
  {
    hide Total, Start, Positive, Axis, Bump;
    var lhs, rhs := Split(t, sizes, d, i), Split(u, sizes, d, i);
    forall idx | InRange(idx, lhs.shape)
      ensures lhs.at(idx) == rhs.at(idx)
    {
      var at := Bump(idx, Axis(d, |t.shape|), Start(sizes, i));
      assert t.at(at) == u.at(at);
    }
  }

  lemma SameChain(t: Tensor, u: Tensor, v: Tensor, w: Tensor)
    requires Same(t, u) && Same(u, v) && v.shape == w.shape && forall idx :: v.at(idx) == w.at(idx)
    ensures Same(t, w)
  {
  }

  lemma SameShape(t: Tensor, u: Tensor)
    requires Same(t, u)
    ensures t.shape == u.shape
  {
  }

  lemma TwoOnes()
    ensures Total([1, 1]) == 2 && Positive([1, 1])
  {
    assert [1, 1][..1] == [1] && [1][..0] == [];
    assert Total([1]) == 1;
  }

  lemma BroadcastTwos(ra: nat, rb: nat)
    requires rb < ra
    ensures Compatible(Twos(ra).shape, Twos(rb).shape) && Broadcast(Twos(ra).shape, Twos(rb).shape) == Twos(ra).shape
  {
  }

  // The longer operand is cut at d, the shorter one further right: the product
  // keeps its full extent at d.
  lemma CutElsewhere(ra: nat, rb: nat, d: int)
    requires 0 < rb < ra && ra - rb <= d < rb
    ensures var ca, cb := Twos(ra).shape[d := 1], Twos(rb).shape[d := 1];
      Broadcast(ca, cb)[d] == 2
  {
    var ca, cb := Twos(ra).shape[d := 1], Twos(rb).shape[d := 1];
    assert Extent(ca, ra, d) == 1 && Extent(cb, ra, d) == 2;
  }

  // The law holds at every rank pair and axis exactly where the axis is
  // negative, the ranks agree, or the guard can never pass.
  lemma SplitMulExactly(ra: nat, rb: nat, d: int)
    requires ra > 0 && rb > 0 && IsAxis(d, Longer(ra, rb))
    ensures (forall a: Tensor, b: Tensor, sizes: seq<int>, i: int ::
               |a.shape| == ra && |b.shape| == rb && AlignedGuard(a, b, sizes, d, i) && ProductSplits(a, b, sizes, d, i) ==>
                 Distributes(a, b, sizes, d, i))
      <==> d < 0 || ra == rb || d < Gap(ra, rb)
  {
    hide AlignedGuard, ProductSplits, Distributes;
    if d < 0 || ra == rb {
      forall a: Tensor, b: Tensor, sizes: seq<int>, i: int
        | |a.shape| == ra && |b.shape| == rb && AlignedGuard(a, b, sizes, d, i) && ProductSplits(a, b, sizes, d, i)
        ensures Distributes(a, b, sizes, d, i)
      {
        SplitMulAligned(a, b, sizes, d, i);
      }
    } else if d < Gap(ra, rb) {
      forall a: Tensor, b: Tensor, sizes: seq<int>, i: int | |a.shape| == ra && |b.shape| == rb
        ensures !AlignedGuard(a, b, sizes, d, i)
      {
        NeverAligned(a, b, sizes, d, i);
      }
    } else {
      MisalignedSplit(ra, rb, d);
      assert |Twos(ra).shape| == ra && |Twos(rb).shape| == rb;
    }
  }

  lemma NeverAligned(a: Tensor, b: Tensor, sizes: seq<int>, d: int, i: int)
    requires 0 <= d < Gap(|a.shape|, |b.shape|)
    ensures !AlignedGuard(a, b, sizes, d, i)
  {
    if a.shape != [] && b.shape != [] {
      AxisIs(d, MaxRank(a.shape, b.shape));
    }
  }
}
