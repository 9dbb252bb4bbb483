// The contraction-axis bisection: a coarse state cut into signed pieces, and
// the scalar that slides into every piece's offset.

module Bisection {
  import opened Wrappers
  import opened Decay
  import opened Morphisms
  import opened Retention

  function Total(sizes: seq<int>): int {
    if sizes == [] then 0 else Total(sizes[..|sizes| - 1]) + sizes[|sizes| - 1]
  }

  // Where a piece of the partition starts.
  function Start(sizes: seq<int>, i: int): int
    requires 0 <= i <= |sizes|
  {
    Total(sizes[..i])
  }

  predicate Positive(sizes: seq<int>) {
    forall i :: 0 <= i < |sizes| ==> sizes[i] > 0
  }

  // Sum of a list, nested to the left as the law spells it.
  function LeftSum(parts: seq<real>): real
    requires parts != []
  {
    if |parts| == 1 then parts[0] else LeftSum(parts[..|parts| - 1]) + parts[|parts| - 1]
  }

  method BuildSum(parts: seq<real>) returns (rhs: real)
    requires parts != []
    ensures rhs == LeftSum(parts)
  {
    rhs := parts[0];
    for i := 1 to |parts|
      invariant rhs == LeftSum(parts[..i])
    {
      assert parts[..i + 1][..i] == parts[..i];
      rhs := rhs + parts[i];
    }
    assert parts[..|parts|] == parts;
  }

  // The pieces of a sum over a partition.
  function Pieces(f: int -> real, sizes: seq<int>): (r: seq<real>)
    ensures |r| == |sizes|
  {
    seq(|sizes|, i requires 0 <= i < |sizes| => Sum(f, Start(sizes, i), Start(sizes, i) + sizes[i]))
  }

  lemma {:induction false} TotalNonNegative(sizes: seq<int>)
    requires Positive(sizes)
    ensures Total(sizes) >= 0
  {
    if sizes == [] {
    } else {
      TotalNonNegative(sizes[..|sizes| - 1]);
    }
  }

  lemma {:induction false} PiecesAddUp(f: int -> real, sizes: seq<int>)
    requires Positive(sizes) && sizes != []
    ensures LeftSum(Pieces(f, sizes)) == Sum(f, 0, Total(sizes))
    decreases |sizes|
  {
    hide *;
    var front, parts := sizes[..|sizes| - 1], Pieces(f, sizes);
    LastPiece(f, sizes);
    if |sizes| == 1 {
      OnePart(parts);
      NoSum(f, front);
    } else {
      FrontPieces(f, sizes);
      PiecesAddUp(f, front);
      LastPart(parts);
    }
  }

  lemma OnePart(parts: seq<real>)
    requires |parts| == 1
    ensures LeftSum(parts) == parts[0]
  {
  }

  lemma LastPart(parts: seq<real>)
    requires |parts| > 1
    ensures LeftSum(parts) == LeftSum(parts[..|parts| - 1]) + parts[|parts| - 1]
  {
  }

  lemma NoSum(f: int -> real, front: seq<int>)
    requires front == []
    ensures Total(front) == 0 && Sum(f, 0, 0) == 0.0
  {
  }

  // Leaving out the last size leaves out the last piece.
  lemma FrontPieces(f: int -> real, sizes: seq<int>)
    requires Positive(sizes) && |sizes| > 1
    ensures var n := |sizes| - 1; Positive(sizes[..n]) && Pieces(f, sizes)[..n] == Pieces(f, sizes[..n])
  {
    hide Sum, Total;
    var n := |sizes| - 1;
    var front := sizes[..n];
    forall i | 0 <= i < n
      ensures Start(front, i) == Start(sizes, i)
    {
      assert front[..i] == sizes[..i];
    }
  }

  lemma LastPiece(f: int -> real, sizes: seq<int>)
    requires Positive(sizes) && sizes != []
    ensures var n := |sizes| - 1;
      Sum(f, 0, Total(sizes)) == Sum(f, 0, Total(sizes[..n])) + Pieces(f, sizes)[n]
  {
    hide *;
    TotalLast(sizes);
    TotalNonNegative(sizes[..|sizes| - 1]);
    PieceAt(f, sizes, |sizes| - 1);
    SumSplit(f, 0, Total(sizes[..|sizes| - 1]), Total(sizes));
  }

  lemma TotalLast(sizes: seq<int>)
    requires Positive(sizes) && sizes != []
    ensures var n := |sizes| - 1;
      Positive(sizes[..n]) && sizes[n] > 0 && Total(sizes) == Total(sizes[..n]) + sizes[n]
  {
  }

  lemma PieceAt(f: int -> real, sizes: seq<int>, i: nat)
    requires i < |sizes|
    ensures Pieces(f, sizes)[i] == Sum(f, Total(sizes[..i]), Total(sizes[..i]) + sizes[i])
  {
    hide Sum, Total;
  }

  // ---------------------------------------------------------------------------
  //  Any matrix product
  // ---------------------------------------------------------------------------

  function MatTerm(a: Grid, b: Grid, i: int, j: int): int -> real {
    p => a(i, p) * b(p, j)
  }

  // The columns of a, and the rows of b, from an offset on.
  function ColumnsFrom(a: Grid, lo: int): Grid {
    (i, p) => a(i, lo + p)
  }

  function RowsFrom(b: Grid, lo: int): Grid {
    (p, j) => b(lo + p, j)
  }

  function ProductPieces(a: Grid, b: Grid, sizes: seq<int>, i: int, j: int): (r: seq<real>)
    ensures |r| == |sizes|
  {
    seq(|sizes|, n requires 0 <= n < |sizes| =>
      Sum(MatTerm(ColumnsFrom(a, Start(sizes, n)), RowsFrom(b, Start(sizes, n)), i, j), 0, sizes[n]))
  }

  // The law refuses a partition with fewer than two pieces or an empty one.
  function ContractSplit(a: Grid, b: Grid, sizes: seq<int>, i: int, j: int): Result<real> {
    if |sizes| < 2 || !Positive(sizes) then Failure(ValueError)
    else Success(LeftSum(ProductPieces(a, b, sizes, i, j)))
  }

  // A matrix product is the sum of its block products over any partition of
  // the contraction axis.
  lemma ContractSplitExact(a: Grid, b: Grid, sizes: seq<int>, i: int, j: int)
    ensures ContractSplit(a, b, sizes, i, j).Success? <==>
      |sizes| >= 2 && forall n :: 0 <= n < |sizes| ==> sizes[n] > 0
    ensures ContractSplit(a, b, sizes, i, j).Success? ==>
      ContractSplit(a, b, sizes, i, j).value == Sum(MatTerm(a, b, i, j), 0, Total(sizes))
  {
    hide Sum, LeftSum, Total, Start, MatTerm, ColumnsFrom, RowsFrom;
    if |sizes| >= 2 && Positive(sizes) {
      var f := MatTerm(a, b, i, j);
      forall n | 0 <= n < |sizes|
        ensures ProductPieces(a, b, sizes, i, j)[n] == Pieces(f, sizes)[n]
      {
        BlockOfProduct(a, b, Start(sizes, n), sizes[n], i, j);
      }
      assert ProductPieces(a, b, sizes, i, j) == Pieces(f, sizes);
      PiecesAddUp(f, sizes);
    }
  }

  lemma BlockOfProduct(a: Grid, b: Grid, lo: int, len: int, i: int, j: int)
    ensures Sum(MatTerm(ColumnsFrom(a, lo), RowsFrom(b, lo), i, j), 0, len) == Sum(MatTerm(a, b, i, j), lo, lo + len)
  {
    hide Sum;
    var f, h := MatTerm(a, b, i, j), MatTerm(ColumnsFrom(a, lo), RowsFrom(b, lo), i, j);
    forall p | 0 <= p < len
      ensures h(p) == f(p + lo)
    {
    }
    SumShift(f, h, lo, 0, len);
  }

  // ---------------------------------------------------------------------------
  //  The decayed state
  // ---------------------------------------------------------------------------

  // g^off ((k . dv(g, len, -1)) over [lo, lo+len))^T v, one entry.
  function StatePiece(x: Data, lo: int, len: int, off: int, a: int, b: int): real
    requires x.Valid()
  {
    Sum(BlockTerm(x, lo, off, a, b), 0, len)
  }

  function StatePieces(x: Data, lo: int, sizes: seq<int>, off: int, a: int, b: int): (r: seq<real>)
    requires x.Valid()
    ensures |r| == |sizes|
  {
    seq(|sizes|, i requires 0 <= i < |sizes| =>
      StatePiece(x, lo + Start(sizes, i), sizes[i], off - Start(sizes, i), a, b))
  }

  // A piece of a decay vector is a decay vector with a shifted offset.
  lemma SignedSplit(g: real, sign: int, off: int, start: int, k: int)
    requires g != 0.0 && (sign == 1 || sign == -1)
    ensures Pow(g, sign * (start + k) + off) == Pow(g, sign * k + (off + sign * start))
  {
    assert sign * (start + k) + off == sign * k + (off + sign * start);
  }

  // The coarse state is the left-nested sum of the pieces with signed offsets,
  // and its own offset slides into every one of them.
  lemma StateBisection(x: Data, lo: int, sizes: seq<int>, off: int, a: int, b: int)
    requires x.Valid() && Positive(sizes) && sizes != []
    ensures LeftSum(StatePieces(x, lo, sizes, off, a, b)) == StatePiece(x, lo, Total(sizes), off, a, b)
  {
    hide Sum, Pow, BlockTerm, StatePiece, LeftSum, Total, Start;
    var f := BlockTerm(x, lo, off, a, b);
    forall i | 0 <= i < |sizes|
      ensures StatePieces(x, lo, sizes, off, a, b)[i] == Pieces(f, sizes)[i]
    {
      PieceOfState(x, lo, Start(sizes, i), sizes[i], off, a, b);
    }
    assert StatePieces(x, lo, sizes, off, a, b) == Pieces(f, sizes);
    PiecesAddUp(f, sizes);
    WholeState(x, lo, Total(sizes), off, a, b);
  }

  lemma WholeState(x: Data, lo: int, len: int, off: int, a: int, b: int)
    requires x.Valid()
    ensures StatePiece(x, lo, len, off, a, b) == Sum(BlockTerm(x, lo, off, a, b), 0, len)
  {
  }

  lemma PieceOfState(x: Data, lo: int, s: int, len: int, off: int, a: int, b: int)
    requires x.Valid()
    ensures StatePiece(x, lo + s, len, off - s, a, b) == Sum(BlockTerm(x, lo, off, a, b), s, s + len)
  {
    hide Sum, Pow;
    var f, h := BlockTerm(x, lo, off, a, b), BlockTerm(x, lo + s, off - s, a, b);
    forall u | 0 <= u < len
      ensures h(u) == f(u + s)
    {
      assert lo + s + u == lo + (u + s) && -u + (off - s) == -(u + s) + off;
    }
    SumShift(f, h, s, 0, len);
  }

  // g^c on a state piece is that piece at an offset c higher.
  lemma EtaSlide(x: Data, lo: int, len: int, off: int, c: int, a: int, b: int)
    requires x.Valid()
    ensures Pow(x.g, c) * StatePiece(x, lo, len, off, a, b) == StatePiece(x, lo, len, off + c, a, b)
  {
    hide Sum, Pow, BlockTerm, Scaled;
    var f, h := BlockTerm(x, lo, off, a, b), BlockTerm(x, lo, off + c, a, b);
    forall u | 0 <= u < len
      ensures h(u) == Scaled(Pow(x.g, c), f)(u)
    {
      EtaEntry(x, lo, off, c, a, b, u);
    }
    SumEq(h, Scaled(Pow(x.g, c), f), 0, len);
    SumScale(Pow(x.g, c), f, 0, len);
  }

  lemma EtaEntry(x: Data, lo: int, off: int, c: int, a: int, b: int, u: int)
    requires x.Valid()
    ensures BlockTerm(x, lo, off + c, a, b)(u) == Scaled(Pow(x.g, c), BlockTerm(x, lo, off, a, b))(u)
  {
    hide Pow;
    PowAdd(x.g, c, -u + off);
    assert -u + (off + c) == c + (-u + off);
    Slide(Pow(x.g, c), x.k(lo + u, a), Pow(x.g, -u + off), x.v(lo + u, b));
  }

  lemma Slide(c: real, k: real, w: real, v: real)
    ensures k * (c * w) * v == c * (k * w * v)
  {
  }

  // Two decay scalars merge, and the zeroth power does nothing.
  lemma Gather(g: real, c1: int, c2: int, s: real)
    requires g != 0.0
    ensures Pow(g, c1) * (Pow(g, c2) * s) == Pow(g, c1 + c2) * s && Pow(g, 0) * s == s
  {
    hide Pow;
    PowAdd(g, c1, c2);
    PowZero(g);
    Assoc(Pow(g, c1), Pow(g, c2), s);
  }

  // Bisecting after scaling is scaling every piece.
  lemma ScaledBisection(x: Data, lo: int, sizes: seq<int>, off: int, c: int, a: int, b: int)
    requires x.Valid() && Positive(sizes) && sizes != []
    ensures Pow(x.g, c) * LeftSum(StatePieces(x, lo, sizes, off, a, b)) == LeftSum(StatePieces(x, lo, sizes, off + c, a, b))
  {
    hide Sum, Pow, StatePiece, LeftSum, StatePieces;
    StateBisection(x, lo, sizes, off, a, b);
    StateBisection(x, lo, sizes, off + c, a, b);
    EtaSlide(x, lo, Total(sizes), off, c, a, b);
  }

  // The fold's running update over the fine pieces lands on the coarse state:
  // scaling the state before the pieces and adding them one by one, each at the
  // common normalisation, is the accumulation at that normalisation.
  lemma PiecesExtendState(x: Data, s: Grid, off: int, lo: int, sizes: seq<int>, a: int, b: int)
    requires x.Valid() && lo >= 0 && Positive(sizes) && sizes != [] && Carried(x, s, off, lo)
    ensures s(a, b) + LeftSum(StatePieces(x, lo, sizes, off - lo, a, b)) == Pow(x.g, off) * x.Accum(lo + Total(sizes), a, b)
  {
    hide Sum, Pow, LeftSum, StatePieces, Data.Accum, StatePiece, BlockTerm, Total, Carried;
    var c, before, after := Pow(x.g, off), x.Accum(lo, a, b), x.Accum(lo + Total(sizes), a, b);
    var start := off - lo;
    TotalNonNegative(sizes);
    StateBisection(x, lo, sizes, start, a, b);
    WholeState(x, lo, Total(sizes), start, a, b);
    BlockSum(x, lo, Total(sizes), start, a, b);
    assert start + lo == off;
    CarriedAt(x, s, off, lo, a, b);
    MergeTo(s(a, b), LeftSum(StatePieces(x, lo, sizes, start, a, b)), c, before, after);
  }

  lemma MergeTo(s: real, l: real, c: real, before: real, after: real)
    requires s == c * before && l == c * (after - before)
    ensures s + l == c * after
  {
  }

  lemma CarriedAt(x: Data, s: Grid, off: int, n: int, a: int, b: int)
    requires x.Valid() && Carried(x, s, off, n)
    ensures s(a, b) == Pow(x.g, off) * x.Accum(n, a, b)
  {
    hide Pow, Data.Accum;
  }

  // ---------------------------------------------------------------------------
  //  The partition the boundary asks for
  // ---------------------------------------------------------------------------

  function Copies(w: int, q: nat): (r: seq<int>)
    ensures |r| == q && forall i :: 0 <= i < q ==> r[i] == w
  {
    seq(q, _ => w)
  }

  // Fine-width pieces tiling the coarse extent, the remainder last.
  function BoundarySizes(w: int, extent: int): Option<seq<int>> {
    if w <= 0 || extent < w then None
    else Some(Copies(w, extent / w) + if extent % w != 0 then [extent % w] else [])
  }

  lemma {:induction false} CopiesTotal(w: int, q: nat)
    ensures Total(Copies(w, q)) == q * w
  {
    if q == 0 {
    } else {
      CopiesTotal(w, q - 1);
      assert Copies(w, q)[..q - 1] == Copies(w, q - 1);
      OneMore(q - 1, w);
    }
  }

  lemma BoundaryTiles(w: int, extent: int)
    ensures BoundarySizes(w, extent).Some? <==> 0 < w <= extent
    ensures BoundarySizes(w, extent).Some? ==>
      var sizes := BoundarySizes(w, extent).value;
      && sizes != [] && Positive(sizes) && Total(sizes) == extent && sizes[0] == w
      && (forall i :: 0 <= i < |sizes| - 1 ==> sizes[i] == w) && sizes[|sizes| - 1] <= w
      && (|sizes| >= 2 <==> extent > w)
  {
    hide Total;
    if 0 < w <= extent {
      var q, rem := Quotient(w, extent);
      TilesOf(w, q, rem);
    }
  }

  lemma Quotient(w: int, extent: int) returns (q: int, rem: int)
    requires 0 < w <= extent
    ensures q == extent / w >= 1 && 0 <= rem == extent % w < w && extent == q * w + rem
    ensures if q == 1 then q * w == w else q * w > w
  {
    q, rem := extent / w, extent % w;
    Divides(extent, w, q, rem);
    if q >= 2 {
      AtLeastTwo(q, w);
    } else if q <= 0 {
      AtMostNone(q, w);
    }
  }

  lemma Divides(extent: int, w: int, q: int, rem: int)
    requires w > 0 && q == extent / w && rem == extent % w
    ensures extent == q * w + rem && 0 <= rem < w
  {
  }

  lemma AtMostNone(q: int, w: int)
    requires q <= 0 && w > 0
    ensures q * w <= 0
  {
  }

  // q full pieces and what remains.
  lemma TilesOf(w: int, q: nat, rem: nat)
    requires w > 0 && q >= 1 && rem < w
    ensures var sizes := Copies(w, q) + if rem != 0 then [rem] else [];
      && sizes != [] && Positive(sizes) && Total(sizes) == q * w + rem && sizes[0] == w
      && (forall i :: 0 <= i < |sizes| - 1 ==> sizes[i] == w) && sizes[|sizes| - 1] <= w
      && |sizes| == q + if rem != 0 then 1 else 0
  {
    CopiesTotal(w, q);
    if rem != 0 {
      var sizes := Copies(w, q) + [rem];
      assert sizes[..|sizes| - 1] == Copies(w, q);
    } else {
      assert Copies(w, q) + [] == Copies(w, q);
    }
  }

  lemma AtLeastTwo(q: int, w: int)
    requires q >= 2 && w > 0
    ensures q * w > w
  {
    assert (q - 1) * w > 0;
  }
}
