// Chunked retention over exact reals: the carried state under any
// normalisation, and the walk that keeps it readable across block families.

module Retention {
  import opened Wrappers
  import opened Decay

  // Rows of a tensor, as (position, feature) or (feature, feature) entries.
  // Queries come already divided by the score denominator.
  datatype Data = Data(g: real, q: Grid, k: Grid, v: Grid, d: nat)
  {
    predicate Valid() {
      g != 0.0
    }

    // g^{-p} k_p[a] v_p[b], the absolute weight of position p.
    function Weighted(a: int, b: int): int -> real
      requires Valid()
    {
      p => Pow(g, -p) * (k(p, a) * v(p, b))
    }

    // The absolute accumulation over the positions before n.
    function Accum(n: int, a: int, b: int): real
      requires Valid()
    {
      Sum(Weighted(a, b), 0, n)
    }

    function Product(t: int, p: int): int -> real {
      a => q(t, a) * k(p, a)
    }

    function Dot(t: int, p: int): real {
      Sum(Product(t, p), 0, d)
    }

    function Decayed(t: int, b: int): int -> real
      requires Valid()
    {
      p => Pow(g, t - p) * Dot(t, p) * v(p, b)
    }

    // The direct decayed sum over every position up to t.
    function Direct(t: int, b: int): real
      requires Valid()
    {
      Sum(Decayed(t, b), 0, t + 1)
    }
  }

  // The signed exponents bound to a block's wires: the state weight, the key
  // decay and the read scale.
  datatype Wires = Wires(cw: int, ce: int, cx: int)

  // ---------------------------------------------------------------------------
  //  The step, as the template spells it
  // ---------------------------------------------------------------------------

  function BlockTerm(x: Data, start: int, ce: int, a: int, b: int): int -> real
    requires x.Valid()
  {
    u => x.k(start + u, a) * Pow(x.g, -u + ce) * x.v(start + u, b)
  }

  function NextState(x: Data, start: int, width: int, w: Wires, s: Grid): Grid
    requires x.Valid()
  {
    (a, b) => Pow(x.g, w.cw) * s(a, b) + Sum(BlockTerm(x, start, w.ce, a, b), 0, width)
  }

  // The lower-triangular decay g^{r-u}.
  function Mask(g: real, r: int, u: int): real
    requires g != 0.0
  {
    if u <= r then Pow(g, r - u) else 0.0
  }

  function IntraTerm(x: Data, start: int, r: int, b: int): int -> real
    requires x.Valid()
  {
    u => x.Dot(start + r, start + u) * Mask(x.g, r, u) * x.v(start + u, b)
  }

  function ReadTerm(x: Data, s: Grid, t: int, b: int): int -> real {
    a => x.q(t, a) * s(a, b)
  }

  function BlockOutput(x: Data, start: int, width: int, cx: int, s: Grid): Grid
    requires x.Valid()
  {
    (r, b) => Sum(IntraTerm(x, start, r, b), 0, width) + Pow(x.g, r + cx) * Sum(ReadTerm(x, s, start + r, b), 0, x.d)
  }

  // ---------------------------------------------------------------------------
  //  The carried state
  // ---------------------------------------------------------------------------

  // The state is the accumulation before n, rescaled by g^off.
  ghost predicate Carried(x: Data, s: Grid, off: int, n: int)
    requires x.Valid()
  {
    forall a, b :: s(a, b) == Pow(x.g, off) * x.Accum(n, a, b)
  }

  lemma BlockSum(x: Data, start: int, width: int, ce: int, a: int, b: int)
    requires x.Valid() && start >= 0 && width >= 0
    ensures Sum(BlockTerm(x, start, ce, a, b), 0, width)
         == Pow(x.g, ce + start) * (x.Accum(start + width, a, b) - x.Accum(start, a, b))
  {
    hide Pow, Sum;
    var f, c := x.Weighted(a, b), Pow(x.g, ce + start);
    forall u | 0 <= u < width
      ensures BlockTerm(x, start, ce, a, b)(u) == Scaled(c, f)(u + start)
    {
      PowAdd(x.g, ce + start, -(u + start));
      Regroup(x.k(start + u, a), c, Pow(x.g, -(u + start)), x.v(start + u, b));
    }
    SumShift(Scaled(c, f), BlockTerm(x, start, ce, a, b), start, 0, width);
    SumScale(c, f, start, start + width);
    SumSplit(f, 0, start, start + width);
  }

  lemma Regroup(k: real, c: real, w: real, v: real)
    ensures k * (c * w) * v == c * (w * (k * v))
  {
  }

  // One update on a carried state.
  lemma NextStateIs(x: Data, start: int, width: int, w: Wires, s: Grid, off: int, a: int, b: int)
    requires x.Valid() && start >= 0 && width >= 0 && Carried(x, s, off, start)
    ensures NextState(x, start, width, w, s)(a, b)
         == Pow(x.g, w.cw + off) * x.Accum(start, a, b)
            + Pow(x.g, w.ce + start) * (x.Accum(start + width, a, b) - x.Accum(start, a, b))
  {
    hide Pow, Sum, Data.Accum;
    BlockSum(x, start, width, w.ce, a, b);
    PowAdd(x.g, w.cw, off);
    Assoc(Pow(x.g, w.cw), Pow(x.g, off), x.Accum(start, a, b));
  }

  lemma Assoc(a: real, b: real, c: real)
    ensures a * (b * c) == (a * b) * c
  {
  }

  // Whenever the two wires agree on the new normalisation, the state stays the
  // accumulation at that normalisation.
  lemma AlignedStep(x: Data, start: int, width: int, w: Wires, s: Grid, off: int)
    requires x.Valid() && start >= 0 && width >= 0 && Carried(x, s, off, start)
    requires w.ce + start == w.cw + off
    ensures Carried(x, NextState(x, start, width, w, s), w.cw + off, start + width)
  {
    hide Pow, Data.Accum, NextState;
    forall a, b
      ensures NextState(x, start, width, w, s)(a, b) == Pow(x.g, w.cw + off) * x.Accum(start + width, a, b)
    {
      NextStateIs(x, start, width, w, s, off, a, b);
      Merge(Pow(x.g, w.cw + off), x.Accum(start, a, b), x.Accum(start + width, a, b));
    }
  }

  lemma Merge(c: real, x: real, y: real)
    ensures c * x + c * (y - x) == c * y
  {
  }

  function Unit(at: int): Grid {
    (p, a) => if p == at then 1.0 else 0.0
  }

  function Nothing(): Grid {
    (a, b) => 0.0
  }

  // The bound wires keep the carried form on all data exactly when they agree.
  lemma StepKeepsExactly(g: real, d: nat, start: int, width: int, w: Wires, off: int)
    requires 0.0 < g < 1.0 && start >= 0 && width >= 1
    ensures (forall x: Data, s: Grid :: x.g == g && x.Valid() && Carried(x, s, off, start) ==>
               Carried(x, NextState(x, start, width, w, s), w.cw + off, start + width))
      <==> w.ce + start == w.cw + off
  {
    hide Pow, NextState, Sum;
    if w.ce + start == w.cw + off {
      forall x: Data, s: Grid | x.g == g && x.Valid() && Carried(x, s, off, start)
        ensures Carried(x, NextState(x, start, width, w, s), w.cw + off, start + width)
      {
        AlignedStep(x, start, width, w, s, off);
      }
    } else {
      var x := Data(g, Nothing(), Unit(start), Unit(start), d);
      UnitAccum(x, start, width);
      assert Carried(x, Nothing(), off, start);
      NextStateIs(x, start, width, w, Nothing(), off, 0, 0);
      PowPositive(g, -start);
      PowInjective(g, w.ce + start, w.cw + off);
      Differ(Pow(g, w.ce + start), Pow(g, w.cw + off), Pow(g, -start));
      assert !Carried(x, NextState(x, start, width, w, Nothing()), w.cw + off, start + width);
    }
  }

  lemma Differ(a: real, b: real, c: real)
    requires a != b && c > 0.0
    ensures a * c != b * c
  {
  }

  lemma UnitAccum(x: Data, start: int, width: int)
    requires x.Valid() && start >= 0 && width >= 1 && x.k == Unit(start) && x.v == Unit(start)
    ensures forall a, b :: x.Accum(start, a, b) == 0.0 && x.Accum(start + width, a, b) == Pow(x.g, -start)
  {
    hide Pow, Sum;
    forall a, b
      ensures x.Accum(start, a, b) == 0.0 && x.Accum(start + width, a, b) == Pow(x.g, -start)
    {
      var f := x.Weighted(a, b);
      SumZero(f, 0, start);
      SumZero(f, start + 1, start + width);
      SumSplit(f, 0, start, start + width);
      SumSplit(f, start, start + 1, start + width);
      SumOne(f, start);
    }
  }

  lemma SumOne(f: int -> real, i: int)
    ensures Sum(f, i, i + 1) == f(i)
  {
    assert Sum(f, i, i) == 0.0;
  }

  // ---------------------------------------------------------------------------
  //  The read
  // ---------------------------------------------------------------------------

  function Spread(x: Data, t: int, b: int): Grid
    requires x.Valid()
  {
    (a, p) => Pow(x.g, t - p) * (x.q(t, a) * x.k(p, a)) * x.v(p, b)
  }

  // Reading a carried state gives the decayed sum over the positions before
  // the block, scaled by how far the read exponent is off.
  lemma ReadIs(x: Data, s: Grid, off: int, start: int, cx: int, r: int, b: int)
    requires x.Valid() && Carried(x, s, off, start)
    ensures Pow(x.g, r + cx) * Sum(ReadTerm(x, s, start + r, b), 0, x.d)
         == Pow(x.g, cx + off - start) * Sum(x.Decayed(start + r, b), 0, start)
  {
    hide Pow, Sum;
    var t := start + r;
    var f, c := Spread(x, t, b), Pow(x.g, cx + off - start);
    forall a | 0 <= a < x.d
      ensures Scaled(Pow(x.g, r + cx), ReadTerm(x, s, t, b))(a) == Scaled(c, RowSum(f, 0, start))(a)
    {
      ReadEntry(x, s, off, start, cx, r, a, b);
    }
    SumEq(Scaled(Pow(x.g, r + cx), ReadTerm(x, s, t, b)), Scaled(c, RowSum(f, 0, start)), 0, x.d);
    SumScale(Pow(x.g, r + cx), ReadTerm(x, s, t, b), 0, x.d);
    SumScale(c, RowSum(f, 0, start), 0, x.d);
    SumSwap(f, 0, x.d, 0, start);
    forall p | 0 <= p < start
      ensures ColumnSum(f, 0, x.d)(p) == x.Decayed(t, b)(p)
    {
      DotColumn(x, t, p, b);
    }
    SumEq(ColumnSum(f, 0, x.d), x.Decayed(t, b), 0, start);
  }

  lemma ReadEntry(x: Data, s: Grid, off: int, start: int, cx: int, r: int, a: int, b: int)
    requires x.Valid() && Carried(x, s, off, start)
    ensures Pow(x.g, r + cx) * (x.q(start + r, a) * s(a, b))
         == Pow(x.g, cx + off - start) * Sum(Row(Spread(x, start + r, b), a), 0, start)
  {
    hide Pow, Sum;
    var t := start + r;
    var f, c := x.Weighted(a, b), Pow(x.g, t) * x.q(t, a);
    forall p | 0 <= p < start
      ensures Row(Spread(x, t, b), a)(p) == Scaled(c, f)(p)
    {
      PowAdd(x.g, t, -p);
      Regroup4(Pow(x.g, t), Pow(x.g, -p), x.q(t, a), x.k(p, a), x.v(p, b));
    }
    SumEq(Row(Spread(x, t, b), a), Scaled(c, f), 0, start);
    SumScale(c, f, 0, start);
    PowAdd(x.g, r + cx, off);
    PowAdd(x.g, cx + off - start, t);
    assert r + cx + off == cx + off - start + t;
    Regroup5(Pow(x.g, r + cx), Pow(x.g, off), Pow(x.g, cx + off - start), Pow(x.g, t), x.q(t, a), Sum(f, 0, start));
  }

  lemma Regroup4(t: real, w: real, q: real, k: real, v: real)
    ensures (t * w) * (q * k) * v == (t * q) * (w * (k * v))
  {
  }

  lemma Regroup5(rc: real, o: real, c: real, t: real, q: real, s: real)
    requires rc * o == c * t
    ensures rc * (q * (o * s)) == c * ((t * q) * s)
  {
    assert rc * (q * (o * s)) == (rc * o) * (q * s);
    assert c * ((t * q) * s) == (c * t) * (q * s);
  }

  lemma DotColumn(x: Data, t: int, p: int, b: int)
    requires x.Valid()
    ensures Sum(Column(Spread(x, t, b), p), 0, x.d) == Pow(x.g, t - p) * x.Dot(t, p) * x.v(p, b)
  {
    hide Pow, Sum;
    var c := Pow(x.g, t - p) * x.v(p, b);
    forall a | 0 <= a < x.d
      ensures Column(Spread(x, t, b), p)(a) == Scaled(c, x.Product(t, p))(a)
    {
      Swap3(Pow(x.g, t - p), x.q(t, a) * x.k(p, a), x.v(p, b));
    }
    SumEq(Column(Spread(x, t, b), p), Scaled(c, x.Product(t, p)), 0, x.d);
    SumScale(c, x.Product(t, p), 0, x.d);
    Swap3(Pow(x.g, t - p), x.Dot(t, p), x.v(p, b));
  }

  lemma Swap3(a: real, b: real, c: real)
    ensures a * b * c == (a * c) * b
  {
  }

  // The masked scores inside the block are the rest of the decayed sum.
  lemma IntraIs(x: Data, start: int, width: int, r: int, b: int)
    requires x.Valid() && 0 <= r < width
    ensures Sum(IntraTerm(x, start, r, b), 0, width) == Sum(x.Decayed(start + r, b), start, start + r + 1)
  {
    hide Pow, Sum, Data.Dot;
    var f := IntraTerm(x, start, r, b);
    SumSplit(f, 0, r + 1, width);
    SumZero(f, r + 1, width);
    forall u | 0 <= u < r + 1
      ensures f(u) == x.Decayed(start + r, b)(u + start)
    {
      Swap2(x.Dot(start + r, start + u), Pow(x.g, r - u));
    }
    SumShift(x.Decayed(start + r, b), f, start, 0, r + 1);
  }

  lemma Swap2(a: real, b: real)
    ensures a * b == b * a
  {
  }

  // With the read exponent compensated for the carried normalisation, a block's
  // output is the direct decayed sum, whatever that normalisation is.
  lemma OutputIsDirect(x: Data, s: Grid, off: int, start: int, width: int, r: int, b: int)
    requires x.Valid() && start >= 0 && 0 <= r < width && Carried(x, s, off, start)
    ensures BlockOutput(x, start, width, start - off, s)(r, b) == x.Direct(start + r, b)
  {
    hide Pow, Sum;
    ReadIs(x, s, off, start, start - off, r, b);
    IntraIs(x, start, width, r, b);
    PowZero(x.g);
    SumSplit(x.Decayed(start + r, b), 0, start, start + r + 1);
  }

  // A wrong read exponent is wrong by exactly the exponents' difference on what
  // the block reads from before it.
  lemma OutputIs(x: Data, s: Grid, off: int, start: int, width: int, cx: int, r: int, b: int)
    requires x.Valid() && start >= 0 && 0 <= r < width && Carried(x, s, off, start)
    ensures BlockOutput(x, start, width, cx, s)(r, b) - x.Direct(start + r, b)
         == (Pow(x.g, cx + off - start) - 1.0) * Sum(x.Decayed(start + r, b), 0, start)
  {
    hide Pow, Sum;
    ReadIs(x, s, off, start, cx, r, b);
    IntraIs(x, start, width, r, b);
    SumSplit(x.Decayed(start + r, b), 0, start, start + r + 1);
    Minus(Pow(x.g, cx + off - start), Sum(x.Decayed(start + r, b), 0, start));
  }

  lemma Minus(c: real, x: real)
    ensures (c - 1.0) * x == c * x - x
  {
  }

  function CarriedState(x: Data, off: int, n: int): Grid
    requires x.Valid()
  {
    (a, b) => Pow(x.g, off) * x.Accum(n, a, b)
  }

  // The read exponent that is right on all data is the compensated one.
  lemma ReadExactly(g: real, d: nat, start: int, width: int, off: int, cx: int)
    requires 0.0 < g < 1.0 && d >= 1 && start >= 1 && width >= 1
    ensures (forall x: Data, s: Grid, r: int, b: int ::
               x.g == g && x.d == d && x.Valid() && Carried(x, s, off, start) && 0 <= r < width ==>
                 BlockOutput(x, start, width, cx, s)(r, b) == x.Direct(start + r, b))
      <==> cx == start - off
  {
    hide Pow, Sum, BlockOutput, Data.Direct, Carried;
    if cx == start - off {
      forall x: Data, s: Grid, r: int, b: int | x.g == g && x.d == d && x.Valid() && Carried(x, s, off, start) && 0 <= r < width
        ensures BlockOutput(x, start, width, cx, s)(r, b) == x.Direct(start + r, b)
      {
        OutputIsDirect(x, s, off, start, width, r, b);
      }
    } else {
      var x := Data(g, Unit(start), Unit(0), Unit(0), d);
      var s := CarriedState(x, off, start);
      CarriedStateIs(x, off, start);
      OutputIs(x, s, off, start, width, cx, 0, 0);
      UnitRead(x, start, start);
      PowInjective(g, cx + off - start, 0);
      PowZero(g);
      Nonzero(Pow(g, cx + off - start) - 1.0, Sum(x.Decayed(start + 0, 0), 0, start));
      assert BlockOutput(x, start, width, cx, s)(0, 0) != x.Direct(start + 0, 0);
    }
  }

  lemma CarriedStateIs(x: Data, off: int, n: int)
    requires x.Valid()
    ensures Carried(x, CarriedState(x, off, n), off, n)
  {
  }

  lemma Nonzero(a: real, b: real)
    requires a != 0.0 && b != 0.0
    ensures a * b != 0.0
  {
  }

  lemma UnitRead(x: Data, t: int, start: int)
    requires 0.0 < x.g && x.d >= 1 && 1 <= start <= t && x.q == Unit(t) && x.k == Unit(0) && x.v == Unit(0)
    ensures Sum(x.Decayed(t, 0), 0, start) != 0.0
  {
    hide Pow, Sum;
    var f := x.Decayed(t, 0);
    SumSplit(f, 0, 1, start);
    SumOne(f, 0);
    SumZero(f, 1, start);
    Counting(x, t, x.d);
    PowPositive(x.g, t - 0);
    Nonzero(Pow(x.g, t - 0), x.Dot(t, 0));
  }

  lemma {:induction false} Counting(x: Data, start: int, n: nat)
    requires x.q == Unit(start) && x.k == Unit(0)
    ensures Sum(x.Product(start, 0), 0, n) == n as real
  {
    if n == 0 {
    } else {
      Counting(x, start, n - 1);
    }
  }

  // ---------------------------------------------------------------------------
  //  The walk over the covered blocks
  // ---------------------------------------------------------------------------

  // A read scale g^(offset + r): its offset and how many entries it has.
  datatype Scale = Scale(offset: int, length: int)

  // A covered block: where it starts, how wide it is, the exponents bound to
  // its wires, and the length of its read scale.
  datatype Block = Block(start: int, width: nat, wires: Wires, readLength: int)
  {
    // The normalisation the block's own family reads.
    function Phi(): int {
      start - wires.cx
    }

    function Bound(): Scale {
      Scale(wires.cx, readLength)
    }

    // The read scale compensated for a carried normalisation.
    function Needed(off: int): Scale {
      Scale(start - off, width)
    }
  }

  // How the state left a block: by wires already bound for the next family, by
  // wires found for it, or by the block's own wires.
  datatype Move = Matched | Steered | Unsteered

  predicate Contiguous(blocks: seq<Block>) {
    && (forall i :: 0 <= i < |blocks| ==> blocks[i].start >= 0)
    && forall i :: 0 < i < |blocks| ==> blocks[i].start == blocks[i - 1].start + blocks[i - 1].width
  }

  function ReadNeeds(b: Block, off: int): bool {
    b.Bound() != b.Needed(off)
  }

  function MoveOf(b: Block, next: Block, off: int, resident: bool): Move {
    if b.wires.cw == next.Phi() - off && b.wires.ce == next.Phi() - b.start then Matched
    else if resident then Steered
    else Unsteered
  }

  // The wires a move updates the state with.
  function MoveWires(b: Block, next: Block, off: int, move: Move): Wires {
    if move == Steered then Wires(next.Phi() - off, next.Phi() - b.start, b.wires.cx) else b.wires
  }

  function MoveOff(b: Block, next: Block, off: int, move: Move): int {
    if move == Unsteered then off + b.wires.cw else next.Phi()
  }

  // Where a steering pair is found, or the bound wires already are one, the
  // state goes over into the next family's normalisation; otherwise the block's
  // own wires move it.
  lemma MoveExactly(b: Block, next: Block, off: int, resident: bool)
    ensures var move := MoveOf(b, next, off, resident);
      var w, to := MoveWires(b, next, off, move), MoveOff(b, next, off, move);
      && w.cw + off == to
      && (resident ==> w.cw == next.Phi() - off && w.ce == next.Phi() - b.start)
      && (!resident ==> w == b.wires)
  {
  }

  // An unsteered move is harmless when the bound wires agree anyway.
  predicate Harmless(b: Block, off: int, move: Move) {
    move == Unsteered ==> b.wires.ce + b.start == b.wires.cw + off
  }

  lemma MoveKeeps(x: Data, b: Block, next: Block, off: int, resident: bool, s: Grid)
    requires x.Valid() && b.start >= 0 && next.start == b.start + b.width && Carried(x, s, off, b.start)
    requires var move := MoveOf(b, next, off, resident); Harmless(b, off, move)
    ensures var move := MoveOf(b, next, off, resident);
      Carried(x, NextState(x, b.start, b.width, MoveWires(b, next, off, move), s), MoveOff(b, next, off, move), next.start)
  {
    hide Carried, NextState;
    var move := MoveOf(b, next, off, resident);
    AlignedStep(x, b.start, b.width, MoveWires(b, next, off, move), s, off);
  }

  // The normalisation tracked on reaching block i, the way the state left block
  // i, and the state itself.
  function OffAt(blocks: seq<Block>, steer: int -> bool, i: nat): int
    requires i < |blocks|
    decreases i, 0
  {
    if i == 0 then blocks[0].Phi()
    else MoveOff(blocks[i - 1], blocks[i], OffAt(blocks, steer, i - 1), MoveAt(blocks, steer, i - 1))
  }

  function MoveAt(blocks: seq<Block>, steer: int -> bool, i: nat): Move
    requires i + 1 < |blocks|
    decreases i, 1
  {
    MoveOf(blocks[i], blocks[i + 1], OffAt(blocks, steer, i), steer(i))
  }

  function StateAt(x: Data, blocks: seq<Block>, steer: int -> bool, seed: Grid, i: nat): Grid
    requires x.Valid() && i < |blocks|
  {
    if i == 0 then seed
    else
      var b := blocks[i - 1];
      NextState(x, b.start, b.width,
                MoveWires(b, blocks[i], OffAt(blocks, steer, i - 1), MoveAt(blocks, steer, i - 1)),
                StateAt(x, blocks, steer, seed, i - 1))
  }

  predicate HarmlessBefore(blocks: seq<Block>, steer: int -> bool, i: nat)
    requires i < |blocks|
  {
    forall j :: 0 <= j < i ==> Harmless(blocks[j], OffAt(blocks, steer, j), MoveAt(blocks, steer, j))
  }

  // As long as every move was harmless, the carried state is the absolute
  // accumulation at the tracked normalisation.
  lemma {:induction false} WalkCarries(x: Data, blocks: seq<Block>, steer: int -> bool, seed: Grid, i: nat)
    requires x.Valid() && Contiguous(blocks) && i < |blocks|
    requires Carried(x, seed, blocks[0].Phi(), blocks[0].start) && HarmlessBefore(blocks, steer, i)
    ensures Carried(x, StateAt(x, blocks, steer, seed, i), OffAt(blocks, steer, i), blocks[i].start)
  {
    hide Carried, NextState, MoveOf, MoveWires, MoveOff, Harmless;
    if i == 0 {
    } else {
      WalkCarries(x, blocks, steer, seed, i - 1);
      MoveKeeps(x, blocks[i - 1], blocks[i], OffAt(blocks, steer, i - 1), steer(i - 1), StateAt(x, blocks, steer, seed, i - 1));
    }
  }

  // The block's output with a given read scale: one entry for each row, or a
  // single one for all; a scale of any other length has no product with the
  // block's rows.
  function ReadOutput(x: Data, b: Block, scale: Scale, s: Grid): Option<Grid>
    requires x.Valid()
  {
    if scale.length != b.width && scale.length != 1 then None
    else Some((r, c) => Sum(IntraTerm(x, b.start, r, c), 0, b.width)
                        + Pow(x.g, ScaleRow(scale, r) + scale.offset) * Sum(ReadTerm(x, s, b.start + r, c), 0, x.d))
  }

  function ScaleRow(scale: Scale, r: int): int {
    if scale.length == 1 then 0 else r
  }

  // On all data and every state carried at that normalisation, the scale gives
  // the direct decayed sums at every row of the block.
  ghost predicate ReadsRight(g: real, d: nat, b: Block, off: int, scale: Scale) {
    forall x: Data, s: Grid :: x.g == g && x.d == d && x.Valid() && Carried(x, s, off, b.start) ==>
      ReadOutput(x, b, scale, s).Some? && DirectOutputs(x, b, ReadOutput(x, b, scale, s).value)
  }

  // Row by row, a scale is some read exponent.
  lemma ReadRow(x: Data, b: Block, scale: Scale, s: Grid, r: int, c: int)
    requires x.Valid() && ReadOutput(x, b, scale, s).Some?
    ensures ReadOutput(x, b, scale, s).value(r, c)
         == BlockOutput(x, b.start, b.width, ScaleRow(scale, r) + scale.offset - r, s)(r, c)
  {
    hide Pow, Sum;
    assert r + (ScaleRow(scale, r) + scale.offset - r) == ScaleRow(scale, r) + scale.offset;
  }

  lemma NeededReads(x: Data, b: Block, off: int, s: Grid)
    requires x.Valid() && b.start >= 0 && Carried(x, s, off, b.start)
    ensures var out := ReadOutput(x, b, b.Needed(off), s); out.Some? && DirectOutputs(x, b, out.value)
  {
    hide Pow, Sum, BlockOutput, Data.Direct, Carried;
    var scale := b.Needed(off);
    var out := ReadOutput(x, b, scale, s);
    forall r, c | 0 <= r < b.width
      ensures out.value(r, c) == x.Direct(b.start + r, c)
    {
      ReadRow(x, b, scale, s, r, c);
      OutputIsDirect(x, s, off, b.start, b.width, r, c);
    }
  }

  // A scale that is off at one row is wrong on some data.
  lemma WrongAtRow(g: real, d: nat, b: Block, off: int, scale: Scale, r: nat)
    requires 0.0 < g < 1.0 && d >= 1 && b.start >= 1 && r < b.width
    requires ScaleRow(scale, r) + scale.offset - r != b.start - off
    ensures !ReadsRight(g, d, b, off, scale)
  {
    hide Pow, Sum, BlockOutput, Data.Direct, Carried, ReadOutput;
    var t, cx := b.start + r, ScaleRow(scale, r) + scale.offset - r;
    var x := Data(g, Unit(t), Unit(0), Unit(0), d);
    var s := CarriedState(x, off, b.start);
    CarriedStateIs(x, off, b.start);
    OutputIs(x, s, off, b.start, b.width, cx, r, 0);
    UnitRead(x, t, b.start);
    PowInjective(g, cx + off - b.start, 0);
    PowZero(g);
    Nonzero(Pow(g, cx + off - b.start) - 1.0, Sum(x.Decayed(t, 0), 0, b.start));
    assert BlockOutput(x, b.start, b.width, cx, s)(r, 0) != x.Direct(t, 0);
    var out := ReadOutput(x, b, scale, s);
    if out.Some? {
      ReadRow(x, b, scale, s, r, 0);
      assert out.value(r, 0) != x.Direct(b.start + r, 0);
    }
    assert !(out.Some? && DirectOutputs(x, b, out.value));
  }

  // The only scale that is right on all data is the compensated one, with an
  // entry for every row.
  lemma ScaleExactly(g: real, d: nat, b: Block, off: int, scale: Scale)
    requires 0.0 < g < 1.0 && d >= 1 && b.start >= 1 && b.width >= 1
    ensures ReadsRight(g, d, b, off, scale) <==> scale == b.Needed(off)
  {
    hide ReadOutput, Carried, DirectOutputs, ScaleRow;
    if scale == b.Needed(off) {
      forall x: Data, s: Grid | x.g == g && x.d == d && x.Valid() && Carried(x, s, off, b.start)
        ensures ReadOutput(x, b, scale, s).Some? && DirectOutputs(x, b, ReadOutput(x, b, scale, s).value)
      {
        NeededReads(x, b, off, s);
      }
    } else if scale.length != b.width && scale.length != 1 {
      var x := Data(g, Nothing(), Nothing(), Nothing(), d);
      var s := CarriedState(x, off, b.start);
      CarriedStateIs(x, off, b.start);
      NoProduct(x, b, scale, s);
    } else if scale.offset != b.start - off {
      RowZero(scale);
      WrongAtRow(g, d, b, off, scale, 0);
    } else {
      RowOne(scale);
      WrongAtRow(g, d, b, off, scale, 1);
    }
  }

  lemma NoProduct(x: Data, b: Block, scale: Scale, s: Grid)
    requires x.Valid() && scale.length != b.width && scale.length != 1
    ensures ReadOutput(x, b, scale, s).None?
  {
  }

  lemma RowZero(scale: Scale)
    ensures ScaleRow(scale, 0) == 0
  {
  }

  lemma RowOne(scale: Scale)
    ensures scale.length == 1 ==> ScaleRow(scale, 1) == 0
  {
  }

  // Walk the blocks, compensating each read for the normalisation carried in
  // and steering each update into the next block's family where the wires for
  // it exist.  A block is reported right exactly when the read scale it ends up
  // with is right on all data; every such block that was reached by harmless
  // moves outputs the direct decayed sum.
  method CompensatedWalk(x: Data, blocks: seq<Block>, seed: Grid, readable: int -> bool, steer: int -> bool)
    returns (ok: seq<bool>, outs: seq<Option<Grid>>, offs: seq<int>, used: seq<Scale>)
    requires x.Valid() && blocks != [] && Contiguous(blocks)
    requires Carried(x, seed, blocks[0].Phi(), blocks[0].start)
    ensures |ok| == |outs| == |offs| == |used| == |blocks|
    ensures forall i :: 0 <= i < |blocks| ==> offs[i] == OffAt(blocks, steer, i)
    ensures forall i :: 0 <= i < |blocks| ==> Reported(x, blocks[i], readable(i), ok[i], offs[i], used[i])
    ensures forall i :: 0 <= i < |blocks| ==> outs[i] == ReadOutput(x, blocks[i], used[i], StateAt(x, blocks, steer, seed, i))
    ensures forall i :: 0 <= i < |blocks| && HarmlessBefore(blocks, steer, i) && ok[i] ==>
      outs[i].Some? && DirectOutputs(x, blocks[i], outs[i].value)
  {
    hide *;
    var s, off := seed, blocks[0].Phi();
    ok, outs, offs, used := [], [], [], [];
    StartState(x, blocks, steer, seed);
    for i := 0 to |blocks|
      invariant |ok| == |outs| == |offs| == |used| == i
      invariant i < |blocks| ==> off == OffAt(blocks, steer, i) && s == StateAt(x, blocks, steer, seed, i)
      invariant forall j :: 0 <= j < i ==> offs[j] == OffAt(blocks, steer, j)
      invariant forall j :: 0 <= j < i ==> Reported(x, blocks[j], readable(j), ok[j], offs[j], used[j])
      invariant forall j :: 0 <= j < i ==> outs[j] == ReadOutput(x, blocks[j], used[j], StateAt(x, blocks, steer, seed, j))
      invariant forall j :: 0 <= j < i && HarmlessBefore(blocks, steer, j) && ok[j] ==>
        outs[j].Some? && DirectOutputs(x, blocks[j], outs[j].value)
    {
      var block := blocks[i];
      var needs := ReadNeeds(block, off);
      var scale := if needs && readable(i) then block.Needed(off) else block.Bound();
      var out := ReadOutput(x, block, scale, s);
      BlockReported(x, block, readable(i), off, scale);
      WalkReads(x, blocks, steer, seed, i, scale, readable(i));
      ok, outs, offs, used := ok + [!needs || readable(i)], outs + [out], offs + [off], used + [scale];
      if i + 1 < |blocks| {
        WalkTurns(x, blocks, steer, seed, i);
        var move := MoveOf(block, blocks[i + 1], off, steer(i));
        s := NextState(x, block.start, block.width, MoveWires(block, blocks[i + 1], off, move), s);
        off := MoveOff(block, blocks[i + 1], off, move);
      }
    }
  }

  // Where no compensated scale can be found the bound one is used; where one can,
  // the block is right.  The block is reported right exactly
  // when the scale used has an entry for each row at the compensated offset:
  // with something before the block, exactly when it is right on all data.
  ghost predicate Reported(x: Data, b: Block, found: bool, ok: bool, off: int, used: Scale)
    requires x.Valid()
  {
    && (!found ==> used == b.Bound()) && (found ==> ok)
    && (ok <==> used.offset == b.start - off && used.length == b.width)
    && (0.0 < x.g < 1.0 && x.d >= 1 && b.start >= 1 && b.width >= 1 ==> (ok <==> ReadsRight(x.g, x.d, b, off, used)))
  }

  lemma BlockReported(x: Data, b: Block, found: bool, off: int, used: Scale)
    requires x.Valid() && used == if ReadNeeds(b, off) && found then b.Needed(off) else b.Bound()
    ensures Reported(x, b, found, !ReadNeeds(b, off) || found, off, used)
  {
    hide ReadsRight;
    if 0.0 < x.g < 1.0 && x.d >= 1 && b.start >= 1 && b.width >= 1 {
      ScaleExactly(x.g, x.d, b, off, used);
    }
  }

  lemma StartState(x: Data, blocks: seq<Block>, steer: int -> bool, seed: Grid)
    requires x.Valid() && blocks != []
    ensures StateAt(x, blocks, steer, seed, 0) == seed && OffAt(blocks, steer, 0) == blocks[0].Phi()
  {
  }

  lemma WalkTurns(x: Data, blocks: seq<Block>, steer: int -> bool, seed: Grid, i: nat)
    requires x.Valid() && i + 1 < |blocks|
    ensures var b, next, off := blocks[i], blocks[i + 1], OffAt(blocks, steer, i);
      var move := MoveOf(b, next, off, steer(i));
      && OffAt(blocks, steer, i + 1) == MoveOff(b, next, off, move)
      && StateAt(x, blocks, steer, seed, i + 1)
         == NextState(x, b.start, b.width, MoveWires(b, next, off, move), StateAt(x, blocks, steer, seed, i))
  {
    hide NextState, MoveOf, MoveWires, MoveOff;
  }

  lemma WalkReads(x: Data, blocks: seq<Block>, steer: int -> bool, seed: Grid, i: nat, scale: Scale, found: bool)
    requires x.Valid() && Contiguous(blocks) && i < |blocks| && Carried(x, seed, blocks[0].Phi(), blocks[0].start)
    requires var b, off := blocks[i], OffAt(blocks, steer, i);
      scale == if ReadNeeds(b, off) && found then b.Needed(off) else b.Bound()
    ensures HarmlessBefore(blocks, steer, i) && (!ReadNeeds(blocks[i], OffAt(blocks, steer, i)) || found) ==>
      var out := ReadOutput(x, blocks[i], scale, StateAt(x, blocks, steer, seed, i));
      out.Some? && DirectOutputs(x, blocks[i], out.value)
  {
    hide Carried, OffAt, StateAt, ReadOutput, DirectOutputs, HarmlessBefore;
    if HarmlessBefore(blocks, steer, i) {
      WalkCarries(x, blocks, steer, seed, i);
      NeededReads(x, blocks[i], OffAt(blocks, steer, i), StateAt(x, blocks, steer, seed, i));
    }
  }

  ghost predicate DirectOutputs(x: Data, b: Block, out: Grid)
    requires x.Valid()
  {
    forall r, c :: 0 <= r < b.width ==> out(r, c) == x.Direct(b.start + r, c)
  }

  // Where every steering pair can be found, every move is harmless.
  lemma SteeredIsHarmless(blocks: seq<Block>, steer: int -> bool, i: nat)
    requires i < |blocks| && forall j :: steer(j)
    ensures HarmlessBefore(blocks, steer, i)
  {
    forall j | 0 <= j < i
      ensures Harmless(blocks[j], OffAt(blocks, steer, j), MoveAt(blocks, steer, j))
    {
      assert steer(j);
    }
  }
}
