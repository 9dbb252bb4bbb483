// The synthesised step and the K-block fold program both denote retention: at
// every position, the direct decayed sum over all positions up to it.

module RetnetMeaning {
  import opened Wrappers
  import opened Terms
  import opened Morphisms
  import opened Decay
  import opened Retention
  import opened Bisection
  import opened Denotation
  import Assembly
  import Retnet = RetnetProgram

  // ---------------------------------------------------------------------------
  //  The synthesised step
  // ---------------------------------------------------------------------------

  // A block's eight wires, in the order q, k, v, w, eta, D, xi, c: those its
  // output reads, with a read scale of so many entries, and the two its update
  // reads besides.
  ghost predicate OutputBound(x: Data, p: Site, raw: Grid, c: real, len: int, env: map<Term, Val>, row: seq<Term>)
    requires x.Valid()
  {
    && |row| == 8 && c != 0.0 && BlockBound(x, p, env, row[1], row[2])
    && IsMatrix(Eval(row[0], env), p.width, x.d, raw)
    && (forall r, a :: 0 <= r < p.width && 0 <= a < x.d ==> raw(r, a) / c == Queries(x, p.start)(r, a))
    && IsMatrix(Eval(row[5], env), p.width, p.width, Masks(x.g))
    && IsMatrix(Eval(row[6], env), len, 1, Col(Xi(x.g, p.wires.cx)))
    && Eval(row[7], env) == Some(Scalar(c))
  }

  ghost predicate UpdateBound(x: Data, p: Site, env: map<Term, Val>, row: seq<Term>)
    requires x.Valid()
  {
    && |row| == 8 && BlockBound(x, p, env, row[1], row[2])
    && IsWeight(Eval(row[3], env), Pow(x.g, p.wires.cw))
    && IsMatrix(Eval(row[4], env), p.width, 1, Col(Eta(x.g, p.wires.ce)))
  }

  // Over any nine wires, the step denotes the block's update and output.
  lemma StepTemplateMeans(x: Data, p: Site, s: Grid, raw: Grid, c: real, env: map<Term, Val>, st: Term, row: seq<Term>)
    requires x.Valid() && |row| == 8 && IsMatrix(Eval(st, env), x.d, p.e, s)
    ensures UpdateBound(x, p, env, row) ==>
      IsMatrix(Eval(Assembly.StepNext([st] + row), env), x.d, p.e, NextState(x, p.start, p.width, p.wires, s))
    ensures OutputBound(x, p, raw, c, p.width, env, row) ==>
      IsMatrix(Eval(Assembly.StepOut([st] + row), env), p.width, p.e, BlockOutput(x, p.start, p.width, p.wires.cx, s))
  {
    hide Eval, IsMatrix, IsWeight, Pow, Sum, Col, NextState, BlockOutput;
    var flip: Attrs := map["dim0" := Num(-1), "dim1" := Num(-2)];
    StepShape(st, row);
    if UpdateBound(x, p, env, row) {
      NextDenotes(x, p, s, env, row[3], st, row[1], row[4], row[2], flip);
    }
    if OutputBound(x, p, raw, c, p.width, env, row) {
      ScoresDivideLast(x, p, env, row[0], row[1], flip, row[7], raw, c);
      DivIs(row[0], row[7], env, p.width, x.d, c, raw);
      Retarget(Eval(Plain("div", [row[0], row[7]]), env), p.width, x.d, Over(raw, c), Queries(x, p.start));
      OutDenotes(x, p, s, env, Plain("div", [Plain("matmul", [row[0], Op("transpose", [row[1]], flip)]), row[7]]), row[5],
                 row[2], row[6], Plain("div", [row[0], row[7]]), st);
    }
  }

  lemma StepShape(st: Term, row: seq<Term>)
    requires |row| == 8
    ensures var flip: Attrs := map["dim0" := Num(-1), "dim1" := Num(-2)];
      && Assembly.StepNext([st] + row) == NextShape(row[3], st, row[1], row[4], row[2], flip)
      && Assembly.StepOut([st] + row)
         == OutShape(Plain("div", [Plain("matmul", [row[0], Op("transpose", [row[1]], flip)]), row[7]]), row[5], row[2],
                     row[6], Plain("div", [row[0], row[7]]), st)
  {
    var x := [st] + row;
    assert x[0] == st && forall i :: 0 <= i < 8 ==> x[i + 1] == row[i];
  }

  // Under the compensated exponents, the step's output is the direct decayed
  // sum and its state stays the accumulation.
  lemma StepTemplateIsRetention(x: Data, p: Site, off: int, raw: Grid, c: real, env: map<Term, Val>, st: Term, row: seq<Term>)
    requires x.Valid() && p.start >= 0 && |row| == 8 && IsMatrix(Eval(st, env), x.d, p.e, CarriedState(x, off, p.start))
    ensures OutputBound(x, p, raw, c, p.width, env, row) && p.wires.cx == p.start - off ==>
      IsMatrix(Eval(Assembly.StepOut([st] + row), env), p.width, p.e, DirectRows(x, p.start))
    ensures UpdateBound(x, p, env, row) && p.wires.ce + p.start == p.wires.cw + off ==>
      IsMatrix(Eval(Assembly.StepNext([st] + row), env), x.d, p.e, CarriedState(x, p.wires.cw + off, p.start + p.width))
  {
    hide *;
    StepTemplateMeans(x, p, CarriedState(x, off, p.start), raw, c, env, st, row);
    if OutputBound(x, p, raw, c, p.width, env, row) && p.wires.cx == p.start - off {
      CarriedRead(x, p, off, Eval(Assembly.StepOut([st] + row), env));
    }
    if UpdateBound(x, p, env, row) && p.wires.ce + p.start == p.wires.cw + off {
      CarriedNext(x, p, off, Eval(Assembly.StepNext([st] + row), env));
    }
  }

  // ---------------------------------------------------------------------------
  //  The fold program
  // ---------------------------------------------------------------------------

  // A projection: every row of the input against every row of the weight, plus
  // the bias.
  datatype Affine = Affine(weight: Grid, bias: int -> real)
  {
    function Of(x: Grid, m: int): Grid {
      (i, j) => Sum(MatTerm(x, Flipped(weight), i, j), 0, m) + bias(j)
    }
  }

  // What the program's inputs stand for: an input of K*C rows and m columns,
  // the three projections' weights and biases, a score denominator, zero
  // initial state, and a = g^C.
  datatype Setting = Setting(g: real, c: real, x: Grid, m: nat, q: Affine, k: Affine, v: Affine,
                             d: nat, e: nat, size: nat, blocks: nat)
  {
    predicate Valid() {
      g != 0.0 && c != 0.0
    }

    function Raw(): Grid {
      q.Of(x, m)
    }

    // Queries (X Wq^T + bq) / c, keys X Wk^T + bk, values X Wv^T + bv.
    function Scaled(): Data
      requires Valid()
    {
      Data(g, Over(Raw(), c), k.Of(x, m), v.Of(x, m), d)
    }

    function Length(): nat {
      Groups(blocks, size)
    }
  }

  ghost predicate IsVector(v: Option<Val>, n: int, f: int -> real) {
    v.Some? && v.value.Vector? && v.value.len == n && forall j :: 0 <= j < n ==> v.value.item(j) == f(j)
  }

  // A weight of n rows and m columns, and a bias of n entries.
  ghost predicate IsAffine(weight: Option<Val>, bias: Option<Val>, n: nat, m: nat, f: Affine) {
    IsMatrix(weight, n, m, f.weight) && IsVector(bias, n, f.bias)
  }

  // The leaves of the program, bound.
  ghost predicate ProgramBound(w: Setting, env: map<Term, Val>, sc: Retnet.Scheme, x: Term, s0: Term, p: Retnet.Projections)
    requires w.Valid()
  {
    && sc.c == w.size
    && IsMatrix(Eval(x, env), w.Length(), w.m, w.x)
    && IsAffine(Eval(p.wq, env), Eval(p.bq, env), w.d, w.m, w.q)
    && IsAffine(Eval(p.wk, env), Eval(p.bk, env), w.d, w.m, w.k)
    && IsAffine(Eval(p.wv, env), Eval(p.bv, env), w.e, w.m, w.v)
    && IsMatrix(Eval(s0, env), w.d, w.e, Nothing())
    && Eval(sc.g, env) == Some(Scalar(w.g)) && Eval(sc.a, env) == Some(Scalar(Pow(w.g, w.size)))
    && Eval(sc.den, env) == Some(Scalar(w.c))
  }

  // A projection of the program denotes the affine map of its leaves.
  lemma ProjectIs(x: Term, weight: Term, bias: Term, env: map<Term, Val>, t: nat, m: nat, n: nat, f: Grid, h: Affine)
    requires IsMatrix(Eval(x, env), t, m, f) && IsAffine(Eval(weight, env), Eval(bias, env), n, m, h)
    ensures IsMatrix(Eval(Retnet.Project(x, weight, bias), env), t, n, h.Of(f, m))
  {
    hide Eval, Sum;
    Eval3("linear", x, weight, bias, map[], env);
    var a, b, c := Eval(x, env).value, Eval(weight, env).value, Eval(bias, env).value;
    LinearIs(a, b, c);
    forall i, j | 0 <= i < t && 0 <= j < n
      ensures Sum(MatTerm(a.at, Flipped(b.at), i, j), 0, m) + c.item(j) == h.Of(f, m)(i, j)
    {
      SumEq(MatTerm(a.at, Flipped(b.at), i, j), MatTerm(f, Flipped(h.weight), i, j), 0, m);
    }
  }

  lemma LinearIs(a: Val, b: Val, c: Val)
    requires a.Matrix? && b.Matrix? && c.Vector? && a.cols == b.cols && b.rows == c.len
    ensures var r := Denote("linear", [a, b, c], map[]);
      && r.Some? && r.value.Matrix? && r.value.rows == a.rows && r.value.cols == b.rows
      && forall i, j :: r.value.at(i, j) == Sum(MatTerm(a.at, Flipped(b.at), i, j), 0, a.cols) + c.item(j)
  {
    hide Sum;
  }

  function From(f: Grid, lo: int): Grid {
    (u, j) => f(lo + u, j)
  }

  lemma {:induction false} CopiesStart(c: nat, k: nat, i: nat)
    requires i < k
    ensures Total(Copies(c, k)) == Groups(k, c) && Start(Copies(c, k), i) == Groups(i, c)
  {
    CopiesTotal(c, k);
    CopiesTotal(c, i);
    GroupsIsProduct(k, c);
    GroupsIsProduct(i, c);
    assert Copies(c, k)[..i] == Copies(c, i);
  }

  lemma SliceIs(m: Term, env: map<Term, Val>, c: nat, k: nat, i: nat, cols: nat, f: Grid)
    requires i < k && c > 0 && IsMatrix(Eval(m, env), Groups(k, c), cols, f)
    ensures IsMatrix(Eval(Retnet.BlockOf(m, c, k, i), env), c, cols, From(f, Groups(i, c)))
  {
    hide Eval, Total, Start;
    var attrs := Retnet.BlockAttrs(c, k, i);
    Eval1("split", m, attrs, env);
    CopiesStart(c, k, i);
    assert SizesOf(attrs) == Copies(c, k) && NumAttr(attrs, "index", 0) == i && NumAttr(attrs, "dim", 0) == -2;
    SliceInside(i, k, c);
  }

  lemma {:induction false} SliceInside(i: nat, k: nat, c: nat)
    requires i < k
    ensures 0 <= Groups(i, c) && Groups(i, c) + c <= Groups(k, c)
    decreases k - i
  {
    if k <= i + 1 {
    } else {
      SliceInside(i, k - 1, c);
    }
  }

  lemma ColumnIs(g: Term, attrs: Attrs, env: map<Term, Val>, base: real, n: nat, sign: int, off: int)
    requires base != 0.0 && Eval(g, env) == Some(Scalar(base))
    requires NumAttr(attrs, "t", 1) == n && NumAttr(attrs, "sign", 1) == sign && NumAttr(attrs, "offset", 0) == off
    ensures IsMatrix(Eval(Retnet.Column(g, attrs), env), n, 1, Col(k => Pow(base, sign * k + off)))
  {
    hide Eval, Pow;
    Eval1("decay_vec", g, attrs, env);
    Eval1("unsqueeze", Op("decay_vec", [g], attrs), Retnet.LastDim(), env);
  }

  lemma EtaIs(g: Term, env: map<Term, Val>, base: real, n: nat)
    requires base != 0.0 && Eval(g, env) == Some(Scalar(base))
    ensures IsMatrix(Eval(Retnet.Column(g, Retnet.EtaAttrs(n)), env), n, 1, Col(Eta(base, 0)))
  {
    hide Eval, Pow;
    var f: int -> real := k => Pow(base, -1 * k + 0);
    ColumnIs(g, Retnet.EtaAttrs(n), env, base, n, -1, 0);
    forall u
      ensures Pow(base, -1 * u + 0) == Eta(base, 0)(u)
    {
      assert -1 * u + 0 == -u + 0;
    }
  }

  lemma XiIs(g: Term, env: map<Term, Val>, base: real, n: nat)
    requires base != 0.0 && Eval(g, env) == Some(Scalar(base))
    ensures IsMatrix(Eval(Retnet.Column(g, Retnet.XiAttrs(n)), env), n, 1, Col(Xi(base, n)))
  {
    hide Eval, Pow;
    ColumnIs(g, Retnet.XiAttrs(n), env, base, n, 1, n);
    forall r
      ensures Pow(base, 1 * r + n) == Xi(base, n)(r)
    {
      assert 1 * r + n == r + n;
    }
  }

  lemma MaskIs(g: Term, env: map<Term, Val>, base: real, n: nat)
    requires base != 0.0 && Eval(g, env) == Some(Scalar(base))
    ensures IsMatrix(Eval(Op("decay", [g], Retnet.MaskAttrs(n)), env), n, n, Masks(base))
  {
    hide Eval, Pow, Mask;
    Eval1("decay", g, Retnet.MaskAttrs(n), env);
    assert NumAttr(Retnet.MaskAttrs(n), "t", 1) == n;
  }

  // Block i of the program: C positions from i*C, state weight g^C, plain key
  // decay, read scale offset C.
  function SiteOf(w: Setting, i: nat): Site {
    Site(Groups(i, w.size), w.size, w.e, Wires(w.size, 0, w.size))
  }

  // The state entering block i carries the accumulation so far at offset
  // start - C.
  ghost predicate StateMeans(w: Setting, env: map<Term, Val>, t: Term, i: nat)
    requires w.Valid()
  {
    IsMatrix(Eval(t, env), w.d, w.e, CarriedState(w.Scaled(), Groups(i, w.size) - w.size, Groups(i, w.size)))
  }

  lemma RowsBound(w: Setting, env: map<Term, Val>, sc: Retnet.Scheme, x: Term, s0: Term, p: Retnet.Projections, i: nat)
    requires w.Valid() && w.size > 0 && i < w.blocks && ProgramBound(w, env, sc, x, s0, p)
    ensures var row := Retnet.Slices(x, p, w.size, w.blocks)[i];
      && IsMatrix(Eval(row[0], env), w.size, w.d, From(w.Raw(), Groups(i, w.size)))
      && BlockBound(w.Scaled(), SiteOf(w, i), env, row[1], row[2])
  {
    hide Eval, Pow, IsMatrix, IsAffine, Affine.Of, Retnet.Project;
    ProjectIs(x, p.wq, p.bq, env, w.Length(), w.m, w.d, w.x, w.q);
    ProjectIs(x, p.wk, p.bk, env, w.Length(), w.m, w.d, w.x, w.k);
    ProjectIs(x, p.wv, p.bv, env, w.Length(), w.m, w.e, w.x, w.v);
    SliceIs(Retnet.Project(x, p.wq, p.bq), env, w.size, w.blocks, i, w.d, w.Raw());
    SliceIs(Retnet.Project(x, p.wk, p.bk), env, w.size, w.blocks, i, w.d, w.k.Of(w.x, w.m));
    SliceIs(Retnet.Project(x, p.wv, p.bv), env, w.size, w.blocks, i, w.e, w.v.Of(w.x, w.m));
    SlicesHold(w, x, p, i);
    FromData(w, i, Retnet.Slices(x, p, w.size, w.blocks)[i], env);
  }

  lemma SlicesHold(w: Setting, x: Term, p: Retnet.Projections, i: nat)
    requires i < w.blocks
    ensures Retnet.Slices(x, p, w.size, w.blocks)[i]
         == [Retnet.BlockOf(Retnet.Project(x, p.wq, p.bq), w.size, w.blocks, i),
             Retnet.BlockOf(Retnet.Project(x, p.wk, p.bk), w.size, w.blocks, i),
             Retnet.BlockOf(Retnet.Project(x, p.wv, p.bv), w.size, w.blocks, i)]
  {
    hide Retnet.BlockOf, Retnet.Project;
  }

  lemma FromData(w: Setting, i: nat, row: seq<Term>, env: map<Term, Val>)
    requires w.Valid() && |row| == 3
    requires IsMatrix(Eval(row[1], env), w.size, w.d, From(w.k.Of(w.x, w.m), Groups(i, w.size)))
    requires IsMatrix(Eval(row[2], env), w.size, w.e, From(w.v.Of(w.x, w.m), Groups(i, w.size)))
    ensures BlockBound(w.Scaled(), SiteOf(w, i), env, row[1], row[2])
  {
    hide Eval, Affine.Of;
  }

  lemma StartState(w: Setting, env: map<Term, Val>, t: Term)
    requires w.Valid() && IsMatrix(Eval(t, env), w.d, w.e, Nothing())
    ensures StateMeans(w, env, t, 0)
  {
    hide Eval, Pow;
    var s := CarriedState(w.Scaled(), 0 - w.size, 0);
    forall a, b
      ensures s(a, b) == 0.0
    {
      assert w.Scaled().Accum(0, a, b) == 0.0;
    }
    Retarget(Eval(t, env), w.d, w.e, Nothing(), s);
  }

  lemma NextMeans(w: Setting, env: map<Term, Val>, sc: Retnet.Scheme, x: Term, s0: Term, p: Retnet.Projections, i: nat, t: Term)
    requires w.Valid() && w.size > 0 && i < w.blocks && ProgramBound(w, env, sc, x, s0, p) && StateMeans(w, env, t, i)
    ensures StateMeans(w, env, sc.Next(t, Retnet.Slices(x, p, w.size, w.blocks)[i]), i + 1)
  {
    hide Eval, Pow, IsMatrix, CarriedState, NextState, Col;
    var row, site, y := Retnet.Slices(x, p, w.size, w.blocks)[i], SiteOf(w, i), w.Scaled();
    var off := site.start - w.size;
    var eta := Retnet.Column(sc.g, Retnet.EtaAttrs(w.size));
    SliceInside(i, w.blocks, w.size);
    RowsBound(w, env, sc, x, s0, p, i);
    EtaIs(sc.g, env, w.g, w.size);
    NextDenotes(y, site, CarriedState(y, off, site.start), env, sc.a, t, row[1], eta, row[2], Retnet.Swap());
    CarriedNext(y, site, off, Eval(NextShape(sc.a, t, row[1], eta, row[2], Retnet.Swap()), env));
    NextIsShape(sc, t, row);
  }

  lemma NextIsShape(sc: Retnet.Scheme, t: Term, row: seq<Term>)
    requires |row| == 3
    ensures sc.Next(t, row)
         == NextShape(sc.a, t, row[1], Retnet.Column(sc.g, Retnet.EtaAttrs(sc.c)), row[2], Retnet.Swap())
  {
  }

  lemma OutIsShape(sc: Retnet.Scheme, t: Term, row: seq<Term>)
    requires |row| == 3
    ensures var q := Plain("div", [row[0], sc.den]);
      sc.Out(t, row) == OutShape(Plain("matmul", [q, Op("transpose", [row[1]], Retnet.Swap())]),
                                 Op("decay", [sc.g], Retnet.MaskAttrs(sc.c)), row[2],
                                 Retnet.Column(sc.g, Retnet.XiAttrs(sc.c)), q, t)
  {
  }

  lemma OutMeans(w: Setting, env: map<Term, Val>, sc: Retnet.Scheme, x: Term, s0: Term, p: Retnet.Projections, i: nat, t: Term)
    requires w.Valid() && w.size > 0 && i < w.blocks && ProgramBound(w, env, sc, x, s0, p) && StateMeans(w, env, t, i)
    ensures IsMatrix(Eval(sc.Out(t, Retnet.Slices(x, p, w.size, w.blocks)[i]), env), w.size, w.e,
                     DirectRows(w.Scaled(), Groups(i, w.size)))
  {
    hide Eval, Pow, IsMatrix, CarriedState, BlockOutput, Col, DirectRows;
    var row, site, y := Retnet.Slices(x, p, w.size, w.blocks)[i], SiteOf(w, i), w.Scaled();
    var off := site.start - w.size;
    var q := Plain("div", [row[0], sc.den]);
    var score := Plain("matmul", [q, Op("transpose", [row[1]], Retnet.Swap())]);
    var mask, xi := Op("decay", [sc.g], Retnet.MaskAttrs(w.size)), Retnet.Column(sc.g, Retnet.XiAttrs(w.size));
    SliceInside(i, w.blocks, w.size);
    RowsBound(w, env, sc, x, s0, p, i);
    DivIs(row[0], sc.den, env, w.size, w.d, w.c, From(w.Raw(), site.start));
    Retarget(Eval(q, env), w.size, w.d, Over(From(w.Raw(), site.start), w.c), Queries(y, site.start));
    ScoresDivideFirst(y, site, env, q, row[1], Retnet.Swap());
    MaskIs(sc.g, env, w.g, w.size);
    XiIs(sc.g, env, w.g, w.size);
    OutDenotes(y, site, CarriedState(y, off, site.start), env, score, mask, row[2], xi, q, t);
    CarriedRead(y, site, off, Eval(OutShape(score, mask, row[2], xi, q, t), env));
    OutIsShape(sc, t, row);
  }

  lemma {:induction false} StatesMean(w: Setting, env: map<Term, Val>, sc: Retnet.Scheme, x: Term, s0: Term, p: Retnet.Projections, i: nat)
    requires w.Valid() && w.size > 0 && i <= w.blocks && ProgramBound(w, env, sc, x, s0, p)
    ensures StateMeans(w, env, sc.StateAt(s0, Retnet.Slices(x, p, w.size, w.blocks), i), i)
    decreases i
  {
    hide Eval, StateMeans, Retnet.Scheme.Next, Retnet.Slices;
    var rows := Retnet.Slices(x, p, w.size, w.blocks);
    if i == 0 {
      StartState(w, env, s0);
    } else {
      StatesMean(w, env, sc, x, s0, p, i - 1);
      NextMeans(w, env, sc, x, s0, p, i - 1, sc.StateAt(s0, rows, i - 1));
    }
  }

  // Matrices that hold consecutive rows of one grid, stacked.  The i-th one
  // holds the rows from bounds[i] on, before bounds[i + 1].
  ghost predicate HoldRows(outs: seq<Term>, env: map<Term, Val>, bounds: seq<int>, e: nat, f: Grid) {
    && |bounds| == |outs| + 1
    && forall i :: 0 <= i < |outs| ==>
         bounds[i] <= bounds[i + 1] && IsMatrix(Eval(outs[i], env), bounds[i + 1] - bounds[i], e, From(f, bounds[i]))
  }

  lemma {:induction false} StackMeans(outs: seq<Term>, env: map<Term, Val>, bounds: seq<int>, e: nat, f: Grid)
    requires outs != [] && HoldRows(outs, env, bounds, e, f)
    ensures bounds[0] <= bounds[|outs|] && EvalAll(outs, env).Some?
    ensures IsMatrix(Stack(EvalAll(outs, env).value), bounds[|outs|] - bounds[0], e, From(f, bounds[0]))
    decreases |outs|
  {
    hide Eval, Stack, IsMatrix, From;
    var n, m := bounds[1] - bounds[0], bounds[|outs|] - bounds[1];
    EvalCons(outs, env, n, e, From(f, bounds[0]));
    if |outs| == 1 {
      StackOne(Eval(outs[0], env), n, e, From(f, bounds[0]));
    } else {
      StackMeans(outs[1..], env, bounds[1..], e, f);
      StackTwo(f, Eval(outs[0], env), EvalAll(outs[1..], env).value, n, m, e, bounds[0]);
    }
  }

  lemma NoGroups(n: nat)
    ensures Groups(0, n) == 0
  {
  }

  lemma OneGroup(i: nat, n: nat)
    ensures Groups(i + 1, n) == n + Groups(i, n)
  {
  }

  lemma EvalCons(outs: seq<Term>, env: map<Term, Val>, n: int, m: int, f: Grid)
    requires outs != [] && IsMatrix(Eval(outs[0], env), n, m, f)
    ensures EvalAll(outs[1..], env).Some? ==>
      EvalAll(outs, env) == Some([Eval(outs[0], env).value] + EvalAll(outs[1..], env).value)
    ensures |outs| == 1 ==> EvalAll(outs, env) == Some([Eval(outs[0], env).value])
  {
    hide Eval;
    if |outs| == 1 {
      assert outs[1..] == [];
      assert EvalAll([], env) == Some([]);
      assert [Eval(outs[0], env).value] + [] == [Eval(outs[0], env).value];
    }
  }

  lemma StackOne(v: Option<Val>, n: int, m: int, f: Grid)
    requires IsMatrix(v, n, m, f)
    ensures IsMatrix(Stack([v.value]), n, m, f)
  {
  }

  lemma StackTwo(f: Grid, first: Option<Val>, rest: seq<Val>, n: nat, m: nat, e: nat, lo: int)
    requires rest != [] && IsMatrix(first, n, e, From(f, lo)) && IsMatrix(Stack(rest), m, e, From(f, lo + n))
    ensures IsMatrix(Stack([first.value] + rest), n + m, e, From(f, lo))
  {
    var vs := [first.value] + rest;
    assert vs[0] == first.value && vs[1..] == rest;
    forall i, j | 0 <= i < n + m && 0 <= j < e
      ensures Stack(vs).value.at(i, j) == From(f, lo)(i, j)
    {
      if i >= n {
        assert lo + n + (i - n) == lo + i;
      }
    }
  }

  // For every block count and block size, and every nonzero base, the K-block
  // program expands to a term that denotes the direct decayed sum at every
  // position.
  lemma FoldProgramIsRetention(w: Setting, env: map<Term, Val>, sc: Retnet.Scheme, x: Term, s0: Term, p: Retnet.Projections)
    requires w.Valid() && w.size > 0 && w.blocks > 0 && ProgramBound(w, env, sc, x, s0, p)
    ensures IsMatrix(Eval(Op("concat", sc.Outs(s0, Retnet.Slices(x, p, w.size, w.blocks)), ConcatAttrs()), env),
                     w.Length(), w.e, DirectRows(w.Scaled(), 0))
  {
    hide *;
    SettingLength(w);
    var outs, f := sc.Outs(s0, Retnet.Slices(x, p, w.size, w.blocks)), DirectRows(w.Scaled(), 0);
    var bounds := seq(w.blocks + 1, i requires 0 <= i <= w.blocks => Groups(i, w.size));
    forall i | 0 <= i < |outs|
      ensures bounds[i] <= bounds[i + 1] && IsMatrix(Eval(outs[i], env), bounds[i + 1] - bounds[i], w.e, From(f, bounds[i]))
    {
      EachOutMeans(w, env, sc, x, s0, p, i);
      OneGroup(i, w.size);
    }
    RowsHeld(outs, env, bounds, w.e, f);
    StackMeans(outs, env, bounds, w.e, f);
    NoGroups(w.size);
    ConcatIsStack(outs, env);
    FromZero(f, Eval(Op("concat", outs, ConcatAttrs()), env), w.Length(), w.e);
  }

  lemma RowsHeld(outs: seq<Term>, env: map<Term, Val>, bounds: seq<int>, e: nat, f: Grid)
    requires |bounds| == |outs| + 1
    requires forall i :: 0 <= i < |outs| ==>
      bounds[i] <= bounds[i + 1] && IsMatrix(Eval(outs[i], env), bounds[i + 1] - bounds[i], e, From(f, bounds[i]))
    ensures HoldRows(outs, env, bounds, e, f)
  {
    hide Eval, IsMatrix, From;
  }

  lemma FromZero(f: Grid, v: Option<Val>, n: int, m: int)
    requires IsMatrix(v, n, m, From(f, 0))
    ensures IsMatrix(v, n, m, f)
  {
  }

  lemma SettingLength(w: Setting)
    ensures w.Length() == Groups(w.blocks, w.size)
    ensures w.Valid() ==> w.Scaled().Valid()
  {
  }

  lemma EachOutMeans(w: Setting, env: map<Term, Val>, sc: Retnet.Scheme, x: Term, s0: Term, p: Retnet.Projections, i: nat)
    requires w.Valid() && w.size > 0 && i < w.blocks && ProgramBound(w, env, sc, x, s0, p)
    ensures var outs := sc.Outs(s0, Retnet.Slices(x, p, w.size, w.blocks));
      IsMatrix(Eval(outs[i], env), w.size, w.e, From(DirectRows(w.Scaled(), 0), Groups(i, w.size)))
  {
    hide Eval, IsMatrix, DirectRows, Retnet.Slices, StateMeans, Retnet.Scheme.Out, Retnet.Scheme.StateAt, ProgramBound, From;
    var rows := Retnet.Slices(x, p, w.size, w.blocks);
    StatesMean(w, env, sc, x, s0, p, i);
    OutMeans(w, env, sc, x, s0, p, i, sc.StateAt(s0, rows, i));
    DirectFrom(w.Scaled(), Eval(sc.Outs(s0, rows)[i], env), Groups(i, w.size), w.size, w.e);
  }

  // The rows of the direct sums from a position on.
  lemma DirectFrom(x: Data, v: Option<Val>, lo: int, n: int, m: int)
    requires x.Valid() && IsMatrix(v, n, m, DirectRows(x, lo))
    ensures IsMatrix(v, n, m, From(DirectRows(x, 0), lo))
  {
    hide Data.Direct;
    forall i, j | 0 <= i < n && 0 <= j < m
      ensures DirectRows(x, lo)(i, j) == From(DirectRows(x, 0), lo)(i, j)
    {
      assert 0 + (lo + i) == lo + i;
    }
  }

  lemma ConcatIsStack(outs: seq<Term>, env: map<Term, Val>)
    requires EvalAll(outs, env).Some?
    ensures Eval(Op("concat", outs, ConcatAttrs()), env) == Stack(EvalAll(outs, env).value)
  {
    hide Stack;
    assert NumAttr(ConcatAttrs(), "dim", 0) == -2;
  }
}
