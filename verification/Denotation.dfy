// What the retention terms mean as matrices over the reals, and that both the
// synthesised step and the whole fold program compute the direct decayed sum.

module Denotation {
  import opened Wrappers
  import opened Terms
  import opened Decay
  import opened Retention
  import opened Bisection

  datatype Val =
    | Scalar(x: real)
    | Vector(len: int, item: int -> real)
    | Matrix(rows: int, cols: int, at: Grid)

  // ---------------------------------------------------------------------------
  //  The operators
  // ---------------------------------------------------------------------------

  function NumAttr(attrs: Attrs, key: string, default: int): int {
    if key in attrs && attrs[key].Num? then attrs[key].n else default
  }

  // The transposition exchanges the last two axes.
  predicate SwapsAxes(attrs: Attrs) {
    var a, b := NumAttr(attrs, "dim0", 0), NumAttr(attrs, "dim1", 0);
    (a == -1 && b == -2) || (a == -2 && b == -1)
  }

  // A broadcast read along one axis.
  function Clamp(i: int, n: int): int {
    if n == 1 then 0 else i
  }

  function Wider(m: int, n: int): int {
    if m == 1 then n else m
  }

  predicate Fits(m: int, n: int) {
    m == n || m == 1 || n == 1
  }

  function Entry(v: Val, i: int, j: int): real {
    match v
    case Scalar(x) => x
    case Vector(_, item) => item(j)
    case Matrix(rows, cols, at) => at(Clamp(i, rows), Clamp(j, cols))
  }

  function Rows(v: Val): int {
    if v.Matrix? then v.rows else 1
  }

  function Cols(v: Val): int {
    match v
    case Scalar(_) => 1
    case Vector(len, _) => len
    case Matrix(_, cols, _) => cols
  }

  function Add2(x: real, y: real): real {
    x + y
  }

  function Mul2(x: real, y: real): real {
    x * y
  }

  function Div2(x: real, y: real): real {
    if y == 0.0 then 0.0 else x / y
  }

  function Elementwise(f: (real, real) -> real, a: Val, b: Val): Option<Val> {
    if a.Scalar? && b.Scalar? then Some(Scalar(f(a.x, b.x)))
    else if !Fits(Rows(a), Rows(b)) || !Fits(Cols(a), Cols(b)) then None
    else Some(Matrix(Wider(Rows(a), Rows(b)), Wider(Cols(a), Cols(b)), (i, j) => f(Entry(a, i, j), Entry(b, i, j))))
  }

  function Product(f: Grid, h: Grid, m: int): Grid {
    (i, j) => Sum(MatTerm(f, h, i, j), 0, m)
  }

  function Hadamard(f: Grid, h: Grid): Grid {
    (i, j) => f(i, j) * h(i, j)
  }

  function Flipped(f: Grid): Grid {
    (i, j) => f(j, i)
  }

  function SizesOf(attrs: Attrs): seq<int> {
    if "sizes" in attrs && attrs["sizes"].Nums? then attrs["sizes"].ns else []
  }

  // Stack matrices of equal width.
  function Stack(vs: seq<Val>): Option<Val> {
    if vs == [] || !vs[0].Matrix? then None
    else if |vs| == 1 then Some(vs[0])
    else
      var rest := Stack(vs[1..]);
      if rest.None? || !rest.value.Matrix? || rest.value.cols != vs[0].cols then None
      else
        var n := vs[0].rows;
        Some(Matrix(n + rest.value.rows, vs[0].cols,
                    (i, j) => if i < n then vs[0].at(i, j) else rest.value.at(i - n, j)))
  }

  function Denote(op: string, vs: seq<Val>, attrs: Attrs): Option<Val> {
    if op == "add" && |vs| == 2 then Elementwise(Add2, vs[0], vs[1])
    else if op == "mul" && |vs| == 2 then Elementwise(Mul2, vs[0], vs[1])
    else if op == "div" && |vs| == 2 && vs[1].Scalar? && vs[1].x != 0.0 then
      Elementwise(Div2, vs[0], vs[1])
    else if op == "matmul" && |vs| == 2 && vs[0].Matrix? && vs[1].Matrix? && vs[0].cols == vs[1].rows then
      Some(Matrix(vs[0].rows, vs[1].cols, Product(vs[0].at, vs[1].at, vs[0].cols)))
    else if op == "transpose" && |vs| == 1 && vs[0].Matrix? && SwapsAxes(attrs) then
      Some(Matrix(vs[0].cols, vs[0].rows, Flipped(vs[0].at)))
    else if op == "om_decayed" && |vs| == 3 && vs[0].Matrix? && vs[1].Matrix? && vs[2].Matrix?
      && vs[0].rows == vs[1].rows && vs[0].cols == vs[1].cols && vs[1].cols == vs[2].rows then
      Some(Matrix(vs[0].rows, vs[2].cols, Product(Hadamard(vs[0].at, vs[1].at), vs[2].at, vs[0].cols)))
    else if op == "decay_vec" && |vs| == 1 && vs[0].Scalar? && vs[0].x != 0.0 then
      var g, sign, off := vs[0].x, NumAttr(attrs, "sign", 1), NumAttr(attrs, "offset", 0);
      Some(Vector(NumAttr(attrs, "t", 1), k => Pow(g, sign * k + off)))
    else if op == "decay" && |vs| == 1 && vs[0].Scalar? && vs[0].x != 0.0 then
      var g, n := vs[0].x, NumAttr(attrs, "t", 1);
      Some(Matrix(n, n, (r, u) => Mask(g, r, u)))
    else if op == "unsqueeze" && |vs| == 1 && vs[0].Vector? && NumAttr(attrs, "dim", 0) == -1 then
      var item := vs[0].item;
      Some(Matrix(vs[0].len, 1, (i, j) => item(i)))
    else if op == "split" && |vs| == 1 && vs[0].Matrix? && NumAttr(attrs, "dim", 0) == -2 then
      var sizes, i, at := SizesOf(attrs), NumAttr(attrs, "index", 0), vs[0].at;
      if !Positive(sizes) || !(0 <= i < |sizes|) || Total(sizes) != vs[0].rows then None
      else
        var lo := Start(sizes, i);
        Some(Matrix(sizes[i], vs[0].cols, (u, j) => at(lo + u, j)))
    else if op == "concat" && NumAttr(attrs, "dim", 0) == -2 then Stack(vs)
    else if op == "linear" && |vs| == 3 && vs[0].Matrix? && vs[1].Matrix? && vs[2].Vector?
      && vs[0].cols == vs[1].cols && vs[1].rows == vs[2].len then
      var xw, item := Product(vs[0].at, Flipped(vs[1].at), vs[0].cols), vs[2].item;
      Some(Matrix(vs[0].rows, vs[1].rows, (i, j) => xw(i, j) + item(j)))
    else None
  }

  // The value of a term, its leaves given.
  function Eval(t: Term, env: map<Term, Val>): Option<Val> {
    if !t.Op? then (if t in env then Some(env[t]) else None)
    else
      var vs := EvalAll(t.args, env);
      if vs.None? then None else Denote(t.op, vs.value, t.attrs)
  }

  function EvalAll(ts: seq<Term>, env: map<Term, Val>): (r: Option<seq<Val>>)
    ensures r.Some? ==> |r.value| == |ts|
  {
    if ts == [] then Some([])
    else
      var first, rest := Eval(ts[0], env), EvalAll(ts[1..], env);
      if first.None? || rest.None? then None else Some([first.value] + rest.value)
  }

  lemma Eval1(op: string, a: Term, attrs: Attrs, env: map<Term, Val>)
    requires Eval(a, env).Some?
    ensures Eval(Op(op, [a], attrs), env) == Denote(op, [Eval(a, env).value], attrs)
  {
    hide Denote;
    assert [a][1..] == [];
    assert EvalAll([], env) == Some([]);
    assert EvalAll([a], env) == Some([Eval(a, env).value] + []);
    assert [Eval(a, env).value] + [] == [Eval(a, env).value];
  }

  lemma Eval2(op: string, a: Term, b: Term, attrs: Attrs, env: map<Term, Val>)
    requires Eval(a, env).Some? && Eval(b, env).Some?
    ensures Eval(Op(op, [a, b], attrs), env) == Denote(op, [Eval(a, env).value, Eval(b, env).value], attrs)
  {
    hide Denote;
    assert [a, b][1..] == [b] && [b][1..] == [];
    assert EvalAll([], env) == Some([]);
    assert EvalAll([b], env) == Some([Eval(b, env).value] + []);
    assert [Eval(a, env).value] + ([Eval(b, env).value] + []) == [Eval(a, env).value, Eval(b, env).value];
  }

  lemma Eval3(op: string, a: Term, b: Term, c: Term, attrs: Attrs, env: map<Term, Val>)
    requires Eval(a, env).Some? && Eval(b, env).Some? && Eval(c, env).Some?
    ensures Eval(Op(op, [a, b, c], attrs), env)
         == Denote(op, [Eval(a, env).value, Eval(b, env).value, Eval(c, env).value], attrs)
  {
    hide Denote;
    assert [a, b, c][1..] == [b, c] && [b, c][1..] == [c] && [c][1..] == [];
    assert EvalAll([], env) == Some([]);
    assert EvalAll([c], env) == Some([Eval(c, env).value] + []);
    assert EvalAll([b, c], env) == Some([Eval(b, env).value] + ([Eval(c, env).value] + []));
    assert [Eval(a, env).value] + ([Eval(b, env).value] + ([Eval(c, env).value] + []))
        == [Eval(a, env).value, Eval(b, env).value, Eval(c, env).value];
  }

  // ---------------------------------------------------------------------------
  //  Matrices, entry by entry
  // ---------------------------------------------------------------------------

  ghost predicate IsMatrix(v: Option<Val>, rows: int, cols: int, f: Grid) {
    && v.Some? && v.value.Matrix? && v.value.rows == rows && v.value.cols == cols
    && forall i, j :: 0 <= i < rows && 0 <= j < cols ==> v.value.at(i, j) == f(i, j)
  }

  lemma Retarget(v: Option<Val>, rows: int, cols: int, f: Grid, h: Grid)
    requires IsMatrix(v, rows, cols, f) && forall i, j :: 0 <= i < rows && 0 <= j < cols ==> f(i, j) == h(i, j)
    ensures IsMatrix(v, rows, cols, h)
  {
  }

  lemma ElementIs(f: (real, real) -> real, a: Val, b: Val, n: int, m: int, h: Grid)
    requires !(a.Scalar? && b.Scalar?) && Fits(Rows(a), Rows(b)) && Fits(Cols(a), Cols(b))
    requires Wider(Rows(a), Rows(b)) == n && Wider(Cols(a), Cols(b)) == m
    requires forall i, j :: 0 <= i < n && 0 <= j < m ==> f(Entry(a, i, j), Entry(b, i, j)) == h(i, j)
    ensures IsMatrix(Elementwise(f, a, b), n, m, h)
  {
  }

  lemma MatMulIs(a: Term, b: Term, env: map<Term, Val>, n: int, m: int, p: int, f: Grid, h: Grid)
    requires IsMatrix(Eval(a, env), n, m, f) && IsMatrix(Eval(b, env), m, p, h)
    ensures IsMatrix(Eval(Op("matmul", [a, b], map[]), env), n, p, Product(f, h, m))
  {
    hide Eval, Sum;
    Eval2("matmul", a, b, map[], env);
    var x, y := Eval(a, env).value, Eval(b, env).value;
    forall i, j | 0 <= i < n && 0 <= j < p
      ensures Product(x.at, y.at, m)(i, j) == Product(f, h, m)(i, j)
    {
      SumEq(MatTerm(x.at, y.at, i, j), MatTerm(f, h, i, j), 0, m);
    }
  }

  lemma TransposeIs(a: Term, attrs: Attrs, env: map<Term, Val>, n: int, m: int, f: Grid)
    requires IsMatrix(Eval(a, env), n, m, f) && SwapsAxes(attrs)
    ensures IsMatrix(Eval(Op("transpose", [a], attrs), env), m, n, Flipped(f))
  {
    hide Eval, Sum;
    Eval1("transpose", a, attrs, env);
  }

  function Added(f: Grid, h: Grid): Grid {
    (i, j) => f(i, j) + h(i, j)
  }

  lemma AddIs(a: Term, b: Term, env: map<Term, Val>, n: int, m: int, f: Grid, h: Grid)
    requires IsMatrix(Eval(a, env), n, m, f) && IsMatrix(Eval(b, env), n, m, h) && n >= 0 && m >= 0
    ensures IsMatrix(Eval(Op("add", [a, b], map[]), env), n, m, Added(f, h))
  {
    hide Eval, Sum;
    Eval2("add", a, b, map[], env);
    ElementIs(Add2, Eval(a, env).value, Eval(b, env).value, n, m, Added(f, h));
  }

  // A column against a matrix, on either side.
  function ByColumn(c: int -> real, f: Grid): Grid {
    (i, j) => c(i) * f(i, j)
  }

  function Col(c: int -> real): Grid {
    (i, j) => c(i)
  }

  lemma ColumnMulIs(a: Term, b: Term, env: map<Term, Val>, n: int, m: int, c: int -> real, f: Grid)
    requires IsMatrix(Eval(a, env), n, 1, Col(c)) && IsMatrix(Eval(b, env), n, m, f) && n >= 0 && m >= 0
    ensures IsMatrix(Eval(Op("mul", [a, b], map[]), env), n, m, ByColumn(c, f))
  {
    hide Eval, Sum;
    Eval2("mul", a, b, map[], env);
    ElementIs(Mul2, Eval(a, env).value, Eval(b, env).value, n, m, ByColumn(c, f));
  }

  lemma MulColumnIs(a: Term, b: Term, env: map<Term, Val>, n: int, m: int, c: int -> real, f: Grid)
    requires IsMatrix(Eval(a, env), n, m, f) && IsMatrix(Eval(b, env), n, 1, Col(c)) && n >= 0 && m >= 0
    ensures IsMatrix(Eval(Op("mul", [a, b], map[]), env), n, m, ByColumn(c, f))
  {
    hide Eval, Sum;
    Eval2("mul", a, b, map[], env);
    ElementIs(Mul2, Eval(a, env).value, Eval(b, env).value, n, m, ByColumn(c, f));
  }

  // A scalar, or a one-by-one matrix, against a matrix.
  ghost predicate IsWeight(v: Option<Val>, w: real) {
    v == Some(Scalar(w)) || IsMatrix(v, 1, 1, Col(i => w))
  }

  function Weighed(w: real, f: Grid): Grid {
    (i, j) => w * f(i, j)
  }

  lemma WeightMulIs(a: Term, b: Term, env: map<Term, Val>, n: int, m: int, w: real, f: Grid)
    requires IsWeight(Eval(a, env), w) && IsMatrix(Eval(b, env), n, m, f) && n >= 0 && m >= 0
    ensures IsMatrix(Eval(Op("mul", [a, b], map[]), env), n, m, Weighed(w, f))
  {
    hide Eval, Sum;
    Eval2("mul", a, b, map[], env);
    ElementIs(Mul2, Eval(a, env).value, Eval(b, env).value, n, m, Weighed(w, f));
  }

  function Over(f: Grid, c: real): Grid
    requires c != 0.0
  {
    (i, j) => f(i, j) / c
  }

  lemma DivIs(a: Term, b: Term, env: map<Term, Val>, n: int, m: int, c: real, f: Grid)
    requires IsMatrix(Eval(a, env), n, m, f) && Eval(b, env) == Some(Scalar(c)) && c != 0.0 && n >= 0 && m >= 0
    ensures IsMatrix(Eval(Op("div", [a, b], map[]), env), n, m, Over(f, c))
  {
    hide Eval, Sum;
    Eval2("div", a, b, map[], env);
    ElementIs(Div2, Eval(a, env).value, Eval(b, env).value, n, m, Over(f, c));
  }

  lemma OmDecayedIs(s: Term, d: Term, v: Term, env: map<Term, Val>, n: int, m: int, p: int, f: Grid, h: Grid, k: Grid)
    requires IsMatrix(Eval(s, env), n, m, f) && IsMatrix(Eval(d, env), n, m, h) && IsMatrix(Eval(v, env), m, p, k)
    ensures IsMatrix(Eval(Op("om_decayed", [s, d, v], map[]), env), n, p, Product(Hadamard(f, h), k, m))
  {
    hide Eval, Sum;
    Eval3("om_decayed", s, d, v, map[], env);
    var x, y, z := Eval(s, env).value, Eval(d, env).value, Eval(v, env).value;
    forall i, j | 0 <= i < n && 0 <= j < p
      ensures Product(Hadamard(x.at, y.at), z.at, m)(i, j) == Product(Hadamard(f, h), k, m)(i, j)
    {
      SumEq(MatTerm(Hadamard(x.at, y.at), z.at, i, j), MatTerm(Hadamard(f, h), k, i, j), 0, m);
    }
  }

  // ---------------------------------------------------------------------------
  //  The two halves of a step
  // ---------------------------------------------------------------------------

  // w*S + (k . eta)^T v, however its wires are spelled.
  function NextShape(w: Term, s: Term, k: Term, eta: Term, v: Term, flip: Attrs): Term {
    Plain("add", [Plain("mul", [w, s]), Plain("matmul", [Op("transpose", [Plain("mul", [k, eta])], flip), v])])
  }

  // om_decayed(score, D, v) + xi . (q S).
  function OutShape(score: Term, mask: Term, v: Term, xi: Term, q: Term, s: Term): Term {
    Plain("add", [Plain("om_decayed", [score, mask, v]), Plain("mul", [xi, Plain("matmul", [q, s])])])
  }

  // The bindings of one block: its width, the feature sizes, the exponents of
  // its wires, and where it sits.
  datatype Site = Site(start: int, width: nat, e: nat, wires: Wires)

  function Keys(x: Data, start: int): Grid {
    (u, a) => x.k(start + u, a)
  }

  function Values(x: Data, start: int): Grid {
    (u, b) => x.v(start + u, b)
  }

  function Queries(x: Data, start: int): Grid {
    (u, a) => x.q(start + u, a)
  }

  function Eta(g: real, ce: int): int -> real
    requires g != 0.0
  {
    u => Pow(g, -u + ce)
  }

  function Xi(g: real, cx: int): int -> real
    requires g != 0.0
  {
    r => Pow(g, r + cx)
  }

  function Masks(g: real): Grid
    requires g != 0.0
  {
    (r, u) => Mask(g, r, u)
  }

  ghost predicate BlockBound(x: Data, p: Site, env: map<Term, Val>, k: Term, v: Term)
    requires x.Valid()
  {
    && IsMatrix(Eval(k, env), p.width, x.d, Keys(x, p.start))
    && IsMatrix(Eval(v, env), p.width, p.e, Values(x, p.start))
  }

  // The update half denotes the next state.
  lemma NextDenotes(x: Data, p: Site, s: Grid, env: map<Term, Val>, w: Term, st: Term, k: Term, eta: Term, v: Term, flip: Attrs)
    requires x.Valid() && BlockBound(x, p, env, k, v) && SwapsAxes(flip)
    requires IsWeight(Eval(w, env), Pow(x.g, p.wires.cw)) && IsMatrix(Eval(st, env), x.d, p.e, s)
    requires IsMatrix(Eval(eta, env), p.width, 1, Col(Eta(x.g, p.wires.ce)))
    ensures IsMatrix(Eval(NextShape(w, st, k, eta, v, flip), env), x.d, p.e, NextState(x, p.start, p.width, p.wires, s))
  {
    hide Eval, Sum, Pow, IsMatrix, IsWeight, Col;
    var c := Eta(x.g, p.wires.ce);
    var kv := ByColumn(c, Keys(x, p.start));
    MulColumnIs(k, eta, env, p.width, x.d, c, Keys(x, p.start));
    TransposeIs(Plain("mul", [k, eta]), flip, env, p.width, x.d, kv);
    var kt := Op("transpose", [Plain("mul", [k, eta])], flip);
    MatMulIs(kt, v, env, x.d, p.width, p.e, Flipped(kv), Values(x, p.start));
    WeightMulIs(w, st, env, x.d, p.e, Pow(x.g, p.wires.cw), s);
    var f, h := Weighed(Pow(x.g, p.wires.cw), s), Product(Flipped(kv), Values(x, p.start), p.width);
    AddIs(Plain("mul", [w, st]), Plain("matmul", [kt, v]), env, x.d, p.e, f, h);
    forall a, b | 0 <= a < x.d && 0 <= b < p.e
      ensures Added(f, h)(a, b) == NextState(x, p.start, p.width, p.wires, s)(a, b)
    {
      NextEntry(x, p, a, b);
    }
    Retarget(Eval(NextShape(w, st, k, eta, v, flip), env), x.d, p.e, Added(f, h), NextState(x, p.start, p.width, p.wires, s));
  }

  lemma NextEntry(x: Data, p: Site, a: int, b: int)
    requires x.Valid()
    ensures Product(Flipped(ByColumn(Eta(x.g, p.wires.ce), Keys(x, p.start))), Values(x, p.start), p.width)(a, b)
         == Sum(BlockTerm(x, p.start, p.wires.ce, a, b), 0, p.width)
  {
    hide Sum, Pow;
    var kv := Flipped(ByColumn(Eta(x.g, p.wires.ce), Keys(x, p.start)));
    var f, h := MatTerm(kv, Values(x, p.start), a, b), BlockTerm(x, p.start, p.wires.ce, a, b);
    forall u | 0 <= u < p.width
      ensures f(u) == h(u)
    {
      Commute(Pow(x.g, -u + p.wires.ce), x.k(p.start + u, a), x.v(p.start + u, b));
    }
    SumEq(f, h, 0, p.width);
  }

  lemma Commute(w: real, k: real, v: real)
    ensures (w * k) * v == k * w * v
  {
  }

  // The scores, each row of queries against each row of keys.
  function Scores(x: Data, start: int): Grid {
    (r, u) => x.Dot(start + r, start + u)
  }

  // The output half denotes the block's output.
  lemma OutDenotes(x: Data, p: Site, s: Grid, env: map<Term, Val>, score: Term, mask: Term, v: Term, xi: Term, q: Term, st: Term)
    requires x.Valid() && IsMatrix(Eval(v, env), p.width, p.e, Values(x, p.start)) && IsMatrix(Eval(st, env), x.d, p.e, s)
    requires IsMatrix(Eval(score, env), p.width, p.width, Scores(x, p.start))
    requires IsMatrix(Eval(mask, env), p.width, p.width, Masks(x.g))
    requires IsMatrix(Eval(xi, env), p.width, 1, Col(Xi(x.g, p.wires.cx)))
    requires IsMatrix(Eval(q, env), p.width, x.d, Queries(x, p.start))
    ensures IsMatrix(Eval(OutShape(score, mask, v, xi, q, st), env), p.width, p.e,
                     BlockOutput(x, p.start, p.width, p.wires.cx, s))
  {
    hide Eval, Sum, Pow, IsMatrix, Col, Data.Dot;
    var c := Xi(x.g, p.wires.cx);
    OmDecayedIs(score, mask, v, env, p.width, p.width, p.e, Scores(x, p.start), Masks(x.g), Values(x, p.start));
    MatMulIs(q, st, env, p.width, x.d, p.e, Queries(x, p.start), s);
    var read := Product(Queries(x, p.start), s, x.d);
    ColumnMulIs(xi, Plain("matmul", [q, st]), env, p.width, p.e, c, read);
    var f, h := Product(Hadamard(Scores(x, p.start), Masks(x.g)), Values(x, p.start), p.width), ByColumn(c, read);
    AddIs(Plain("om_decayed", [score, mask, v]), Plain("mul", [xi, Plain("matmul", [q, st])]), env, p.width, p.e, f, h);
    forall r, b | 0 <= r < p.width && 0 <= b < p.e
      ensures Added(f, h)(r, b) == BlockOutput(x, p.start, p.width, p.wires.cx, s)(r, b)
    {
      OutEntry(x, p, s, r, b);
    }
    Retarget(Eval(OutShape(score, mask, v, xi, q, st), env), p.width, p.e, Added(f, h),
             BlockOutput(x, p.start, p.width, p.wires.cx, s));
  }

  lemma OutEntry(x: Data, p: Site, s: Grid, r: int, b: int)
    requires x.Valid()
    ensures Product(Hadamard(Scores(x, p.start), Masks(x.g)), Values(x, p.start), p.width)(r, b)
         == Sum(IntraTerm(x, p.start, r, b), 0, p.width)
    ensures Product(Queries(x, p.start), s, x.d)(r, b) == Sum(ReadTerm(x, s, p.start + r, b), 0, x.d)
  {
    hide Sum, Pow, Data.Dot, Mask;
    SumEq(MatTerm(Hadamard(Scores(x, p.start), Masks(x.g)), Values(x, p.start), r, b), IntraTerm(x, p.start, r, b), 0, p.width);
    SumEq(MatTerm(Queries(x, p.start), s, r, b), ReadTerm(x, s, p.start + r, b), 0, x.d);
  }

  // Queries divided before or after the product give the same scores.
  lemma ScoresDivideFirst(x: Data, p: Site, env: map<Term, Val>, q: Term, k: Term, flip: Attrs)
    requires x.Valid() && SwapsAxes(flip) && IsMatrix(Eval(q, env), p.width, x.d, Queries(x, p.start))
    requires IsMatrix(Eval(k, env), p.width, x.d, Keys(x, p.start))
    ensures IsMatrix(Eval(Plain("matmul", [q, Op("transpose", [k], flip)]), env), p.width, p.width, Scores(x, p.start))
  {
    hide Eval, Sum, IsMatrix;
    TransposeIs(k, flip, env, p.width, x.d, Keys(x, p.start));
    MatMulIs(q, Op("transpose", [k], flip), env, p.width, x.d, p.width, Queries(x, p.start), Flipped(Keys(x, p.start)));
    var f := Product(Queries(x, p.start), Flipped(Keys(x, p.start)), x.d);
    forall r, u | 0 <= r < p.width && 0 <= u < p.width
      ensures f(r, u) == Scores(x, p.start)(r, u)
    {
      SumEq(MatTerm(Queries(x, p.start), Flipped(Keys(x, p.start)), r, u), x.Product(p.start + r, p.start + u), 0, x.d);
    }
    Retarget(Eval(Plain("matmul", [q, Op("transpose", [k], flip)]), env), p.width, p.width, f, Scores(x, p.start));
  }

  lemma ScoresDivideLast(x: Data, p: Site, env: map<Term, Val>, q: Term, k: Term, flip: Attrs, den: Term, raw: Grid, c: real)
    requires x.Valid() && SwapsAxes(flip) && c != 0.0 && Eval(den, env) == Some(Scalar(c))
    requires IsMatrix(Eval(q, env), p.width, x.d, raw) && IsMatrix(Eval(k, env), p.width, x.d, Keys(x, p.start))
    requires forall r, a :: 0 <= r < p.width && 0 <= a < x.d ==> raw(r, a) / c == Queries(x, p.start)(r, a)
    ensures IsMatrix(Eval(Plain("div", [Plain("matmul", [q, Op("transpose", [k], flip)]), den]), env), p.width, p.width, Scores(x, p.start))
  {
    hide Eval, Sum, IsMatrix;
    TransposeIs(k, flip, env, p.width, x.d, Keys(x, p.start));
    var kt := Op("transpose", [k], flip);
    MatMulIs(q, kt, env, p.width, x.d, p.width, raw, Flipped(Keys(x, p.start)));
    var f := Product(raw, Flipped(Keys(x, p.start)), x.d);
    DivIs(Plain("matmul", [q, kt]), den, env, p.width, p.width, c, f);
    forall r, u | 0 <= r < p.width && 0 <= u < p.width
      ensures Over(f, c)(r, u) == Scores(x, p.start)(r, u)
    {
      ScoreEntry(x, p, raw, c, r, u);
    }
    Retarget(Eval(Plain("div", [Plain("matmul", [q, kt]), den]), env), p.width, p.width, Over(f, c), Scores(x, p.start));
  }

  lemma ScoreEntry(x: Data, p: Site, raw: Grid, c: real, r: int, u: int)
    requires c != 0.0 && 0 <= r < p.width
    requires forall r, a :: 0 <= r < p.width && 0 <= a < x.d ==> raw(r, a) / c == Queries(x, p.start)(r, a)
    ensures Product(raw, Flipped(Keys(x, p.start)), x.d)(r, u) / c == x.Dot(p.start + r, p.start + u)
  {
    hide Sum;
    var f, h := MatTerm(raw, Flipped(Keys(x, p.start)), r, u), x.Product(p.start + r, p.start + u);
    forall a | 0 <= a < x.d
      ensures f(a) == Scaled(c, h)(a)
    {
      assert raw(r, a) / c == Queries(x, p.start)(r, a);
      Unscale(raw(r, a), c, x.k(p.start + u, a));
    }
    SumEq(f, Scaled(c, h), 0, x.d);
    SumScale(c, h, 0, x.d);
    Cancels(c, Sum(h, 0, x.d));
  }

  lemma Unscale(q: real, c: real, k: real)
    requires c != 0.0
    ensures q * k == c * ((q / c) * k)
  {
    assert c * (q / c) == q;
    Assoc(c, q / c, k);
  }

  lemma Cancels(c: real, s: real)
    requires c != 0.0
    ensures (c * s) / c == s
  {
  }

  // ---------------------------------------------------------------------------
  //  On a carried state
  // ---------------------------------------------------------------------------

  function DirectRows(x: Data, start: int): Grid
    requires x.Valid()
  {
    (r, b) => x.Direct(start + r, b)
  }

  // An update whose exponents agree denotes the accumulation at the new
  // normalisation.
  lemma CarriedNext(x: Data, p: Site, off: int, v: Option<Val>)
    requires x.Valid() && p.start >= 0 && p.wires.ce + p.start == p.wires.cw + off
    requires IsMatrix(v, x.d, p.e, NextState(x, p.start, p.width, p.wires, CarriedState(x, off, p.start)))
    ensures IsMatrix(v, x.d, p.e, CarriedState(x, p.wires.cw + off, p.start + p.width))
  {
    hide Sum, Pow, NextState, Data.Accum;
    CarriedStateIs(x, off, p.start);
    AlignedStep(x, p.start, p.width, p.wires, CarriedState(x, off, p.start), off);
    Retarget(v, x.d, p.e, NextState(x, p.start, p.width, p.wires, CarriedState(x, off, p.start)),
             CarriedState(x, p.wires.cw + off, p.start + p.width));
  }

  // A read whose exponent is compensated denotes the direct decayed sums.
  lemma CarriedRead(x: Data, p: Site, off: int, v: Option<Val>)
    requires x.Valid() && p.start >= 0 && p.wires.cx == p.start - off
    requires IsMatrix(v, p.width, p.e, BlockOutput(x, p.start, p.width, p.wires.cx, CarriedState(x, off, p.start)))
    ensures IsMatrix(v, p.width, p.e, DirectRows(x, p.start))
  {
    hide Sum, Pow, BlockOutput, Data.Direct, CarriedState, IsMatrix;
    var s := CarriedState(x, off, p.start);
    CarriedStateIs(x, off, p.start);
    forall r, b | 0 <= r < p.width && 0 <= b < p.e
      ensures BlockOutput(x, p.start, p.width, p.wires.cx, s)(r, b) == DirectRows(x, p.start)(r, b)
    {
      OutputIsDirect(x, s, off, p.start, p.width, r, b);
    }
    Retarget(v, p.width, p.e, BlockOutput(x, p.start, p.width, p.wires.cx, s), DirectRows(x, p.start));
  }
}
