// The shared-state retention step and the whole chunked fold, spelled as
// morphisms, and the terms they expand to.

module RetnetProgram {
  import opened Wrappers
  import opened Terms
  import opened Morphisms
  import opened Constructors
  import opened Census
  import opened Bridge
  import opened Unroll
  import opened Assembly
  import opened Bisection

  // ---------------------------------------------------------------------------
  //  Running lists of parts
  // ---------------------------------------------------------------------------

  // The bundles between the parts of a composition.
  ghost predicate Trace(ps: seq<Morph>, ws: seq<seq<Term>>) {
    if ps == [] then |ws| == 1
    else
      && |ws| == |ps| + 1
      && WF(ps[0]) && In(ps[0]) <= |ws[0]| && Apply(ps[0], ws[0]) == ws[1]
      && Trace(ps[1..], ws[1..])
  }

  lemma {:induction false} TraceApply(ps: seq<Morph>, ws: seq<seq<Term>>)
    requires Trace(ps, ws)
    ensures |ws| == |ps| + 1 && AllWF(ps) && SeqIn(ps) <= |ws[0]| && |ws[0]| + SeqDelta(ps) == |ws[|ps|]|
    ensures ApplySeq(ps, ws[0]) == ws[|ps|]
  {
    hide Apply, WF, In, Out;
    if ps == [] {
    } else {
      TraceApply(ps[1..], ws[1..]);
      ApplyLength(ps[0], ws[0]);
    }
  }

  lemma ApplyLength(p: Morph, w: seq<Term>)
    requires WF(p) && In(p) <= |w|
    ensures |Apply(p, w)| == |w| - In(p) + Out(p)
  {
  }

  // A part that consumes its whole bundle fixes the demand of the composition.
  lemma {:induction false} TraceDemand(ps: seq<Morph>, ws: seq<seq<Term>>, i: nat)
    requires Trace(ps, ws) && i < |ps| && In(ps[i]) == |ws[i]|
    ensures SeqIn(ps) == |ws[0]|
  {
    hide Apply, WF, In, Out;
    TraceApply(ps, ws);
    ApplyLength(ps[0], ws[0]);
    if i == 0 {
    } else {
      TraceDemand(ps[1..], ws[1..], i - 1);
    }
  }

  lemma TraceRuns(ps: seq<Morph>, ws: seq<seq<Term>>, i: nat)
    requires Trace(ps, ws) && i < |ps| && In(ps[i]) == |ws[i]|
    ensures Runs(SeqOf(ps), ws[0], ws[|ps|])
  {
    hide Apply, WF, In, Out, SeqOf, Trace;
    TraceApply(ps, ws);
    TraceDemand(ps, ws, i);
    RunsSeqOf(ps, ws[0], ws[|ps|]);
  }

  // One part at the front of a traced list, possibly leaving a tail alone.
  lemma TraceCons(p: Morph, a: seq<Term>, b: seq<Term>, t: seq<Term>, ps: seq<Morph>, ws: seq<seq<Term>>)
    requires Runs(p, a, b) && Trace(ps, [b + t] + ws)
    ensures Trace([p] + ps, [a + t] + ([b + t] + ws)) && In(p) <= |a + t|
  {
    Frame(p, a, t);
    var qs, vs := [p] + ps, [a + t] + ([b + t] + ws);
    assert qs[1..] == ps && vs[1..] == [b + t] + ws;
  }

  function Join(ws: seq<seq<Term>>): seq<Term> {
    if ws == [] then [] else ws[0] + Join(ws[1..])
  }

  // Parts side by side, each on its own wires.
  lemma {:induction false} SideBySide(ps: seq<Morph>, a: seq<seq<Term>>, b: seq<seq<Term>>)
    requires |ps| == |a| == |b| && forall i :: 0 <= i < |ps| ==> Runs(ps[i], a[i], b[i])
    ensures AllWF(ps) && ParIn(ps) == |Join(a)| && ApplyPar(ps, Join(a)) == Join(b)
  {
    hide Apply, WF, In, Out, ApplyPar;
    if ps == [] {
      NoPar();
    } else {
      SideBySide(ps[1..], a[1..], b[1..]);
      assert Runs(ps[0], a[0], b[0]);
      ParCons(ps[0], ps[1..], a[0], Join(a[1..]));
      assert ps == [ps[0]] + ps[1..];
    }
  }

  lemma NoPar()
    ensures ApplyPar([], []) == []
  {
  }

  lemma ParRuns(ps: seq<Morph>, a: seq<seq<Term>>, b: seq<seq<Term>>, w: seq<Term>, r: seq<Term>)
    requires |ps| == |a| == |b| && forall i :: 0 <= i < |ps| ==> Runs(ps[i], a[i], b[i])
    requires w == Join(a) && r == Join(b)
    ensures Runs(ParOf(ps), w, r)
  {
    hide Runs, ParOf;
    SideBySide(ps, a, b);
    RunsParOf(ps, w, r);
  }

  lemma IdRuns(w: seq<Term>)
    ensures Runs(Id(|w|), w, w)
  {
  }

  lemma LeafRuns(t: Term)
    ensures Runs(Leaf(t), [], [t])
  {
  }

  lemma ArrRuns(op: string, attrs: Attrs, w: seq<Term>)
    ensures Runs(Arr(op, |w|, attrs), w, [Op(op, w, attrs)])
  {
    assert w[..|w|] == w && w[|w|..] == [];
  }

  lemma DupRuns(t: Term)
    ensures Runs(Dup(2), [t], [t, t])
  {
    assert Apply(Dup(2), [t]) == [t, t];
  }

  lemma Join1(a: seq<Term>)
    ensures Join([a]) == a
  {
    assert [a][1..] == [];
    NilConcat(a);
  }

  lemma Join2(a: seq<Term>, b: seq<Term>)
    ensures Join([a, b]) == a + b
  {
    assert [a, b][1..] == [b];
    Join1(b);
  }

  lemma Join3(a: seq<Term>, b: seq<Term>, c: seq<Term>)
    ensures Join([a, b, c]) == a + b + c
  {
    assert [a, b, c][1..] == [b, c];
    Join2(b, c);
    ConcatAssoc(a, b, c);
  }

  // Two parts side by side.
  lemma Par2(p: Morph, q: Morph, a: seq<Term>, b: seq<Term>, c: seq<Term>, d: seq<Term>)
    requires Runs(p, a, c) && Runs(q, b, d)
    ensures Runs(ParOf([p, q]), a + b, c + d)
  {
    hide Runs, ParOf;
    Join2(a, b);
    Join2(c, d);
    ParRuns([p, q], [a, b], [c, d], a + b, c + d);
  }

  lemma Par3(p: Morph, q: Morph, r: Morph, a: seq<Term>, b: seq<Term>, c: seq<Term>,
             x: seq<Term>, y: seq<Term>, z: seq<Term>)
    requires Runs(p, a, x) && Runs(q, b, y) && Runs(r, c, z)
    ensures Runs(ParOf([p, q, r]), a + b + c, x + y + z)
  {
    hide Runs, ParOf;
    Join3(a, b, c);
    Join3(x, y, z);
    ParRuns([p, q, r], [a, b, c], [x, y, z], a + b + c, x + y + z);
  }

  // Compositions of two and three whole-bundle parts come from RunsPair and
  // RunsTriple; these are for four and five.
  lemma RunsFour(p: Morph, q: Morph, r: Morph, s: Morph, a: seq<Term>, b: seq<Term>, c: seq<Term>, d: seq<Term>, e: seq<Term>)
    requires Runs(p, a, b) && Runs(q, b, c) && Runs(r, c, d) && Runs(s, d, e)
    ensures RunsAll([p, q, r, s], a, e) && SeqIn([p, q, r, s]) == |a| && Runs(SeqOf([p, q, r, s]), a, e)
  {
    hide *;
    NoneRuns(e);
    RunsCons(s, [], d, e, e);
    NilConcat([s]);
    RunsCons(r, [s], c, d, e);
    assert [r] + [s] == [r, s];
    RunsCons(q, [r, s], b, c, e);
    assert [q] + [r, s] == [q, r, s];
    RunsCons(p, [q, r, s], a, b, e);
    assert [p] + [q, r, s] == [p, q, r, s];
    RunsSeqOf([p, q, r, s], a, e);
  }

  lemma NoneRuns(w: seq<Term>)
    ensures RunsAll([], w, w)
  {
  }

  lemma RunsFive(p: Morph, q: Morph, r: Morph, s: Morph, u: Morph,
                 a: seq<Term>, b: seq<Term>, c: seq<Term>, d: seq<Term>, e: seq<Term>, f: seq<Term>)
    requires Runs(p, a, b) && Runs(q, b, c) && Runs(r, c, d) && Runs(s, d, e) && Runs(u, e, f)
    ensures Runs(SeqOf([p, q, r, s, u]), a, f)
  {
    hide *;
    RunsFour(q, r, s, u, b, c, d, e, f);
    RunsCons(p, [q, r, s, u], a, b, f);
    assert [p] + [q, r, s, u] == [p, q, r, s, u];
    RunsSeqOf([p, q, r, s, u], a, f);
  }

  // ---------------------------------------------------------------------------
  //  The step
  // ---------------------------------------------------------------------------

  function Swap(): Attrs {
    map["dim0" := Num(-2), "dim1" := Num(-1)]
  }

  function EtaAttrs(c: int): Attrs {
    map["t" := Num(c), "sign" := Num(-1)]
  }

  function XiAttrs(c: int): Attrs {
    map["t" := Num(c), "offset" := Num(c)]
  }

  function MaskAttrs(c: int): Attrs {
    map["t" := Num(c)]
  }

  function LastDim(): Attrs {
    map["dim" := Num(-1)]
  }

  function Column(g: Term, attrs: Attrs): Term {
    Op("unsqueeze", [Op("decay_vec", [g], attrs)], LastDim())
  }

  function ColumnGen(g: Term, attrs: Attrs): Morph {
    SeqOf([Leaf(g), Arr("decay_vec", 1, attrs), Arr("unsqueeze", 1, LastDim())])
  }

  function MaskGen(g: Term, c: int): Morph {
    SeqOf([Leaf(g), Arr("decay", 1, MaskAttrs(c))])
  }

  // The update half: [S, k, v] to [S'].
  function KeyPart(g: Term, c: int): Morph {
    SeqOf([ParOf([Id(1), ColumnGen(g, EtaAttrs(c))]), Arr("mul", 2, map[]), Arr("transpose", 1, Swap())])
  }

  function Contribution(g: Term, c: int): Morph {
    SeqOf([ParOf([KeyPart(g, c), Id(1)]), Arr("matmul", 2, map[])])
  }

  function Decayed(a: Term): Morph {
    SeqOf([ParOf([Leaf(a), Id(1)]), Arr("mul", 2, map[])])
  }

  function Update(g: Term, a: Term, c: int): Morph {
    SeqOf([Perm([1, 2, 0]), ParOf([Contribution(g, c), Decayed(a)]), Perm([1, 0]), Arr("add", 2, map[])])
  }

  // The output half: [S, q, k, v] to [o].
  function Query(den: Term): Morph {
    SeqOf([ParOf([Id(1), Leaf(den)]), Arr("div", 2, map[])])
  }

  function Intra(g: Term, c: int): Morph {
    SeqOf([ParOf([Id(1), Arr("transpose", 1, Swap())]), Arr("matmul", 2, map[]),
           ParOf([Id(1), MaskGen(g, c), Id(1)]), Arr("om_decayed", 3, map[])])
  }

  function Cross(g: Term, c: int): Morph {
    SeqOf([Arr("matmul", 2, map[]), ParOf([ColumnGen(g, XiAttrs(c)), Id(1)]), Arr("mul", 2, map[])])
  }

  function Output(g: Term, den: Term, c: int): Morph {
    SeqOf([ParOf([Id(1), Query(den), Id(2)]), ParOf([Id(1), Dup(2), Id(2)]), Perm([1, 3, 4, 2, 0]),
           ParOf([Intra(g, c), Cross(g, c)]), Arr("add", 2, map[])])
  }

  function RetnetStep(g: Term, a: Term, den: Term, c: int): Morph {
    SeqOf([ParOf([Dup(2), Id(1), Dup(2), Dup(2)]), Perm([0, 3, 5, 1, 2, 4, 6]), ParOf([Update(g, a, c), Output(g, den, c)])])
  }

  // ---------------------------------------------------------------------------
  //  The terms it builds
  // ---------------------------------------------------------------------------

  function Flip(t: Term): Term {
    Op("transpose", [t], Swap())
  }

  function NextTerm(g: Term, a: Term, c: int, s: Term, k: Term, v: Term): Term {
    Plain("add", [Plain("mul", [a, s]), Plain("matmul", [Flip(Plain("mul", [k, Column(g, EtaAttrs(c))])), v])])
  }

  function OutTerm(g: Term, den: Term, c: int, s: Term, q: Term, k: Term, v: Term): Term {
    var scaled := Plain("div", [q, den]);
    Plain("add", [
      Plain("om_decayed", [Plain("matmul", [scaled, Flip(k)]), Op("decay", [g], MaskAttrs(c)), v]),
      Plain("mul", [Column(g, XiAttrs(c)), Plain("matmul", [scaled, s])])])
  }

  lemma ColumnRuns(g: Term, attrs: Attrs)
    ensures Runs(ColumnGen(g, attrs), [], [Column(g, attrs)])
  {
    hide Runs, SeqOf;
    LeafRuns(g);
    ArrRuns("decay_vec", attrs, [g]);
    ArrRuns("unsqueeze", LastDim(), [Op("decay_vec", [g], attrs)]);
    RunsTriple(Leaf(g), Arr("decay_vec", 1, attrs), Arr("unsqueeze", 1, LastDim()),
               [], [g], [Op("decay_vec", [g], attrs)], [Column(g, attrs)]);
  }

  lemma KeyRuns(g: Term, c: int, k: Term)
    ensures Runs(KeyPart(g, c), [k], [Flip(Plain("mul", [k, Column(g, EtaAttrs(c))]))])
  {
    hide Runs, SeqOf, ParOf, ColumnGen, Column;
    var eta := Column(g, EtaAttrs(c));
    IdRuns([k]);
    ColumnRuns(g, EtaAttrs(c));
    Par2(Id(1), ColumnGen(g, EtaAttrs(c)), [k], [], [k], [eta]);
    assert [k] + [] == [k] && [k] + [eta] == [k, eta];
    ArrRuns("mul", map[], [k, eta]);
    ArrRuns("transpose", Swap(), [Plain("mul", [k, eta])]);
    RunsTriple(ParOf([Id(1), ColumnGen(g, EtaAttrs(c))]), Arr("mul", 2, map[]), Arr("transpose", 1, Swap()),
               [k], [k, eta], [Plain("mul", [k, eta])], [Flip(Plain("mul", [k, eta]))]);
  }

  lemma ContributionRuns(g: Term, c: int, k: Term, v: Term)
    ensures Runs(Contribution(g, c), [k, v], [Plain("matmul", [Flip(Plain("mul", [k, Column(g, EtaAttrs(c))])), v])])
  {
    hide Runs, SeqOf, ParOf, KeyPart, Column;
    var kt := Flip(Plain("mul", [k, Column(g, EtaAttrs(c))]));
    KeyRuns(g, c, k);
    IdRuns([v]);
    Par2(KeyPart(g, c), Id(1), [k], [v], [kt], [v]);
    assert [k] + [v] == [k, v] && [kt] + [v] == [kt, v];
    ArrRuns("matmul", map[], [kt, v]);
    RunsPair(ParOf([KeyPart(g, c), Id(1)]), Arr("matmul", 2, map[]), [k, v], [kt, v], [Plain("matmul", [kt, v])]);
  }

  lemma DecayedRuns(a: Term, s: Term)
    ensures Runs(Decayed(a), [s], [Plain("mul", [a, s])])
  {
    hide Runs, SeqOf, ParOf;
    LeafRuns(a);
    IdRuns([s]);
    Par2(Leaf(a), Id(1), [], [s], [a], [s]);
    assert [] + [s] == [s] && [a] + [s] == [a, s];
    ArrRuns("mul", map[], [a, s]);
    RunsPair(ParOf([Leaf(a), Id(1)]), Arr("mul", 2, map[]), [s], [a, s], [Plain("mul", [a, s])]);
  }

  lemma PermRuns(order: seq<int>, w: seq<Term>, r: seq<Term>)
    requires IsPerm(order) && |w| == |r| == |order| && forall i :: 0 <= i < |order| ==> r[i] == w[order[i]]
    ensures Runs(Perm(order), w, r)
  {
    assert Reindex(order, w) == r && w[|order|..] == [];
    NilConcat(r);
  }

  lemma UpdateRuns(g: Term, a: Term, c: int, s: Term, k: Term, v: Term)
    ensures Runs(Update(g, a, c), [s, k, v], [NextTerm(g, a, c, s, k, v)])
  {
    hide Runs, SeqOf, ParOf, Contribution, Decayed, Column;
    var b, m := Plain("matmul", [Flip(Plain("mul", [k, Column(g, EtaAttrs(c))])), v]), Plain("mul", [a, s]);
    PermRuns([1, 2, 0], [s, k, v], [k, v, s]);
    ContributionRuns(g, c, k, v);
    DecayedRuns(a, s);
    Par2(Contribution(g, c), Decayed(a), [k, v], [s], [b], [m]);
    assert [k, v] + [s] == [k, v, s] && [b] + [m] == [b, m];
    PermRuns([1, 0], [b, m], [m, b]);
    ArrRuns("add", map[], [m, b]);
    RunsFour(Perm([1, 2, 0]), ParOf([Contribution(g, c), Decayed(a)]), Perm([1, 0]), Arr("add", 2, map[]),
             [s, k, v], [k, v, s], [b, m], [m, b], [Plain("add", [m, b])]);
  }

  lemma MaskRuns(g: Term, c: int)
    ensures Runs(MaskGen(g, c), [], [Op("decay", [g], MaskAttrs(c))])
  {
    hide Runs, SeqOf;
    LeafRuns(g);
    ArrRuns("decay", MaskAttrs(c), [g]);
    RunsPair(Leaf(g), Arr("decay", 1, MaskAttrs(c)), [], [g], [Op("decay", [g], MaskAttrs(c))]);
  }

  lemma QueryRuns(den: Term, q: Term)
    ensures Runs(Query(den), [q], [Plain("div", [q, den])])
  {
    hide Runs, SeqOf, ParOf;
    LeafRuns(den);
    IdRuns([q]);
    Par2(Id(1), Leaf(den), [q], [], [q], [den]);
    assert [q] + [] == [q] && [q] + [den] == [q, den];
    ArrRuns("div", map[], [q, den]);
    RunsPair(ParOf([Id(1), Leaf(den)]), Arr("div", 2, map[]), [q], [q, den], [Plain("div", [q, den])]);
  }

  lemma IntraRuns(g: Term, c: int, q: Term, k: Term, v: Term)
    ensures Runs(Intra(g, c), [q, k, v],
      [Plain("om_decayed", [Plain("matmul", [q, Flip(k)]), Op("decay", [g], MaskAttrs(c)), v])])
  {
    hide Runs, SeqOf, ParOf, MaskGen, Trace;
    var d := Op("decay", [g], MaskAttrs(c));
    var score := Plain("matmul", [q, Flip(k)]);
    var o := Plain("om_decayed", [score, d, v]);
    IdRuns([q]);
    IdRuns([score]);
    IdRuns([v]);
    MaskRuns(g, c);
    ArrRuns("transpose", Swap(), [k]);
    var p1, p2 := ParOf([Id(1), Arr("transpose", 1, Swap())]), Arr("matmul", 2, map[]);
    var p3, p4 := ParOf([Id(1), MaskGen(g, c), Id(1)]), Arr("om_decayed", 3, map[]);
    Par2(Id(1), Arr("transpose", 1, Swap()), [q], [k], [q], [Flip(k)]);
    assert [q] + [k] == [q, k] && [q] + [Flip(k)] == [q, Flip(k)];
    ArrRuns("matmul", map[], [q, Flip(k)]);
    Par3(Id(1), MaskGen(g, c), Id(1), [score], [], [v], [score], [d], [v]);
    assert [score] + [] + [v] == [score, v] && [score] + [d] + [v] == [score, d, v];
    ArrRuns("om_decayed", map[], [score, d, v]);
    assert [q, k] + [v] == [q, k, v] && [score] + [v] == [score, v];
    FourTrace(p1, p2, p3, p4, [q, k], [q, Flip(k)], [score], [v], [score, d, v], [o]);
  }

  // A two-part front that leaves a tail, then two parts that take everything.
  lemma FourTrace(p1: Morph, p2: Morph, p3: Morph, p4: Morph,
                  a: seq<Term>, b: seq<Term>, c: seq<Term>, t: seq<Term>, d: seq<Term>, e: seq<Term>)
    requires Runs(p1, a, b) && Runs(p2, b, c) && Runs(p3, c + t, d) && Runs(p4, d, e)
    ensures Runs(SeqOf([p1, p2, p3, p4]), a + t, e)
  {
    hide *;
    TwoTrace(p3, p4, c + t, d, e);
    TraceCons(p2, b, c, t, [p3, p4], [d, e]);
    assert [b + t] + ([c + t] + [d, e]) == [b + t, c + t, d, e] && [p2] + [p3, p4] == [p2, p3, p4];
    assert [c + t] + [d, e] == [c + t, d, e];
    TraceCons(p1, a, b, t, [p2, p3, p4], [c + t, d, e]);
    assert [a + t] + ([b + t] + [c + t, d, e]) == [a + t, b + t, c + t, d, e];
    assert [b + t] + [c + t, d, e] == [b + t, c + t, d, e] && [p1] + [p2, p3, p4] == [p1, p2, p3, p4];
    FullPart(p3, c + t, d);
    TraceRuns([p1, p2, p3, p4], [a + t, b + t, c + t, d, e], 2);
  }

  lemma TwoTrace(p: Morph, q: Morph, c: seq<Term>, d: seq<Term>, e: seq<Term>)
    requires Runs(p, c, d) && Runs(q, d, e)
    ensures Trace([p, q], [c] + [d, e])
  {
    hide *;
    LastTrace(e);
    NilConcat(c);
    NilConcat(d);
    NilConcat(e);
    NilConcat([e]);
    NilConcat([q]);
    TraceCons(q, d, e, [], [], []);
    assert [d] + [e] == [d, e];
    TraceCons(p, c, d, [], [q], [e]);
    assert [p] + [q] == [p, q];
  }

  lemma LastTrace(e: seq<Term>)
    ensures Trace([], [e])
  {
  }

  lemma FullPart(p: Morph, a: seq<Term>, b: seq<Term>)
    requires Runs(p, a, b)
    ensures In(p) == |a|
  {
  }

  lemma CrossRuns(g: Term, c: int, q: Term, s: Term)
    ensures Runs(Cross(g, c), [q, s], [Plain("mul", [Column(g, XiAttrs(c)), Plain("matmul", [q, s])])])
  {
    hide Runs, SeqOf, ParOf, ColumnGen, Column;
    var xi, m := Column(g, XiAttrs(c)), Plain("matmul", [q, s]);
    ArrRuns("matmul", map[], [q, s]);
    ColumnRuns(g, XiAttrs(c));
    IdRuns([m]);
    Par2(ColumnGen(g, XiAttrs(c)), Id(1), [], [m], [xi], [m]);
    assert [] + [m] == [m] && [xi] + [m] == [xi, m];
    ArrRuns("mul", map[], [xi, m]);
    RunsTriple(Arr("matmul", 2, map[]), ParOf([ColumnGen(g, XiAttrs(c)), Id(1)]), Arr("mul", 2, map[]),
               [q, s], [m], [xi, m], [Plain("mul", [xi, m])]);
  }

  lemma OutputRuns(g: Term, den: Term, c: int, s: Term, q: Term, k: Term, v: Term)
    ensures Runs(Output(g, den, c), [s, q, k, v], [OutTerm(g, den, c, s, q, k, v)])
  {
    hide Runs, SeqOf, ParOf, Query, Intra, Cross, Column;
    var x := Plain("div", [q, den]);
    var intra := Plain("om_decayed", [Plain("matmul", [x, Flip(k)]), Op("decay", [g], MaskAttrs(c)), v]);
    var cross := Plain("mul", [Column(g, XiAttrs(c)), Plain("matmul", [x, s])]);
    IdRuns([s]);
    IdRuns([k, v]);
    QueryRuns(den, q);
    Par3(Id(1), Query(den), Id(2), [s], [q], [k, v], [s], [x], [k, v]);
    DupRuns(x);
    Par3(Id(1), Dup(2), Id(2), [s], [x], [k, v], [s], [x, x], [k, v]);
    assert [s] + [q] + [k, v] == [s, q, k, v] && [s] + [x] + [k, v] == [s, x, k, v];
    assert [s] + [x, x] + [k, v] == [s, x, x, k, v];
    PermRuns([1, 3, 4, 2, 0], [s, x, x, k, v], [x, k, v, x, s]);
    IntraRuns(g, c, x, k, v);
    CrossRuns(g, c, x, s);
    Par2(Intra(g, c), Cross(g, c), [x, k, v], [x, s], [intra], [cross]);
    assert [x, k, v] + [x, s] == [x, k, v, x, s] && [intra] + [cross] == [intra, cross];
    ArrRuns("add", map[], [intra, cross]);
    RunsFive(ParOf([Id(1), Query(den), Id(2)]), ParOf([Id(1), Dup(2), Id(2)]), Perm([1, 3, 4, 2, 0]),
             ParOf([Intra(g, c), Cross(g, c)]), Arr("add", 2, map[]),
             [s, q, k, v], [s, x, k, v], [s, x, x, k, v], [x, k, v, x, s], [intra, cross], [Plain("add", [intra, cross])]);
  }

  // The state, keys and values are read by both halves.
  lemma FeedRuns(s: Term, q: Term, k: Term, v: Term)
    ensures Runs(ParOf([Dup(2), Id(1), Dup(2), Dup(2)]), [s, q, k, v], [s, s, q, k, k, v, v])
  {
    hide Runs, ParOf, Join;
    IdRuns([q]);
    DupRuns(s);
    DupRuns(k);
    DupRuns(v);
    Join4([s], [q], [k], [v]);
    Join4([s, s], [q], [k, k], [v, v]);
    ParRuns([Dup(2), Id(1), Dup(2), Dup(2)], [[s], [q], [k], [v]], [[s, s], [q], [k, k], [v, v]],
            [s, q, k, v], [s, s, q, k, k, v, v]);
  }

  // The step turns a state and one block's projections into the next state and
  // the block's output.
  lemma RetnetStepRuns(g: Term, a: Term, den: Term, c: int, s: Term, q: Term, k: Term, v: Term)
    ensures Runs(RetnetStep(g, a, den, c), [s, q, k, v], [NextTerm(g, a, c, s, k, v), OutTerm(g, den, c, s, q, k, v)])
  {
    hide Runs, SeqOf, ParOf, Update, Output, NextTerm, OutTerm;
    var next, out := NextTerm(g, a, c, s, k, v), OutTerm(g, den, c, s, q, k, v);
    FeedRuns(s, q, k, v);
    PermRuns([0, 3, 5, 1, 2, 4, 6], [s, s, q, k, k, v, v], [s, k, v, s, q, k, v]);
    UpdateRuns(g, a, c, s, k, v);
    OutputRuns(g, den, c, s, q, k, v);
    Par2(Update(g, a, c), Output(g, den, c), [s, k, v], [s, q, k, v], [next], [out]);
    assert [s, k, v] + [s, q, k, v] == [s, k, v, s, q, k, v] && [next] + [out] == [next, out];
    RunsTriple(ParOf([Dup(2), Id(1), Dup(2), Dup(2)]), Perm([0, 3, 5, 1, 2, 4, 6]), ParOf([Update(g, a, c), Output(g, den, c)]),
               [s, q, k, v], [s, s, q, k, k, v, v], [s, k, v, s, q, k, v], [next, out]);
  }

  // ---------------------------------------------------------------------------
  //  What the step is made of
  // ---------------------------------------------------------------------------

  // The counters of arrows, loops and generators.
  predicate IsMade(c: Stat) {
    c.Arrs? || c.Loops? || IsMint(c)
  }

  function OneArrow(c: Stat): int {
    if c.Arrs? then 1 else 0
  }

  function OneLeaf(t: Term, c: Stat): int {
    if c.LeafNodes? || c == LeafOf(t) then 1 else 0
  }

  lemma NodeCounts(c: Stat)
    requires IsMade(c)
    ensures IsGate(c)
    ensures forall op: string, n: int, attrs: Attrs :: Tally(Arr(op, n, attrs), c) == OneArrow(c)
    ensures forall t :: Tally(Leaf(t), c) == OneLeaf(t, c)
    ensures (forall n :: Tally(Id(n), c) == 0) && (forall n :: Tally(Dup(n), c) == 0) && Tally(Drop, c) == 0
    ensures forall order :: Tally(Perm(order), c) == 0
  {
  }

  lemma Seq2Count(p: Morph, q: Morph, c: Stat)
    requires IsMade(c)
    ensures Tally(SeqOf([p, q]), c) == Tally(ParOf([p, q]), c) == Tally(p, c) + Tally(q, c)
  {
    hide Tally, TallyAll, SeqOf, ParOf;
    NodeCounts(c);
    TallyTwo(p, q, c);
    SeqOfGates([p, q], c);
    ParOfGates([p, q], c);
  }

  lemma Seq3Count(p: Morph, q: Morph, r: Morph, c: Stat)
    requires IsMade(c)
    ensures Tally(SeqOf([p, q, r]), c) == Tally(ParOf([p, q, r]), c) == Tally(p, c) + Tally(q, c) + Tally(r, c)
  {
    hide Tally, TallyAll, SeqOf, ParOf;
    NodeCounts(c);
    TallyThree(p, q, r, c);
    SeqOfGates([p, q, r], c);
    ParOfGates([p, q, r], c);
  }

  lemma Seq4Count(p: Morph, q: Morph, r: Morph, s: Morph, c: Stat)
    requires IsMade(c)
    ensures Tally(SeqOf([p, q, r, s]), c) == Tally(ParOf([p, q, r, s]), c)
         == Tally(p, c) + Tally(q, c) + Tally(r, c) + Tally(s, c)
  {
    hide Tally, TallyAll, SeqOf, ParOf;
    NodeCounts(c);
    TallyFour(p, q, r, s, c);
    SeqOfGates([p, q, r, s], c);
    ParOfGates([p, q, r, s], c);
  }

  lemma ColumnCount(g: Term, attrs: Attrs, c: Stat)
    requires IsMade(c)
    ensures Tally(ColumnGen(g, attrs), c) == OneLeaf(g, c) + 2 * OneArrow(c)
  {
    hide Tally, SeqOf;
    NodeCounts(c);
    Seq3Count(Leaf(g), Arr("decay_vec", 1, attrs), Arr("unsqueeze", 1, LastDim()), c);
  }

  lemma UpdateCount(g: Term, a: Term, n: int, c: Stat)
    requires IsMade(c)
    ensures Tally(Update(g, a, n), c) == OneLeaf(g, c) + OneLeaf(a, c) + 7 * OneArrow(c)
  {
    hide Tally, SeqOf, ParOf, ColumnGen;
    NodeCounts(c);
    var column, mul := ColumnGen(g, EtaAttrs(n)), Arr("mul", 2, map[]);
    ColumnCount(g, EtaAttrs(n), c);
    Seq2Count(Id(1), column, c);
    Seq3Count(ParOf([Id(1), column]), mul, Arr("transpose", 1, Swap()), c);
    Seq2Count(KeyPart(g, n), Id(1), c);
    Seq2Count(ParOf([KeyPart(g, n), Id(1)]), Arr("matmul", 2, map[]), c);
    Seq2Count(Leaf(a), Id(1), c);
    Seq2Count(ParOf([Leaf(a), Id(1)]), mul, c);
    Seq2Count(Contribution(g, n), Decayed(a), c);
    Seq4Count(Perm([1, 2, 0]), ParOf([Contribution(g, n), Decayed(a)]), Perm([1, 0]), Arr("add", 2, map[]), c);
  }

  lemma IntraCount(g: Term, n: int, c: Stat)
    requires IsMade(c)
    ensures Tally(Intra(g, n), c) == OneLeaf(g, c) + 4 * OneArrow(c)
  {
    hide Tally, SeqOf, ParOf;
    NodeCounts(c);
    var flip := Arr("transpose", 1, Swap());
    Seq2Count(Leaf(g), Arr("decay", 1, MaskAttrs(n)), c);
    Seq2Count(Id(1), flip, c);
    Seq3Count(Id(1), MaskGen(g, n), Id(1), c);
    Seq4Count(ParOf([Id(1), flip]), Arr("matmul", 2, map[]), ParOf([Id(1), MaskGen(g, n), Id(1)]),
              Arr("om_decayed", 3, map[]), c);
  }

  lemma CrossCount(g: Term, n: int, c: Stat)
    requires IsMade(c)
    ensures Tally(Cross(g, n), c) == OneLeaf(g, c) + 4 * OneArrow(c)
  {
    hide Tally, SeqOf, ParOf, ColumnGen;
    NodeCounts(c);
    var column := ColumnGen(g, XiAttrs(n));
    ColumnCount(g, XiAttrs(n), c);
    Seq2Count(column, Id(1), c);
    Seq3Count(Arr("matmul", 2, map[]), ParOf([column, Id(1)]), Arr("mul", 2, map[]), c);
  }

  lemma OutputCount(g: Term, den: Term, n: int, c: Stat)
    requires IsMade(c)
    ensures Tally(Output(g, den, n), c) == 2 * OneLeaf(g, c) + OneLeaf(den, c) + 10 * OneArrow(c)
  {
    hide Tally, TallyAll, SeqOf, ParOf, Intra, Cross;
    NodeCounts(c);
    Seq2Count(Id(1), Leaf(den), c);
    Seq2Count(ParOf([Id(1), Leaf(den)]), Arr("div", 2, map[]), c);
    Seq3Count(Id(1), Query(den), Id(2), c);
    Seq3Count(Id(1), Dup(2), Id(2), c);
    IntraCount(g, n, c);
    CrossCount(g, n, c);
    Seq2Count(Intra(g, n), Cross(g, n), c);
    var p, q, halves := ParOf([Id(1), Query(den), Id(2)]), ParOf([Id(1), Dup(2), Id(2)]), ParOf([Intra(g, n), Cross(g, n)]);
    TallyFive(p, q, Perm([1, 3, 4, 2, 0]), halves, Arr("add", 2, map[]), c);
    SeqOfGates([p, q, Perm([1, 3, 4, 2, 0]), halves, Arr("add", 2, map[])], c);
  }

  // The hand-spelled step: seventeen arrows; the base three times, the block
  // decay and the denominator once as generators; no loop.
  lemma RetnetStepCensus(g: Term, a: Term, den: Term, n: int, c: Stat)
    requires IsMade(c)
    ensures Tally(RetnetStep(g, a, den, n), c)
         == 17 * OneArrow(c) + 3 * OneLeaf(g, c) + OneLeaf(a, c) + OneLeaf(den, c)
  {
    hide Tally, SeqOf, ParOf, Update, Output;
    NodeCounts(c);
    UpdateCount(g, a, n, c);
    OutputCount(g, den, n, c);
    Seq4Count(Dup(2), Id(1), Dup(2), Dup(2), c);
    Seq2Count(Update(g, a, n), Output(g, den, n), c);
    Seq3Count(ParOf([Dup(2), Id(1), Dup(2), Dup(2)]), Perm([0, 3, 5, 1, 2, 4, 6]),
              ParOf([Update(g, a, n), Output(g, den, n)]), c);
  }

  lemma Join4(a: seq<Term>, b: seq<Term>, c: seq<Term>, d: seq<Term>)
    ensures Join([a, b, c, d]) == a + b + c + d
  {
    assert [a, b, c, d][1..] == [b, c, d];
    Join3(b, c, d);
    ConcatAssoc(a, b, c);
    ConcatAssoc(a, b + c, d);
  }

  // ---------------------------------------------------------------------------
  //  The whole fold
  // ---------------------------------------------------------------------------

  // The constants of the step: the base, the per-block decay, the score
  // denominator and the block size.
  datatype Scheme = Scheme(g: Term, a: Term, den: Term, c: int)
  {
    function Next(s: Term, row: seq<Term>): Term
      requires |row| == 3
    {
      NextTerm(g, a, c, s, row[1], row[2])
    }

    function Out(s: Term, row: seq<Term>): Term
      requires |row| == 3
    {
      OutTerm(g, den, c, s, row[0], row[1], row[2])
    }

    function Step(): Morph {
      RetnetStep(g, a, den, c)
    }

    // The state entering block i, and the outputs of the blocks.
    function StateAt(s0: Term, rows: seq<seq<Term>>, i: nat): Term
      requires i <= |rows| && forall j :: 0 <= j < |rows| ==> |rows[j]| == 3
    {
      if i == 0 then s0 else Next(StateAt(s0, rows, i - 1), rows[i - 1])
    }

    function Outs(s0: Term, rows: seq<seq<Term>>): (r: seq<Term>)
      requires forall j :: 0 <= j < |rows| ==> |rows[j]| == 3
      ensures |r| == |rows|
      ensures forall i :: 0 <= i < |rows| ==> r[i] == Out(StateAt(s0, rows, i), rows[i])
    {
      seq(|rows|, i requires 0 <= i < |rows| => Out(StateAt(s0, rows, i), rows[i]))
    }
  }

  lemma {:induction false} StateShift(sc: Scheme, s0: Term, rows: seq<seq<Term>>, i: nat)
    requires i < |rows| && forall j :: 0 <= j < |rows| ==> |rows[j]| == 3
    ensures sc.StateAt(sc.Next(s0, rows[0]), rows[1..], i) == sc.StateAt(s0, rows, i + 1)
  {
    hide Scheme.Next;
    if i == 0 {
    } else {
      StateShift(sc, s0, rows, i - 1);
      assert rows[1..][i - 1] == rows[i];
    }
  }

  lemma OutsCons(sc: Scheme, s0: Term, rows: seq<seq<Term>>)
    requires rows != [] && forall j :: 0 <= j < |rows| ==> |rows[j]| == 3
    ensures sc.Outs(s0, rows) == [sc.Out(s0, rows[0])] + sc.Outs(sc.Next(s0, rows[0]), rows[1..])
    ensures sc.StateAt(s0, rows, |rows|) == sc.StateAt(sc.Next(s0, rows[0]), rows[1..], |rows| - 1)
  {
    hide Scheme.Next, Scheme.Out, Scheme.StateAt;
    var more := sc.Outs(sc.Next(s0, rows[0]), rows[1..]);
    FirstState(sc, s0, rows);
    forall i | 0 <= i < |rows| - 1
      ensures more[i] == sc.Outs(s0, rows)[i + 1]
    {
      StateShift(sc, s0, rows, i);
      assert rows[1..][i] == rows[i + 1];
    }
    StateShift(sc, s0, rows, |rows| - 1);
  }

  lemma FirstState(sc: Scheme, s0: Term, rows: seq<seq<Term>>)
    requires forall j :: 0 <= j < |rows| ==> |rows[j]| == 3
    ensures sc.StateAt(s0, rows, 0) == s0
  {
  }

  // The loop over the blocks' wires leaves the last state and the outputs.
  lemma {:induction false} FoldLoop(sc: Scheme, s0: Term, rows: seq<seq<Term>>)
    requires forall j :: 0 <= j < |rows| ==> |rows[j]| == 3
    ensures IsStep(sc.Step(), 3, 1) && Groups(|rows|, 3) == |FlatRows(rows)|
    ensures ApplyLoop(sc.Step(), |rows|, 3, 1, s0, FlatRows(rows)) == [sc.StateAt(s0, rows, |rows|)] + sc.Outs(s0, rows)
    decreases |rows|
  {
    hide RetnetStep, NextTerm, OutTerm, Apply, WF, In, Out, ApplyLoop, Scheme.StateAt, Scheme.Outs;
    StepIsStep(sc, s0);
    if rows == [] {
      LoopNone(sc.Step(), 3, s0);
      FirstState(sc, s0, rows);
      NoOuts(sc, s0);
    } else {
      FoldLoop(sc, sc.Next(s0, rows[0]), rows[1..]);
      StepOnRow(sc, s0, rows[0]);
      OutsCons(sc, s0, rows);
      LoopCons(sc.Step(), |rows|, 3, s0, rows[0], FlatRows(rows[1..]), sc.Next(s0, rows[0]), sc.Out(s0, rows[0]),
               sc.StateAt(sc.Next(s0, rows[0]), rows[1..], |rows| - 1), sc.Outs(sc.Next(s0, rows[0]), rows[1..]));
    }
  }

  lemma NoOuts(sc: Scheme, s0: Term)
    ensures sc.Outs(s0, []) == []
  {
  }

  lemma StepIsStep(sc: Scheme, t: Term)
    ensures IsStep(sc.Step(), 3, 1)
  {
    hide RetnetStep, NextTerm, OutTerm;
    RetnetStepRuns(sc.g, sc.a, sc.den, sc.c, t, t, t, t);
  }

  lemma StepOnRow(sc: Scheme, s: Term, row: seq<Term>)
    requires |row| == 3
    ensures IsStep(sc.Step(), 3, 1) && Apply(sc.Step(), [s] + row) == [sc.Next(s, row), sc.Out(s, row)]
  {
    hide RetnetStep, NextTerm, OutTerm;
    assert [s] + row == [s, row[0], row[1], row[2]];
    RetnetStepRuns(sc.g, sc.a, sc.den, sc.c, s, row[0], row[1], row[2]);
  }

  // The projections' weights and biases.
  datatype Projections = Projections(wq: Term, bq: Term, wk: Term, bk: Term, wv: Term, bv: Term)

  function BlockAttrs(c: int, k: nat, i: nat): Attrs {
    map["sizes" := Nums(Copies(c, k)), "dim" := Num(-2), "index" := Num(i)]
  }

  function BlockOf(m: Term, c: int, k: nat, i: nat): Term {
    Op("split", [m], BlockAttrs(c, k, i))
  }

  function Project(x: Term, w: Term, b: Term): Term {
    Plain("linear", [x, w, b])
  }

  // The q, k and v slices of every block.
  function Slices(x: Term, p: Projections, c: int, k: nat): (r: seq<seq<Term>>)
    ensures |r| == k && forall i :: 0 <= i < k ==> |r[i]| == 3
  {
    seq(k, i requires 0 <= i < k => [BlockOf(Project(x, p.wq, p.bq), c, k, i), BlockOf(Project(x, p.wk, p.bk), c, k, i),
                 BlockOf(Project(x, p.wv, p.bv), c, k, i)])
  }

  // How often a range of that length is walked.
  function Count(k: int): nat {
    if k < 0 then 0 else k
  }

  function FoldWires(x: Term, s0: Term, p: Projections, c: int, k: nat): Term {
    Plain("pack", [s0] + FlatRows(Slices(x, p, c, k)))
  }

  // Integer division rounding down, as the block size is computed.
  function FloorDiv(t: int, k: int): (q: int)
    requires k != 0
    ensures if k > 0 then q * k <= t < (q + 1) * k else (q + 1) * k < t <= q * k
  {
    if k > 0 then t / k else -(t / -k) - if t % -k == 0 then 0 else 1
  }

  // One closed program for K blocks of t/K positions; it expands to the concat
  // of the blocks' outputs over the threaded state.  A negative K is not
  // refused: it assembles a loop that is no morphism.
  method RetnetFoldProgram(x: Term, s0: Term, p: Projections, g: Term, a: Term, den: Term, t: nat, k: int)
    returns (r: Result<Morph>)
    ensures r == Failure(ZeroDivisionError) <==> k == 0
    ensures k != 0 ==> (r == Failure(TypeError) <==> Unrepresentable(FoldWires(x, s0, p, FloorDiv(t, k), Count(k))))
    ensures r.Failure? ==> r.error != ValueError
    ensures r.Success? ==> (WF(r.value) <==> k > 0)
    ensures r.Success? && k > 0 ==>
      OneFold(r.value, FoldWires(x, s0, p, t / k, k), Scheme(g, a, den, t / k))
    ensures r.Success? && k > 0 ==>
      var sc := Scheme(g, a, den, t / k);
      && In(r.value) == 0 && Out(r.value) == 1
      && CombToDag(r.value) == Success(Op("concat", sc.Outs(s0, Slices(x, p, t / k, k)), ConcatAttrs()))
  {
    hide RetnetStep, Slices, Unrepresentable, CombToDag, WF, In, Out, Scheme.Outs, Scheme.StateAt, Runs, SeqOf,
         OneFold, ExactSharing;
    if k == 0 {
      return Failure(ZeroDivisionError);
    }
    var c := FloorDiv(t, k);
    var sc, rows := Scheme(g, a, den, c), Slices(x, p, c, Count(k));
    var wires := [s0] + FlatRows(rows);
    var pre := DagToComb(Plain("pack", wires));
    if pre.Failure? {
      return Failure(pre.error);
    }
    var loop := Loop(sc.Step(), k, 3, 1);
    var post := SeqOf([ParOf([Drop, Id(k)]), Arr("concat", k, ConcatAttrs())]);
    var prog := SeqOf([pre.value, loop, post]);
    if k < 0 {
      NegativeLoop(pre.value, loop, post);
      return Success(prog);
    }
    var last, outs := sc.StateAt(s0, rows, k), sc.Outs(s0, rows);
    PreIsPack(pre.value, wires);
    FoldLoop(sc, s0, rows);
    LoopRuns(sc.Step(), k, s0, FlatRows(rows), [last] + outs);
    PostRunsConcat(last, outs);
    RunsTriple(pre.value, loop, post, [], wires, [last] + outs, [Op("concat", outs, ConcatAttrs())]);
    ClosedExpansion(prog, Op("concat", outs, ConcatAttrs()));
    FoldCensus(pre.value, Plain("pack", wires), sc, k);
    r := Success(prog);
  }

  // The whole fold as one term: one loop over the step; an arrow for each op of
  // the wires, the step's arrows and the closing concat; the leaves of the wires
  // and the step's constants as generators, and no other.
  ghost predicate OneFold(m: Morph, wires: Term, sc: Scheme) {
    && Tally(m, Loops) == 1
    && Tally(m, Arrs) == |NodesOf(wires)| + 17 + 1
    && forall t :: Tally(m, LeafOf(t)) ==
         (if t in Subterms(wires) && !t.Op? then 1 else 0)
         + (if t == sc.g then 3 else 0) + (if t == sc.a then 1 else 0) + (if t == sc.den then 1 else 0)
  }

  lemma FoldGates(pre: Morph, sc: Scheme, k: int, c: Stat)
    requires IsMade(c)
    ensures Tally(SeqOf([pre, Loop(sc.Step(), k, 3, 1), SeqOf([ParOf([Drop, Id(k)]), Arr("concat", k, ConcatAttrs())])]), c)
         == Tally(pre, c) + (if c.Loops? then 1 else 0) + 18 * OneArrow(c)
            + 3 * OneLeaf(sc.g, c) + OneLeaf(sc.a, c) + OneLeaf(sc.den, c)
  {
    hide Tally, SeqOf, ParOf, RetnetStep;
    NodeCounts(c);
    RetnetStepCensus(sc.g, sc.a, sc.den, sc.c, c);
    LoopCounts(sc.Step(), k, c);
    var concat := Arr("concat", k, ConcatAttrs());
    Seq2Count(Drop, Id(k), c);
    Seq2Count(ParOf([Drop, Id(k)]), concat, c);
    Seq3Count(pre, Loop(sc.Step(), k, 3, 1), SeqOf([ParOf([Drop, Id(k)]), concat]), c);
  }

  lemma LoopCounts(step: Morph, k: int, c: Stat)
    requires IsMade(c)
    ensures Tally(Loop(step, k, 3, 1), c) == (if c.Loops? then 1 else 0) + Tally(step, c)
  {
  }

  lemma FoldCensus(pre: Morph, wires: Term, sc: Scheme, k: int)
    requires ExactSharing(pre, wires)
    ensures OneFold(SeqOf([pre, Loop(sc.Step(), k, 3, 1), SeqOf([ParOf([Drop, Id(k)]), Arr("concat", k, ConcatAttrs())])]),
                    wires, sc)
  {
    hide Tally, SeqOf, ParOf, RetnetStep, NodesOf, Subterms;
    FoldGates(pre, sc, k, Arrs);
    FoldGates(pre, sc, k, Loops);
    forall t
      ensures Tally(SeqOf([pre, Loop(sc.Step(), k, 3, 1), SeqOf([ParOf([Drop, Id(k)]), Arr("concat", k, ConcatAttrs())])]), LeafOf(t))
           == (if t in Subterms(wires) && !t.Op? then 1 else 0)
              + (if t == sc.g then 3 else 0) + (if t == sc.a then 1 else 0) + (if t == sc.den then 1 else 0)
    {
      FoldGates(pre, sc, k, LeafOf(t));
      MintsOne(pre, wires, t);
    }
  }

  lemma MintsOne(pre: Morph, wires: Term, t: Term)
    requires ExactSharing(pre, wires)
    ensures Tally(pre, LeafOf(t)) == if t in Subterms(wires) && !t.Op? then 1 else 0
  {
    hide Tally, Subterms, NodesOf, ArgBag;
  }

  lemma NegativeLoop(pre: Morph, loop: Morph, post: Morph)
    requires loop.Loop? && loop.n < 0
    ensures !WF(SeqOf([pre, loop, post]))
  {
    SeqOfHolds([pre, loop, post], loop, loop);
  }

  lemma PreIsPack(pre: Morph, wires: seq<Term>)
    requires WF(pre) && In(pre) == 0 && Out(pre) == |OutputsOf(Plain("pack", wires))|
    requires forall tail :: Apply(pre, tail) == OutputsOf(Plain("pack", wires)) + tail
    ensures Runs(pre, [], wires)
  {
    assert Apply(pre, []) == wires + [];
    NilConcat(wires);
  }

  lemma LoopRuns(step: Morph, n: nat, s: Term, xs: seq<Term>, r: seq<Term>)
    requires IsStep(step, 3, 1) && n >= 1 && Groups(n, 3) == |xs| && ApplyLoop(step, n, 3, 1, s, xs) == r && |r| == 1 + n
    ensures Runs(Loop(step, n, 3, 1), [s] + xs, r)
  {
    hide ApplyLoop, Groups;
    GroupsOfOne(n);
    assert ([s] + xs)[0] == s && ([s] + xs)[1..] == xs;
  }

  lemma PostRunsConcat(last: Term, outs: seq<Term>)
    ensures Runs(SeqOf([ParOf([Drop, Id(|outs|)]), Arr("concat", |outs|, ConcatAttrs())]), [last] + outs,
                 [Op("concat", outs, ConcatAttrs())])
  {
    hide Runs, SeqOf, ParOf;
    DropRuns(last);
    IdRuns(outs);
    Par2(Drop, Id(|outs|), [last], outs, [], outs);
    NilConcat(outs);
    ArrRuns("concat", ConcatAttrs(), outs);
    RunsPair(ParOf([Drop, Id(|outs|)]), Arr("concat", |outs|, ConcatAttrs()), [last] + outs, outs, [Op("concat", outs, ConcatAttrs())]);
  }

  lemma DropRuns(t: Term)
    ensures Runs(Drop, [t], [])
  {
  }
}
