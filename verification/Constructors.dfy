// The smart constructors: flattening and identity elision keep a compiled
// term small, and keep both its arity and its action.

module Constructors {
  import opened Terms
  import opened Morphisms

  // ---------------------------------------------------------------------------
  //  Composition
  // ---------------------------------------------------------------------------

  function FlatSeq(ps: seq<Morph>): seq<Morph> {
    if ps == [] then []
    else (if ps[0].Seq? then ps[0].parts else [ps[0]]) + FlatSeq(ps[1..])
  }

  function SeqOf(ps: seq<Morph>): Morph {
    var flat := FlatSeq(ps);
    if |flat| == 1 then flat[0] else Seq(flat)
  }

  // The source's accumulating loop computes the same composite.
  method MakeSeq(ps: seq<Morph>) returns (m: Morph)
    ensures m == SeqOf(ps)
  {
    var flat: seq<Morph> := [];
    for i := 0 to |ps|
      invariant flat == FlatSeq(ps[..i])
    {
      FlatSeqConcat(ps[..i], [ps[i]]);
      assert ps[..i + 1] == ps[..i] + [ps[i]];
      assert [ps[i]][1..] == [];
      if ps[i].Seq? {
        flat := flat + ps[i].parts;
      } else {
        flat := flat + [ps[i]];
      }
    }
    assert ps[..|ps|] == ps;
    if |flat| == 1 {
      return flat[0];
    }
    return Seq(flat);
  }

  lemma {:induction false} FlatSeqConcat(ps: seq<Morph>, qs: seq<Morph>)
    ensures FlatSeq(ps + qs) == FlatSeq(ps) + FlatSeq(qs)
  {
    if ps == [] {
      assert ps + qs == qs;
    } else {
      assert (ps + qs)[1..] == ps[1..] + qs;
      FlatSeqConcat(ps[1..], qs);
    }
  }

  lemma {:induction false} FlatSeqLaw(ps: seq<Morph>)
    requires AllWF(ps)
    ensures AllWF(FlatSeq(ps)) && (ps != [] ==> FlatSeq(ps) != [])
    ensures SeqIn(FlatSeq(ps)) == SeqIn(ps) && SeqDelta(FlatSeq(ps)) == SeqDelta(ps)
  {
    if ps == [] {
    } else {
      var head := if ps[0].Seq? then ps[0].parts else [ps[0]];
      FlatSeqLaw(ps[1..]);
      assert AllWF(head);
      AllWFConcat(head, FlatSeq(ps[1..]));
      SeqConcatArity(head, FlatSeq(ps[1..]));
      ArityNonNegative(ps[0]);
    }
  }

  lemma {:induction false} FlatSeqApply(ps: seq<Morph>, w: seq<Term>)
    requires AllWF(ps) && SeqIn(ps) <= |w|
    ensures AllWF(FlatSeq(ps)) && SeqIn(FlatSeq(ps)) <= |w|
    ensures ApplySeq(FlatSeq(ps), w) == ApplySeq(ps, w)
  {
    FlatSeqLaw(ps);
    if ps == [] {
    } else {
      var head := if ps[0].Seq? then ps[0].parts else [ps[0]];
      FlatSeqLaw(ps[1..]);
      FlatSeqApply(ps[1..], Apply(ps[0], w));
      SeqConcat(head, FlatSeq(ps[1..]), w);
      assert ApplySeq(head, w) == Apply(ps[0], w);
    }
  }

  // A morphism is a part of a composition, or of what is no composition itself.
  predicate IsPart(x: Morph, m: Morph) {
    if m.Seq? then x in m.parts else x == m
  }

  lemma {:induction false} FlatSeqHolds(ps: seq<Morph>, p: Morph, x: Morph)
    requires p in ps && IsPart(x, p)
    ensures x in FlatSeq(ps)
  {
    if p == ps[0] {
    } else {
      FlatSeqHolds(ps[1..], p, x);
    }
  }

  // What a part holds is held by the composition, so an ill-formed part spoils
  // the whole.
  lemma SeqOfHolds(ps: seq<Morph>, p: Morph, x: Morph)
    requires p in ps && IsPart(x, p) && !x.Seq?
    ensures IsPart(x, SeqOf(ps)) && (!WF(x) ==> !WF(SeqOf(ps)))
  {
    FlatSeqHolds(ps, p, x);
    if WF(SeqOf(ps)) && SeqOf(ps).Seq? {
      var i :| 0 <= i < |FlatSeq(ps)| && FlatSeq(ps)[i] == x;
      AllWFMember(FlatSeq(ps), i);
    }
  }

  // Flattening a composition keeps its arity.
  lemma SeqOfLaw(ps: seq<Morph>)
    requires AllWF(ps) && ps != []
    ensures WF(SeqOf(ps)) && In(SeqOf(ps)) == SeqIn(ps) && Out(SeqOf(ps)) == SeqIn(ps) + SeqDelta(ps)
  {
    FlatSeqLaw(ps);
    var flat := FlatSeq(ps);
    if |flat| == 1 {
      ArityNonNegative(flat[0]);
      assert flat[1..] == [];
    }
  }

  // Flattening a composition keeps its action.
  lemma SeqOfApply(ps: seq<Morph>, w: seq<Term>)
    requires AllWF(ps) && ps != [] && SeqIn(ps) <= |w|
    ensures WF(SeqOf(ps)) && In(SeqOf(ps)) == SeqIn(ps)
    ensures Apply(SeqOf(ps), w) == ApplySeq(ps, w)
  {
    SeqOfLaw(ps);
    FlatSeqApply(ps, w);
    var flat := FlatSeq(ps);
    if |flat| == 1 {
      assert flat[1..] == [];
      assert ApplySeq(flat, w) == Apply(flat[0], w);
    }
  }

  // ---------------------------------------------------------------------------
  //  Product
  // ---------------------------------------------------------------------------

  function ParHead(p: Morph): seq<Morph> {
    if p.Par? then p.parts else if p == Id(0) then [] else [p]
  }

  function FlatPar(ps: seq<Morph>): seq<Morph> {
    if ps == [] then [] else ParHead(ps[0]) + FlatPar(ps[1..])
  }

  predicate AllIds(ps: seq<Morph>) {
    forall i :: 0 <= i < |ps| ==> ps[i].Id?
  }

  function ParOf(ps: seq<Morph>): Morph {
    var flat := FlatPar(ps);
    if flat == [] then Id(0)
    else if AllIds(flat) then Id(ParIn(flat))
    else if |flat| == 1 then flat[0]
    else Par(flat)
  }

  lemma {:induction false} FlatParSnoc(ps: seq<Morph>, p: Morph)
    ensures FlatPar(ps + [p]) == FlatPar(ps) + ParHead(p)
  {
    if ps == [] {
      assert ps + [p] == [p] && [p][1..] == [];
    } else {
      assert (ps + [p])[1..] == ps[1..] + [p];
      FlatParSnoc(ps[1..], p);
    }
  }

  // The source's accumulating loop computes the same product.
  method MakePar(ps: seq<Morph>) returns (m: Morph)
    ensures m == ParOf(ps)
  {
    var flat: seq<Morph> := [];
    for i := 0 to |ps|
      invariant flat == FlatPar(ps[..i])
    {
      FlatParSnoc(ps[..i], ps[i]);
      assert ps[..i + 1] == ps[..i] + [ps[i]];
      if ps[i].Par? {
        flat := flat + ps[i].parts;
      } else if ps[i] != Id(0) {
        flat := flat + [ps[i]];
      }
    }
    assert ps[..|ps|] == ps;
    if flat == [] {
      return Id(0);
    }
    if AllIds(flat) {
      return Id(ParIn(flat));
    }
    if |flat| == 1 {
      return flat[0];
    }
    return Par(flat);
  }

  lemma {:induction false} FlatParLaw(ps: seq<Morph>)
    requires AllWF(ps)
    ensures AllWF(FlatPar(ps))
    ensures ParIn(FlatPar(ps)) == ParIn(ps) && ParOut(FlatPar(ps)) == ParOut(ps)
  {
    if ps == [] {
    } else {
      FlatParLaw(ps[1..]);
      AllWFConcat(ParHead(ps[0]), FlatPar(ps[1..]));
      ParConcatArity(ParHead(ps[0]), FlatPar(ps[1..]));
    }
  }

  lemma {:induction false} FlatParApply(ps: seq<Morph>, w: seq<Term>)
    requires AllWF(ps) && ParIn(ps) <= |w|
    ensures AllWF(FlatPar(ps)) && ParIn(FlatPar(ps)) <= |w|
    ensures ApplyPar(FlatPar(ps), w) == ApplyPar(ps, w)
  {
    FlatParLaw(ps);
    if ps == [] {
    } else {
      FlatParLaw(ps[1..]);
      ArityNonNegative(ps[0]);
      AllArityNonNegative(ps[1..]);
      var i := In(ps[0]);
      FlatParApply(ps[1..], w[i..]);
      FlatParStep(ps[0], FlatPar(ps[1..]), w[..i], w[i..]);
      TakeDrop(w, i);
    }
  }

  lemma FlatParStep(p: Morph, qs: seq<Morph>, a: seq<Term>, b: seq<Term>)
    requires WF(p) && AllWF(qs) && In(p) == |a| && ParIn(qs) <= |b|
    ensures AllWF(ParHead(p) + qs) && ParIn(ParHead(p) + qs) <= |a + b|
    ensures ApplyPar(ParHead(p) + qs, a + b) == Apply(p, a) + ApplyPar(qs, b)
  {
    HeadApply(p, a);
    AllWFConcat(ParHead(p), qs);
    ParConcatArity(ParHead(p), qs);
    ParConcat(ParHead(p), qs, a, b);
  }

  lemma HeadApply(p: Morph, w: seq<Term>)
    requires WF(p) && In(p) == |w|
    ensures AllWF(ParHead(p)) && ParIn(ParHead(p)) == |w|
    ensures ApplyPar(ParHead(p), w) == Apply(p, w)
  {
    if !p.Par? && p != Id(0) {
      assert w[..|w|] == w && w[|w|..] == [];
      assert [p][1..] == [];
    }
  }

  lemma {:induction false} IdsApply(ps: seq<Morph>, w: seq<Term>)
    requires AllWF(ps) && AllIds(ps) && ParIn(ps) <= |w|
    ensures ParIn(ps) == ParOut(ps)
    ensures ApplyPar(ps, w) == w
  {
    if ps == [] {
    } else {
      AllArityNonNegative(ps[1..]);
      IdsApply(ps[1..], w[In(ps[0])..]);
      assert w == w[..In(ps[0])] + w[In(ps[0])..];
    }
  }

  lemma {:induction false} IdsArity(ps: seq<Morph>)
    requires AllIds(ps)
    ensures ParIn(ps) == ParOut(ps)
  {
    if ps == [] {
    } else {
      IdsArity(ps[1..]);
    }
  }

  // Flattening a product, eliding its units and merging its identities keep
  // its arity.
  lemma ParOfLaw(ps: seq<Morph>)
    requires AllWF(ps)
    ensures WF(ParOf(ps)) && In(ParOf(ps)) == ParIn(ps) && Out(ParOf(ps)) == ParOut(ps)
  {
    FlatParLaw(ps);
    var flat := FlatPar(ps);
    AllArityNonNegative(flat);
    if flat != [] && AllIds(flat) {
      IdsArity(flat);
    } else if |flat| == 1 {
      assert flat[1..] == [];
    }
  }

  // ... and keep its action.
  lemma ParOfApply(ps: seq<Morph>, w: seq<Term>)
    requires AllWF(ps) && ParIn(ps) <= |w|
    ensures WF(ParOf(ps)) && In(ParOf(ps)) == ParIn(ps)
    ensures Apply(ParOf(ps), w) == ApplyPar(ps, w)
  {
    ParOfLaw(ps);
    FlatParApply(ps, w);
    var flat := FlatPar(ps);
    if AllIds(flat) {
      IdsApply(flat, w);
    } else if |flat| == 1 {
      assert flat == [flat[0]];
      SingletonPar(flat[0], w);
    }
  }

  lemma SingletonPar(m: Morph, w: seq<Term>)
    requires WF(m) && In(m) <= |w|
    ensures AllWF([m]) && ParIn([m]) == In(m)
    ensures ApplyPar([m], w) == Apply(m, w)
  {
    ArityNonNegative(m);
    assert [m][1..] == [];
    ActsOnPrefix(m, w);
    assert ApplyPar([m][1..], w[In(m)..]) == w[In(m)..];
  }

  // A morphism beside idle wires: par(p, id(idle)).
  function Beside(p: Morph, idle: int): Morph {
    ParOf([p, Id(idle)])
  }

  lemma BesideArity(p: Morph, idle: nat)
    requires WF(p)
    ensures WF(Beside(p, idle)) && In(Beside(p, idle)) == In(p) + idle && Out(Beside(p, idle)) == Out(p) + idle
  {
    PairArity(p, Id(idle));
    ParOfLaw([p, Id(idle)]);
  }

  lemma BesideApply(p: Morph, idle: nat, a: seq<Term>, b: seq<Term>)
    requires WF(p) && In(p) == |a| && idle <= |b|
    ensures WF(Beside(p, idle)) && In(Beside(p, idle)) <= |a + b|
    ensures Apply(Beside(p, idle), a + b) == Apply(p, a) + b
  {
    BesideArity(p, idle);
    PairArity(p, Id(idle));
    ParOfApply([p, Id(idle)], a + b);
    PairApply(p, idle, a, b);
  }

  lemma PairApply(p: Morph, idle: nat, a: seq<Term>, b: seq<Term>)
    requires WF(p) && In(p) == |a| && idle <= |b|
    ensures AllWF([p, Id(idle)]) && ParIn([p, Id(idle)]) <= |a + b|
    ensures ApplyPar([p, Id(idle)], a + b) == Apply(p, a) + b
  {
    PairArity(p, Id(idle));
    SingletonPar(Id(idle), b);
    ParCons(p, [Id(idle)], a, b);
    assert [p, Id(idle)] == [p] + [Id(idle)];
  }

  // ---------------------------------------------------------------------------
  //  Reindexing and the per-wire feed
  // ---------------------------------------------------------------------------

  predicate InOrder(order: seq<int>) {
    forall i :: 0 <= i < |order| ==> order[i] == i
  }

  // ---------------------------------------------------------------------------
  //  Normal form
  // ---------------------------------------------------------------------------

  // A composition never has one part and holds no composition; a product has
  // two parts or more, holds no product and no unit, and is not only wires; and
  // so on inside.
  predicate Normal(m: Morph) {
    match m
    case Seq(ps) => |ps| != 1 && (forall p :: p in ps ==> !p.Seq?) && AllNormal(ps)
    case Par(ps) => |ps| >= 2 && !AllIds(ps) && (forall p :: p in ps ==> !p.Par? && p != Id(0)) && AllNormal(ps)
    case Loop(step, _, _, _) => Normal(step)
    case _ => true
  }

  predicate AllNormal(ps: seq<Morph>) {
    if ps == [] then true else Normal(ps[0]) && AllNormal(ps[1..])
  }

  lemma {:induction false} AllNormalConcat(ps: seq<Morph>, qs: seq<Morph>)
    ensures AllNormal(ps + qs) == (AllNormal(ps) && AllNormal(qs))
  {
    hide Normal;
    if ps == [] {
      assert ps + qs == qs;
    } else {
      assert (ps + qs)[1..] == ps[1..] + qs;
      AllNormalConcat(ps[1..], qs);
    }
  }

  lemma {:induction false} FlatSeqNormal(ps: seq<Morph>)
    requires AllNormal(ps)
    ensures AllNormal(FlatSeq(ps)) && forall q :: q in FlatSeq(ps) ==> !q.Seq?
  {
    if ps == [] {
    } else {
      var head := if ps[0].Seq? then ps[0].parts else [ps[0]];
      FlatSeqNormal(ps[1..]);
      assert !ps[0].Seq? ==> head[1..] == [];
      AllNormalConcat(head, FlatSeq(ps[1..]));
    }
  }

  lemma {:induction false} FlatParNormal(ps: seq<Morph>)
    requires AllNormal(ps)
    ensures AllNormal(FlatPar(ps)) && forall q :: q in FlatPar(ps) ==> !q.Par? && q != Id(0)
  {
    if ps == [] {
    } else {
      var head := ParHead(ps[0]);
      FlatParNormal(ps[1..]);
      assert !ps[0].Par? && head != [] ==> head[1..] == [];
      AllNormalConcat(head, FlatPar(ps[1..]));
    }
  }

  // The smart constructors keep the normal form: they flatten, dissolve
  // singletons, drop units and merge products of wires.
  lemma SeqOfNormal(ps: seq<Morph>)
    requires AllNormal(ps)
    ensures Normal(SeqOf(ps))
  {
    FlatSeqNormal(ps);
  }

  lemma ParOfNormal(ps: seq<Morph>)
    requires AllNormal(ps)
    ensures Normal(ParOf(ps)) && (ParOf(ps).Id? <==> AllIds(FlatPar(ps)))
  {
    FlatParNormal(ps);
  }

  // No part of a composition idles, the unit apart.
  ghost predicate Lean(m: Morph) {
    forall x :: IsPart(x, m) && x.Id? ==> x == Id(0)
  }

  lemma {:induction false} FlatSeqInverse(ps: seq<Morph>, x: Morph)
    requires x in FlatSeq(ps)
    ensures exists p :: p in ps && IsPart(x, p)
  {
    if IsPart(x, ps[0]) {
    } else {
      FlatSeqInverse(ps[1..], x);
    }
  }

  lemma SeqOfLean(ps: seq<Morph>)
    requires AllNormal(ps) && forall p :: p in ps ==> Lean(p)
    ensures Lean(SeqOf(ps))
  {
    hide FlatSeq;
    FlatSeqNormal(ps);
    forall x | IsPart(x, SeqOf(ps)) && x.Id?
      ensures x == Id(0)
    {
      assert x in FlatSeq(ps);
      FlatSeqInverse(ps, x);
    }
  }

  // Every listed part is in normal form and does not idle.
  ghost predicate Tidy(ps: seq<Morph>) {
    AllNormal(ps) && forall p :: p in ps ==> Lean(p)
  }

  lemma TidySnoc(ps: seq<Morph>, p: Morph)
    requires Tidy(ps) && Normal(p) && Lean(p)
    ensures Tidy(ps + [p])
  {
    hide Normal, Lean;
    AllNormalConcat(ps, [p]);
    assert [p][1..] == [];
  }

  lemma TidySeqOf(ps: seq<Morph>)
    requires Tidy(ps)
    ensures Normal(SeqOf(ps)) && Lean(SeqOf(ps))
  {
    hide Normal, Lean, SeqOf;
    SeqOfNormal(ps);
    SeqOfLean(ps);
  }

  lemma {:induction false} AtomsNormal(ps: seq<Morph>)
    requires forall p :: p in ps ==> !p.Seq? && !p.Par? && !p.Loop?
    ensures AllNormal(ps)
  {
    if ps == [] {
    } else {
      AtomsNormal(ps[1..]);
    }
  }

  // A product of atoms is no composition.
  lemma AtomsProduct(ps: seq<Morph>)
    requires forall p :: p in ps ==> !p.Seq? && !p.Par? && !p.Loop?
    ensures Normal(ParOf(ps)) && !ParOf(ps).Seq?
  {
    AtomsNormal(ps);
    ParOfNormal(ps);
    FlatAtoms(ps);
    if |FlatPar(ps)| == 1 {
      assert FlatPar(ps)[0] in FlatPar(ps);
    }
  }

  lemma {:induction false} FlatAtoms(ps: seq<Morph>)
    requires forall p :: p in ps ==> !p.Seq? && !p.Par? && !p.Loop?
    ensures forall q :: q in FlatPar(ps) ==> q in ps
  {
    if ps == [] {
    } else {
      FlatAtoms(ps[1..]);
    }
  }

  lemma PermIsAtom(order: seq<int>)
    ensures Normal(PermOf(order)) && (PermOf(order).Id? || PermOf(order).Perm?)
  {
  }

  lemma NothingTidy()
    ensures Tidy([])
  {
  }

  lemma {:induction false} ParOfNotWires(ps: seq<Morph>, p: Morph)
    requires p in ps && !p.Id? && !p.Par?
    ensures p in FlatPar(ps) && !ParOf(ps).Id?
  {
    if p == ps[0] {
      assert ParHead(p) == [p];
    } else {
      ParOfNotWires(ps[1..], p);
    }
  }

  function PermOf(order: seq<int>): Morph {
    if InOrder(order) then Id(|order|) else Perm(order)
  }

  // Eliding an identity permutation keeps its action.
  lemma PermOfApply(order: seq<int>, w: seq<Term>)
    requires IsPerm(order) && |order| <= |w|
    ensures WF(PermOf(order)) && In(PermOf(order)) == Out(PermOf(order)) == |order|
    ensures Apply(PermOf(order), w) == Reindex(order, w) + w[|order|..]
  {
    if InOrder(order) {
      assert Reindex(order, w) == w[..|order|];
    }
  }

  // Combine per-wire maps and a permutation into a feed.
  function Mux(maps: seq<Morph>, order: seq<int>): Morph {
    var par, prm := ParOf(maps), PermOf(order);
    var parts := (if par.Id? then [] else [par]) + (if prm.Id? then [] else [prm]);
    if parts == [] then Id(|maps|) else SeqOf(parts)
  }

  ghost predicate PerWire(maps: seq<Morph>) {
    AllWF(maps) && forall i :: 0 <= i < |maps| ==> In(maps[i]) == 1
  }

  lemma {:induction false} PerWireArity(maps: seq<Morph>)
    requires PerWire(maps)
    ensures ParIn(maps) == |maps|
  {
    if maps == [] {
    } else {
      PerWireArity(maps[1..]);
    }
  }

  // The feed maps every wire, then permutes what they produce.
  lemma MuxApply(maps: seq<Morph>, order: seq<int>, w: seq<Term>)
    requires PerWire(maps) && IsPerm(order) && |order| == ParOut(maps) && |maps| <= |w|
    ensures ParIn(maps) == |maps|
    ensures WF(Mux(maps, order)) && In(Mux(maps, order)) == |maps| && Out(Mux(maps, order)) == |order|
    ensures Apply(Mux(maps, order), w)
         == Reindex(order, ApplyPar(maps, w)) + ApplyPar(maps, w)[|order|..]
  {
    hide ParOf, PermOf, SeqOf, Apply, ApplyPar, WF, In, Out, AllWF, ParIn, ParOut, IsPerm;
    PerWireArity(maps);
    WiredParts(maps);
    var par, prm := ParOf(maps), PermOf(order);
    ParOfLaw(maps);
    ParOfApply(maps, w);
    var v := ApplyPar(maps, w);
    PermOfApply(order, v);
    IdApply(par, w);
    IdApply(prm, v);
    if !par.Id? && !prm.Id? {
      assert [par] + [prm] == [par, prm];
      PairOf(par, prm, w);
    } else if !par.Id? {
      NilConcat([par]);
      OneOf(par, w);
    } else if !prm.Id? {
      NilConcat([prm]);
      OneOf(prm, w);
    }
  }

  lemma WiredParts(maps: seq<Morph>)
    requires PerWire(maps)
    ensures AllWF(maps)
  {
  }

  lemma IdApply(m: Morph, w: seq<Term>)
    requires WF(m) && In(m) <= |w|
    ensures m.Id? ==> Apply(m, w) == w && m == Id(In(m)) && Out(m) == In(m)
  {
  }

  // A composition of one part, and of two that fit.
  lemma OneOf(p: Morph, w: seq<Term>)
    requires WF(p) && In(p) <= |w|
    ensures WF(SeqOf([p])) && In(SeqOf([p])) == In(p) && Out(SeqOf([p])) == Out(p) && Apply(SeqOf([p]), w) == Apply(p, w)
  {
    hide SeqOf, Apply, WF, In, Out, AllWF, SeqIn, SeqDelta;
    ArityNonNegative(p);
    SingleArity(p);
    SeqOfLaw([p]);
    SeqOfApply([p], w);
    SoloApply(p, w);
  }

  lemma SoloApply(p: Morph, w: seq<Term>)
    requires WF(p) && AllWF([p]) && SeqIn([p]) <= |w| && In(p) <= |w|
    ensures ApplySeq([p], w) == Apply(p, w)
  {
    hide Apply, WF, In, Out;
    assert [p][1..] == [];
  }

  lemma PairOf(p: Morph, q: Morph, w: seq<Term>)
    requires WF(p) && WF(q) && In(q) == Out(p) && In(p) <= |w|
    ensures WF(SeqOf([p, q])) && In(SeqOf([p, q])) == In(p) && Out(SeqOf([p, q])) == Out(q)
    ensures Apply(SeqOf([p, q]), w) == Apply(q, Apply(p, w))
  {
    hide SeqOf, Apply, WF, In, Out, AllWF, SeqIn, SeqDelta, ApplySeq;
    assert [p] + [q] == [p, q];
    ArityNonNegative(p);
    ArityNonNegative(q);
    SingleArity(p);
    SeqSnocArity([p], q);
    SeqSnoc([p], q, w);
    SoloApply(p, w);
    SeqOfLaw([p, q]);
    SeqOfApply([p, q], w);
  }
}
