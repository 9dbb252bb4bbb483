// The size census of a morphism, and what the smart constructors leave
// untouched in it.

module Census {
  import opened Terms
  import opened Morphisms
  import opened Constructors

  // The counters of a census: total nodes, then one per node class, with the
  // summed widths of the diagonals and of the permutations.  The last kind is
  // not the source's: it counts the generators of one term.
  datatype Stat =
    | Nodes | Arrs | LeafNodes | Dups | DupCopies | Perms | PermWires | Drops | Loops | Structural
    | LeafOf(term: Term)

  // What one node adds to a counter, its children apart.
  function Own(m: Morph, c: Stat): int {
    match c
    case Nodes => 1
    case Arrs => if m.Arr? then 1 else 0
    case LeafNodes => if m.Leaf? then 1 else 0
    case Dups => if m.Dup? then 1 else 0
    case DupCopies => if m.Dup? then m.k else 0
    case Perms => if m.Perm? then 1 else 0
    case PermWires => if m.Perm? then |m.order| else 0
    case Drops => if m.Drop? then 1 else 0
    case Loops => if m.Loop? then 1 else 0
    case Structural => if m.Seq? || m.Par? || m.Id? then 1 else 0
    case LeafOf(t) => if m == Leaf(t) then 1 else 0
  }

  function Tally(m: Morph, c: Stat): int {
    Own(m, c) +
    match m
    case Loop(step, _, _, _) => Tally(step, c)
    case Seq(ps) => TallyAll(ps, c)
    case Par(ps) => TallyAll(ps, c)
    case _ => 0
  }

  function TallyAll(ps: seq<Morph>, c: Stat): int {
    if ps == [] then 0 else Tally(ps[0], c) + TallyAll(ps[1..], c)
  }

  // The accumulator the source threads through its recursion.
  class CombStats {
    var counts: map<Stat, int>

    ghost predicate Valid()
      reads this
    {
      forall c: Stat :: !c.LeafOf? ==> c in counts
    }

    constructor ()
      ensures Valid() && forall c: Stat :: !c.LeafOf? ==> counts[c] == 0
    {
      counts := map[Nodes := 0, Arrs := 0, LeafNodes := 0, Dups := 0, DupCopies := 0,
                    Perms := 0, PermWires := 0, Drops := 0, Loops := 0, Structural := 0];
      new;
      forall c: Stat | !c.LeafOf?
        ensures c in counts && counts[c] == 0
      {
        match c
        case Nodes => case Arrs => case LeafNodes => case Dups => case DupCopies =>
        case Perms => case PermWires => case Drops => case Loops => case Structural =>
      }
    }

    method Visit(m: Morph)
      requires Valid()
      modifies this
      ensures Valid() && forall c: Stat :: !c.LeafOf? ==> counts[c] == old(counts[c]) + Tally(m, c)
      decreases m
    {
      hide Tally, TallyAll, Own;
      TallyNode(m);
      ghost var start := counts;
      counts := map c | c in counts :: counts[c] + Own(m, c);
      if m.Loop? {
        Visit(m.step);
      } else if m.Seq? || m.Par? {
        var ps := m.parts;
        for i := 0 to |ps|
          invariant Valid()
          invariant forall c: Stat :: !c.LeafOf? ==> counts[c] == start[c] + Own(m, c) + TallyAll(ps[..i], c)
        {
          assert ps[..i + 1] == ps[..i] + [ps[i]];
          TallyNext(ps[..i], ps[i]);
          Visit(ps[i]);
        }
        assert ps[..|ps|] == ps;
      }
    }
  }

  // A node counts itself and its children.
  lemma TallyNode(m: Morph)
    ensures forall c: Stat :: TallyAll([], c) == 0
    ensures forall c: Stat ::
      Tally(m, c) == Own(m, c) + if m.Loop? then Tally(m.step, c) else if m.Seq? || m.Par? then TallyAll(m.parts, c) else 0
  {
    hide Own;
  }

  // Every node is of exactly one class.
  lemma {:induction false} ClassesPartition(m: Morph)
    ensures Tally(m, Nodes) == Tally(m, Arrs) + Tally(m, LeafNodes) + Tally(m, Dups) + Tally(m, Perms)
                               + Tally(m, Drops) + Tally(m, Loops) + Tally(m, Structural)
    decreases m, 0
  {
    hide Tally, TallyAll, Own;
    TallyNode(m);
    OwnClass(m);
    match m
    case Loop(step, _, _, _) => ClassesPartition(step);
    case Seq(ps) => ClassesPartitionAll(ps);
    case Par(ps) => ClassesPartitionAll(ps);
    case _ =>
  }

  lemma OwnClass(m: Morph)
    ensures Own(m, Nodes) == Own(m, Arrs) + Own(m, LeafNodes) + Own(m, Dups) + Own(m, Perms)
                             + Own(m, Drops) + Own(m, Loops) + Own(m, Structural)
  {
  }

  lemma {:induction false} ClassesPartitionAll(ps: seq<Morph>)
    ensures TallyAll(ps, Nodes) == TallyAll(ps, Arrs) + TallyAll(ps, LeafNodes) + TallyAll(ps, Dups) + TallyAll(ps, Perms)
                                   + TallyAll(ps, Drops) + TallyAll(ps, Loops) + TallyAll(ps, Structural)
    decreases ps, 0
  {
    hide Tally, TallyAll;
    TallyCons(ps);
    if ps == [] {
    } else {
      ClassesPartition(ps[0]);
      ClassesPartitionAll(ps[1..]);
    }
  }

  lemma TallyCons(ps: seq<Morph>)
    ensures forall c: Stat :: TallyAll(ps, c) == if ps == [] then 0 else Tally(ps[0], c) + TallyAll(ps[1..], c)
  {
    hide Tally;
  }

  lemma TallyNext(ps: seq<Morph>, p: Morph)
    ensures forall c: Stat :: TallyAll(ps + [p], c) == TallyAll(ps, c) + Tally(p, c)
  {
    hide Tally, TallyAll;
    forall c: Stat
      ensures TallyAll(ps + [p], c) == TallyAll(ps, c) + Tally(p, c)
    {
      TallySnoc(ps, p, c);
    }
  }

  lemma TallySnoc(ps: seq<Morph>, p: Morph, c: Stat)
    ensures TallyAll(ps + [p], c) == TallyAll(ps, c) + Tally(p, c)
  {
    TallyConcat(ps, [p], c);
    assert [p][1..] == [];
  }

  lemma {:induction false} TallyConcat(ps: seq<Morph>, qs: seq<Morph>, c: Stat)
    ensures TallyAll(ps + qs, c) == TallyAll(ps, c) + TallyAll(qs, c)
  {
    if ps == [] {
      assert ps + qs == qs;
    } else {
      assert (ps + qs)[1..] == ps[1..] + qs;
      TallyConcat(ps[1..], qs, c);
    }
  }

  lemma {:induction false} DupCount(m: Morph)
    ensures Tally(m, Dups) >= 0 && (Tally(m, Dups) == 0 ==> Tally(m, DupCopies) == 0)
    decreases m, 0
  {
    match m
    case Loop(step, _, _, _) => DupCount(step);
    case Seq(ps) => DupCountAll(ps);
    case Par(ps) => DupCountAll(ps);
    case _ =>
  }

  lemma {:induction false} DupCountAll(ps: seq<Morph>)
    ensures TallyAll(ps, Dups) >= 0 && (TallyAll(ps, Dups) == 0 ==> TallyAll(ps, DupCopies) == 0)
    decreases ps, 0
  {
    if ps == [] {
    } else {
      DupCount(ps[0]);
      DupCountAll(ps[1..]);
    }
  }

  // The counters of generators, and what a list of terms has of them.
  predicate IsMint(c: Stat) {
    c.LeafNodes? || c.LeafOf?
  }

  function Minted(leaves: seq<Term>, c: Stat): nat
    requires IsMint(c)
  {
    if c.LeafNodes? then |leaves| else multiset(leaves)[c.term]
  }

  // The counters that flattening and identity elision leave alone.
  predicate IsGate(c: Stat) {
    c.Arrs? || c.LeafNodes? || c.Dups? || c.DupCopies? || c.Drops? || c.Loops? || c.LeafOf?
  }

  lemma TallyOne(ps: seq<Morph>, c: Stat)
    ensures |ps| == 1 ==> TallyAll(ps, c) == Tally(ps[0], c)
  {
    hide Tally;
    assert |ps| == 1 ==> TallyAll(ps[1..], c) == 0;
  }

  lemma TallyTwo(p: Morph, q: Morph, c: Stat)
    ensures TallyAll([p, q], c) == Tally(p, c) + Tally(q, c)
  {
    hide Tally, TallyAll;
    assert [p] + [q] == [p, q];
    TallyOne([p], c);
    TallySnoc([p], q, c);
  }

  lemma TallyThree(p: Morph, q: Morph, r: Morph, c: Stat)
    ensures TallyAll([p, q, r], c) == Tally(p, c) + Tally(q, c) + Tally(r, c)
  {
    hide Tally, TallyAll;
    assert [p, q] + [r] == [p, q, r];
    TallyTwo(p, q, c);
    TallySnoc([p, q], r, c);
  }

  lemma TallyFour(p: Morph, q: Morph, r: Morph, s: Morph, c: Stat)
    ensures TallyAll([p, q, r, s], c) == Tally(p, c) + Tally(q, c) + Tally(r, c) + Tally(s, c)
  {
    hide Tally, TallyAll;
    assert [p, q, r] + [s] == [p, q, r, s];
    TallyThree(p, q, r, c);
    TallySnoc([p, q, r], s, c);
  }

  lemma TallyFive(p: Morph, q: Morph, r: Morph, s: Morph, t: Morph, c: Stat)
    ensures TallyAll([p, q, r, s, t], c) == Tally(p, c) + Tally(q, c) + Tally(r, c) + Tally(s, c) + Tally(t, c)
  {
    hide Tally, TallyAll;
    assert [p, q, r, s] + [t] == [p, q, r, s, t];
    TallyFour(p, q, r, s, c);
    TallySnoc([p, q, r, s], t, c);
  }

  // Structural nodes count for nothing themselves.
  lemma NodeGates(ps: seq<Morph>, c: Stat)
    requires IsGate(c)
    ensures Tally(Par(ps), c) == TallyAll(ps, c) == Tally(Seq(ps), c)
    ensures (forall w :: Tally(Id(w), c) == 0) && TallyAll([], c) == 0
  {
    hide TallyAll;
    assert TallyAll([], c) == 0 by {
      TallyNone(c);
    }
  }

  lemma TallyNone(c: Stat)
    ensures TallyAll([], c) == 0
  {
  }

  lemma {:induction false} FlatSeqGates(ps: seq<Morph>, c: Stat)
    requires IsGate(c)
    ensures TallyAll(FlatSeq(ps), c) == TallyAll(ps, c)
  {
    if ps == [] {
    } else {
      FlatSeqGates(ps[1..], c);
      var head := if ps[0].Seq? then ps[0].parts else [ps[0]];
      TallyConcat(head, FlatSeq(ps[1..]), c);
      assert [ps[0]][1..] == [];
    }
  }

  lemma SeqOfGates(ps: seq<Morph>, c: Stat)
    requires IsGate(c)
    ensures Tally(SeqOf(ps), c) == TallyAll(ps, c)
  {
    hide FlatSeq, Tally, TallyAll, IsGate;
    FlatSeqGates(ps, c);
    TallyOne(FlatSeq(ps), c);
    NodeGates(FlatSeq(ps), c);
  }

  lemma {:induction false} FlatParGates(ps: seq<Morph>, c: Stat)
    requires IsGate(c)
    ensures TallyAll(FlatPar(ps), c) == TallyAll(ps, c)
  {
    if ps == [] {
    } else {
      FlatParGates(ps[1..], c);
      TallyConcat(ParHead(ps[0]), FlatPar(ps[1..]), c);
      assert [ps[0]][1..] == [];
    }
  }

  lemma {:induction false} IdsGates(ps: seq<Morph>, c: Stat)
    requires AllIds(ps) && IsGate(c)
    ensures TallyAll(ps, c) == 0
  {
    if ps == [] {
    } else {
      IdsGates(ps[1..], c);
    }
  }

  lemma ParOfGates(ps: seq<Morph>, c: Stat)
    requires IsGate(c)
    ensures Tally(ParOf(ps), c) == TallyAll(ps, c)
  {
    hide FlatPar, Tally, TallyAll, ParIn, AllIds, IsGate;
    FlatParGates(ps, c);
    TallyOne(FlatPar(ps), c);
    NodeGates(FlatPar(ps), c);
    if AllIds(FlatPar(ps)) {
      IdsGates(FlatPar(ps), c);
    }
  }

  lemma MuxGates(maps: seq<Morph>, order: seq<int>, c: Stat)
    requires IsGate(c)
    ensures Tally(Mux(maps, order), c) == TallyAll(maps, c)
  {
    hide ParOf, SeqOf, Tally, TallyAll, IsGate;
    var par, prm := ParOf(maps), PermOf(order);
    ParOfGates(maps, c);
    PermGates(order, c);
    NodeGates([], c);
    var ps, qs := if par.Id? then [] else [par], if prm.Id? then [] else [prm];
    SeqOfGates(ps + qs, c);
    TallyConcat(ps, qs, c);
    TallyOne(ps, c);
    TallyOne(qs, c);
  }

  // A product with idle wires counts what the part counts.
  lemma BesideGates(p: Morph, idle: int, c: Stat)
    requires IsGate(c)
    ensures Tally(Beside(p, idle), c) == Tally(p, c)
  {
    hide ParOf, IsGate;
    ParOfGates([p, Id(idle)], c);
    NodeGates([], c);
    assert [p, Id(idle)][1..] == [Id(idle)];
    TallyOne([Id(idle)], c);
  }

  lemma PermGates(order: seq<int>, c: Stat)
    requires IsGate(c)
    ensures Tally(PermOf(order), c) == 0
  {
  }
}
