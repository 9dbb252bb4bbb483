// What the proposing rule and its inverse are worth: both are sound, a spelled
// scan is found exactly when its step survives the spelling, and folding it
// always shrinks the term.

module LoopRules {
  import opened Morphisms
  import opened Constructors
  import opened Census
  import opened Unroll
  import opened Rewriting
  import opened LoopPropose

  // ---------------------------------------------------------------------------
  //  What a spelling contains
  // ---------------------------------------------------------------------------

  lemma {:induction false} FlatMapMember<A, B>(f: A -> seq<B>, s: seq<A>, i: nat, x: B)
    requires i < |s| && x in f(s[i])
    ensures x in FlatMap(f, s)
  {
    if i == 0 {
    } else {
      FlatMapMember(f, s[1..], i - 1, x);
    }
  }

  lemma {:induction false} FlatMapInverse<A, B>(f: A -> seq<B>, s: seq<A>, x: B)
    requires x in FlatMap(f, s)
    ensures exists i :: 0 <= i < |s| && x in f(s[i])
  {
    if x in f(s[0]) {
    } else {
      FlatMapInverse(f, s[1..], x);
      var i :| 0 <= i < |s[1..]| && x in f(s[1..][i]);
      assert x in f(s[i + 1]);
    }
  }

  lemma InsideSeqOf(ps: seq<Morph>, p: Morph)
    requires p in ps && !p.Seq?
    ensures p in Inside(SeqOf(ps))
  {
    FlatSeqHolds(ps, p, p);
    if |FlatSeq(ps)| != 1 {
      ChildInside(SeqOf(ps), p);
      InsideOfChildren(p);
    } else {
      InsideOfChildren(p);
    }
  }

  // A subterm of a composition is the composition or lies in a part.
  lemma SeqOfInside(ps: seq<Morph>, s: Morph)
    requires s in Inside(SeqOf(ps))
    ensures s == SeqOf(ps) || exists q :: q in ps && s in Inside(q)
  {
    if s != SeqOf(ps) {
      InsideChild(SeqOf(ps), s);
      var c :| c in Children(SeqOf(ps)) && s in Inside(c);
      if |FlatSeq(ps)| == 1 {
        FlatSeqInverse(ps, SeqOf(ps));
        var q :| q in ps && IsPart(SeqOf(ps), q);
        InsideOfPart(q, SeqOf(ps), s);
      } else {
        FlatSeqInverse(ps, c);
        var q :| q in ps && IsPart(c, q);
        InsideOfPart(q, c, s);
      }
    }
  }

  lemma InsideOfPart(q: Morph, c: Morph, s: Morph)
    requires IsPart(c, q)
    requires s in Inside(c)
    ensures s in Inside(q)
  {
    if c != q {
      ChildInside(q, c);
    }
  }

  // The parts the spelling of the i-th step contributes.
  lemma PlanEntry(nx: int, ny: int, n: nat, i: nat)
    requires i < n
    ensures Plan(nx, ny, n, 0)[i] == (Groups(i, ny), Groups(n - 1 - i, nx))
  {
    PlanAt(nx, ny, n, 0, i);
  }

  lemma SpelledHolds(step: Morph, n: nat, i: nat, p: Morph)
    requires i < n && !p.Seq?
    requires p in StepParts(step, In(step) - 1, Groups(i, Out(step) - 1), Groups(n - 1 - i, In(step) - 1))
    ensures p in SpelledParts(step, In(step) - 1, Out(step) - 1, n) && p in Inside(Spelled(step, n))
  {
    hide *;
    var nx, ny := In(step) - 1, Out(step) - 1;
    PlanEntry(nx, ny, n, i);
    CellIs(step, nx, Groups(i, ny), Groups(n - 1 - i, nx));
    FlatMapMember(ScanCell(step, nx), Plan(nx, ny, n, 0), i, p);
    SpelledIs(step, n);
    InsideSeqOf(SpelledParts(step, nx, ny, n), p);
  }

  lemma CellIs(step: Morph, nx: int, y: int, r: int)
    ensures ScanCell(step, nx)((y, r)) == StepParts(step, nx, y, r)
  {
    hide StepParts;
  }

  lemma SpelledIs(step: Morph, n: nat)
    ensures var nx, ny := In(step) - 1, Out(step) - 1;
      && Spelled(step, n) == SeqOf(SpelledParts(step, nx, ny, n))
      && SpelledParts(step, nx, ny, n) == Steps(ScanCell(step, nx), nx, ny, n, 0) + NonId(Fixing(n, ny))
      && Steps(ScanCell(step, nx), nx, ny, n, 0) == FlatMap(ScanCell(step, nx), Plan(nx, ny, n, 0))
  {
    hide SeqOf, FlatMap, Plan, Fixing, NonId, In, Out;
  }

  // A part of a spelling is a permutation, or the step beside idle wires.
  lemma SpelledPartIs(step: Morph, nx: int, ny: int, n: nat, p: Morph)
    requires p in SpelledParts(step, nx, ny, n)
    ensures p.Perm? || exists i :: 0 <= i < n && p == Beside(step, Groups(i, ny) + Groups(n - 1 - i, nx))
  {
    hide StepParts, Steps, Fixing, FlatMap, NonId;
    var steps := Steps(ScanCell(step, nx), nx, ny, n, 0);
    assert SpelledParts(step, nx, ny, n) == steps + NonId(Fixing(n, ny));
    if p in steps {
      var i := StepOfPart(step, nx, ny, n, p);
      StepPartIs(step, nx, Groups(i, ny), Groups(n - 1 - i, nx), p);
    } else {
      FixingIs(n, ny, p);
    }
  }

  lemma StepOfPart(step: Morph, nx: int, ny: int, n: nat, p: Morph) returns (i: nat)
    requires p in Steps(ScanCell(step, nx), nx, ny, n, 0)
    ensures i < n && p in StepParts(step, nx, Groups(i, ny), Groups(n - 1 - i, nx))
  {
    hide StepParts, FlatMap;
    FlatMapInverse(ScanCell(step, nx), Plan(nx, ny, n, 0), p);
    i :| 0 <= i < n && p in ScanCell(step, nx)(Plan(nx, ny, n, 0)[i]);
    PlanEntry(nx, ny, n, i);
  }

  lemma StepPartIs(step: Morph, nx: int, y: int, r: int, p: Morph)
    requires p in StepParts(step, nx, y, r)
    ensures p.Perm? || p == Beside(step, y + r)
  {
    hide Beside, StepOrder;
  }

  lemma FixingIs(n: nat, ny: int, p: Morph)
    requires p in NonId(Fixing(n, ny))
    ensures p.Perm?
  {
    hide BlockOrder;
  }

  // ---------------------------------------------------------------------------
  //  What a spelling counts
  // ---------------------------------------------------------------------------

  lemma CellGates(step: Morph, nx: int, y: int, r: int, c: Stat)
    requires IsGate(c)
    ensures TallyAll(StepParts(step, nx, y, r), c) == Tally(step, c)
  {
    hide Beside, PermOf, StepOrder, Tally, TallyAll, IsGate;
    var prm, body := PermOf(StepOrder(nx, y, r)), Beside(step, y + r);
    PermGates(StepOrder(nx, y, r), c);
    BesideGates(step, y + r, c);
    NodeGates([], c);
    TallyOne(NonId(prm), c);
    TallySnoc(NonId(prm), body, c);
  }

  lemma {:induction false} StepsGates(step: Morph, nx: int, ny: int, k: nat, y: int, c: Stat)
    requires IsGate(c)
    ensures TallyAll(Steps(ScanCell(step, nx), nx, ny, k, y), c) == Groups(k, Tally(step, c))
  {
    hide *;
    OneMoreGroup(k, Tally(step, c));
    if k == 0 {
      NoStepGates(step, nx, ny, y, c);
    } else {
      StepsGates(step, nx, ny, k - 1, y + ny, c);
      CellGates(step, nx, y, Groups(k - 1, nx), c);
      StepsCons(step, nx, ny, k, y);
      TallyConcat(StepParts(step, nx, y, Groups(k - 1, nx)), Steps(ScanCell(step, nx), nx, ny, k - 1, y + ny), c);
    }
  }

  lemma OneMoreGroup(k: nat, n: int)
    ensures Groups(k, n) == if k == 0 then 0 else n + Groups(k - 1, n)
  {
  }

  lemma NoStepGates(step: Morph, nx: int, ny: int, y: int, c: Stat)
    ensures Steps(ScanCell(step, nx), nx, ny, 0, y) == [] && TallyAll([], c) == 0
  {
  }

  // A spelling holds its step n times over: n times its arrows, its generators
  // and its loops, and nothing else of the kind.
  lemma SpelledCensus(step: Morph, n: nat, c: Stat)
    requires IsGate(c)
    ensures Tally(Spelled(step, n), c) == n * Tally(step, c)
  {
    hide *;
    var nx, ny := In(step) - 1, Out(step) - 1;
    var steps, closing := Steps(ScanCell(step, nx), nx, ny, n, 0), NonId(Fixing(n, ny));
    SpelledIs(step, n);
    SeqOfGates(SpelledParts(step, nx, ny, n), c);
    StepsGates(step, nx, ny, n, 0, c);
    FixingGates(n, ny, c);
    TallyConcat(steps, closing, c);
    GroupsIsProduct(n, Tally(step, c));
  }

  // A spelling is never a loop of the same step: it would hold one loop more
  // than it does, or it is a composition.
  lemma SpelledIsNoLoop(step: Morph, n: nat)
    requires IsStep(step, In(step) - 1, Out(step) - 1) && n >= 1
    ensures forall l: Morph :: l.Loop? && l.step == step ==> l != Spelled(step, n)
  {
    hide Spelled, In, Out, WF, Idle, FlatSeq, Beside;
    if n == 1 {
      SpelledCensus(step, 1, Loops);
    } else {
      var first, rest := SpelledSplit(step, n);
    }
  }

  lemma FixingGates(n: nat, ny: int, c: Stat)
    requires IsGate(c)
    ensures TallyAll(NonId(Fixing(n, ny)), c) == 0
  {
    hide BlockOrder, PermOf, Tally, TallyAll, IsGate;
    PermGates([0] + BlockOrder(n, ny), c);
    NodeGates([], c);
    TallyOne(NonId(Fixing(n, ny)), c);
  }

  // ---------------------------------------------------------------------------
  //  Soundness
  // ---------------------------------------------------------------------------

  // A step that emits no state spells no well-formed term.
  lemma StatelessSpelling(step: Morph, n: nat)
    requires In(step) >= 2 && Out(step) == 0 && n >= 2
    ensures !WF(Spelled(step, n))
  {
    hide Spelled, Inside, In, Out, WF, StepOrder, StepParts;
    var nx, r := In(step) - 1, Groups(n - 2, In(step) - 1);
    var order := StepOrder(nx, -1, r);
    StatelessPart(step, nx, r);
    assert Groups(1, -1) == -1;
    SpelledHolds(step, n, 1, Perm(order));
    if WF(Spelled(step, n)) {
      InsideWF(Spelled(step, n), Perm(order));
      assert false;
    }
  }

  // Its second step's order names the state twice.
  lemma StatelessPart(step: Morph, nx: int, r: int)
    requires nx >= 1
    ensures !WF(Perm(StepOrder(nx, -1, r))) && Perm(StepOrder(nx, -1, r)) in StepParts(step, nx, -1, r)
  {
    hide Beside;
    var order := StepOrder(nx, -1, r);
    assert order[0] == 0 && order[1] == 0;
  }

  lemma ProposeIsSound(maxN: int)
    ensures Sound(ProposeLoop(maxN))
  {
    var rule := ProposeLoop(maxN);
    forall m: Morph, f: Match | WF(m) && f in rule.find(m, rule.maxN)
      ensures Equiv(f.0, rule.build(f.1, f.2))
    {
      FoldMeansLoop(m, maxN, f);
    }
  }

  lemma FoldMeansLoop(m: Morph, maxN: int, f: Match)
    requires WF(m) && f in Folds(m, maxN)
    ensures Equiv(f.0, ToLoop(f.1, f.2))
  {
    hide Spelled, Inside, Folds, Equiv;
    FoldsExactly(m, maxN, f);
    InsideWF(m, f.0);
    InsideWF(m, f.1);
    ArityNonNegative(f.1);
    if Out(f.1) == 0 {
      StatelessSpelling(f.1, f.2);
      assert false;
    }
    UnrollRefinesLoop(f.1, In(f.1) - 1, Out(f.1) - 1, f.2);
  }

  lemma ExpandIsSound(maxN: int)
    ensures Sound(ExpandLoop(maxN))
  {
    var rule := ExpandLoop(maxN);
    forall m: Morph, f: Match | WF(m) && f in rule.find(m, rule.maxN)
      ensures Equiv(f.0, rule.build(f.1, f.2))
    {
      LoopMeansSpelling(m, maxN, f);
    }
  }

  lemma LoopMeansSpelling(m: Morph, maxN: int, f: Match)
    requires WF(m) && f in LoopsIn(m, maxN)
    ensures f.2 >= 1 && Respell(f.1, f.2) == Spelled(f.1, f.2) && Equiv(f.0, Respell(f.1, f.2))
  {
    hide Spelled, Inside, LoopsIn, Equiv;
    LoopsExactly(m, maxN, f);
    InsideWF(m, f.0);
    UnrollRefinesLoop(f.1, In(f.1) - 1, Out(f.1) - 1, f.2);
    EquivFlip(Spelled(f.1, f.2), f.0);
  }

  // ---------------------------------------------------------------------------
  //  A spelled scan is found
  // ---------------------------------------------------------------------------

  // The step is still a subterm after it has been set beside idle wires.
  predicate Survives(step: Morph) {
    !step.Id? && (step.Par? ==> Out(step) == 1 && |step.parts| >= 2 && !AllIds(step.parts))
  }

  function Idle(step: Morph, n: nat, i: nat): int
    requires i < n
  {
    Groups(i, Out(step) - 1) + Groups(n - 1 - i, In(step) - 1)
  }

  lemma {:induction false} GroupsAtLeast(n: nat, k: int)
    requires k >= 1
    ensures Groups(n, k) >= n
  {
    if n == 0 {
    } else {
      GroupsAtLeast(n - 1, k);
    }
  }

  lemma {:induction false} GroupsOfNone(n: nat)
    ensures Groups(n, 0) == 0
  {
    if n == 0 {
    } else {
      GroupsOfNone(n - 1);
    }
  }

  lemma IdlePositive(step: Morph, n: nat, i: nat)
    requires In(step) >= 2 && Out(step) >= 1 && i < n && n >= 2
    ensures Idle(step, n, i) >= 0 && (i == 0 || Out(step) >= 2 ==> Idle(step, n, i) > 0)
  {
    hide In, Out;
    GroupsAtLeast(n - 1 - i, In(step) - 1);
    if Out(step) >= 2 {
      GroupsAtLeast(i, Out(step) - 1);
    }
  }

  lemma FlatPair(p: Morph, q: Morph)
    ensures FlatPar([p, q]) == ParHead(p) + ParHead(q)
  {
    assert [p, q][1..] == [q] && [q][1..] == [];
    NilConcat(ParHead(q));
    assert FlatPar([q]) == ParHead(q);
  }

  lemma BesidePlain(step: Morph, idle: int)
    requires !step.Par? && !step.Id? && idle != 0
    ensures Beside(step, idle) == Par([step, Id(idle)])
  {
    FlatPair(step, Id(idle));
    assert FlatPar([step, Id(idle)]) == [step, Id(idle)];
    assert ![step, Id(idle)][0].Id?;
  }

  lemma BesideId(w: int, idle: int)
    requires w > 0
    ensures Beside(Id(w), idle) == Id(w + idle)
  {
    FlatPair(Id(w), Id(idle));
    assert [Id(w), Id(idle)][1..] == [Id(idle)] && [Id(idle)][1..] == [] && [Id(w)][1..] == [];
    assert ParIn([Id(idle)]) == idle;
    if idle == 0 {
      assert FlatPar([Id(w), Id(idle)]) == [Id(w)] && ParIn([Id(w)]) == w;
    } else {
      assert FlatPar([Id(w), Id(idle)]) == [Id(w), Id(idle)];
    }
  }

  lemma SurvivorInside(step: Morph, n: nat)
    requires IsStep(step, In(step) - 1, Out(step) - 1) && n >= 2 && Survives(step)
    ensures step in Inside(Spelled(step, n))
  {
    hide Spelled, Inside, Groups, In, Out, WF, Beside;
    if step.Par? {
      IdleNone(step, n);
      BesideNothing(step.parts);
      HoldsBeside(step, n, n - 1, 0);
    } else {
      IdlePositive(step, n, 0);
      var idle := Idle(step, n, 0);
      BesidePlain(step, idle);
      HoldsBeside(step, n, 0, idle);
      ChildInside(Par([step, Id(idle)]), step);
      InsideSelf(step);
      InsideTransitive(Spelled(step, n), Par([step, Id(idle)]));
    }
  }

  lemma BesideNothing(ps: seq<Morph>)
    requires |ps| >= 2 && !AllIds(ps)
    ensures Beside(Par(ps), 0) == Par(ps)
  {
    FlatPair(Par(ps), Id(0));
    NilConcat(ps);
  }

  lemma IdleNone(step: Morph, n: nat)
    requires n >= 1 && Out(step) == 1
    ensures Idle(step, n, n - 1) == 0
  {
    GroupsOfNone(n - 1);
  }

  lemma HoldsBeside(step: Morph, n: nat, i: nat, idle: int)
    requires i < n && idle == Idle(step, n, i) && !Beside(step, idle).Seq?
    ensures Beside(step, idle) in Inside(Spelled(step, n))
  {
    hide Spelled, Inside, Groups, In, Out, Beside, PermOf;
    SpelledHolds(step, n, i, Beside(step, idle));
  }

  lemma StepsCons(step: Morph, nx: int, ny: int, k: nat, y: int)
    requires k > 0
    ensures Steps(ScanCell(step, nx), nx, ny, k, y)
         == StepParts(step, nx, y, Groups(k - 1, nx)) + Steps(ScanCell(step, nx), nx, ny, k - 1, y + ny)
  {
    hide StepParts;
  }

  // Two steps or more spell a composition.
  lemma SpelledSplit(step: Morph, n: nat) returns (first: seq<Morph>, rest: seq<Morph>)
    requires IsStep(step, In(step) - 1, Out(step) - 1) && n >= 2
    ensures Spelled(step, n) == Seq(FlatSeq(first) + FlatSeq(rest)) && FlatSeq(rest) != []
    ensures Beside(step, Idle(step, n, 0)) in first
  {
    hide *;
    var nx, ny := In(step) - 1, Out(step) - 1;
    var r, more, closing := Groups(n - 1, nx), Steps(ScanCell(step, nx), nx, ny, n - 1, ny), NonId(Fixing(n, ny));
    StepFacts(step, n);
    first := StepParts(step, nx, 0, r);
    rest := more + closing;
    StepsCons(step, nx, ny, n, 0);
    ConcatAssoc(first, more, closing);
    RestNonEmpty(step, nx, ny, n - 1, closing);
    FirstHolds(step, nx, r);
    SpelledIs(step, n);
    SeqOfTwo(first, rest);
  }

  lemma StepFacts(step: Morph, n: nat)
    requires IsStep(step, In(step) - 1, Out(step) - 1) && n >= 1
    ensures In(step) >= 2 && Out(step) >= 1 && Groups(n - 1, In(step) - 1) >= 0
    ensures Idle(step, n, 0) == 0 + Groups(n - 1, In(step) - 1)
  {
    hide In, Out;
  }

  lemma SeqOfTwo(a: seq<Morph>, b: seq<Morph>)
    requires FlatSeq(a) != [] && FlatSeq(b) != []
    ensures SeqOf(a + b) == Seq(FlatSeq(a) + FlatSeq(b))
  {
    FlatSeqConcat(a, b);
  }

  lemma FirstHolds(step: Morph, nx: int, r: int)
    requires IsStep(step, nx, Out(step) - 1) && r >= 0
    ensures Beside(step, 0 + r) in StepParts(step, nx, 0, r) && FlatSeq(StepParts(step, nx, 0, r)) != []
  {
    hide Beside, StepOrder, FlatSeq;
    StepPartsAct(step, nx, 0, r);
    FlatSeqLaw(StepParts(step, nx, 0, r));
  }

  lemma RestNonEmpty(step: Morph, nx: nat, ny: nat, k: nat, closing: seq<Morph>)
    requires IsStep(step, nx, ny) && k >= 1
    ensures FlatSeq(Steps(ScanCell(step, nx), nx, ny, k, ny) + closing) != []
  {
    hide FlatSeq, StepParts, WF, In, Out;
    var steps := Steps(ScanCell(step, nx), nx, ny, k, ny);
    ScanCellGood(step, nx);
    StepsArity(ScanCell(step, nx), step, nx, ny, k, ny);
    FlatSeqLaw(steps);
    FlatSeqConcat(steps, closing);
  }

  // A step that does not survive is nowhere inside what stands for it.
  lemma LostBeside(step: Morph, idle: int)
    requires In(step) >= 2 && !Survives(step) && idle >= 0 && (Out(step) != 1 || step.Id? ==> idle > 0)
    ensures step !in Inside(Beside(step, idle))
  {
    if step.Id? {
      BesideId(step.width, idle);
    } else {
      var flat := FlatPar([step, Id(idle)]);
      FlatPair(step, Id(idle));
      if step in Inside(Beside(step, idle)) {
        if |flat| != 1 {
          InsideChild(Beside(step, idle), step);
        }
        var c :| c in flat && step in Inside(c);
        assert c in step.parts;
        ChildSmaller(step, c);
        InsideSmaller(c, step);
      }
    }
  }

  // The step of a spelling is found inside it exactly when it survives.
  lemma FoundExactly(step: Morph, n: nat)
    requires IsStep(step, In(step) - 1, Out(step) - 1) && n >= 2
    ensures step in Inside(Spelled(step, n)) <==> Survives(step)
  {
    hide Spelled, Inside, Survives, In, Out, WF;
    if Survives(step) {
      SurvivorInside(step, n);
    } else {
      LostInside(step, n);
    }
  }

  lemma LostInside(step: Morph, n: nat)
    requires IsStep(step, In(step) - 1, Out(step) - 1) && n >= 2 && !Survives(step)
    ensures step !in Inside(Spelled(step, n))
  {
    hide Spelled, Beside, Inside, In, Out, WF, FlatSeq, Idle;
    var first, rest := SpelledSplit(step, n);
    if step in Inside(Spelled(step, n)) {
      var q := PartAround(step, n);
      if q.Perm? {
        InsideOfPerm(q, step);
      } else {
        var i :| 0 <= i < n && q == Beside(step, Idle(step, n, i));
        IdlePositive(step, n, i);
        if step.Id? {
          IdIsWide(step);
        }
        LostBeside(step, Idle(step, n, i));
      }
    }
  }

  lemma IdIsWide(step: Morph)
    requires step.Id? && In(step) >= 2
    ensures Out(step) >= 2
  {
  }

  lemma InsideOfPerm(q: Morph, s: Morph)
    requires q.Perm? && s in Inside(q)
    ensures s == q
  {
  }

  lemma PartAround(step: Morph, n: nat) returns (q: Morph)
    requires step in Inside(Spelled(step, n)) && step != Spelled(step, n)
    ensures step in Inside(q) && (q.Perm? || exists i :: 0 <= i < n && q == Beside(step, Idle(step, n, i)))
  {
    hide SpelledParts, Inside, SeqOf, In, Out, Beside, Groups;
    var ps := SpelledParts(step, In(step) - 1, Out(step) - 1, n);
    SeqOfInside(ps, step);
    q :| q in ps && step in Inside(q);
    SpelledPartIs(step, In(step) - 1, Out(step) - 1, n, q);
    if !q.Perm? {
      var i :| 0 <= i < n && q == Beside(step, Groups(i, Out(step) - 1) + Groups(n - 1 - i, In(step) - 1));
      assert q == Beside(step, Idle(step, n, i));
    }
  }

  // A spelled scan is folded: the proposing rule matches it.
  lemma FoldFound(step: Morph, n: int, maxN: int)
    requires IsStep(step, In(step) - 1, Out(step) - 1) && 2 <= n <= maxN
    ensures (Spelled(step, n), step, n) in Folds(Spelled(step, n), maxN) <==> Survives(step)
  {
    hide Spelled, Inside, In, Out, Survives, WF;
    FoldsExactly(Spelled(step, n), maxN, (Spelled(step, n), step, n));
    FoundExactly(step, n);
    InsideSelf(Spelled(step, n));
  }

  // ---------------------------------------------------------------------------
  //  Folding shrinks
  // ---------------------------------------------------------------------------

  lemma BesideCost(step: Morph, idle: int)
    requires In(step) >= 2 && idle > 0 && !OnlyWires(step)
    ensures !Beside(step, idle).Seq?
    ensures Tally(Beside(step, idle), Nodes) >= Tally(step, Nodes) + if step.Id? then 0 else 1
  {
    if step.Id? {
      BesideId(step.width, idle);
    } else if step.Par? {
      FlatPair(step, Id(idle));
      var i :| 0 <= i < |step.parts| && !step.parts[i].Id?;
      assert !(step.parts + [Id(idle)])[i].Id?;
      TallySnoc(step.parts, Id(idle), Nodes);
    } else {
      BesidePlain(step, idle);
      TallySnoc([step], Id(idle), Nodes);
      assert [step] + [Id(idle)] == [step, Id(idle)] && [step][1..] == [];
    }
  }

  // A step that is not wires side by side keeps its nodes in the spelling.
  lemma LoopCheaperThanSteps(step: Morph, n: nat)
    requires IsStep(step, In(step) - 1, Out(step) - 1) && n >= 2 && !OnlyWires(step)
    ensures Tally(ToLoop(step, n), Nodes) < Tally(Spelled(step, n), Nodes)
  {
    hide Spelled, FlatSeq, Beside, In, Out, WF, Idle;
    var first, rest := SpelledSplit(step, n);
    var part := Beside(step, Idle(step, n, 0));
    IdlePositive(step, n, 0);
    BesideCost(step, Idle(step, n, 0));
    FlatSeqHolds(first, part, part);
    MemberSmaller(FlatSeq(first), part);
    NodesNonNegative(FlatSeq(rest));
    TallyConcat(FlatSeq(first), FlatSeq(rest), Nodes);
  }

  // A product of identities: beside idle wires it is one wider identity.
  predicate OnlyWires(step: Morph) {
    step.Par? && AllIds(step.parts)
  }

  lemma WiresBeside(step: Morph, idle: int)
    requires OnlyWires(step)
    ensures Beside(step, idle).Id?
  {
    FlatPair(step, Id(idle));
  }

  lemma {:induction false} FlatSeqPlain(ps: seq<Morph>)
    requires forall p :: p in ps ==> !p.Seq?
    ensures FlatSeq(ps) == ps
  {
    if ps == [] {
    } else {
      FlatSeqPlain(ps[1..]);
    }
  }

  // One spelled step of idle wires: one identity, after a permutation unless
  // nothing has been emitted yet.
  lemma WiresCell(step: Morph, nx: nat, y: nat, r: nat)
    requires OnlyWires(step) && nx >= 1
    ensures TallyAll(StepParts(step, nx, y, r), Nodes) == if y == 0 then 1 else 2
    ensures |StepParts(step, nx, y, r)| == if y == 0 then 1 else 2
  {
    hide Beside;
    WiresBeside(step, y + r);
    StepOrderMoves(nx, y, r);
    var order := StepOrder(nx, y, r);
    var last := Beside(step, y + r);
    assert [last][1..] == [];
    assert TallyAll([last], Nodes) == 1;
    if y == 0 {
      assert forall i :: 0 <= i < |order| ==> order[i] == i;
      assert StepParts(step, nx, y, r) == [last];
    } else {
      assert order[1] == y + 1;
      assert StepParts(step, nx, y, r) == [Perm(order), last];
      assert [Perm(order), last][1..] == [last];
    }
  }

  lemma NoSteps(step: Morph, nx: int, ny: int, y: int)
    ensures Steps(ScanCell(step, nx), nx, ny, 0, y) == [] && TallyAll([], Nodes) == 0
  {
  }

  lemma {:induction false} WiresSteps(step: Morph, nx: nat, ny: nat, k: nat, y: nat)
    requires OnlyWires(step) && nx >= 1 && ny >= 1
    ensures var size := if k > 0 && y == 0 then 2 * k - 1 else 2 * k;
      var ps := Steps(ScanCell(step, nx), nx, ny, k, y);
      TallyAll(ps, Nodes) == size && |ps| == size
  {
    hide *;
    if k == 0 {
      NoSteps(step, nx, ny, y);
    } else {
      WiresCell(step, nx, y, Groups(k - 1, nx));
      WiresSteps(step, nx, ny, k - 1, y + ny);
      StepsCons(step, nx, ny, k, y);
      TallyConcat(StepParts(step, nx, y, Groups(k - 1, nx)), Steps(ScanCell(step, nx), nx, ny, k - 1, y + ny), Nodes);
    }
  }

  // The closing permutation of two output blocks or more is no identity.
  lemma FixingTally(n: nat, ny: nat)
    requires n >= 2 && ny >= 1
    ensures TallyAll(NonId(Fixing(n, ny)), Nodes) == 1 && |NonId(Fixing(n, ny))| == 1
  {
    hide BlockOrder;
    var order := [0] + BlockOrder(n, ny);
    BlockOrderUnfold(n, ny);
    GroupsAtLeast(n - 1, ny);
    assert order[1] == Groups(n - 1, ny) + 1;
    assert [Perm(order)][1..] == [];
  }

  // Idle wires spell two nodes a step, and one for the composition.
  lemma WiresSpelled(step: Morph, n: nat)
    requires IsStep(step, In(step) - 1, Out(step) - 1) && n >= 2 && OnlyWires(step)
    ensures Tally(Spelled(step, n), Nodes) == 1 + 2 * n
  {
    hide Steps, Fixing, In, Out, WF, Beside;
    var nx, ny := In(step) - 1, Out(step) - 1;
    WiresAreSquare(step);
    var steps, closing := Steps(ScanCell(step, nx), nx, ny, n, 0), NonId(Fixing(n, ny));
    WiresSteps(step, nx, ny, n, 0);
    FixingTally(n, ny);
    TallyConcat(steps, closing, Nodes);
    forall p | p in SpelledParts(step, nx, ny, n)
      ensures !p.Seq?
    {
      SpelledPartIs(step, nx, ny, n, p);
      if !p.Perm? {
        var i :| 0 <= i < n && p == Beside(step, Groups(i, ny) + Groups(n - 1 - i, nx));
        WiresBeside(step, Groups(i, ny) + Groups(n - 1 - i, nx));
      }
    }
    FlatSeqPlain(SpelledParts(step, nx, ny, n));
  }

  lemma WiresAreSquare(step: Morph)
    requires OnlyWires(step)
    ensures In(step) == Out(step)
  {
    IdsArity(step.parts);
  }

  // When folding pays: always, except that idle wires must be few for the
  // number of steps.
  predicate Pays(step: Morph, n: int) {
    OnlyWires(step) ==> |step.parts| + 1 < 2 * n
  }

  // The loop has fewer nodes than the scan it stands for exactly when folding
  // pays.
  lemma LoopCheaper(step: Morph, n: nat)
    requires IsStep(step, In(step) - 1, Out(step) - 1) && n >= 2
    ensures Tally(ToLoop(step, n), Nodes) < Tally(Spelled(step, n), Nodes) <==> Pays(step, n)
  {
    hide Spelled, In, Out, WF, AllIds;
    if OnlyWires(step) {
      WiresSpelled(step, n);
      IdsTally(step.parts);
    } else {
      LoopCheaperThanSteps(step, n);
    }
  }

  lemma {:induction false} IdsTally(ps: seq<Morph>)
    requires AllIds(ps)
    ensures TallyAll(ps, Nodes) == |ps|
  {
    if ps == [] {
    } else {
      IdsTally(ps[1..]);
    }
  }

  // Folding a scan strictly lowers the cost of every term it occurs in, exactly
  // when folding pays.
  lemma FoldShrinks(m: Morph, step: Morph, n: nat)
    requires IsStep(step, In(step) - 1, Out(step) - 1) && n >= 2 && Spelled(step, n) in Inside(m)
    ensures Tally(Replace(m, Spelled(step, n), ToLoop(step, n)), Nodes) < Tally(m, Nodes) <==> Pays(step, n)
  {
    hide Spelled, Inside, In, Out, WF, ToLoop, Pays;
    var spelled, loop := Spelled(step, n), ToLoop(step, n);
    LoopCheaper(step, n);
    ReplaceCost(m, spelled, loop);
    SameSign(Hits(m, spelled), Tally(loop, Nodes) - Tally(spelled, Nodes));
  }

  lemma SameSign(k: int, d: int)
    requires k > 0
    ensures k * d < 0 <==> d < 0
  {
  }
}
