// The proposing rule and its inverse: where a spelled scan occurs, fold it to
// the bounded loop; where a loop occurs, respell it.

module LoopPropose {
  import opened Morphisms
  import opened Unroll
  import opened Rewriting

  // A matched subterm, the step it repeats, and how often.
  type Match = (Morph, Morph, int)

  // ---------------------------------------------------------------------------
  //  Finding spelled scans
  // ---------------------------------------------------------------------------

  function FoldsAt(step: Morph, n: nat, maxN: int, subs: seq<Morph>): seq<Match>
    decreases maxN - n
  {
    if n > maxN then []
    else (if Spelled(step, n) in subs then [(Spelled(step, n), step, n)] else []) + FoldsAt(step, n + 1, maxN, subs)
  }

  function FoldsOver(steps: seq<Morph>, maxN: int, subs: seq<Morph>): seq<Match> {
    if steps == [] then []
    else (if In(steps[0]) < 2 then [] else FoldsAt(steps[0], 2, maxN, subs)) + FoldsOver(steps[1..], maxN, subs)
  }

  // Every (spelled, step, n) with both the spelling and its step inside m.
  function Folds(m: Morph, maxN: int): seq<Match> {
    FoldsOver(SubtermList(m), maxN, SubtermList(m))
  }

  method FindFolds(m: Morph, maxN: int) returns (out: seq<Match>)
    ensures out == Folds(m, maxN)
  {
    var subs := ListSubterms(m);
    out := [];
    for i := 0 to |subs|
      invariant out + FoldsOver(subs[i..], maxN, subs) == Folds(m, maxN)
    {
      assert subs[i..][0] == subs[i] && subs[i..][1..] == subs[i + 1..];
      if In(subs[i]) >= 2 {
        ghost var more := FoldsOver(subs[i + 1..], maxN, subs);
        var found := FindFoldsAt(subs[i], maxN, subs);
        ConcatAssoc(out, found, more);
        out := out + found;
      } else {
        NilConcat(FoldsOver(subs[i + 1..], maxN, subs));
      }
    }
    NilConcat(out);
  }

  method FindFoldsAt(step: Morph, maxN: int, subs: seq<Morph>) returns (out: seq<Match>)
    ensures out == FoldsAt(step, 2, maxN, subs)
  {
    out := [];
    var n := 2;
    while n <= maxN
      invariant n >= 2 && out + FoldsAt(step, n, maxN, subs) == FoldsAt(step, 2, maxN, subs)
      decreases maxN - n
    {
      var spelled := Spelled(step, n);
      ghost var more := FoldsAt(step, n + 1, maxN, subs);
      if spelled in subs {
        ConcatAssoc(out, [(spelled, step, n as int)], more);
        out := out + [(spelled, step, n)];
      } else {
        NilConcat(more);
      }
      n := n + 1;
    }
    NilConcat(out);
  }

  lemma {:induction false} FoldsAtLaw(step: Morph, n: nat, maxN: int, subs: seq<Morph>, f: Match)
    ensures f in FoldsAt(step, n, maxN, subs) <==>
      f.1 == step && n <= f.2 <= maxN && f.0 == Spelled(step, f.2) && f.0 in subs
    decreases maxN - n
  {
    hide Spelled;
    if maxN < n {
    } else {
      FoldsAtLaw(step, n + 1, maxN, subs, f);
    }
  }

  lemma {:induction false} FoldsOverLaw(steps: seq<Morph>, maxN: int, subs: seq<Morph>, f: Match)
    ensures f in FoldsOver(steps, maxN, subs) <==>
      f.1 in steps && In(f.1) >= 2 && 2 <= f.2 <= maxN && f.0 == Spelled(f.1, f.2) && f.0 in subs
  {
    hide Spelled, FoldsAt, In;
    if steps == [] {
    } else {
      FoldsAtLaw(steps[0], 2, maxN, subs, f);
      FoldsOverLaw(steps[1..], maxN, subs, f);
    }
  }

  // The folds are exactly the subterms that spell a scan of a subterm.
  lemma FoldsExactly(m: Morph, maxN: int, f: Match)
    ensures f in Folds(m, maxN) <==>
      f.1 in Inside(m) && In(f.1) >= 2 && 2 <= f.2 <= maxN && f.0 == Spelled(f.1, f.2) && f.0 in Inside(m)
  {
    hide Spelled, In;
    SubtermListLaw(m);
    FoldsOverLaw(SubtermList(m), maxN, SubtermList(m), f);
  }

  // ---------------------------------------------------------------------------
  //  Finding loops
  // ---------------------------------------------------------------------------

  function LoopsOver(subs: seq<Morph>): seq<Match> {
    if subs == [] then []
    else (if subs[0].Loop? then [(subs[0], subs[0].step, subs[0].n)] else []) + LoopsOver(subs[1..])
  }

  function LoopsIn(m: Morph, maxN: int): seq<Match> {
    LoopsOver(SubtermList(m))
  }

  method FindLoops(m: Morph, maxN: int) returns (out: seq<Match>)
    ensures out == LoopsIn(m, maxN)
  {
    var subs := ListSubterms(m);
    out := [];
    for i := 0 to |subs|
      invariant out + LoopsOver(subs[i..]) == LoopsIn(m, maxN)
    {
      assert subs[i..][0] == subs[i] && subs[i..][1..] == subs[i + 1..];
      if subs[i].Loop? {
        ConcatAssoc(out, [(subs[i], subs[i].step, subs[i].n)], LoopsOver(subs[i + 1..]));
        out := out + [(subs[i], subs[i].step, subs[i].n)];
      } else {
        NilConcat(LoopsOver(subs[i + 1..]));
      }
    }
    NilConcat(out);
  }

  lemma {:induction false} LoopsOverLaw(subs: seq<Morph>, f: Match)
    ensures f in LoopsOver(subs) <==> f.0 in subs && f.0.Loop? && f.1 == f.0.step && f.2 == f.0.n
  {
    if subs == [] {
    } else {
      LoopsOverLaw(subs[1..], f);
    }
  }

  lemma LoopsExactly(m: Morph, maxN: int, f: Match)
    ensures f in LoopsIn(m, maxN) <==> f.0 in Inside(m) && f.0.Loop? && f.1 == f.0.step && f.2 == f.0.n
  {
    SubtermListLaw(m);
    LoopsOverLaw(SubtermList(m), f);
  }

  predicate LoopHeaded(m: Morph) {
    exists s :: s in Inside(m) && s.Loop?
  }

  // ---------------------------------------------------------------------------
  //  Rules
  // ---------------------------------------------------------------------------

  datatype CombRule = CombRule(
    name: string,
    find: (Morph, int) -> seq<Match>,
    build: (Morph, int) -> Morph,
    maxN: int)

  function ToLoop(step: Morph, n: int): Morph {
    Loop(step, n, In(step) - 1, Out(step) - 1)
  }

  // A loop spelled out again; on a well-formed loop the guard of the spelling
  // never fails.
  function Respell(step: Morph, n: int): Morph {
    if n < 1 || In(step) < 2 then ToLoop(step, n) else Spelled(step, n)
  }

  function ProposeLoop(maxN: int): CombRule {
    CombRule("loop_propose", Folds, ToLoop, maxN)
  }

  function ExpandLoop(maxN: int): CombRule {
    CombRule("loop_expand", LoopsIn, Respell, maxN)
  }

  function RewritesOver(found: seq<Match>, build: (Morph, int) -> Morph, m: Morph): seq<Morph> {
    if found == [] then []
    else
      var (matched, step, n) := found[0];
      (if build(step, n) == matched then [] else [Replace(m, matched, build(step, n))])
      + RewritesOver(found[1..], build, m)
  }

  function Rewrites(rule: CombRule, m: Morph): seq<Morph> {
    RewritesOver(rule.find(m, rule.maxN), rule.build, m)
  }

  method ApplyRule(rule: CombRule, m: Morph) returns (out: seq<Morph>)
    ensures out == Rewrites(rule, m)
  {
    var found := rule.find(m, rule.maxN);
    out := [];
    for i := 0 to |found|
      invariant out + RewritesOver(found[i..], rule.build, m) == Rewrites(rule, m)
    {
      assert found[i..][0] == found[i] && found[i..][1..] == found[i + 1..];
      var (matched, step, n) := found[i];
      var fold := rule.build(step, n);
      ghost var more := RewritesOver(found[i + 1..], rule.build, m);
      if fold != matched {
        ConcatAssoc(out, [Replace(m, matched, fold)], more);
        out := out + [Replace(m, matched, fold)];
      } else {
        NilConcat(more);
      }
    }
    NilConcat(out);
  }

  lemma {:induction false} RewritesOverLaw(found: seq<Match>, build: (Morph, int) -> Morph, m: Morph, t: Morph)
    ensures t in RewritesOver(found, build, m) <==>
      exists f :: f in found && build(f.1, f.2) != f.0 && t == Replace(m, f.0, build(f.1, f.2))
  {
    if found == [] {
    } else {
      RewritesOverLaw(found[1..], build, m, t);
    }
  }

  // A rule is sound when whatever it matches in a well-formed term means what
  // it builds.
  ghost predicate Sound(rule: CombRule) {
    forall m: Morph, f: Match :: WF(m) && f in rule.find(m, rule.maxN) ==> Equiv(f.0, rule.build(f.1, f.2))
  }

  lemma RewriteSound(rule: CombRule, m: Morph, t: Morph)
    requires Sound(rule) && WF(m) && t in Rewrites(rule, m)
    ensures Equiv(m, t)
  {
    hide Equiv, WF, Replace, RewritesOver;
    RewritesOverLaw(rule.find(m, rule.maxN), rule.build, m, t);
    var f :| f in rule.find(m, rule.maxN) && t == Replace(m, f.0, rule.build(f.1, f.2));
    ReplaceSound(m, f.0, rule.build(f.1, f.2));
  }
}
