// The term-level saturation: a worklist search over rewrites that keeps every
// term it has met, and the cheapest.

module Saturation {
  import opened Wrappers
  import opened Morphisms
  import opened Census
  import opened Unroll
  import opened Rewriting
  import opened LoopPropose
  import opened LoopRules

  // ---------------------------------------------------------------------------
  //  What the rules can reach
  // ---------------------------------------------------------------------------

  ghost predicate OneStep(rules: seq<CombRule>, a: Morph, b: Morph) {
    exists k :: 0 <= k < |rules| && b in Rewrites(rules[k], a)
  }

  ghost predicate Chain(rules: seq<CombRule>, p: seq<Morph>) {
    p != [] && forall i :: 0 < i < |p| ==> OneStep(rules, p[i - 1], p[i])
  }

  ghost predicate Reaches(rules: seq<CombRule>, a: Morph, b: Morph) {
    exists p :: Chain(rules, p) && p[0] == a && p[|p| - 1] == b
  }

  lemma ReachesSelf(rules: seq<CombRule>, a: Morph)
    ensures Reaches(rules, a, a)
  {
    assert Chain(rules, [a]);
  }

  lemma ReachesStep(rules: seq<CombRule>, a: Morph, b: Morph, c: Morph)
    requires Reaches(rules, a, b) && OneStep(rules, b, c)
    ensures Reaches(rules, a, c)
  {
    hide OneStep;
    var p :| Chain(rules, p) && p[0] == a && p[|p| - 1] == b;
    var q := p + [c];
    forall i | 0 < i < |q|
      ensures OneStep(rules, q[i - 1], q[i])
    {
      if i < |p| {
        assert q[i - 1] == p[i - 1] && q[i] == p[i];
      }
    }
    assert Chain(rules, q);
  }

  ghost predicate ClosedUnder(rules: seq<CombRule>, seen: set<Morph>) {
    forall t :: t in seen ==> Expanded(rules, seen, t)
  }

  ghost predicate Expanded(rules: seq<CombRule>, seen: set<Morph>, t: Morph) {
    forall u :: OneStep(rules, t, u) ==> u in seen
  }

  // A closed set holds everything reachable from its members.
  lemma ClosedHoldsAll(rules: seq<CombRule>, seen: set<Morph>, a: Morph, b: Morph)
    requires ClosedUnder(rules, seen) && a in seen && Reaches(rules, a, b)
    ensures b in seen
  {
    hide OneStep;
    var p :| Chain(rules, p) && p[0] == a && p[|p| - 1] == b;
    for i := 0 to |p| - 1
      invariant p[i] in seen
    {
      assert OneStep(rules, p[i], p[i + 1]);
      assert Expanded(rules, seen, p[i]);
    }
  }

  // Sound rules reach only terms that mean what they started from.
  lemma ReachesSound(rules: seq<CombRule>, a: Morph, b: Morph)
    requires forall k :: 0 <= k < |rules| ==> Sound(rules[k])
    requires WF(a) && Reaches(rules, a, b)
    ensures Equiv(a, b)
  {
    hide OneStep, Equiv, Sound, WF;
    var p :| Chain(rules, p) && p[0] == a && p[|p| - 1] == b;
    EquivSame(a);
    for i := 0 to |p| - 1
      invariant Equiv(a, p[i])
    {
      assert OneStep(rules, p[i], p[i + 1]);
      EquivParts(a, p[i]);
      StepSound(rules, p[i], p[i + 1]);
      EquivChain(a, p[i], p[i + 1]);
    }
  }

  lemma StepSound(rules: seq<CombRule>, a: Morph, b: Morph)
    requires forall k :: 0 <= k < |rules| ==> Sound(rules[k])
    requires WF(a) && OneStep(rules, a, b)
    ensures Equiv(a, b)
  {
    hide Equiv, Sound, WF, Rewrites;
    var k :| 0 <= k < |rules| && b in Rewrites(rules[k], a);
    RewriteSound(rules[k], a, b);
  }

  // ---------------------------------------------------------------------------
  //  The tally of firings
  // ---------------------------------------------------------------------------

  ghost function Total(m: map<string, int>): int {
    if m == map[] then 0
    else
      var k :| k in m;
      m[k] + Total(m - {k})
  }

  lemma {:induction false} TotalRemove(m: map<string, int>, k: string)
    requires k in m
    ensures Total(m) == m[k] + Total(m - {k})
    decreases m.Keys
  {
    var j :| j in m && Total(m) == m[j] + Total(m - {j});
    if j == k {
    } else {
      TotalRemove(m - {j}, k);
      TotalRemove(m - {k}, j);
      assert m - {j} - {k} == m - {k} - {j};
    }
  }

  lemma TotalBump(m: map<string, int>, k: string)
    requires k in m
    ensures Total(m[k := m[k] + 1]) == Total(m) + 1
  {
    TotalRemove(m, k);
    TotalRemove(m[k := m[k] + 1], k);
    assert m[k := m[k] + 1] - {k} == m - {k};
  }

  lemma {:induction false} TotalZero(m: map<string, int>)
    requires forall k :: k in m ==> m[k] == 0
    ensures Total(m) == 0
    decreases m.Keys
  {
    if m == map[] {
    } else {
      var k :| k in m && Total(m) == m[k] + Total(m - {k});
      TotalZero(m - {k});
    }
  }

  // ---------------------------------------------------------------------------
  //  The search
  // ---------------------------------------------------------------------------

  datatype Search = Search(
    seen: set<Morph>,
    work: seq<Morph>,
    fired: map<string, int>,
    best: Morph,
    bestCost: int,
    loopBest: Option<Morph>,
    loopBestCost: Option<int>)
  {
    // The cheapest term met so far.
    ghost predicate Best(cost: Morph -> int) {
      best in seen && bestCost == cost(best) && forall t :: t in seen ==> bestCost <= cost(t)
    }

    // The cheapest term with a loop, the seed never counted.
    ghost predicate BestLoop(seed: Morph, cost: Morph -> int) {
      match loopBest
      case None => loopBestCost == None && forall t :: t in seen && t != seed ==> !LoopHeaded(t)
      case Some(b) =>
        && b in seen && b != seed && LoopHeaded(b) && loopBestCost == Some(cost(b))
        && forall t :: t in seen && t != seed && LoopHeaded(t) ==> cost(b) <= cost(t)
    }

    ghost predicate Consistent(seed: Morph, rules: seq<CombRule>, cost: Morph -> int) {
      && seed in seen && (forall t :: t in work ==> t in seen)
      && (forall t :: t in seen ==> Reaches(rules, seed, t))
      && Best(cost) && BestLoop(seed, cost) && (bestCost == cost(seed) ==> best == seed)
      && (forall k :: 0 <= k < |rules| ==> rules[k].name in fired)
      && Total(fired) == |seen| - 1
    }
  }

  // Terms met stay met, and every new one is put on the worklist.
  ghost predicate Grew(s: Search, r: Search) {
    && s.seen <= r.seen && s.fired.Keys <= r.fired.Keys
    && (forall u :: u in r.seen ==> u in s.seen || u in r.work)
    && (forall u :: u in s.work ==> u in r.work)
    && (r.seen == s.seen ==> r.work == s.work)
  }

  lemma GrewMore(s: Search, q: Search, r: Search)
    requires Grew(s, q) && Grew(q, r)
    ensures Grew(s, r)
  {
  }

  // ---------------------------------------------------------------------------
  //  Who found what
  // ---------------------------------------------------------------------------

  // The terms first met through a rule of that name.
  function CreditsOf(via: map<Morph, string>, name: string): set<Morph> {
    set t | t in via && via[t] == name
  }

  // Every term met but the seed is credited to a rule that rewrites a met term
  // to it, and each rule name has fired once for each term credited to it.
  ghost predicate Credited(seen: set<Morph>, fired: map<string, int>, seed: Morph, rules: seq<CombRule>, via: map<Morph, string>) {
    && via.Keys == seen - {seed}
    && (forall t :: t in via ==> Found(seen, rules, t, via[t]))
    && (forall k :: 0 <= k < |rules| ==> rules[k].name in fired)
    && forall name :: name in fired ==> fired[name] == |CreditsOf(via, name)|
  }

  ghost predicate Found(seen: set<Morph>, rules: seq<CombRule>, t: Morph, name: string) {
    exists k, u :: 0 <= k < |rules| && rules[k].name == name && u in seen && t in Rewrites(rules[k], u)
  }

  lemma FoundLater(seen: set<Morph>, more: set<Morph>, rules: seq<CombRule>, t: Morph, name: string)
    requires Found(seen, rules, t, name) && seen <= more
    ensures Found(more, rules, t, name)
  {
    hide Rewrites;
    var k, u :| 0 <= k < |rules| && rules[k].name == name && u in seen && t in Rewrites(rules[k], u);
    assert u in more;
  }

  lemma FoundNow(seen: set<Morph>, rules: seq<CombRule>, k: nat, u: Morph, t: Morph)
    requires k < |rules| && u in seen && t in Rewrites(rules[k], u)
    ensures Found(seen, rules, t, rules[k].name)
  {
  }

  lemma CreditsGrow(via: map<Morph, string>, u: Morph, name: string, other: string)
    requires u !in via
    ensures |CreditsOf(via[u := name], other)| == |CreditsOf(via, other)| + if other == name then 1 else 0
  {
    var before, after := CreditsOf(via, other), CreditsOf(via[u := name], other);
    assert after == before + if other == name then {u} else {};
  }

  lemma CreditOne(seen: set<Morph>, fired: map<string, int>, seed: Morph, rules: seq<CombRule>, via: map<Morph, string>,
                  k: nat, t: Morph, u: Morph)
    requires Credited(seen, fired, seed, rules, via) && seed in seen && u !in seen
    requires k < |rules| && t in seen && u in Rewrites(rules[k], t)
    ensures rules[k].name in fired
    ensures var name := rules[k].name;
      Credited(seen + {u}, fired[name := fired[name] + 1], seed, rules, via[u := name])
  {
    hide Rewrites, Found, CreditsOf;
    var name, more := rules[k].name, seen + {u};
    var via2 := via[u := name];
    assert via2.Keys == via.Keys + {u} == more - {seed};
    FoundNow(more, rules, k, t, u);
    forall x | x in via2
      ensures Found(more, rules, x, via2[x])
    {
      if x != u {
        FoundLater(seen, more, rules, x, via[x]);
      }
    }
    forall other | other in fired
      ensures |CreditsOf(via2, other)| == |CreditsOf(via, other)| + if other == name then 1 else 0
    {
      CreditsGrow(via, u, name, other);
    }
  }

  lemma NoCredits(seed: Morph, rules: seq<CombRule>, fired: map<string, int>)
    requires (forall k :: 0 <= k < |rules| ==> rules[k].name in fired) && forall k :: k in fired ==> fired[k] == 0
    ensures Credited({seed}, fired, seed, rules, map[])
  {
    hide Found;
    forall name | name in fired
      ensures CreditsOf(map[], name) == {}
    {
    }
  }

  // Take up one rewrite, unless it has been met.
  method Admit(s: Search, u: Morph, t: Morph, rules: seq<CombRule>, k: nat, cost: Morph -> int,
               ghost seed: Morph, ghost via: map<Morph, string>) returns (r: Search, ghost credit: map<Morph, string>)
    requires s.Consistent(seed, rules, cost) && Reaches(rules, seed, u) && Credited(s.seen, s.fired, seed, rules, via)
    requires k < |rules| && t in s.seen && u in Rewrites(rules[k], t)
    ensures r.Consistent(seed, rules, cost) && Grew(s, r) && r.seen == s.seen + {u}
    ensures Credited(r.seen, r.fired, seed, rules, credit)
  {
    hide Reaches, LoopHeaded, Total, Search.Best, Search.BestLoop, Grew, Credited, Rewrites;
    GrewSame(s);
    if u in s.seen {
      assert s.seen + {u} == s.seen;
      return s, via;
    }
    var name := rules[k].name;
    CreditOne(s.seen, s.fired, seed, rules, via, k, t, u);
    TotalBump(s.fired, name);
    var c := cost(u);
    var cheaper := c < s.bestCost;
    var firstLoop := LoopHeaded(u) && (s.loopBestCost == None || c < s.loopBestCost.value);
    r := Search(
      s.seen + {u}, s.work + [u], s.fired[name := s.fired[name] + 1],
      if cheaper then u else s.best, if cheaper then c else s.bestCost,
      if firstLoop then Some(u) else s.loopBest, if firstLoop then Some(c) else s.loopBestCost);
    credit := via[u := name];
    AdmitBest(s, r, u, cost);
    AdmitSeed(s, r, u, cost, seed);
    AdmitLoop(s, r, u, cost, seed);
    AdmitGrew(s, r, u);
  }

  lemma GrewSame(s: Search)
    ensures Grew(s, s)
  {
  }

  lemma AdmitGrew(s: Search, r: Search, u: Morph)
    requires u !in s.seen && r.seen == s.seen + {u} && r.work == s.work + [u] && s.fired.Keys <= r.fired.Keys
    ensures Grew(s, r)
  {
    assert u in r.work;
  }

  lemma AdmitBest(s: Search, r: Search, u: Morph, cost: Morph -> int)
    requires s.Best(cost) && r.seen == s.seen + {u}
    requires if cost(u) < s.bestCost then r.best == u && r.bestCost == cost(u) else r.best == s.best && r.bestCost == s.bestCost
    ensures r.Best(cost)
  {
  }

  // A term displaces the seed only by being cheaper.
  lemma AdmitSeed(s: Search, r: Search, u: Morph, cost: Morph -> int, seed: Morph)
    requires s.Best(cost) && seed in s.seen && (s.bestCost == cost(seed) ==> s.best == seed)
    requires if cost(u) < s.bestCost then r.best == u && r.bestCost == cost(u) else r.best == s.best && r.bestCost == s.bestCost
    ensures r.bestCost == cost(seed) ==> r.best == seed
  {
  }

  lemma AdmitLoop(s: Search, r: Search, u: Morph, cost: Morph -> int, seed: Morph)
    requires s.BestLoop(seed, cost) && r.seen == s.seen + {u} && u != seed
    requires
      if LoopHeaded(u) && (s.loopBestCost == None || cost(u) < s.loopBestCost.value)
      then r.loopBest == Some(u) && r.loopBestCost == Some(cost(u))
      else r.loopBest == s.loopBest && r.loopBestCost == s.loopBestCost
    ensures r.BestLoop(seed, cost)
  {
    hide LoopHeaded;
  }

  // One rule at one term.
  method Fire(s: Search, t: Morph, rules: seq<CombRule>, k: nat, cost: Morph -> int,
              ghost seed: Morph, ghost via: map<Morph, string>) returns (r: Search, ghost credit: map<Morph, string>)
    requires k < |rules| && s.Consistent(seed, rules, cost) && t in s.seen
    requires Credited(s.seen, s.fired, seed, rules, via)
    ensures r.Consistent(seed, rules, cost) && Grew(s, r) && Credited(r.seen, r.fired, seed, rules, credit)
    ensures forall u :: u in Rewrites(rules[k], t) ==> u in r.seen
  {
    hide Reaches, OneStep, Rewrites, Search.Best, Search.BestLoop, Total, Credited;
    var found := ApplyRule(rules[k], t);
    r, credit := s, via;
    for j := 0 to |found|
      invariant r.Consistent(seed, rules, cost) && Grew(s, r) && Credited(r.seen, r.fired, seed, rules, credit)
      invariant forall i :: 0 <= i < j ==> found[i] in r.seen
    {
      StepBy(rules, k, t, found[j]);
      ReachesStep(rules, seed, t, found[j]);
      ghost var q := r;
      r, credit := Admit(r, found[j], t, rules, k, cost, seed, credit);
      GrewMore(s, q, r);
    }
  }

  lemma StepBy(rules: seq<CombRule>, k: nat, t: Morph, u: Morph)
    requires k < |rules| && u in Rewrites(rules[k], t)
    ensures OneStep(rules, t, u)
  {
  }

  // Every rule at one term.
  method Expand(s: Search, t: Morph, rules: seq<CombRule>, cost: Morph -> int,
                ghost seed: Morph, ghost via: map<Morph, string>) returns (r: Search, ghost credit: map<Morph, string>)
    requires s.Consistent(seed, rules, cost) && t in s.seen && Credited(s.seen, s.fired, seed, rules, via)
    ensures r.Consistent(seed, rules, cost) && Grew(s, r) && Expanded(rules, r.seen, t)
    ensures Credited(r.seen, r.fired, seed, rules, credit)
  {
    hide Reaches, Rewrites, Search.Consistent, Credited;
    r, credit := s, via;
    for k := 0 to |rules|
      invariant r.Consistent(seed, rules, cost) && Grew(s, r) && Credited(r.seen, r.fired, seed, rules, credit)
      invariant forall i, u :: 0 <= i < k && u in Rewrites(rules[i], t) ==> u in r.seen
    {
      ghost var q := r;
      r, credit := Fire(r, t, rules, k, cost, seed, credit);
      GrewMore(s, q, r);
    }
  }

  datatype Report = Report(
    best: Morph,
    cost: int,
    loopReachable: bool,
    loopBest: Option<Morph>,
    loopBestCost: Option<int>,
    nTerms: nat,
    fired: map<string, int>)

  ghost predicate Frontier(s: Search, rules: seq<CombRule>) {
    forall t :: t in s.seen ==> t in s.work || Expanded(rules, s.seen, t)
  }

  lemma FrontierMoves(s: Search, t: Morph, rest: seq<Morph>, r: Search, rules: seq<CombRule>)
    requires Frontier(s, rules) && s.work == rest + [t] && Expanded(rules, r.seen, t)
    requires Grew(s.(work := rest), r)
    ensures Frontier(r, rules)
  {
    hide OneStep;
    forall u | u in r.seen
      ensures u in r.work || Expanded(rules, r.seen, u)
    {
      if u in s.work && u != t {
        assert u in rest;
      }
    }
  }

  // Rewrite the seed to a fixpoint, or until too many terms have been met.
  method SaturateComb(seed: Morph, rules: seq<CombRule>, cost: Morph -> int, maxTerms: int)
    returns (r: Report, ghost seen: set<Morph>, ghost via: map<Morph, string>)
    ensures seed in seen && forall t :: t in seen ==> Reaches(rules, seed, t)
    ensures r.nTerms == |seen| && Total(r.fired) == r.nTerms - 1
    ensures Credited(seen, r.fired, seed, rules, via)
    ensures r.best in seen && r.cost == cost(r.best) && forall t :: t in seen ==> r.cost <= cost(t)
    ensures r.cost == cost(seed) ==> r.best == seed
    ensures r.loopReachable <==> exists t :: t in seen && t != seed && LoopHeaded(t)
    ensures r.loopReachable <==> r.loopBest.Some?
    ensures r.loopReachable ==>
      && r.loopBest.value in seen && r.loopBest.value != seed && LoopHeaded(r.loopBest.value)
      && r.loopBestCost == Some(cost(r.loopBest.value))
      && forall t :: t in seen && t != seed && LoopHeaded(t) ==> cost(r.loopBest.value) <= cost(t)
    ensures r.nTerms < maxTerms ==> forall t :: Reaches(rules, seed, t) ==> t in seen
    ensures maxTerms > 1 ==> Expanded(rules, seen, seed)
  {
    hide Reaches, OneStep, LoopHeaded, Total, Credited;
    ReachesSelf(rules, seed);
    var fired := map k | 0 <= k < |rules| :: rules[k].name := 0;
    TotalZero(fired);
    via := map[];
    NoCredits(seed, rules, fired);
    var s := Search({seed}, [seed], fired, seed, cost(seed), None, None);
    while s.work != [] && |s.seen| < maxTerms
      invariant s.Consistent(seed, rules, cost) && Frontier(s, rules) && Credited(s.seen, s.fired, seed, rules, via)
      invariant (s.work == [seed] && s.seen == {seed}) || Expanded(rules, s.seen, seed)
      decreases maxTerms - |s.seen|, |s.work|
    {
      s, via := Turn(s, rules, cost, seed, via);
    }
    seen := s.seen;
    Exhausted(s, seed, rules, maxTerms);
    r := Report(s.best, s.bestCost, s.loopBest.Some?, s.loopBest, s.loopBestCost, |s.seen|, s.fired);
  }

  // Take the next term off the worklist and expand it.
  method Turn(s: Search, rules: seq<CombRule>, cost: Morph -> int, ghost seed: Morph, ghost via: map<Morph, string>)
    returns (r: Search, ghost credit: map<Morph, string>)
    requires s.work != [] && s.Consistent(seed, rules, cost) && Frontier(s, rules)
    requires Credited(s.seen, s.fired, seed, rules, via)
    ensures Credited(r.seen, r.fired, seed, rules, credit)
    ensures r.Consistent(seed, rules, cost) && Frontier(r, rules) && s.seen <= r.seen
    ensures |r.seen| > |s.seen| || (|r.seen| == |s.seen| && |r.work| < |s.work|)
    ensures (s.work == [seed] || Expanded(rules, s.seen, seed)) ==> Expanded(rules, r.seen, seed)
  {
    hide Reaches, OneStep, LoopHeaded, Total, Credited;
    var t, rest := s.work[|s.work| - 1], s.work[..|s.work| - 1];
    assert s.work == rest + [t];
    r, credit := Expand(s.(work := rest), t, rules, cost, seed, via);
    FrontierMoves(s, t, rest, r, rules);
    SubsetGrows(s.seen, r.seen);
  }

  lemma SubsetGrows<T>(a: set<T>, b: set<T>)
    requires a <= b
    ensures a == b || |a| < |b|
  {
    if a != b {
      assert b == a + (b - a);
      assert b - a != {};
    }
  }

  lemma Exhausted(s: Search, seed: Morph, rules: seq<CombRule>, maxTerms: int)
    requires seed in s.seen && Frontier(s, rules) && !(s.work != [] && |s.seen| < maxTerms)
    ensures |s.seen| < maxTerms ==> forall t :: Reaches(rules, seed, t) ==> t in s.seen
  {
    hide Reaches, OneStep;
    if |s.seen| < maxTerms {
      forall t | Reaches(rules, seed, t)
        ensures t in s.seen
      {
        ClosedHoldsAll(rules, s.seen, seed, t);
      }
    }
  }

  // ---------------------------------------------------------------------------
  //  The two rules together
  // ---------------------------------------------------------------------------

  function CombCost(m: Morph): int {
    Tally(m, Nodes)
  }

  function BothRules(): seq<CombRule> {
    [ProposeLoop(8), ExpandLoop(8)]
  }

  lemma BothSound()
    ensures forall k :: 0 <= k < |BothRules()| ==> Sound(BothRules()[k])
  {
    hide Sound;
    ProposeIsSound(8);
    ExpandIsSound(8);
  }

  // Saturation with both rules returns a term that means what the seed means
  // and costs no more than any term it met.
  method SaturateLoops(m: Morph, maxTerms: int)
    returns (r: Report, ghost seen: set<Morph>, ghost via: map<Morph, string>)
    requires WF(m)
    ensures m in seen && r.best in seen && forall t :: t in seen ==> Equiv(m, t) && r.cost <= CombCost(t)
    ensures r.cost == CombCost(r.best) <= CombCost(m)
    ensures r.nTerms < maxTerms ==> forall t :: Reaches(BothRules(), m, t) ==> t in seen
    ensures r.loopReachable <==> exists t :: t in seen && t != m && LoopHeaded(t)
    ensures maxTerms > 1 ==> forall t :: FoldsTo(m, t) || RespellsTo(m, t) ==> t in seen
    ensures r.nTerms < maxTerms ==> forall s, t :: s in seen && (FoldsTo(s, t) || RespellsTo(s, t)) ==> t in seen
    ensures Credited(seen, r.fired, m, BothRules(), via)
  {
    hide Reaches, Sound, LoopHeaded, Equiv, WF, BothRules, Expanded, Credited, FoldsTo, RespellsTo, OneStep;
    r, seen, via := SaturateComb(m, BothRules(), CombCost, maxTerms);
    forall t | t in seen
      ensures Equiv(m, t) && WF(t)
    {
      BothSound();
      ReachesSound(BothRules(), m, t);
      EquivWF(m, t);
    }
    forall s, t | s in seen && (FoldsTo(s, t) || RespellsTo(s, t))
      ensures r.nTerms < maxTerms || (maxTerms > 1 && s == m) ==> t in seen
    {
      StepsExactly(s, t);
      if r.nTerms < maxTerms {
        ReachesStep(BothRules(), m, s, t);
      }
      if maxTerms > 1 && s == m {
        ExpandedHolds(BothRules(), seen, m, t);
      }
    }
  }

  lemma EquivWF(a: Morph, b: Morph)
    requires Equiv(a, b)
    ensures WF(b)
  {
    hide Apply, WF, In, Out;
  }

  lemma ExpandedHolds(rules: seq<CombRule>, seen: set<Morph>, t: Morph, u: Morph)
    requires Expanded(rules, seen, t) && OneStep(rules, t, u)
    ensures u in seen
  {
  }

  // A spelled scan inside a term folded into the loop of its step.
  ghost predicate FoldsTo(m: Morph, t: Morph) {
    exists step, n: nat ::
      && 2 <= n <= 8 && In(step) >= 2 && step in Inside(m) && Spelled(step, n) in Inside(m)
      && t == Replace(m, Spelled(step, n), Loop(step, n, In(step) - 1, Out(step) - 1))
  }

  // A loop inside a term spelled out.
  ghost predicate RespellsTo(m: Morph, t: Morph) {
    exists l :: l in Inside(m) && l.Loop? && l.n >= 0 && t == Replace(m, l, Spelled(l.step, l.n))
  }

  // The two rules rewrite a well-formed term by folding a spelled scan in it or
  // by spelling out a loop in it, and in no other way.
  lemma StepsExactly(m: Morph, t: Morph)
    requires WF(m)
    ensures OneStep(BothRules(), m, t) <==> FoldsTo(m, t) || RespellsTo(m, t)
  {
    hide *;
    FoldRewrites(m, t);
    LoopRewrites(m, t);
    BothSteps(m, t);
  }

  lemma BothSteps(m: Morph, t: Morph)
    ensures OneStep(BothRules(), m, t) <==> t in Rewrites(ProposeLoop(8), m) || t in Rewrites(ExpandLoop(8), m)
  {
    hide Rewrites, ProposeLoop, ExpandLoop;
    assert BothRules()[0] == ProposeLoop(8) && BothRules()[1] == ExpandLoop(8);
  }

  lemma FoldRewrites(m: Morph, t: Morph)
    requires WF(m)
    ensures t in Rewrites(ProposeLoop(8), m) <==> FoldsTo(m, t)
  {
    hide Spelled, In, Out, WF, Inside, Replace, Folds;
    var rule := ProposeLoop(8);
    RewritesOverLaw(Folds(m, 8), rule.build, m, t);
    if t in Rewrites(rule, m) {
      var f :| f in Folds(m, 8) && rule.build(f.1, f.2) != f.0 && t == Replace(m, f.0, rule.build(f.1, f.2));
      FoldsExactly(m, 8, f);
      assert rule.build(f.1, f.2) == Loop(f.1, f.2, In(f.1) - 1, Out(f.1) - 1);
    }
    if FoldsTo(m, t) {
      var step, n: nat :| 2 <= n <= 8 && In(step) >= 2 && step in Inside(m) && Spelled(step, n) in Inside(m)
        && t == Replace(m, Spelled(step, n), Loop(step, n, In(step) - 1, Out(step) - 1));
      var f: Match := (Spelled(step, n), step, n);
      FoldsExactly(m, 8, f);
      FoldIsNew(m, step, n);
      assert rule.build(f.1, f.2) == ToLoop(step, n);
    }
  }

  lemma FoldIsNew(m: Morph, step: Morph, n: nat)
    requires WF(m) && 2 <= n <= 8 && In(step) >= 2 && step in Inside(m) && Spelled(step, n) in Inside(m)
    ensures ToLoop(step, n) != Spelled(step, n)
  {
    hide Spelled, In, Out, Inside;
    InsideWF(m, step);
    InsideWF(m, Spelled(step, n));
    ArityNonNegative(step);
    if Out(step) == 0 {
      StatelessSpelling(step, n);
      assert false;
    }
    SpelledIsNoLoop(step, n);
  }

  lemma LoopRewrites(m: Morph, t: Morph)
    requires WF(m)
    ensures t in Rewrites(ExpandLoop(8), m) <==> RespellsTo(m, t)
  {
    hide Spelled, In, Out, WF, Inside, Replace, LoopsIn, Respell;
    var rule := ExpandLoop(8);
    RewritesOverLaw(LoopsIn(m, 8), rule.build, m, t);
    if t in Rewrites(rule, m) {
      var f :| f in LoopsIn(m, 8) && rule.build(f.1, f.2) != f.0 && t == Replace(m, f.0, rule.build(f.1, f.2));
      LoopsExactly(m, 8, f);
      LoopMeansSpelling(m, 8, f);
      assert rule.build(f.1, f.2) == Respell(f.1, f.2) == Spelled(f.0.step, f.0.n);
    }
    if RespellsTo(m, t) {
      var l :| l in Inside(m) && l.Loop? && l.n >= 0 && t == Replace(m, l, Spelled(l.step, l.n));
      var f: Match := (l, l.step, l.n);
      LoopsExactly(m, 8, f);
      LoopMeansSpelling(m, 8, f);
      LoopIsStep(m, l);
      SpelledIsNoLoop(l.step, l.n);
      assert rule.build(f.1, f.2) == Respell(f.1, f.2);
    }
  }

  lemma LoopIsStep(m: Morph, l: Morph)
    requires WF(m) && l in Inside(m) && l.Loop?
    ensures l.n >= 1 && IsStep(l.step, In(l.step) - 1, Out(l.step) - 1)
  {
    hide Inside;
    InsideWF(m, l);
  }

  // The loop is one fold away from its spelling.
  lemma LoopIsRewrite(step: Morph, n: int)
    requires IsStep(step, In(step) - 1, Out(step) - 1) && 2 <= n <= 8 && Survives(step)
    ensures FoldsTo(Spelled(step, n), ToLoop(step, n))
  {
    hide Spelled, In, Out, WF, Inside, Survives;
    FoundExactly(step, n);
    InsideSelf(Spelled(step, n));
    assert ToLoop(step, n) == Replace(Spelled(step, n), Spelled(step, n), ToLoop(step, n));
  }

  lemma SurvivorCheap(step: Morph)
    requires Survives(step)
    ensures forall n :: Pays(step, n)
  {
  }

  // Started at a spelled scan, the search finds a term no dearer than the
  // loop, and the loop is strictly cheaper than the spelling.
  method SaturateScan(step: Morph, n: int, maxTerms: int) returns (r: Report)
    requires IsStep(step, In(step) - 1, Out(step) - 1) && 2 <= n <= 8 && Survives(step) && maxTerms > 1
    ensures Equiv(Spelled(step, n), r.best)
    ensures r.cost == CombCost(r.best) <= CombCost(ToLoop(step, n)) < CombCost(Spelled(step, n))
    ensures r.loopReachable
  {
    hide Reaches, Spelled, Sound, Equiv, WF, In, Out, BothRules, Survives;
    UnrollRefinesLoop(step, In(step) - 1, Out(step) - 1, n);
    EquivParts(Spelled(step, n), Loop(step, n, In(step) - 1, Out(step) - 1));
    ghost var seen;
    ghost var via;
    r, seen, via := SaturateLoops(Spelled(step, n), maxTerms);
    LoopIsRewrite(step, n);
    SurvivorCheap(step);
    LoopCheaper(step, n);
    LoopIsHeaded(step, n);
  }

  lemma LoopIsHeaded(step: Morph, n: int)
    ensures LoopHeaded(ToLoop(step, n))
  {
    assert ToLoop(step, n) in Inside(ToLoop(step, n));
  }
}
