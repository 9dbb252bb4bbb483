// One rewiring of a live context: duplicate or drop each wire as its uses
// demand, then permute the requested wires to the front.

module Gather {
  import opened Terms
  import opened Morphisms
  import opened Constructors
  import opened Census

  // A wire after fan-out: requested copies are marked true, the copy that
  // stays live is marked false.
  type Slot = (Term, bool)

  function Rep<T>(x: T, n: nat): (r: seq<T>)
    ensures |r| == n && forall i :: 0 <= i < n ==> r[i] == x
  {
    seq(n, _ => x)
  }

  // ---------------------------------------------------------------------------
  //  Fan-out
  // ---------------------------------------------------------------------------

  function CopiesOf(w: Term, use: multiset<Term>, keep: set<Term>): nat {
    use[w] + if w in keep then 1 else 0
  }

  function Copies(ctx: seq<Term>, use: multiset<Term>, keep: set<Term>): (r: seq<nat>)
    ensures |r| == |ctx|
    ensures forall i :: 0 <= i < |ctx| ==> r[i] == CopiesOf(ctx[i], use, keep)
  {
    seq(|ctx|, i requires 0 <= i < |ctx| => CopiesOf(ctx[i], use, keep))
  }

  function FanMap(c: nat): Morph {
    if c == 0 then Drop else if c == 1 then Id(1) else Dup(c)
  }

  function FanMaps(copies: seq<nat>): (r: seq<Morph>)
    ensures |r| == |copies| && forall i :: 0 <= i < |copies| ==> r[i] == FanMap(copies[i])
  {
    seq(|copies|, i requires 0 <= i < |copies| => FanMap(copies[i]))
  }

  // The bundle after fan-out.
  function FanOut<T>(ws: seq<T>, copies: seq<nat>): seq<T>
    requires |ws| == |copies|
  {
    if ws == [] then [] else Rep(ws[0], copies[0]) + FanOut(ws[1..], copies[1..])
  }

  lemma {:induction false} FanArity<T>(ws: seq<T>, copies: seq<nat>)
    requires |ws| == |copies|
    ensures PerWire(FanMaps(copies)) && ParIn(FanMaps(copies)) == |ws|
    ensures ParOut(FanMaps(copies)) == |FanOut(ws, copies)|
  {
    if ws == [] {
    } else {
      assert FanMaps(copies)[1..] == FanMaps(copies[1..]);
      FanArity(ws[1..], copies[1..]);
      assert forall i :: 1 <= i < |copies| ==> FanMaps(copies)[i] == FanMaps(copies[1..])[i - 1];
    }
  }

  lemma {:induction false} FanApply(ws: seq<Term>, copies: seq<nat>, tail: seq<Term>)
    requires |ws| == |copies|
    ensures AllWF(FanMaps(copies)) && ParIn(FanMaps(copies)) == |ws|
    ensures ApplyPar(FanMaps(copies), ws + tail) == FanOut(ws, copies) + tail
  {
    FanArity(ws, copies);
    if ws == [] {
      assert ws + tail == tail;
    } else {
      FanApply(ws[1..], copies[1..], tail);
      FanArity(ws[1..], copies[1..]);
      assert FanMaps(copies) == [FanMap(copies[0])] + FanMaps(copies[1..]);
      ConsTail(ws, tail);
      ConcatAssoc(Rep(ws[0], copies[0]), FanOut(ws[1..], copies[1..]), tail);
      ParCons(FanMap(copies[0]), FanMaps(copies[1..]), [ws[0]], ws[1..] + tail);
      FanMapApply(ws[0], copies[0]);
    }
  }

  lemma ConsTail<T>(s: seq<T>, t: seq<T>)
    requires s != []
    ensures s + t == [s[0]] + (s[1..] + t)
    ensures (s + t)[0] == s[0] && (s + t)[1..] == s[1..] + t
  {
  }

  lemma FanMapApply(w: Term, c: nat)
    ensures Apply(FanMap(c), [w]) == Rep(w, c)
  {
  }

  lemma {:induction false} FanSubst(ctx: seq<Term>, copies: seq<nat>, env: map<Term, Term>)
    requires |ctx| == |copies|
    ensures SubstAll(FanOut(ctx, copies), env) == FanOut(SubstAll(ctx, env), copies)
  {
    if ctx == [] {
    } else {
      FanSubst(ctx[1..], copies[1..], env);
      SubstAllConcat(Rep(ctx[0], copies[0]), FanOut(ctx[1..], copies[1..]), env);
      assert SubstAll(Rep(ctx[0], copies[0]), env) == Rep(Subst(ctx[0], env), copies[0]);
    }
  }

  function Zeros(copies: seq<nat>): nat {
    if copies == [] then 0 else (if copies[0] == 0 then 1 else 0) + Zeros(copies[1..])
  }

  // Fan-out grows the bundle by the extra copies it mints, less the wires it
  // drops; it mints no arrow, no generator and no loop.
  lemma {:induction false} FanTally<T>(ws: seq<T>, copies: seq<nat>)
    requires |ws| == |copies|
    ensures TallyAll(FanMaps(copies), DupCopies) - TallyAll(FanMaps(copies), Dups) - TallyAll(FanMaps(copies), Drops)
         == |FanOut(ws, copies)| - |ws|
    ensures TallyAll(FanMaps(copies), Drops) == Zeros(copies)
    ensures TallyAll(FanMaps(copies), DupCopies) >= 2 * TallyAll(FanMaps(copies), Dups)
    ensures TallyAll(FanMaps(copies), Arrs) == TallyAll(FanMaps(copies), Loops) == 0
    ensures forall c :: IsMint(c) ==> TallyAll(FanMaps(copies), c) == 0
  {
    if ws == [] {
    } else {
      hide Tally, FanMap;
      FanMapTally(copies[0]);
      assert FanMaps(copies)[1..] == FanMaps(copies[1..]);
      FanTally(ws[1..], copies[1..]);
    }
  }

  lemma FanMapTally(c: nat)
    ensures Tally(FanMap(c), DupCopies) - Tally(FanMap(c), Dups) - Tally(FanMap(c), Drops) == c - 1
    ensures Tally(FanMap(c), Drops) == if c == 0 then 1 else 0
    ensures Tally(FanMap(c), DupCopies) >= 2 * Tally(FanMap(c), Dups)
    ensures Tally(FanMap(c), Arrs) == Tally(FanMap(c), Loops) == 0
    ensures forall k :: IsMint(k) ==> Tally(FanMap(c), k) == 0
  {
  }

  // ---------------------------------------------------------------------------
  //  Slots
  // ---------------------------------------------------------------------------

  function Piece(w: Term, use: multiset<Term>, keep: set<Term>): seq<Slot> {
    Rep((w, true), use[w]) + if w in keep then [(w, false)] else []
  }

  function Slots(ctx: seq<Term>, use: multiset<Term>, keep: set<Term>): seq<Slot> {
    if ctx == [] then [] else Piece(ctx[0], use, keep) + Slots(ctx[1..], use, keep)
  }

  lemma {:induction false} SlotsSnoc(ctx: seq<Term>, w: Term, use: multiset<Term>, keep: set<Term>)
    ensures Slots(ctx + [w], use, keep) == Slots(ctx, use, keep) + Piece(w, use, keep)
  {
    if ctx == [] {
      assert ctx + [w] == [w] && [w][1..] == [];
    } else {
      assert (ctx + [w])[1..] == ctx[1..] + [w];
      SlotsSnoc(ctx[1..], w, use, keep);
    }
  }

  function Names(slots: seq<Slot>): (r: seq<Term>)
    ensures |r| == |slots| && forall i :: 0 <= i < |slots| ==> r[i] == slots[i].0
  {
    seq(|slots|, i requires 0 <= i < |slots| => slots[i].0)
  }

  lemma NamesConcat(s: seq<Slot>, t: seq<Slot>)
    ensures Names(s + t) == Names(s) + Names(t)
  {
  }

  // The terms carrying the given mark, in slot order.
  function Marked(slots: seq<Slot>, mark: bool): seq<Term> {
    if slots == [] then []
    else (if slots[0].1 == mark then [slots[0].0] else []) + Marked(slots[1..], mark)
  }

  lemma {:induction false} MarkedConcat(s: seq<Slot>, t: seq<Slot>, mark: bool)
    ensures Marked(s + t, mark) == Marked(s, mark) + Marked(t, mark)
  {
    if s == [] {
      assert s + t == t;
    } else {
      MarkedConcat(s[1..], t, mark);
      ConsTail(s, t);
      ConcatAssoc(if s[0].1 == mark then [s[0].0] else [], Marked(s[1..], mark), Marked(t, mark));
    }
  }

  // The wires of a context that a set keeps, in order.
  function Kept(ctx: seq<Term>, keep: set<Term>): seq<Term> {
    if ctx == [] then [] else (if ctx[0] in keep then [ctx[0]] else []) + Kept(ctx[1..], keep)
  }

  lemma {:induction false} KeptMembers(ctx: seq<Term>, keep: set<Term>)
    requires Distinct(ctx)
    ensures forall x :: x in Kept(ctx, keep) <==> x in ctx && x in keep
    ensures Distinct(Kept(ctx, keep))
  {
    if ctx == [] {
    } else {
      KeptMembers(ctx[1..], keep);
      assert forall x :: x in ctx <==> x == ctx[0] || x in ctx[1..];
    }
  }

  lemma {:induction false} MarkedRep(w: Term, n: nat)
    ensures Marked(Rep((w, true), n), true) == Rep(w, n)
    ensures Marked(Rep((w, true), n), false) == []
  {
    if n == 0 {
    } else {
      MarkedRep(w, n - 1);
      assert Rep((w, true), n)[1..] == Rep((w, true), n - 1);
      assert Rep(w, n) == [w] + Rep(w, n - 1);
    }
  }

  lemma PieceMarked(w: Term, use: multiset<Term>, keep: set<Term>)
    ensures Marked(Piece(w, use, keep), true) == Rep(w, use[w])
    ensures Marked(Piece(w, use, keep), false) == if w in keep then [w] else []
    ensures Names(Piece(w, use, keep)) == Rep(w, CopiesOf(w, use, keep))
  {
    var live: seq<Slot> := if w in keep then [(w, false)] else [];
    MarkedRep(w, use[w]);
    MarkedConcat(Rep((w, true), use[w]), live, false);
    MarkedConcat(Rep((w, true), use[w]), live, true);
    assert live != [] ==> live[1..] == [];
  }

  // The live slots are the kept wires.
  lemma {:induction false} SlotsLive(ctx: seq<Term>, use: multiset<Term>, keep: set<Term>)
    ensures Marked(Slots(ctx, use, keep), false) == Kept(ctx, keep)
  {
    if ctx == [] {
    } else {
      SlotsLive(ctx[1..], use, keep);
      PieceMarked(ctx[0], use, keep);
      MarkedConcat(Piece(ctx[0], use, keep), Slots(ctx[1..], use, keep), false);
    }
  }

  // Each wire of the context is requested as often as it is used.
  lemma {:induction false} SlotsRequested(ctx: seq<Term>, use: multiset<Term>, keep: set<Term>)
    requires Distinct(ctx)
    ensures forall x :: multiset(Marked(Slots(ctx, use, keep), true))[x] == if x in ctx then use[x] else 0
  {
    if ctx == [] {
    } else {
      SlotsRequested(ctx[1..], use, keep);
      PieceMarked(ctx[0], use, keep);
      RepCount(ctx[0], use[ctx[0]]);
      MarkedConcat(Piece(ctx[0], use, keep), Slots(ctx[1..], use, keep), true);
      assert forall x :: x in ctx <==> x == ctx[0] || x in ctx[1..];
    }
  }

  // The slots carry the fanned-out context.
  lemma {:induction false} SlotsNames(ctx: seq<Term>, use: multiset<Term>, keep: set<Term>)
    ensures Names(Slots(ctx, use, keep)) == FanOut(ctx, Copies(ctx, use, keep))
  {
    if ctx == [] {
    } else {
      SlotsNames(ctx[1..], use, keep);
      PieceMarked(ctx[0], use, keep);
      assert Copies(ctx, use, keep)[1..] == Copies(ctx[1..], use, keep);
      NamesConcat(Piece(ctx[0], use, keep), Slots(ctx[1..], use, keep));
    }
  }

  lemma {:induction false} RepCount(w: Term, n: nat)
    ensures forall x :: multiset(Rep(w, n))[x] == if x == w then n else 0
  {
    if n == 0 {
    } else {
      RepCount(w, n - 1);
      assert Rep(w, n) == [w] + Rep(w, n - 1);
    }
  }

  // ---------------------------------------------------------------------------
  //  Arranging the slots
  // ---------------------------------------------------------------------------

  // Where a slot value stands, in increasing order.
  function Positions(slots: seq<Slot>, x: Slot): seq<int> {
    if slots == [] then []
    else
      var n := |slots| - 1;
      Positions(slots[..n], x) + if slots[n] == x then [n] else []
  }

  lemma {:induction false} PositionsLaw(slots: seq<Slot>, x: Slot)
    ensures |Positions(slots, x)| == multiset(slots)[x]
    ensures forall i :: 0 <= i < |Positions(slots, x)| ==>
              0 <= Positions(slots, x)[i] < |slots| && slots[Positions(slots, x)[i]] == x
    ensures forall i, j :: 0 <= i < j < |Positions(slots, x)| ==> Positions(slots, x)[i] < Positions(slots, x)[j]
  {
    if slots == [] {
    } else {
      var n := |slots| - 1;
      PositionsLaw(slots[..n], x);
      assert slots == slots[..n] + [slots[n]];
    }
  }

  function LivePositions(slots: seq<Slot>): seq<int> {
    if slots == [] then []
    else
      var n := |slots| - 1;
      LivePositions(slots[..n]) + if slots[n].1 then [] else [n]
  }

  lemma {:induction false} LivePositionsLaw(slots: seq<Slot>)
    ensures var live := LivePositions(slots);
      && |live| == |Marked(slots, false)|
      && (forall i :: 0 <= i < |live| ==>
            0 <= live[i] < |slots| && slots[live[i]] == (Marked(slots, false)[i], false))
      && Distinct(live)
  {
    if slots == [] {
    } else {
      var n := |slots| - 1;
      LivePositionsLaw(slots[..n]);
      assert slots == slots[..n] + [slots[n]] && [slots[n]][1..] == [];
      MarkedConcat(slots[..n], [slots[n]], false);
    }
  }

  lemma {:induction false} MarkedCount(slots: seq<Slot>)
    ensures |Marked(slots, true)| + |Marked(slots, false)| == |slots|
    ensures forall x :: multiset(slots)[(x, true)] == multiset(Marked(slots, true))[x]
  {
    if slots == [] {
    } else {
      assert slots == [slots[0]] + slots[1..];
      MarkedCount(slots[1..]);
    }
  }

  // How often a wire occurs among the first j requests.
  function Served(wanted: seq<Term>, j: nat, w: Term): nat
    requires j <= |wanted|
  {
    if j == 0 then 0 else Served(wanted, j - 1, w) + if wanted[j - 1] == w then 1 else 0
  }

  lemma {:induction false} ServedCount(wanted: seq<Term>, j: nat, w: Term)
    requires j <= |wanted|
    ensures Served(wanted, j, w) == multiset(wanted[..j])[w]
  {
    if j == 0 {
    } else {
      ServedCount(wanted, j - 1, w);
      assert wanted[..j] == wanted[..j - 1] + [wanted[j - 1]];
    }
  }

  lemma {:induction false} ServedGrows(wanted: seq<Term>, i: nat, j: nat, w: Term)
    requires i <= j <= |wanted|
    ensures Served(wanted, i, w) <= Served(wanted, j, w)
    decreases j
  {
    if j <= i {
    } else {
      ServedGrows(wanted, i, j - 1, w);
    }
  }

  lemma RequestRank(slots: seq<Slot>, wanted: seq<Term>, j: nat)
    requires j < |wanted| && multiset(Marked(slots, true)) == multiset(wanted)
    ensures Served(wanted, j, wanted[j]) < |Positions(slots, (wanted[j], true))|
  {
    PositionsLaw(slots, (wanted[j], true));
    MarkedCount(slots);
    ServedGrows(wanted, j + 1, |wanted|, wanted[j]);
    ServedCount(wanted, |wanted|, wanted[j]);
    assert wanted[..|wanted|] == wanted;
  }

  // The position of the j-th request: the next unused copy of that wire.
  ghost function Choice(slots: seq<Slot>, wanted: seq<Term>, j: nat): int
    requires j < |wanted| && multiset(Marked(slots, true)) == multiset(wanted)
  {
    RequestRank(slots, wanted, j);
    Positions(slots, (wanted[j], true))[Served(wanted, j, wanted[j])]
  }

  // The order serves the requests in request order, then the live slots in
  // slot order, and is a permutation of the slots.
  ghost predicate Arranges(slots: seq<Slot>, wanted: seq<Term>, order: seq<int>) {
    var live := Marked(slots, false);
    && IsPerm(order) && |order| == |slots| == |wanted| + |live|
    && (forall j :: 0 <= j < |wanted| ==> slots[order[j]] == (wanted[j], true))
    && (forall j :: |wanted| <= j < |order| ==> slots[order[j]] == (live[j - |wanted|], false))
  }

  lemma ChoicesDiffer(slots: seq<Slot>, wanted: seq<Term>, i: nat, j: nat)
    requires multiset(Marked(slots, true)) == multiset(wanted)
    requires i < j < |wanted|
    ensures Choice(slots, wanted, i) != Choice(slots, wanted, j)
  {
    hide Positions, Served, Marked;
    RequestRank(slots, wanted, i);
    RequestRank(slots, wanted, j);
    PositionsLaw(slots, (wanted[i], true));
    PositionsLaw(slots, (wanted[j], true));
    ServedNext(wanted, i);
    ServedGrows(wanted, i + 1, j, wanted[i]);
  }

  lemma ServedNext(wanted: seq<Term>, i: nat)
    requires i < |wanted|
    ensures Served(wanted, i + 1, wanted[i]) == Served(wanted, i, wanted[i]) + 1
  {
  }

  lemma ArrangementHolds(slots: seq<Slot>, wanted: seq<Term>, order: seq<int>)
    requires multiset(Marked(slots, true)) == multiset(wanted)
    requires |order| == |wanted| + |LivePositions(slots)|
    requires forall j :: 0 <= j < |wanted| ==> order[j] == Choice(slots, wanted, j)
    requires forall j :: |wanted| <= j < |order| ==> order[j] == LivePositions(slots)[j - |wanted|]
    ensures Arranges(slots, wanted, order)
  {
    LivePositionsLaw(slots);
    MarkedCount(slots);
    assert |Marked(slots, true)| == |multiset(Marked(slots, true))| == |multiset(wanted)| == |wanted|;
    forall j | 0 <= j < |wanted|
      ensures 0 <= order[j] < |slots| && slots[order[j]] == (wanted[j], true)
    {
      RequestRank(slots, wanted, j);
      PositionsLaw(slots, (wanted[j], true));
    }
    forall i, j | 0 <= i < j < |order|
      ensures order[i] != order[j]
    {
      if j < |wanted| {
        ChoicesDiffer(slots, wanted, i, j);
      } else if i >= |wanted| {
        assert LivePositions(slots)[i - |wanted|] != LivePositions(slots)[j - |wanted|];
      }
    }
  }

  function Queue(queues: map<Term, seq<int>>, w: Term): seq<int> {
    if w in queues then queues[w] else []
  }

  // Queue the requested copies of each wire by slot position.
  method QueueSlots(slots: seq<Slot>) returns (queues: map<Term, seq<int>>)
    ensures forall w :: Queue(queues, w) == Positions(slots, (w, true))
  {
    queues := map[];
    for i := 0 to |slots|
      invariant forall w :: Queue(queues, w) == Positions(slots[..i], (w, true))
    {
      assert slots[..i + 1][..i] == slots[..i];
      if slots[i].1 {
        queues := queues[slots[i].0 := Queue(queues, slots[i].0) + [i]];
      }
    }
    assert slots[..|slots|] == slots;
  }

  // The copies of a wire that the first j requests leave in its queue.
  ghost function Unserved(slots: seq<Slot>, wanted: seq<Term>, j: nat, w: Term): seq<int>
    requires j <= |wanted|
  {
    var all, served := Positions(slots, (w, true)), Served(wanted, j, w);
    if served <= |all| then all[served..] else []
  }

  ghost predicate Pending(slots: seq<Slot>, wanted: seq<Term>, j: nat, queues: map<Term, seq<int>>)
    requires j <= |wanted|
  {
    forall w :: Queue(queues, w) == Unserved(slots, wanted, j, w)
  }

  ghost predicate Chosen(slots: seq<Slot>, wanted: seq<Term>, order: seq<int>)
    requires multiset(Marked(slots, true)) == multiset(wanted)
  {
    |order| <= |wanted| && forall k :: 0 <= k < |order| ==> order[k] == Choice(slots, wanted, k)
  }

  lemma ChosenSnoc(slots: seq<Slot>, wanted: seq<Term>, order: seq<int>, next: int)
    requires multiset(Marked(slots, true)) == multiset(wanted)
    requires Chosen(slots, wanted, order) && |order| < |wanted| && next == Choice(slots, wanted, |order|)
    ensures Chosen(slots, wanted, order + [next])
  {
    hide Choice, Marked;
  }

  lemma ServeOne(slots: seq<Slot>, wanted: seq<Term>, j: nat, queues: map<Term, seq<int>>)
    requires multiset(Marked(slots, true)) == multiset(wanted) && j < |wanted|
    requires Pending(slots, wanted, j, queues)
    ensures var queue := Queue(queues, wanted[j]);
      && queue != [] && queue[0] == Choice(slots, wanted, j)
      && Pending(slots, wanted, j + 1, queues[wanted[j] := queue[1..]])
  {
    RequestRank(slots, wanted, j);
    assert Queue(queues, wanted[j]) == Unserved(slots, wanted, j, wanted[j]);
    var after := queues[wanted[j] := Queue(queues, wanted[j])[1..]];
    forall w
      ensures Queue(after, w) == Unserved(slots, wanted, j + 1, w)
    {
      if w != wanted[j] {
        assert Queue(after, w) == Queue(queues, w);
      }
    }
  }

  // Serve each request from the front of its wire's queue.
  method ServeRequests(slots: seq<Slot>, wanted: seq<Term>, filled: map<Term, seq<int>>) returns (order: seq<int>)
    requires multiset(Marked(slots, true)) == multiset(wanted)
    requires forall w :: Queue(filled, w) == Positions(slots, (w, true))
    ensures |order| == |wanted| && Chosen(slots, wanted, order)
  {
    var queues := filled;
    order := [];
    for j := 0 to |wanted|
      invariant |order| == j
      invariant Pending(slots, wanted, j, queues)
      invariant Chosen(slots, wanted, order)
    {
      ServeOne(slots, wanted, j, queues);
      var queue := Queue(queues, wanted[j]);
      ChosenSnoc(slots, wanted, order, queue[0]);
      order := order + [queue[0]];
      queues := queues[wanted[j] := queue[1..]];
    }
  }

  method ListLive(slots: seq<Slot>) returns (live: seq<int>)
    ensures live == LivePositions(slots)
  {
    live := [];
    for i := 0 to |slots|
      invariant live == LivePositions(slots[..i])
    {
      assert slots[..i + 1][..i] == slots[..i];
      if !slots[i].1 {
        live := live + [i];
      }
    }
    assert slots[..|slots|] == slots;
  }

  // The requested copies in request order, then the live wires.
  method Arrange(slots: seq<Slot>, wanted: seq<Term>) returns (order: seq<int>)
    requires multiset(Marked(slots, true)) == multiset(wanted)
    ensures Arranges(slots, wanted, order)
  {
    hide Positions, LivePositions, Marked, Served, Choice, Arranges;
    var queues := QueueSlots(slots);
    var served := ServeRequests(slots, wanted, queues);
    var live := ListLive(slots);
    order := served + live;
    ArrangementHolds(slots, wanted, order);
  }

  // ---------------------------------------------------------------------------
  //  The rewiring
  // ---------------------------------------------------------------------------

  // Fan-out followed by the arrangement puts the requested wires in request
  // order in front of the kept wires, whatever the wires carry.
  lemma RewireApply(ctx: seq<Term>, use: multiset<Term>, keep: set<Term>, wanted: seq<Term>,
                    order: seq<int>, env: map<Term, Term>, tail: seq<Term>)
    requires Arranges(Slots(ctx, use, keep), wanted, order)
    ensures var feed := Mux(FanMaps(Copies(ctx, use, keep)), order);
      && WF(feed) && In(feed) == |ctx| && Out(feed) == |order| == |wanted| + |Kept(ctx, keep)|
      && Apply(feed, SubstAll(ctx, env) + tail) == SubstAll(wanted + Kept(ctx, keep), env) + tail
  {
    var slots, copies, vals := Slots(ctx, use, keep), Copies(ctx, use, keep), SubstAll(ctx, env);
    SlotsLive(ctx, use, keep);
    SlotsNames(ctx, use, keep);
    FanArity(vals, copies);
    FanApply(vals, copies, tail);
    FanSubst(ctx, copies, env);
    var fanned := FanOut(vals, copies);
    assert fanned == SubstAll(Names(slots), env);
    MuxApply(FanMaps(copies), order, vals + tail);
    assert (fanned + tail)[|order|..] == tail;
    RearrangedSubst(slots, wanted, order, env, tail);
  }

  lemma RearrangedSubst(slots: seq<Slot>, wanted: seq<Term>, order: seq<int>, env: map<Term, Term>, tail: seq<Term>)
    requires Arranges(slots, wanted, order)
    ensures Reindex(order, SubstAll(Names(slots), env) + tail) == SubstAll(wanted + Marked(slots, false), env)
  {
    hide Marked, Subst, IsPerm;
    var bundle, live := SubstAll(Names(slots), env) + tail, Marked(slots, false);
    ArrangedBounds(slots, wanted, order);
    var lhs, rhs := Reindex(order, bundle), SubstAll(wanted + live, env);
    forall j | 0 <= j < |order|
      ensures lhs[j] == rhs[j]
    {
      assert bundle[order[j]] == Subst(slots[order[j]].0, env);
      JoinedAt(wanted, live, j);
    }
  }

  lemma ArrangedBounds(slots: seq<Slot>, wanted: seq<Term>, order: seq<int>)
    requires Arranges(slots, wanted, order)
    ensures |order| == |slots| && forall j :: 0 <= j < |order| ==> 0 <= order[j] < |slots|
  {
    hide Marked;
  }

  lemma JoinedAt<T>(a: seq<T>, b: seq<T>, j: int)
    requires 0 <= j < |a + b|
    ensures (a + b)[j] == if j < |a| then a[j] else b[j - |a|]
  {
  }
}
