// The concat-tree emitter: a tree over wire positions compiled, node by node,
// into a morphism that reshuffles one bundle in place.

module ConcatTree {
  import opened Terms
  import opened Morphisms
  import opened Constructors
  import opened Census
  import opened Unroll

  // A concat skeleton: concat nodes over indexed leaves and verbatim terms.
  datatype Tree = Node(kids: seq<Tree>) | At(i: int) | Verbatim(term: Term)

  function Leaves(t: Tree): seq<Tree> {
    match t
    case Node(kids) => LeavesAll(kids)
    case _ => [t]
  }

  function LeavesAll(ts: seq<Tree>): seq<Tree> {
    if ts == [] then [] else Leaves(ts[0]) + LeavesAll(ts[1..])
  }

  // The concat nodes of a tree.
  function Concats(t: Tree): nat {
    match t
    case Node(kids) => 1 + ConcatsAll(kids)
    case _ => 0
  }

  function ConcatsAll(ts: seq<Tree>): nat {
    if ts == [] then 0 else Concats(ts[0]) + ConcatsAll(ts[1..])
  }

  // The leaves are positions in a bundle of n wires, each used once.
  predicate Wired(leaves: seq<Tree>, n: int) {
    Distinct(leaves) && forall i :: 0 <= i < |leaves| ==> leaves[i].At? && 0 <= leaves[i].i < n
  }

  // The leaves read into the bundle.
  predicate Fits(t: Tree, n: int) {
    match t
    case Node(kids) => FitsAll(kids, n)
    case At(i) => 0 <= i < n
    case Verbatim(_) => true
  }

  predicate FitsAll(ts: seq<Tree>, n: int) {
    if ts == [] then true else Fits(ts[0], n) && FitsAll(ts[1..], n)
  }

  // The term a tree stands for over a bundle.
  function Rebuild(t: Tree, w: seq<Term>): Term
    requires Fits(t, |w|)
  {
    match t
    case Node(kids) => Op("concat", RebuildAll(kids, w), ConcatAttrs())
    case At(i) => w[i]
    case Verbatim(term) => term
  }

  function RebuildAll(ts: seq<Tree>, w: seq<Term>): (r: seq<Term>)
    requires FitsAll(ts, |w|)
    ensures |r| == |ts|
    ensures forall i :: 0 <= i < |ts| ==> Fits(ts[i], |w|) && r[i] == Rebuild(ts[i], w)
  {
    if ts == [] then [] else [Rebuild(ts[0], w)] + RebuildAll(ts[1..], w)
  }

  lemma {:induction false} WiredFits(t: Tree, n: int)
    requires Wired(Leaves(t), n)
    ensures Fits(t, n)
    decreases t, 0
  {
    if t.Node? {
      WiredFitsAll(t.kids, n);
    } else {
      assert Leaves(t)[0] == t;
    }
  }

  lemma {:induction false} WiredFitsAll(ts: seq<Tree>, n: int)
    requires Wired(LeavesAll(ts), n)
    ensures FitsAll(ts, n)
    decreases ts, 0
  {
    if ts == [] {
    } else {
      WiredParts(Leaves(ts[0]), LeavesAll(ts[1..]), n);
      WiredFits(ts[0], n);
      WiredFitsAll(ts[1..], n);
    }
  }

  lemma WiredParts(a: seq<Tree>, b: seq<Tree>, n: int)
    requires Wired(a + b, n)
    ensures Wired(a, n) && Wired(b, n)
    ensures forall x :: x in a ==> x !in b
  {
    var s := a + b;
    assert forall i :: 0 <= i < |a| ==> a[i] == s[i];
    assert forall i :: 0 <= i < |b| ==> b[i] == s[|a| + i];
  }

  // ---------------------------------------------------------------------------
  //  Positions of the children, then of everything else
  // ---------------------------------------------------------------------------

  // A wire of the consumed bundle, or a node already emitted.
  datatype Item = Wire(i: int) | Made(k: int)

  function IndexOf(bundle: seq<Item>, x: Item): (i: int)
    requires x in bundle
    ensures 0 <= i < |bundle| && bundle[i] == x
  {
    if bundle[0] == x then 0 else 1 + IndexOf(bundle[1..], x)
  }

  function IndicesOf(bundle: seq<Item>, xs: seq<Item>): (r: seq<int>)
    requires forall i :: 0 <= i < |xs| ==> xs[i] in bundle
    ensures |r| == |xs|
    ensures forall i :: 0 <= i < |xs| ==> 0 <= r[i] < |bundle| && bundle[r[i]] == xs[i]
  {
    seq(|xs|, i requires 0 <= i < |xs| => IndexOf(bundle, xs[i]))
  }

  // The positions below n that are not listed, in order.
  function Others(pos: seq<int>, n: nat): (r: seq<int>)
    ensures forall i :: 0 <= i < |r| ==> 0 <= r[i] < n && r[i] !in pos
    ensures forall j :: 0 <= j < n && j !in pos ==> j in r
    ensures Distinct(r)
  {
    if n == 0 then [] else Others(pos, n - 1) + if n - 1 in pos then [] else [n - 1]
  }

  lemma {:induction false} OthersCount(pos: seq<int>, n: nat)
    requires Distinct(pos) && Within(pos, n)
    ensures |pos| + |Others(pos, n)| == n
  {
    var s := set i | i in pos && i < n;
    OthersSize(pos, n, s);
    SizeOfDistinct(pos, s);
  }

  lemma {:induction false} OthersSize(pos: seq<int>, n: nat, s: set<int>)
    requires forall i :: i in s <==> i in pos && 0 <= i < n
    ensures |s| + |Others(pos, n)| == n
    decreases n
  {
    if n > 0 {
      OthersSize(pos, n - 1, s - {n - 1});
    } else {
      assert forall i :: i !in s;
    }
  }

  lemma {:induction false} SizeOfDistinct(pos: seq<int>, s: set<int>)
    requires Distinct(pos) && forall i :: i in s <==> i in pos
    ensures |s| == |pos|
    decreases |pos|
  {
    if pos == [] {
      assert forall i :: i !in s;
    } else {
      assert pos[0] in pos;
      SizeOfDistinct(pos[1..], s - {pos[0]});
    }
  }

  lemma FrontThenRestIsPerm(pos: seq<int>, n: nat)
    requires Distinct(pos) && Within(pos, n)
    ensures IsPerm(pos + Others(pos, n)) && |pos + Others(pos, n)| == n
  {
    OthersCount(pos, n);
  }

  lemma IndicesDistinct(bundle: seq<Item>, xs: seq<Item>)
    requires Distinct(xs) && forall i :: 0 <= i < |xs| ==> xs[i] in bundle
    ensures Distinct(IndicesOf(bundle, xs)) && Within(IndicesOf(bundle, xs), |bundle|)
  {
  }

  // ---------------------------------------------------------------------------
  //  The bundle's terms
  // ---------------------------------------------------------------------------

  ghost predicate Known(bundle: seq<Item>, trees: map<Item, Tree>, n: nat) {
    forall i :: 0 <= i < |bundle| ==> bundle[i] in trees && Fits(trees[bundle[i]], n)
  }

  // The terms on the bundle, for an input of n wires.
  ghost function Values(bundle: seq<Item>, trees: map<Item, Tree>, w: seq<Term>): (r: seq<Term>)
    requires Known(bundle, trees, |w|)
    ensures |r| == |bundle|
    ensures forall i :: 0 <= i < |bundle| ==> r[i] == Rebuild(trees[bundle[i]], w)
  {
    seq(|bundle|, i requires 0 <= i < |bundle| => Rebuild(trees[bundle[i]], w))
  }

  // The morphisms turn n wires into the bundle.
  ghost predicate Realises(morphs: seq<Morph>, bundle: seq<Item>, trees: map<Item, Tree>, n: nat) {
    && Known(bundle, trees, n)
    && AllWF(morphs) && SeqIn(morphs) == (if morphs == [] then 0 else n) && SeqDelta(morphs) == |bundle| - n
    && forall w: seq<Term> :: |w| == n ==> ApplySeq(morphs, w) == Values(bundle, trees, w)
  }

  function NodeParts(bundle: seq<Item>, items: seq<Item>): seq<Morph>
    requires forall i :: 0 <= i < |items| ==> items[i] in bundle
  {
    var pos := IndicesOf(bundle, items);
    NonId(PermOf(pos + Others(pos, |bundle|)))
    + [Beside(Arr("concat", |items|, ConcatAttrs()), |bundle| - |items|)]
  }

  function Picked(bundle: seq<Item>, pos: seq<int>): (r: seq<Item>)
    requires Within(pos, |bundle|)
    ensures |r| == |pos|
    ensures forall i :: 0 <= i < |pos| ==> r[i] == bundle[pos[i]]
  {
    seq(|pos|, i requires 0 <= i < |pos| => bundle[pos[i]])
  }

  // What the node's parts do to the wires: the children become one concat in
  // front of all the others.
  lemma NodePartsApply(bundle: seq<Item>, items: seq<Item>, w: seq<Term>)
    requires Distinct(items) && (forall i :: 0 <= i < |items| ==> items[i] in bundle) && |w| == |bundle|
    ensures AllWF(NodeParts(bundle, items)) && SeqIn(NodeParts(bundle, items)) <= |w|
    ensures var pos := IndicesOf(bundle, items);
      ApplySeq(NodeParts(bundle, items), w)
      == [Op("concat", Reindex(pos, w), ConcatAttrs())] + Reindex(Others(pos, |bundle|), w)
  {
    hide PermOf, Beside, NonId, ApplySeq, IsPerm;
    var pos := IndicesOf(bundle, items);
    var rest := Others(pos, |bundle|);
    NodePartsArity(bundle, items);
    IndicesDistinct(bundle, items);
    FrontThenRestIsPerm(pos, |bundle|);
    NodeActs(Arr("concat", |items|, ConcatAttrs()), pos, rest, w);
    ArrowAlone("concat", ConcatAttrs(), Reindex(pos, w));
  }

  lemma ArrowAlone(op: string, attrs: Attrs, w: seq<Term>)
    ensures Apply(Arr(op, |w|, attrs), w) == [Op(op, w, attrs)]
  {
    assert w[..|w|] == w && w[|w|..] == [];
  }

  lemma NodePartsArity(bundle: seq<Item>, items: seq<Item>)
    requires Distinct(items) && (forall i :: 0 <= i < |items| ==> items[i] in bundle)
    ensures AllWF(NodeParts(bundle, items))
    ensures SeqIn(NodeParts(bundle, items)) == |bundle| && SeqDelta(NodeParts(bundle, items)) == 1 - |items|
    ensures |items| + |Others(IndicesOf(bundle, items), |bundle|)| == |bundle|
  {
    hide PermOf, Beside, NonId, IsPerm;
    var pos := IndicesOf(bundle, items);
    var arrow := Arr("concat", |items|, ConcatAttrs());
    IndicesDistinct(bundle, items);
    FrontThenRestIsPerm(pos, |bundle|);
    PermOfArity(pos + Others(pos, |bundle|));
    OthersCount(pos, |bundle|);
    BesideArity(arrow, |bundle| - |items|);
    GuardedPairArity(PermOf(pos + Others(pos, |bundle|)), Beside(arrow, |bundle| - |items|));
  }

  lemma NodeActs(arrow: Morph, pos: seq<int>, rest: seq<int>, w: seq<Term>)
    requires arrow.Arr? && arrow.n == |pos| && IsPerm(pos + rest) && |w| == |pos + rest|
    ensures Within(pos, |w|) && Within(rest, |w|)
    ensures var ps := NonId(PermOf(pos + rest)) + [Beside(arrow, |rest|)];
      && AllWF(ps) && SeqIn(ps) <= |w|
      && ApplySeq(ps, w) == Apply(arrow, Reindex(pos, w)) + Reindex(rest, w)
  {
    hide IsPerm, Beside, PermOf, AllWF, SeqIn, SeqDelta, ApplySeq, NonId;
    PermBounds(pos, rest);
    PermOfApply(pos + rest, w);
    ReindexConcat(pos, rest, w);
    NilConcat(Reindex(pos + rest, w));
    assert w[|pos + rest|..] == [];
    BesideArity(arrow, |rest|);
    GuardedPairApply(PermOf(pos + rest), Beside(arrow, |rest|), w);
    BesideApply(arrow, |rest|, Reindex(pos, w), Reindex(rest, w));
  }

  lemma PermBounds(pos: seq<int>, rest: seq<int>)
    requires IsPerm(pos + rest)
    ensures Within(pos, |pos + rest|) && Within(rest, |pos + rest|)
  {
    var all := pos + rest;
    assert forall i :: 0 <= i < |pos| ==> pos[i] == all[i];
    assert forall i :: 0 <= i < |rest| ==> rest[i] == all[|pos| + i];
  }

  lemma {:induction false} FitsEach(kids: seq<Tree>, n: int)
    ensures FitsAll(kids, n) <==> forall i :: 0 <= i < |kids| ==> Fits(kids[i], n)
  {
    if kids == [] {
    } else {
      FitsEach(kids[1..], n);
    }
  }

  ghost predicate StandFor(bundle: seq<Item>, trees: map<Item, Tree>, items: seq<Item>, kids: seq<Tree>) {
    && Distinct(items) && |items| == |kids|
    && forall i :: 0 <= i < |items| ==> items[i] in bundle && items[i] in trees && trees[items[i]] == kids[i]
  }

  function After(bundle: seq<Item>, items: seq<Item>, item: Item): seq<Item>
    requires forall i :: 0 <= i < |items| ==> items[i] in bundle
  {
    [item] + Picked(bundle, Others(IndicesOf(bundle, items), |bundle|))
  }

  // One node: the bundle loses its children and gains the node in front.
  lemma RealisesNode(morphs: seq<Morph>, bundle: seq<Item>, trees: map<Item, Tree>, n: nat,
                     items: seq<Item>, kids: seq<Tree>, item: Item)
    requires Realises(morphs, bundle, trees, n) && StandFor(bundle, trees, items, kids) && item !in bundle
    ensures Realises(morphs + NodeParts(bundle, items), After(bundle, items, item), trees[item := Node(kids)], n)
  {
    hide NodeParts, ApplySeq, AllWF, SeqIn, SeqDelta, Known, Values, After, StandFor, Fits, FitsAll;
    KidsStand(bundle, trees, items, kids);
    NodeKnown(bundle, trees, n, items, kids, item);
    NodeArity(morphs, bundle, trees, n, items, kids, item);
    forall w: seq<Term> | |w| == n
      ensures ApplySeq(morphs + NodeParts(bundle, items), w)
           == Values(After(bundle, items, item), trees[item := Node(kids)], w)
    {
      NodeRuns(morphs, bundle, trees, items, kids, item, w);
    }
  }

  lemma KidsStand(bundle: seq<Item>, trees: map<Item, Tree>, items: seq<Item>, kids: seq<Tree>)
    requires StandFor(bundle, trees, items, kids)
    ensures Distinct(items) && |items| == |kids| && forall i :: 0 <= i < |items| ==> items[i] in bundle
  {
  }

  lemma NodeKnown(bundle: seq<Item>, trees: map<Item, Tree>, n: nat, items: seq<Item>, kids: seq<Tree>, item: Item)
    requires Known(bundle, trees, n) && StandFor(bundle, trees, items, kids) && item !in bundle
    ensures FitsAll(kids, n) && Known(After(bundle, items, item), trees[item := Node(kids)], n)
  {
    hide Fits, FitsAll, Distinct;
    var after, more := After(bundle, items, item), trees[item := Node(kids)];
    FitsEach(kids, n);
    NodeFits(kids, n);
    forall i | 0 <= i < |after|
      ensures after[i] in more && Fits(more[after[i]], n)
    {
      if i > 0 {
        assert after[i] == Picked(bundle, Others(IndicesOf(bundle, items), |bundle|))[i - 1];
      }
    }
  }

  lemma NodeFits(kids: seq<Tree>, n: int)
    ensures Fits(Node(kids), n) == FitsAll(kids, n)
  {
  }

  lemma NodeArity(morphs: seq<Morph>, bundle: seq<Item>, trees: map<Item, Tree>, n: nat,
                  items: seq<Item>, kids: seq<Tree>, item: Item)
    requires Realises(morphs, bundle, trees, n) && StandFor(bundle, trees, items, kids)
    ensures var all := morphs + NodeParts(bundle, items);
      && AllWF(all) && SeqIn(all) == n && SeqDelta(all) == |After(bundle, items, item)| - n && all != []
  {
    hide ApplySeq, Known, Values, AllWF, SeqIn, SeqDelta, Fits;
    NodePartsArity(bundle, items);
    AllWFConcat(morphs, NodeParts(bundle, items));
    SeqConcatArity(morphs, NodeParts(bundle, items));
    NoDelta();
  }

  lemma NoDelta()
    ensures SeqIn([]) == 0 && SeqDelta([]) == 0
  {
  }

  lemma NodeRuns(morphs: seq<Morph>, bundle: seq<Item>, trees: map<Item, Tree>, items: seq<Item>, kids: seq<Tree>,
                 item: Item, w: seq<Term>)
    requires Realises(morphs, bundle, trees, |w|) && StandFor(bundle, trees, items, kids) && item !in bundle
    requires FitsAll(kids, |w|) && Known(After(bundle, items, item), trees[item := Node(kids)], |w|)
    requires AllWF(morphs + NodeParts(bundle, items)) && SeqIn(morphs + NodeParts(bundle, items)) == |w|
    ensures ApplySeq(morphs + NodeParts(bundle, items), w)
         == Values(After(bundle, items, item), trees[item := Node(kids)], w)
  {
    hide NodeParts, ApplySeq, AllWF, SeqIn, SeqDelta, Known, Values, After, Fits, FitsAll, StandFor;
    KidsStand(bundle, trees, items, kids);
    NodePartsArity(bundle, items);
    SeqConcat(morphs, NodeParts(bundle, items), w);
    NodePartsApply(bundle, items, Values(bundle, trees, w));
    NodeValues(bundle, trees, items, kids, item, w);
  }

  lemma NodeValues(bundle: seq<Item>, trees: map<Item, Tree>, items: seq<Item>, kids: seq<Tree>, item: Item, w: seq<Term>)
    requires Known(bundle, trees, |w|) && StandFor(bundle, trees, items, kids) && item !in bundle
    requires FitsAll(kids, |w|) && Known(After(bundle, items, item), trees[item := Node(kids)], |w|)
    ensures var pos, vals := IndicesOf(bundle, items), Values(bundle, trees, w);
      Values(After(bundle, items, item), trees[item := Node(kids)], w)
      == [Op("concat", Reindex(pos, vals), ConcatAttrs())] + Reindex(Others(pos, |bundle|), vals)
  {
    hide Known, Values, FitsAll, StandFor, Reindex;
    KidsStand(bundle, trees, items, kids);
    NodeFits(kids, |w|);
    KidTerms(bundle, trees, items, kids, w);
    OtherTerms(bundle, trees, Others(IndicesOf(bundle, items), |bundle|), item, Node(kids), w);
  }

  lemma KidTerms(bundle: seq<Item>, trees: map<Item, Tree>, items: seq<Item>, kids: seq<Tree>, w: seq<Term>)
    requires Known(bundle, trees, |w|) && StandFor(bundle, trees, items, kids) && FitsAll(kids, |w|)
    ensures Reindex(IndicesOf(bundle, items), Values(bundle, trees, w)) == RebuildAll(kids, w)
  {
    hide Rebuild, Fits;
  }

  lemma OtherTerms(bundle: seq<Item>, trees: map<Item, Tree>, rest: seq<int>, item: Item, t: Tree, w: seq<Term>)
    requires Known(bundle, trees, |w|) && item !in bundle && Within(rest, |bundle|) && Fits(t, |w|)
    requires Known([item] + Picked(bundle, rest), trees[item := t], |w|)
    ensures Values([item] + Picked(bundle, rest), trees[item := t], w)
         == [Rebuild(t, w)] + Reindex(rest, Values(bundle, trees, w))
  {
    hide Rebuild, Fits;
    var vals := Values(bundle, trees, w);
    var lhs, rhs := Values([item] + Picked(bundle, rest), trees[item := t], w), [Rebuild(t, w)] + Reindex(rest, vals);
    forall i | 0 <= i < |rhs|
      ensures lhs[i] == rhs[i]
    {
      if i > 0 {
        ConsAt(item, Picked(bundle, rest), i);
        ConsAt(Rebuild(t, w), Reindex(rest, vals), i);
      }
    }
  }

  lemma ConsAt<T>(x: T, s: seq<T>, i: int)
    requires 0 < i <= |s|
    ensures ([x] + s)[i] == s[i - 1]
  {
  }

  // ---------------------------------------------------------------------------
  //  The emitter
  // ---------------------------------------------------------------------------

  function WiresOf(leaves: seq<Tree>): set<Item> {
    set t | t in leaves && t.At? :: Wire(t.i)
  }

  lemma WiresOfConcat(a: seq<Tree>, b: seq<Tree>)
    ensures WiresOf(a + b) == WiresOf(a) + WiresOf(b)
  {
    forall x
      ensures x in WiresOf(a + b) <==> x in WiresOf(a) || x in WiresOf(b)
    {
      if x in WiresOf(a) {
        var t :| t in a && t.At? && Wire(t.i) == x;
        assert t in a + b;
      }
      if x in WiresOf(b) {
        var t :| t in b && t.At? && Wire(t.i) == x;
        assert t in a + b;
      }
    }
  }

  // The items on a bundle, as a set.
  function ItemsOf(bundle: seq<Item>): set<Item> {
    set x | x in bundle
  }

  ghost predicate AgreeOn(xs: set<Item>, a: map<Item, Tree>, b: map<Item, Tree>) {
    forall x :: x in xs && x in a ==> x in b && b[x] == a[x]
  }

  lemma StartRealises(bundle: seq<Item>, trees: map<Item, Tree>, n: nat)
    requires bundle == seq(n, i => Wire(i))
    requires forall i :: 0 <= i < n ==> Wire(i) in trees && trees[Wire(i)] == At(i)
    ensures Distinct(bundle) && Realises([], bundle, trees, n)
  {
    forall w: seq<Term> | |w| == n
      ensures ApplySeq([], w) == Values(bundle, trees, w)
    {
    }
  }

  lemma WiredMember(leaves: seq<Tree>, n: int, t: Tree)
    requires Wired(leaves, n)
    ensures t in leaves ==> t.At?
  {
  }

  // A well-wired tree is a node or a position.
  lemma LeafIsPosition(t: Tree, n: int)
    requires Wired(Leaves(t), n) && !t.At?
    ensures t.Node?
  {
    WiredMember(Leaves(t), n, t);
    assert t.Verbatim? ==> Leaves(t) == [t];
  }

  lemma AfterItems(bundle: seq<Item>, items: seq<Item>, item: Item)
    requires Distinct(bundle) && item !in bundle
    requires forall i :: 0 <= i < |items| ==> items[i] in bundle
    ensures Distinct(After(bundle, items, item))
    ensures ItemsOf(After(bundle, items, item)) == ItemsOf(bundle) - ItemsOf(items) + {item}
  {
    hide IndicesOf, Others, Distinct;
    var others := Others(IndicesOf(bundle, items), |bundle|);
    PickedDistinct(bundle, others);
    PickedItems(bundle, items);
    ConsItems(item, Picked(bundle, others));
  }

  lemma PickedDistinct(bundle: seq<Item>, pos: seq<int>)
    requires Distinct(bundle) && Distinct(pos) && Within(pos, |bundle|)
    ensures Distinct(Picked(bundle, pos)) && forall x :: x in Picked(bundle, pos) ==> x in bundle
  {
  }

  lemma ConsItems(x: Item, s: seq<Item>)
    ensures ItemsOf([x] + s) == {x} + ItemsOf(s)
    ensures Distinct(s) && x !in s ==> Distinct([x] + s)
  {
  }

  // Picking the positions that no item holds picks the other items.
  lemma PickedItems(bundle: seq<Item>, items: seq<Item>)
    requires Distinct(bundle) && forall i :: 0 <= i < |items| ==> items[i] in bundle
    ensures ItemsOf(Picked(bundle, Others(IndicesOf(bundle, items), |bundle|))) == ItemsOf(bundle) - ItemsOf(items)
  {
    hide IndexOf, IndicesOf, Others, Distinct;
    var others := Others(IndicesOf(bundle, items), |bundle|);
    var picked := Picked(bundle, others);
    forall x | x in bundle && x !in items
      ensures x in picked
    {
      var j :| 0 <= j < |bundle| && bundle[j] == x;
      StaysIn(bundle, items, j);
      PickedHolds(bundle, others, j);
    }
    forall x | x in picked
      ensures x in bundle && x !in items
    {
      var i :| 0 <= i < |picked| && picked[i] == x;
      StaysOut(bundle, items, others[i]);
    }
  }

  lemma StaysIn(bundle: seq<Item>, items: seq<Item>, j: int)
    requires forall i :: 0 <= i < |items| ==> items[i] in bundle
    requires 0 <= j < |bundle| && bundle[j] !in items
    ensures j in Others(IndicesOf(bundle, items), |bundle|)
  {
    hide IndexOf, Others;
    var pos := IndicesOf(bundle, items);
    forall i | 0 <= i < |pos|
      ensures pos[i] != j
    {
      assert items[i] in items;
    }
  }

  lemma PickedHolds(bundle: seq<Item>, pos: seq<int>, j: int)
    requires Within(pos, |bundle|) && j in pos
    ensures bundle[j] in Picked(bundle, pos)
  {
    var i :| 0 <= i < |pos| && pos[i] == j;
    assert Picked(bundle, pos)[i] == bundle[j];
  }

  lemma StaysOut(bundle: seq<Item>, items: seq<Item>, j: int)
    requires Distinct(bundle) && forall i :: 0 <= i < |items| ==> items[i] in bundle
    requires 0 <= j < |bundle| && j !in IndicesOf(bundle, items)
    ensures bundle[j] !in items
  {
    forall i | 0 <= i < |items|
      ensures items[i] != bundle[j]
    {
      assert IndicesOf(bundle, items)[i] in IndicesOf(bundle, items);
    }
  }

  // From one bundle to the next: some wires left, some items arrived, and what
  // the remaining items stand for did not change.
  ghost predicate Traded(b0: seq<Item>, t0: map<Item, Tree>, b1: seq<Item>, t1: map<Item, Tree>,
                         gone: set<Item>, items: seq<Item>)
  {
    && ItemsOf(b1) == ItemsOf(b0) - gone + ItemsOf(items)
    && ItemsOf(items) !! ItemsOf(b0) - gone
    && AgreeOn(ItemsOf(b0) - gone, t0, t1)
  }

  lemma TradedTwice(b0: seq<Item>, t0: map<Item, Tree>, b1: seq<Item>, t1: map<Item, Tree>, b2: seq<Item>, t2: map<Item, Tree>,
                    first: set<Item>, rest: set<Item>, item: Item, items: seq<Item>)
    requires Traded(b0, t0, b1, t1, first, [item]) && Traded(b1, t1, b2, t2, rest, items)
    requires rest <= ItemsOf(b0) - first && item in t1
    ensures Traded(b0, t0, b2, t2, first + rest, [item] + items)
    ensures item !in items && item in b2 && item in t2 && t2[item] == t1[item]
  {
    assert ItemsOf([item]) == {item};
    assert ItemsOf([item] + items) == {item} + ItemsOf(items);
    assert item in ItemsOf(b1) - rest;
  }

  lemma StandForCons(bundle: seq<Item>, trees: map<Item, Tree>, item: Item, kid: Tree, items: seq<Item>, kids: seq<Tree>)
    requires StandFor(bundle, trees, items, kids) && item !in items && item in bundle
    requires item in trees && trees[item] == kid
    ensures StandFor(bundle, trees, [item] + items, [kid] + kids)
  {
    var xs, ts := [item] + items, [kid] + kids;
    forall i | 0 <= i < |xs|
      ensures xs[i] in bundle && xs[i] in trees && trees[xs[i]] == ts[i]
    {
      if i > 0 {
        assert xs[i] == items[i - 1];
      }
    }
  }

  // The wires of the trees still to be emitted are on the bundle.
  ghost predicate Ready(leaves: seq<Tree>, bundle: seq<Item>, trees: map<Item, Tree>) {
    forall x :: x in WiresOf(leaves) ==> x in bundle && x in trees && trees[x] == At(x.i)
  }

  lemma ReadyParts(first: seq<Tree>, rest: seq<Tree>, n: int, bundle: seq<Item>, trees: map<Item, Tree>)
    requires Wired(first + rest, n) && Ready(first + rest, bundle, trees)
    ensures Wired(first, n) && Wired(rest, n) && Ready(first, bundle, trees) && Ready(rest, bundle, trees)
    ensures WiresOf(first + rest) == WiresOf(first) + WiresOf(rest)
    ensures WiresOf(rest) <= ItemsOf(bundle) - WiresOf(first)
  {
    WiredParts(first, rest, n);
    WiresOfConcat(first, rest);
    forall x | x in WiresOf(rest)
      ensures x in ItemsOf(bundle) && x !in WiresOf(first)
    {
      assert x in WiresOf(first + rest);
      var b :| b in rest && b.At? && Wire(b.i) == x;
      forall a | a in first && a.At?
        ensures Wire(a.i) != x
      {
        assert a != b;
      }
    }
  }

  lemma ReadyLater(rest: seq<Tree>, first: set<Item>, item: Item,
                   b0: seq<Item>, t0: map<Item, Tree>, b1: seq<Item>, t1: map<Item, Tree>)
    requires Ready(rest, b0, t0) && WiresOf(rest) <= ItemsOf(b0) - first && Traded(b0, t0, b1, t1, first, [item])
    ensures Ready(rest, b1, t1)
  {
    forall x | x in WiresOf(rest)
      ensures x in b1 && x in t1 && t1[x] == At(x.i)
    {
      assert x in ItemsOf(b1);
    }
  }

  lemma TradedWire(t: Tree, bundle: seq<Item>, trees: map<Item, Tree>)
    requires t.At? && Ready(Leaves(t), bundle, trees)
    ensures Wire(t.i) in bundle && Wire(t.i) in trees && trees[Wire(t.i)] == t
    ensures Traded(bundle, trees, bundle, trees, WiresOf(Leaves(t)), [Wire(t.i)])
  {
    assert t in Leaves(t);
    assert Wire(t.i) in WiresOf(Leaves(t));
  }

  lemma TradedJoin(b0: seq<Item>, t0: map<Item, Tree>, b1: seq<Item>, t1: map<Item, Tree>, gone: set<Item>,
                   items: seq<Item>, item: Item, b2: seq<Item>, t2: map<Item, Tree>)
    requires Traded(b0, t0, b1, t1, gone, items) && item !in b1 && t2.Keys == t1.Keys + {item}
    requires forall x :: x in t1 && x != item ==> t2[x] == t1[x]
    requires ItemsOf(b2) == ItemsOf(b1) - ItemsOf(items) + {item}
    ensures Traded(b0, t0, b2, t2, gone, [item])
  {
    assert ItemsOf([item]) == {item};
    assert ItemsOf(b0) - gone <= ItemsOf(b1);
  }

  // The morphisms hold so many arrows, and no generator, diagonal, drop or loop;
  // they are in normal form and none idles.
  ghost predicate Built(morphs: seq<Morph>, arrows: nat) {
    Tidy(morphs) && forall c :: IsGate(c) ==> TallyAll(morphs, c) == if c.Arrs? then arrows else 0
  }

  lemma BuiltNode(morphs: seq<Morph>, arrows: nat, bundle: seq<Item>, items: seq<Item>)
    requires Built(morphs, arrows) && forall i :: 0 <= i < |items| ==> items[i] in bundle
    ensures Built(morphs + NodeParts(bundle, items), arrows + 1)
  {
    hide PermOf, Beside, Tally, TallyAll, IsGate, Tidy, Normal, Lean;
    NodeTidy(morphs, bundle, items);
    var pos := IndicesOf(bundle, items);
    var prm, arrow := PermOf(pos + Others(pos, |bundle|)), Arr("concat", |items|, ConcatAttrs());
    var body := Beside(arrow, |bundle| - |items|);
    forall c | IsGate(c)
      ensures TallyAll(morphs + NodeParts(bundle, items), c) == if c.Arrs? then arrows + 1 else 0
    {
      PermGates(pos + Others(pos, |bundle|), c);
      BesideGates(arrow, |bundle| - |items|, c);
      ArrowGates("concat", |items|, ConcatAttrs(), c);
      NodeGates([], c);
      TallyOne(NonId(prm), c);
      TallySnoc(NonId(prm), body, c);
      TallyConcat(morphs, NodeParts(bundle, items), c);
    }
  }

  // The later list holds so many arrows more.
  ghost predicate Adds(before: seq<Morph>, after: seq<Morph>, arrows: nat) {
    forall k: nat :: Built(before, k) ==> Built(after, k + arrows)
  }

  lemma AddsNone(morphs: seq<Morph>)
    ensures Adds(morphs, morphs, 0)
  {
    hide Built;
  }

  lemma AddsThen(a: seq<Morph>, b: seq<Morph>, c: seq<Morph>, n: nat, m: nat)
    requires Adds(a, b, n) && Adds(b, c, m)
    ensures Adds(a, c, n + m)
  {
    hide Built;
    forall k: nat | Built(a, k)
      ensures Built(c, k + (n + m))
    {
      assert Built(b, k + n);
      assert (k + n) + m == k + (n + m);
    }
  }

  lemma AddsNode(morphs: seq<Morph>, bundle: seq<Item>, items: seq<Item>)
    requires forall i :: 0 <= i < |items| ==> items[i] in bundle
    ensures Adds(morphs, morphs + NodeParts(bundle, items), 1)
  {
    hide Built, NodeParts;
    forall k: nat | Built(morphs, k)
      ensures Built(morphs + NodeParts(bundle, items), k + 1)
    {
      BuiltNode(morphs, k, bundle, items);
    }
  }

  lemma ConcatsOf(t: Tree)
    ensures Concats(t) == if t.Node? then ConcatsAll(t.kids) + 1 else 0
  {
  }

  lemma ConcatsCons(ts: seq<Tree>)
    requires ts != []
    ensures ConcatsAll(ts) == Concats(ts[0]) + ConcatsAll(ts[1..])
  {
  }

  lemma NodeTidy(morphs: seq<Morph>, bundle: seq<Item>, items: seq<Item>)
    requires Tidy(morphs) && forall i :: 0 <= i < |items| ==> items[i] in bundle
    ensures Tidy(morphs + NodeParts(bundle, items))
  {
    hide PermOf, ParOf, Tidy, Normal;
    var pos := IndicesOf(bundle, items);
    var prm, arrow := PermOf(pos + Others(pos, |bundle|)), Arr("concat", |items|, ConcatAttrs());
    var rest := Id(|bundle| - |items|);
    PermIsAtom(pos + Others(pos, |bundle|));
    AtomsProduct([arrow, rest]);
    ParOfNotWires([arrow, rest], arrow);
    assert Lean(ParOf([arrow, rest]));
    if prm.Id? {
      NilConcat([ParOf([arrow, rest])]);
      TidySnoc(morphs, ParOf([arrow, rest]));
    } else {
      assert Lean(prm);
      TidySnoc(morphs, prm);
      TidySnoc(morphs + [prm], ParOf([arrow, rest]));
      ConcatAssoc(morphs, [prm], [ParOf([arrow, rest])]);
    }
  }

  lemma ArrowGates(op: string, n: int, attrs: Attrs, c: Stat)
    requires IsGate(c)
    ensures Tally(Arr(op, n, attrs), c) == if c.Arrs? then 1 else 0
  {
  }

  class Emitter {
    const width: nat
    var bundle: seq<Item>
    var morphs: seq<Morph>
    ghost var trees: map<Item, Tree>

    ghost predicate Valid()
      reads this
    {
      && Distinct(bundle) && Realises(morphs, bundle, trees, width)
      && forall x :: x in bundle && x.Made? ==> x.k <= |morphs|
    }

    constructor (n: nat)
      ensures Valid() && width == n && morphs == []
      ensures bundle == seq(n, i => Wire(i))
      ensures forall i :: 0 <= i < n ==> Wire(i) in trees && trees[Wire(i)] == At(i)
    {
      width := n;
      bundle := seq(n, i => Wire(i));
      morphs := [];
      trees := map i | 0 <= i < n :: Wire(i) := At(i);
      new;
      StartRealises(bundle, trees, n);
    }

    // Emit a tree whose wires are all on the bundle: they leave it, and the
    // item for the tree comes onto it, at the front when it is a node.
    method Emit(t: Tree) returns (item: Item)
      requires Valid() && Wired(Leaves(t), width) && Ready(Leaves(t), bundle, trees)
      modifies this`bundle, this`morphs, this`trees
      ensures Valid() && item in bundle && item in trees && trees[item] == t
      ensures Traded(old(bundle), old(trees), bundle, trees, WiresOf(Leaves(t)), [item])
      ensures |morphs| >= |old(morphs)|
      ensures if t.Node? then bundle[0] == item && morphs != []
        else bundle == old(bundle) && morphs == old(morphs) && trees == old(trees) && t.At? && item == Wire(t.i)
      ensures Adds(old(morphs), morphs, Concats(t))
      decreases t, 1
    {
      hide Realises, Traded, Ready, Adds;
      ConcatsOf(t);
      if t.At? {
        item := Wire(t.i);
        AddsNone(morphs);
        TradedWire(t, bundle, trees);
        return;
      }
      LeafIsPosition(t, width);
      var items := EmitAll(t.kids);
      ghost var b1, t1, m1 := bundle, trees, morphs;
      item := Join(items, t.kids);
      AddsThen(old(morphs), m1, morphs, ConcatsAll(t.kids), 1);
      TradedJoin(old(bundle), old(trees), b1, t1, WiresOf(Leaves(t)), items, item, bundle, trees);
    }

    method EmitAll(kids: seq<Tree>) returns (items: seq<Item>)
      requires Valid() && Wired(LeavesAll(kids), width) && Ready(LeavesAll(kids), bundle, trees)
      modifies this`bundle, this`morphs, this`trees
      ensures Valid() && StandFor(bundle, trees, items, kids)
      ensures Traded(old(bundle), old(trees), bundle, trees, WiresOf(LeavesAll(kids)), items)
      ensures |morphs| >= |old(morphs)|
      ensures Adds(old(morphs), morphs, ConcatsAll(kids))
      decreases kids, 0
    {
      if kids == [] {
        AddsNone(morphs);
        return [];
      }
      hide Realises, Traded, Ready, StandFor, Wired, Leaves, WiresOf, Adds, Concats, ConcatsAll, Distinct, Emitter.Valid;
      ConcatsCons(kids);
      ghost var first, rest := Leaves(kids[0]), LeavesAll(kids[1..]);
      ReadyParts(first, rest, width, bundle, trees);
      var item := Emit(kids[0]);
      ghost var b1, t1, m1 := bundle, trees, morphs;
      ReadyLater(rest, WiresOf(first), item, old(bundle), old(trees), b1, t1);
      var more := EmitAll(kids[1..]);
      AddsThen(old(morphs), m1, morphs, Concats(kids[0]), ConcatsAll(kids[1..]));
      items := [item] + more;
      TradedTwice(old(bundle), old(trees), b1, t1, bundle, trees, WiresOf(first), WiresOf(rest), item, more);
      StandForCons(bundle, trees, item, kids[0], more, kids[1..]);
      assert kids == [kids[0]] + kids[1..];
    }

    // Permute the children to the front and make them one concat.
    method Join(items: seq<Item>, ghost kids: seq<Tree>) returns (item: Item)
      requires Valid() && StandFor(bundle, trees, items, kids)
      modifies this`bundle, this`morphs, this`trees
      ensures Valid() && item in bundle && trees == old(trees)[item := Node(kids)]
      ensures ItemsOf(bundle) == ItemsOf(old(bundle)) - ItemsOf(items) + {item}
      ensures item !in old(bundle) && bundle[0] == item && |morphs| > |old(morphs)|
      ensures Adds(old(morphs), morphs, 1)
    {
      hide Realises, NodeParts, Built, Adds;
      var parts := JoinParts(bundle, items);
      item := Made(|morphs| + |parts|);
      JoinLaw(morphs, bundle, trees, width, items, kids, item);
      AddsNode(morphs, bundle, items);
      var others := Others(IndicesOf(bundle, items), |bundle|);
      morphs := morphs + parts;
      trees := trees[item := Node(kids)];
      bundle := [item] + Picked(bundle, others);
    }
  }

  method JoinParts(bundle: seq<Item>, items: seq<Item>) returns (parts: seq<Morph>)
    requires forall i :: 0 <= i < |items| ==> items[i] in bundle
    ensures parts == NodeParts(bundle, items) && parts != []
  {
    var pos := IndicesOf(bundle, items);
    var prm := PermOf(pos + Others(pos, |bundle|));
    parts := [];
    if !prm.Id? {
      parts := [prm];
    }
    parts := parts + [Beside(Arr("concat", |items|, ConcatAttrs()), |bundle| - |items|)];
  }

  lemma JoinLaw(morphs: seq<Morph>, bundle: seq<Item>, trees: map<Item, Tree>, n: nat,
                items: seq<Item>, kids: seq<Tree>, item: Item)
    requires Distinct(bundle) && Realises(morphs, bundle, trees, n) && StandFor(bundle, trees, items, kids)
    requires item !in bundle
    ensures Realises(morphs + NodeParts(bundle, items), After(bundle, items, item), trees[item := Node(kids)], n)
    ensures Distinct(After(bundle, items, item))
    ensures ItemsOf(After(bundle, items, item)) == ItemsOf(bundle) - ItemsOf(items) + {item}
    ensures forall x :: x in After(bundle, items, item) ==> x in bundle || x == item
  {
    hide Realises, NodeParts, After;
    RealisesNode(morphs, bundle, trees, n, items, kids, item);
    AfterItems(bundle, items, item);
    assert forall x :: x in After(bundle, items, item) ==> x in ItemsOf(After(bundle, items, item));
  }

  // ---------------------------------------------------------------------------
  //  A whole tree
  // ---------------------------------------------------------------------------

  // The morphism turns n wires into the one term of the tree; on a bare wire
  // it is the empty composition, which does nothing.
  ghost predicate Evaluates(m: Morph, tree: Tree, n: nat)
    requires Fits(tree, n)
  {
    if m == Seq([]) then n == 1 && tree == At(0)
    else
      && WF(m) && In(m) == n && Out(m) == 1
      && forall w: seq<Term> :: |w| == n ==> Apply(m, w) == [Rebuild(tree, w)]
  }

  function DropRest(n: int): Morph {
    ParOf([Id(1)] + Drops(n))
  }

  function Drops(n: int): (r: seq<Morph>)
    ensures |r| == if n < 0 then 0 else n
  {
    if n <= 0 then [] else [Drop] + Drops(n - 1)
  }

  lemma {:induction false} DropsApply(n: nat, w: seq<Term>)
    requires |w| == n
    ensures AllWF(Drops(n)) && ParIn(Drops(n)) == n && ParOut(Drops(n)) == 0
    ensures ApplyPar(Drops(n), w) == []
  {
    if n == 0 {
    } else {
      DropsApply(n - 1, w[1..]);
      assert w[..1] == [w[0]] && w[..1][1..] == [];
    }
  }

  lemma {:induction false} DropsArity(n: nat)
    ensures AllWF(Drops(n)) && ParIn(Drops(n)) == n && ParOut(Drops(n)) == 0
  {
    if n == 0 {
    } else {
      DropsArity(n - 1);
    }
  }

  lemma DropRestArity(n: nat)
    ensures WF(DropRest(n)) && In(DropRest(n)) == 1 + n && Out(DropRest(n)) == 1
  {
    DropsArity(n);
    AllWFConcat([Id(1)], Drops(n));
    ParConcatArity([Id(1)], Drops(n));
    SingleArity(Id(1));
    ParOfLaw([Id(1)] + Drops(n));
  }

  lemma DropRestApply(n: nat, w: seq<Term>)
    requires |w| == 1 + n
    ensures WF(DropRest(n)) && In(DropRest(n)) == |w|
    ensures Apply(DropRest(n), w) == [w[0]]
  {
    DropRestArity(n);
    DropsApply(n, w[1..]);
    AllWFConcat([Id(1)], Drops(n));
    ParConcatArity([Id(1)], Drops(n));
    SingleArity(Id(1));
    ParOfApply([Id(1)] + Drops(n), w);
    ParCons(Id(1), Drops(n), w[..1], w[1..]);
    TakeDrop(w, 1);
  }

  // What the emitter evaluates: a lone leaf is always taken for the first wire.
  function Emitted(tree: Tree): Tree {
    if tree.At? then At(0) else tree
  }

  method ConcatTreeMorph(tree: Tree, n: nat) returns (m: Morph)
    requires Wired(Leaves(tree), n)
    ensures Fits(tree, n) && Fits(Emitted(tree), n) && Evaluates(m, Emitted(tree), n)
    ensures Evaluates(m, tree, n) <==> (tree.At? ==> tree.i == 0)
    ensures OnlyConcats(m, Concats(tree))
  {
    hide Realises, Traded, Evaluates, Built, OnlyConcats;
    WiredFits(tree, n);
    var emitter := new Emitter(n);
    forall x | x in WiresOf(Leaves(tree))
      ensures x in emitter.bundle && x in emitter.trees && emitter.trees[x] == At(x.i)
    {
      assert emitter.bundle[x.i] == x;
    }
    ghost var start, begun := emitter.bundle, emitter.trees;
    BuiltNothing();
    var item := emitter.Emit(tree);
    assert Built(emitter.morphs, 0 + Concats(tree));
    FrontIsEmitted(tree, n, start, begun, emitter.bundle, emitter.trees, item);
    if |emitter.bundle| > 1 {
      var last := DropRest(|emitter.bundle| - 1);
      DroppedEvaluates(emitter.morphs, emitter.bundle, emitter.trees, n, Emitted(tree));
      BuiltDropped(emitter.morphs, Concats(tree), |emitter.bundle| - 1);
      m := SeqOf(emitter.morphs + [last]);
    } else {
      AloneEvaluates(emitter.morphs, emitter.bundle, emitter.trees, n, Emitted(tree));
      BuiltAlone(emitter.morphs, Concats(tree));
      m := SeqOf(emitter.morphs);
    }
    if tree.At? && tree.i != 0 {
      FirstWireOnly(m, tree.i, n);
    }
  }

  // One arrow for each concat node, and no generator, diagonal or loop; in
  // normal form, with no idle part.
  ghost predicate OnlyConcats(m: Morph, concats: nat) {
    Normal(m) && Lean(m) && forall c :: IsGate(c) && !c.Drops? ==> Tally(m, c) == if c.Arrs? then concats else 0
  }

  lemma BuiltNothing()
    ensures Built([], 0)
  {
    NothingTidy();
  }

  lemma BuiltAlone(morphs: seq<Morph>, arrows: nat)
    requires Built(morphs, arrows)
    ensures OnlyConcats(SeqOf(morphs), arrows)
  {
    hide SeqOf, Tally, TallyAll, IsGate, Tidy, Normal, Lean;
    TidySeqOf(morphs);
    forall c | IsGate(c) && !c.Drops?
      ensures Tally(SeqOf(morphs), c) == if c.Arrs? then arrows else 0
    {
      SeqOfGates(morphs, c);
    }
  }

  lemma BuiltDropped(morphs: seq<Morph>, arrows: nat, n: nat)
    requires Built(morphs, arrows) && n > 0
    ensures OnlyConcats(SeqOf(morphs + [DropRest(n)]), arrows)
  {
    hide SeqOf, Tally, TallyAll, IsGate, DropRest, Tidy, Normal, Lean;
    DropRestTidy(n);
    TidySnoc(morphs, DropRest(n));
    TidySeqOf(morphs + [DropRest(n)]);
    forall c | IsGate(c) && !c.Drops?
      ensures Tally(SeqOf(morphs + [DropRest(n)]), c) == if c.Arrs? then arrows else 0
    {
      DropRestGates(n, c);
      TallySnoc(morphs, DropRest(n), c);
      SeqOfGates(morphs + [DropRest(n)], c);
    }
  }

  lemma DropRestTidy(n: nat)
    requires n > 0
    ensures Normal(DropRest(n)) && Lean(DropRest(n))
  {
    hide ParOf, Normal;
    var parts := [Id(1)] + Drops(n);
    DropsAre(n);
    AtomsProduct(parts);
    assert parts[1] == Drop;
    ParOfNotWires(parts, Drop);
  }

  lemma {:induction false} DropsAre(n: nat)
    ensures forall i :: 0 <= i < n ==> Drops(n)[i] == Drop
  {
    if n == 0 {
    } else {
      DropsAre(n - 1);
    }
  }

  lemma DropRestGates(n: nat, c: Stat)
    requires IsGate(c) && !c.Drops?
    ensures Tally(DropRest(n), c) == 0
  {
    hide ParOf;
    DropsGates(n, c);
    ParOfGates([Id(1)] + Drops(n), c);
    TallyConcat([Id(1)], Drops(n), c);
    assert [Id(1)][1..] == [];
  }

  lemma {:induction false} DropsGates(n: nat, c: Stat)
    requires IsGate(c) && !c.Drops?
    ensures TallyAll(Drops(n), c) == 0
  {
    if n == 0 {
    } else {
      DropsGates(n - 1, c);
      assert Drops(n)[1..] == Drops(n - 1);
    }
  }

  lemma FrontIsEmitted(tree: Tree, n: nat, start: seq<Item>, begun: map<Item, Tree>, bundle: seq<Item>,
                       trees: map<Item, Tree>, item: Item)
    requires Wired(Leaves(tree), n) && start == seq(n, i => Wire(i)) && Fits(tree, n)
    requires forall i :: 0 <= i < n ==> Wire(i) in begun && begun[Wire(i)] == At(i)
    requires item in bundle && item in trees && trees[item] == tree
    requires if tree.Node? then bundle[0] == item else bundle == start && trees == begun && tree.At?
    ensures bundle[0] in trees && trees[bundle[0]] == Emitted(tree) && Fits(Emitted(tree), n)
  {
    if !tree.Node? {
      assert start[0] == Wire(0);
    }
  }

  // Taking the first wire is not taking another one.
  lemma FirstWireOnly(m: Morph, i: int, n: nat)
    requires 0 < i < n && Evaluates(m, At(0), n)
    ensures !Evaluates(m, At(i), n)
  {
    hide Apply, WF, In, Out;
    var w := seq(n, j => Const(if j == 0 then "a" else "b"));
    assert Rebuild(At(0), w) == w[0] == Const("a") && Rebuild(At(i), w) == w[i] == Const("b");
    assert Apply(m, w)[0] == Const("a");
  }

  lemma DroppedEvaluates(morphs: seq<Morph>, bundle: seq<Item>, trees: map<Item, Tree>, n: nat, tree: Tree)
    requires Realises(morphs, bundle, trees, n) && |bundle| > 1 && trees[bundle[0]] == tree && Fits(tree, n)
    ensures Evaluates(SeqOf(morphs + [DropRest(|bundle| - 1)]), tree, n)
  {
    hide DropRest, SeqOf, Rebuild, Apply, WF, In, Out, Evaluates;
    var last := DropRest(|bundle| - 1);
    DropRestArity(|bundle| - 1);
    SeqSnocArity(morphs, last);
    assert SeqIn([]) == 0 && SeqDelta([]) == 0;
    forall w: seq<Term> | |w| == n
      ensures ApplySeq(morphs + [last], w) == [Rebuild(tree, w)]
    {
      SeqSnoc(morphs, last, w);
      DropRestApply(|bundle| - 1, Values(bundle, trees, w));
    }
    ComposedEvaluates(morphs + [last], tree, n);
  }

  lemma ComposedEvaluates(ps: seq<Morph>, tree: Tree, n: nat)
    requires ps != [] && AllWF(ps) && SeqIn(ps) == n && SeqDelta(ps) == 1 - n && Fits(tree, n)
    requires forall w: seq<Term> :: |w| == n ==> ApplySeq(ps, w) == [Rebuild(tree, w)]
    ensures Evaluates(SeqOf(ps), tree, n)
  {
    hide SeqOf, Rebuild, SeqIn, SeqDelta, AllWF, ApplySeq;
    SeqOfLaw(ps);
    assert !WF(Seq([]));
    forall w: seq<Term> | |w| == n
      ensures Apply(SeqOf(ps), w) == [Rebuild(tree, w)]
    {
      SeqOfApply(ps, w);
    }
  }

  lemma AloneEvaluates(morphs: seq<Morph>, bundle: seq<Item>, trees: map<Item, Tree>, n: nat, tree: Tree)
    requires Realises(morphs, bundle, trees, n) && |bundle| == 1 && trees[bundle[0]] == tree && Fits(tree, n)
    requires morphs == [] ==> tree == At(0)
    ensures Evaluates(SeqOf(morphs), tree, n)
  {
    hide Rebuild;
    if morphs == [] {
      assert SeqDelta([]) == 0;
      assert SeqOf([]) == Seq([]);
    } else {
      hide SeqOf;
      forall w: seq<Term> | |w| == n
        ensures ApplySeq(morphs, w) == [Rebuild(tree, w)]
      {
        assert ApplySeq(morphs, w) == Values(bundle, trees, w);
      }
      ComposedEvaluates(morphs, tree, n);
    }
  }

  // ---------------------------------------------------------------------------
  //  Positional relabelling
  // ---------------------------------------------------------------------------

  // Number the leaves from c in depth-first order.
  function Numbered(t: Tree, c: int): Tree {
    match t
    case Node(kids) => Node(NumberedAll(kids, c))
    case _ => At(c)
  }

  function NumberedAll(ts: seq<Tree>, c: int): seq<Tree> {
    if ts == [] then [] else [Numbered(ts[0], c)] + NumberedAll(ts[1..], c + |Leaves(ts[0])|)
  }

  class Counter {
    var next: int

    constructor ()
      ensures next == 0
    {
      next := 0;
    }

    method Relabel(t: Tree) returns (r: Tree)
      modifies this
      ensures r == Numbered(t, old(next)) && next == old(next) + |Leaves(t)|
      decreases t, 0
    {
      if t.Node? {
        var kids := RelabelAll(t.kids);
        return Node(kids);
      }
      r := At(next);
      next := next + 1;
    }

    method RelabelAll(ts: seq<Tree>) returns (r: seq<Tree>)
      modifies this
      ensures r == NumberedAll(ts, old(next)) && next == old(next) + |LeavesAll(ts)|
      decreases ts, 0
    {
      if ts == [] {
        return [];
      }
      var first := Relabel(ts[0]);
      var rest := RelabelAll(ts[1..]);
      r := [first] + rest;
    }
  }

  // The tree with its leaves replaced, left to right, by the given terms.
  function Refill(t: Tree, ts: seq<Term>): Term
    requires |ts| == |Leaves(t)|
  {
    match t
    case Node(kids) => Op("concat", RefillAll(kids, ts), ConcatAttrs())
    case _ => ts[0]
  }

  function RefillAll(kids: seq<Tree>, ts: seq<Term>): seq<Term>
    requires |ts| == |LeavesAll(kids)|
  {
    if kids == [] then []
    else
      var n := |Leaves(kids[0])|;
      [Refill(kids[0], ts[..n])] + RefillAll(kids[1..], ts[n..])
  }

  function Ats(c: int, n: nat): (r: seq<Tree>)
    ensures |r| == n && forall i :: 0 <= i < n ==> r[i] == At(c + i)
  {
    seq(n, i => At(c + i))
  }

  lemma AtsJoin(c: int, n: nat, m: nat)
    ensures Ats(c, n) + Ats(c + n, m) == Ats(c, n + m)
  {
  }

  lemma {:induction false} NumberedLeaves(t: Tree, c: int)
    ensures Leaves(Numbered(t, c)) == Ats(c, |Leaves(t)|)
    decreases t, 0
  {
    if !t.Node? {
    } else {
      NumberedAllLeaves(t.kids, c);
    }
  }

  lemma {:induction false} NumberedAllLeaves(ts: seq<Tree>, c: int)
    ensures LeavesAll(NumberedAll(ts, c)) == Ats(c, |LeavesAll(ts)|)
    decreases ts, 0
  {
    hide Leaves, LeavesAll, Numbered, NumberedAll, Ats;
    if ts == [] {
      NothingLeft(c);
    } else {
      var n, rest := |Leaves(ts[0])|, NumberedAll(ts[1..], c + |Leaves(ts[0])|);
      NumberedCons(ts, c);
      NumberedLeaves(ts[0], c);
      NumberedAllLeaves(ts[1..], c + n);
      LeavesCons(Numbered(ts[0], c), rest);
      AtsJoin(c, n, |LeavesAll(ts[1..])|);
    }
  }

  lemma NothingLeft(c: int)
    ensures LeavesAll(NumberedAll([], c)) == Ats(c, |LeavesAll([])|)
  {
  }

  lemma LeavesCons(t: Tree, ts: seq<Tree>)
    ensures LeavesAll([t] + ts) == Leaves(t) + LeavesAll(ts)
  {
    assert ([t] + ts)[1..] == ts;
  }

  // Reading a numbered tree off the wires puts them at its leaves in order.
  lemma {:induction false} NumberedRebuild(t: Tree, c: int, w: seq<Term>)
    requires 0 <= c && c + |Leaves(t)| <= |w|
    ensures Fits(Numbered(t, c), |w|)
    ensures Rebuild(Numbered(t, c), w) == Refill(t, w[c..c + |Leaves(t)|])
    decreases t, 0
  {
    hide NumberedAll, RebuildAll, RefillAll, FitsAll, LeavesAll;
    if !t.Node? {
    } else {
      NumberedAllRebuild(t.kids, c, w);
    }
  }

  lemma {:induction false} NumberedAllRebuild(ts: seq<Tree>, c: int, w: seq<Term>)
    requires 0 <= c && c + |LeavesAll(ts)| <= |w|
    ensures FitsAll(NumberedAll(ts, c), |w|)
    ensures RebuildAll(NumberedAll(ts, c), w) == RefillAll(ts, w[c..c + |LeavesAll(ts)|])
    decreases ts, 0
  {
    hide *;
    if ts == [] {
      NothingNumbered(c, w);
    } else {
      var n, m := |Leaves(ts[0])|, |LeavesAll(ts)|;
      NumberedCons(ts, c);
      NumberedRebuild(ts[0], c, w);
      NumberedAllRebuild(ts[1..], c + n, w);
      RebuildCons(Numbered(ts[0], c), NumberedAll(ts[1..], c + n), w);
      SliceParts(w, c, n, m);
      RefillCons(ts, w[c..c + m]);
    }
  }

  lemma NothingNumbered(c: int, w: seq<Term>)
    requires 0 <= c <= |w|
    ensures LeavesAll([]) == [] && FitsAll(NumberedAll([], c), |w|)
    ensures RebuildAll(NumberedAll([], c), w) == [] == RefillAll([], w[c..c])
  {
  }

  lemma NumberedCons(ts: seq<Tree>, c: int)
    requires ts != []
    ensures var n := |Leaves(ts[0])|;
      && NumberedAll(ts, c) == [Numbered(ts[0], c)] + NumberedAll(ts[1..], c + n)
      && |LeavesAll(ts)| == n + |LeavesAll(ts[1..])|
  {
    hide Leaves, Numbered;
    NumberedUnfold(ts, c);
    LeavesUnfold(ts);
  }

  lemma NumberedUnfold(ts: seq<Tree>, c: int)
    requires ts != []
    ensures NumberedAll(ts, c) == [Numbered(ts[0], c)] + NumberedAll(ts[1..], c + |Leaves(ts[0])|)
  {
    hide Leaves, LeavesAll, Numbered;
  }

  lemma LeavesUnfold(ts: seq<Tree>)
    requires ts != []
    ensures LeavesAll(ts) == Leaves(ts[0]) + LeavesAll(ts[1..])
  {
    hide Leaves;
  }

  lemma RebuildCons(t: Tree, ts: seq<Tree>, w: seq<Term>)
    requires Fits(t, |w|) && FitsAll(ts, |w|)
    ensures FitsAll([t] + ts, |w|) && RebuildAll([t] + ts, w) == [Rebuild(t, w)] + RebuildAll(ts, w)
  {
    hide Rebuild, Fits;
    assert ([t] + ts)[1..] == ts;
  }

  lemma RefillCons(ts: seq<Tree>, s: seq<Term>)
    requires ts != [] && |s| == |LeavesAll(ts)|
    ensures var n := |Leaves(ts[0])|;
      RefillAll(ts, s) == [Refill(ts[0], s[..n])] + RefillAll(ts[1..], s[n..])
  {
    hide Refill, Leaves;
  }

  lemma SliceParts<T>(w: seq<T>, c: int, n: nat, m: nat)
    requires 0 <= c && n <= m && c + m <= |w|
    ensures w[c..c + m][..n] == w[c..c + n] && w[c..c + m][n..] == w[c + n..c + m]
  {
  }

  // The emitter on a relabelled skeleton yields the one concat term with the
  // skeleton's shape and the wires at its leaves in left-to-right order.
  method EmitSkeleton(skel: Tree) returns (m: Morph)
    ensures var n := |Leaves(skel)|;
      Fits(Numbered(skel, 0), n) && Evaluates(m, Numbered(skel, 0), n)
    ensures OnlyConcats(m, Concats(skel))
  {
    hide OnlyConcats, Evaluates;
    var counter := new Counter();
    var tree := counter.Relabel(skel);
    NumberedLeaves(skel, 0);
    NumberedConcats(skel, 0);
    LoneIsFirst(skel);
    m := ConcatTreeMorph(tree, |Leaves(skel)|);
  }

  lemma LoneIsFirst(skel: Tree)
    ensures Numbered(skel, 0).At? ==> Numbered(skel, 0).i == 0
  {
  }

  lemma {:induction false} NumberedConcats(t: Tree, c: int)
    ensures Concats(Numbered(t, c)) == Concats(t)
    decreases t, 0
  {
    if t.Node? {
      NumberedAllConcats(t.kids, c);
    } else {
    }
  }

  lemma {:induction false} NumberedAllConcats(ts: seq<Tree>, c: int)
    ensures ConcatsAll(NumberedAll(ts, c)) == ConcatsAll(ts)
    decreases ts, 0
  {
    hide Concats, Numbered;
    if ts == [] {
    } else {
      NumberedConcats(ts[0], c);
      NumberedAllConcats(ts[1..], c + |Leaves(ts[0])|);
      NumberedCons(ts, c);
      assert NumberedAll(ts, c)[1..] == NumberedAll(ts[1..], c + |Leaves(ts[0])|);
    }
  }

  lemma EvaluatesInOrder(m: Morph, skel: Tree, w: seq<Term>)
    requires |w| == |Leaves(skel)| && Fits(Numbered(skel, 0), |w|) && Evaluates(m, Numbered(skel, 0), |w|)
    ensures if m == Seq([]) then |w| == 1 && w[0] == Refill(skel, w)
      else WF(m) && In(m) == |w| && Apply(m, w) == [Refill(skel, w)]
  {
    hide Numbered, Leaves, Refill, Apply, WF, In, Out;
    NumberedRebuild(skel, 0, w);
    assert w[0..|w|] == w;
  }
}
