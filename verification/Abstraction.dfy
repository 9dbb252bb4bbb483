// Parametric abstraction: a block rebuilt with its own splits and its incoming
// state bound as parameters, and when the parameters give the block back.

module Abstraction {
  import opened Wrappers
  import opened Terms
  import opened Traversal

  // ---------------------------------------------------------------------------
  //  The fresh wires
  // ---------------------------------------------------------------------------

  function StateVar(): Term {
    Var("@S", TensorType([]))
  }

  const DIGITS := "0123456789"

  function Decimal(n: nat): (s: string)
    ensures s != [] && forall i :: 0 <= i < |s| ==> s[i] in DIGITS
  {
    if n < 10 then [DIGITS[n]] else Decimal(n / 10) + [DIGITS[n % 10]]
  }

  lemma {:induction false} DecimalInjective(m: nat, n: nat)
    requires Decimal(m) == Decimal(n)
    ensures m == n
  {
    hide Decimal;
    LastDigit(m);
    LastDigit(n);
    DigitsDiffer(m % 10, n % 10);
    if m >= 10 && n >= 10 {
      DecimalInjective(m / 10, n / 10);
    }
  }

  // A numeral ends in its last digit, and before that spells the rest.
  lemma LastDigit(n: nat)
    ensures var s := Decimal(n);
      && s != [] && s[|s| - 1] == DIGITS[n % 10]
      && (n < 10 <==> |s| == 1) && (n >= 10 ==> s[..|s| - 1] == Decimal(n / 10))
  {
  }

  lemma DigitsDiffer(a: int, b: int)
    requires 0 <= a < 10 && 0 <= b < 10 && DIGITS[a] == DIGITS[b]
    ensures a == b
  {
  }

  function InputVar(j: nat): Term {
    Var("@x" + Decimal(j), TensorType([]))
  }

  lemma InputVarInjective(i: nat, j: nat)
    ensures InputVar(i) == InputVar(j) <==> i == j
    ensures InputVar(i) != StateVar()
  {
    var a, b := "@x" + Decimal(i), "@x" + Decimal(j);
    assert a[2..] == Decimal(i) && b[2..] == Decimal(j);
    assert a[1] == 'x' && "@S"[1] == 'S';
    if InputVar(i) == InputVar(j) {
      DecimalInjective(i, j);
    }
  }

  // ---------------------------------------------------------------------------
  //  The abstraction
  // ---------------------------------------------------------------------------

  predicate IsState(t: Term, state: Option<Term>) {
    state.Some? && t == state.value
  }

  // Outermost first: the state, then the own splits.
  function Abstract(t: Term, own: map<Term, Term>, state: Option<Term>): Term {
    if IsState(t, state) then StateVar()
    else if t in own then own[t]
    else if !t.Op? then t
    else Op(t.op, AbstractAll(t.args, own, state), t.attrs)
  }

  function AbstractAll(ts: seq<Term>, own: map<Term, Term>, state: Option<Term>): (r: seq<Term>)
    ensures |r| == |ts|
    ensures forall i :: 0 <= i < |ts| ==> r[i] == Abstract(ts[i], own, state)
  {
    if ts == [] then [] else [Abstract(ts[0], own, state)] + AbstractAll(ts[1..], own, state)
  }

  // The recursion with its memo table.
  class Memo {
    var table: map<Term, Term>

    constructor ()
      ensures table == map[]
    {
      table := map[];
    }

    // The table only ever holds abstractions of plain ops.
    ghost predicate Valid(own: map<Term, Term>, state: Option<Term>)
      reads this
    {
      forall t :: t in table ==> table[t] == Abstract(t, own, state)
    }

    method AbstractBlock(t: Term, own: map<Term, Term>, state: Option<Term>) returns (r: Term)
      requires Valid(own, state)
      modifies this
      ensures r == Abstract(t, own, state) && Valid(own, state)
      decreases t, 1
    {
      if IsState(t, state) {
        return StateVar();
      }
      if t in own {
        return own[t];
      }
      if !t.Op? {
        return t;
      }
      if t in table {
        return table[t];
      }
      var args := AbstractArgs(t.args, own, state);
      r := Op(t.op, args, t.attrs);
      table := table[t := r];
    }

    method AbstractArgs(ts: seq<Term>, own: map<Term, Term>, state: Option<Term>) returns (r: seq<Term>)
      requires Valid(own, state)
      modifies this
      ensures r == AbstractAll(ts, own, state) && Valid(own, state)
      decreases ts, 0
    {
      r := [];
      for i := 0 to |ts|
        invariant Valid(own, state) && |r| == i
        invariant forall j :: 0 <= j < i ==> r[j] == Abstract(ts[j], own, state)
      {
        var a := AbstractBlock(ts[i], own, state);
        r := r + [a];
      }
    }
  }

  // ---------------------------------------------------------------------------
  //  Instantiation
  // ---------------------------------------------------------------------------

  // The own splits the abstraction replaced: those not inside the state or
  // another own split.
  function Exposed(t: Term, own: map<Term, Term>, state: Option<Term>): set<Term> {
    if IsState(t, state) then {}
    else if t in own then {t}
    else if !t.Op? then {}
    else ExposedAll(t.args, own, state)
  }

  function ExposedAll(ts: seq<Term>, own: map<Term, Term>, state: Option<Term>): set<Term> {
    if ts == [] then {} else Exposed(ts[0], own, state) + ExposedAll(ts[1..], own, state)
  }

  predicate ReadsState(t: Term, own: map<Term, Term>, state: Option<Term>) {
    if IsState(t, state) then true
    else if t in own || !t.Op? then false
    else exists i :: 0 <= i < |t.args| && ReadsState(t.args[i], own, state)
  }

  lemma {:induction false} ExposedMember(ts: seq<Term>, i: nat, own: map<Term, Term>, state: Option<Term>)
    requires i < |ts|
    ensures Exposed(ts[i], own, state) <= ExposedAll(ts, own, state)
  {
    if i == 0 {
    } else {
      ExposedMember(ts[1..], i - 1, own, state);
    }
  }

  lemma {:induction false} ExposedInverse(ts: seq<Term>, own: map<Term, Term>, state: Option<Term>, s: Term) returns (i: nat)
    requires s in ExposedAll(ts, own, state)
    ensures i < |ts| && s in Exposed(ts[i], own, state)
  {
    if s in Exposed(ts[0], own, state) {
      i := 0;
    } else {
      var j := ExposedInverse(ts[1..], own, state, s);
      i := j + 1;
    }
  }

  lemma {:induction false} ExposedOwn(t: Term, own: map<Term, Term>, state: Option<Term>, s: Term)
    requires s in Exposed(t, own, state)
    ensures s in own && s in Subterms(t)
    decreases t
  {
    if t in own {
    } else {
      var i := ExposedInverse(t.args, own, state, s);
      ExposedOwn(t.args[i], own, state, s);
      SubtermsAllMember(t.args, t.args[i]);
    }
  }

  // The wires the abstraction may introduce.
  function FreshWires(own: map<Term, Term>): set<Term> {
    own.Values + {StateVar()}
  }

  // The own splits are ops, carried by wires that occur nowhere in the block,
  // and the state wire carries no split.
  ghost predicate Parametric(t: Term, own: map<Term, Term>) {
    && (forall s :: s in own ==> s.Op? && own[s].Var? && own[s] != StateVar())
    && FreshWires(own) !! Subterms(t)
  }

  // The instantiation gives every wire the block uses back what it stands for.
  ghost predicate Restores(env: map<Term, Term>, t: Term, own: map<Term, Term>, state: Option<Term>) {
    && (forall s :: s in Exposed(t, own, state) ==> s in own && own[s] in env && env[own[s]] == s)
    && (ReadsState(t, own, state) ==> StateVar() in env && IsState(env[StateVar()], state))
  }

  lemma RestoresArg(env: map<Term, Term>, t: Term, own: map<Term, Term>, state: Option<Term>, i: nat)
    requires t.Op? && t !in own && !IsState(t, state) && i < |t.args| && Restores(env, t, own, state)
    ensures Restores(env, t.args[i], own, state)
  {
    ExposedMember(t.args, i, own, state);
  }

  lemma ParametricArg(t: Term, own: map<Term, Term>, i: nat)
    requires t.Op? && i < |t.args| && Parametric(t, own)
    ensures Parametric(t.args[i], own)
  {
    SubtermsAllMember(t.args, t.args[i]);
  }

  // An instantiation of the fresh wires gives the block back exactly when it
  // restores every wire the block uses.
  lemma {:induction false} InstantiatesExactly(t: Term, own: map<Term, Term>, state: Option<Term>, env: map<Term, Term>)
    requires Parametric(t, own) && env.Keys <= FreshWires(own)
    ensures Subst(Abstract(t, own, state), env) == t <==> Restores(env, t, own, state)
    decreases t
  {
    assert t in Subterms(t);
    if t.Op? && t !in own && !IsState(t, state) {
      var args := AbstractAll(t.args, own, state);
      forall i | 0 <= i < |t.args|
        ensures Subst(args[i], env) == t.args[i] <==> Restores(env, t.args[i], own, state)
      {
        ParametricArg(t, own, i);
        InstantiatesExactly(t.args[i], own, state, env);
      }
      assert Abstract(t, own, state) !in env;
      SubstArgs(args, t.args, env);
      RestoresAll(t, own, state, env);
    }
  }

  // The wires occur in no split and not in the state either.
  ghost predicate KeysApart(own: map<Term, Term>, state: Option<Term>) {
    && (forall s :: s in own ==> FreshWires(own) !! Subterms(s))
    && (state.Some? ==> FreshWires(own) !! Subterms(state.value))
  }

  // An abstraction in which no wire turns up has changed nothing.
  lemma {:induction false} Untouched(t: Term, own: map<Term, Term>, state: Option<Term>)
    requires FreshWires(own) !! Subterms(Abstract(t, own, state))
    ensures Abstract(t, own, state) == t
    decreases t
  {
    var r := Abstract(t, own, state);
    assert r in Subterms(r);
    if IsState(t, state) || t in own || !t.Op? {
    } else {
      forall i | 0 <= i < |t.args|
        ensures r.args[i] == t.args[i]
      {
        SubtermsAllMember(r.args, r.args[i]);
        Untouched(t.args[i], own, state);
      }
      assert r.args == t.args;
    }
  }

  // No own split and no state is left anywhere in the abstraction.
  lemma {:induction false} NothingLeft(t: Term, own: map<Term, Term>, state: Option<Term>, s: Term)
    requires Parametric(t, own) && KeysApart(own, state) && s in Subterms(Abstract(t, own, state))
    ensures s !in own && !IsState(s, state)
    decreases t
  {
    var r := Abstract(t, own, state);
    assert r in Subterms(r) && t in Subterms(t);
    if IsState(t, state) || t in own {
      WiresAreNoKeys(own, state, r);
    } else if t.Op? && s != r {
      SubtermsAllInverse(r.args, s);
      var a :| a in r.args && s in Subterms(a);
      var i :| 0 <= i < |t.args| && r.args[i] == a;
      ParametricArg(t, own, i);
      NothingLeft(t.args[i], own, state, s);
    } else if s in own || IsState(s, state) {
      Untouched(t, own, state);
      assert false;
    }
  }

  lemma WiresAreNoKeys(own: map<Term, Term>, state: Option<Term>, x: Term)
    requires KeysApart(own, state) && x in FreshWires(own)
    ensures x !in own && !IsState(x, state)
  {
    assert x in Subterms(x);
  }

  // The wires in the abstraction are those of the exposed splits, and the state
  // wire exactly when the block reads its state.
  lemma {:induction false} WiresExactly(t: Term, own: map<Term, Term>, state: Option<Term>, x: Term)
    requires Parametric(t, own) && x in FreshWires(own)
    ensures x in Subterms(Abstract(t, own, state)) <==>
      if x == StateVar() then ReadsState(t, own, state) else exists s :: s in Exposed(t, own, state) && s in own && own[s] == x
    decreases t
  {
    var r := Abstract(t, own, state);
    assert t in Subterms(t);
    if t.Op? && t !in own && !IsState(t, state) {
      forall i | 0 <= i < |t.args|
        ensures x in Subterms(r.args[i]) <==> if x == StateVar() then ReadsState(t.args[i], own, state)
          else exists s :: s in Exposed(t.args[i], own, state) && s in own && own[s] == x
      {
        ParametricArg(t, own, i);
        WiresExactly(t.args[i], own, state, x);
      }
      WiresOfArgs(r.args, x);
      ExposedOfArgs(t.args, own, state, x);
      assert x != r;
    }
  }

  lemma WiresOfArgs(args: seq<Term>, x: Term)
    ensures x in SubtermsAll(args) <==> exists i :: 0 <= i < |args| && x in Subterms(args[i])
  {
    if x in SubtermsAll(args) {
      SubtermsAllInverse(args, x);
      var a :| a in args && x in Subterms(a);
      var i :| 0 <= i < |args| && args[i] == a;
    }
    if i :| 0 <= i < |args| && x in Subterms(args[i]) {
      SubtermsAllMember(args, args[i]);
    }
  }

  lemma ExposedOfArgs(ts: seq<Term>, own: map<Term, Term>, state: Option<Term>, x: Term)
    ensures (exists s :: s in ExposedAll(ts, own, state) && s in own && own[s] == x)
      <==> exists i :: 0 <= i < |ts| && exists s :: s in Exposed(ts[i], own, state) && s in own && own[s] == x
  {
    if s :| s in ExposedAll(ts, own, state) && s in own && own[s] == x {
      var i := ExposedInverse(ts, own, state, s);
      assert s in Exposed(ts[i], own, state);
    }
    if i :| 0 <= i < |ts| && exists s :: s in Exposed(ts[i], own, state) && s in own && own[s] == x {
      var s :| s in Exposed(ts[i], own, state) && s in own && own[s] == x;
      ExposedMember(ts, i, own, state);
    }
  }

  lemma SubstArgs(args: seq<Term>, ts: seq<Term>, env: map<Term, Term>)
    requires |args| == |ts|
    ensures SubstAll(args, env) == ts <==> forall i :: 0 <= i < |ts| ==> Subst(args[i], env) == ts[i]
  {
  }

  lemma RestoresAll(t: Term, own: map<Term, Term>, state: Option<Term>, env: map<Term, Term>)
    requires t.Op? && t !in own && !IsState(t, state)
    ensures Restores(env, t, own, state) <==> forall i :: 0 <= i < |t.args| ==> Restores(env, t.args[i], own, state)
  {
    if Restores(env, t, own, state) {
      forall i | 0 <= i < |t.args|
        ensures Restores(env, t.args[i], own, state)
      {
        RestoresArg(env, t, own, state, i);
      }
    }
    if forall i :: 0 <= i < |t.args| ==> Restores(env, t.args[i], own, state) {
      forall s | s in Exposed(t, own, state)
        ensures s in own && own[s] in env && env[own[s]] == s
      {
        var i := ExposedInverse(t.args, own, state, s);
      }
    }
  }

  // No two exposed splits share a wire.
  ghost predicate OneSplitPerWire(t: Term, own: map<Term, Term>, state: Option<Term>) {
    forall r, s :: r in Exposed(t, own, state) && s in Exposed(t, own, state) && r in own && s in own && own[r] == own[s] ==> r == s
  }

  // The instantiation that maps each wire back to its split.
  ghost function Inverse(t: Term, own: map<Term, Term>, state: Option<Term>): map<Term, Term>
    requires forall s :: s in own ==> own[s] != StateVar()
  {
    var splits := map x | x in own.Values && exists s :: s in Exposed(t, own, state) && s in own && own[s] == x
      :: (var s :| s in Exposed(t, own, state) && s in own && own[s] == x; s);
    if state.Some? then splits[StateVar() := state.value] else splits
  }

  lemma InverseRestores(t: Term, own: map<Term, Term>, state: Option<Term>)
    requires Parametric(t, own) && OneSplitPerWire(t, own, state)
    ensures Inverse(t, own, state).Keys <= FreshWires(own) && Restores(Inverse(t, own, state), t, own, state)
  {
    var env := Inverse(t, own, state);
    forall s | s in Exposed(t, own, state)
      ensures s in own && own[s] in env && env[own[s]] == s
    {
      ExposedOwn(t, own, state, s);
    }
    if ReadsState(t, own, state) {
      ReadsSome(t, own, state);
    }
  }

  lemma {:induction false} ReadsSome(t: Term, own: map<Term, Term>, state: Option<Term>)
    requires ReadsState(t, own, state)
    ensures state.Some?
    decreases t
  {
    if IsState(t, state) {
    } else {
      var i :| 0 <= i < |t.args| && ReadsState(t.args[i], own, state);
      ReadsSome(t.args[i], own, state);
    }
  }

  // Abstraction can be undone by instantiating its wires exactly when no wire
  // carries two of the block's splits.
  lemma AbstractionInvertible(t: Term, own: map<Term, Term>, state: Option<Term>)
    requires Parametric(t, own)
    ensures (exists env: map<Term, Term> :: env.Keys <= FreshWires(own) && Subst(Abstract(t, own, state), env) == t)
      <==> OneSplitPerWire(t, own, state)
  {
    if OneSplitPerWire(t, own, state) {
      InverseRestores(t, own, state);
      InstantiatesExactly(t, own, state, Inverse(t, own, state));
    }
    if env: map<Term, Term> :| env.Keys <= FreshWires(own) && Subst(Abstract(t, own, state), env) == t {
      InstantiatesExactly(t, own, state, env);
    }
  }

  // ---------------------------------------------------------------------------
  //  Split slots
  // ---------------------------------------------------------------------------

  // A source's slot, numbered in order of first meeting.
  ghost predicate Numbering(slot: map<Term, nat>) {
    && (forall a :: a in slot ==> slot[a] < |slot|)
    && forall a, b :: a in slot && b in slot && slot[a] == slot[b] ==> a == b
  }

  // The block's own splits, each carried by its source's wire.
  ghost predicate Slotted(m: map<Term, Term>, splits: set<Term>, slot: map<Term, nat>) {
    && (forall s :: s in m <==> s in splits)
    && forall s :: s in m ==> s.Op? && s.args != [] && s.args[0] in slot && m[s] == InputVar(slot[s.args[0]])
  }

  lemma NewSlot(slot: map<Term, nat>, a: Term)
    requires Numbering(slot) && a !in slot
    ensures Numbering(slot[a := |slot|])
  {
    OneMoreKey(slot, a, |slot|);
    var more := slot[a := |slot|];
    forall x, y | x in more && y in more && more[x] == more[y]
      ensures x == y
    {
      assert x != a ==> more[x] == slot[x] < |slot|;
      assert y != a ==> more[y] == slot[y] < |slot|;
    }
  }

  lemma OneMoreKey(slot: map<Term, nat>, a: Term, k: nat)
    requires a !in slot
    ensures |slot[a := k]| == |slot| + 1
  {
    var more := slot[a := k];
    assert more.Keys == slot.Keys + {a};
    assert |more| == |more.Keys| == |slot.Keys| + 1;
  }

  lemma SlottedGrows(m: map<Term, Term>, splits: set<Term>, slot: map<Term, nat>, more: map<Term, nat>)
    requires Slotted(m, splits, slot) && forall a :: a in slot ==> a in more && more[a] == slot[a]
    ensures Slotted(m, splits, more)
  {
  }

  // Every block so far has its own splits slotted.
  ghost predicate AllSlotted(ownOf: seq<map<Term, Term>>, blocks: seq<Term>, own: seq<set<Term>>, slot: map<Term, nat>)
    requires |blocks| == |own|
  {
    |ownOf| <= |blocks| && forall i :: 0 <= i < |ownOf| ==> Slotted(ownOf[i], own[i] * OpSubterms(blocks[i]), slot)
  }

  lemma SlotsNext(ownOf: seq<map<Term, Term>>, blocks: seq<Term>, own: seq<set<Term>>, before: map<Term, nat>,
                  m: map<Term, Term>, subs: seq<Term>, slot: map<Term, nat>)
    requires |blocks| == |own| && |ownOf| < |blocks| && AllSlotted(ownOf, blocks, own, before)
    requires forall a :: a in before ==> a in slot && slot[a] == before[a]
    requires forall s :: s in subs <==> s in OpSubterms(blocks[|ownOf|])
    requires Slotted(m, OwnAmong(subs, own[|ownOf|]), slot)
    ensures AllSlotted(ownOf + [m], blocks, own, slot)
  {
    hide Slotted, OpSubterms;
    var n, all := |ownOf|, ownOf + [m];
    assert OwnAmong(subs, own[n]) == own[n] * OpSubterms(blocks[n]);
    forall j | 0 <= j < |all|
      ensures Slotted(all[j], own[j] * OpSubterms(blocks[j]), slot)
    {
      if j < n {
        SlottedGrows(ownOf[j], own[j] * OpSubterms(blocks[j]), before, slot);
      }
    }
  }

  lemma NoSlots(blocks: seq<Term>, own: seq<set<Term>>)
    requires |blocks| == |own|
    ensures Numbering(map[]) && AllSlotted([], blocks, own, map[])
  {
  }

  method SplitSlots(blocks: seq<Term>, own: seq<set<Term>>) returns (ownOf: seq<map<Term, Term>>, nSlots: nat, ghost slot: map<Term, nat>)
    requires |blocks| == |own|
    requires forall i, s :: 0 <= i < |own| && s in own[i] ==> s.Op? && s.args != []
    ensures |ownOf| == |blocks| && nSlots == |slot| && Numbering(slot)
    ensures forall i :: 0 <= i < |blocks| ==> Slotted(ownOf[i], own[i] * OpSubterms(blocks[i]), slot)
  {
    hide Slotted, OpSubterms, Numbering, OwnAmong;
    var slots: map<Term, nat> := map[];
    ownOf := [];
    NoSlots(blocks, own);
    for i := 0 to |blocks|
      invariant |ownOf| == i && Numbering(slots) && AllSlotted(ownOf, blocks, own, slots)
    {
      var subs := ListOps(blocks[i]);
      var m: map<Term, Term>;
      ghost var before := slots;
      m, slots := SlotBlock(subs, own[i], slots);
      SlotsNext(ownOf, blocks, own, before, m, subs, slots);
      ownOf := ownOf + [m];
    }
    nSlots := |slots|;
    slot := slots;
  }

  function OwnAmong(subs: seq<Term>, own: set<Term>): set<Term> {
    set s | s in subs && s in own
  }

  method SlotBlock(subs: seq<Term>, own: set<Term>, before: map<Term, nat>) returns (m: map<Term, Term>, slots: map<Term, nat>)
    requires Numbering(before) && forall s :: s in own ==> s.Op? && s.args != []
    ensures Numbering(slots) && forall a :: a in before ==> a in slots && slots[a] == before[a]
    ensures Slotted(m, OwnAmong(subs, own), slots)
  {
    hide Slotted, Numbering, InputVar, OwnAmong;
    m, slots := map[], before;
    NoneOwn(own, slots);
    for k := 0 to |subs|
      invariant Numbering(slots) && forall a :: a in before ==> a in slots && slots[a] == before[a]
      invariant Slotted(m, OwnAmong(subs[..k], own), slots)
    {
      var s := subs[k];
      assert subs[..k + 1] == subs[..k] + [s];
      OwnSnoc(subs[..k], s, own);
      if s in own {
        var src := s.args[0];
        if src !in slots {
          NewSlot(slots, src);
          SlottedGrows(m, OwnAmong(subs[..k], own), slots, slots[src := |slots|]);
          slots := slots[src := |slots|];
        }
        SlotOne(m, OwnAmong(subs[..k], own), slots, s);
        m := m[s := InputVar(slots[src])];
      }
    }
    assert subs[..|subs|] == subs;
  }

  lemma NoneOwn(own: set<Term>, slot: map<Term, nat>)
    ensures Slotted(map[], OwnAmong([], own), slot)
  {
  }

  lemma OwnSnoc(subs: seq<Term>, s: Term, own: set<Term>)
    ensures OwnAmong(subs + [s], own) == OwnAmong(subs, own) + if s in own then {s} else {}
  {
  }

  lemma SlotOne(m: map<Term, Term>, splits: set<Term>, slot: map<Term, nat>, s: Term)
    requires Slotted(m, splits, slot) && s.Op? && s.args != [] && s.args[0] in slot
    ensures Slotted(m[s := InputVar(slot[s.args[0]])], splits + {s}, slot)
  {
    hide InputVar;
  }

  predicate SameSource(r: Term, s: Term) {
    r.Op? && s.Op? && r.args != [] && s.args != [] && r.args[0] == s.args[0]
  }

  // The block exposes at most one split of each source.
  ghost predicate OneSplitPerSource(t: Term, own: map<Term, Term>, state: Option<Term>) {
    forall r, s :: r in Exposed(t, own, state) && s in Exposed(t, own, state) && SameSource(r, s) ==> r == s
  }

  // With the wires the slots hand out, a block's abstraction can be undone
  // exactly when it exposes at most one split of each source.
  lemma SlottedInvertible(t: Term, own: map<Term, Term>, splits: set<Term>, slot: map<Term, nat>, state: Option<Term>)
    requires Slotted(own, splits, slot) && Numbering(slot) && FreshWires(own) !! Subterms(t)
    ensures (exists env: map<Term, Term> :: env.Keys <= FreshWires(own) && Subst(Abstract(t, own, state), env) == t)
      <==> OneSplitPerSource(t, own, state)
  {
    hide Abstract, Subst, Exposed, FreshWires, InputVar, StateVar, Slotted, Numbering, SameSource;
    SlottedParametric(t, own, splits, slot);
    AbstractionInvertible(t, own, state);
    forall r, s | r in Exposed(t, own, state) && s in Exposed(t, own, state)
      ensures r in own && s in own && (own[r] == own[s] <==> SameSource(r, s))
    {
      PairAgrees(t, own, splits, slot, state, r, s);
    }
  }

  lemma SlottedParametric(t: Term, own: map<Term, Term>, splits: set<Term>, slot: map<Term, nat>)
    requires Slotted(own, splits, slot) && FreshWires(own) !! Subterms(t)
    ensures Parametric(t, own)
  {
    hide InputVar, StateVar, FreshWires, Subterms;
    forall s | s in own
      ensures s.Op? && own[s].Var? && own[s] != StateVar()
    {
      WireIsVar(slot[s.args[0]]);
    }
  }

  lemma PairAgrees(t: Term, own: map<Term, Term>, splits: set<Term>, slot: map<Term, nat>, state: Option<Term>, r: Term, s: Term)
    requires Slotted(own, splits, slot) && Numbering(slot)
    requires r in Exposed(t, own, state) && s in Exposed(t, own, state)
    ensures r in own && s in own && (own[r] == own[s] <==> SameSource(r, s))
  {
    hide InputVar, Exposed, Subterms;
    ExposedOwn(t, own, state, r);
    ExposedOwn(t, own, state, s);
    InputVarInjective(slot[r.args[0]], slot[s.args[0]]);
  }

  lemma WireIsVar(j: nat)
    ensures InputVar(j).Var? && InputVar(j) != StateVar()
  {
    InputVarInjective(j, j);
  }
}
