// IR terms: the hash-consed DAG nodes that the bridge compiles, and the
// substitution that gives open compilation its meaning.

module Wrappers {
  datatype Option<+T> = None | Some(value: T)

  datatype Result<+T> = Success(value: T) | Failure(error: Error)

  // The exceptions the modelled code raises.
  datatype Error = ValueError | TypeError | ZeroDivisionError
}

module Terms {
  // An attribute value; two terms agree on an attribute only when they spell
  // it the same way.
  datatype Attr = Num(n: int) | Nums(ns: seq<int>) | Text(s: string)

  type Attrs = map<string, Attr>

  datatype TensorType = TensorType(shape: seq<int>)

  // Hash-consing makes equal terms the same object, so structural equality is
  // the identity the source keys its sets and dictionaries on.  `Raw` stands
  // for an argument of any class other than the four IR classes, by its text
  // and its source form: they differ for a string and agree for a number.
  datatype Term =
    | Var(name: string, typ: TensorType)
    | Param(name: string, typ: TensorType)
    | Const(spelling: string)
    | Raw(text: string, repr: string)
    | Op(op: string, args: seq<Term>, attrs: Attrs)

  // An op without attributes.
  function Plain(op: string, args: seq<Term>): Term {
    Op(op, args, map[])
  }

  // The attributes of a concat along the sequence axis.
  function ConcatAttrs(): Attrs {
    map["dim" := Num(-2)]
  }

  predicate IsPack(t: Term) {
    t.Op? && t.op == "pack"
  }

  // Tree size: a strict bound on every child, used as the order that keeps a
  // term from being its own descendant.
  function Size(t: Term): nat {
    match t
    case Op(_, args, _) => 1 + SizeAll(args)
    case _ => 1
  }

  function SizeAll(ts: seq<Term>): nat {
    if ts == [] then 0 else Size(ts[0]) + SizeAll(ts[1..])
  }

  lemma {:induction false} SizeOfMember(ts: seq<Term>, a: Term)
    requires a in ts
    ensures Size(a) <= SizeAll(ts)
  {
    if a == ts[0] {
    } else {
      SizeOfMember(ts[1..], a);
    }
  }

  // The distinct subterms of a term, itself included.
  function Subterms(t: Term): set<Term> {
    match t
    case Op(_, args, _) => {t} + SubtermsAll(args)
    case _ => {t}
  }

  function SubtermsAll(ts: seq<Term>): set<Term> {
    if ts == [] then {} else Subterms(ts[0]) + SubtermsAll(ts[1..])
  }

  lemma {:induction false} SubtermsAllMember(ts: seq<Term>, a: Term)
    requires a in ts
    ensures Subterms(a) <= SubtermsAll(ts)
  {
    if a == ts[0] {
    } else {
      SubtermsAllMember(ts[1..], a);
    }
  }

  lemma {:induction false} SubtermsAllInverse(ts: seq<Term>, s: Term)
    requires s in SubtermsAll(ts)
    ensures exists a :: a in ts && s in Subterms(a)
  {
    if s in Subterms(ts[0]) {
    } else {
      SubtermsAllInverse(ts[1..], s);
    }
  }

  lemma ChildIsSubterm(t: Term, a: Term)
    requires t.Op? && a in t.args
    ensures a in Subterms(t)
  {
    SubtermsAllMember(t.args, a);
  }

  lemma {:induction false} SubtermSize(t: Term, s: Term)
    requires s in Subterms(t)
    ensures s == t || Size(s) < Size(t)
    decreases t
  {
    if !t.Op? || s == t {
    } else {
      SubtermsAllInverse(t.args, s);
      var a :| a in t.args && s in Subterms(a);
      SizeOfMember(t.args, a);
      SubtermSize(a, s);
    }
  }

  // A set of terms that contains a term and, with each op, its arguments.
  ghost predicate ArgClosed(c: set<Term>) {
    forall t, a :: t in c && t.Op? && a in t.args ==> a in c
  }

  // The least closed set around a term is its set of subterms.
  lemma {:induction false} ClosedContainsSubterms(t: Term, c: set<Term>)
    requires t in c && ArgClosed(c)
    ensures Subterms(t) <= c
    decreases t
  {
    forall s | s in Subterms(t)
      ensures s in c
    {
      if t.Op? && s != t {
        SubtermsAllInverse(t.args, s);
        var a :| a in t.args && s in Subterms(a);
        ClosedContainsSubterms(a, c);
      }
    }
  }

  lemma SubtermsClosed(t: Term)
    ensures ArgClosed(Subterms(t))
  {
    forall s, a | s in Subterms(t) && s.Op? && a in s.args
      ensures a in Subterms(t)
    {
      SubtermTransitive(t, s);
      ChildIsSubterm(s, a);
    }
  }

  lemma {:induction false} SubtermTransitive(t: Term, s: Term)
    requires s in Subterms(t)
    ensures Subterms(s) <= Subterms(t)
    decreases t
  {
    if s == t {
    } else {
      SubtermsAllInverse(t.args, s);
      var a :| a in t.args && s in Subterms(a);
      SubtermTransitive(a, s);
      SubtermsAllMember(t.args, a);
    }
  }

  // Replace every occurrence of a key by its value, outermost first.
  function Subst(t: Term, env: map<Term, Term>): Term {
    if t in env then env[t]
    else if t.Op? then Op(t.op, SubstAll(t.args, env), t.attrs)
    else t
  }

  function SubstAll(ts: seq<Term>, env: map<Term, Term>): (r: seq<Term>)
    ensures |r| == |ts|
    ensures forall i :: 0 <= i < |ts| ==> r[i] == Subst(ts[i], env)
  {
    if ts == [] then [] else [Subst(ts[0], env)] + SubstAll(ts[1..], env)
  }

  // A substitution that moves nothing the term contains leaves the term alone.
  lemma {:induction false} SubstFixed(t: Term, env: map<Term, Term>)
    requires forall k :: k in env && k in Subterms(t) ==> env[k] == k
    ensures Subst(t, env) == t
    decreases t
  {
    if t in env || !t.Op? {
    } else {
      forall i | 0 <= i < |t.args|
        ensures Subst(t.args[i], env) == t.args[i]
      {
        SubtermsAllMember(t.args, t.args[i]);
        SubstFixed(t.args[i], env);
      }
      assert SubstAll(t.args, env) == t.args;
    }
  }

  lemma SubstAllFixed(ts: seq<Term>, env: map<Term, Term>)
    requires forall k :: k in env && k in SubtermsAll(ts) ==> env[k] == k
    ensures SubstAll(ts, env) == ts
  {
    forall i | 0 <= i < |ts|
      ensures Subst(ts[i], env) == ts[i]
    {
      SubtermsAllMember(ts, ts[i]);
      SubstFixed(ts[i], env);
    }
  }

  lemma SubstAllConcat(xs: seq<Term>, ys: seq<Term>, env: map<Term, Term>)
    ensures SubstAll(xs + ys, env) == SubstAll(xs, env) + SubstAll(ys, env)
  {
  }
}
