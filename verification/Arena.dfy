// The flat arena a term is sent through: appended children first, read back
// from the returned index.

module Arena {
  import opened Terms

  // A rendered term: a kind and its children.
  datatype Rendered = Rendered(kind: string, children: seq<Rendered>)

  datatype Entry = Entry(kind: string, kids: seq<int>)

  // How a leaf is spelled: a named leaf by its name, anything else by its text.
  function Spelling(t: Term): string
    requires !t.Op?
  {
    match t
    case Var(name, _) => name
    case Param(name, _) => name
    case Const(text) => text
    case Raw(text, _) => text
  }

  // The rendering prints a foreign leaf by its source form instead.
  function Printed(t: Term): string
    requires !t.Op?
  {
    if t.Raw? then t.repr else Spelling(t)
  }

  function Render(t: Term): Rendered {
    if t.Op? then Rendered(t.op, RenderAll(t.args)) else Rendered(Printed(t), [])
  }

  function RenderAll(ts: seq<Term>): (r: seq<Rendered>)
    ensures |r| == |ts|
    ensures forall i :: 0 <= i < |ts| ==> r[i] == Render(ts[i])
  {
    if ts == [] then [] else [Render(ts[0])] + RenderAll(ts[1..])
  }

  // What the arena holds: leaves by their spelling.
  function Spelled(t: Term): Rendered {
    if t.Op? then Rendered(t.op, SpelledAll(t.args)) else Rendered(Spelling(t), [])
  }

  function SpelledAll(ts: seq<Term>): (r: seq<Rendered>)
    ensures |r| == |ts|
    ensures forall i :: 0 <= i < |ts| ==> r[i] == Spelled(ts[i])
  {
    if ts == [] then [] else [Spelled(ts[0])] + SpelledAll(ts[1..])
  }

  // Children stand before their parents.
  predicate Grounded(entries: seq<Entry>) {
    forall i, j :: 0 <= i < |entries| && 0 <= j < |entries[i].kids| ==> 0 <= entries[i].kids[j] < i
  }

  function Decode(entries: seq<Entry>, index: int): Rendered
    requires Grounded(entries) && 0 <= index < |entries|
    decreases index
  {
    Rendered(entries[index].kind, DecodeAll(entries, entries[index].kids, index))
  }

  function DecodeAll(entries: seq<Entry>, kids: seq<int>, below: int): (r: seq<Rendered>)
    requires Grounded(entries) && below <= |entries|
    requires forall j :: 0 <= j < |kids| ==> 0 <= kids[j] < below
    ensures |r| == |kids|
    ensures forall j :: 0 <= j < |kids| ==> r[j] == Decode(entries, kids[j])
    decreases below, 0, |kids|
  {
    if kids == [] then [] else [Decode(entries, kids[0])] + DecodeAll(entries, kids[1..], below)
  }

  // Appending entries changes nothing that was readable.
  lemma {:induction false} DecodeStable(entries: seq<Entry>, more: seq<Entry>, index: int)
    requires Grounded(entries) && Grounded(entries + more) && 0 <= index < |entries|
    ensures Decode(entries + more, index) == Decode(entries, index)
    decreases index
  {
    var kids := entries[index].kids;
    assert (entries + more)[index] == entries[index];
    forall j | 0 <= j < |kids|
      ensures Decode(entries + more, kids[j]) == Decode(entries, kids[j])
    {
      DecodeStable(entries, more, kids[j]);
    }
    assert DecodeAll(entries + more, kids, index) == DecodeAll(entries, kids, index);
  }

  lemma GroundedSnoc(entries: seq<Entry>, e: Entry)
    requires Grounded(entries) && forall j :: 0 <= j < |e.kids| ==> 0 <= e.kids[j] < |entries|
    ensures Grounded(entries + [e])
  {
  }

  lemma DecodeLast(entries: seq<Entry>, e: Entry, kids: seq<Rendered>)
    requires Grounded(entries) && |e.kids| == |kids|
    requires forall j :: 0 <= j < |kids| ==> 0 <= e.kids[j] < |entries| && Decode(entries, e.kids[j]) == kids[j]
    ensures Grounded(entries + [e]) && Decode(entries + [e], |entries|) == Rendered(e.kind, kids)
  {
    hide Grounded, Decode;
    GroundedSnoc(entries, e);
    var all := entries + [e];
    assert all[|entries|] == e;
    forall j | 0 <= j < |kids|
      ensures Decode(all, e.kids[j]) == kids[j]
    {
      DecodeStable(entries, [e], e.kids[j]);
    }
    assert DecodeAll(all, e.kids, |entries|) == kids;
    DecodeEntry(all, |entries|);
  }

  lemma DecodeEntry(entries: seq<Entry>, index: nat)
    requires Grounded(entries) && index < |entries|
    ensures forall j :: 0 <= j < |entries[index].kids| ==> 0 <= entries[index].kids[j] < index
    ensures Decode(entries, index) == Rendered(entries[index].kind, DecodeAll(entries, entries[index].kids, index))
  {
  }

  class Buffer {
    var entries: seq<Entry>

    constructor (start: seq<Entry>)
      ensures entries == start
    {
      entries := start;
    }

    // Append a term children first and return its index; everything already in
    // the buffer stays where it is.
    method Flatten(t: Term) returns (index: int)
      requires Grounded(entries)
      modifies this
      ensures Grounded(entries) && old(entries) <= entries && index == |entries| - 1 >= |old(entries)|
      ensures Decode(entries, index) == Spelled(t)
      decreases t, 1
    {
      if !t.Op? {
        var e := Entry(Spelling(t), []);
        DecodeLast(entries, e, []);
        entries := entries + [e];
        return |entries| - 1;
      }
      var kids := FlattenAll(t.args);
      var e := Entry(t.op, kids);
      DecodeLast(entries, e, SpelledAll(t.args));
      entries := entries + [e];
      index := |entries| - 1;
    }

    method FlattenAll(ts: seq<Term>) returns (kids: seq<int>)
      requires Grounded(entries)
      modifies this
      ensures Grounded(entries) && old(entries) <= entries
      ensures |kids| == |ts|
      ensures forall j :: 0 <= j < |kids| ==> 0 <= kids[j] < |entries| && Decode(entries, kids[j]) == Spelled(ts[j])
      decreases ts, 0
    {
      kids := [];
      for i := 0 to |ts|
        invariant Grounded(entries) && old(entries) <= entries && |kids| == i
        invariant forall j :: 0 <= j < i ==> 0 <= kids[j] < |entries| && Decode(entries, kids[j]) == Spelled(ts[j])
      {
        ghost var before := entries;
        var k := Flatten(ts[i]);
        forall j | 0 <= j < i
          ensures Decode(entries, kids[j]) == Spelled(ts[j])
        {
          assert entries == before + entries[|before|..];
          DecodeStable(before, entries[|before|..], kids[j]);
        }
        kids := kids + [k];
      }
    }
  }

  // Some leaf is no IR term and its source form is not its text, as for a string.
  predicate HasQuoted(t: Term) {
    if t.Op? then exists i :: 0 <= i < |t.args| && HasQuoted(t.args[i]) else t.Raw? && t.text != t.repr
  }

  // Two terms read back alike exactly when they have the same ops over the same
  // number of arguments, down to leaves of the same spelling.
  predicate Alike(t: Term, u: Term) {
    if t.Op? && u.Op? then
      t.op == u.op && |t.args| == |u.args| && forall i :: 0 <= i < |t.args| ==> Alike(t.args[i], u.args[i])
    else if t.Op? then t.args == [] && t.op == Spelling(u)
    else if u.Op? then u.args == [] && u.op == Spelling(t)
    else Spelling(t) == Spelling(u)
  }

  lemma {:induction false} ReadsAlike(t: Term, u: Term)
    ensures Spelled(t) == Spelled(u) <==> Alike(t, u)
    decreases t
  {
    if t.Op? && u.Op? && |t.args| == |u.args| {
      forall i | 0 <= i < |t.args|
        ensures Spelled(t.args[i]) == Spelled(u.args[i]) <==> Alike(t.args[i], u.args[i])
      {
        ReadsAlike(t.args[i], u.args[i]);
      }
      if Alike(t, u) {
        assert SpelledAll(t.args) == SpelledAll(u.args);
      }
      if Spelled(t) == Spelled(u) {
        forall i | 0 <= i < |t.args|
          ensures Spelled(t.args[i]) == Spelled(u.args[i])
        {
          assert SpelledAll(t.args)[i] == SpelledAll(u.args)[i];
        }
      }
    }
  }

  // Leaves of different names, and constants of different text, stay apart, and
  // a leaf reads back under its own name.
  lemma NamesApart(name: string, other: string, x: TensorType, y: TensorType)
    ensures Spelled(Var(name, x)).kind == Spelled(Param(name, x)).kind == Spelled(Const(name)).kind == name
    ensures Alike(Var(name, x), Var(other, y)) <==> name == other
    ensures Alike(Param(name, x), Param(other, y)) <==> name == other
    ensures Alike(Const(name), Const(other)) <==> name == other
  {
  }

  // The spelled and the printed form agree exactly on terms without such a
  // leaf, so that is exactly when the arena gives the rendering back.
  lemma {:induction false} SpelledIsRendered(t: Term)
    ensures Spelled(t) == Render(t) <==> !HasQuoted(t)
    decreases t
  {
    if t.Op? {
      forall i | 0 <= i < |t.args|
        ensures Spelled(t.args[i]) == Render(t.args[i]) <==> !HasQuoted(t.args[i])
      {
        SpelledIsRendered(t.args[i]);
      }
      if !HasQuoted(t) {
        assert SpelledAll(t.args) == RenderAll(t.args);
      } else {
        var i :| 0 <= i < |t.args| && HasQuoted(t.args[i]);
        assert SpelledAll(t.args)[i] != RenderAll(t.args)[i];
      }
    }
  }

  // Decoding the flattened term gives its rendering, whatever the arena held
  // before, exactly when no leaf is quoted.
  method RoundTrip(t: Term, prefix: seq<Entry>) returns (entries: seq<Entry>, r: Rendered)
    requires Grounded(prefix)
    ensures prefix <= entries && Grounded(entries)
    ensures r == Render(t) <==> !HasQuoted(t)
  {
    var buffer := new Buffer(prefix);
    var index := buffer.Flatten(t);
    SpelledIsRendered(t);
    entries := buffer.entries;
    r := Decode(entries, index);
  }
}
