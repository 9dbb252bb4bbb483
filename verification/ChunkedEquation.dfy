// The chunkwise recurrence: a loop over chunks that updates one state matrix
// and writes one slice of the cross term at a time.

module ChunkedEquation {
  import opened Wrappers
  import opened Decay
  import opened Morphisms
  import opened Retention

  // The state after the positions before n weighs position p by g^(n-1-p).
  ghost predicate ChunkState(x: Data, s: Grid, n: int)
    requires x.Valid()
  {
    Carried(x, s, n - 1, n)
  }

  // (q * g^(r+1)) @ state, one entry.
  function CrossTerm(x: Data, s: Grid, t: int, r: int, b: int): int -> real
    requires x.Valid()
  {
    a => (x.q(t, a) * Pow(x.g, r + 1)) * s(a, b)
  }

  // k^T @ (v * g^(c-1-u)), one entry.
  function ChunkTerm(x: Data, lo: int, c: int, a: int, b: int): int -> real
    requires x.Valid()
  {
    u => x.k(lo + u, a) * (x.v(lo + u, b) * Pow(x.g, c - 1 - u))
  }

  function NextChunkState(x: Data, s: Grid, lo: int, c: int): Grid
    requires x.Valid()
  {
    (a, b) => s(a, b) * Pow(x.g, c) + Sum(ChunkTerm(x, lo, c, a, b), 0, c)
  }

  // The chunk's cross term is the decayed sum over everything before it.
  lemma CrossIs(x: Data, s: Grid, lo: int, c: int, r: int, b: int)
    requires x.Valid() && lo >= 0 && 0 <= r < c && ChunkState(x, s, lo)
    ensures Sum(CrossTerm(x, s, lo + r, r, b), 0, x.d) == Sum(x.Decayed(lo + r, b), 0, lo)
  {
    hide Pow, Sum;
    var t := lo + r;
    var f, h := ReadTerm(x, s, t, b), CrossTerm(x, s, t, r, b);
    forall a | 0 <= a < x.d
      ensures h(a) == Scaled(Pow(x.g, r + 1), f)(a)
    {
      Pull(x.q(t, a), Pow(x.g, r + 1), s(a, b));
    }
    SumEq(h, Scaled(Pow(x.g, r + 1), f), 0, x.d);
    SumScale(Pow(x.g, r + 1), f, 0, x.d);
    ReadIs(x, s, lo - 1, lo, 1, r, b);
    PowZero(x.g);
  }

  lemma Pull(q: real, w: real, s: real)
    ensures (q * w) * s == w * (q * s)
  {
  }

  // One chunk moves the state to the next chunk's start.
  lemma ChunkStep(x: Data, s: Grid, lo: int, c: int)
    requires x.Valid() && lo >= 0 && c >= 0 && ChunkState(x, s, lo)
    ensures ChunkState(x, NextChunkState(x, s, lo, c), lo + c)
  {
    hide Pow, Sum, NextState, Carried;
    var w := Wires(c, c - 1, 1);
    AlignedStep(x, lo, c, w, s, lo - 1);
    forall a, b
      ensures NextChunkState(x, s, lo, c)(a, b) == NextState(x, lo, c, w, s)(a, b)
    {
      SameStep(x, s, lo, c, a, b);
    }
    SameCarried(x, NextState(x, lo, c, w, s), NextChunkState(x, s, lo, c), lo + c - 1, lo + c);
  }

  lemma SameStep(x: Data, s: Grid, lo: int, c: int, a: int, b: int)
    requires x.Valid()
    ensures NextChunkState(x, s, lo, c)(a, b) == NextState(x, lo, c, Wires(c, c - 1, 1), s)(a, b)
  {
    hide Pow, Sum;
    forall u | 0 <= u < c
      ensures ChunkTerm(x, lo, c, a, b)(u) == BlockTerm(x, lo, c - 1, a, b)(u)
    {
      assert c - 1 - u == -u + (c - 1);
      Reorder(x.k(lo + u, a), x.v(lo + u, b), Pow(x.g, c - 1 - u));
    }
    SumEq(ChunkTerm(x, lo, c, a, b), BlockTerm(x, lo, c - 1, a, b), 0, c);
  }

  lemma Reorder(k: real, v: real, w: real)
    ensures k * (v * w) == k * w * v
  {
  }

  lemma SameCarried(x: Data, s: Grid, t: Grid, off: int, n: int)
    requires x.Valid() && Carried(x, s, off, n) && forall a, b :: t(a, b) == s(a, b)
    ensures Carried(x, t, off, n)
  {
  }

  lemma EmptyState(x: Data)
    requires x.Valid()
    ensures ChunkState(x, Nothing(), 0)
  {
    forall a, b
      ensures x.Accum(0, a, b) == 0.0
    {
    }
  }

  lemma ChunkOutput(x: Data, lo: int, c: int, r: int, b: int)
    requires x.Valid() && lo >= 0 && 0 <= r < c
    ensures Sum(IntraTerm(x, lo, r, b), 0, c) + Sum(x.Decayed(lo + r, b), 0, lo) == x.Direct(lo + r, b)
  {
    hide Pow, Sum;
    IntraIs(x, lo, c, r, b);
    SumSplit(x.Decayed(lo + r, b), 0, lo, lo + r + 1);
  }

  // The rows below a position hold the direct decayed sums.
  ghost predicate Filled(x: Data, out: array2<real>, n: int)
    requires x.Valid()
    reads out
  {
    n <= out.Length0 && forall p, b :: 0 <= p < n && 0 <= b < out.Length1 ==> out[p, b] == x.Direct(p, b)
  }

  // What a chunk writes at one of its positions is the direct decayed sum.
  lemma ChunkEntry(x: Data, s: Grid, lo: int, c: int, p: int, b: int)
    requires x.Valid() && lo >= 0 && lo <= p < lo + c && ChunkState(x, s, lo)
    ensures Sum(IntraTerm(x, lo, p - lo, b), 0, c) + Sum(CrossTerm(x, s, p, p - lo, b), 0, x.d) == x.Direct(p, b)
  {
    hide *;
    assert lo + (p - lo) == p;
    CrossIs(x, s, lo, c, p - lo, b);
    ChunkOutput(x, lo, c, p - lo, b);
  }

  // Write one chunk's rows; the rows before it stay as they are.
  method WriteChunk(x: Data, out: array2<real>, s: Grid, lo: nat, c: nat)
    requires x.Valid() && lo + c <= out.Length0 && ChunkState(x, s, lo) && Filled(x, out, lo)
    modifies out
    ensures Filled(x, out, lo + c)
  {
    hide Pow, Sum, ChunkState, IntraTerm, CrossTerm, Data.Direct;
    forall p, b | lo <= p < lo + c && 0 <= b < out.Length1 {
      out[p, b] := Sum(IntraTerm(x, lo, p - lo, b), 0, c) + Sum(CrossTerm(x, s, p, p - lo, b), 0, x.d);
    }
    forall p, b | lo <= p < lo + c && 0 <= b < out.Length1
      ensures out[p, b] == x.Direct(p, b)
    {
      ChunkEntry(x, s, lo, c, p, b);
    }
  }

  // The chunkwise recurrence over t positions in chunks of c computes, at every
  // position, the direct decayed sum.  It refuses a chunk width that does not
  // tile the sequence.
  method ChunkwiseRetention(x: Data, t: nat, c: nat, e: nat) returns (r: Result<array2<real>>)
    requires x.Valid()
    ensures r.Failure? <==> c == 0 || t % c != 0
    ensures r.Success? ==>
      && r.value.Length0 == t && r.value.Length1 == e
      && forall p, b :: 0 <= p < t && 0 <= b < e ==> r.value[p, b] == x.Direct(p, b)
  {
    hide ChunkState, NextChunkState, Data.Direct, Groups;
    if c == 0 || t % c != 0 {
      return Failure(ValueError);
    }
    var out := new real[t, e];
    var state := Nothing();
    EmptyState(x);
    NoChunks(c);
    var nc, lo := t / c, 0;
    GroupsIsProduct(nc, c);
    for i := 0 to nc
      invariant 0 <= lo == Groups(i, c) <= t && ChunkState(x, state, lo) && Filled(x, out, lo)
    {
      OneChunk(i, c);
      GroupsGrow(i + 1, nc, c);
      WriteChunk(x, out, state, lo, c);
      ChunkStep(x, state, lo, c);
      state := NextChunkState(x, state, lo, c);
      lo := lo + c;
    }
    r := Success(out);
  }

  lemma NoChunks(c: nat)
    ensures Groups(0, c) == 0
  {
  }

  lemma OneChunk(i: nat, c: nat)
    ensures Groups(i + 1, c) == Groups(i, c) + c
  {
  }

  lemma {:induction false} GroupsGrow(i: nat, n: nat, c: nat)
    requires i <= n
    ensures Groups(i, c) <= Groups(n, c)
    decreases n - i
  {
    if n <= i {
    } else {
      GroupsGrow(i, n - 1, c);
    }
  }
}
