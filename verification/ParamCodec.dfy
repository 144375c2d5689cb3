/**
  Writing model parameters to a flat float64 vector and loading them back in place.

  A parameter tensor is an array of values `V`; a checkpoint is the list of float64 words `W` that its
  hex text spells. `widen` and `narrow` are the conversions between the model's own type and float64.
 */
module ParamCodec {

  ghost predicate Distinct<V>(params: seq<array<V>>) {
    forall i, j :: 0 <= i < j < |params| ==> params[i] != params[j]
  }

  ghost function Contents<V>(params: seq<array<V>>): (c: seq<seq<V>>)
    reads set i | 0 <= i < |params| :: params[i]
    ensures |c| == |params| && forall i :: 0 <= i < |params| ==> c[i] == params[i][..]
  {
    seq(|params|, i requires 0 <= i < |params| reads set k | 0 <= k < |params| :: params[k] => params[i][..])
  }

  function Mapped<A, B>(s: seq<A>, f: A -> B): (r: seq<B>)
    ensures |r| == |s| && forall i :: 0 <= i < |s| ==> r[i] == f(s[i])
  {
    seq(|s|, i requires 0 <= i < |s| => f(s[i]))
  }

  /** All parameters, widened, end to end. */
  function Flat<V, W>(contents: seq<seq<V>>, widen: V -> W): seq<W> {
    if contents == [] then [] else Mapped(contents[0], widen) + Flat(contents[1..], widen)
  }

  function Size<V>(contents: seq<seq<V>>): nat {
    if contents == [] then 0 else |contents[0]| + Size(contents[1..])
  }

  /** What loading `vec` leaves behind: parameters are overwritten in order until one does not fit. */
  function Loaded<V, W>(before: seq<seq<V>>, vec: seq<W>, narrow: W -> V): (after: seq<seq<V>>)
    ensures |after| == |before|
  {
    if before == [] || |before[0]| > |vec| then before
    else [Mapped(vec[..|before[0]|], narrow)] + Loaded(before[1..], vec[|before[0]|..], narrow)
  }

  /** Entry `j` of parameter `i` stands after all parameters before it. */
  lemma {:induction false} FlatAt<V, W>(c: seq<seq<V>>, widen: V -> W, i: nat, j: nat)
    requires i < |c| && j < |c[i]|
    ensures Size(c[..i]) + j < |Flat(c, widen)| && Flat(c, widen)[Size(c[..i]) + j] == widen(c[i][j])
  {
    if i > 0 {
      FlatAt(c[1..], widen, i - 1, j);
      assert c[..i][1..] == c[1..][..i - 1];
    }
  }

  /** Whatever the vector reaches in full is loaded from there. */
  lemma {:induction false} LoadedAt<V, W>(c: seq<seq<V>>, vec: seq<W>, narrow: W -> V, i: nat, j: nat)
    requires i < |c| && j < |c[i]| && Size(c[..i + 1]) <= |vec|
    ensures |Loaded(c, vec, narrow)[i]| == |c[i]| && Size(c[..i]) + j < |vec|
    ensures Loaded(c, vec, narrow)[i][j] == narrow(vec[Size(c[..i]) + j])
  {
    if i > 0 {
      assert c[..i + 1][1..] == c[1..][..i] && c[..i][1..] == c[1..][..i - 1];
      LoadedAt(c[1..], vec[|c[0]|..], narrow, i - 1, j);
    } else {
      assert c[..1][1..] == [];
    }
  }

  method FlattenParams<V, W>(params: seq<array<V>>, widen: V -> W) returns (vec: seq<W>)
    ensures vec == Flat(Contents(params), widen)
  {
    vec := [];
    ghost var c := Contents(params);
    for i := 0 to |params|
      invariant vec + Flat(c[i..], widen) == Flat(c, widen)
    {
      vec := vec + Mapped(params[i][..], widen);
    }
  }

  /** Returns whether the vector had exactly the right length; the source raises an error otherwise. */
  method LoadParams<V, W>(params: seq<array<V>>, vec: seq<W>, narrow: W -> V) returns (ok: bool)
    requires Distinct(params)
    modifies set i | 0 <= i < |params| :: params[i]
    ensures Contents(params) == Loaded(old(Contents(params)), vec, narrow)
    ensures ok <==> |vec| == Size(old(Contents(params)))
  {
    var idx: nat := 0;
    ghost var c := Contents(params);
    ghost var loaded, size := LoadedFrom(c, 0, vec, 0, narrow), SizeFrom(c, 0);
    LoadedFromStart(c, vec, narrow);
    for i := 0 to |params|
      invariant c == Contents(params) && idx <= |vec|
      invariant LoadedFrom(c, i, vec, idx, narrow) == loaded && idx + SizeFrom(c, i) == size
    {
      var length := params[i].Length;
      if idx + length > |vec| {
        return false;
      }
      c := LoadNext(params, i, vec, idx, narrow);
      idx := idx + length;
    }
    ok := idx == |vec|;
  }

  /** Loading from parameter `i` and word `idx` on, one parameter at a time. */
  function LoadedFrom<V, W>(c: seq<seq<V>>, i: nat, vec: seq<W>, idx: nat, narrow: W -> V): seq<seq<V>>
    requires i <= |c|
    decreases |c| - i
  {
    if i == |c| || idx + |c[i]| > |vec| then c
    else LoadedFrom(c[i := Mapped(vec[idx..idx + |c[i]|], narrow)], i + 1, vec, idx + |c[i]|, narrow)
  }

  function SizeFrom<V>(c: seq<seq<V>>, i: nat): nat
    requires i <= |c|
    decreases |c| - i
  {
    if i == |c| then 0 else |c[i]| + SizeFrom(c, i + 1)
  }

  lemma {:induction false} SizeFromIs<V>(c: seq<seq<V>>, i: nat)
    requires i <= |c|
    ensures SizeFrom(c, i) == Size(c[i..])
    decreases |c| - i
  {
    if i < |c| {
      assert c[i..][0] == c[i] && c[i..][1..] == c[i + 1..];
      SizeFromIs(c, i + 1);
    }
  }

  lemma LoadedFromStart<V, W>(c: seq<seq<V>>, vec: seq<W>, narrow: W -> V)
    ensures LoadedFrom(c, 0, vec, 0, narrow) == Loaded(c, vec, narrow) && SizeFrom(c, 0) == Size(c)
  {
    SizeFromIs(c, 0);
    LoadedFromIs(c, 0, vec, 0, narrow);
    assert c[0..] == c && vec[0..] == vec && c[..0] == [];
  }

  lemma {:induction false} LoadedFromIs<V, W>(c: seq<seq<V>>, i: nat, vec: seq<W>, idx: nat, narrow: W -> V)
    requires i <= |c| && idx <= |vec|
    ensures LoadedFrom(c, i, vec, idx, narrow) == c[..i] + Loaded(c[i..], vec[idx..], narrow)
    decreases |c| - i
  {
    if i < |c| && idx + |c[i]| <= |vec| {
      LoadedFromIs(c[i := Mapped(vec[idx..idx + |c[i]|], narrow)], i + 1, vec, idx + |c[i]|, narrow);
      PendingNext(c, c[i := Mapped(vec[idx..idx + |c[i]|], narrow)], i, vec, idx, narrow);
    } else {
      assert c == c[..i] + c[i..];
    }
  }

  lemma PendingNext<V, W>(c: seq<seq<V>>, d: seq<seq<V>>, i: nat, vec: seq<W>, idx: nat, narrow: W -> V)
    requires i < |c| && idx + |c[i]| <= |vec| && d == c[i := Mapped(vec[idx..idx + |c[i]|], narrow)]
    ensures d[..i + 1] + Loaded(d[i + 1..], vec[idx + |c[i]|..], narrow) == c[..i] + Loaded(c[i..], vec[idx..], narrow)
  {
    var n, rest := |c[i]|, vec[idx..];
    var x, tail := Mapped(vec[idx..idx + n], narrow), Loaded(c[i + 1..], rest[n..], narrow);
    assert c[i..][0] == c[i] && c[i..][1..] == c[i + 1..] == d[i + 1..];
    assert rest[n..] == vec[idx + n..] && rest[..n] == vec[idx..idx + n];
    LoadedOneMore(c[i..], rest, narrow, n);
    assert d[..i + 1] == c[..i] + [x];
    assert c[..i] + ([x] + tail) == (c[..i] + [x]) + tail;
  }

  lemma LoadedOneMore<V, W>(before: seq<seq<V>>, vec: seq<W>, narrow: W -> V, size: nat)
    requires before != [] && size == |before[0]| <= |vec|
    ensures Loaded(before, vec, narrow) == [Mapped(vec[..size], narrow)] + Loaded(before[1..], vec[size..], narrow)
  {
  }

  /** One turn of the loop for a parameter that fits. */
  method LoadNext<V, W>(params: seq<array<V>>, i: nat, vec: seq<W>, idx: nat, narrow: W -> V)
    returns (ghost after: seq<seq<V>>)
    requires Distinct(params) && i < |params| && idx + params[i].Length <= |vec|
    modifies params[i]
    ensures after == Contents(params)
    ensures LoadedFrom(after, i + 1, vec, idx + params[i].Length, narrow)
            == LoadedFrom(old(Contents(params)), i, vec, idx, narrow)
    ensures params[i].Length + SizeFrom(after, i + 1) == SizeFrom(old(Contents(params)), i)
  {
    var words := vec[idx..idx + params[i].Length];
    ghost var c := Contents(params);
    after := c[i := Mapped(words, narrow)];
    assert after[i + 1..] == c[i + 1..];
    SizeFromIs(c, i + 1);
    SizeFromIs(after, i + 1);
    LoadOne(params, i, words, narrow);
  }

  /** Overwrites one parameter and no other. */
  method LoadOne<V, W>(params: seq<array<V>>, i: nat, words: seq<W>, narrow: W -> V)
    requires Distinct(params) && i < |params| && |words| == params[i].Length
    modifies params[i]
    ensures Contents(params) == old(Contents(params))[i := Mapped(words, narrow)]
  {
    var p := params[i];
    for k := 0 to p.Length
      invariant forall m :: 0 <= m < k ==> p[m] == narrow(words[m])
    {
      p[k] := narrow(words[k]);
    }
    assert p[..] == Mapped(words, narrow);
    forall k | 0 <= k < |params| && k != i ensures params[k] != p {
    }
  }

  lemma NarrowUndoesWiden<V(!new), W>(s: seq<V>, widen: V -> W, narrow: W -> V)
    requires forall x :: narrow(widen(x)) == x
    ensures Mapped(Mapped(s, widen), narrow) == s
  {
  }

  /** Loading a flattened model into any model of the same shape restores every parameter. */
  lemma {:induction false} LoadUndoesFlatten<V(!new), W>(saved: seq<seq<V>>, before: seq<seq<V>>,
                                                         widen: V -> W, narrow: W -> V)
    requires forall x :: narrow(widen(x)) == x
    requires |saved| == |before| && forall k :: 0 <= k < |saved| ==> |saved[k]| == |before[k]|
    ensures Loaded(before, Flat(saved, widen), narrow) == saved
    ensures |Flat(saved, widen)| == Size(before)
  {
    if saved != [] {
      LoadUndoesFlatten(saved[1..], before[1..], widen, narrow);
      NarrowUndoesWiden(saved[0], widen, narrow);
      var vec, n := Flat(saved, widen), |saved[0]|;
      assert vec[..n] == Mapped(saved[0], widen) && vec[n..] == Flat(saved[1..], widen);
    }
  }

  /** Loading is not atomic: a vector of the wrong length is reported after the leading parameter was overwritten. */
  lemma RejectedLoadStillOverwrites<V, W>(before: seq<seq<V>>, vec: seq<W>, narrow: W -> V)
    requires before != [] && |before[0]| <= |vec| && |vec| != Size(before)
    ensures Loaded(before, vec, narrow)[0] == Mapped(vec[..|before[0]|], narrow)
  {
    LoadedOneMore(before, vec, narrow, |before[0]|);
  }
}
