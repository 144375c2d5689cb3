/**
  Low-rank adapters: the adapted linear layer, merging it into a plain one, and installing and stripping
  adapters throughout a tree of modules. Weights are real matrices; a tensor is the list of its last-axis vectors.
 */
module LoraTrainer {
  import opened Basics
  import opened LowRank

  // ----- layers

  datatype LinearData = LinearData(inputs: nat, weight: Matrix, bias: Option<Vector>)

  type Linear = l: LinearData
    | HasColumns(l.weight, l.inputs) && (l.bias.Some? ==> |l.bias.value| == |l.weight|)
    ghost witness LinearData(0, [], None)

  datatype AdapterData = AdapterData(base: Linear, a: Matrix, b: Matrix, scale: real, hasDropout: bool)

  type LoRALinear = l: AdapterData
    | HasColumns(l.a, l.base.inputs) && |l.b| == |l.base.weight| && HasColumns(l.b, |l.a|)
    ghost witness AdapterData(LinearData(0, [], None), [], [], 0.0, false)

  function BiasAt(l: Linear, i: nat): real
    requires i < |l.weight|
  {
    if l.bias.None? then 0.0 else l.bias.value[i]
  }

  function Forward(l: Linear, x: Vector): (y: Vector)
    requires |x| == l.inputs
    ensures |y| == |l.weight| && forall i :: 0 <= i < |y| ==> y[i] == Dot(l.weight[i], x) + BiasAt(l, i)
  {
    seq(|l.weight|, i requires 0 <= i < |l.weight| => Dot(l.weight[i], x) + BiasAt(l, i))
  }

  /** What the adapter adds to output `i` when `v` reaches it. */
  function DeltaAt(l: LoRALinear, v: Vector, i: nat): real
    requires |v| == l.base.inputs && i < |l.b|
  {
    Times(Dot(l.b[i], Apply(l.a, v)), l.scale)
  }

  /** The adapted layer: `x` goes to the frozen weight, and `v`, which is `x` after dropout, to the adapter. */
  function AdaptedForward(l: LoRALinear, x: Vector, v: Vector): (y: Vector)
    requires |x| == |v| == l.base.inputs
    ensures |y| == |l.b| && forall i :: 0 <= i < |y| ==> y[i] == Forward(l.base, x)[i] + DeltaAt(l, v, i)
  {
    seq(|l.b|, i requires 0 <= i < |l.b| => Forward(l.base, x)[i] + DeltaAt(l, v, i))
  }

  function MergedRows(l: LoRALinear, n: nat): (rows: Matrix)
    requires n <= |l.b|
    ensures |rows| == n && forall i :: 0 <= i < n ==> rows[i] == MergedRow(l.base.weight[i], l.b[i], l.a, l.scale)
  {
    if n == 0 then []
    else MergedRows(l, n - 1) + [MergedRow(l.base.weight[n - 1], l.b[n - 1], l.a, l.scale)]
  }

  function Merge(l: LoRALinear): Linear {
    LinearData(l.base.inputs, MergedRows(l, |l.b|), l.base.bias)
  }

  /** An adapter as installed: whatever `A` holds, `B` is zero. */
  function Fresh(l: Linear, a: Matrix, alpha: real, hasDropout: bool): LoRALinear
    requires a != [] && HasColumns(a, l.inputs)
  {
    AdapterData(l, a, seq(|l.weight|, _ => seq(|a|, _ => 0.0)), alpha / (|a| as real), hasDropout)
  }

  // ----- what merging one layer preserves

  lemma MergedOutputAt(l: LoRALinear, x: Vector, i: nat)
    requires |x| == l.base.inputs && i < |l.b|
    ensures Forward(Merge(l), x)[i] == Forward(l.base, x)[i] + DeltaAt(l, x, i)
  {
    MergedRowActsLikeBoth(l.base.weight[i], l.b[i], l.a, l.scale, x);
    SameOutput(Dot(Merge(l).weight[i], x), Dot(l.base.weight[i], x), DeltaAt(l, x, i), BiasAt(l.base, i));
    assert BiasAt(Merge(l), i) == BiasAt(l.base, i);
  }

  lemma SameOutput(merged: real, base: real, delta: real, bias: real)
    requires merged == base + delta
    ensures merged + bias == (base + bias) + delta
  {
  }

  /** With dropout inactive, the merged layer and the adapted one give the same output for every input. */
  lemma MergePreservesForward(l: LoRALinear, x: Vector)
    requires |x| == l.base.inputs
    ensures Forward(Merge(l), x) == AdaptedForward(l, x, x)
  {
    forall i | 0 <= i < |l.b| ensures Forward(Merge(l), x)[i] == AdaptedForward(l, x, x)[i] {
      MergedOutputAt(l, x, i);
    }
  }

  /** An adapter is linear in what reaches it. */
  lemma DeltaOfMinus(l: LoRALinear, x: Vector, v: Vector, i: nat)
    requires |x| == |v| == l.base.inputs && i < |l.b|
    ensures DeltaAt(l, Minus(v, x), i) == DeltaAt(l, v, i) - DeltaAt(l, x, i)
  {
    ApplyOfMinus(l.a, v, x);
    ScaledDotOfMinus(l.b[i], Apply(l.a, v), Apply(l.a, x), Apply(l.a, Minus(v, x)), l.scale);
  }

  /** In general the two agree exactly when the adapter sends what dropout changed in the input to zero. */
  lemma MergeIsExactIff(l: LoRALinear, x: Vector, v: Vector)
    requires |x| == |v| == l.base.inputs
    ensures Forward(Merge(l), x) == AdaptedForward(l, x, v)
            <==> forall i :: 0 <= i < |l.b| ==> DeltaAt(l, Minus(v, x), i) == 0.0
  {
    MergePreservesForward(l, x);
    var merged, adapted := AdaptedForward(l, x, x), AdaptedForward(l, x, v);
    forall i | 0 <= i < |l.b| ensures merged[i] == adapted[i] <==> DeltaAt(l, Minus(v, x), i) == 0.0 {
      DeltaOfMinus(l, x, v, i);
    }
    SameIffSameAt(merged, adapted);
  }

  lemma SameIffSameAt(a: Vector, b: Vector)
    requires |a| == |b|
    ensures a == b <==> forall i :: 0 <= i < |a| ==> a[i] == b[i]
  {
  }

  /** A fresh adapter adds nothing, with dropout or without. */
  lemma FreshAdapterIsIdle(l: Linear, a: Matrix, alpha: real, hasDropout: bool, x: Vector, v: Vector)
    requires a != [] && HasColumns(a, l.inputs) && |x| == |v| == l.inputs
    ensures AdaptedForward(Fresh(l, a, alpha, hasDropout), x, v) == Forward(l, x)
  {
    var adapter := Fresh(l, a, alpha, hasDropout);
    forall i | 0 <= i < |l.weight| ensures DeltaAt(adapter, v, i) == 0.0 {
      DotZero(adapter.b[i], Apply(a, v));
    }
  }

  /** Once trained to `b`, an adapter of rank `|a|` adds `b` times `a` times its input, times alpha over the rank. */
  lemma TrainedAdapterAdds(l: Linear, a: Matrix, alpha: real, hasDropout: bool, b: Matrix, v: Vector, i: nat)
    requires a != [] && HasColumns(a, l.inputs) && |b| == |l.weight| && HasColumns(b, |a|)
    requires |v| == l.inputs && i < |b|
    ensures var added := DeltaAt(Fresh(l, a, alpha, hasDropout).(b := b), v, i);
            Times(added, |a| as real) == Times(Dot(b[i], Apply(a, v)), alpha)
  {
    Shares(Dot(b[i], Apply(a, v)), alpha, |a| as real);
  }

  lemma Shares(d: real, alpha: real, rank: real)
    requires rank > 0.0
    ensures Times(Times(d, alpha / rank), rank) == Times(d, alpha)
  {
    assert alpha / rank * rank == alpha;
  }

  /** A layer without a bias is one whose bias is zero. */
  lemma NoBiasIsZeroBias(l: Linear, x: Vector)
    requires |x| == l.inputs && l.bias.None?
    ensures Forward(l, x) == Forward(l.(bias := Some(seq(|l.weight|, _ => 0.0))), x)
  {
  }

  /** Merging a fresh adapter gives back the very same weights. */
  lemma FreshAdapterMergesAway(l: Linear, a: Matrix, alpha: real, hasDropout: bool)
    requires a != [] && HasColumns(a, l.inputs)
    ensures Merge(Fresh(l, a, alpha, hasDropout)) == l
  {
    var adapter := Fresh(l, a, alpha, hasDropout);
    forall i | 0 <= i < |l.weight| ensures Merge(adapter).weight[i] == l.weight[i] {
      ZeroRowMergesToNothing(l.weight[i], adapter.b[i], a, adapter.scale, l.inputs);
      WholePrefix(l.weight[i], l.inputs);
    }
    assert Merge(adapter).weight == l.weight;
  }

  /** The merged weight is the base weight plus the scaled matrix product, entry by entry. */
  lemma MergedWeightAt(l: LoRALinear, i: nat, j: nat)
    requires i < |l.b| && j < l.base.inputs
    ensures Merge(l).weight[i][j] == l.base.weight[i][j] + Times(Dot(l.b[i], Column(l.a, j)), l.scale)
  {
    MergedRowAt(l.base.weight[i], l.b[i], l.a, l.scale, j);
  }
}
