/**
  The linear algebra behind merging a low-rank adapter: folding `B @ A * scale` into a weight matrix
  acts on every vector like the two small products taken one after the other.
 */
module LowRank {
  import opened Basics

  type Vector = seq<real>
  type Matrix = seq<Vector>

  ghost predicate HasColumns(m: Matrix, columns: nat) {
    forall i :: 0 <= i < |m| ==> |m[i]| == columns
  }

  function Times(a: real, b: real): real { a * b }

  function Dot(a: Vector, b: Vector): real
    requires |a| == |b|
  {
    if a == [] then 0.0
    else Dot(a[..|a| - 1], b[..|a| - 1]) + Times(a[|a| - 1], b[|a| - 1])
  }

  /** One more coordinate adds the product of its two entries. */
  lemma DotOneMore(a: Vector, b: Vector, x: real, y: real)
    requires |a| == |b|
    ensures Dot(a + [x], b + [y]) == Dot(a, b) + x * y && Dot([], []) == 0.0
  {
    assert (a + [x])[..|a|] == a && (b + [y])[..|b|] == b;
  }

  /** The product of a matrix and a vector: one inner product for each row. */
  function Apply(m: Matrix, x: Vector): (y: Vector)
    requires HasColumns(m, |x|)
    ensures |y| == |m| && forall i :: 0 <= i < |m| ==> y[i] == Dot(m[i], x)
  {
    if m == [] then [] else Apply(m[..|m| - 1], x) + [Dot(m[|m| - 1], x)]
  }

  function Column(m: Matrix, j: nat): (column: Vector)
    requires forall i :: 0 <= i < |m| ==> j < |m[i]|
    ensures |column| == |m| && forall i :: 0 <= i < |m| ==> column[i] == m[i][j]
  {
    if m == [] then [] else Column(m[..|m| - 1], j) + [m[|m| - 1][j]]
  }

  /** Entry `j` of a row vector times a matrix, the rows taken in turn. */
  function Entry(row: Vector, m: Matrix, j: nat): real
    requires |row| == |m| && forall i :: 0 <= i < |m| ==> j < |m[i]|
  {
    if m == [] then 0.0
    else Entry(row[..|m| - 1], m[..|m| - 1], j) + Times(m[|m| - 1][j], row[|m| - 1])
  }

  /** A row vector times the first `n` columns of a matrix; a row of `B @ A` is a row of `B` times `A`. */
  function RowTimes(row: Vector, m: Matrix, n: nat): (product: Vector)
    requires |row| == |m| && forall i :: 0 <= i < |m| ==> n <= |m[i]|
    ensures |product| == n
  {
    if n == 0 then [] else RowTimes(row, m, n - 1) + [Entry(row, m, n - 1)]
  }

  /** `u + v * c`, entry by entry. */
  function AddScaled(u: Vector, v: Vector, c: real): (sum: Vector)
    requires |u| == |v|
    ensures |sum| == |u|
  {
    if u == [] then []
    else AddScaled(u[..|u| - 1], v[..|u| - 1], c) + [u[|u| - 1] + Times(v[|u| - 1], c)]
  }

  lemma {:induction false} DotDistributes(u: Vector, v: Vector, c: real, x: Vector)
    requires |u| == |v| == |x|
    ensures Dot(AddScaled(u, v, c), x) == Dot(u, x) + Times(Dot(v, x), c)
  {
    if u != [] {
      var n := |u| - 1;
      DotDistributes(u[..n], v[..n], c, x[..n]);
      assert AddScaled(u, v, c)[..n] == AddScaled(u[..n], v[..n], c);
      Regroup(u[n], v[n], c, x[n], Dot(u[..n], x[..n]), Dot(v[..n], x[..n]));
    }
  }

  lemma Regroup(u: real, v: real, c: real, x: real, rest: real, other: real)
    ensures (rest + Times(other, c)) + Times(u + Times(v, c), x) == (rest + Times(u, x)) + Times(other + Times(v, x), c)
  {
  }

  function Minus(u: Vector, v: Vector): (d: Vector)
    requires |u| == |v|
    ensures |d| == |u| && forall j :: 0 <= j < |u| ==> d[j] == u[j] - v[j]
  {
    seq(|u|, j requires 0 <= j < |u| => u[j] - v[j])
  }

  lemma TimesOfMinus(d: real, a: real, b: real, c: real)
    requires d == a - b
    ensures Times(d, c) == Times(a, c) - Times(b, c) && Times(c, d) == Times(c, a) - Times(c, b)
  {
    assert a * c == d * c + b * c;
    assert Times(c, d) == d * c && Times(c, a) == a * c && Times(c, b) == b * c;
  }

  lemma {:induction false} DotOfMinus(row: Vector, u: Vector, v: Vector)
    requires |row| == |u| == |v|
    ensures Dot(row, Minus(u, v)) == Dot(row, u) - Dot(row, v)
  {
    if row != [] {
      var n := |row| - 1;
      assert Minus(u, v)[..n] == Minus(u[..n], v[..n]);
      DotOfMinus(row[..n], u[..n], v[..n]);
      TimesOfMinus(u[n] - v[n], u[n], v[n], row[n]);
    }
  }

  lemma ApplyOfMinus(m: Matrix, u: Vector, v: Vector)
    requires |u| == |v| && HasColumns(m, |u|)
    ensures Apply(m, Minus(u, v)) == Minus(Apply(m, u), Apply(m, v))
  {
    RowsOfMinus(m, u, v, Apply(m, u), Apply(m, v), Apply(m, Minus(u, v)));
  }

  /** `p`, `q` and `r` are what the matrix makes of `u`, of `v` and of their difference. */
  lemma RowsOfMinus(m: Matrix, u: Vector, v: Vector, p: Vector, q: Vector, r: Vector)
    requires |u| == |v| && HasColumns(m, |u|) && |m| == |p| == |q| == |r|
    requires forall i :: 0 <= i < |m| ==> p[i] == Dot(m[i], u) && q[i] == Dot(m[i], v) && r[i] == Dot(m[i], Minus(u, v))
    ensures r == Minus(p, q)
  {
    forall i | 0 <= i < |m| ensures r[i] == Minus(p, q)[i] {
      DotOfMinus(m[i], u, v);
    }
  }

  lemma ScaledDotOfMinus(row: Vector, p: Vector, q: Vector, r: Vector, c: real)
    requires |row| == |p| == |q| && r == Minus(p, q)
    ensures Times(Dot(row, r), c) == Times(Dot(row, p), c) - Times(Dot(row, q), c)
  {
    DotOfMinus(row, p, q);
    TimesOfMinus(Dot(row, r), Dot(row, p), Dot(row, q), c);
  }

  lemma {:induction false} DotZero(z: Vector, x: Vector)
    requires |z| == |x| && forall j :: 0 <= j < |z| ==> z[j] == 0.0
    ensures Dot(z, x) == 0.0
  {
    if z != [] {
      DotZero(z[..|z| - 1], x[..|z| - 1]);
    }
  }

  /** A product over no rows is zero. */
  lemma {:induction false} RowTimesNothing(n: nat)
    ensures forall j :: 0 <= j < n ==> RowTimes([], [], n)[j] == 0.0
  {
    if n > 0 {
      RowTimesNothing(n - 1);
    }
  }

  lemma PrefixSnoc<T>(s: seq<T>, n: nat)
    requires 0 < n <= |s|
    ensures s[..n] == s[..n - 1] + [s[n - 1]]
  {
  }

  lemma TimesCommutes(a: real, b: real)
    ensures Times(a, b) == Times(b, a)
  {
  }

  lemma AddScaledSnoc(u: Vector, v: Vector, c: real, p: real, q: real)
    requires |u| == |v|
    ensures AddScaled(u + [p], v + [q], c) == AddScaled(u, v, c) + [p + Times(q, c)]
  {
    assert (u + [p])[..|u|] == u && (v + [q])[..|v|] == v;
  }

  /** Taking one more row into the product adds that row, scaled. */
  lemma {:induction false} RowTimesOneMore(row: Vector, m: Matrix, last: nat, n: nat)
    requires |row| == |m| == last + 1 && forall i :: 0 <= i < |m| ==> n <= |m[i]|
    ensures RowTimes(row, m, n) == AddScaled(RowTimes(row[..last], m[..last], n), m[last][..n], row[last])
  {
    if n > 0 {
      RowTimesOneMore(row, m, last, n - 1);
      OneMoreColumn(RowTimes(row[..last], m[..last], n - 1), m[last], n, row[last],
                    Entry(row[..last], m[..last], n - 1));
    }
  }

  lemma OneMoreColumn(p: Vector, v: Vector, n: nat, c: real, d: real)
    requires 0 < n <= |v| && |p| == n - 1
    ensures AddScaled(p + [d], v[..n], c) == AddScaled(p, v[..n - 1], c) + [d + Times(v[n - 1], c)]
  {
    PrefixSnoc(v, n);
    AddScaledSnoc(p, v[..n - 1], c, d, v[n - 1]);
  }

  lemma LeftOneMore(row: Vector, m: Matrix, last: nat, x: Vector)
    requires |row| == |m| == last + 1 && HasColumns(m, |x|)
    ensures Dot(RowTimes(row, m, |x|), x)
            == Dot(RowTimes(row[..last], m[..last], |x|), x) + Times(Dot(m[last], x), row[last])
  {
    RowTimesOneMore(row, m, last, |x|);
    WholePrefix(m[last], |x|);
    DotDistributes(RowTimes(row[..last], m[..last], |x|), m[last], row[last], x);
  }

  lemma RightOneMore(row: Vector, m: Matrix, last: nat, x: Vector)
    requires |row| == |m| == last + 1 && HasColumns(m, |x|)
    ensures Dot(row, Apply(m, x)) == Dot(row[..last], Apply(m[..last], x)) + Times(Dot(m[last], x), row[last])
  {
    assert Apply(m, x)[..last] == Apply(m[..last], x);
    TimesCommutes(row[last], Dot(m[last], x));
  }

  /** Associativity: a row of `B @ A` against a vector is that row of `B` against `A x`. */
  lemma {:induction false} ProductThenDot(row: Vector, m: Matrix, x: Vector)
    requires |row| == |m| && HasColumns(m, |x|)
    ensures Dot(RowTimes(row, m, |x|), x) == Dot(row, Apply(m, x))
  {
    if m == [] {
      RowTimesNothing(|x|);
      DotZero(RowTimes([], [], |x|), x);
    } else {
      var last := |m| - 1;
      ProductThenDot(row[..last], m[..last], x);
      LeftOneMore(row, m, last, x);
      RightOneMore(row, m, last, x);
    }
  }

  /** Row `i` of `W + B @ A * scale`, from row `i` of `W` and row `i` of `B`. */
  function MergedRow(w: Vector, b: Vector, a: Matrix, scale: real): (row: Vector)
    requires |b| == |a| && HasColumns(a, |w|)
    ensures |row| == |w|
  {
    AddScaled(w, RowTimes(b, a, |w|), scale)
  }

  lemma {:induction false} AddScaledAt(u: Vector, v: Vector, c: real, j: nat)
    requires j < |u| == |v|
    ensures AddScaled(u, v, c)[j] == u[j] + Times(v[j], c)
  {
    if j < |u| - 1 {
      AddScaledAt(u[..|u| - 1], v[..|u| - 1], c, j);
    }
  }

  lemma {:induction false} RowTimesAt(row: Vector, m: Matrix, n: nat, j: nat)
    requires j < n && |row| == |m| && forall i :: 0 <= i < |m| ==> n <= |m[i]|
    ensures RowTimes(row, m, n)[j] == Entry(row, m, j)
  {
    if j < n - 1 {
      RowTimesAt(row, m, n - 1, j);
    }
  }

  lemma {:induction false} EntryIsDot(row: Vector, m: Matrix, j: nat)
    requires |row| == |m| && forall i :: 0 <= i < |m| ==> j < |m[i]|
    ensures Entry(row, m, j) == Dot(row, Column(m, j))
  {
    if m != [] {
      var last := |m| - 1;
      EntryIsDot(row[..last], m[..last], j);
      assert Column(m, j)[..last] == Column(m[..last], j);
      TimesCommutes(m[last][j], row[last]);
    }
  }

  lemma {:induction false} EntryOfZeros(row: Vector, m: Matrix, j: nat)
    requires |row| == |m| && forall i :: 0 <= i < |m| ==> j < |m[i]|
    requires forall k :: 0 <= k < |row| ==> row[k] == 0.0
    ensures Entry(row, m, j) == 0.0
  {
    if m != [] {
      EntryOfZeros(row[..|m| - 1], m[..|m| - 1], j);
    }
  }

  /** Each entry of the merged weight is the entry the matrix product says. */
  lemma MergedRowAt(w: Vector, b: Vector, a: Matrix, scale: real, j: nat)
    requires j < |w| && |b| == |a| && HasColumns(a, |w|)
    ensures MergedRow(w, b, a, scale)[j] == w[j] + Times(Dot(b, Column(a, j)), scale)
  {
    AddScaledAt(w, RowTimes(b, a, |w|), scale, j);
    RowTimesAt(b, a, |w|, j);
    EntryIsDot(b, a, j);
  }

  lemma MergedRowActsLikeBoth(w: Vector, b: Vector, a: Matrix, scale: real, x: Vector)
    requires |b| == |a| && |w| == |x| && HasColumns(a, |w|)
    ensures Dot(MergedRow(w, b, a, scale), x) == Dot(w, x) + Times(Dot(b, Apply(a, x)), scale)
  {
    DotDistributes(w, RowTimes(b, a, |w|), scale, x);
    ProductThenDot(b, a, x);
  }

  /** A zero row of `B` leaves the row of `W` as it was. */
  lemma {:induction false} ZeroRowMergesToNothing(w: Vector, b: Vector, a: Matrix, scale: real, n: nat)
    requires n <= |w| && |b| == |a| && HasColumns(a, |w|) && forall k :: 0 <= k < |b| ==> b[k] == 0.0
    ensures AddScaled(w[..n], RowTimes(b, a, n), scale) == w[..n]
  {
    if n > 0 {
      ZeroRowMergesToNothing(w, b, a, scale, n - 1);
      EntryOfZeros(b, a, n - 1);
      PrefixSnoc(w, n);
      AddScaledSnoc(w[..n - 1], RowTimes(b, a, n - 1), scale, w[n - 1], Entry(b, a, n - 1));
    }
  }
}
