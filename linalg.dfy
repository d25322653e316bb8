/** Dense real vectors and matrices: the part of Eigen's `VectorXd` and
    `MatrixXd` arithmetic that the network uses. A matrix is a sequence of
    rows, and `double` is modelled by `real`.

    Each operation's contract gives its shape; what it computes entry by
    entry is stated by the lemma that follows it, so that a proof about the
    network only pays for the entries it asks about. */
module LinAlg {

  type Vector = seq<real>
  type Matrix = seq<seq<real>>

  /** `m` has `rows` rows of `cols` entries each. */
  predicate IsMatrix(m: Matrix, rows: nat, cols: nat) {
    |m| == rows && forall r :: 0 <= r < rows ==> |m[r]| == cols
  }

  predicate IsZero(v: Vector) {
    forall i :: 0 <= i < |v| ==> v[i] == 0.0
  }

  /** The vector of `n` copies of `a`. */
  function Fill(n: nat, a: real): (v: Vector)
    ensures |v| == n
  {
    if n == 0 then [] else [a] + Fill(n - 1, a)
  }

  lemma {:induction false} FillEntries(n: nat, a: real)
    ensures forall i :: 0 <= i < n ==> Fill(n, a)[i] == a
  {
    if n > 0 {
      FillEntries(n - 1, a);
      forall i | 0 < i < n ensures Fill(n, a)[i] == a {
        assert Fill(n, a)[i] == Fill(n - 1, a)[i - 1];
      }
    }
  }

  /** Eigen's `VectorXd::Zero(n)`. */
  function Zeros(n: nat): (z: Vector)
    ensures |z| == n && IsZero(z)
  {
    FillEntries(n, 0.0);
    Fill(n, 0.0)
  }

  /** `f` applied to every entry: Eigen's coefficient-wise `array()` operations. */
  function Map(f: real -> real, v: Vector): (r: Vector)
    ensures |r| == |v|
  {
    if |v| == 0 then [] else [f(v[0])] + Map(f, v[1..])
  }

  lemma {:induction false} MapEntries(f: real -> real, v: Vector)
    ensures forall i :: 0 <= i < |v| ==> Map(f, v)[i] == f(v[i])
  {
    if |v| > 0 {
      MapEntries(f, v[1..]);
      forall i | 0 < i < |v| ensures Map(f, v)[i] == f(v[i]) {
        assert Map(f, v)[i] == Map(f, v[1..])[i - 1];
        assert v[1..][i - 1] == v[i];
      }
    }
  }

  function Add(u: Vector, v: Vector): (r: Vector)
    requires |u| == |v|
    ensures |r| == |u|
  {
    if |u| == 0 then [] else [u[0] + v[0]] + Add(u[1..], v[1..])
  }

  lemma {:induction false} AddEntries(u: Vector, v: Vector)
    requires |u| == |v|
    ensures forall i :: 0 <= i < |u| ==> Add(u, v)[i] == u[i] + v[i]
  {
    if |u| > 0 {
      AddEntries(u[1..], v[1..]);
      forall i | 0 < i < |u| ensures Add(u, v)[i] == u[i] + v[i] {
        assert Add(u, v)[i] == Add(u[1..], v[1..])[i - 1];
        assert u[1..][i - 1] == u[i] && v[1..][i - 1] == v[i];
      }
    }
  }

  function Sub(u: Vector, v: Vector): (r: Vector)
    requires |u| == |v|
    ensures |r| == |u|
  {
    if |u| == 0 then [] else [u[0] - v[0]] + Sub(u[1..], v[1..])
  }

  lemma {:induction false} SubEntries(u: Vector, v: Vector)
    requires |u| == |v|
    ensures forall i :: 0 <= i < |u| ==> Sub(u, v)[i] == u[i] - v[i]
  {
    if |u| > 0 {
      SubEntries(u[1..], v[1..]);
      forall i | 0 < i < |u| ensures Sub(u, v)[i] == u[i] - v[i] {
        assert Sub(u, v)[i] == Sub(u[1..], v[1..])[i - 1];
        assert u[1..][i - 1] == u[i] && v[1..][i - 1] == v[i];
      }
    }
  }

  /** The product of two reals. Entry-wise products are stated through this
      function, so that an entry about `Scale(u[r], v)` and one about
      `u[r] * v[c]` meet by plain equality of arguments. */
  function Mul(a: real, b: real): (p: real) {
    a * b
  }

  function Scale(a: real, v: Vector): (r: Vector)
    ensures |r| == |v|
  {
    if |v| == 0 then [] else [Mul(a, v[0])] + Scale(a, v[1..])
  }

  lemma {:induction false} ScaleEntries(a: real, v: Vector)
    ensures forall i :: 0 <= i < |v| ==> Scale(a, v)[i] == Mul(a, v[i])
  {
    if |v| > 0 {
      ScaleEntries(a, v[1..]);
      forall i | 0 < i < |v| ensures Scale(a, v)[i] == Mul(a, v[i]) {
        assert Scale(a, v)[i] == Scale(a, v[1..])[i - 1];
        assert v[1..][i - 1] == v[i];
      }
    }
  }

  /** Eigen's `cwiseProduct`: the element-wise product. */
  function Hadamard(u: Vector, v: Vector): (r: Vector)
    requires |u| == |v|
    ensures |r| == |u|
  {
    if |u| == 0 then [] else [Mul(u[0], v[0])] + Hadamard(u[1..], v[1..])
  }

  lemma {:induction false} HadamardEntries(u: Vector, v: Vector)
    requires |u| == |v|
    ensures forall i :: 0 <= i < |u| ==> Hadamard(u, v)[i] == Mul(u[i], v[i])
  {
    if |u| > 0 {
      HadamardEntries(u[1..], v[1..]);
      forall i | 0 < i < |u| ensures Hadamard(u, v)[i] == Mul(u[i], v[i]) {
        assert Hadamard(u, v)[i] == Hadamard(u[1..], v[1..])[i - 1];
        assert u[1..][i - 1] == u[i] && v[1..][i - 1] == v[i];
      }
    }
  }

  function Dot(u: Vector, v: Vector): (d: real)
    requires |u| == |v|
  {
    if |u| == 0 then 0.0 else u[0] * v[0] + Dot(u[1..], v[1..])
  }

  /** Eigen's `squaredNorm`: the sum of the squares of the entries. */
  function SquaredNorm(v: Vector): (n: real) {
    if |v| == 0 then 0.0 else v[0] * v[0] + SquaredNorm(v[1..])
  }

  /** The matrix-vector product `m * v`. */
  function MatVec(m: Matrix, v: Vector): (r: Vector)
    requires forall k :: 0 <= k < |m| ==> |m[k]| == |v|
    ensures |r| == |m|
  {
    if |m| == 0 then [] else [Dot(m[0], v)] + MatVec(m[1..], v)
  }

  /** Entry `k` of `m * v` is row `k` of `m` dotted with `v`. */
  lemma {:induction false} MatVecEntries(m: Matrix, v: Vector)
    requires forall k :: 0 <= k < |m| ==> |m[k]| == |v|
    ensures forall k :: 0 <= k < |m| ==> MatVec(m, v)[k] == Dot(m[k], v)
  {
    if |m| > 0 {
      MatVecEntries(m[1..], v);
      forall k | 0 < k < |m| ensures MatVec(m, v)[k] == Dot(m[k], v) {
        assert MatVec(m, v)[k] == MatVec(m[1..], v)[k - 1];
        assert m[1..][k - 1] == m[k];
      }
    }
  }

  /** Column `c` of `m`. */
  function Column(m: Matrix, c: nat): (col: Vector)
    requires forall k :: 0 <= k < |m| ==> c < |m[k]|
    ensures |col| == |m|
  {
    if |m| == 0 then [] else [m[0][c]] + Column(m[1..], c)
  }

  lemma {:induction false} ColumnEntries(m: Matrix, c: nat)
    requires forall k :: 0 <= k < |m| ==> c < |m[k]|
    ensures forall k :: 0 <= k < |m| ==> Column(m, c)[k] == m[k][c]
  {
    if |m| > 0 {
      ColumnEntries(m[1..], c);
      forall k | 0 < k < |m| ensures Column(m, c)[k] == m[k][c] {
        assert Column(m, c)[k] == Column(m[1..], c)[k - 1];
        assert m[1..][k - 1] == m[k];
      }
    }
  }

  /** The first `n` columns of `m`, each as a vector. */
  function Columns(m: Matrix, n: nat): (t: Matrix)
    requires forall k :: 0 <= k < |m| ==> n <= |m[k]|
    ensures |t| == n && forall c :: 0 <= c < n ==> t[c] == Column(m, c)
  {
    if n == 0 then [] else Columns(m, n - 1) + [Column(m, n - 1)]
  }

  /** The transpose of a matrix of `cols` columns. */
  function Transpose(m: Matrix, cols: nat): (t: Matrix)
    requires IsMatrix(m, |m|, cols)
    ensures IsMatrix(t, cols, |m|)
  {
    Columns(m, cols)
  }

  /** Entry `(c, r)` of the transpose is entry `(r, c)` of the matrix. */
  lemma TransposeEntries(m: Matrix, cols: nat)
    requires IsMatrix(m, |m|, cols)
    ensures forall c, r :: 0 <= c < cols && 0 <= r < |m| ==> Transpose(m, cols)[c][r] == m[r][c]
  {
    forall c | 0 <= c < cols
      ensures forall r :: 0 <= r < |m| ==> Transpose(m, cols)[c][r] == m[r][c]
    {
      ColumnEntries(m, c);
    }
  }

  /** `w.transpose() * x + b`, the affine map of a layer. */
  function Affine(w: Matrix, x: Vector, b: Vector): (y: Vector)
    requires IsMatrix(w, |x|, |b|)
    ensures |y| == |b|
  {
    Add(MatVec(Transpose(w, |b|), x), b)
  }

  /** The outer product `u * v.transpose()`. */
  function Outer(u: Vector, v: Vector): (m: Matrix)
    ensures IsMatrix(m, |u|, |v|)
  {
    if |u| == 0 then [] else [Scale(u[0], v)] + Outer(u[1..], v)
  }

  lemma {:induction false} OuterRows(u: Vector, v: Vector)
    ensures forall r :: 0 <= r < |u| ==> Outer(u, v)[r] == Scale(u[r], v)
  {
    if |u| > 0 {
      OuterRows(u[1..], v);
      forall r | 0 < r < |u| ensures Outer(u, v)[r] == Scale(u[r], v) {
        assert Outer(u, v)[r] == Outer(u[1..], v)[r - 1];
        assert u[1..][r - 1] == u[r];
      }
    }
  }

  /** Entry `(r, c)` of the outer product is `u[r] * v[c]`. */
  lemma OuterEntry(u: Vector, v: Vector, r: nat, c: nat)
    requires r < |u| && c < |v|
    ensures Outer(u, v)[r][c] == u[r] * v[c]
  {
    assert Outer(u, v)[r] == Scale(u[r], v) by { OuterRows(u, v); }
    assert Scale(u[r], v)[c] == u[r] * v[c] by { ScaleEntries(u[r], v); }
  }

  function MatScale(a: real, m: Matrix): (s: Matrix)
    ensures |s| == |m| && forall r :: 0 <= r < |m| ==> |s[r]| == |m[r]|
  {
    if |m| == 0 then [] else [Scale(a, m[0])] + MatScale(a, m[1..])
  }

  lemma {:induction false} MatScaleRows(a: real, m: Matrix)
    ensures forall r :: 0 <= r < |m| ==> MatScale(a, m)[r] == Scale(a, m[r])
  {
    if |m| > 0 {
      MatScaleRows(a, m[1..]);
      forall r | 0 < r < |m| ensures MatScale(a, m)[r] == Scale(a, m[r]) {
        assert MatScale(a, m)[r] == MatScale(a, m[1..])[r - 1];
        assert m[1..][r - 1] == m[r];
      }
    }
  }

  function MatSub(a: Matrix, b: Matrix): (d: Matrix)
    requires |a| == |b| && forall r :: 0 <= r < |a| ==> |a[r]| == |b[r]|
    ensures |d| == |a| && forall r :: 0 <= r < |a| ==> |d[r]| == |a[r]|
  {
    if |a| == 0 then [] else [Sub(a[0], b[0])] + MatSub(a[1..], b[1..])
  }

  lemma {:induction false} MatSubRows(a: Matrix, b: Matrix)
    requires |a| == |b| && forall r :: 0 <= r < |a| ==> |a[r]| == |b[r]|
    ensures forall r :: 0 <= r < |a| ==> MatSub(a, b)[r] == Sub(a[r], b[r])
  {
    if |a| > 0 {
      MatSubRows(a[1..], b[1..]);
      forall r | 0 < r < |a| ensures MatSub(a, b)[r] == Sub(a[r], b[r]) {
        assert MatSub(a, b)[r] == MatSub(a[1..], b[1..])[r - 1];
        assert a[1..][r - 1] == a[r] && b[1..][r - 1] == b[r];
      }
    }
  }

  /** Sum over the rows `r` of `w[r][c] * x[r]`: entry `c` of `w`ᵀ`x`
      written out as a sum, independently of `Transpose` and `Dot`. */
  function ColumnSum(w: Matrix, c: nat, x: Vector): (sum: real)
    requires |w| == |x| && forall r :: 0 <= r < |w| ==> c < |w[r]|
  {
    if |w| == 0 then 0.0 else w[0][c] * x[0] + ColumnSum(w[1..], c, x[1..])
  }

  /** Entry `c` of `Affine(w, x, b)` is the column sum of `c` plus the bias. */
  lemma AffineEntry(w: Matrix, x: Vector, b: Vector, c: nat)
    requires IsMatrix(w, |x|, |b|) && c < |b|
    ensures Affine(w, x, b)[c] == ColumnSum(w, c, x) + b[c]
  {
    var t := Transpose(w, |b|);
    AddEntries(MatVec(t, x), b);
    MatVecEntries(t, x);
    ColumnDot(w, c, x);
  }

  /** Column `c` dotted with `x` is the column sum. */
  lemma {:induction false} ColumnDot(w: Matrix, c: nat, x: Vector)
    requires |w| == |x| && forall r :: 0 <= r < |w| ==> c < |w[r]|
    ensures Dot(Column(w, c), x) == ColumnSum(w, c, x)
  {
    if |w| > 0 {
      ColumnDot(w[1..], c, x[1..]);
      assert Column(w, c)[1..] == Column(w[1..], c);
    }
  }

  lemma {:induction false} SquaredNormNonNegative(v: Vector)
    ensures SquaredNorm(v) >= 0.0
  {
    if |v| > 0 {
      SquaredNormNonNegative(v[1..]);
      assert v[0] * v[0] >= 0.0;
    }
  }

  /** The zero vector has squared norm zero. */
  lemma {:induction false} SquaredNormOfZero(v: Vector)
    requires IsZero(v)
    ensures SquaredNorm(v) == 0.0
  {
    if |v| > 0 {
      assert v[0] == 0.0;
      assert IsZero(v[1..]) by {
        forall i | 0 <= i < |v[1..]| ensures v[1..][i] == 0.0 {
          assert v[1..][i] == v[i + 1];
        }
      }
      SquaredNormOfZero(v[1..]);
    }
  }

  /** Changing entry `i` by `h` changes the squared norm by `2·h·v[i] + h²`. */
  lemma {:induction false} SquaredNormBump(v: Vector, i: nat, h: real)
    requires i < |v|
    ensures SquaredNorm(v[i := v[i] + h]) == SquaredNorm(v) + 2.0 * h * v[i] + h * h
  {
    var w := v[i := v[i] + h];
    if i == 0 {
      assert w[1..] == v[1..];
      assert w[0] * w[0] == v[0] * v[0] + 2.0 * h * v[0] + h * h;
    } else {
      SquaredNormBump(v[1..], i - 1, h);
      assert w[1..] == v[1..][i - 1 := v[i] + h];
    }
  }

  /** Eigen's `maxCoeff(&index)`: the first index holding the maximum. */
  function FirstArgMax(v: Vector): (k: nat)
    requires |v| > 0
    ensures k < |v|
    ensures forall j :: 0 <= j < |v| ==> v[j] <= v[k]
    ensures forall j :: 0 <= j < k ==> v[j] < v[k]
  {
    if |v| == 1 then 0
    else
      var k := FirstArgMax(v[..|v| - 1]);
      if v[|v| - 1] > v[k] then |v| - 1 else k
  }
}
