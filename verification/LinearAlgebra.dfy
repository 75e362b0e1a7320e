/** Vectors and square matrices over the reals, as values: what the in-place
    code of module `Linear` is specified against. */
module LinearAlgebra {
  type Vec = seq<real>
  type Mat = seq<seq<real>>

  ghost predicate Square(m: Mat, n: nat) {
    |m| == n && forall i :: 0 <= i < n ==> |m[i]| == n
  }

  function Sum(w: Vec): real {
    if w == [] then 0.0 else Sum(w[..|w| - 1]) + w[|w| - 1]
  }

  function Times(u: Vec, v: Vec): Vec
    requires |u| == |v|
  {
    seq(|u|, i requires 0 <= i < |u| => u[i] * v[i])
  }

  function Dot(u: Vec, v: Vec): real
    requires |u| == |v|
  {
    Sum(Times(u, v))
  }

  function Unit(n: nat, j: nat): Vec {
    seq(n, i => if i == j then 1.0 else 0.0)
  }

  function Zeros(n: nat): Vec {
    seq(n, i => 0.0)
  }

  function Identity(n: nat): Mat {
    seq(n, i requires 0 <= i < n => Unit(n, i))
  }

  function Col(m: Mat, n: nat, j: nat): (c: Vec)
    requires |m| == n && j < n && forall i :: 0 <= i < n ==> |m[i]| == n
    ensures |c| == n
  {
    seq(n, i requires 0 <= i < n => m[i][j])
  }

  function MatMul(a: Mat, b: Mat, n: nat): (c: Mat)
    requires |a| == n && forall i :: 0 <= i < n ==> |a[i]| == n
    requires |b| == n && forall i :: 0 <= i < n ==> |b[i]| == n
    ensures Square(c, n)
  {
    seq(n, i requires 0 <= i < n => seq(n, j requires 0 <= j < n => Dot(a[i], Col(b, n, j))))
  }

  lemma MatMulAt(a: Mat, b: Mat, n: nat, i: nat, j: nat)
    requires Square(a, n) && Square(b, n) && i < n && j < n
    ensures MatMul(a, b, n)[i][j] == Dot(a[i], Col(b, n, j))
  {
  }

  function MatVec(m: Mat, u: Vec): (v: Vec)
    requires forall i :: 0 <= i < |m| ==> |m[i]| == |u|
    ensures |v| == |m|
  {
    seq(|m|, i requires 0 <= i < |m| => Dot(m[i], u))
  }

  /** `b` is the two-sided inverse of `a`. */
  ghost predicate IsInverse(b: Mat, a: Mat, n: nat) {
    Square(a, n) && Square(b, n) && MatMul(a, b, n) == Identity(n) && MatMul(b, a, n) == Identity(n)
  }

  ghost predicate NullVector(a: Mat, x: Vec, n: nat) {
    Square(a, n) && |x| == n && x != Zeros(n) && MatVec(a, x) == Zeros(n)
  }

  lemma MatrixExtensionality(a: Mat, b: Mat, n: nat)
    requires Square(a, n) && Square(b, n)
    requires forall i, j :: 0 <= i < n && 0 <= j < n ==> a[i][j] == b[i][j]
    ensures a == b
  {
    forall i | 0 <= i < n ensures a[i] == b[i] {
    }
  }

  lemma {:induction false} SumUpdate(w: Vec, k: nat, c: real)
    requires k < |w|
    ensures Sum(w[k := c]) == Sum(w) - w[k] + c
  {
    var n := |w| - 1;
    if k < n {
      SumUpdate(w[..n], k, c);
      assert w[k := c][..n] == w[..n][k := c];
    } else {
      assert w[k := c][..n] == w[..n];
    }
  }

  /** A pointwise combination of two sequences sums to the same combination. */
  lemma {:induction false} SumCombine(w: Vec, u: Vec, v: Vec, c: real)
    requires |w| == |u| == |v|
    requires forall i :: 0 <= i < |w| ==> w[i] == u[i] + c * v[i]
    ensures Sum(w) == Sum(u) + c * Sum(v)
  {
    if w != [] {
      var n := |w| - 1;
      SumCombine(w[..n], u[..n], v[..n], c);
    }
  }

  lemma Distribute(a: real, c: real, b: real, x: real)
    ensures (a + c * b) * x == a * x + c * (b * x)
  {
  }

  lemma DotCombine(w: Vec, u: Vec, v: Vec, c: real, x: Vec)
    requires |w| == |u| == |v| == |x|
    requires forall i :: 0 <= i < |w| ==> w[i] == u[i] + c * v[i]
    ensures Dot(w, x) == Dot(u, x) + c * Dot(v, x)
  {
    forall i | 0 <= i < |w| ensures Times(w, x)[i] == Times(u, x)[i] + c * Times(v, x)[i] {
      Distribute(u[i], c, v[i], x[i]);
    }
    SumCombine(Times(w, x), Times(u, x), Times(v, x), c);
  }

  lemma {:induction false} SumZeros(n: nat)
    ensures Sum(Zeros(n)) == 0.0
  {
    if n > 0 {
      SumZeros(n - 1);
      assert Zeros(n)[..n - 1] == Zeros(n - 1);
    }
  }

  lemma DotUnit(u: Vec, j: nat)
    requires j < |u|
    ensures Dot(u, Unit(|u|, j)) == u[j]
    ensures Dot(Unit(|u|, j), u) == u[j]
  {
    var n := |u|;
    assert Times(u, Unit(n, j)) == Zeros(n)[j := u[j]];
    assert Times(Unit(n, j), u) == Zeros(n)[j := u[j]];
    SumUpdate(Zeros(n), j, u[j]);
    SumZeros(n);
  }

  lemma DotZeros(u: Vec)
    ensures Dot(u, Zeros(|u|)) == 0.0
  {
    assert Times(u, Zeros(|u|)) == Zeros(|u|);
    SumZeros(|u|);
  }

  /** Exchanging two coordinates of both arguments keeps the product. */
  lemma DotSwap(u: Vec, v: Vec, k: nat, p: nat)
    requires |u| == |v| && k < |u| && p < |u|
    ensures Dot(Swap(u, k, p), v) == Dot(u, Swap(v, k, p))
  {
    var w := Times(u, v);
    SwapTimes(u, v, k, p);
    SumUpdate(w, k, u[p] * v[k]);
    SumUpdate(w[k := u[p] * v[k]], p, u[k] * v[p]);
    SumUpdate(w, k, u[k] * v[p]);
    SumUpdate(w[k := u[k] * v[p]], p, u[p] * v[k]);
  }

  lemma SwapTimes(u: Vec, v: Vec, k: nat, p: nat)
    requires |u| == |v| && k < |u| && p < |u|
    ensures Times(Swap(u, k, p), v) == Times(u, v)[k := u[p] * v[k]][p := u[k] * v[p]]
    ensures Times(u, Swap(v, k, p)) == Times(u, v)[k := u[k] * v[p]][p := u[p] * v[k]]
  {
    var a, b := Times(Swap(u, k, p), v), Times(u, Swap(v, k, p));
    forall i | 0 <= i < |u|
      ensures a[i] == Times(u, v)[k := u[p] * v[k]][p := u[k] * v[p]][i]
      ensures b[i] == Times(u, v)[k := u[k] * v[p]][p := u[p] * v[k]][i]
    {
    }
    assert a == Times(u, v)[k := u[p] * v[k]][p := u[k] * v[p]];
    assert b == Times(u, v)[k := u[k] * v[p]][p := u[p] * v[k]];
  }

  function Swap<T>(s: seq<T>, k: nat, p: nat): (t: seq<T>)
    requires k < |s| && p < |s|
    ensures |t| == |s|
  {
    s[k := s[p]][p := s[k]]
  }

  // ----- associativity -----

  function Row(u: Vec, b: Mat, n: nat): (v: Vec)
    requires |b| == n && forall i :: 0 <= i < n ==> |b[i]| == n
    requires |u| == n
    ensures |v| == n
  {
    seq(n, j requires 0 <= j < n => Dot(u, Col(b, n, j)))
  }

  /** The combination of the rows of `b` with the weights `u`, at column j. */
  function Weighted(u: Vec, b: seq<Vec>, n: nat, j: nat): (v: Vec)
    requires |u| == |b| && j < n && forall i :: 0 <= i < |b| ==> |b[i]| == n
    ensures |v| == |u|
  {
    seq(|u|, i requires 0 <= i < |u| => u[i] * b[i][j])
  }

  function Combined(u: Vec, b: seq<Vec>, n: nat): (v: Vec)
    requires |u| == |b| && forall i :: 0 <= i < |b| ==> |b[i]| == n
    ensures |v| == n
  {
    seq(n, j requires 0 <= j < n => Sum(Weighted(u, b, n, j)))
  }

  /** Dropping the last row takes its multiple off the combination. */
  lemma CombinedStep(u: Vec, b: seq<Vec>, n: nat, j: nat)
    requires |u| == |b| > 0 && j < n && forall i :: 0 <= i < |b| ==> |b[i]| == n
    ensures var g := |u| - 1;
      Combined(u, b, n)[j] == Combined(u[..g], b[..g], n)[j] + u[g] * b[g][j]
  {
    var g := |u| - 1;
    var q, q' := Weighted(u, b, n, j), Weighted(u[..g], b[..g], n, j);
    forall i | 0 <= i < g ensures q[i] == q'[i] {
    }
    assert q[..g] == q';
  }

  lemma DotStep(u: Vec, b: seq<Vec>, x: Vec)
    requires |u| == |b| > 0 && forall i :: 0 <= i < |b| ==> |b[i]| == |x|
    ensures var g := |u| - 1;
      Dot(u, MatVec(b, x)) == Dot(u[..g], MatVec(b[..g], x)) + u[g] * Dot(b[g], x)
  {
    var g := |u| - 1;
    var w, w' := Times(u, MatVec(b, x)), Times(u[..g], MatVec(b[..g], x));
    forall i | 0 <= i < g ensures w[i] == w'[i] {
    }
    assert w[..g] == w';
  }

  /** The same double sum, by rows and by columns. */
  lemma {:induction false} SumExchange(u: Vec, b: seq<Vec>, x: Vec)
    requires |u| == |b| && forall i :: 0 <= i < |b| ==> |b[i]| == |x|
    ensures Dot(u, MatVec(b, x)) == Dot(Combined(u, b, |x|), x)
  {
    var n := |x|;
    if u == [] {
      NothingCombined(b, x);
    } else {
      hide Dot, MatVec, Combined;
      SumExchange(u[..|u| - 1], b[..|u| - 1], x);
      DotStep(u, b, x);
      CombinedDot(u, b, x);
    }
  }

  lemma CombinedDot(u: Vec, b: seq<Vec>, x: Vec)
    requires |u| == |b| > 0 && forall i :: 0 <= i < |b| ==> |b[i]| == |x|
    ensures var g := |u| - 1;
      Dot(Combined(u, b, |x|), x) == Dot(Combined(u[..g], b[..g], |x|), x) + u[g] * Dot(b[g], x)
  {
    hide Dot, Combined;
    var g, n := |u| - 1, |x|;
    forall j | 0 <= j < n
      ensures Combined(u, b, n)[j] == Combined(u[..g], b[..g], n)[j] + u[g] * b[g][j]
    {
      CombinedStep(u, b, n, j);
    }
    DotCombine(Combined(u, b, n), Combined(u[..g], b[..g], n), b[g], u[g], x);
  }

  lemma NothingCombined(b: seq<Vec>, x: Vec)
    requires b == []
    ensures Dot([], MatVec(b, x)) == Dot(Combined([], b, |x|), x)
  {
    assert Times(Combined([], b, |x|), x) == Zeros(|x|);
    SumZeros(|x|);
  }

  lemma DotAssociates(u: Vec, b: Mat, x: Vec, n: nat)
    requires Square(b, n) && |u| == |x| == n
    ensures Dot(u, MatVec(b, x)) == Dot(Row(u, b, n), x)
  {
    SumExchange(u, b, x);
    forall j | 0 <= j < n ensures Row(u, b, n)[j] == Combined(u, b, n)[j] {
      forall i | 0 <= i < n ensures Times(u, Col(b, n, j))[i] == Weighted(u, b, n, j)[i] {
      }
      assert Times(u, Col(b, n, j)) == Weighted(u, b, n, j);
    }
    assert Row(u, b, n) == Combined(u, b, n);
  }

  /** Applying a product is applying the right factor, then the left one. */
  lemma MulActs(a: Mat, b: Mat, x: Vec, n: nat)
    requires Square(a, n) && Square(b, n) && |x| == n
    ensures MatVec(MatMul(a, b, n), x) == MatVec(a, MatVec(b, x))
  {
    forall i | 0 <= i < n
      ensures MatVec(MatMul(a, b, n), x)[i] == MatVec(a, MatVec(b, x))[i]
    {
      DotAssociates(a[i], b, x, n);
      assert MatMul(a, b, n)[i] == Row(a[i], b, n);
    }
  }

  lemma MulAssociates(a: Mat, b: Mat, c: Mat, n: nat)
    requires Square(a, n) && Square(b, n) && Square(c, n)
    ensures MatMul(MatMul(a, b, n), c, n) == MatMul(a, MatMul(b, c, n), n)
  {
    var ab := MatMul(a, b, n);
    var bc := MatMul(b, c, n);
    forall i, j | 0 <= i < n && 0 <= j < n
      ensures MatMul(ab, c, n)[i][j] == MatMul(a, bc, n)[i][j]
    {
      DotAssociates(a[i], b, Col(c, n, j), n);
      assert ab[i] == Row(a[i], b, n);
      forall r | 0 <= r < n ensures Col(bc, n, j)[r] == MatVec(b, Col(c, n, j))[r] {
      }
      assert Col(bc, n, j) == MatVec(b, Col(c, n, j));
    }
    MatrixExtensionality(MatMul(ab, c, n), MatMul(a, bc, n), n);
  }

  lemma MulIdentity(a: Mat, n: nat)
    requires Square(a, n)
    ensures MatMul(a, Identity(n), n) == a == MatMul(Identity(n), a, n)
  {
    forall i, j | 0 <= i < n && 0 <= j < n
      ensures MatMul(a, Identity(n), n)[i][j] == a[i][j] == MatMul(Identity(n), a, n)[i][j]
    {
      assert Col(Identity(n), n, j) == Unit(n, j);
      DotUnit(a[i], j);
      DotUnit(Col(a, n, j), i);
    }
    MatrixExtensionality(MatMul(a, Identity(n), n), a, n);
    MatrixExtensionality(MatMul(Identity(n), a, n), a, n);
  }

  lemma IdentityActs(x: Vec)
    ensures MatVec(Identity(|x|), x) == x
  {
    forall i | 0 <= i < |x| ensures MatVec(Identity(|x|), x)[i] == x[i] {
      DotUnit(x, i);
    }
  }

  lemma InverseIsUnique(b: Mat, c: Mat, a: Mat, n: nat)
    requires IsInverse(b, a, n) && IsInverse(c, a, n)
    ensures b == c
  {
    MulAssociates(b, a, c, n);
    MulIdentity(b, n);
    MulIdentity(c, n);
  }

  /** A matrix with an inverse sends only the zero vector to zero. */
  lemma InvertibleHasNoNullVector(b: Mat, a: Mat, x: Vec, n: nat)
    requires IsInverse(b, a, n)
    ensures !NullVector(a, x, n)
  {
    if |x| == n && MatVec(a, x) == Zeros(n) {
      MulActs(b, a, x, n);
      IdentityActs(x);
      assert x == MatVec(b, Zeros(n));
      forall i | 0 <= i < n ensures x[i] == 0.0 {
        DotZeros(b[i]);
      }
      assert x == Zeros(n);
    }
  }
}
