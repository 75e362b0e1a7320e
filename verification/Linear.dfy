/** The matrix class of src/util/Linear.cpp: elements overwritten in place.
    The source fixes n = 4; the algorithms do not depend on it. */
module Linear {
  import opened LinearAlgebra
  import opened Exchange
  import opened Affine

  function Abs(x: real): (y: real)
    ensures y >= 0.0 && (y == 0.0 <==> x == 0.0)
  {
    if x < 0.0 then -x else x
  }

  /** Sum of the absolute values of r[k..h]. */
  function AbsSum(r: Vec, k: nat, h: nat): (s: real)
    requires k <= h <= |r|
    ensures s >= 0.0
    ensures forall j :: k <= j < h ==> Abs(r[j]) <= s
  {
    if h == k then 0.0 else AbsSum(r, k, h - 1) + Abs(r[h - 1])
  }

  /** How much of row r, from column k on, sits in column k. */
  ghost function Ratio(r: Vec, k: nat): real
    requires k < |r| && AbsSum(r, k, |r|) > 0.0
  {
    Abs(r[k]) / AbsSum(r, k, |r|)
  }

  /** Row p is the first, from row k on, with the greatest share in column k. */
  ghost predicate BestPivot(m: Mat, n: nat, k: nat, p: nat) {
    && Square(m, n) && k <= p < n && AbsSum(m[p], k, n) > 0.0 && m[p][k] != 0.0
    && (forall i :: k <= i < n && AbsSum(m[i], k, n) > 0.0 ==> Ratio(m[i], k) <= Ratio(m[p], k))
    && (forall i :: k <= i < p && AbsSum(m[i], k, n) > 0.0 ==> Ratio(m[i], k) < Ratio(m[p], k))
  }

  class Matrix {
    const n: nat
    const a: array2<real>

    ghost predicate Valid() {
      a.Length0 == n && a.Length1 == n
    }

    ghost function Rows(): (m: Mat)
      requires Valid()
      reads a
      ensures Square(m, n)
      ensures forall i, j :: 0 <= i < n && 0 <= j < n ==> m[i][j] == a[i, j]
    {
      seq(n, i requires 0 <= i < n reads a => seq(n, j requires 0 <= j < n reads a => a[i, j]))
    }

    constructor FromRows(m: Mat, size: nat)
      requires |m| == size && forall i :: 0 <= i < size ==> |m[i]| == size
      ensures Valid() && fresh(a) && n == size && Rows() == m
    {
      n := size;
      a := new real[size, size]((i, j) requires 0 <= i < |m| && 0 <= j < |m[i]| => m[i][j]);
      new;
      assert forall i :: 0 <= i < n ==> Rows()[i] == m[i];
    }

    method Copy() returns (m: Mat)
      requires Valid()
      ensures m == Rows()
    {
      m := [];
      for i := 0 to n
        invariant |m| == i && forall r :: 0 <= r < i ==> m[r] == Rows()[r]
      {
        var row := seq(n, j requires 0 <= j < n && i < n && Valid() reads a => a[i, j]);
        assert row == Rows()[i];
        m := m + [row];
      }
    }

    method MakeIdentity()
      requires Valid()
      modifies a
      ensures Rows() == Identity(n)
    {
      for i := 0 to n
        invariant forall r, j :: 0 <= r < i && 0 <= j < n ==> a[r, j] == Identity(n)[r][j]
      {
        for j := 0 to n
          invariant forall r, c :: 0 <= r < i && 0 <= c < n ==> a[r, c] == Identity(n)[r][c]
          invariant forall c :: 0 <= c < j ==> a[i, c] == Identity(n)[i][c]
        {
          a[i, j] := if i == j then 1.0 else 0.0;
        }
      }
      MatrixExtensionality(Rows(), Identity(n), n);
    }

    method SetTranslate(t: Vec3)
      requires Valid() && n == 4
      modifies a
      ensures Rows() == WithTranslation(old(Rows()), t)
    {
      ghost var m := Rows();
      a[0, 3], a[1, 3], a[2, 3] := t.x, t.y, t.z;
      MatrixExtensionality(Rows(), WithTranslation(m, t), 4);
    }

    /** Rotation about z by the angle with sine s and cosine c. */
    method SetRotate(c: real, s: real)
      requires Valid() && n == 4
      modifies a
      ensures Rows() == WithRotation(old(Rows()), c, s)
    {
      ghost var m := Rows();
      a[0, 0], a[0, 1] := c, -s;
      a[1, 0], a[1, 1] := s, c;
      MatrixExtensionality(Rows(), WithRotation(m, c, s), 4);
    }

    method SetRotateAxes(x: Vec3, y: Vec3, z: Vec3)
      requires Valid() && n == 4
      modifies a
      ensures Rows() == AxesMat(x, y, z)
    {
      SetColumn(0, x, 0.0);
      SetColumn(1, y, 0.0);
      SetColumn(2, z, 0.0);
      SetColumn(3, Vec3(0.0, 0.0, 0.0), 1.0);
      MatrixExtensionality(Rows(), AxesMat(x, y, z), 4);
    }

    method SetColumn(j: nat, v: Vec3, w: real)
      requires Valid() && n == 4 && j < 4
      modifies a
      ensures forall i, c :: 0 <= i < 4 && 0 <= c < 4 && c != j ==> a[i, c] == old(a[i, c])
      ensures a[0, j] == v.x && a[1, j] == v.y && a[2, j] == v.z && a[3, j] == w
    {
      a[0, j], a[1, j], a[2, j], a[3, j] := v.x, v.y, v.z, w;
    }

    method SetScale(s: Vec3)
      requires Valid() && n == 4
      modifies a
      ensures Rows() == WithScale(old(Rows()), s)
    {
      ghost var m := Rows();
      a[0, 0], a[1, 1], a[2, 2] := s.x, s.y, s.z;
      MatrixExtensionality(Rows(), WithScale(m, s), 4);
    }

    /** this := this * m; the argument must not be this matrix, whose elements
        are overwritten while the argument is still being read. */
    method MultRight(m: Matrix)
      requires Valid() && m.Valid() && m.n == n && m.a != a
      modifies a
      ensures Rows() == MatMul(old(Rows()), m.Rows(), n)
    {
      hide MatMul, Dot, Col;
      ghost var r := MatMul(Rows(), m.Rows(), n);
      var copy := new Matrix.FromArray(this);
      for i := 0 to n
        invariant copy.Rows() == old(Rows()) && m.Rows() == old(m.Rows())
        invariant forall y, x :: 0 <= y < i && 0 <= x < n ==> a[y, x] == r[y][x]
      {
        MultRow(copy, m, i, r);
      }
      MatrixExtensionality(Rows(), r, n);
    }

    /** Row i of the product, from the copy. */
    method MultRow(copy: Matrix, m: Matrix, i: nat, ghost r: Mat)
      requires Valid() && copy.Valid() && m.Valid() && copy.n == m.n == n && copy.a != a && m.a != a && i < n
      requires r == MatMul(copy.Rows(), m.Rows(), n)
      modifies a
      ensures forall y, x :: 0 <= y < n && 0 <= x < n ==> a[y, x] == if y == i then r[y][x] else old(a[y, x])
    {
      hide MatMul, Dot, Col;
      for j := 0 to n
        invariant forall y, x :: 0 <= y < n && 0 <= x < n ==>
          a[y, x] == if y == i && x < j then r[y][x] else old(a[y, x])
      {
        a[i, j] := copy.Product(m, i, j);
        MatMulAt(copy.Rows(), m.Rows(), n, i, j);
      }
    }

    method Product(m: Matrix, i: nat, j: nat) returns (acc: real)
      requires Valid() && m.Valid() && m.n == n && i < n && j < n
      ensures acc == Dot(Rows()[i], Col(m.Rows(), n, j))
    {
      ghost var w := Times(Rows()[i], Col(m.Rows(), n, j));
      acc := 0.0;
      for k := 0 to n
        invariant acc == Sum(w[..k])
      {
        acc := acc + a[i, k] * m.a[k, j];
        assert w[..k + 1][..k] == w[..k];
      }
      assert w[..n] == w;
    }

    constructor FromArray(m: Matrix)
      requires m.Valid()
      ensures Valid() && fresh(a) && n == m.n && Rows() == m.Rows()
    {
      n := m.n;
      a := new real[m.n, m.n]((i, j) requires 0 <= i < m.n && 0 <= j < m.n && m.Valid() reads m.a => m.a[i, j]);
      new;
      MatrixExtensionality(Rows(), m.Rows(), n);
    }

    method SetTransform(t: Vec3, s: Vec3, cos: real, sin: real)
      requires Valid() && n == 4
      modifies a
      ensures Rows() == MatMul(MatMul(TranslationMat(t), RotationMat(cos, sin), 4), ScaleMat(s), 4)
    {
      MakeIdentity();
      SetTranslate(t);
      var m2 := new Matrix.FromRows(IdentityMat(), 4);
      m2.SetRotate(cos, sin);
      MultRight(m2);
      var m3 := new Matrix.FromRows(IdentityMat(), 4);
      m3.SetScale(s);
      MultRight(m3);
    }

    /** The image of a point; a zero W is a division by zero in the source. */
    method MultMatrixVec(src: Vec3) returns (dst: Vec3)
      requires Valid() && n == 4 && W(Rows(), src) != 0.0
      ensures dst == Apply(Rows(), src)
    {
      var w := src.x * a[3, 0] + src.y * a[3, 1] + src.z * a[3, 2] + a[3, 3];
      dst := Vec3((src.x * a[0, 0] + src.y * a[0, 1] + src.z * a[0, 2] + a[0, 3]) / w,
                  (src.x * a[1, 0] + src.y * a[1, 1] + src.z * a[1, 2] + a[1, 3]) / w,
                  (src.x * a[2, 0] + src.y * a[2, 1] + src.z * a[2, 2] + a[2, 3]) / w);
    }

    /** The scan for the pivot of column k; a row whose remaining entries are
        all zero has no ratio (0/0) and is never taken. */
    method FindPivot(k: nat) returns (max: real, p: nat)
      requires Valid() && k < n
      ensures max >= 0.0
      ensures max == 0.0 <==> forall i :: k <= i < n ==> a[i, k] == 0.0
      ensures max > 0.0 ==> BestPivot(Rows(), n, k, p)
    {
      hide AbsSum;
      ghost var m := Rows();
      max, p := 0.0, 0;
      for i := k to n
        invariant max >= 0.0
        invariant max == 0.0 ==> forall r :: k <= r < i ==> m[r][k] == 0.0
        invariant max > 0.0 ==> k <= p < i && AbsSum(m[p], k, n) > 0.0 && m[p][k] != 0.0 && max == Ratio(m[p], k)
        invariant forall r :: k <= r < i && AbsSum(m[r], k, n) > 0.0 ==> Ratio(m[r], k) <= max
        invariant max > 0.0 ==> forall r :: k <= r < p && AbsSum(m[r], k, n) > 0.0 ==> Ratio(m[r], k) < max
      {
        var s := RemainingSum(i, k);
        if s != 0.0 {
          var q := Abs(a[i, k]) / s;
          QuotientSign(Abs(a[i, k]), s);
          if q > max {
            max, p := q, i;
          }
        }
      }
    }

    /** The scale of a row: what is left of it, in absolute values. */
    method RemainingSum(i: nat, k: nat) returns (s: real)
      requires Valid() && i < n && k <= n
      ensures s == AbsSum(Rows()[i], k, n)
    {
      s := 0.0;
      for j := k to n
        invariant s == AbsSum(Rows()[i], k, j)
      {
        s := s + Abs(a[i, j]);
      }
    }

    method SwapRows(k: nat, p: nat)
      requires Valid() && k < n && p < n
      modifies a
      ensures Rows() == Swap(old(Rows()), k, p)
    {
      ghost var m := Rows();
      for j := 0 to n
        invariant forall i, c :: 0 <= i < n && 0 <= c < n ==> a[i, c] == (if c < j then Swap(m, k, p) else m)[i][c]
      {
        var h := a[k, j];
        a[k, j] := a[p, j];
        a[p, j] := h;
      }
      MatrixExtensionality(Rows(), Swap(m, k, p), n);
    }

    method SwapCols(k: nat, p: nat)
      requires Valid() && k < n && p < n
      modifies a
      ensures Rows() == SwapColumns(old(Rows()), k, p, n)
    {
      ghost var m := Rows();
      for i := 0 to n
        invariant forall r, j :: 0 <= r < n && 0 <= j < n ==>
          a[r, j] == (if r < i then SwapColumns(m, k, p, n) else m)[r][j]
      {
        var h := a[i, k];
        a[i, k] := a[i, p];
        a[i, p] := h;
      }
      MatrixExtensionality(Rows(), SwapColumns(m, k, p, n), n);
    }

    /** One column of it, with column k still as it was. */
    method ExchangeColumn(k: nat, j: nat, ghost m: Mat)
      requires Valid() && k < n && j < n && j != k && Square(m, n) && m[k][k] != 0.0
      requires forall r :: 0 <= r < n ==> a[r, j] == m[r][j] && a[r, k] == m[r][k]
      modifies a
      ensures forall r, c :: 0 <= r < n && 0 <= c < n ==>
        a[r, c] == if c == j then Step(m, k, n)[r][c] else old(a[r, c])
    {
      ghost var s := Step(m, k, n);
      a[k, j] := -a[k, j] / a[k, k];
      for i := 0 to n
        invariant forall r :: 0 <= r < n ==> a[r, j] == (if r < i || r == k then s else m)[r][j]
        invariant forall r, c :: 0 <= r < n && 0 <= c < n && c != j ==> a[r, c] == old(a[r, c])
      {
        if i != k {
          a[i, j] := a[i, j] + a[i, k] * a[k, j];
        }
      }
    }

    /** The elimination around pivot (k, k): one exchange step, in place. */
    method ExchangeAt(k: nat)
      requires Valid() && k < n && a[k, k] != 0.0
      modifies a
      ensures Rows() == Step(old(Rows()), k, n)
    {
      ghost var m := Rows();
      ghost var s := Step(m, k, n);
      var pivot := a[k, k];
      for j := 0 to n
        invariant forall r, c :: 0 <= r < n && 0 <= c < n ==> a[r, c] == (if c < j && c != k then s else m)[r][c]
      {
        if j != k {
          ExchangeColumn(k, j, m);
        }
      }
      for i := 0 to n
        invariant forall r, c :: 0 <= r < n && 0 <= c < n && c != k ==> a[r, c] == s[r][c]
        invariant forall r :: 0 <= r < n ==> a[r, k] == if r < i then m[r][k] / pivot else m[r][k]
      {
        a[i, k] := a[i, k] / pivot;
      }
      a[k, k] := 1.0 / pivot;
      MatrixExtensionality(Rows(), s, n);
    }

    /** One round of the outer loop of Inverse: choose the pivot of column k,
        bring its row to row k, exchange. */
    method Eliminate(k: nat, ghost b: Mat) returns (ok: bool, p: nat)
      requires Valid() && k < n && Exchanged(Rows(), b, k, n)
      modifies a
      ensures ok ==> k <= p < n && BestPivot(old(Rows()), n, k, p)
      ensures ok ==> Rows() == Step(Swap(old(Rows()), k, p), k, n)
      ensures ok ==> Exchanged(Rows(), Swap(b, k, p), k + 1, n)
      ensures !ok ==> Rows() == old(Rows()) && exists x :: NullVector(b, x, n)
    {
      ghost var m := Rows();
      var max;
      max, p := FindPivot(k);
      if max == 0.0 {
        ghost var x := NoPivotNullVector(m, b, k, n);
        return false, p;
      }
      ExchangedSwap(m, b, k, p, n);
      ExchangedStep(Swap(m, k, p), Swap(b, k, p), k, n);
      if p != k {
        SwapRows(k, p);
      }
      assert Rows() == Swap(m, k, p);
      ExchangeAt(k);
      return true, p;
    }

    /** Inversion in place. True: the new contents are the two-sided inverse of
        the old. False: the old contents send a nonzero vector to zero. */
    method Inverse() returns (ok: bool)
      requires Valid()
      modifies a
      ensures ok ==> IsInverse(Rows(), old(Rows()), n)
      ensures !ok ==> exists x :: NullVector(old(Rows()), x, n)
      ensures ok <==> exists c :: IsInverse(c, old(Rows()), n)
    {
      ghost var m0 := Rows();
      var p := new nat[n];
      ghost var ps: seq<nat> := [];
      ExchangedAtStart(m0, n);
      for k := 0 to n
        invariant ps == p[..k] && forall i :: 0 <= i < k ==> i <= ps[i] < n
        invariant Exchanged(Rows(), SwapAll(m0, ps), k, n)
      {
        ok, p[k] := Eliminate(k, SwapAll(m0, ps));
        if !ok {
          SwapAllNulls(m0, ps, n);
          InverseAnswers(false, Rows(), m0, n);
          return;
        }
        ps := ps + [p[k]];
        assert ps[..k] == p[..k];
      }
      assert ps == p[..];
      AllExchanged(Rows(), SwapAll(m0, ps), n);
      UndoSwaps(p, m0);
      OppositeIsInverse(Rows(), m0, n);
      return true;
    }

    /** One row swap of b undone. */
    method UndoSwap(k: nat, p: nat, ghost b: Mat)
      requires Valid() && k < n && p < n && Square(b, n) && Opposite(Rows(), Swap(b, k, p), n)
      modifies a
      ensures Opposite(Rows(), b, n)
    {
      OppositeSwap(Rows(), b, k, p, n);
      hide Opposite;
      if p != k {
        SwapCols(k, p);
      } else {
        MatrixExtensionality(SwapColumns(Rows(), k, k, n), Rows(), n);
      }
    }

    /** The row swaps undone as column swaps, last first. The last swap of all
        is of row n-1 with itself and needs no undoing. */
    method UndoSwaps(p: array<nat>, ghost m0: Mat)
      requires Valid() && p.Length == n && Square(m0, n)
      requires forall i :: 0 <= i < n ==> i <= p[i] < n
      requires Opposite(Rows(), SwapAll(m0, p[..]), n)
      modifies a
      ensures Opposite(Rows(), m0, n)
    {
      hide Opposite, Swap;
      ghost var ps := p[..];
      if n > 0 {
        UndoLast(m0, ps, n);
      }
      var k := n - 1;
      while k > 0
        invariant -1 <= k < n && (k == -1 <==> n == 0)
        invariant p[..] == ps
        invariant Opposite(Rows(), SwapAll(m0, ps[..if k < 0 then 0 else k]), n)
      {
        k := k - 1;
        assert ps[..k + 1][..k] == ps[..k];
        SwapAllSquare(m0, ps[..k], n);
        UndoSwap(k, p[k], SwapAll(m0, ps[..k]));
      }
      assert SwapAll(m0, ps[..0]) == m0;
    }
  }

  /** The larger entry is not taken if the rest of its row outweighs it. */
  lemma ScalingDecides()
    ensures var m := [[2.0, 6.0], [1.0, 1.0]]; BestPivot(m, 2, 0, 1) && !BestPivot(m, 2, 0, 0)
  {
    var m := [[2.0, 6.0], [1.0, 1.0]];
    assert AbsSum(m[0], 0, 0) == 0.0 && AbsSum(m[0], 0, 1) == 2.0 && AbsSum(m[0], 0, 2) == 8.0;
    assert AbsSum(m[1], 0, 0) == 0.0 && AbsSum(m[1], 0, 1) == 1.0 && AbsSum(m[1], 0, 2) == 2.0;
    assert Ratio(m[0], 0) == 0.25 && Ratio(m[1], 0) == 0.5;
  }

  lemma QuotientSign(x: real, s: real)
    requires x >= 0.0 && s > 0.0
    ensures x / s >= 0.0 && (x / s == 0.0 <==> x == 0.0)
  {
    if x / s == 0.0 {
      assert x == (x / s) * s;
    }
  }

  lemma UndoLast(m0: Mat, ps: seq<nat>, n: nat)
    requires n > 0 && |ps| == n && |m0| == n && forall i :: 0 <= i < n ==> i <= ps[i] < n
    ensures SwapAll(m0, ps) == SwapAll(m0, ps[..n - 1])
  {
    var b := SwapAll(m0, ps[..n - 1]);
    assert ps[n - 1] == n - 1;
    assert Swap(b, n - 1, n - 1) == b;
  }

  /** Row swaps do not change which vectors go to zero. */
  lemma {:induction false} SwapAllNull(a: Mat, p: seq<nat>, x: Vec, n: nat)
    requires Square(a, n) && |p| <= n && forall k :: 0 <= k < |p| ==> p[k] < n
    requires NullVector(SwapAll(a, p), x, n)
    ensures NullVector(a, x, n)
  {
    if p != [] {
      var k := |p| - 1;
      var b := SwapAll(a, p[..k]);
      SwapAllSquare(a, p[..k], n);
      SwappedRows(b, x, Zeros(n), k, p[k], n);
      assert Swap(Zeros(n), k, p[k]) == Zeros(n);
      SwapAllNull(a, p[..k], x, n);
    }
  }

  lemma SwapAllNulls(a: Mat, p: seq<nat>, n: nat)
    requires Square(a, n) && |p| <= n && forall k :: 0 <= k < |p| ==> p[k] < n
    requires exists x :: NullVector(SwapAll(a, p), x, n)
    ensures exists x :: NullVector(a, x, n)
  {
    var x :| NullVector(SwapAll(a, p), x, n);
    SwapAllNull(a, p, x, n);
  }

  /** Inverse answers true exactly on the matrices without a null vector. */
  lemma InverseAnswers(ok: bool, b: Mat, a: Mat, n: nat)
    requires Square(a, n)
    requires ok ==> IsInverse(b, a, n)
    requires !ok ==> exists x :: NullVector(a, x, n)
    ensures ok <==> exists c :: IsInverse(c, a, n)
    ensures ok <==> !exists x :: NullVector(a, x, n)
  {
    forall c, x | IsInverse(c, a, n) ensures !NullVector(a, x, n) {
      InvertibleHasNoNullVector(c, a, x, n);
    }
  }
}
