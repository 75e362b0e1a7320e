/** The exchange step behind in-place inversion. A matrix m states the relation
    v = m.u; exchanging variable k rewrites it so that u[k] is an output and
    v[k] an input, without changing which (u, v) pairs are related. */
module Exchange {
  import opened LinearAlgebra

  function StepRow(m: Mat, k: nat, i: nat, j: nat): real
    requires k < |m| && i < |m| && k < |m[k]| && j < |m[k]| && |m[i]| == |m[k]|
    requires m[k][k] != 0.0
  {
    var p := m[k][k];
    if i == k then (if j == k then 1.0 / p else -m[k][j] / p)
    else if j == k then m[i][k] / p
    else m[i][j] + m[i][k] * (-m[k][j] / p)
  }

  function Step(m: Mat, k: nat, n: nat): (s: Mat)
    requires |m| == n && (forall i :: 0 <= i < n ==> |m[i]| == n) && k < n && m[k][k] != 0.0
    ensures Square(s, n)
    ensures forall i, j :: 0 <= i < n && 0 <= j < n ==> s[i][j] == StepRow(m, k, i, j)
  {
    seq(n, i requires 0 <= i < n => seq(n, j requires 0 <= j < n => StepRow(m, k, i, j)))
  }

  /** The product of two vectors without the term at k. */
  function Off(r: Vec, u: Vec, k: nat): real
    requires |r| == |u| && k < |r|
  {
    Sum(Times(r, u)[k := 0.0])
  }

  lemma OffDot(r: Vec, u: Vec, k: nat, c: real)
    requires |r| == |u| && k < |r|
    ensures Dot(r, u) == Off(r, u, k) + r[k] * u[k]
    ensures Off(r, u[k := c], k) == Off(r, u, k)
  {
    SumUpdate(Times(r, u), k, 0.0);
    var w, w' := Times(r, u)[k := 0.0], Times(r, u[k := c])[k := 0.0];
    forall i | 0 <= i < |r| ensures w'[i] == w[i] {
    }
    assert w' == w;
  }

  lemma OffCombine(w: Vec, r: Vec, s: Vec, c: real, u: Vec, k: nat)
    requires |w| == |r| == |s| == |u| && k < |w|
    requires forall j :: 0 <= j < |w| && j != k ==> w[j] == r[j] + c * s[j]
    ensures Off(w, u, k) == Off(r, u, k) + c * Off(s, u, k)
  {
    var w', r', s' := Times(w, u)[k := 0.0], Times(r, u)[k := 0.0], Times(s, u)[k := 0.0];
    forall j | 0 <= j < |w| ensures w'[j] == r'[j] + c * s'[j] {
      Distribute(r[j], c, s[j], u[j]);
    }
    SumCombine(w', r', s', c);
  }

  lemma OffScaled(w: Vec, r: Vec, p: real, u: Vec, k: nat)
    requires |w| == |r| == |u| && k < |w| && p != 0.0
    requires forall j :: 0 <= j < |w| && j != k ==> w[j] == -r[j] / p
    ensures Off(w, u, k) == -Off(r, u, k) / p
  {
    forall j | 0 <= j < |w| && j != k ensures w[j] == Zeros(|w|)[j] + (-1.0 / p) * r[j] {
      Quotient(r[j], p);
    }
    OffCombine(w, Zeros(|w|), r, -1.0 / p, u, k);
    assert Times(Zeros(|w|), u)[k := 0.0] == Zeros(|w|);
    SumZeros(|w|);
    Quotient(Off(r, u, k), p);
  }

  lemma Quotient(x: real, p: real)
    requires p != 0.0
    ensures (-1.0 / p) * x == -x / p
  {
  }

  lemma PivotEquation(off: real, p: real, x: real, z: real, offs: real, t: real)
    requires p != 0.0 && offs == -off / p && t == 1.0 / p
    ensures off + p * x == z <==> offs + t * z == x
  {
    assert p * t == 1.0 && offs == -off * t;
    assert (offs + t * z) * p == (z - off) * (t * p);
  }

  lemma OtherEquation(off: real, offk: real, p: real, x: real, c: real, offs: real, t: real, z: real)
    requires p != 0.0 && offs == -offk / p && t == c / p && z == offk + p * x
    ensures off + c * offs + t * z == off + c * x
  {
    assert t * p == c && offs * p == -offk;
    assert t * z == t * offk + c * x;
    assert c * offs == t * (p * offs);
  }

  lemma OffAt(r: Vec, u: Vec, k: nat, z: real) returns (off: real)
    requires |r| == |u| && k < |r|
    ensures off == Off(r, u, k) && Dot(r, u) == off + r[k] * u[k] && Dot(r, u[k := z]) == off + r[k] * z
  {
    off := Off(r, u, k);
    OffDot(r, u, k, z);
    OffDot(r, u[k := z], k, z);
  }

  /** s is the pivot row r solved for its unknown k. */
  lemma PivotRow(r: Vec, s: Vec, k: nat, u: Vec, z: real)
    requires |r| == |s| == |u| && k < |r| && r[k] != 0.0 && s[k] == 1.0 / r[k]
    requires forall j :: 0 <= j < |r| && j != k ==> s[j] == -r[j] / r[k]
    ensures Dot(r, u) == z <==> Dot(s, u[k := z]) == u[k]
  {
    hide *;
    OffScaled(s, r, r[k], u, k);
    var offr := OffAt(r, u, k, z);
    var offs := OffAt(s, u, k, z);
    PivotEquation(offr, r[k], u[k], z, offs, s[k]);
  }

  lemma OtherRowOff(q: Vec, t: Vec, r: Vec, s: Vec, k: nat, u: Vec)
    requires |q| == |t| == |r| == |s| == |u| && k < |r| && r[k] != 0.0
    requires forall j :: 0 <= j < |r| && j != k ==> s[j] == -r[j] / r[k]
    requires forall j :: 0 <= j < |r| && j != k ==> t[j] == q[j] + q[k] * s[j]
    ensures Off(s, u, k) == -Off(r, u, k) / r[k]
    ensures Off(t, u, k) == Off(q, u, k) + q[k] * Off(s, u, k)
  {
    OffScaled(s, r, r[k], u, k);
    OffCombine(t, q, s, q[k], u, k);
  }

  /** t is the row q with unknown k replaced by what the pivot row r says. */
  lemma OtherRow(q: Vec, t: Vec, r: Vec, s: Vec, k: nat, u: Vec, z: real)
    requires |q| == |t| == |r| == |s| == |u| && k < |r| && r[k] != 0.0 && t[k] == q[k] / r[k]
    requires forall j :: 0 <= j < |r| && j != k ==> s[j] == -r[j] / r[k]
    requires forall j :: 0 <= j < |r| && j != k ==> t[j] == q[j] + q[k] * s[j]
    requires Dot(r, u) == z
    ensures Dot(t, u[k := z]) == Dot(q, u)
  {
    hide *;
    OtherRowOff(q, t, r, s, k, u);
    var offq := OffAt(q, u, k, z);
    var offr := OffAt(r, u, k, z);
    var offt := OffAt(t, u, k, z);
    OtherEquation(offq, offr, r[k], u[k], q[k], Off(s, u, k), t[k], z);
  }

  lemma SameProduct(m: Mat, u: Vec, v: Vec)
    requires |v| == |m| && forall i :: 0 <= i < |m| ==> |m[i]| == |u|
    ensures MatVec(m, u) == v <==> forall i :: 0 <= i < |m| ==> Dot(m[i], u) == v[i]
  {
    var w := MatVec(m, u);
    assert forall i :: 0 <= i < |m| ==> w[i] == Dot(m[i], u);
    if forall i :: 0 <= i < |m| ==> Dot(m[i], u) == v[i] {
      assert w == v;
    }
  }

  /** One exchange keeps the relation. */
  lemma StepKeepsRelation(m: Mat, k: nat, n: nat, u: Vec, v: Vec)
    requires Square(m, n) && k < n && m[k][k] != 0.0 && |u| == |v| == n
    ensures MatVec(m, u) == v <==> MatVec(Step(m, k, n), u[k := v[k]]) == v[k := u[k]]
  {
    var s, u', v' := Step(m, k, n), u[k := v[k]], v[k := u[k]];
    PivotRow(m[k], s[k], k, u, v[k]);
    SameProduct(m, u, v);
    SameProduct(s, u', v');
    if Dot(m[k], u) == v[k] {
      forall i | 0 <= i < n && i != k ensures Dot(s[i], u') == Dot(m[i], u) {
        OtherRow(m[i], s[i], m[k], s[k], k, u, v[k]);
      }
    }
  }

  /** The first k coordinates of z, the others of x. */
  function Mix(z: Vec, x: Vec, k: nat): (u: Vec)
    requires k <= |z| == |x|
    ensures |u| == |z|
  {
    z[..k] + x[k..]
  }

  ghost predicate ExchangedAt(m: Mat, b: Mat, k: nat, n: nat, x: Vec, z: Vec)
    requires Square(m, n) && Square(b, n) && k <= n && |x| == |z| == n
  {
    MatVec(b, x) == z <==> MatVec(m, Mix(z, x, k)) == Mix(x, z, k)
  }

  /** m states z = b.x with its first k unknowns exchanged. */
  ghost predicate Exchanged(m: Mat, b: Mat, k: nat, n: nat) {
    && Square(m, n) && Square(b, n) && k <= n
    && forall x: Vec, z: Vec :: |x| == n && |z| == n ==> ExchangedAt(m, b, k, n, x, z)
  }

  lemma ExchangedAtStart(a: Mat, n: nat)
    requires Square(a, n)
    ensures Exchanged(a, a, 0, n)
  {
    forall x: Vec, z: Vec | |x| == n && |z| == n ensures ExchangedAt(a, a, 0, n, x, z) {
      assert Mix(z, x, 0) == x && Mix(x, z, 0) == z;
    }
  }

  lemma StepAt(m: Mat, b: Mat, k: nat, n: nat, x: Vec, z: Vec)
    requires Square(m, n) && Square(b, n) && |x| == |z| == n && k < n && m[k][k] != 0.0
    requires ExchangedAt(m, b, k, n, x, z)
    ensures ExchangedAt(Step(m, k, n), b, k + 1, n, x, z)
  {
    var u, v := Mix(z, x, k), Mix(x, z, k);
    StepKeepsRelation(m, k, n, u, v);
    assert Mix(z, x, k + 1) == u[k := v[k]];
    assert Mix(x, z, k + 1) == v[k := u[k]];
  }

  lemma ExchangedStep(m: Mat, b: Mat, k: nat, n: nat)
    requires Exchanged(m, b, k, n) && k < n && m[k][k] != 0.0
    ensures Exchanged(Step(m, k, n), b, k + 1, n)
  {
    forall x: Vec, z: Vec | |x| == n && |z| == n ensures ExchangedAt(Step(m, k, n), b, k + 1, n, x, z) {
      assert ExchangedAt(m, b, k, n, x, z);
      StepAt(m, b, k, n, x, z);
    }
  }

  lemma SwappedRows(b: Mat, x: Vec, z: Vec, k: nat, p: nat, n: nat)
    requires Square(b, n) && |x| == |z| == n && k < n && p < n
    ensures MatVec(Swap(b, k, p), x) == z <==> MatVec(b, x) == Swap(z, k, p)
  {
    var t := MatVec(b, x);
    assert MatVec(Swap(b, k, p), x) == Swap(t, k, p);
    assert Swap(Swap(z, k, p), k, p) == z && Swap(Swap(t, k, p), k, p) == t;
  }

  lemma SwapAt(m: Mat, b: Mat, k: nat, p: nat, n: nat, x: Vec, z: Vec)
    requires Square(m, n) && Square(b, n) && |x| == |z| == n && k <= p < n
    requires ExchangedAt(m, b, k, n, x, Swap(z, k, p))
    ensures ExchangedAt(Swap(m, k, p), Swap(b, k, p), k, n, x, z)
  {
    SwappedRows(b, x, z, k, p, n);
    SwappedRows(m, Mix(z, x, k), Mix(x, z, k), k, p, n);
    assert Mix(Swap(z, k, p), x, k) == Mix(z, x, k);
    assert Mix(x, Swap(z, k, p), k) == Swap(Mix(x, z, k), k, p);
  }

  /** Swapping two rows that are still outputs swaps them in the original too. */
  lemma ExchangedSwap(m: Mat, b: Mat, k: nat, p: nat, n: nat)
    requires Exchanged(m, b, k, n) && k <= p < n
    ensures Exchanged(Swap(m, k, p), Swap(b, k, p), k, n)
  {
    forall x: Vec, z: Vec | |x| == n && |z| == n
      ensures ExchangedAt(Swap(m, k, p), Swap(b, k, p), k, n, x, z)
    {
      assert ExchangedAt(m, b, k, n, x, Swap(z, k, p));
      SwapAt(m, b, k, p, n, x, z);
    }
  }

  /** A column without a pivot gives a nonzero vector that b sends to zero. */
  lemma NoPivotNullVector(m: Mat, b: Mat, k: nat, n: nat) returns (x: Vec)
    requires Exchanged(m, b, k, n) && k < n
    requires forall i :: k <= i < n ==> m[i][k] == 0.0
    ensures NullVector(b, x, n)
  {
    var c := Col(m, n, k);
    x := c[..k] + Unit(n, k)[k..];
    assert Mix(Zeros(n), x, k) == Unit(n, k);
    forall i | 0 <= i < n ensures MatVec(m, Unit(n, k))[i] == Mix(x, Zeros(n), k)[i] {
      DotUnit(m[i], k);
    }
    assert MatVec(m, Unit(n, k)) == Mix(x, Zeros(n), k);
    assert ExchangedAt(m, b, k, n, x, Zeros(n));
    assert x[k] == 1.0;
  }

  // ----- undoing the row swaps -----

  /** m and b are opposite readings of one relation. */
  ghost predicate Opposite(m: Mat, b: Mat, n: nat) {
    && Square(m, n) && Square(b, n)
    && forall x: Vec, z: Vec :: |x| == n && |z| == n ==> (MatVec(b, x) == z <==> MatVec(m, z) == x)
  }

  lemma AllExchanged(m: Mat, b: Mat, n: nat)
    requires Exchanged(m, b, n, n)
    ensures Opposite(m, b, n)
  {
    forall x: Vec, z: Vec | |x| == n && |z| == n
      ensures MatVec(b, x) == z <==> MatVec(m, z) == x
    {
      assert ExchangedAt(m, b, n, n, x, z);
      assert Mix(z, x, n) == z && Mix(x, z, n) == x;
    }
  }

  function SwapColumns(m: Mat, k: nat, p: nat, n: nat): (s: Mat)
    requires |m| == n && (forall i :: 0 <= i < n ==> |m[i]| == n) && k < n && p < n
    ensures Square(s, n)
  {
    seq(n, i requires 0 <= i < n => Swap(m[i], k, p))
  }

  /** A row swap of the original is undone by the same column swap. */
  lemma OppositeSwap(m: Mat, b: Mat, k: nat, p: nat, n: nat)
    requires Square(b, n) && k < n && p < n && Opposite(m, Swap(b, k, p), n)
    ensures Opposite(SwapColumns(m, k, p, n), b, n)
  {
    forall x: Vec, z: Vec | |x| == n && |z| == n
      ensures MatVec(b, x) == z <==> MatVec(SwapColumns(m, k, p, n), z) == x
    {
      var z' := Swap(z, k, p);
      SwappedRows(b, x, z', k, p, n);
      assert Swap(z', k, p) == z;
      forall i | 0 <= i < n ensures MatVec(SwapColumns(m, k, p, n), z)[i] == MatVec(m, z')[i] {
        DotSwap(m[i], z, k, p);
      }
      assert MatVec(SwapColumns(m, k, p, n), z) == MatVec(m, z');
    }
  }

  /** Opposite readings are two-sided inverses. */
  lemma OppositeIsInverse(m: Mat, a: Mat, n: nat)
    requires Opposite(m, a, n)
    ensures IsInverse(m, a, n)
  {
    forall i, j | 0 <= i < n && 0 <= j < n
      ensures MatMul(a, m, n)[i][j] == Identity(n)[i][j] == MatMul(m, a, n)[i][j]
    {
      UnitColumn(a, n, j);
      UnitColumn(m, n, j);
      assert MatVec(m, Col(a, n, j)) == Unit(n, j);
      assert MatVec(a, Col(m, n, j)) == Unit(n, j);
      assert MatMul(a, m, n)[i][j] == MatVec(a, Col(m, n, j))[i];
      assert MatMul(m, a, n)[i][j] == MatVec(m, Col(a, n, j))[i];
    }
    MatrixExtensionality(MatMul(a, m, n), Identity(n), n);
    MatrixExtensionality(MatMul(m, a, n), Identity(n), n);
  }

  lemma UnitColumn(m: Mat, n: nat, j: nat)
    requires Square(m, n) && j < n
    ensures MatVec(m, Unit(n, j)) == Col(m, n, j)
  {
    forall i | 0 <= i < n ensures MatVec(m, Unit(n, j))[i] == Col(m, n, j)[i] {
      DotUnit(m[i], j);
    }
  }

  /** The original with the row swaps p[0], p[1], ... done in order. */
  function SwapAll(a: Mat, p: seq<nat>): (b: Mat)
    requires |p| <= |a| && forall k :: 0 <= k < |p| ==> p[k] < |a|
    ensures |b| == |a|
  {
    if p == [] then a else Swap(SwapAll(a, p[..|p| - 1]), |p| - 1, p[|p| - 1])
  }

  lemma {:induction false} SwapAllSquare(a: Mat, p: seq<nat>, n: nat)
    requires Square(a, n) && |p| <= n && forall k :: 0 <= k < |p| ==> p[k] < n
    ensures Square(SwapAll(a, p), n)
  {
    if p != [] {
      SwapAllSquare(a, p[..|p| - 1], n);
    }
  }
}
