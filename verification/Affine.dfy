/** 4x4 matrices acting on points of space. */
module Affine {
  import opened LinearAlgebra

  datatype Vec3 = Vec3(x: real, y: real, z: real)

  function Add(p: Vec3, q: Vec3): Vec3 {
    Vec3(p.x + q.x, p.y + q.y, p.z + q.z)
  }

  function Negate(p: Vec3): Vec3 {
    Vec3(-p.x, -p.y, -p.z)
  }

  function IdentityMat(): (m: Mat)
    ensures m == Identity(4)
  {
    var m := [[1.0, 0.0, 0.0, 0.0], [0.0, 1.0, 0.0, 0.0], [0.0, 0.0, 1.0, 0.0], [0.0, 0.0, 0.0, 1.0]];
    assert forall i :: 0 <= i < 4 ==> m[i] == Unit(4, i);
    m
  }

  function WithTranslation(m: Mat, t: Vec3): Mat
    requires |m| == 4 && forall i :: 0 <= i < 4 ==> |m[i]| == 4
  {
    [m[0][3 := t.x], m[1][3 := t.y], m[2][3 := t.z], m[3]]
  }

  function WithRotation(m: Mat, c: real, s: real): Mat
    requires |m| == 4 && forall i :: 0 <= i < 4 ==> |m[i]| == 4
  {
    [m[0][0 := c][1 := -s], m[1][0 := s][1 := c], m[2], m[3]]
  }

  function WithScale(m: Mat, s: Vec3): Mat
    requires |m| == 4 && forall i :: 0 <= i < 4 ==> |m[i]| == 4
  {
    [m[0][0 := s.x], m[1][1 := s.y], m[2][2 := s.z], m[3]]
  }

  function TranslationMat(t: Vec3): (m: Mat)
    ensures Affine4(m)
    ensures m == [[1.0, 0.0, 0.0, t.x], [0.0, 1.0, 0.0, t.y], [0.0, 0.0, 1.0, t.z], [0.0, 0.0, 0.0, 1.0]]
  {
    var m := WithTranslation(IdentityMat(), t);
    assert m[0] == [1.0, 0.0, 0.0, t.x] && m[1] == [0.0, 1.0, 0.0, t.y] && m[2] == [0.0, 0.0, 1.0, t.z];
    m
  }

  function RotationMat(c: real, s: real): (m: Mat)
    ensures Affine4(m)
    ensures m == [[c, -s, 0.0, 0.0], [s, c, 0.0, 0.0], [0.0, 0.0, 1.0, 0.0], [0.0, 0.0, 0.0, 1.0]]
  {
    var m := WithRotation(IdentityMat(), c, s);
    assert m[0] == [c, -s, 0.0, 0.0] && m[1] == [s, c, 0.0, 0.0];
    m
  }

  function ScaleMat(s: Vec3): (m: Mat)
    ensures Affine4(m)
    ensures m == [[s.x, 0.0, 0.0, 0.0], [0.0, s.y, 0.0, 0.0], [0.0, 0.0, s.z, 0.0], [0.0, 0.0, 0.0, 1.0]]
  {
    var m := WithScale(IdentityMat(), s);
    assert m[0] == [s.x, 0.0, 0.0, 0.0] && m[1] == [0.0, s.y, 0.0, 0.0] && m[2] == [0.0, 0.0, s.z, 0.0];
    m
  }

  function AxesMat(x: Vec3, y: Vec3, z: Vec3): (m: Mat)
    ensures Affine4(m)
  {
    [[x.x, y.x, z.x, 0.0], [x.y, y.y, z.y, 0.0], [x.z, y.z, z.z, 0.0], [0.0, 0.0, 0.0, 1.0]]
  }

  predicate Affine4(m: Mat) {
    |m| == 4 && (forall i :: 0 <= i < 4 ==> |m[i]| == 4) && m[3] == [0.0, 0.0, 0.0, 1.0]
  }

  function W(m: Mat, p: Vec3): real
    requires |m| == 4 && |m[3]| == 4
  {
    p.x * m[3][0] + p.y * m[3][1] + p.z * m[3][2] + m[3][3]
  }

  function RowAt(r: Vec, p: Vec3): real
    requires |r| == 4
  {
    p.x * r[0] + p.y * r[1] + p.z * r[2] + r[3]
  }

  function Apply(m: Mat, p: Vec3): Vec3
    requires |m| == 4 && (forall i :: 0 <= i < 4 ==> |m[i]| == 4) && W(m, p) != 0.0
  {
    Vec3(RowAt(m[0], p) / W(m, p), RowAt(m[1], p) / W(m, p), RowAt(m[2], p) / W(m, p))
  }

  function Hom(p: Vec3): Vec {
    [p.x, p.y, p.z, 1.0]
  }

  lemma Dot4(r: Vec, q: Vec)
    requires |r| == |q| == 4
    ensures Dot(r, q) == r[0] * q[0] + r[1] * q[1] + r[2] * q[2] + r[3] * q[3]
  {
    var w := Times(r, q);
    assert w[..1][..0] == [];
    assert Sum(w[..1]) == w[0];
    assert w[..2][..1] == w[..1];
    assert Sum(w[..2]) == w[0] + w[1];
    assert w[..3][..2] == w[..2];
    assert Sum(w[..3]) == w[0] + w[1] + w[2];
  }

  lemma AffineApply(m: Mat, p: Vec3)
    requires Affine4(m)
    ensures W(m, p) == 1.0 && Hom(Apply(m, p)) == MatVec(m, Hom(p))
  {
    forall i | 0 <= i < 4 ensures MatVec(m, Hom(p))[i] == RowAt(m[i], p) {
      Dot4(m[i], Hom(p));
    }
    assert W(m, p) == 1.0;
  }

  /** The image of a point under any matrix: the product with its homogeneous
      coordinates, divided by the last one. */
  lemma ApplyIsProduct(m: Mat, p: Vec3)
    requires Square(m, 4) && W(m, p) != 0.0
    ensures var h := MatVec(m, Hom(p));
      h[3] != 0.0 && Apply(m, p) == Vec3(h[0] / h[3], h[1] / h[3], h[2] / h[3])
  {
    DotHom(m[0], p);
    DotHom(m[1], p);
    DotHom(m[2], p);
    DotHom(m[3], p);
    assert W(m, p) == RowAt(m[3], p);
    hide Dot, RowAt, W, Hom;
  }

  lemma DotHom(r: Vec, p: Vec3)
    requires |r| == 4
    ensures Dot(r, Hom(p)) == RowAt(r, p)
  {
    Dot4(r, Hom(p));
  }

  /** A product of affine matrices is affine and maps a point by its right
      factor, then by its left one. */
  lemma AffineMul(a: Mat, b: Mat, p: Vec3)
    requires Affine4(a) && Affine4(b)
    ensures Affine4(MatMul(a, b, 4))
    ensures W(MatMul(a, b, 4), p) == W(b, p) == W(a, Apply(b, p)) == 1.0
    ensures Apply(MatMul(a, b, 4), p) == Apply(a, Apply(b, p))
  {
    var c := MatMul(a, b, 4);
    forall j | 0 <= j < 4 ensures c[3][j] == a[3][j] {
      Dot4(a[3], Col(b, 4, j));
    }
    assert c[3] == a[3];
    AffineApply(b, p);
    AffineApply(a, Apply(b, p));
    AffineApply(c, p);
    MulActs(a, b, Hom(p), 4);
    var l, r := Hom(Apply(c, p)), Hom(Apply(a, Apply(b, p)));
    assert l == r;
    assert l[0] == r[0] && l[1] == r[1] && l[2] == r[2];
  }
}
