/** Where an INSERT puts a block: the chain of matrix factors that
    dimeInsert::makeMatrix multiplies in, and what the chain does to a point. */
module Placement {
  import opened Wrappers
  import opened LinearAlgebra
  import opened Affine

  datatype Axes = Axes(x: Vec3, y: Vec3, z: Vec3)

  /** The placement fields of an INSERT. `axes` is the coordinate system
      generated from an extrusion direction other than (0,0,1); `cos` and `sin`
      belong to the rotation angle. */
  datatype Place = Place(axes: Option<Axes>, point: Vec3, scale: Vec3, cos: real, sin: real)

  /** A cell of the grid of copies that an INSERT makes. */
  datatype Cell = Cell(row: nat, col: nat, rowSpacing: real, colSpacing: real)

  function CellOffset(c: Cell): Vec3 {
    Vec3(c.col as real * c.colSpacing, c.row as real * c.rowSpacing, 0.0)
  }

  /** One level of nesting. Reset: an INSERT without a block, whose matrix is
      the identity whatever encloses it. Placed: a block with base point
      `base`, for one grid cell or for the INSERT's own entities. */
  datatype Frame = Reset | Placed(cell: Option<Cell>, place: Place, base: Vec3)

  /** What dimeMatrix::setTransform builds for a zero translation. */
  function TransformMat(p: Place): (m: Mat)
    ensures Affine4(m)
  {
    var t, r := TranslationMat(Vec3(0.0, 0.0, 0.0)), RotationMat(p.cos, p.sin);
    AffineMul(t, r, p.point);
    AffineMul(MatMul(t, r, 4), ScaleMat(p.scale), p.point);
    MatMul(MatMul(t, r, 4), ScaleMat(p.scale), 4)
  }

  function AxesFactors(a: Option<Axes>): (fs: seq<Mat>)
    ensures forall f :: f in fs ==> Affine4(f)
  {
    match a case None => [] case Some(x) => [AxesMat(x.x, x.y, x.z)]
  }

  function CellFactors(o: Option<Cell>): (fs: seq<Mat>)
    ensures forall f :: f in fs ==> Affine4(f)
  {
    match o case None => [] case Some(c) => [TranslationMat(CellOffset(c))]
  }

  /** The factors of makeMatrix, in the order they are multiplied in. */
  function PlaceFactors(p: Place, base: Vec3): (fs: seq<Mat>)
    ensures forall f :: f in fs ==> Affine4(f)
  {
    AxesFactors(p.axes) + ([TranslationMat(p.point)] + ([TransformMat(p)] + [TranslationMat(Negate(base))]))
  }

  function Factors(f: Frame): (fs: seq<Mat>)
    requires f.Placed?
    ensures forall m :: m in fs ==> Affine4(m)
  {
    CellFactors(f.cell) + PlaceFactors(f.place, f.base)
  }

  function Product(m: Mat, fs: seq<Mat>): (p: Mat)
    requires |m| == 4 && forall i :: 0 <= i < 4 ==> |m[i]| == 4
    requires forall f :: f in fs ==> Affine4(f)
    ensures |p| == 4 && forall i :: 0 <= i < 4 ==> |p[i]| == 4
  {
    if fs == [] then m
    else
      assert fs[|fs| - 1] in fs && Affine4(fs[|fs| - 1]);
      MatMul(Product(m, fs[..|fs| - 1]), fs[|fs| - 1], 4)
  }

  /** The matrix at the end of a path, from the outermost matrix `start`. */
  function PathMatrix(start: Mat, path: seq<Frame>): (m: Mat)
    requires |start| == 4 && forall i :: 0 <= i < 4 ==> |start[i]| == 4
    ensures |m| == 4 && forall i :: 0 <= i < 4 ==> |m[i]| == 4
  {
    if path == [] then start
    else
      var f := path[|path| - 1];
      if f.Reset? then IdentityMat() else Product(PathMatrix(start, path[..|path| - 1]), Factors(f))
  }

  // ----- what the matrices mean -----

  function ScalePoint(s: Vec3, p: Vec3): Vec3 {
    Vec3(p.x * s.x, p.y * s.y, p.z * s.z)
  }

  function RotatePoint(cos: real, sin: real, p: Vec3): Vec3 {
    Vec3(p.x * cos - p.y * sin, p.x * sin + p.y * cos, p.z)
  }

  function AxesPoint(a: Axes, p: Vec3): Vec3 {
    Vec3(p.x * a.x.x + p.y * a.y.x + p.z * a.z.x,
         p.x * a.x.y + p.y * a.y.y + p.z * a.z.y,
         p.x * a.x.z + p.y * a.y.z + p.z * a.z.z)
  }

  /** A point of a block, in the coordinates around the INSERT: base point to
      the origin, scale, rotate about z, move to the insertion point, read the
      result in the extrusion axes, move to the grid cell. */
  function PlacePoint(f: Frame, p: Vec3): Vec3
    requires f.Placed?
  {
    var pl := f.place;
    var b := Add(p, Negate(f.base));
    var q := Add(RotatePoint(pl.cos, pl.sin, ScalePoint(pl.scale, b)), pl.point);
    var w := if pl.axes.Some? then AxesPoint(pl.axes.value, q) else q;
    if f.cell.Some? then Add(w, CellOffset(f.cell.value)) else w
  }

  /** A point carried out through the levels of a path, innermost first. */
  function PathPoint(start: Mat, path: seq<Frame>, p: Vec3): Vec3
    requires Affine4(start)
  {
    AffineApply(start, p);
    if path == [] then Apply(start, p)
    else
      var f := path[|path| - 1];
      if f.Reset? then p else PathPoint(start, path[..|path| - 1], PlacePoint(f, p))
  }

  function Through(fs: seq<Mat>, p: Vec3): Vec3
    requires forall f :: f in fs ==> Affine4(f)
  {
    if fs == [] then p
    else
      var last := fs[|fs| - 1];
      AffineApply(last, p);
      Through(fs[..|fs| - 1], Apply(last, p))
  }

  lemma {:induction false} ProductActs(m: Mat, fs: seq<Mat>, p: Vec3)
    requires Affine4(m) && forall f :: f in fs ==> Affine4(f)
    ensures Affine4(Product(m, fs))
    ensures W(Product(m, fs), p) == 1.0 == W(m, Through(fs, p))
    ensures Apply(Product(m, fs), p) == Apply(m, Through(fs, p))
  {
    if fs == [] {
      AffineApply(m, p);
    } else {
      var init, last := fs[..|fs| - 1], fs[|fs| - 1];
      AffineApply(last, p);
      ProductActs(m, init, Apply(last, p));
      AffineMul(Product(m, init), last, p);
    }
  }

  lemma {:induction false} ThroughSplit(fs: seq<Mat>, gs: seq<Mat>, p: Vec3)
    requires (forall f :: f in fs ==> Affine4(f)) && forall f :: f in gs ==> Affine4(f)
    ensures Through(fs + gs, p) == Through(fs, Through(gs, p))
  {
    if gs == [] {
      assert fs + gs == fs;
    } else {
      var g := gs[|gs| - 1];
      AffineApply(g, p);
      ThroughSplit(fs, gs[..|gs| - 1], Apply(g, p));
      assert (fs + gs)[..|fs + gs| - 1] == fs + gs[..|gs| - 1];
    }
  }

  lemma ThroughOne(m: Mat, p: Vec3)
    requires Affine4(m)
    ensures W(m, p) == 1.0 && Through([m], p) == Apply(m, p)
    ensures Through([m], p) == Vec3(RowAt(m[0], p), RowAt(m[1], p), RowAt(m[2], p))
  {
    AffineApply(m, p);
    assert [m][..0] == [];
  }

  lemma TranslationPoint(t: Vec3, p: Vec3)
    ensures Through([TranslationMat(t)], p) == Add(p, t)
  {
    ThroughOne(TranslationMat(t), p);
  }

  lemma AxesMatPoint(a: Axes, p: Vec3)
    ensures Through([AxesMat(a.x, a.y, a.z)], p) == AxesPoint(a, p)
  {
    ThroughOne(AxesMat(a.x, a.y, a.z), p);
  }

  lemma ScaleMatPoint(s: Vec3, p: Vec3)
    ensures Through([ScaleMat(s)], p) == ScalePoint(s, p)
  {
    ThroughOne(ScaleMat(s), p);
  }

  lemma RotationMatPoint(cos: real, sin: real, p: Vec3)
    ensures Through([RotationMat(cos, sin)], p) == RotatePoint(cos, sin, p)
  {
    ThroughOne(RotationMat(cos, sin), p);
  }

  lemma PairPoint(a: Mat, b: Mat, p: Vec3)
    requires Affine4(a) && Affine4(b)
    ensures Affine4(MatMul(a, b, 4)) && Through([MatMul(a, b, 4)], p) == Through([a], Through([b], p))
  {
    AffineMul(a, b, p);
    ThroughOne(b, p);
    ThroughOne(a, Apply(b, p));
    ThroughOne(MatMul(a, b, 4), p);
  }

  lemma TransformPoint(pl: Place, p: Vec3)
    ensures Through([TransformMat(pl)], p) == RotatePoint(pl.cos, pl.sin, ScalePoint(pl.scale, p))
  {
    var t, r, s := TranslationMat(Vec3(0.0, 0.0, 0.0)), RotationMat(pl.cos, pl.sin), ScaleMat(pl.scale);
    var q := ScalePoint(pl.scale, p);
    ScaleMatPoint(pl.scale, p);
    PairPoint(t, r, q);
    PairPoint(MatMul(t, r, 4), s, p);
    RotationMatPoint(pl.cos, pl.sin, q);
    TranslationPoint(Vec3(0.0, 0.0, 0.0), RotatePoint(pl.cos, pl.sin, q));
  }

  lemma OptionalPoint(a: Option<Axes>, o: Option<Cell>, q: Vec3)
    ensures Through(AxesFactors(a), q) == if a.Some? then AxesPoint(a.value, q) else q
    ensures Through(CellFactors(o), q) == if o.Some? then Add(q, CellOffset(o.value)) else q
  {
    if a.Some? {
      AxesMatPoint(a.value, q);
    }
    if o.Some? {
      TranslationPoint(CellOffset(o.value), q);
    }
  }

  lemma PlaceFactorsSplit(pl: Place, base: Vec3, p: Vec3)
    ensures Through(PlaceFactors(pl, base), p)
         == Through(AxesFactors(pl.axes),
              Through([TranslationMat(pl.point)],
                Through([TransformMat(pl)], Through([TranslationMat(Negate(base))], p))))
  {
    var m, t, b := [TranslationMat(pl.point)], [TransformMat(pl)], [TranslationMat(Negate(base))];
    ThroughSplit(AxesFactors(pl.axes), m + (t + b), p);
    ThroughSplit(m, t + b, p);
    ThroughSplit(t, b, p);
  }

  /** The matrix factors of one level do to a point what PlacePoint says. */
  lemma FactorsPoint(f: Frame, p: Vec3)
    requires f.Placed?
    ensures Through(Factors(f), p) == PlacePoint(f, p)
  {
    var pl := f.place;
    ThroughSplit(CellFactors(f.cell), PlaceFactors(pl, f.base), p);
    PlaceFactorsSplit(pl, f.base, p);
    TranslationPoint(Negate(f.base), p);
    var b := Add(p, Negate(f.base));
    TransformPoint(pl, b);
    var r := RotatePoint(pl.cos, pl.sin, ScalePoint(pl.scale, b));
    TranslationPoint(pl.point, r);
    OptionalPoint(pl.axes, None, Add(r, pl.point));
    OptionalPoint(None, f.cell, Through(AxesFactors(pl.axes), Add(r, pl.point)));
  }

  /** Mapping a point by the matrix of a path is applying each level in turn. */
  lemma {:induction false} PathActs(start: Mat, path: seq<Frame>, p: Vec3)
    requires Affine4(start)
    ensures Affine4(PathMatrix(start, path)) && W(PathMatrix(start, path), p) == 1.0
    ensures Apply(PathMatrix(start, path), p) == PathPoint(start, path, p)
  {
    if path == [] {
      AffineApply(start, p);
    } else {
      var f, init := path[|path| - 1], path[..|path| - 1];
      if f.Reset? {
        AffineApply(IdentityMat(), p);
      } else {
        PathActs(start, init, PlacePoint(f, p));
        ProductActs(PathMatrix(start, init), Factors(f), p);
        FactorsPoint(f, p);
      }
    }
  }
}
