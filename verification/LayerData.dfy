/** The geometry of one layer (src/convert/layerdata.cpp): line strips and faces
    as index lists with -1 separators, over the point index of `BSPTree`. */
module LayerData {
  import opened Wrappers
  import opened Affine
  import opened Box
  import opened BSPTree
  import Linear

  type Segment = (Vec3, Vec3)

  ghost predicate Indices(idx: seq<int>, n: nat) {
    forall k :: 0 <= k < |idx| ==> -1 <= idx[k] < n
  }

  /** The segments an index list stands for: neighbours not divided by -1. */
  ghost function Segments(idx: seq<int>, pts: seq<Vec3>): seq<Segment>
    requires Indices(idx, |pts|)
  {
    var n := |idx|;
    if n < 2 then []
    else
      Segments(idx[..n - 1], pts)
      + (if idx[n - 2] != -1 && idx[n - 1] != -1 then [(pts[idx[n - 2]], pts[idx[n - 1]])] else [])
  }

  /** The finished polygons of an index list and the one still open. */
  ghost function Polygons(idx: seq<int>, pts: seq<Vec3>): (seq<seq<Vec3>>, seq<Vec3>)
    requires Indices(idx, |pts|)
  {
    if idx == [] then ([], [])
    else
      var (done, open) := Polygons(idx[..|idx| - 1], pts);
      var last := idx[|idx| - 1];
      if last == -1 then (done + [open], []) else (done, open + [pts[last]])
  }

  lemma {:induction false} SegmentsExtend(idx: seq<int>, pts: seq<Vec3>, pts': seq<Vec3>)
    requires Indices(idx, |pts|) && pts <= pts'
    ensures Segments(idx, pts') == Segments(idx, pts)
  {
    if |idx| >= 2 {
      SegmentsExtend(idx[..|idx| - 1], pts, pts');
    }
  }

  lemma {:induction false} PolygonsExtend(idx: seq<int>, pts: seq<Vec3>, pts': seq<Vec3>)
    requires Indices(idx, |pts|) && pts <= pts'
    ensures Polygons(idx, pts') == Polygons(idx, pts)
  {
    if idx != [] {
      PolygonsExtend(idx[..|idx| - 1], pts, pts');
    }
  }

  /** Ends in an open strip of at least one segment, or holds nothing yet. */
  ghost predicate OpenStrip(idx: seq<int>) {
    idx != [] ==> |idx| >= 2 && idx[|idx| - 1] != -1 && idx[|idx| - 2] != -1
  }

  lemma SegmentsAppend(idx: seq<int>, i: int, pts: seq<Vec3>)
    requires Indices(idx, |pts|) && -1 <= i < |pts| && idx != []
    ensures Indices(idx + [i], |pts|)
    ensures var last := idx[|idx| - 1];
      Segments(idx + [i], pts) == Segments(idx, pts) + (if last != -1 && i != -1 then [(pts[last], pts[i])] else [])
  {
    assert (idx + [i])[..|idx|] == idx;
  }

  lemma LastSegment(idx: seq<int>, pts: seq<Vec3>)
    requires Indices(idx, |pts|) && OpenStrip(idx)
    ensures Segments(idx, pts) == [] <==> idx == []
    ensures var s := Segments(idx, pts); idx != [] ==> s[|s| - 1].1 == pts[idx[|idx| - 1]]
  {
  }

  /** One index more when the open strip goes on, a separator and two indices
      when a new strip starts; nothing before is changed. */
  ghost predicate Continues(idx: seq<int>, idx': seq<int>, joins: bool) {
    idx <= idx' && |idx'| == |idx| + if joins then 1 else if idx == [] then 2 else 3
  }

  /** What addLine does to the index list. */
  ghost function WithLine(idx: seq<int>, joins: bool, i0: int, i1: int): seq<int> {
    if joins then idx + [i1] else idx + (if idx != [] then [-1] else []) + [i0, i1]
  }

  lemma NewStrip(idx: seq<int>, pts: seq<Vec3>, i0: int, i1: int)
    requires Indices(idx, |pts|) && OpenStrip(idx) && idx != [] && 0 <= i0 < |pts| && 0 <= i1 < |pts|
    ensures var idx' := idx + [-1] + [i0] + [i1];
      Indices(idx', |pts|) && Segments(idx', pts) == Segments(idx, pts) + [(pts[i0], pts[i1])]
  {
    hide Segments;
    SegmentsAppend(idx, -1, pts);
    SegmentsAppend(idx + [-1], i0, pts);
    SegmentsAppend(idx + [-1] + [i0], i1, pts);
  }

  lemma NoSegments(pts: seq<Vec3>, i: int)
    requires 0 <= i < |pts|
    ensures Segments([], pts) == [] && Segments([i], pts) == []
  {
  }

  lemma FirstStrip(pts: seq<Vec3>, i0: int, i1: int)
    requires 0 <= i0 < |pts| && 0 <= i1 < |pts|
    ensures Segments([], pts) == [] && Segments([i0, i1], pts) == [(pts[i0], pts[i1])]
  {
    NoSegments(pts, i0);
    hide Segments;
    SegmentsAppend([i0], i1, pts);
    assert [i0] + [i1] == [i0, i1];
  }

  lemma LineAppends(idx: seq<int>, pts: seq<Vec3>, i0: int, i1: int)
    requires Indices(idx, |pts|) && OpenStrip(idx) && 0 <= i0 < |pts| && 0 <= i1 < |pts|
    ensures var idx' := WithLine(idx, idx != [] && idx[|idx| - 1] == i0, i0, i1);
      Indices(idx', |pts|) && OpenStrip(idx') && Segments(idx', pts) == Segments(idx, pts) + [(pts[i0], pts[i1])]
  {
    hide Segments;
    if idx != [] && idx[|idx| - 1] == i0 {
      SegmentsAppend(idx, i1, pts);
    } else if idx != [] {
      NewStrip(idx, pts, i0, i1);
      assert idx + [-1] + [i0] + [i1] == idx + [-1] + [i0, i1];
    } else {
      FirstStrip(pts, i0, i1);
      assert idx + [] + [i0, i1] == [i0, i1];
    }
  }

  /** Appending a segment to the list, over points that may have grown. */
  lemma StripGrows(idx: seq<int>, pts: seq<Vec3>, pts': seq<Vec3>, i0: int, i1: int)
    requires Indices(idx, |pts|) && OpenStrip(idx) && pts <= pts' && 0 <= i0 < |pts'| && 0 <= i1 < |pts'|
    requires forall j :: 0 <= j < |pts| ==> (pts[j] == pts'[i0] <==> j == i0)
    ensures var idx' := WithLine(idx, idx != [] && idx[|idx| - 1] == i0, i0, i1);
      && Indices(idx', |pts'|) && OpenStrip(idx')
      && Segments(idx', pts') == Segments(idx, pts) + [(pts'[i0], pts'[i1])]
      && Continues(idx, idx', var s := Segments(idx, pts); s != [] && s[|s| - 1].1 == pts'[i0])
  {
    hide Segments;
    LastSegment(idx, pts);
    SegmentsExtend(idx, pts, pts');
    LineAppends(idx, pts', i0, i1);
  }

  /** Every index is live: no point is ever removed from a layer. */
  ghost predicate Packed(s: Index) {
    forall i :: 0 <= i < |s.points| ==> i in s.live
  }

  lemma PackedAdd(s: Index, pt: Vec3)
    requires s.Valid() && Packed(s) && InRange(pt)
    ensures var (t, i) := s.Add(pt);
      Packed(t) && s.points <= t.points && 0 <= i < |t.points| && t.points[i] == pt
    ensures forall j :: 0 <= j < |s.points| ==> (s.points[j] == pt <==> j == s.Add(pt).1)
  {
  }

  /** A transformation that is defined and in range for the point. */
  ghost predicate Maps(m: Option<Linear.Matrix>, v: Vec3)
    reads if m.Some? then {m.value.a} else {}
  {
    match m
    case None => InRange(v)
    case Some(x) => x.Valid() && x.n == 4 && W(x.Rows(), v) != 0.0 && InRange(Apply(x.Rows(), v))
  }

  ghost function Image(m: Option<Linear.Matrix>, v: Vec3): (t: Vec3)
    requires Maps(m, v)
    reads if m.Some? then {m.value.a} else {}
    ensures InRange(t)
  {
    match m case None => v case Some(x) => Apply(x.Rows(), v)
  }

  method Transform(m: Option<Linear.Matrix>, v: Vec3) returns (t: Vec3)
    requires Maps(m, v)
    ensures t == Image(m, v)
  {
    match m
    case None => t := v;
    case Some(x) => t := x.MultMatrixVec(v);
  }

  class Layer {
    var fillmode: bool
    const facebsp: Tree<()>
    var faceindices: seq<int>
    const linebsp: Tree<()>
    var lineindices: seq<int>
    var points: seq<Vec3>

    ghost predicate Valid()
      reads this, facebsp, facebsp.Repr, linebsp, linebsp.Repr
    {
      && this !in facebsp.Repr && this !in linebsp.Repr && facebsp.Repr !! linebsp.Repr
      && facebsp.Valid() && linebsp.Valid() && Packed(facebsp.State()) && Packed(linebsp.State())
      && Indices(lineindices, |linebsp.State().points|) && OpenStrip(lineindices)
      && Indices(faceindices, |facebsp.State().points|)
    }

    /** The corners added since the last face was ended. */
    ghost function OpenFace(): seq<Vec3>
      requires Valid()
      reads this, facebsp, facebsp.Repr, linebsp, linebsp.Repr
    {
      Polygons(faceindices, facebsp.State().points).1
    }

    /** The line segments the layer stands for, in order. */
    ghost function Lines(): seq<Segment>
      requires Valid()
      reads this, facebsp, facebsp.Repr, linebsp, linebsp.Repr
    {
      Segments(lineindices, linebsp.State().points)
    }

    /** The polygons the layer stands for, in order. */
    ghost function Faces(): seq<seq<Vec3>>
      requires Valid()
      reads this, facebsp, facebsp.Repr, linebsp, linebsp.Repr
    {
      Polygons(faceindices, facebsp.State().points).0
    }

    constructor ()
      ensures Valid() && OpenFace() == [] && fresh(facebsp.Repr) && fresh(linebsp.Repr) && fillmode
      ensures facebsp.maxnodepoints == 64 && linebsp.maxnodepoints == 64
      ensures Lines() == [] && Faces() == [] && points == []
    {
      fillmode := true;
      facebsp := new Tree(64);
      linebsp := new Tree(64);
      faceindices, lineindices, points := [], [], [];
    }

    method AddLine(v0: Vec3, v1: Vec3, matrix: Option<Linear.Matrix>)
      requires Valid() && Maps(matrix, v0) && Maps(matrix, v1)
      requires matrix.Some? ==> matrix.value.a !in linebsp.Repr
      modifies this`lineindices, linebsp.Repr
      ensures fillmode == old(fillmode)
      ensures Valid() && fresh(linebsp.Repr - old(linebsp.Repr)) && facebsp.Repr == old(facebsp.Repr)
      ensures Lines() == old(Lines()) + [(old(Image(matrix, v0)), old(Image(matrix, v1)))]
      ensures Faces() == old(Faces()) && OpenFace() == old(OpenFace())
      ensures Continues(old(lineindices), lineindices, old(Joins(Image(matrix, v0))))
    {
      var t0 := Transform(matrix, v0);
      var t1 := Transform(matrix, v1);
      AddSegment(t0, t1);
    }

    /** The last segment ends at t. */
    ghost predicate Joins(t: Vec3)
      requires Valid()
      reads this, facebsp, facebsp.Repr, linebsp, linebsp.Repr
    {
      Lines() != [] && Lines()[|Lines()| - 1].1 == t
    }

    method AddSegment(t0: Vec3, t1: Vec3)
      requires Valid() && InRange(t0) && InRange(t1)
      modifies this`lineindices, linebsp.Repr
      ensures fillmode == old(fillmode)
      ensures Valid() && fresh(linebsp.Repr - old(linebsp.Repr)) && facebsp.Repr == old(facebsp.Repr)
      ensures Lines() == old(Lines()) + [(t0, t1)] && Faces() == old(Faces()) && OpenFace() == old(OpenFace())
      ensures Continues(old(lineindices), lineindices, old(Joins(t0)))
    {
      hide Segments, Index.Add, Polygons, WithLine, Continues, OpenStrip, Indices;
      ghost var pts := linebsp.State().points;
      var i0, i1 := IndexLine(t0, t1);
      StripGrows(lineindices, pts, linebsp.State().points, i0, i1);
      AppendLine(i0, i1);
    }

    method IndexLine(t0: Vec3, t1: Vec3) returns (i0: int, i1: int)
      requires linebsp.Valid() && Packed(linebsp.State()) && InRange(t0) && InRange(t1)
      modifies linebsp.Repr
      ensures linebsp.Valid() && fresh(linebsp.Repr - old(linebsp.Repr)) && Packed(linebsp.State())
      ensures var pts, pts' := old(linebsp.State().points), linebsp.State().points;
        && pts <= pts' && 0 <= i0 < |pts'| && pts'[i0] == t0 && 0 <= i1 < |pts'| && pts'[i1] == t1
        && forall j :: 0 <= j < |pts| ==> (pts[j] == t0 <==> j == i0)
    {
      hide Index.Add;
      PackedAdd(linebsp.State(), t0);
      i0 := linebsp.AddPoint(t0, ());
      PackedAdd(linebsp.State(), t1);
      i1 := linebsp.AddPoint(t1, ());
    }

    method AppendLine(i0: int, i1: int)
      modifies this`lineindices
      ensures var idx := old(lineindices);
        lineindices == WithLine(idx, idx != [] && idx[|idx| - 1] == i0, i0, i1)
    {
      if |lineindices| > 0 && lineindices[|lineindices| - 1] == i0 {
        lineindices := lineindices + [i1];
      } else {
        if |lineindices| > 0 {
          lineindices := lineindices + [-1];
        }
        lineindices := lineindices + [i0];
        lineindices := lineindices + [i1];
      }
    }

    method AddPoint(v: Vec3, matrix: Option<Linear.Matrix>)
      requires Maps(matrix, v)
      modifies this`points
      ensures points == old(points) + [old(Image(matrix, v))]
    {
      var t := Transform(matrix, v);
      points := points + [t];
    }

    method SetFillmode(on: bool)
      modifies this`fillmode
      ensures fillmode == on
    {
      fillmode := on;
    }

    method AddCorner(t: Vec3)
      requires Valid() && InRange(t)
      modifies this`faceindices, facebsp.Repr
      ensures fillmode == old(fillmode)
      ensures Valid() && fresh(facebsp.Repr - old(facebsp.Repr)) && Lines() == old(Lines())
      ensures linebsp.Repr == old(linebsp.Repr)
      ensures Faces() == old(Faces()) && OpenFace() == old(OpenFace()) + [t]
    {
      hide Polygons, Index.Add, Segments;
      ghost var pts := facebsp.State().points;
      PackedAdd(facebsp.State(), t);
      var i := facebsp.AddPoint(t, ());
      PolygonsExtend(faceindices, pts, facebsp.State().points);
      PolygonsAppend(faceindices, i, facebsp.State().points);
      faceindices := faceindices + [i];
    }

    method EndFace()
      requires Valid()
      modifies this`faceindices
      ensures fillmode == old(fillmode)
      ensures Valid() && OpenFace() == [] && Lines() == old(Lines())
      ensures Faces() == old(Faces()) + [old(OpenFace())]
    {
      PolygonsAppend(faceindices, -1, facebsp.State().points);
      faceindices := faceindices + [-1];
    }

    method AddTriangle(v0: Vec3, v1: Vec3, v2: Vec3, matrix: Option<Linear.Matrix>)
      requires Valid() && OpenFace() == [] && Maps(matrix, v0) && Maps(matrix, v1) && Maps(matrix, v2)
      requires matrix.Some? ==> matrix.value.a !in linebsp.Repr && matrix.value.a !in facebsp.Repr
      modifies this`lineindices, this`faceindices, linebsp.Repr, facebsp.Repr
      ensures fillmode == old(fillmode)
      ensures Valid() && OpenFace() == [] && fresh(linebsp.Repr - old(linebsp.Repr))
      ensures fresh(facebsp.Repr - old(facebsp.Repr))
      ensures var t := old([Image(matrix, v0), Image(matrix, v1), Image(matrix, v2)]);
        if old(fillmode) then Lines() == old(Lines()) && Faces() == old(Faces()) + [t]
        else Faces() == old(Faces()) && Lines() == old(Lines()) + [(t[0], t[1]), (t[1], t[2]), (t[2], t[0])]
    {
      hide *;
      if fillmode {
        var t0 := Transform(matrix, v0);
        var t1 := Transform(matrix, v1);
        var t2 := Transform(matrix, v2);
        FillTriangle(t0, t1, t2);
      } else {
        OutlineTriangle(v0, v1, v2, matrix);
      }
    }

    method OutlineTriangle(v0: Vec3, v1: Vec3, v2: Vec3, matrix: Option<Linear.Matrix>)
      requires Valid() && Maps(matrix, v0) && Maps(matrix, v1) && Maps(matrix, v2)
      requires matrix.Some? ==> matrix.value.a !in linebsp.Repr
      modifies this`lineindices, linebsp.Repr
      ensures fillmode == old(fillmode)
      ensures Valid() && fresh(linebsp.Repr - old(linebsp.Repr)) && facebsp.Repr == old(facebsp.Repr)
      ensures Faces() == old(Faces()) && OpenFace() == old(OpenFace())
      ensures var t := old([Image(matrix, v0), Image(matrix, v1), Image(matrix, v2)]);
        Lines() == old(Lines()) + [(t[0], t[1]), (t[1], t[2]), (t[2], t[0])]
    {
      hide *;
      AddLine(v0, v1, matrix);
      AddLine(v1, v2, matrix);
      AddLine(v2, v0, matrix);
    }

    method FillTriangle(t0: Vec3, t1: Vec3, t2: Vec3)
      requires Valid() && OpenFace() == [] && InRange(t0) && InRange(t1) && InRange(t2)
      modifies this`faceindices, facebsp.Repr
      ensures fillmode == old(fillmode)
      ensures Valid() && OpenFace() == [] && fresh(facebsp.Repr - old(facebsp.Repr))
      ensures linebsp.Repr == old(linebsp.Repr)
      ensures Lines() == old(Lines()) && Faces() == old(Faces()) + [[t0, t1, t2]]
    {
      hide *;
      AddCorner(t0);
      AddCorner(t1);
      AddCorner(t2);
      assert [] + [t0] + [t1] + [t2] == [t0, t1, t2];
      EndFace();
    }

    method FillQuad(t0: Vec3, t1: Vec3, t2: Vec3, t3: Vec3)
      requires Valid() && OpenFace() == [] && InRange(t0) && InRange(t1) && InRange(t2) && InRange(t3)
      modifies this`faceindices, facebsp.Repr
      ensures fillmode == old(fillmode)
      ensures Valid() && OpenFace() == [] && fresh(facebsp.Repr - old(facebsp.Repr))
      ensures linebsp.Repr == old(linebsp.Repr)
      ensures Lines() == old(Lines()) && Faces() == old(Faces()) + [[t0, t1, t2, t3]]
    {
      hide *;
      AddCorner(t0);
      AddCorner(t1);
      AddCorner(t2);
      AddCorner(t3);
      assert [] + [t0] + [t1] + [t2] + [t3] == [t0, t1, t2, t3];
      EndFace();
    }

    method AddQuad(v0: Vec3, v1: Vec3, v2: Vec3, v3: Vec3, matrix: Option<Linear.Matrix>)
      requires Valid() && OpenFace() == [] && Maps(matrix, v0) && Maps(matrix, v1) && Maps(matrix, v2)
      requires Maps(matrix, v3)
      requires matrix.Some? ==> matrix.value.a !in linebsp.Repr && matrix.value.a !in facebsp.Repr
      modifies this`lineindices, this`faceindices, linebsp.Repr, facebsp.Repr
      ensures fillmode == old(fillmode)
      ensures Valid() && OpenFace() == [] && fresh(linebsp.Repr - old(linebsp.Repr))
      ensures fresh(facebsp.Repr - old(facebsp.Repr))
      ensures var t := old([Image(matrix, v0), Image(matrix, v1), Image(matrix, v2), Image(matrix, v3)]);
        && Faces() == old(Faces()) + (if old(fillmode) then [t] else [])
        && Lines() == old(Lines())
                      + if old(fillmode) then [] else [(t[0], t[1]), (t[1], t[2]), (t[2], t[3]), (t[3], t[0])]
    {
      hide *;
      if fillmode {
        var t0 := Transform(matrix, v0);
        var t1 := Transform(matrix, v1);
        var t2 := Transform(matrix, v2);
        var t3 := Transform(matrix, v3);
        FillQuad(t0, t1, t2, t3);
      } else {
        OutlineQuad(v0, v1, v2, v3, matrix);
      }
    }

    method OutlineQuad(v0: Vec3, v1: Vec3, v2: Vec3, v3: Vec3, matrix: Option<Linear.Matrix>)
      requires Valid() && Maps(matrix, v0) && Maps(matrix, v1) && Maps(matrix, v2) && Maps(matrix, v3)
      requires matrix.Some? ==> matrix.value.a !in linebsp.Repr
      modifies this`lineindices, linebsp.Repr
      ensures fillmode == old(fillmode)
      ensures Valid() && fresh(linebsp.Repr - old(linebsp.Repr)) && facebsp.Repr == old(facebsp.Repr)
      ensures Faces() == old(Faces()) && OpenFace() == old(OpenFace())
      ensures var t := old([Image(matrix, v0), Image(matrix, v1), Image(matrix, v2), Image(matrix, v3)]);
        Lines() == old(Lines()) + [(t[0], t[1]), (t[1], t[2]), (t[2], t[3]), (t[3], t[0])]
    {
      hide *;
      AddLine(v0, v1, matrix);
      AddLine(v1, v2, matrix);
      AddLine(v2, v3, matrix);
      AddLine(v3, v0, matrix);
    }
  }

  lemma PolygonsAppend(idx: seq<int>, i: int, pts: seq<Vec3>)
    requires Indices(idx, |pts|) && -1 <= i < |pts|
    ensures Indices(idx + [i], |pts|)
    ensures var (done, open) := Polygons(idx, pts);
      Polygons(idx + [i], pts) == if i == -1 then (done + [open], []) else (done, open + [pts[i]])
  {
    assert (idx + [i])[..|idx|] == idx;
  }
}
