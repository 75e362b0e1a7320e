/** Polygon meshes: the grid of quads that dimePolyline::extractGeometry and
    convert_mesh both make out of the vertices of a POLYLINE. */
module Mesh {
  import opened Wrappers
  import opened Affine
  import opened LayerData

  datatype Quad = Quad(a: int, b: int, c: int, d: int)

  /** A grid of m by n vertices that starts at vertex `first`. */
  datatype Grid = Grid(m: int, n: int, first: int, closedM: bool, closedN: bool) {

    /** Rows and columns of cells. */
    function EndM(): int {
      if closedM then m else m - 1
    }

    function EndN(): int {
      if closedN then n else n - 1
    }

    predicate Emits() {
      EndM() > 0 && EndN() > 0
    }

    function Cells(): nat {
      if Emits() then EndM() * EndN() else 0
    }

    function Next(i: int, size: int): int {
      if i + 1 == size then 0 else i + 1
    }

    function Vertex(i: int, j: int): int {
      first + i * n + j
    }

    function Cell(i: int, j: int): Quad {
      Quad(Vertex(i, j), Vertex(i, Next(j, n)), Vertex(Next(i, m), Next(j, n)), Vertex(Next(i, m), j))
    }

    /** All cells, row by row. */
    function Quads(): (q: seq<Quad>)
      ensures |q| == Cells()
    {
      seq(Cells(), k requires 0 <= k < Cells() => Cell(k / EndN(), k % EndN()))
    }
  }

  // ----- the dimensions -----

  /** The control grid and the smoothed grid. Their sizes must add up to the
      number of vertices, possibly after dropping one row or a whole grid. */
  datatype Mesh = Mesh(flags: bv16, countM: int, countN: int, surface: bool, smoothM: int, smoothN: int, count: int) {

    function Smooth(): (int, int) {
      if surface && smoothM != 0 && smoothN != 0 then (smoothM, smoothN) else (0, 0)
    }

    /** Rows and columns of the control grid and of the smoothed grid. */
    function Dimensions(): Option<(int, int, int, int)> {
      var (m, n) := (countM, countN);
      var (m2, n2) := Smooth();
      if m * n + m2 * n2 == count then Some((m, n, m2, n2))
      else if (m - 1) * n + m2 * n2 == count then Some((m - 1, n, m2, n2))
      else if m * n == count then Some((m, n, 0, 0))
      else if m2 * n2 == count then Some((0, 0, m2, n2))
      else None
    }

    function ControlGrid(): Grid
      requires Dimensions().Some?
    {
      var (m, n, m2, n2) := Dimensions().value;
      Grid(m, n, m2 * n2, flags & 1 != 0, flags & 32 != 0)
    }

    function SmoothGrid(): Grid
      requires Dimensions().Some?
    {
      var (m, n, m2, n2) := Dimensions().value;
      Grid(m2, n2, 0, flags & 1 != 0, flags & 32 != 0)
    }

    function Quads(): seq<Quad>
      requires Dimensions().Some?
    {
      ControlGrid().Quads() + SmoothGrid().Quads()
    }
  }

  /** The index list of extractGeometry: four corners and a -1 per quad. */
  function Flatten(q: seq<Quad>): (s: seq<int>)
    ensures |s| == 5 * |q|
  {
    if q == [] then []
    else Flatten(q[..|q| - 1]) + [q[|q| - 1].a, q[|q| - 1].b, q[|q| - 1].c, q[|q| - 1].d, -1]
  }

  // ----- the loops -----

  lemma DivMod(i: nat, j: nat, n: nat)
    requires j < n
    ensures (i * n + j) / n == i && (i * n + j) % n == j
  {
    var k := i * n + j;
    assert k == n * (k / n) + k % n;
    if k / n < i {
      Smaller(k / n + 1, i, n);
    } else if k / n > i {
      Smaller(i + 1, k / n, n);
    }
  }

  lemma Smaller(x: int, y: int, n: nat)
    requires x <= y
    ensures x * n <= y * n
  {
  }

  lemma CellIndex(g: Grid, i: nat, j: nat)
    requires g.Emits() && i < g.EndM() && j < g.EndN()
    ensures 0 <= i * g.EndN() + j < g.Cells()
    ensures g.Quads()[i * g.EndN() + j] == g.Cell(i, j)
  {
    DivMod(i, j, g.EndN());
    Smaller(i + 1, g.EndM(), g.EndN());
  }

  lemma FlattenNothing()
    ensures Flatten([]) == []
  {
  }

  lemma FlattenStep(q: seq<Quad>, c: Quad)
    ensures Flatten(q + [c]) == Flatten(q) + [c.a, c.b, c.c, c.d, -1]
  {
    assert (q + [c])[..|q|] == q;
  }

  /** The quads made when the loops have done i rows and j more cells. */
  ghost function Prefix(g: Grid, i: int, j: int): seq<Quad> {
    if !g.Emits() || !(0 <= i * g.EndN() + j <= g.Cells()) then []
    else g.Quads()[..i * g.EndN() + j]
  }

  lemma PrefixStep(g: Grid, i: nat, j: nat)
    requires i < g.EndM() && j < g.EndN()
    ensures Prefix(g, i, j + 1) == Prefix(g, i, j) + [g.Cell(i, j)]
    ensures g.Cell(i, j) in g.Quads()
  {
    CellIndex(g, i, j);
    var k := i * g.EndN() + j;
    assert g.Quads()[..k + 1] == g.Quads()[..k] + [g.Quads()[k]];
  }

  lemma PrefixRow(g: Grid, i: nat)
    requires i < g.EndM()
    ensures Prefix(g, i + 1, 0) == Prefix(g, i, if g.EndN() > 0 then g.EndN() else 0)
  {
    assert (i + 1) * g.EndN() + 0 == i * g.EndN() + g.EndN();
  }

  lemma PrefixEnds(g: Grid)
    ensures Prefix(g, 0, 0) == []
    ensures Prefix(g, if g.EndM() > 0 then g.EndM() else 0, 0) == g.Quads()
  {
    assert g.Quads()[..|g.Quads()|] == g.Quads();
  }

  class Extractor {
    var indices: seq<int>

    constructor ()
      ensures indices == []
    {
      indices := [];
    }

    /** One of the two nested loops of extractGeometry. */
    method AppendGrid(g: Grid)
      modifies this
      ensures indices == old(indices) + Flatten(g.Quads())
    {
      hide *;
      PrefixEnds(g);
      FlattenNothing();
      var i := 0;
      while i < g.EndM()
        invariant 0 <= i && (i <= g.EndM() || i == 0)
        invariant indices == old(indices) + Flatten(Prefix(g, i, 0))
      {
        AppendRow(g, i, old(indices));
        PrefixRow(g, i);
        i := i + 1;
      }
    }

    method AppendRow(g: Grid, i: nat, ghost before: seq<int>)
      requires i < g.EndM() && indices == before + Flatten(Prefix(g, i, 0))
      modifies this
      ensures indices == before + Flatten(Prefix(g, i, if g.EndN() > 0 then g.EndN() else 0))
    {
      hide *;
      var nexti := g.Next(i, g.m);
      var j := 0;
      while j < g.EndN()
        invariant 0 <= j && (j <= g.EndN() || j == 0)
        invariant indices == before + Flatten(Prefix(g, i, j))
      {
        var nextj := g.Next(j, g.n);
        PrefixStep(g, i, j);
        FlattenStep(Prefix(g, i, j), g.Cell(i, j));
        AppendCell(g, i, j, nexti, nextj);
        j := j + 1;
      }
    }

    method AppendCell(g: Grid, i: int, j: int, nexti: int, nextj: int)
      requires nexti == g.Next(i, g.m) && nextj == g.Next(j, g.n)
      modifies this
      ensures var q := g.Cell(i, j); indices == old(indices) + [q.a, q.b, q.c, q.d, -1]
    {
      var idx := i * g.n + j;
      indices := indices + [g.first + idx];
      idx := i * g.n + nextj;
      indices := indices + [g.first + idx];
      idx := nexti * g.n + nextj;
      indices := indices + [g.first + idx];
      idx := nexti * g.n + j;
      indices := indices + [g.first + idx];
      indices := indices + [-1];
    }

    /** The polygon mesh part of extractGeometry. */
    method Extract(mesh: Mesh) returns (ok: bool)
      requires indices == []
      modifies this
      ensures ok <==> mesh.Dimensions().Some?
      ensures indices == if ok then Flatten(mesh.Quads()) else []
    {
      var dims := FindDimensions(mesh);
      if dims.None? {
        return false;
      }
      AppendGrid(mesh.ControlGrid());
      AppendGrid(mesh.SmoothGrid());
      FlattenConcat(mesh.ControlGrid().Quads(), mesh.SmoothGrid().Quads());
      return true;
    }
  }

  /** The sizes add up to the number of vertices whenever they can: with both
      grids as announced if that fits, else with one row less of the control
      grid, or with one grid only. */
  lemma DimensionsAddUp(mesh: Mesh)
    ensures var (m, n) := (mesh.countM, mesh.countN);
      var (m2, n2) := if mesh.surface && mesh.smoothM != 0 && mesh.smoothN != 0 then (mesh.smoothM, mesh.smoothN)
                      else (0, 0);
      && (mesh.Dimensions().None? <==>
            mesh.count !in {m * n + m2 * n2, (m - 1) * n + m2 * n2, m * n, m2 * n2})
      && (m * n + m2 * n2 == mesh.count ==> mesh.Dimensions() == Some((m, n, m2, n2)))
      && (m * n + m2 * n2 != mesh.count && (m - 1) * n + m2 * n2 == mesh.count ==>
            mesh.Dimensions() == Some((m - 1, n, m2, n2)))
      && (mesh.count !in {m * n + m2 * n2, (m - 1) * n + m2 * n2} && m * n == mesh.count ==>
            mesh.Dimensions() == Some((m, n, 0, 0)))
      && (mesh.Dimensions().Some? ==>
            var (x, y, x2, y2) := mesh.Dimensions().value;
            && x * y + x2 * y2 == mesh.count
            && ((x == m && y == n) || (x == m - 1 && y == n) || x == 0 == y)
            && ((x2 == m2 && y2 == n2) || x2 == 0 == y2))
  {
  }

  method FindDimensions(mesh: Mesh) returns (dims: Option<(int, int, int, int)>)
    ensures dims == mesh.Dimensions()
  {
    var m, n := mesh.countM, mesh.countN;
    var m2, n2 := 0, 0;
    if mesh.surface && mesh.smoothM != 0 && mesh.smoothN != 0 {
      m2, n2 := mesh.smoothM, mesh.smoothN;
    }
    if m * n + m2 * n2 != mesh.count {
      if (m - 1) * n + m2 * n2 == mesh.count {
        m := m - 1;
      } else if m * n == mesh.count {
        m2, n2 := 0, 0;
      } else if m2 * n2 == mesh.count {
        m, n := 0, 0;
      } else {
        return None;
      }
    }
    return Some((m, n, m2, n2));
  }

  lemma {:induction false} FlattenConcat(p: seq<Quad>, q: seq<Quad>)
    ensures Flatten(p + q) == Flatten(p) + Flatten(q)
  {
    if q == [] {
      assert p + q == p;
    } else {
      assert (p + q)[..|p + q| - 1] == p + q[..|q| - 1];
      FlattenConcat(p, q[..|q| - 1]);
    }
  }

  // ----- the second implementation -----

  /** The corners of the quads, looked up in a list of points. */
  ghost function FaceList(q: seq<Quad>, pts: seq<Vec3>): seq<seq<Vec3>>
    requires forall c :: c in q ==> Within(c, |pts|)
  {
    if q == [] then []
    else FaceList(q[..|q| - 1], pts) + [Corners(q[|q| - 1], pts)]
  }

  ghost function OutlineList(q: seq<Quad>, pts: seq<Vec3>): seq<Segment>
    requires forall c :: c in q ==> Within(c, |pts|)
  {
    if q == [] then []
    else
      var t := Corners(q[|q| - 1], pts);
      OutlineList(q[..|q| - 1], pts) + [(t[0], t[1]), (t[1], t[2]), (t[2], t[3]), (t[3], t[0])]
  }

  predicate Within(c: Quad, n: int) {
    0 <= c.a < n && 0 <= c.b < n && 0 <= c.c < n && 0 <= c.d < n
  }

  ghost function Corners(c: Quad, pts: seq<Vec3>): (t: seq<Vec3>)
    requires Within(c, |pts|)
    ensures |t| == 4
  {
    [pts[c.a], pts[c.b], pts[c.c], pts[c.d]]
  }

  ghost predicate AllWithin(q: seq<Quad>, n: int) {
    forall c :: c in q ==> Within(c, n)
  }

  lemma ListsStep(q: seq<Quad>, c: Quad, pts: seq<Vec3>)
    requires AllWithin(q, |pts|) && Within(c, |pts|)
    ensures AllWithin(q + [c], |pts|)
    ensures FaceList(q + [c], pts) == FaceList(q, pts) + [Corners(c, pts)]
    ensures var t := Corners(c, pts);
      OutlineList(q + [c], pts) == OutlineList(q, pts) + [(t[0], t[1]), (t[1], t[2]), (t[2], t[3]), (t[3], t[0])]
  {
    assert (q + [c])[..|q|] == q;
  }

  lemma {:induction false} ListsConcat(p: seq<Quad>, q: seq<Quad>, pts: seq<Vec3>)
    requires AllWithin(p, |pts|) && AllWithin(q, |pts|)
    ensures AllWithin(p + q, |pts|)
    ensures FaceList(p + q, pts) == FaceList(p, pts) + FaceList(q, pts)
    ensures OutlineList(p + q, pts) == OutlineList(p, pts) + OutlineList(q, pts)
  {
    hide FaceList, OutlineList;
    if q == [] {
      ListsNothing(pts);
      assert p + q == p;
    } else {
      var init, c := q[..|q| - 1], q[|q| - 1];
      ListsConcat(p, init, pts);
      ListsStep(p + init, c, pts);
      ListsStep(init, c, pts);
      assert p + q == (p + init) + [c] && q == init + [c];
    }
  }

  lemma ListsNothing(pts: seq<Vec3>)
    ensures FaceList([], pts) == [] && OutlineList([], pts) == []
  {
  }

  /** Reading the index list of extractGeometry at its -1 separators gives the
      faces that convert_mesh adds one by one. */
  lemma {:induction false} SameFaces(q: seq<Quad>, pts: seq<Vec3>)
    requires AllWithin(q, |pts|)
    ensures Indices(Flatten(q), |pts|) && Polygons(Flatten(q), pts) == (FaceList(q, pts), [])
  {
    if q != [] {
      var init, c := q[..|q| - 1], q[|q| - 1];
      assert c in q && Within(c, |pts|);
      SameFaces(init, pts);
      var f := Flatten(init);
      PolygonsAppend(f, c.a, pts);
      PolygonsAppend(f + [c.a], c.b, pts);
      PolygonsAppend(f + [c.a] + [c.b], c.c, pts);
      PolygonsAppend(f + [c.a] + [c.b] + [c.c], c.d, pts);
      PolygonsAppend(f + [c.a] + [c.b] + [c.c] + [c.d], -1, pts);
      assert Flatten(q) == f + [c.a] + [c.b] + [c.c] + [c.d] + [-1];
      assert [] + [pts[c.a]] + [pts[c.b]] + [pts[c.c]] + [pts[c.d]] == Corners(c, pts);
    }
  }

  ghost function Images(m: Linear.Matrix, coords: seq<Vec3>): (t: seq<Vec3>)
    requires forall k :: 0 <= k < |coords| ==> Maps(Some(m), coords[k])
    reads m.a
    ensures |t| == |coords| && forall k :: 0 <= k < |t| ==> t[k] == Image(Some(m), coords[k])
  {
    seq(|coords|, k requires 0 <= k < |coords| && Maps(Some(m), coords[k]) reads m.a => Image(Some(m), coords[k]))
  }

  /** What a layer holds after the quads q have been added to it. */
  ghost predicate Holds(fill: bool, lines0: seq<Segment>, faces0: seq<seq<Vec3>>, q: seq<Quad>, pts: seq<Vec3>,
                        lines: seq<Segment>, faces: seq<seq<Vec3>>)
  {
    && AllWithin(q, |pts|)
    && if fill then lines == lines0 && faces == faces0 + FaceList(q, pts)
       else faces == faces0 && lines == lines0 + OutlineList(q, pts)
  }

  lemma HoldsStep(fill: bool, lines0: seq<Segment>, faces0: seq<seq<Vec3>>, q: seq<Quad>, c: Quad, pts: seq<Vec3>,
                  lines: seq<Segment>, faces: seq<seq<Vec3>>, lines': seq<Segment>, faces': seq<seq<Vec3>>)
    requires Holds(fill, lines0, faces0, q, pts, lines, faces) && Within(c, |pts|)
    requires var t := Corners(c, pts);
      if fill then lines' == lines && faces' == faces + [t]
      else faces' == faces && lines' == lines + [(t[0], t[1]), (t[1], t[2]), (t[2], t[3]), (t[3], t[0])]
    ensures Holds(fill, lines0, faces0, q + [c], pts, lines', faces')
  {
    ListsStep(q, c, pts);
  }

  lemma HoldsConcat(fill: bool, lines0: seq<Segment>, faces0: seq<seq<Vec3>>, p: seq<Quad>, q: seq<Quad>,
                    pts: seq<Vec3>, lines: seq<Segment>, faces: seq<seq<Vec3>>,
                    lines': seq<Segment>, faces': seq<seq<Vec3>>)
    requires Holds(fill, lines0, faces0, p, pts, lines, faces) && Holds(fill, lines, faces, q, pts, lines', faces')
    ensures Holds(fill, lines0, faces0, p + q, pts, lines', faces')
  {
    ListsConcat(p, q, pts);
  }

  class Converter {
    const layer: Layer
    const matrix: Linear.Matrix
    const coords: seq<Vec3>

    ghost predicate Valid()
      reads matrix.a, layer, layer.linebsp, layer.facebsp, layer.linebsp.Repr, layer.facebsp.Repr
    {
      && layer.Valid() && layer.OpenFace() == []
      && matrix.a !in layer.linebsp.Repr && matrix.a !in layer.facebsp.Repr
      && forall k :: 0 <= k < |coords| ==> Maps(Some(matrix), coords[k])
    }

    /** The transformed vertices. */
    ghost function Points(): (t: seq<Vec3>)
      requires Valid()
      reads matrix.a, layer, layer.linebsp, layer.facebsp, layer.linebsp.Repr, layer.facebsp.Repr
      ensures |t| == |coords|
    {
      Images(matrix, coords)
    }

    ghost function Lines(): seq<Segment>
      requires Valid()
      reads matrix.a, layer, layer.linebsp, layer.facebsp, layer.linebsp.Repr, layer.facebsp.Repr
    {
      layer.Lines()
    }

    ghost function Faces(): seq<seq<Vec3>>
      requires Valid()
      reads matrix.a, layer, layer.linebsp, layer.facebsp, layer.linebsp.Repr, layer.facebsp.Repr
    {
      layer.Faces()
    }

    /** The quads q have been added to a layer that held these lines and faces. */
    ghost predicate Drawn(lines0: seq<Segment>, faces0: seq<seq<Vec3>>, q: seq<Quad>)
      requires Valid()
      reads matrix.a, layer, layer.linebsp, layer.facebsp, layer.linebsp.Repr, layer.facebsp.Repr
    {
      Holds(layer.fillmode, lines0, faces0, q, Points(), Lines(), Faces())
    }

    constructor (l: Layer, m: Linear.Matrix, c: seq<Vec3>)
      ensures layer == l && matrix == m && coords == c
    {
      layer, matrix, coords := l, m, c;
    }

    /** One addQuad call of convert_mesh. */
    method AddCell(c: Quad, ghost q: seq<Quad>, ghost lines0: seq<Segment>, ghost faces0: seq<seq<Vec3>>)
      requires Valid() && Within(c, |coords|)
      requires Drawn(lines0, faces0, q)
      modifies layer`lineindices, layer`faceindices, layer.linebsp.Repr, layer.facebsp.Repr
      ensures Valid() && layer.fillmode == old(layer.fillmode)
      ensures fresh(layer.linebsp.Repr - old(layer.linebsp.Repr)) && fresh(layer.facebsp.Repr - old(layer.facebsp.Repr))
      ensures Points() == old(Points())
      ensures Drawn(lines0, faces0, q + [c])
    {
      hide Holds, Layer.Valid, Image, Maps;
      ghost var lines, faces := Lines(), Faces();
      layer.AddQuad(coords[c.a], coords[c.b], coords[c.c], coords[c.d], Some(matrix));
      HoldsStep(layer.fillmode, lines0, faces0, q, c, Points(), lines, faces, Lines(), Faces());
    }

    lemma DrawnNothing()
      requires Valid()
      ensures Drawn(Lines(), Faces(), [])
    {
    }

    method ConvertRow(g: Grid, i: nat, ghost lines0: seq<Segment>, ghost faces0: seq<seq<Vec3>>)
      requires Valid() && i < g.EndM() && AllWithin(g.Quads(), |coords|)
      requires Drawn(lines0, faces0, Prefix(g, i, 0))
      modifies layer`lineindices, layer`faceindices, layer.linebsp.Repr, layer.facebsp.Repr
      ensures Valid() && layer.fillmode == old(layer.fillmode)
      ensures fresh(layer.linebsp.Repr - old(layer.linebsp.Repr)) && fresh(layer.facebsp.Repr - old(layer.facebsp.Repr))
      ensures Points() == old(Points())
      ensures Drawn(lines0, faces0, Prefix(g, i, if g.EndN() > 0 then g.EndN() else 0))
    {
      hide *;
      var nexti := g.Next(i, g.m);
      var j := 0;
      while j < g.EndN()
        invariant 0 <= j && (j <= g.EndN() || j == 0)
        invariant Valid() && layer.fillmode == old(layer.fillmode)
        invariant fresh(layer.linebsp.Repr - old(layer.linebsp.Repr))
        invariant fresh(layer.facebsp.Repr - old(layer.facebsp.Repr))
        invariant Points() == old(Points())
        invariant Drawn(lines0, faces0, Prefix(g, i, j))
      {
        var nextj := g.Next(j, g.n);
        PrefixStep(g, i, j);
        QuadWithin(g.Quads(), g.Cell(i, j), |coords|);
        AddCell(g.Cell(i, j), Prefix(g, i, j), lines0, faces0);
        j := j + 1;
      }
    }

    /** One of the two nested loops of convert_mesh. */
    method ConvertGrid(g: Grid)
      requires Valid() && AllWithin(g.Quads(), |coords|)
      modifies layer`lineindices, layer`faceindices, layer.linebsp.Repr, layer.facebsp.Repr
      ensures Valid() && layer.fillmode == old(layer.fillmode)
      ensures fresh(layer.linebsp.Repr - old(layer.linebsp.Repr)) && fresh(layer.facebsp.Repr - old(layer.facebsp.Repr))
      ensures Points() == old(Points())
      ensures Drawn(old(Lines()), old(Faces()), g.Quads())
    {
      hide *;
      ghost var lines0, faces0 := Lines(), Faces();
      PrefixEnds(g);
      DrawnNothing();
      var i := 0;
      while i < g.EndM()
        invariant 0 <= i && (i <= g.EndM() || i == 0)
        invariant Valid() && layer.fillmode == old(layer.fillmode)
        invariant fresh(layer.linebsp.Repr - old(layer.linebsp.Repr))
        invariant fresh(layer.facebsp.Repr - old(layer.facebsp.Repr))
        invariant Points() == old(Points())
        invariant Drawn(lines0, faces0, Prefix(g, i, 0))
      {
        ConvertRow(g, i, lines0, faces0);
        PrefixRow(g, i);
        i := i + 1;
      }
    }

    /** convert_mesh: nothing for a mesh whose dimensions do not add up. */
    method Convert(mesh: Mesh)
      requires Valid() && mesh.count == |coords|
      requires mesh.Dimensions().Some? ==> AllWithin(mesh.Quads(), |coords|)
      modifies layer`lineindices, layer`faceindices, layer.linebsp.Repr, layer.facebsp.Repr
      ensures Valid() && Points() == old(Points()) && layer.fillmode == old(layer.fillmode)
      ensures Drawn(old(Lines()), old(Faces()), if mesh.Dimensions().Some? then mesh.Quads() else [])
    {
      hide Holds, Layer.Valid, Valid, Image, Maps, Images, Lines, Faces, Points;
      DrawnNothing();
      var dims := FindDimensions(mesh);
      if dims.None? {
        return;
      }
      var control, smooth := mesh.ControlGrid(), mesh.SmoothGrid();
      assert forall c :: c in control.Quads() || c in smooth.Quads() ==> c in mesh.Quads();
      ConvertGrid(control);
      ghost var lines1, faces1 := Lines(), Faces();
      ConvertGrid(smooth);
      DrawnConcat(old(Lines()), old(Faces()), control.Quads(), lines1, faces1, smooth.Quads());
    }

    lemma DrawnConcat(lines0: seq<Segment>, faces0: seq<seq<Vec3>>, p: seq<Quad>,
                      lines1: seq<Segment>, faces1: seq<seq<Vec3>>, q: seq<Quad>)
      requires Valid() && Holds(layer.fillmode, lines0, faces0, p, Points(), lines1, faces1) && Drawn(lines1, faces1, q)
      ensures Drawn(lines0, faces0, p + q)
    {
      HoldsConcat(layer.fillmode, lines0, faces0, p, q, Points(), lines1, faces1, Lines(), Faces());
    }
  }

  lemma QuadWithin(q: seq<Quad>, c: Quad, n: int)
    requires AllWithin(q, n) && c in q
    ensures Within(c, n)
  {
  }
}
