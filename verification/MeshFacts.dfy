/** What the grids of module `Mesh` have to do with the vertices of the
    polyline: which indices occur, and how often. */
module MeshFacts {
  import opened Mesh

  function Corner(q: Quad, c: nat): int
    requires c < 4
  {
    if c == 0 then q.a else if c == 1 then q.b else if c == 2 then q.c else q.d
  }

  /** The row and column of the vertex that corner c of cell (i, j) is. */
  function RowOf(g: Grid, c: nat, i: int): int {
    if c >= 2 then g.Next(i, g.m) else i
  }

  function ColOf(g: Grid, c: nat, j: int): int {
    if c == 1 || c == 2 then g.Next(j, g.n) else j
  }

  lemma CornerVertex(g: Grid, k: nat, c: nat)
    requires k < g.Cells() && c < 4
    ensures var (i, j) := (k / g.EndN(), k % g.EndN());
      && 0 <= i < g.EndM() && 0 <= j < g.EndN() && k == i * g.EndN() + j
      && Corner(g.Quads()[k], c) == g.Vertex(RowOf(g, c, i), ColOf(g, c, j))
      && 0 <= RowOf(g, c, i) < g.m && 0 <= ColOf(g, c, j) < g.n
  {
    CellOf(g, k);
    CornerOfCell(g, k / g.EndN(), k % g.EndN(), c);
  }

  lemma CellOf(g: Grid, k: nat)
    requires k < g.Cells()
    ensures var (i, j) := (k / g.EndN(), k % g.EndN());
      0 <= i < g.EndM() && 0 <= j < g.EndN() && k == i * g.EndN() + j && g.Quads()[k] == g.Cell(i, j)
  {
    hide Grid.Cell;
    var i, j, e := k / g.EndN(), k % g.EndN(), g.EndN();
    assert k == e * i + j;
    if i >= g.EndM() {
      Smaller(g.EndM(), i, e);
    }
  }

  lemma CornerOfCell(g: Grid, i: int, j: int, c: nat)
    requires 0 <= i < g.EndM() && 0 <= j < g.EndN() && c < 4
    ensures Corner(g.Cell(i, j), c) == g.Vertex(RowOf(g, c, i), ColOf(g, c, j))
    ensures 0 <= RowOf(g, c, i) < g.m && 0 <= ColOf(g, c, j) < g.n
  {
    hide Grid.Vertex;
  }

  lemma VertexRange(g: Grid, x: int, y: int)
    requires 0 <= x < g.m && 0 <= y < g.n
    ensures g.first <= g.Vertex(x, y) < g.first + g.m * g.n
  {
    Smaller(0, x, g.n);
    Smaller(x + 1, g.m, g.n);
  }

  /** A grid names only its own vertices. */
  lemma GridWithin(g: Grid, n: int)
    requires 0 <= g.first && g.first + g.m * g.n <= n
    ensures AllWithin(g.Quads(), n)
  {
    forall q | q in g.Quads() ensures Within(q, n) {
      var k :| 0 <= k < |g.Quads()| && g.Quads()[k] == q;
      forall c: nat | c < 4 ensures 0 <= Corner(q, c) < n {
        CornerVertex(g, k, c);
        VertexRange(g, RowOf(g, c, k / g.EndN()), ColOf(g, c, k % g.EndN()));
      }
      assert Corner(q, 0) == q.a && Corner(q, 1) == q.b && Corner(q, 2) == q.c && Corner(q, 3) == q.d;
    }
  }

  /** A grid that has cells names its first and its last vertex. */
  lemma GridEnds(g: Grid, n: int)
    requires g.Emits() && AllWithin(g.Quads(), n)
    ensures 0 <= g.first && g.first + g.m * g.n <= n
  {
    CellWithin(g, 0, 0, n);
    CellWithin(g, g.EndM() - 1, g.EndN() - 1, n);
    var c := LastVertex(g);
  }

  lemma CellWithin(g: Grid, i: nat, j: nat, n: int)
    requires g.Emits() && AllWithin(g.Quads(), n) && i < g.EndM() && j < g.EndN()
    ensures Within(g.Cell(i, j), n)
  {
    hide *;
    CellIndex(g, i, j);
    QuadWithin(g.Quads(), g.Cell(i, j), n);
  }

  lemma LastVertex(g: Grid) returns (c: nat)
    requires g.Emits()
    ensures c < 4 && Corner(g.Cell(g.EndM() - 1, g.EndN() - 1), c) == g.first + g.m * g.n - 1
  {
    c := if g.closedM then (if g.closedN then 0 else 1) else if g.closedN then 3 else 2;
    assert g.Vertex(g.m - 1, g.n - 1) == g.first + g.m * g.n - 1 by {
      assert (g.m - 1) * g.n == g.m * g.n - g.n;
    }
    var q := g.Cell(g.EndM() - 1, g.EndN() - 1);
    assert Corner(q, c) == g.Vertex(g.m - 1, g.n - 1);
  }

  /** Every index the mesh code emits names a vertex, exactly when neither grid
      has to make up for a negative size of the other. */
  lemma IndicesInRange(mesh: Mesh)
    requires mesh.Dimensions().Some?
    ensures var (m, n, m2, n2) := mesh.Dimensions().value;
      AllWithin(mesh.Quads(), mesh.count)
      <==> (mesh.ControlGrid().Emits() ==> m2 * n2 >= 0) && (mesh.SmoothGrid().Emits() ==> m * n >= 0)
  {
    var (m, n, m2, n2) := mesh.Dimensions().value;
    var control, smooth := mesh.ControlGrid(), mesh.SmoothGrid();
    assert m * n + m2 * n2 == mesh.count;
    BothWithin(mesh);
    if control.Emits() {
      if m2 * n2 >= 0 {
        GridWithin(control, mesh.count);
      } else if AllWithin(control.Quads(), mesh.count) {
        GridEnds(control, mesh.count);
      }
    }
    if smooth.Emits() {
      if m * n >= 0 {
        GridWithin(smooth, mesh.count);
      } else if AllWithin(smooth.Quads(), mesh.count) {
        GridEnds(smooth, mesh.count);
      }
    }
  }

  lemma BothWithin(mesh: Mesh)
    requires mesh.Dimensions().Some?
    ensures AllWithin(mesh.Quads(), mesh.count)
      <==> AllWithin(mesh.ControlGrid().Quads(), mesh.count) && AllWithin(mesh.SmoothGrid().Quads(), mesh.count)
  {
    assert forall c :: c in mesh.Quads() <==> c in mesh.ControlGrid().Quads() || c in mesh.SmoothGrid().Quads();
  }

  /** Three rows and columns, a smoothed grid of -1 rows and one column, and eight
      vertices: the control grid starts at -1. */
  lemma NegativeSizeLeavesRange()
    ensures var mesh := Mesh(0x10, 3, 3, true, -1, 1, 8);
      mesh.Dimensions().Some? && !AllWithin(mesh.Quads(), mesh.count)
  {
    var mesh := Mesh(0x10, 3, 3, true, -1, 1, 8);
    assert mesh.Dimensions().value == (3, 3, -1, 1);
    IndicesInRange(mesh);
  }

  /** In particular for the counts the file format allows. */
  lemma SensibleMeshInRange(mesh: Mesh)
    requires mesh.Dimensions().Some? && mesh.countM >= 1 && mesh.countN >= 1 && mesh.smoothM >= 0 && mesh.smoothN >= 0
    ensures AllWithin(mesh.Quads(), mesh.count)
  {
    var (m, n, m2, n2) := mesh.Dimensions().value;
    assert m * n >= 0 by { Smaller(0, m, n); }
    assert m2 * n2 >= 0 by { Smaller(0, m2, n2); }
    IndicesInRange(mesh);
  }

  // ----- how often a vertex is used -----

  function CornerList(q: seq<Quad>, c: nat): (s: seq<int>)
    requires c < 4
    ensures |s| == |q| && forall k :: 0 <= k < |q| ==> s[k] == Corner(q[k], c)
  {
    seq(|q|, k requires 0 <= k < |q| => Corner(q[k], c))
  }

  /** How many times v occurs in s. */
  ghost function Uses(s: seq<int>, v: int): nat {
    if s == [] then 0 else Uses(s[..|s| - 1], v) + if s[|s| - 1] == v then 1 else 0
  }

  lemma {:induction false} UsesIsMultiplicity(s: seq<int>, v: int)
    ensures multiset(s)[v] == Uses(s, v)
  {
    if s != [] {
      UsesIsMultiplicity(s[..|s| - 1], v);
      assert s == s[..|s| - 1] + [s[|s| - 1]];
    }
  }

  lemma UsesStep(s: seq<int>, x: int, v: int)
    ensures Uses(s + [x], v) == Uses(s, v) + if x == v then 1 else 0
  {
    assert (s + [x])[..|s|] == s;
  }

  lemma {:induction false} UsesConcat(s: seq<int>, t: seq<int>, v: int)
    ensures Uses(s + t, v) == Uses(s, v) + Uses(t, v)
  {
    if t == [] {
      assert s + t == s;
    } else {
      var init, x := t[..|t| - 1], t[|t| - 1];
      UsesConcat(s, init, v);
      UsesStep(s + init, x, v);
      assert s + t == (s + init) + [x];
    }
  }

  lemma {:induction false} NotUsed(s: seq<int>, v: int)
    requires v !in s
    ensures Uses(s, v) == 0
  {
    if s != [] {
      NotUsed(s[..|s| - 1], v);
    }
  }

  function Hit(q: Quad, c: nat, v: int): nat
    requires c < 4
  {
    if Corner(q, c) == v then 1 else 0
  }

  lemma UsesOfQuad(s: seq<int>, q: Quad, v: int)
    requires v != -1
    ensures Uses(s + [q.a, q.b, q.c, q.d, -1], v)
         == Uses(s, v) + Hit(q, 0, v) + Hit(q, 1, v) + Hit(q, 2, v) + Hit(q, 3, v)
  {
    hide Uses;
    UsesStep(s, q.a, v);
    UsesStep(s + [q.a], q.b, v);
    UsesStep(s + [q.a] + [q.b], q.c, v);
    UsesStep(s + [q.a] + [q.b] + [q.c], q.d, v);
    UsesStep(s + [q.a] + [q.b] + [q.c] + [q.d], -1, v);
    assert s + [q.a, q.b, q.c, q.d, -1] == s + [q.a] + [q.b] + [q.c] + [q.d] + [-1];
  }

  lemma CornerListStep(q: seq<Quad>, l: Quad, c: nat, v: int)
    requires c < 4
    ensures Uses(CornerList(q + [l], c), v) == Uses(CornerList(q, c), v) + Hit(l, c, v)
  {
    assert CornerList(q + [l], c) == CornerList(q, c) + [Corner(l, c)];
    UsesStep(CornerList(q, c), Corner(l, c), v);
  }

  /** A vertex is used as often as it is some corner. */
  lemma {:induction false} UsesByCorner(q: seq<Quad>, v: int)
    requires v != -1
    ensures Uses(Flatten(q), v)
         == Uses(CornerList(q, 0), v) + Uses(CornerList(q, 1), v) + Uses(CornerList(q, 2), v)
            + Uses(CornerList(q, 3), v)
  {
    if q != [] {
      hide *;
      assert |q| > 0;
      var init, l := q[..|q| - 1], q[|q| - 1];
      UsesByCorner(init, v);
      FlattenStep(init, l);
      assert q == init + [l];
      UsesOfQuad(Flatten(init), l, v);
      CornerListStep(init, l, 0, v);
      CornerListStep(init, l, 1, v);
      CornerListStep(init, l, 2, v);
      CornerListStep(init, l, 3, v);
    }
  }

  lemma UsedOnce(s: seq<int>, k: nat, v: int)
    requires k < |s| && s[k] == v && forall h :: 0 <= h < |s| && s[h] == v ==> h == k
    ensures Uses(s, v) == 1
  {
    assert s == s[..k] + [v] + s[k + 1..];
    NotUsed(s[..k], v);
    NotUsed(s[k + 1..], v);
    UsesStep(s[..k], v, v);
    UsesConcat(s[..k] + [v], s[k + 1..], v);
  }

  lemma SameVertex(g: Grid, x: int, y: int, a: int, b: int)
    requires 0 <= y < g.n && 0 <= b < g.n && 0 <= x && 0 <= a && g.Vertex(x, y) == g.Vertex(a, b)
    ensures x == a && y == b
  {
    DivMod(x, y, g.n);
    DivMod(a, b, g.n);
  }

  function Previous(i: int, size: int): int {
    if i == 0 then size - 1 else i - 1
  }

  /** The row and column of the only cell that can have vertex (a, b) at corner
      c. */
  function CornerRow(g: Grid, c: nat, a: nat): int {
    if c >= 2 then Previous(a, g.m) else a
  }

  function CornerCol(g: Grid, c: nat, b: nat): int {
    if c == 1 || c == 2 then Previous(b, g.n) else b
  }

  predicate HasCorner(g: Grid, c: nat, a: nat, b: nat) {
    CornerRow(g, c, a) < g.EndM() && CornerCol(g, c, b) < g.EndN()
  }

  lemma CornerCell(g: Grid, c: nat, k: nat, a: nat, b: nat)
    requires k < g.Cells() && c < 4 && a < g.m && b < g.n
    requires Corner(g.Quads()[k], c) == g.Vertex(a, b)
    ensures HasCorner(g, c, a, b) && k == CornerRow(g, c, a) * g.EndN() + CornerCol(g, c, b)
  {
    CornerVertex(g, k, c);
    SameVertex(g, RowOf(g, c, k / g.EndN()), ColOf(g, c, k % g.EndN()), a, b);
  }

  lemma CellHasCorner(g: Grid, c: nat, a: nat, b: nat) returns (k: nat)
    requires c < 4 && a < g.m && b < g.n && HasCorner(g, c, a, b)
    ensures k < g.Cells() && Corner(g.Quads()[k], c) == g.Vertex(a, b)
  {
    var i, j := CornerRow(g, c, a), CornerCol(g, c, b);
    CellIndex(g, i, j);
    k := i * g.EndN() + j;
  }

  /** Each corner position meets a vertex once, if there is a cell there. */
  lemma CornerOnce(g: Grid, c: nat, a: nat, b: nat)
    requires c < 4 && a < g.m && b < g.n
    ensures Uses(CornerList(g.Quads(), c), g.Vertex(a, b)) == if HasCorner(g, c, a, b) then 1 else 0
  {
    var s, v := CornerList(g.Quads(), c), g.Vertex(a, b);
    if HasCorner(g, c, a, b) {
      var k := CellHasCorner(g, c, a, b);
      CornerCell(g, c, k, a, b);
      hide *;
      forall h | 0 <= h < |s| && s[h] == v ensures h == k {
        CornerCell(g, c, h, a, b);
      }
      UsedOnce(s, k, v);
    } else {
      hide *;
      forall h | 0 <= h < |s| ensures s[h] != v {
        if s[h] == v {
          CornerCell(g, c, h, a, b);
        }
      }
      NotUsed(s, v);
    }
  }

  lemma VertexAt(g: Grid, v: int) returns (a: nat, b: nat)
    requires g.n >= 1 && g.first <= v < g.first + g.m * g.n
    ensures a < g.m && b < g.n && v == g.Vertex(a, b)
  {
    var d := v - g.first;
    assert d == g.n * (d / g.n) + d % g.n;
    DivLess(d, g.m, g.n);
    a, b := d / g.n, d % g.n;
  }

  lemma DivLess(d: nat, m: int, n: nat)
    requires n >= 1 && d < m * n
    ensures d / n < m
  {
    if d / n >= m {
      Smaller(m, d / n, n);
    }
  }

  lemma NeverCorner(g: Grid, c: nat, v: int)
    requires c < 4 && !(g.first <= v < g.first + g.m * g.n)
    ensures Uses(CornerList(g.Quads(), c), v) == 0
  {
    var s := CornerList(g.Quads(), c);
    forall k | 0 <= k < |s| ensures s[k] != v {
      CornerVertex(g, k, c);
      VertexRange(g, RowOf(g, c, k / g.EndN()), ColOf(g, c, k % g.EndN()));
    }
    NotUsed(s, v);
  }

  /** The rows, or the columns, of cells around a line of vertices. */
  function Around(closed: bool, i: int, size: int): nat {
    if closed then 2 else (if i > 0 then 1 else 0) + (if i < size - 1 then 1 else 0)
  }

  function Count(b: bool): nat {
    if b then 1 else 0
  }

  lemma CornersAround(g: Grid, a: nat, b: nat)
    requires a < g.m && b < g.n
    ensures Around(g.closedM, a, g.m) * Around(g.closedN, b, g.n)
         == (if HasCorner(g, 0, a, b) then 1 else 0) + (if HasCorner(g, 1, a, b) then 1 else 0)
            + (if HasCorner(g, 2, a, b) then 1 else 0) + (if HasCorner(g, 3, a, b) then 1 else 0)
  {
    LinesAround(g.closedM, a, g.m);
    LinesAround(g.closedN, b, g.n);
    var r0, r1 := a < g.EndM(), Previous(a, g.m) < g.EndM();
    var c0, c1 := b < g.EndN(), Previous(b, g.n) < g.EndN();
    CountProduct(r0, r1, c0, c1);
    hide Around, Count;
    assert Around(g.closedM, a, g.m) == Count(r0) + Count(r1) && Around(g.closedN, b, g.n) == Count(c0) + Count(c1);
  }

  lemma LinesAround(closed: bool, i: nat, size: nat)
    requires i < size
    ensures var end := if closed then size else size - 1;
      Around(closed, i, size) == Count(i < end) + Count(Previous(i, size) < end)
  {
  }

  lemma CountProduct(r0: bool, r1: bool, c0: bool, c1: bool)
    ensures (Count(r0) + Count(r1)) * (Count(c0) + Count(c1))
         == (if r0 && c0 then 1 else 0) + (if r0 && c1 then 1 else 0) + (if r1 && c1 then 1 else 0)
            + (if r1 && c0 then 1 else 0)
  {
  }

  /** A vertex of a grid is a corner of each cell around it. */
  lemma GridUses(g: Grid, a: nat, b: nat)
    requires a < g.m && b < g.n && g.first >= 0
    ensures Uses(Flatten(g.Quads()), g.Vertex(a, b)) == Around(g.closedM, a, g.m) * Around(g.closedN, b, g.n)
  {
    VertexRange(g, a, b);
    CornersAround(g, a, b);
    hide *;
    UsesByCorner(g.Quads(), g.Vertex(a, b));
    CornerOnce(g, 0, a, b);
    CornerOnce(g, 1, a, b);
    CornerOnce(g, 2, a, b);
    CornerOnce(g, 3, a, b);
  }

  lemma OutsideGrid(g: Grid, v: int)
    requires v >= 0 && !(g.first <= v < g.first + g.m * g.n)
    ensures Uses(Flatten(g.Quads()), v) == 0
  {
    hide *;
    UsesByCorner(g.Quads(), v);
    NeverCorner(g, 0, v);
    NeverCorner(g, 1, v);
    NeverCorner(g, 2, v);
    NeverCorner(g, 3, v);
  }

  lemma BothGridsUse(mesh: Mesh, v: int)
    requires mesh.Dimensions().Some?
    ensures multiset(Flatten(mesh.Quads()))[v]
         == Uses(Flatten(mesh.ControlGrid().Quads()), v) + Uses(Flatten(mesh.SmoothGrid().Quads()), v)
  {
    UsesIsMultiplicity(Flatten(mesh.Quads()), v);
    FlattenConcat(mesh.ControlGrid().Quads(), mesh.SmoothGrid().Quads());
    UsesConcat(Flatten(mesh.ControlGrid().Quads()), Flatten(mesh.SmoothGrid().Quads()), v);
  }

  /** How often the vertices of a mesh are used, for all flags. The control grid
      stands behind the smoothed one. In each direction, closed or not by its own
      flag, there are two lines of cells around a vertex, but one around the first
      and the last of an open mesh; so 4, 2 and 1 uses inside, on the edges and in
      the corners of an open mesh. */
  lemma ControlUses(mesh: Mesh, a: nat, b: nat, v: int)
    requires mesh.Dimensions().Some? && mesh.smoothM >= 0 && mesh.smoothN >= 0
    requires var (m, n, m2, n2) := mesh.Dimensions().value; a < m && b < n && v == m2 * n2 + a * n + b
    ensures var (m, n, m2, n2) := mesh.Dimensions().value;
      multiset(Flatten(mesh.Quads()))[v] == Around(mesh.flags & 1 != 0, a, m) * Around(mesh.flags & 32 != 0, b, n)
  {
    hide *;
    GridsAre(mesh);
    var (m, n, m2, n2) := mesh.Dimensions().value;
    Smaller(0, m2, n2);
    Smaller(0, a, n);
    VertexIs(mesh.ControlGrid(), a, b);
    OneGridUses(mesh, mesh.ControlGrid(), mesh.SmoothGrid(), a, b);
  }

  /** The two grids of a mesh; each flag closes one direction of both. */
  lemma GridsAre(mesh: Mesh)
    requires mesh.Dimensions().Some?
    ensures var (m, n, m2, n2) := mesh.Dimensions().value;
      var (g, h) := (mesh.ControlGrid(), mesh.SmoothGrid());
      && g.m == m && g.n == n && g.first == m2 * n2 && h.m == m2 && h.n == n2 && h.first == 0
      && g.closedM == h.closedM == (mesh.flags & 1 != 0) && g.closedN == h.closedN == (mesh.flags & 32 != 0)
      && (mesh.smoothM >= 0 && mesh.smoothN >= 0 ==> m2 >= 0 && n2 >= 0)
      && (mesh.countM >= 1 && mesh.countN >= 1 ==> m >= 0 && n >= 0) && m * n + m2 * n2 == mesh.count
  {
  }

  lemma VertexIs(g: Grid, a: nat, b: nat)
    ensures g.Vertex(a, b) == g.first + a * g.n + b
  {
  }

  lemma OneGridUses(mesh: Mesh, g: Grid, other: Grid, a: nat, b: nat)
    requires mesh.Dimensions().Some?
    requires || (g == mesh.ControlGrid() && other == mesh.SmoothGrid())
             || (g == mesh.SmoothGrid() && other == mesh.ControlGrid())
    requires a < g.m && b < g.n && g.first >= 0
    requires var v := g.Vertex(a, b); v >= 0 && !(other.first <= v < other.first + other.m * other.n)
    ensures multiset(Flatten(mesh.Quads()))[g.Vertex(a, b)] == Around(g.closedM, a, g.m) * Around(g.closedN, b, g.n)
  {
    hide *;
    BothGridsUse(mesh, g.Vertex(a, b));
    GridUses(g, a, b);
    OutsideGrid(other, g.Vertex(a, b));
  }

  lemma SmoothUses(mesh: Mesh, a: nat, b: nat, v: int)
    requires mesh.Dimensions().Some?
    requires var (m, n, m2, n2) := mesh.Dimensions().value; a < m2 && b < n2 && v == a * n2 + b
    ensures var (m, n, m2, n2) := mesh.Dimensions().value;
      multiset(Flatten(mesh.Quads()))[v] == Around(mesh.flags & 1 != 0, a, m2) * Around(mesh.flags & 32 != 0, b, n2)
  {
    hide *;
    GridsAre(mesh);
    VertexIs(mesh.SmoothGrid(), a, b);
    VertexRange(mesh.SmoothGrid(), a, b);
    OneGridUses(mesh, mesh.SmoothGrid(), mesh.ControlGrid(), a, b);
  }

  lemma NotEmpty(m: nat, n: nat, d: nat)
    requires d < m * n
    ensures n >= 1
  {
  }

  lemma ClosedAround()
    ensures forall i, size :: Around(true, i, size) == 2
  {
  }

  /** A mesh closed both ways uses every vertex exactly four times. */
  lemma ClosedMeshUses(mesh: Mesh, v: int)
    requires mesh.Dimensions().Some? && mesh.flags & 1 != 0 && mesh.flags & 32 != 0
    requires mesh.countM >= 1 && mesh.countN >= 1 && mesh.smoothM >= 0 && mesh.smoothN >= 0
    requires 0 <= v < mesh.count
    ensures multiset(Flatten(mesh.Quads()))[v] == 4
  {
    hide *;
    GridsAre(mesh);
    var (m, n, m2, n2) := mesh.Dimensions().value;
    Smaller(0, m2, n2);
    if v < m2 * n2 {
      NotEmpty(m2, n2, v);
      var a, b := VertexAt(mesh.SmoothGrid(), v);
      VertexIs(mesh.SmoothGrid(), a, b);
      SmoothUses(mesh, a, b, v);
    } else {
      NotEmpty(m, n, v - m2 * n2);
      var a, b := VertexAt(mesh.ControlGrid(), v);
      VertexIs(mesh.ControlGrid(), a, b);
      ControlUses(mesh, a, b, v);
    }
    ClosedAround();
  }

  /** Four rows and three columns, closed in M only: one flag is not the other. */
  lemma ClosedInMOnly()
    ensures var mesh := Mesh(0x11, 4, 3, false, 0, 0, 12);
      && mesh.Dimensions() == Mesh(0x30, 4, 3, false, 0, 0, 12).Dimensions() && mesh.Dimensions().Some?
      && |mesh.Quads()| == 8 && |Mesh(0x30, 4, 3, false, 0, 0, 12).Quads()| == 9
  {
    var flags: bv16, flags': bv16 := 0x11, 0x30;
    assert flags & 1 != 0 && flags & 32 == 0 && flags' & 1 == 0 && flags' & 32 != 0;
  }

  // ----- the shape of a cell -----

  /** The corners of the cell in row i and column j, going around it: along the
      row, up the column, and back, past the end of a closed line to its start. */
  lemma CellCorners(g: Grid, i: nat, j: nat)
    requires g.Emits() && i < g.EndM() && j < g.EndN()
    ensures var q := g.Quads();
      && 0 <= i * g.EndN() + j < |q|
      && q[i * g.EndN() + j]
         == Quad(g.first + i * g.n + j, g.first + i * g.n + (j + 1) % g.n,
                 g.first + ((i + 1) % g.m) * g.n + (j + 1) % g.n, g.first + ((i + 1) % g.m) * g.n + j)
  {
    CellIndex(g, i, j);
    NextIsRemainder(g, i, g.m);
    NextIsRemainder(g, j, g.n);
  }

  lemma NextIsRemainder(g: Grid, i: nat, size: nat)
    requires i < size
    ensures g.Next(i, size) == (i + 1) % size
  {
  }
}
