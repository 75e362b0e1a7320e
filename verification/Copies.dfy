/** Which copies an exploded INSERT shows, and where they are, in the fields of
    the INSERT. */
module Copies {
  import opened Wrappers
  import opened LinearAlgebra
  import opened Affine
  import opened Placement
  import opened Insert
  import opened Traversal

  // ----- nesting -----

  /** The same item, with a path in front of its own. */
  predicate Beneath(a: Item, b: Item, path: seq<Frame>) {
    a.id == b.id && a.insert == b.insert && a.refused == b.refused && a.path == path + b.path
  }

  predicate Under(a: seq<Item>, b: seq<Item>, path: seq<Frame>) {
    |a| == |b| && forall i :: 0 <= i < |a| ==> Beneath(a[i], b[i], path)
  }

  lemma UnderBoth(a: seq<Item>, b: seq<Item>, a': seq<Item>, b': seq<Item>, path: seq<Frame>)
    requires Under(a, b, path) && Under(a', b', path)
    ensures Under(a + a', b + b', path)
  {
  }

  /** The parts of an INSERT: what its block shows, or the INSERT itself, and
      its attributes. */
  lemma PartsUnder(s: Scene, e: Entity, r: nat, p: seq<Frame>, q: seq<Frame>, ins: Option<nat>)
    requires s.Valid() && s.Below(e, r) && e.Insert?
    requires e.block.Some? && s.explode ==>
      var n := if e.rows < 0 then 0 else e.rows; Under(s.FlatRows(e, r, p + q, n), s.FlatRows(e, r, q, n), p)
    requires var f := s.SubFrame(e);
      Under(s.FlatList(e.subs, r, p + (q + [f]), Some(e.id)), s.FlatList(e.subs, r, q + [f], Some(e.id)), p)
    ensures Under(s.FlatEntity(e, r, p + q, ins), s.FlatEntity(e, r, q, ins), p)
  {
    var f := s.SubFrame(e);
    assert p + (q + [f]) == p + q + [f];
    var own, own' := s.FlatList(e.subs, r, p + q + [f], Some(e.id)), s.FlatList(e.subs, r, q + [f], Some(e.id));
    var body, body' := InsertBody(s, e, r, p + q, ins), InsertBody(s, e, r, q, ins);
    UnderBoth(body, body', own, own', p);
    assert s.FlatEntity(e, r, p + q, ins) == body + own;
    assert s.FlatEntity(e, r, q, ins) == body' + own';
  }

  lemma {:induction false} EntityUnder(s: Scene, e: Entity, r: nat, p: seq<Frame>, q: seq<Frame>, ins: Option<nat>)
    requires s.Valid() && s.Below(e, r)
    ensures Under(s.FlatEntity(e, r, p + q, ins), s.FlatEntity(e, r, q, ins), p)
    decreases r, 0, e, 3, 0
  {
    match e
    case Simple(_, _) =>
    case Polyline(id, deleted, vs) =>
      if !deleted && s.vertices {
        ListUnder(s, vs, r, p, q, ins);
        UnderBoth([Item(id, p + q, ins, Ignore)], [Item(id, q, ins, Ignore)],
                  s.FlatList(vs, r, p + q, ins), s.FlatList(vs, r, q, ins), p);
      }
    case Insert(id, _, block, _, rows, _, _, _, subs) =>
      ListUnder(s, subs, r, p, q + [s.SubFrame(e)], Some(id));
      if block.Some? && s.explode {
        RowsUnder(s, e, r, p, q, if rows < 0 then 0 else rows);
      }
      hide Scene.FlatEntity, Scene.FlatRows, Scene.FlatList, Scene.SubFrame, Under;
      PartsUnder(s, e, r, p, q, ins);
  }

  lemma {:induction false} RowsUnder(s: Scene, e: Entity, r: nat, p: seq<Frame>, q: seq<Frame>, i: nat)
    requires s.Valid() && s.Exploded(e, r)
    ensures Under(s.FlatRows(e, r, p + q, i), s.FlatRows(e, r, q, i), p)
    decreases r, 0, e, 2, i
  {
    if i > 0 {
      RowsUnder(s, e, r, p, q, i - 1);
      CellsUnder(s, e, r, p, q, i - 1, Columns(e));
      UnderBoth(s.FlatRows(e, r, p + q, i - 1), s.FlatRows(e, r, q, i - 1),
                s.FlatCells(e, r, p + q, i - 1, Columns(e)), s.FlatCells(e, r, q, i - 1, Columns(e)), p);
    }
  }

  function Columns(e: Entity): nat
    requires e.Insert?
  {
    if e.cols < 0 then 0 else e.cols
  }

  lemma {:induction false} CellsUnder(s: Scene, e: Entity, r: nat, p: seq<Frame>, q: seq<Frame>, i: nat, j: nat)
    requires s.Valid() && s.Exploded(e, r)
    ensures Under(s.FlatCells(e, r, p + q, i, j), s.FlatCells(e, r, q, i, j), p)
    decreases r, 0, e, 1, j
  {
    if j > 0 {
      var f := s.CellFrame(e, i, j - 1);
      assert p + (q + [f]) == p + q + [f];
      CellsUnder(s, e, r, p, q, i, j - 1);
      BlockUnder(s, e.block.value, p, q + [f], Some(e.id));
      UnderBoth(s.FlatCells(e, r, p + q, i, j - 1), s.FlatCells(e, r, q, i, j - 1),
                s.FlatBlock(e.block.value, p + q + [f], Some(e.id)),
                s.FlatBlock(e.block.value, q + [f], Some(e.id)), p);
    }
  }

  lemma {:induction false} BlockUnder(s: Scene, b: nat, p: seq<Frame>, q: seq<Frame>, ins: Option<nat>)
    requires s.Valid() && b in s.blocks && b in s.rank
    ensures Under(s.FlatBlock(b, p + q, ins), s.FlatBlock(b, q, ins), p)
    decreases s.rank[b], 1
  {
    var block := s.blocks[b];
    ListUnder(s, block.entities, s.rank[b], p, q, ins);
    var body, body' := s.FlatList(block.entities, s.rank[b], p + q, ins), s.FlatList(block.entities, s.rank[b], q, ins);
    var head, head' := [Item(block.id, p + q, ins, Skip(|body|))], [Item(block.id, q, ins, Skip(|body'|))];
    UnderBoth(head, head', body, body', p);
    if block.endblock.Some? {
      UnderBoth(head + body, head' + body', [Item(block.endblock.value, p + q, ins, Abort)],
                [Item(block.endblock.value, q, ins, Abort)], p);
    }
  }

  lemma {:induction false} ListUnder(s: Scene, es: seq<Entity>, r: nat, p: seq<Frame>, q: seq<Frame>, ins: Option<nat>)
    requires s.Valid() && s.Fits(es, r)
    ensures Under(s.FlatList(es, r, p + q, ins), s.FlatList(es, r, q, ins), p)
    decreases r, 0, es
  {
    if es != [] {
      var init, last := es[..|es| - 1], es[|es| - 1];
      ListUnder(s, init, r, p, q, ins);
      EntityUnder(s, last, r, p, q, ins);
      UnderBoth(s.FlatList(init, r, p + q, ins), s.FlatList(init, r, q, ins),
                s.FlatEntity(last, r, p + q, ins), s.FlatEntity(last, r, q, ins), p);
    }
  }

  // ----- where an item of a copy stands -----

  /** One copy of the block, seen from inside. */
  ghost function Copy(s: Scene, e: Entity, r: nat): seq<Item>
    requires s.Valid() && s.Exploded(e, r)
  {
    s.FlatBlock(e.block.value, [], Some(e.id))
  }

  lemma BlockLength(s: Scene, e: Entity, r: nat, path: seq<Frame>)
    requires s.Valid() && s.Exploded(e, r)
    ensures Under(s.FlatBlock(e.block.value, path, Some(e.id)), Copy(s, e, r), path)
  {
    assert path + [] == path;
    BlockUnder(s, e.block.value, path, [], Some(e.id));
  }

  /** x whole stretches of length n and t more, out of y stretches. */
  lemma IndexWithin(x: nat, y: nat, n: nat, t: nat)
    requires x < y && t < n
    ensures x * n + t < y * n
  {
    if x + 1 < y {
      IndexWithin(x, y - 1, n, t);
    }
    assert y * n == (y - 1) * n + n;
  }

  lemma {:induction false} CellAt(s: Scene, e: Entity, r: nat, path: seq<Frame>, i: nat, m: nat, j: nat, t: nat)
    requires s.Valid() && s.Exploded(e, r) && j < m && t < |Copy(s, e, r)|
    ensures var n := |Copy(s, e, r)|; var cells := s.FlatCells(e, r, path, i, m);
      && |cells| == m * n && j * n + t < m * n
      && |s.FlatBlock(e.block.value, path + [s.CellFrame(e, i, j)], Some(e.id))| == n
      && cells[j * n + t] == s.FlatBlock(e.block.value, path + [s.CellFrame(e, i, j)], Some(e.id))[t]
    decreases m
  {
    var n := |Copy(s, e, r)|;
    var front := s.FlatCells(e, r, path, i, m - 1);
    CellsLength(s, e, r, path, i, m - 1);
    CellsLength(s, e, r, path, i, m);
    BlockLength(s, e, r, path + [s.CellFrame(e, i, j)]);
    IndexWithin(j, m, n, t);
    if j < m - 1 {
      CellAt(s, e, r, path, i, m - 1, j, t);
    }
  }

  lemma {:induction false} CellsLength(s: Scene, e: Entity, r: nat, path: seq<Frame>, i: nat, m: nat)
    requires s.Valid() && s.Exploded(e, r)
    ensures |s.FlatCells(e, r, path, i, m)| == m * |Copy(s, e, r)|
    decreases m
  {
    var n := |Copy(s, e, r)|;
    if m > 0 {
      CellsLength(s, e, r, path, i, m - 1);
      BlockLength(s, e, r, path + [s.CellFrame(e, i, m - 1)]);
      assert m * n == (m - 1) * n + n;
    }
  }

  lemma {:induction false} RowsLength(s: Scene, e: Entity, r: nat, path: seq<Frame>, h: nat)
    requires s.Valid() && s.Exploded(e, r)
    ensures |s.FlatRows(e, r, path, h)| == h * (Columns(e) * |Copy(s, e, r)|)
    decreases h
  {
    var w := Columns(e) * |Copy(s, e, r)|;
    if h > 0 {
      RowsLength(s, e, r, path, h - 1);
      CellsLength(s, e, r, path, h - 1, Columns(e));
      assert h * w == (h - 1) * w + w;
    }
  }

  /** Item t of the copy in row i and column j. */
  function At(e: Entity, n: nat, i: nat, j: nat, t: nat): nat
    requires e.Insert?
  {
    i * (Columns(e) * n) + (j * n + t)
  }

  lemma {:induction false} RowAtIndex(s: Scene, e: Entity, r: nat, path: seq<Frame>, h: nat, i: nat, u: nat)
    requires s.Valid() && s.Exploded(e, r) && i < h && u < Columns(e) * |Copy(s, e, r)|
    ensures var w := Columns(e) * |Copy(s, e, r)|; var rows := s.FlatRows(e, r, path, h);
      && i * w + u < |rows| && |s.FlatCells(e, r, path, i, Columns(e))| == w
      && rows[i * w + u] == s.FlatCells(e, r, path, i, Columns(e))[u]
    decreases h
  {
    var w := Columns(e) * |Copy(s, e, r)|;
    RowsLength(s, e, r, path, h - 1);
    RowsLength(s, e, r, path, h);
    CellsLength(s, e, r, path, i, Columns(e));
    IndexWithin(i, h, w, u);
    if i < h - 1 {
      RowAtIndex(s, e, r, path, h - 1, i, u);
    }
  }

  lemma ItemAt(s: Scene, e: Entity, r: nat, path: seq<Frame>, h: nat, i: nat, j: nat, t: nat)
    requires s.Valid() && s.Exploded(e, r) && i < h && j < Columns(e) && t < |Copy(s, e, r)|
    ensures var k := At(e, |Copy(s, e, r)|, i, j, t);
      && k < |s.FlatRows(e, r, path, h)|
      && Beneath(s.FlatRows(e, r, path, h)[k], Copy(s, e, r)[t], path + [s.CellFrame(e, i, j)])
  {
    hide Scene.FlatRows, Scene.FlatCells, Scene.FlatBlock;
    CellAt(s, e, r, path, i, Columns(e), j, t);
    RowAtIndex(s, e, r, path, h, i, j * |Copy(s, e, r)| + t);
    BlockLength(s, e, r, path + [s.CellFrame(e, i, j)]);
  }

  // ----- where the points of a copy go -----

  /** A point carried out through the levels of a path, as far as an INSERT
      without a block, whose matrix forgets what encloses it. */
  function Carried(path: seq<Frame>, p: Vec3): (r: (bool, Vec3))
    ensures r.0 <==> Reset !in path
  {
    if path == [] then (true, p)
    else
      var f := path[|path| - 1];
      assert path == path[..|path| - 1] + [f];
      if f.Reset? then (false, p) else Carried(path[..|path| - 1], PlacePoint(f, p))
  }

  lemma {:induction false} PathPointSplit(start: Mat, path: seq<Frame>, inner: seq<Frame>, p: Vec3)
    requires Affine4(start)
    ensures var (through, q) := Carried(inner, p);
      PathPoint(start, path + inner, p) == if through then PathPoint(start, path, q) else q
    decreases |inner|
  {
    if inner == [] {
      assert path + inner == path;
    } else {
      var f := inner[|inner| - 1];
      assert (path + inner)[..|path + inner| - 1] == path + inner[..|inner| - 1];
      if f.Placed? {
        PathPointSplit(start, path, inner[..|inner| - 1], PlacePoint(f, p));
      }
    }
  }

  /** Where a matrix takes a point. */
  ghost predicate Takes(m: Mat, p: Vec3, q: Vec3) {
    Affine4(m) && W(m, p) == 1.0 && Apply(m, p) == q
  }

  lemma ImageIs(start: Mat, it: Item, p: Vec3)
    requires Affine4(start)
    ensures Takes(VisitOf(start, it).matrix, p, PathPoint(start, it.path, p))
  {
    PathActs(start, it.path, p);
  }

  /** What a level does in a cell of the grid, from what it does in the first. */
  lemma CellMoves(s: Scene, e: Entity, i: nat, j: nat, p: Vec3)
    requires e.Insert? && e.block.Some? && e.block.value in s.blocks
    ensures var q := PlacePoint(s.CellFrame(e, 0, 0), p);
      PlacePoint(s.CellFrame(e, i, j), p)
      == Vec3(q.x + j as real * e.colSpacing, q.y + i as real * e.rowSpacing, q.z)
  {
  }

  /** The visit of copy (i, j) takes each point to where the visit of copy (0, 0)
      takes it, moved by j column spacings in x and i row spacings in y inside
      the matrix that encloses the INSERT; but to the same place if the visit is
      inside an INSERT without a block, which forgets that matrix. */
  lemma CopyMoves(s: Scene, e: Entity, r: nat, start: Mat, path: seq<Frame>, h: nat, i: nat, j: nat, t: nat, p: Vec3)
    returns (w: Vec3, first: Vec3, here: Vec3)
    requires s.Valid() && s.Exploded(e, r) && Affine4(start)
    requires i < h && j < Columns(e) && t < |s.FlatBlock(e.block.value, [], Some(e.id))|
    ensures var n := |s.FlatBlock(e.block.value, [], Some(e.id))|; var items := s.FlatRows(e, r, path, h);
      var k := i * (Columns(e) * n) + (j * n + t);
      && k < |items| && t < |items| && items[k].id == items[t].id && items[k].refused == items[t].refused
      && items[k].insert == items[t].insert && |path| <= |items[t].path|
      && Takes(VisitOf(start, items[t]).matrix, p, first) && Takes(VisitOf(start, items[k]).matrix, p, here)
      && (Reset !in items[t].path[|path|..] ==>
            && Takes(PathMatrix(start, path), w, first)
            && Takes(PathMatrix(start, path),
                     Vec3(w.x + j as real * e.colSpacing, w.y + i as real * e.rowSpacing, w.z), here))
      && (Reset in items[t].path[|path|..] ==> here == first)
  {
    hide *;
    var a, b, inner := CopyItems(s, e, r, path, h, i, j, t);
    CellIsPlaced(s, e, path, inner);
    ImageIs(start, a, p);
    ImageIs(start, b, p);
    w := CopyPoint(s, e, start, path, i, j, inner, p);
    first, here := PathPoint(start, a.path, p), PathPoint(start, b.path, p);
  }

  lemma CellIsPlaced(s: Scene, e: Entity, path: seq<Frame>, inner: seq<Frame>)
    requires e.Insert? && e.block.Some? && e.block.value in s.blocks
    ensures var all := path + [s.CellFrame(e, 0, 0)] + inner;
      |path| <= |all| && (Reset in all[|path|..] <==> Reset in inner)
  {
    var f := s.CellFrame(e, 0, 0);
    assert (path + [f] + inner)[|path|..] == [f] + inner;
  }

  /** Item t of the first copy and of copy (i, j). */
  lemma CopyItems(s: Scene, e: Entity, r: nat, path: seq<Frame>, h: nat, i: nat, j: nat, t: nat)
    returns (a: Item, b: Item, inner: seq<Frame>)
    requires s.Valid() && s.Exploded(e, r) && i < h && j < Columns(e)
    requires t < |s.FlatBlock(e.block.value, [], Some(e.id))|
    ensures e.Insert? && e.block.Some? && e.block.value in s.blocks
    ensures var n := |s.FlatBlock(e.block.value, [], Some(e.id))|; var items := s.FlatRows(e, r, path, h);
      var k := i * (Columns(e) * n) + (j * n + t);
      k < |items| && t < |items| && a == items[t] && b == items[k]
    ensures a.id == b.id && a.refused == b.refused && a.insert == b.insert
    ensures a.path == path + [s.CellFrame(e, 0, 0)] + inner && b.path == path + [s.CellFrame(e, i, j)] + inner
  {
    var n := |Copy(s, e, r)|;
    var items := s.FlatRows(e, r, path, h);
    ItemAt(s, e, r, path, h, 0, 0, t);
    ItemAt(s, e, r, path, h, i, j, t);
    assert At(e, n, 0, 0, t) == t;
    inner := Copy(s, e, r)[t].path;
    a, b := items[t], items[At(e, n, i, j, t)];
    hide Scene.FlatRows, Scene.FlatBlock, Scene.CellFrame, Scene.Valid;
  }

  lemma CopyPoint(s: Scene, e: Entity, start: Mat, path: seq<Frame>, i: nat, j: nat, inner: seq<Frame>, p: Vec3)
    returns (w: Vec3)
    requires e.Insert? && e.block.Some? && e.block.value in s.blocks && Affine4(start)
    ensures var first := PathPoint(start, path + [s.CellFrame(e, 0, 0)] + inner, p);
      var here := PathPoint(start, path + [s.CellFrame(e, i, j)] + inner, p);
      if Reset !in inner then
        && Takes(PathMatrix(start, path), w, first)
        && Takes(PathMatrix(start, path),
                 Vec3(w.x + j as real * e.colSpacing, w.y + i as real * e.rowSpacing, w.z), here)
      else here == first
  {
    var f, g := s.CellFrame(e, 0, 0), s.CellFrame(e, i, j);
    PathPointSplit(start, path + [f], inner, p);
    PathPointSplit(start, path + [g], inner, p);
    var q := Carried(inner, p).1;
    w := PlacePoint(f, q);
    CellMoves(s, e, i, j, q);
    LastLevel(start, path, f, q);
    LastLevel(start, path, g, q);
    hide Scene.CellFrame, PlacePoint, PathPoint, PathMatrix, Carried;
  }

  lemma LastLevel(start: Mat, path: seq<Frame>, f: Frame, p: Vec3)
    requires Affine4(start) && f.Placed?
    ensures Takes(PathMatrix(start, path), PlacePoint(f, p), PathPoint(start, path + [f], p))
  {
    hide PlacePoint;
    assert (path + [f])[..|path|] == path;
    PathActs(start, path, PlacePoint(f, p));
  }

  /** A point of a block in the coordinates around its INSERT, written out: taken
      relative to the base point, scaled, rotated about z, moved to the insertion
      point, read in the extrusion axes if there are any, and moved once more. */
  function Written(pl: Place, b: Vec3, dx: real, dy: real, p: Vec3): Vec3 {
    var q := Turned(pl.axes, Local(pl, b, p));
    Vec3(q.x + dx, q.y + dy, q.z)
  }

  function Turned(axes: Option<Axes>, q: Vec3): Vec3 {
    match axes
    case None => q
    case Some(a) => Vec3(q.x * a.x.x + q.y * a.y.x + q.z * a.z.x, q.x * a.x.y + q.y * a.y.y + q.z * a.z.y,
                         q.x * a.x.z + q.y * a.y.z + q.z * a.z.z)
  }

  function Local(pl: Place, b: Vec3, p: Vec3): Vec3 {
    var x, y := (p.x - b.x) * pl.scale.x, (p.y - b.y) * pl.scale.y;
    Vec3(x * pl.cos - y * pl.sin + pl.point.x, x * pl.sin + y * pl.cos + pl.point.y,
         (p.z - b.z) * pl.scale.z + pl.point.z)
  }

  /** The copy in row i and column j, in the fields of the INSERT: it is moved by
      whole spacings, inside the enclosing matrix. */
  lemma CopyPlace(s: Scene, e: Entity, r: nat, start: Mat, path: seq<Frame>, h: nat, i: nat, j: nat, p: Vec3)
    returns (here: Vec3)
    requires s.Valid() && s.Exploded(e, r) && Affine4(start) && i < h && j < Columns(e)
    ensures var n := |s.FlatBlock(e.block.value, [], Some(e.id))|; var items := s.FlatRows(e, r, path, h);
      var k := i * (Columns(e) * n) + j * n;
      && k < |items| && items[k].id == s.blocks[e.block.value].id && items[k].insert == Some(e.id)
      && Takes(VisitOf(start, items[k]).matrix, p, here)
    ensures Takes(PathMatrix(start, path),
                  Written(e.place, s.blocks[e.block.value].base, j as real * e.colSpacing, i as real * e.rowSpacing, p),
                  here)
  {
    CellFormula(s, e, i, j, p);
    hide *;
    here := CopyVisit(s, e, r, start, path, h, i, j, p);
  }

  lemma CellFormula(s: Scene, e: Entity, i: nat, j: nat, p: Vec3)
    requires e.Insert? && e.block.Some? && e.block.value in s.blocks
    ensures s.CellFrame(e, i, j).Placed?
    ensures PlacePoint(s.CellFrame(e, i, j), p)
         == Written(e.place, s.blocks[e.block.value].base, j as real * e.colSpacing, i as real * e.rowSpacing, p)
  {
    hide PlacePoint, Written;
    var f := s.CellFrame(e, i, j);
    LevelFormula(f, j as real * e.colSpacing, i as real * e.rowSpacing, p);
  }

  lemma CopyVisit(s: Scene, e: Entity, r: nat, start: Mat, path: seq<Frame>, h: nat, i: nat, j: nat, p: Vec3)
    returns (here: Vec3)
    requires s.Valid() && s.Exploded(e, r) && Affine4(start) && i < h && j < Columns(e)
    ensures var n := |s.FlatBlock(e.block.value, [], Some(e.id))|; var items := s.FlatRows(e, r, path, h);
      var k := i * (Columns(e) * n) + j * n;
      && k < |items| && items[k].id == s.blocks[e.block.value].id && items[k].insert == Some(e.id)
      && Takes(VisitOf(start, items[k]).matrix, p, here)
    ensures Takes(PathMatrix(start, path), PlacePoint(s.CellFrame(e, i, j), p), here)
  {
    var n := |Copy(s, e, r)|;
    var items, k := s.FlatRows(e, r, path, h), At(e, n, i, j, 0);
    BlockFirst(s, e.block.value, [], Some(e.id));
    ItemAt(s, e, r, path, h, i, j, 0);
    var g := s.CellFrame(e, i, j);
    LastLevel(start, path, g, p);
    hide Scene.FlatRows, Scene.FlatBlock, Scene.CellFrame, PlacePoint, PathPoint, PathMatrix;
    assert path + [g] + [] == path + [g];
    ImageIs(start, items[k], p);
    here := PathPoint(start, path + [g], p);
  }

  /** One level, in the fields of the INSERT. */
  lemma LevelFormula(f: Frame, dx: real, dy: real, p: Vec3)
    requires f.Placed?
    requires match f.cell
             case None => dx == 0.0 == dy
             case Some(c) => dx == c.col as real * c.colSpacing && dy == c.row as real * c.rowSpacing
    ensures PlacePoint(f, p) == Written(f.place, f.base, dx, dy, p)
  {
    LocalIs(f.place, f.base, p);
    TurnedIs(f.place.axes, Local(f.place, f.base, p));
    hide Local, RotatePoint, ScalePoint, Turned, AxesPoint;
  }

  lemma TurnedIs(axes: Option<Axes>, q: Vec3)
    ensures Turned(axes, q) == if axes.Some? then AxesPoint(axes.value, q) else q
  {
  }

  lemma LocalIs(pl: Place, b: Vec3, p: Vec3)
    ensures Add(RotatePoint(pl.cos, pl.sin, ScalePoint(pl.scale, Add(p, Negate(b)))), pl.point)
         == Local(pl, b, p)
  {
    var d := Add(p, Negate(b));
    assert d == Vec3(p.x - b.x, p.y - b.y, p.z - b.z);
    hide Negate;
  }

  lemma BlockFirst(s: Scene, b: nat, path: seq<Frame>, ins: Option<nat>)
    requires s.Valid() && b in s.blocks && b in s.rank
    ensures var items := s.FlatBlock(b, path, ins);
      items != [] && items[0].id == s.blocks[b].id && items[0].path == path && items[0].insert == ins
  {
  }

  /** The entities that belong to the INSERT itself: the same, without a cell. */
  lemma OwnPlace(s: Scene, e: Entity, r: nat, start: Mat, path: seq<Frame>, ins: Option<nat>, id: nat, p: Vec3)
    returns (here: Vec3)
    requires s.Valid() && s.Below(e, r) && Affine4(start) && e.Insert? && e.block.Some? && e.subs == [Simple(id, false)]
    ensures var items := s.FlatEntity(e, r, path, ins);
      && items != [] && items[|items| - 1].id == id && items[|items| - 1].insert == Some(e.id)
      && Takes(VisitOf(start, items[|items| - 1]).matrix, p, here)
    ensures Takes(PathMatrix(start, path), Written(e.place, s.blocks[e.block.value].base, 0.0, 0.0, p), here)
  {
    var f := s.SubFrame(e);
    var own := s.FlatList(e.subs, r, path + [f], Some(e.id));
    PlainList(s, e.subs, r, path + [f], Some(e.id));
    assert e.subs[1..] == [] && Alive(e.subs) == [id];
    var items := s.FlatEntity(e, r, path, ins);
    assert items[|items| - 1] == own[0];
    ImageIs(start, own[0], p);
    here := PathPoint(start, path + [f], p);
    LastLevel(start, path, f, p);
    hide Written, PlacePoint, PathMatrix, PathPoint, Takes;
    LevelFormula(f, 0.0, 0.0, p);
  }

  // ----- what is visited -----

  predicate Plain(es: seq<Entity>) {
    forall i :: 0 <= i < |es| ==> es[i].Simple?
  }

  /** The entities that are not deleted. */
  function Alive(es: seq<Entity>): seq<nat>
    requires Plain(es)
  {
    if es == [] then [] else (if es[0].deleted then [] else [es[0].id]) + Alive(es[1..])
  }

  predicate Visits(items: seq<Item>, ids: seq<nat>, path: seq<Frame>, ins: Option<nat>) {
    && |items| == |ids|
    && forall k :: 0 <= k < |items| ==> items[k] == Item(ids[k], path, ins, Abort)
  }

  lemma {:induction false} AliveAppend(es: seq<Entity>, e: Entity)
    requires e.Simple? && Plain(es)
    ensures Alive(es + [e]) == Alive(es) + if e.deleted then [] else [e.id]
  {
    if es == [] {
      assert [e][1..] == [];
    } else {
      assert (es + [e])[1..] == es[1..] + [e];
      AliveAppend(es[1..], e);
    }
  }

  lemma {:induction false} PlainList(s: Scene, es: seq<Entity>, r: nat, path: seq<Frame>, ins: Option<nat>)
    requires s.Valid() && s.Fits(es, r) && Plain(es)
    ensures Visits(s.FlatList(es, r, path, ins), Alive(es), path, ins)
  {
    if es != [] {
      var init, last := es[..|es| - 1], es[|es| - 1];
      PlainList(s, init, r, path, ins);
      AliveAppend(init, last);
      assert init + [last] == es;
    }
  }

  /** A block of plain entities: the block, those that are not deleted, in order,
      and the end of the block. */
  lemma PlainBlock(s: Scene, b: nat, path: seq<Frame>, ins: Option<nat>)
    requires s.Valid() && b in s.blocks && b in s.rank && Plain(s.blocks[b].entities)
    ensures var block := s.blocks[b]; var ids := Alive(block.entities); var items := s.FlatBlock(b, path, ins);
      && |items| == 1 + |ids| + (if block.endblock.Some? then 1 else 0)
      && items[0].id == block.id && items[0].path == path && items[0].insert == ins
      && Visits(items[1..1 + |ids|], ids, path, ins)
      && (block.endblock.Some? ==> items[1 + |ids|] == Item(block.endblock.value, path, ins, Abort))
  {
    PlainList(s, s.blocks[b].entities, s.rank[b], path, ins);
    var items, body := s.FlatBlock(b, path, ins), s.FlatList(s.blocks[b].entities, s.rank[b], path, ins);
    assert items[1..1 + |body|] == body;
  }

  /** The same INSERT, but perhaps for being deleted. */
  predicate Twins(e: Entity, d: Entity) {
    match (e, d)
    case (Insert(id, _, b, p, r, c, rs, cs, subs), Insert(id', _, b', p', r', c', rs', cs', subs')) =>
      id == id' && b == b' && p == p' && r == r' && c == c' && rs == rs' && cs == cs' && subs == subs'
    case _ => false
  }

  /** Whether an INSERT is deleted does not matter when its block is shown. */
  lemma DeletedIsShown(s: Scene, e: Entity, d: Entity, r: nat, path: seq<Frame>, ins: Option<nat>)
    requires s.Valid() && s.Exploded(e, r) && Twins(e, d)
    ensures s.Exploded(d, r) && s.FlatEntity(e, r, path, ins) == s.FlatEntity(d, r, path, ins)
  {
    var n := if e.rows < 0 then 0 else e.rows;
    TwinRows(s, e, d, r, path, n);
    hide Scene.FlatRows, Scene.FlatList;
  }

  lemma {:induction false} TwinRows(s: Scene, e: Entity, d: Entity, r: nat, path: seq<Frame>, h: nat)
    requires s.Valid() && s.Exploded(e, r) && Twins(e, d)
    ensures s.Exploded(d, r) && s.FlatRows(e, r, path, h) == s.FlatRows(d, r, path, h)
    decreases h
  {
    if h > 0 {
      TwinRows(s, e, d, r, path, h - 1);
      TwinCells(s, e, d, r, path, h - 1, Columns(e));
      hide Scene.FlatCells;
    }
  }

  lemma {:induction false} TwinCells(s: Scene, e: Entity, d: Entity, r: nat, path: seq<Frame>, i: nat, m: nat)
    requires s.Valid() && s.Exploded(e, r) && Twins(e, d)
    ensures s.Exploded(d, r) && s.FlatCells(e, r, path, i, m) == s.FlatCells(d, r, path, i, m)
    decreases m
  {
    if m > 0 {
      TwinCells(s, e, d, r, path, i, m - 1);
      hide Scene.FlatBlock;
    }
  }

  /** Without exploding, or without a block, an INSERT that is not deleted is shown
      once, and then its own entities; with both, as many copies as it has rows and
      columns, and then its own entities. */
  lemma InsertShows(s: Scene, e: Entity, r: nat, path: seq<Frame>, ins: Option<nat>)
    requires s.Valid() && s.Below(e, r) && e.Insert? && e.subs == []
    ensures var items := s.FlatEntity(e, r, path, ins);
      if e.block.Some? && s.explode then
        |items| == (if e.rows < 0 || e.cols < 0 then 0
                    else e.rows * (e.cols * |s.FlatBlock(e.block.value, [], Some(e.id))|))
      else items == if e.deleted then [] else [Item(e.id, path, ins, Abort)]
  {
    var f := s.SubFrame(e);
    assert s.FlatList([], r, path + [f], Some(e.id)) == [];
    if e.block.Some? && s.explode {
      RowsLength(s, e, r, path, if e.rows < 0 then 0 else e.rows);
    }
  }

  /** The vertices of a POLYLINE follow it if they are asked for. */
  lemma PolylineShows(s: Scene, id: nat, deleted: bool, v: nat, r: nat, path: seq<Frame>, ins: Option<nat>)
    requires s.Valid()
    ensures s.Below(Polyline(id, deleted, [Simple(v, false)]), r)
    ensures s.FlatEntity(Polyline(id, deleted, [Simple(v, false)]), r, path, ins)
         == if deleted then []
            else if s.vertices then [Item(id, path, ins, Ignore), Item(v, path, ins, Abort)]
            else [Item(id, path, ins, Ignore)]
  {
    var vs := [Simple(v, false)];
    PlainList(s, vs, r, path, ins);
    assert vs[1..] == [] && Alive(vs) == [v];
    assert s.FlatList(vs, r, path, ins) == [Item(v, path, ins, Abort)];
  }
}
