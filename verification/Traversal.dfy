/** The traversal itself: loops over rows, columns and entities, matrices
    multiplied in place, one copied state per INSERT. Every method is proved
    against the flattened drawing of module `Insert`. */
module Traversal {
  import opened Wrappers
  import opened LinearAlgebra
  import opened Affine
  import opened Placement
  import opened Insert
  import opened State

  lemma ProductStep(m: Mat, fs: seq<Mat>, f: Mat)
    requires Square(m, 4) && Affine4(f) && forall g :: g in fs ==> Affine4(g)
    ensures Product(m, fs + [f]) == MatMul(Product(m, fs), f, 4)
  {
    assert (fs + [f])[..|fs|] == fs;
  }

  lemma {:induction false} ProductSplit(m: Mat, fs: seq<Mat>, gs: seq<Mat>)
    requires Square(m, 4) && (forall g :: g in fs ==> Affine4(g)) && forall g :: g in gs ==> Affine4(g)
    ensures Product(m, fs + gs) == Product(Product(m, fs), gs)
  {
    if gs == [] {
      assert fs + gs == fs;
    } else {
      var init, g := gs[..|gs| - 1], gs[|gs| - 1];
      ProductSplit(m, fs, init);
      assert fs + gs == (fs + init) + [g] && gs == init + [g];
      assert Affine4(g);
      ProductStep(m, fs + init, g);
      ProductStep(Product(m, fs), init, g);
    }
  }

  lemma CellProduct(start: Mat, path: seq<Frame>, f: Frame)
    requires Square(start, 4) && f.Placed?
    ensures PathMatrix(start, path + [f])
         == Product(Product(PathMatrix(start, path), CellFactors(f.cell)), PlaceFactors(f.place, f.base))
  {
    ProductSplit(PathMatrix(start, path), CellFactors(f.cell), PlaceFactors(f.place, f.base));
    assert (path + [f])[..|path|] == path;
  }

  /** A frame without a cell, at the end of a path. */
  lemma SubFrameMatrix(start: Mat, path: seq<Frame>, f: Frame)
    requires Square(start, 4) && (f.Placed? ==> f.cell.None?)
    ensures PathMatrix(start, path + [f])
         == if f.Reset? then Identity(4) else Product(PathMatrix(start, path), PlaceFactors(f.place, f.base))
  {
    assert (path + [f])[..|path|] == path;
    assert f.Placed? ==> Factors(f) == PlaceFactors(f.place, f.base);
    hide Product, PlaceFactors;
  }

  lemma PlaceProduct(m: Mat, p: Place, base: Vec3)
    requires Square(m, 4)
    ensures Product(m, PlaceFactors(p, base))
         == MatMul(MatMul(MatMul(Product(m, AxesFactors(p.axes)), TranslationMat(p.point), 4), TransformMat(p), 4),
                   TranslationMat(Negate(base)), 4)
  {
    var a, t, r, b := AxesFactors(p.axes), TranslationMat(p.point), TransformMat(p), TranslationMat(Negate(base));
    ProductStep(m, a, t);
    ProductStep(m, a + [t], r);
    ProductStep(m, a + [t] + [r], b);
    assert PlaceFactors(p, base) == a + [t] + [r] + [b];
  }

  ghost function InsertBody(s: Scene, e: Entity, r: nat, path: seq<Frame>, ins: Option<nat>): seq<Item>
    requires s.Valid() && s.Below(e, r) && e.Insert?
  {
    if e.block.Some? && s.explode then s.FlatRows(e, r, path, if e.rows < 0 then 0 else e.rows)
    else if e.deleted then [] else [Item(e.id, path, ins, Abort)]
  }

  lemma InsertParts(cb: Callback, start: Mat, log: seq<Visit>, s: Scene, e: Entity, r: nat, path: seq<Frame>,
                    ins: Option<nat>)
    requires Square(start, 4) && s.Valid() && s.Below(e, r) && e.Insert?
    ensures var m := Run(cb, start, log, InsertBody(s, e, r, path, ins));
      Run(cb, start, log, s.FlatEntity(e, r, path, ins))
      == if m.1 then Run(cb, start, m.0, s.FlatList(e.subs, r, path + [s.SubFrame(e)], Some(e.id))) else m
  {
    var body, subs := InsertBody(s, e, r, path, ins), s.FlatList(e.subs, r, path + [s.SubFrame(e)], Some(e.id));
    if e.block.Some? && s.explode {
      FlatRowsNested(s, e, r, path, if e.rows < 0 then 0 else e.rows);
    }
    RunConcat(cb, start, log, body, subs);
    assert s.FlatEntity(e, r, path, ins) == body + subs;
  }

  class Traverser {
    const scene: Scene
    const cb: Callback
    ghost const start: Mat
    var log: seq<Visit>

    ghost predicate At(state: TraversalState, path: seq<Frame>, ins: Option<nat>)
      reads state
    {
      && state.Valid() && Square(start, 4) && scene.Valid()
      && state.matrix == PathMatrix(start, path) && state.currentInsert == ins
      && (state.GetFlags() & EXPLODE_INSERTS != 0 <==> scene.explode)
      && (state.GetFlags() & TRAVERSE_POLYLINE_VERTICES != 0 <==> scene.vertices)
    }

    constructor (s: Scene, callback: Callback, ghost m: Mat)
      ensures scene == s && cb == callback && start == m && log == []
    {
      scene, cb, start, log := s, callback, m, [];
    }

    method Call(state: TraversalState, id: nat) returns (ok: bool)
      modifies this`log
      ensures var v := Visit(id, state.matrix, state.currentInsert);
        log == old(log) + [v] && ok == cb(old(log), v)
    {
      var v := Visit(id, state.matrix, state.currentInsert);
      ok := cb(log, v);
      log := log + [v];
    }

    /** m := m * (axes) * (insertion point) * (rotation, scale) * (-base). */
    method MakeMatrix(e: Entity, m: Linear.Matrix)
      requires e.Insert? && (e.block.Some? ==> e.block.value in scene.blocks)
      requires m.Valid() && m.n == 4
      modifies m.a
      ensures m.Rows() == if e.block.None? then Identity(4)
        else Product(old(m.Rows()), PlaceFactors(e.place, scene.blocks[e.block.value].base))
    {
      if e.block.None? {
        m.MakeIdentity();
        return;
      }
      ghost var m0 := m.Rows();
      var base := scene.blocks[e.block.value].base;
      var m2 := new Linear.Matrix.FromRows(IdentityMat(), 4);
      if e.place.axes.Some? {
        var a := e.place.axes.value;
        m2.SetRotateAxes(a.x, a.y, a.z);
        m.MultRight(m2);
        ProductStep(m0, [], AxesMat(a.x, a.y, a.z));
        assert [] + [AxesMat(a.x, a.y, a.z)] == AxesFactors(e.place.axes);
      }
      assert m.Rows() == Product(m0, AxesFactors(e.place.axes));
      m2.MakeIdentity();
      m2.SetTranslate(e.place.point);
      m.MultRight(m2);
      m2.SetTransform(Vec3(0.0, 0.0, 0.0), e.place.scale, e.place.cos, e.place.sin);
      m.MultRight(m2);
      m2.MakeIdentity();
      m2.SetTranslate(Negate(base));
      m.MultRight(m2);
      PlaceProduct(m0, e.place, base);
    }

    /** The state for cell (i, j) of an exploded INSERT. */
    method EnterCell(e: Entity, state: TraversalState, newstate: TraversalState, i: nat, j: nat,
                     ghost path: seq<Frame>, ghost ins: Option<nat>)
      requires At(state, path, ins) && newstate.Valid() && newstate != state
      requires e.Insert? && e.block.Some? && e.block.value in scene.blocks
      modifies newstate`matrix, newstate`flags
      ensures newstate.Valid() && newstate.GetFlags() == old(newstate.GetFlags())
      ensures newstate.matrix == PathMatrix(start, path + [scene.CellFrame(e, i, j)])
    {
      ghost var f := scene.CellFrame(e, i, j);
      var m := OffsetMatrix(state.matrix, Cell(i, j, e.rowSpacing, e.colSpacing));
      MakeMatrix(e, m);
      CellProduct(start, path, f);
      var rows := m.Copy();
      newstate.SetMatrix(rows);
    }

    method OffsetMatrix(m0: Mat, cell: Cell) returns (m: Linear.Matrix)
      requires |m0| == 4 && forall i :: 0 <= i < 4 ==> |m0[i]| == 4
      ensures fresh(m) && fresh(m.a) && m.Valid() && m.n == 4
      ensures m.Rows() == Product(m0, CellFactors(Some(cell)))
    {
      m := new Linear.Matrix.FromRows(m0, 4);
      var m2 := new Linear.Matrix.FromRows(IdentityMat(), 4);
      m2.SetTranslate(CellOffset(cell));
      m.MultRight(m2);
      ProductStep(m0, [], TranslationMat(CellOffset(cell)));
      assert CellFactors(Some(cell)) == [] + [TranslationMat(CellOffset(cell))];
    }

    /** The state for the entities that belong to the INSERT itself. */
    method EnterSubs(e: Entity, state: TraversalState, newstate: TraversalState,
                     ghost path: seq<Frame>, ghost ins: Option<nat>)
      requires At(state, path, ins) && newstate.Valid() && newstate != state
      requires e.Insert? && (e.block.Some? ==> e.block.value in scene.blocks)
      modifies newstate`matrix, newstate`flags
      ensures newstate.Valid() && newstate.GetFlags() == old(newstate.GetFlags())
      ensures newstate.matrix == PathMatrix(start, path + [scene.SubFrame(e)])
    {
      var m := new Linear.Matrix.FromRows(state.matrix, 4);
      MakeMatrix(e, m);
      ghost var f := scene.SubFrame(e);
      SubFrameMatrix(start, path, f);
      hide PathMatrix, Product, Factors, PlaceFactors;
      var rows := m.Copy();
      newstate.SetMatrix(rows);
    }

    method TraverseEntity(e: Entity, state: TraversalState, ghost r: nat, ghost path: seq<Frame>,
                          ghost ins: Option<nat>)
      returns (ok: bool)
      requires At(state, path, ins) && scene.Below(e, r)
      modifies this`log
      ensures (log, ok) == Run(cb, start, old(log), scene.FlatEntity(e, r, path, ins))
      decreases r, 0, e, 3, 0
    {
      match e
      case Simple(id, deleted) =>
        if deleted {
          return true;
        }
        RunOne(cb, start, log, Item(id, path, ins, Abort));
        ok := Call(state, id);
      case Polyline(id, deleted, vs) =>
        if deleted {
          return true;
        }
        ghost var head := [Item(id, path, ins, Ignore)];
        RunOne(cb, start, log, head[0]);
        RunConcat(cb, start, log, head, if scene.vertices then scene.FlatList(vs, r, path, ins) else []);
        var ignored := Call(state, id);
        if state.GetFlags() & TRAVERSE_POLYLINE_VERTICES != 0 {
          ok := TraverseList(vs, state, r, path, ins);
        } else {
          ok := true;
        }
      case Insert(_, _, _, _, _, _, _, _, _) =>
        ok := TraverseInsert(e, state, r, path, ins);
    }

    method TraverseInsert(e: Entity, state: TraversalState, ghost r: nat, ghost path: seq<Frame>,
                          ghost ins: Option<nat>)
      returns (ok: bool)
      requires At(state, path, ins) && scene.Below(e, r) && e.Insert?
      modifies this`log
      ensures (log, ok) == Run(cb, start, old(log), scene.FlatEntity(e, r, path, ins))
      decreases r, 0, e, 2, 2
    {
      var newstate := new TraversalState.Copy(state);
      newstate.currentInsert := Some(e.id);
      InsertParts(cb, start, log, scene, e, r, path, ins);
      ok := TraverseBody(e, state, newstate, r, path, ins);
      if ok {
        EnterSubs(e, state, newstate, path, ins);
        ok := TraverseList(e.subs, newstate, r, path + [scene.SubFrame(e)], Some(e.id));
      }
    }

    /** The copies of the block, or the INSERT itself when it is not exploded. */
    method TraverseBody(e: Entity, state: TraversalState, newstate: TraversalState, ghost r: nat,
                        ghost path: seq<Frame>, ghost ins: Option<nat>)
      returns (ok: bool)
      requires At(state, path, ins) && scene.Below(e, r) && e.Insert?
      requires newstate != state && newstate.Valid() && newstate.GetFlags() == state.GetFlags()
      requires newstate.currentInsert == Some(e.id)
      modifies this`log, newstate`matrix, newstate`flags
      ensures (log, ok) == Run(cb, start, old(log), InsertBody(scene, e, r, path, ins))
      ensures newstate.Valid() && newstate.GetFlags() == old(newstate.GetFlags())
      decreases r, 0, e, 2, 1
    {
      if e.block.Some? && state.GetFlags() & EXPLODE_INSERTS != 0 {
        ok := TraverseRows(e, state, newstate, r, path, ins);
      } else if !e.deleted {
        RunOne(cb, start, log, Item(e.id, path, ins, Abort));
        ok := Call(state, e.id);
      } else {
        ok := true;
      }
    }

    method TraverseRows(e: Entity, state: TraversalState, newstate: TraversalState, ghost r: nat,
                        ghost path: seq<Frame>, ghost ins: Option<nat>)
      returns (ok: bool)
      requires At(state, path, ins) && scene.Exploded(e, r)
      requires newstate != state && newstate.Valid() && newstate.GetFlags() == state.GetFlags()
      requires newstate.currentInsert == Some(e.id)
      modifies this`log, newstate`matrix, newstate`flags
      ensures (log, ok) == Run(cb, start, old(log), scene.FlatRows(e, r, path, if e.rows < 0 then 0 else e.rows))
      ensures newstate.Valid() && newstate.GetFlags() == old(newstate.GetFlags())
      decreases r, 0, e, 2, 0
    {
      hide Run;
      RunNothing(cb, start, log);
      var i := 0;
      ok := true;
      while ok && i < e.rows
        invariant 0 <= i <= (if e.rows < 0 then 0 else e.rows)
        invariant At(state, path, ins) && newstate.Valid() && newstate.GetFlags() == old(newstate.GetFlags())
        invariant (log, ok) == Run(cb, start, old(log), scene.FlatRows(e, r, path, i))
      {
        RowStep(cb, start, old(log), scene, e, r, path, i);
        ok := TraverseCells(e, state, newstate, i, r, path, ins);
        i := i + 1;
      }
      if !ok {
        RowsStop(cb, start, old(log), scene, e, r, path, i, if e.rows < 0 then 0 else e.rows);
      }
    }

    method TraverseCells(e: Entity, state: TraversalState, newstate: TraversalState, i: nat, ghost r: nat,
                         ghost path: seq<Frame>, ghost ins: Option<nat>)
      returns (ok: bool)
      requires At(state, path, ins) && scene.Exploded(e, r)
      requires newstate != state && newstate.Valid() && newstate.GetFlags() == state.GetFlags()
      requires newstate.currentInsert == Some(e.id)
      modifies this`log, newstate`matrix, newstate`flags
      ensures (log, ok) == Run(cb, start, old(log), scene.FlatCells(e, r, path, i, if e.cols < 0 then 0 else e.cols))
      ensures newstate.Valid() && newstate.GetFlags() == old(newstate.GetFlags())
      decreases r, 0, e, 1, 0
    {
      hide Run;
      RunNothing(cb, start, log);
      var j := 0;
      ok := true;
      while ok && j < e.cols
        invariant 0 <= j <= (if e.cols < 0 then 0 else e.cols)
        invariant At(state, path, ins) && newstate.Valid() && newstate.GetFlags() == old(newstate.GetFlags())
        invariant (log, ok) == Run(cb, start, old(log), scene.FlatCells(e, r, path, i, j))
      {
        CellStep(cb, start, old(log), scene, e, r, path, i, j);
        ok := TraverseCell(e, state, newstate, i, j, r, path, ins);
        j := j + 1;
      }
      if !ok {
        CellsStop(cb, start, old(log), scene, e, r, path, i, j, if e.cols < 0 then 0 else e.cols);
      }
    }

    method TraverseCell(e: Entity, state: TraversalState, newstate: TraversalState, i: nat, j: nat, ghost r: nat,
                        ghost path: seq<Frame>, ghost ins: Option<nat>)
      returns (ok: bool)
      requires At(state, path, ins) && scene.Exploded(e, r)
      requires newstate != state && newstate.Valid() && newstate.GetFlags() == state.GetFlags()
      requires newstate.currentInsert == Some(e.id)
      modifies this`log, newstate`matrix, newstate`flags
      ensures (log, ok) == Run(cb, start, old(log),
                               scene.FlatBlock(e.block.value, path + [scene.CellFrame(e, i, j)], Some(e.id)))
      ensures newstate.Valid() && newstate.GetFlags() == old(newstate.GetFlags())
      decreases r, 0, e, 0, 0
    {
      EnterCell(e, state, newstate, i, j, path, ins);
      ok := TraverseBlock(e.block.value, newstate, path + [scene.CellFrame(e, i, j)], Some(e.id));
    }

    method TraverseBlock(b: nat, state: TraversalState, ghost path: seq<Frame>, ghost ins: Option<nat>)
      returns (ok: bool)
      requires At(state, path, ins) && b in scene.blocks && b in scene.rank
      modifies this`log
      ensures (log, ok) == Run(cb, start, old(log), scene.FlatBlock(b, path, ins))
      decreases scene.rank[b], 1
    {
      var block := scene.blocks[b];
      ghost var body := scene.FlatList(block.entities, scene.rank[b], path, ins);
      ghost var tail := if block.endblock.Some? then [Item(block.endblock.value, path, ins, Abort)] else [];
      FlatListNested(scene, block.entities, scene.rank[b], path, ins);
      RunBlock(cb, start, log, Item(block.id, path, ins, Skip(|body|)), body, tail);
      assert scene.FlatBlock(b, path, ins) == [Item(block.id, path, ins, Skip(|body|))] + body + tail;
      var entered := Call(state, block.id);
      if entered {
        ok := TraverseList(block.entities, state, scene.rank[b], path, ins);
        if !ok {
          return;
        }
      }
      if block.endblock.Some? {
        RunOne(cb, start, log, tail[0]);
        ok := Call(state, block.endblock.value);
      } else {
        ok := true;
      }
    }

    method TraverseList(es: seq<Entity>, state: TraversalState, ghost r: nat, ghost path: seq<Frame>,
                        ghost ins: Option<nat>)
      returns (ok: bool)
      requires At(state, path, ins) && scene.Fits(es, r)
      modifies this`log
      ensures (log, ok) == Run(cb, start, old(log), scene.FlatList(es, r, path, ins))
      decreases r, 0, es
    {
      hide Run;
      RunNothing(cb, start, log);
      var i := 0;
      ok := true;
      while ok && i < |es|
        invariant i <= |es| && (log, ok) == Run(cb, start, old(log), scene.FlatList(es[..i], r, path, ins))
      {
        ListStep(cb, start, old(log), scene, es, r, path, ins, i);
        ok := TraverseEntity(es[i], state, r, path, ins);
        i := i + 1;
      }
      assert es[..|es|] == es;
      if !ok {
        ListStops(cb, start, old(log), scene, es, r, path, ins, i);
      }
    }

    /** The state that dimeModel::traverseEntities starts with. */
    method NewState() returns (state: TraversalState)
      requires scene.Valid() && start == Identity(4)
      ensures fresh(state) && At(state, [], None)
    {
      state := new TraversalState(scene.vertices, scene.explode);
      FlagBits(scene.vertices, scene.explode);
    }

    /** dimeModel::traverseEntities: the blocks if they are asked for, and then
        the entities. */
    method TraverseEntities(blocks: seq<nat>, es: seq<Entity>, traverseBlocks: bool, ghost r: nat) returns (ok: bool)
      requires scene.Valid() && start == Identity(4) && scene.Fits(es, r)
      requires forall i :: 0 <= i < |blocks| ==> blocks[i] in scene.blocks && blocks[i] in scene.rank
      modifies this`log
      ensures (log, ok) == Run(cb, start, old(log), FlatModel(scene, if traverseBlocks then blocks else [], es, r))
    {
      hide Run, FlatBlocks;
      var state := NewState();
      ghost var bs := if traverseBlocks then blocks else [];
      ModelParts(cb, start, log, scene, bs, es, r);
      ok := true;
      NoBlocks(cb, start, log, scene);
      if traverseBlocks {
        ok := TraverseBlocks(blocks, state);
      }
      if ok {
        ok := TraverseList(es, state, r, [], None);
      }
    }

    /** With a callback that accepts everything: the flattened model, in order,
        and each matrix maps a point by the placements along its path. */
    method SeeEntities(blocks: seq<nat>, es: seq<Entity>, traverseBlocks: bool, ghost r: nat) returns (ok: bool)
      requires scene.Valid() && start == Identity(4) && scene.Fits(es, r) && log == []
      requires forall i :: 0 <= i < |blocks| ==> blocks[i] in scene.blocks && blocks[i] in scene.rank
      requires forall l, v :: cb(l, v)
      modifies this`log
      ensures ok && log == Visits(Identity(4), FlatModel(scene, if traverseBlocks then blocks else [], es, r))
      ensures var items := FlatModel(scene, if traverseBlocks then blocks else [], es, r);
        forall i :: 0 <= i < |log| ==> PlacedAlong(log[i].matrix, items[i].path)
    {
      hide Run, FlatModel, VisitOf, PlacedAlong;
      ghost var items := FlatModel(scene, if traverseBlocks then blocks else [], es, r);
      ok := TraverseEntities(blocks, es, traverseBlocks, r);
      AcceptingSeesAll(cb, start, [], items);
      assert [] + Visits(start, items) == Visits(start, items);
      forall i | 0 <= i < |log|
        ensures PlacedAlong(log[i].matrix, items[i].path)
      {
        VisitIsPlaced(items[i]);
      }
    }

    method TraverseBlocks(blocks: seq<nat>, state: TraversalState) returns (ok: bool)
      requires At(state, [], None)
      requires forall i :: 0 <= i < |blocks| ==> blocks[i] in scene.blocks && blocks[i] in scene.rank
      modifies this`log
      ensures (log, ok) == Run(cb, start, old(log), FlatBlocks(scene, blocks))
    {
      hide Run, FlatBlocks;
      NoBlocks(cb, start, log, scene);
      ok := true;
      var i := 0;
      assert blocks[..0] == [];
      while ok && i < |blocks|
        invariant i <= |blocks| && (log, ok) == Run(cb, start, old(log), FlatBlocks(scene, blocks[..i]))
      {
        BlocksStep(cb, start, old(log), scene, blocks, i);
        ok := TraverseBlock(blocks[i], state, [], None);
        i := i + 1;
      }
      assert blocks[..|blocks|] == blocks;
      if !ok {
        BlocksStop(cb, start, old(log), scene, blocks, i);
      }
    }
  }

  // ----- the whole model -----

  /** The matrix maps each point by the placements of the path, one level at a
      time. */
  ghost predicate PlacedAlong(m: Mat, path: seq<Frame>) {
    Affine4(m) && Affine4(Identity(4))
    && forall p :: W(m, p) == 1.0 && Apply(m, p) == PathPoint(Identity(4), path, p)
  }

  lemma VisitIsPlaced(it: Item)
    ensures PlacedAlong(VisitOf(Identity(4), it).matrix, it.path)
  {
    assert Affine4(Identity(4));
    hide Apply, W, PathPoint, VisitOf;
    assert Affine4(VisitOf(Identity(4), it).matrix) by {
      VisitMatrix(Identity(4), it, Vec3(0.0, 0.0, 0.0));
    }
    forall p: Vec3
      ensures W(VisitOf(Identity(4), it).matrix, p) == 1.0
      ensures Apply(VisitOf(Identity(4), it).matrix, p) == PathPoint(Identity(4), it.path, p)
    {
      VisitMatrix(Identity(4), it, p);
    }
  }

  lemma FlagBits(vertices: bool, explode: bool)
    ensures var f := (if vertices then TRAVERSE_POLYLINE_VERTICES else 0) | (if explode then EXPLODE_INSERTS else 0);
      (f & EXPLODE_INSERTS != 0 <==> explode) && (f & TRAVERSE_POLYLINE_VERTICES != 0 <==> vertices)
  {
  }

  ghost function FlatBlocks(s: Scene, blocks: seq<nat>): seq<Item>
    requires s.Valid() && forall i :: 0 <= i < |blocks| ==> blocks[i] in s.blocks && blocks[i] in s.rank
  {
    if blocks == [] then []
    else FlatBlocks(s, blocks[..|blocks| - 1]) + s.FlatBlock(blocks[|blocks| - 1], [], None)
  }

  ghost function FlatModel(s: Scene, blocks: seq<nat>, es: seq<Entity>, r: nat): seq<Item>
    requires s.Valid() && s.Fits(es, r) && forall i :: 0 <= i < |blocks| ==>
      blocks[i] in s.blocks && blocks[i] in s.rank
  {
    FlatBlocks(s, blocks) + s.FlatList(es, r, [], None)
  }

  /** The blocks come first, in order, and then the entities. */
  lemma ModelOrder(s: Scene, blocks: seq<nat>, es: seq<Entity>, r: nat, a: nat, b: nat, id: nat)
    requires s.Valid() && s.Fits(es, r) && a in s.blocks && a in s.rank && b in s.blocks && b in s.rank
    requires blocks == [a, b] && es == [Simple(id, false)]
    ensures var items := FlatModel(s, blocks, es, r); var n := |s.FlatBlock(a, [], None)|;
      && |items| == n + |s.FlatBlock(b, [], None)| + 1
      && items[..n] == s.FlatBlock(a, [], None) && items[n..|items| - 1] == s.FlatBlock(b, [], None)
      && items[|items| - 1] == Item(id, [], None, Abort)
  {
    assert blocks[..1] == [a] && [a][..0] == [];
    assert FlatBlocks(s, []) == [];
    assert FlatBlocks(s, [a]) == [] + s.FlatBlock(a, [], None);
    assert FlatBlocks(s, blocks) == FlatBlocks(s, [a]) + s.FlatBlock(b, [], None);
    assert es[..0] == [] && s.FlatList([], r, [], None) == [];
    assert s.FlatList(es, r, [], None) == [] + [Item(id, [], None, Abort)];
    hide Scene.FlatBlock;
  }

  lemma {:induction false} FlatBlocksNested(s: Scene, blocks: seq<nat>)
    requires s.Valid() && forall i :: 0 <= i < |blocks| ==> blocks[i] in s.blocks && blocks[i] in s.rank
    ensures Nested(FlatBlocks(s, blocks))
  {
    if blocks != [] {
      FlatBlocksNested(s, blocks[..|blocks| - 1]);
      FlatBlockNested(s, blocks[|blocks| - 1], [], None);
      NestedConcat(FlatBlocks(s, blocks[..|blocks| - 1]), s.FlatBlock(blocks[|blocks| - 1], [], None));
    }
  }

  lemma NoBlocks(cb: Callback, start: Mat, log: seq<Visit>, s: Scene)
    requires Square(start, 4) && s.Valid()
    ensures Run(cb, start, log, FlatBlocks(s, [])) == (log, true)
  {
  }

  lemma ModelParts(cb: Callback, start: Mat, log: seq<Visit>, s: Scene, blocks: seq<nat>, es: seq<Entity>, r: nat)
    requires Square(start, 4) && s.Valid() && s.Fits(es, r)
    requires forall i :: 0 <= i < |blocks| ==> blocks[i] in s.blocks && blocks[i] in s.rank
    ensures var m := Run(cb, start, log, FlatBlocks(s, blocks));
      Run(cb, start, log, FlatModel(s, blocks, es, r))
      == if m.1 then Run(cb, start, m.0, s.FlatList(es, r, [], None)) else m
  {
    hide Run;
    FlatBlocksNested(s, blocks);
    RunConcat(cb, start, log, FlatBlocks(s, blocks), s.FlatList(es, r, [], None));
  }

  lemma BlocksStep(cb: Callback, start: Mat, log: seq<Visit>, s: Scene, blocks: seq<nat>, i: nat)
    requires Square(start, 4) && s.Valid() && i < |blocks|
    requires forall k :: 0 <= k < |blocks| ==> blocks[k] in s.blocks && blocks[k] in s.rank
    ensures var m := Run(cb, start, log, FlatBlocks(s, blocks[..i]));
      Run(cb, start, log, FlatBlocks(s, blocks[..i + 1]))
      == if m.1 then Run(cb, start, m.0, s.FlatBlock(blocks[i], [], None)) else m
  {
    hide Run;
    assert blocks[..i + 1][..i] == blocks[..i];
    FlatBlocksNested(s, blocks[..i]);
    RunConcat(cb, start, log, FlatBlocks(s, blocks[..i]), s.FlatBlock(blocks[i], [], None));
  }

  lemma {:induction false} BlocksStop(cb: Callback, start: Mat, log: seq<Visit>, s: Scene, blocks: seq<nat>, i: nat)
    requires Square(start, 4) && s.Valid() && i <= |blocks|
    requires forall k :: 0 <= k < |blocks| ==> blocks[k] in s.blocks && blocks[k] in s.rank
    requires !Run(cb, start, log, FlatBlocks(s, blocks[..i])).1
    ensures Run(cb, start, log, FlatBlocks(s, blocks)) == Run(cb, start, log, FlatBlocks(s, blocks[..i]))
    decreases |blocks| - i
  {
    hide Run;
    if i < |blocks| {
      BlocksStep(cb, start, log, s, blocks, i);
      BlocksStop(cb, start, log, s, blocks, i + 1);
    } else {
      assert blocks[..i] == blocks;
    }
  }

  lemma RunNothing(cb: Callback, start: Mat, log: seq<Visit>)
    requires Square(start, 4)
    ensures Run(cb, start, log, []) == (log, true)
  {
  }

  lemma RunOne(cb: Callback, start: Mat, log: seq<Visit>, it: Item)
    requires Square(start, 4)
    ensures var v := VisitOf(start, it);
      Run(cb, start, log, [it]) == (log + [v], cb(log, v) || !it.refused.Abort?)
  {
    var v := VisitOf(start, it);
    assert [it][1..] == [];
    assert Run(cb, start, log + [v], []) == (log + [v], true);
  }

  lemma RunBlock(cb: Callback, start: Mat, log: seq<Visit>, head: Item, body: seq<Item>, tail: seq<Item>)
    requires Square(start, 4) && Nested(body) && head.refused == Skip(|body|)
    ensures var v := VisitOf(start, head);
      Run(cb, start, log, [head] + body + tail)
      == if cb(log, v) then (var m := Run(cb, start, log + [v], body); if m.1 then Run(cb, start, m.0, tail) else m)
         else Run(cb, start, log + [v], tail)
  {
    var v, all := VisitOf(start, head), [head] + body + tail;
    assert all[0] == head && all[1..] == body + tail && all[1 + |body|..] == tail;
    RunConcat(cb, start, log + [v], body, tail);
    if |body| + 1 == |all| {
      assert tail == [];
    }
  }

  lemma ListStep(cb: Callback, start: Mat, log: seq<Visit>, s: Scene, es: seq<Entity>, r: nat,
                 path: seq<Frame>, ins: Option<nat>, i: nat)
    requires Square(start, 4) && s.Valid() && s.Fits(es, r) && i < |es|
    ensures var m := Run(cb, start, log, s.FlatList(es[..i], r, path, ins));
      Run(cb, start, log, s.FlatList(es[..i + 1], r, path, ins))
      == if m.1 then Run(cb, start, m.0, s.FlatEntity(es[i], r, path, ins)) else m
  {
    hide Run;
    assert es[..i + 1][..i] == es[..i];
    FlatListNested(s, es[..i], r, path, ins);
    RunConcat(cb, start, log, s.FlatList(es[..i], r, path, ins), s.FlatEntity(es[i], r, path, ins));
  }

  lemma {:induction false} ListStops(cb: Callback, start: Mat, log: seq<Visit>, s: Scene, es: seq<Entity>, r: nat,
                                     path: seq<Frame>, ins: Option<nat>, i: nat)
    requires Square(start, 4) && s.Valid() && s.Fits(es, r) && i <= |es|
    requires !Run(cb, start, log, s.FlatList(es[..i], r, path, ins)).1
    ensures Run(cb, start, log, s.FlatList(es, r, path, ins)) == Run(cb, start, log, s.FlatList(es[..i], r, path, ins))
    decreases |es| - i
  {
    hide Run;
    if i < |es| {
      ListStep(cb, start, log, s, es, r, path, ins, i);
      ListStops(cb, start, log, s, es, r, path, ins, i + 1);
    } else {
      assert es[..i] == es;
    }
  }

  lemma RowStep(cb: Callback, start: Mat, log: seq<Visit>, s: Scene, e: Entity, r: nat, path: seq<Frame>, i: nat)
    requires Square(start, 4) && s.Valid() && s.Exploded(e, r)
    ensures var m := Run(cb, start, log, s.FlatRows(e, r, path, i));
      Run(cb, start, log, s.FlatRows(e, r, path, i + 1))
      == if m.1 then Run(cb, start, m.0, s.FlatCells(e, r, path, i, if e.cols < 0 then 0 else e.cols)) else m
  {
    hide Run;
    FlatRowsNested(s, e, r, path, i);
    RunConcat(cb, start, log, s.FlatRows(e, r, path, i), s.FlatCells(e, r, path, i, if e.cols < 0 then 0 else e.cols));
  }

  lemma CellStep(cb: Callback, start: Mat, log: seq<Visit>, s: Scene, e: Entity, r: nat, path: seq<Frame>, i: nat,
                 j: nat)
    requires Square(start, 4) && s.Valid() && s.Exploded(e, r)
    ensures var m := Run(cb, start, log, s.FlatCells(e, r, path, i, j));
      Run(cb, start, log, s.FlatCells(e, r, path, i, j + 1))
      == if m.1 then Run(cb, start, m.0, s.FlatBlock(e.block.value, path + [s.CellFrame(e, i, j)], Some(e.id))) else m
  {
    hide Run;
    FlatCellsNested(s, e, r, path, i, j);
    RunConcat(cb, start, log, s.FlatCells(e, r, path, i, j),
              s.FlatBlock(e.block.value, path + [s.CellFrame(e, i, j)], Some(e.id)));
  }

  lemma {:induction false} CellsStop(cb: Callback, start: Mat, log: seq<Visit>, s: Scene, e: Entity, r: nat,
                                     path: seq<Frame>, i: nat, j: nat, n: nat)
    requires Square(start, 4) && s.Valid() && s.Exploded(e, r) && j <= n
    requires !Run(cb, start, log, s.FlatCells(e, r, path, i, j)).1
    ensures Run(cb, start, log, s.FlatCells(e, r, path, i, n)) == Run(cb, start, log, s.FlatCells(e, r, path, i, j))
    decreases n - j
  {
    hide Run;
    if j < n {
      CellStep(cb, start, log, s, e, r, path, i, j);
      CellsStop(cb, start, log, s, e, r, path, i, j + 1, n);
    }
  }

  lemma {:induction false} RowsStop(cb: Callback, start: Mat, log: seq<Visit>, s: Scene, e: Entity, r: nat,
                                    path: seq<Frame>, i: nat, n: nat)
    requires Square(start, 4) && s.Valid() && s.Exploded(e, r) && i <= n
    requires !Run(cb, start, log, s.FlatRows(e, r, path, i)).1
    ensures Run(cb, start, log, s.FlatRows(e, r, path, n)) == Run(cb, start, log, s.FlatRows(e, r, path, i))
    decreases n - i
  {
    hide Run;
    if i < n {
      RowStep(cb, start, log, s, e, r, path, i);
      RowsStop(cb, start, log, s, e, r, path, i + 1, n);
    }
  }

  // ----- what the traversal is for -----

  function Visits(start: Mat, items: seq<Item>): (vs: seq<Visit>)
    requires |start| == 4 && forall i :: 0 <= i < 4 ==> |start[i]| == 4
    ensures |vs| == |items| && forall i :: 0 <= i < |items| ==> vs[i] == VisitOf(start, items[i])
  {
    seq(|items|, i requires 0 <= i < |items| => VisitOf(start, items[i]))
  }

  /** A callback that accepts everything sees exactly the flattened drawing. */
  lemma {:induction false} AcceptingSeesAll(cb: Callback, start: Mat, log: seq<Visit>, items: seq<Item>)
    requires Square(start, 4) && forall l, v :: cb(l, v)
    ensures Run(cb, start, log, items) == (log + Visits(start, items), true)
    decreases |items|
  {
    hide VisitOf;
    if items == [] {
      assert log + Visits(start, items) == log;
    } else {
      var v := VisitOf(start, items[0]);
      AcceptingSeesAll(cb, start, log + [v], items[1..]);
      VisitsShift(start, log, items, |items| - 1);
      assert items[1..][..|items| - 1] == items[1..] && items[..|items|] == items;
    }
  }

  /** The callback accepts visit k when it has seen the k visits before it. */
  predicate Accepts(cb: Callback, start: Mat, log: seq<Visit>, items: seq<Item>, k: nat)
    requires k < |items| && |start| == 4 && forall i :: 0 <= i < 4 ==> |start[i]| == 4
  {
    cb(log + Visits(start, items[..k]), VisitOf(start, items[k]))
  }

  lemma AcceptsShift(cb: Callback, start: Mat, log: seq<Visit>, items: seq<Item>, k: nat)
    requires Square(start, 4) && 0 < k < |items|
    ensures Accepts(cb, start, log, items, k)
        <==> Accepts(cb, start, log + [VisitOf(start, items[0])], items[1..], k - 1)
  {
    VisitsShift(start, log, items, k - 1);
  }

  /** The visits are those of the first n items, all accepted except the last
      one when the answer is false. */
  ghost predicate StopsAt(cb: Callback, start: Mat, log: seq<Visit>, items: seq<Item>, n: nat)
    requires Square(start, 4)
  {
    var (seen, ok) := Run(cb, start, log, items);
    && n <= |items| && seen == log + Visits(start, items[..n])
    && (forall k :: 0 <= k < n ==> (Accepts(cb, start, log, items, k) <==> (k < n - 1 || ok)))
    && (if ok then n == |items| else n > 0)
  }

  lemma StopsShift(cb: Callback, start: Mat, log: seq<Visit>, items: seq<Item>, m: nat)
    requires Square(start, 4) && items != [] && cb(log, VisitOf(start, items[0]))
    requires StopsAt(cb, start, log + [VisitOf(start, items[0])], items[1..], m)
    ensures StopsAt(cb, start, log, items, m + 1)
  {
    hide Run, Accepts, VisitOf, Visits;
    var ok := Run(cb, start, log, items).1;
    FirstAccepted(cb, start, log, items);
    VisitsShift(start, log, items, m);
    forall k | 0 < k < m + 1
      ensures Accepts(cb, start, log, items, k) <==> (k < m || ok)
    {
      AcceptsShift(cb, start, log, items, k);
    }
  }

  lemma FirstAccepted(cb: Callback, start: Mat, log: seq<Visit>, items: seq<Item>)
    requires Square(start, 4) && items != [] && cb(log, VisitOf(start, items[0]))
    ensures Run(cb, start, log, items) == Run(cb, start, log + [VisitOf(start, items[0])], items[1..])
    ensures Accepts(cb, start, log, items, 0)
  {
    hide VisitOf;
    assert log + Visits(start, items[..0]) == log;
  }

  lemma VisitsShift(start: Mat, log: seq<Visit>, items: seq<Item>, m: nat)
    requires Square(start, 4) && m < |items|
    ensures log + [VisitOf(start, items[0])] + Visits(start, items[1..][..m]) == log + Visits(start, items[..m + 1])
  {
    hide VisitOf;
  }

  /** A callback that never refuses a block or a POLYLINE sees the flattened
      drawing up to and including the first visit it refuses, and no further. */
  lemma {:induction false} StopsAtFirstRefusal(cb: Callback, start: Mat, log: seq<Visit>, items: seq<Item>)
    returns (n: nat)
    requires Square(start, 4)
    requires forall l, it :: it in items && !it.refused.Abort? ==> cb(l, VisitOf(start, it))
    ensures StopsAt(cb, start, log, items, n)
    decreases |items|
  {
    if items == [] {
      n := 0;
      assert log + Visits(start, items[..0]) == log;
    } else if cb(log, VisitOf(start, items[0])) {
      assert forall it :: it in items[1..] ==> it in items;
      var m := StopsAtFirstRefusal(cb, start, log + [VisitOf(start, items[0])], items[1..]);
      StopsShift(cb, start, log, items, m);
      n := m + 1;
    } else {
      n := 1;
      assert log + [VisitOf(start, items[0])] == log + Visits(start, items[..1]);
      assert log + Visits(start, items[..0]) == log;
    }
  }

  /** A callback that refuses a block sees its end, and nothing in between. */
  lemma RefusedBlock(cb: Callback, start: Mat, log: seq<Visit>, s: Scene, b: nat, path: seq<Frame>, ins: Option<nat>)
    requires Square(start, 4) && s.Valid() && b in s.blocks && b in s.rank
    requires !cb(log, Visit(s.blocks[b].id, PathMatrix(start, path), ins))
    ensures var v := Visit(s.blocks[b].id, PathMatrix(start, path), ins);
      Run(cb, start, log, s.FlatBlock(b, path, ins))
      == match s.blocks[b].endblock
         case None => (log + [v], true)
         case Some(id) =>
           var w := Visit(id, PathMatrix(start, path), ins);
           (log + [v] + [w], cb(log + [v], w))
  {
    var block := s.blocks[b];
    var body := s.FlatList(block.entities, s.rank[b], path, ins);
    var v := Visit(block.id, PathMatrix(start, path), ins);
    FlatListNested(s, block.entities, s.rank[b], path, ins);
    hide Scene.FlatList, PathMatrix, Run;
    var tail := if block.endblock.Some? then [Item(block.endblock.value, path, ins, Abort)] else [];
    RunBlock(cb, start, log, Item(block.id, path, ins, Skip(|body|)), body, tail);
    if block.endblock.Some? {
      RunOne(cb, start, log + [v], tail[0]);
    } else {
      RunNothing(cb, start, log + [v]);
    }
  }

  /** The answer for a POLYLINE is not looked at; that for an entity that is not
      deleted ends the traversal; a deleted one is not shown. */
  lemma RefusedEntities(cb: Callback, start: Mat, log: seq<Visit>, s: Scene, id: nat, r: nat, path: seq<Frame>,
                        ins: Option<nat>)
    requires Square(start, 4) && s.Valid()
    ensures s.Below(Polyline(id, false, []), r) && s.Below(Simple(id, false), r) && s.Below(Simple(id, true), r)
    ensures var v := Visit(id, PathMatrix(start, path), ins);
      && Run(cb, start, log, s.FlatEntity(Polyline(id, false, []), r, path, ins)) == (log + [v], true)
      && Run(cb, start, log, s.FlatEntity(Simple(id, false), r, path, ins)) == (log + [v], cb(log, v))
      && Run(cb, start, log, s.FlatEntity(Simple(id, true), r, path, ins)) == (log, true)
  {
    var it := Item(id, path, ins, Ignore);
    assert s.FlatList([], r, path, ins) == [];
    assert s.FlatEntity(Polyline(id, false, []), r, path, ins) == [it];
    assert s.FlatEntity(Simple(id, false), r, path, ins) == [Item(id, path, ins, Abort)];
    assert s.FlatEntity(Simple(id, true), r, path, ins) == [];
    hide Run, PathMatrix;
    RunOne(cb, start, log, it);
    RunOne(cb, start, log, Item(id, path, ins, Abort));
    RunNothing(cb, start, log);
  }

  /** The matrix a visit sees maps each point by the placements along the
      visit's path, applied one level at a time. */
  lemma VisitMatrix(start: Mat, it: Item, p: Vec3)
    requires Affine4(start)
    ensures var m := VisitOf(start, it).matrix;
      Affine4(m) && W(m, p) == 1.0 && Apply(m, p) == PathPoint(start, it.path, p)
  {
    PathActs(start, it.path, p);
  }

  // ----- counting -----

  /** Items that visit something: their number does not depend on the place. */
  lemma {:induction false} BlockCopiesAlike(s: Scene, b: nat, p: seq<Frame>, q: seq<Frame>, i: Option<nat>,
                                            j: Option<nat>)
    requires s.Valid() && b in s.blocks && b in s.rank
    ensures |s.FlatBlock(b, p, i)| == |s.FlatBlock(b, q, j)|
    decreases s.rank[b], 1
  {
    ListCopiesAlike(s, s.blocks[b].entities, s.rank[b], p, q, i, j);
  }

  lemma {:induction false} ListCopiesAlike(s: Scene, es: seq<Entity>, r: nat, p: seq<Frame>, q: seq<Frame>,
                                           i: Option<nat>, j: Option<nat>)
    requires s.Valid() && s.Fits(es, r)
    ensures |s.FlatList(es, r, p, i)| == |s.FlatList(es, r, q, j)|
    decreases r, 0, es
  {
    if es != [] {
      ListCopiesAlike(s, es[..|es| - 1], r, p, q, i, j);
      EntityCopiesAlike(s, es[|es| - 1], r, p, q, i, j);
    }
  }

  lemma {:induction false} EntityCopiesAlike(s: Scene, e: Entity, r: nat, p: seq<Frame>, q: seq<Frame>, i: Option<nat>,
                                             j: Option<nat>)
    requires s.Valid() && s.Below(e, r)
    ensures |s.FlatEntity(e, r, p, i)| == |s.FlatEntity(e, r, q, j)|
    decreases r, 0, e, 3, 0
  {
    match e
    case Simple(_, _) =>
    case Polyline(_, _, vs) =>
      ListCopiesAlike(s, vs, r, p, q, i, j);
    case Insert(id, _, b, _, rows, _, _, _, subs) =>
      ListCopiesAlike(s, subs, r, p + [s.SubFrame(e)], q + [s.SubFrame(e)], Some(id), Some(id));
      if b.Some? && s.explode {
        var n := if rows < 0 then 0 else rows;
        RowCount(s, e, r, p, n, p, i);
        RowCount(s, e, r, q, n, p, i);
      }
  }

  lemma {:induction false} CellCount(s: Scene, e: Entity, r: nat, path: seq<Frame>, i: nat, j: nat, q: seq<Frame>,
                                     o: Option<nat>)
    requires s.Valid() && s.Exploded(e, r)
    ensures |s.FlatCells(e, r, path, i, j)| == j * |s.FlatBlock(e.block.value, q, o)|
    decreases r, 0, e, 1, j
  {
    if j > 0 {
      CellCount(s, e, r, path, i, j - 1, q, o);
      BlockCopiesAlike(s, e.block.value, path + [s.CellFrame(e, i, j - 1)], q, Some(e.id), o);
      assert j * |s.FlatBlock(e.block.value, q, o)|
          == (j - 1) * |s.FlatBlock(e.block.value, q, o)| + |s.FlatBlock(e.block.value, q, o)|;
    }
  }

  /** i rows of an exploded INSERT are i * columns copies of its block. */
  lemma {:induction false} RowCount(s: Scene, e: Entity, r: nat, path: seq<Frame>, i: nat, q: seq<Frame>,
                                    o: Option<nat>)
    requires s.Valid() && s.Exploded(e, r)
    ensures var cols := if e.cols < 0 then 0 else e.cols;
      |s.FlatRows(e, r, path, i)| == i * cols * |s.FlatBlock(e.block.value, q, o)|
    decreases r, 0, e, 2, i
  {
    if i > 0 {
      var cols := if e.cols < 0 then 0 else e.cols;
      var n := |s.FlatBlock(e.block.value, q, o)|;
      RowCount(s, e, r, path, i - 1, q, o);
      CellCount(s, e, r, path, i - 1, cols, q, o);
      Distributes(i - 1, cols, n);
    }
  }

  lemma Distributes(i: nat, c: nat, n: nat)
    ensures i * c * n + c * n == (i + 1) * c * n
  {
    assert (i + 1) * c == i * c + c;
    assert (i * c + c) * n == i * c * n + c * n;
  }
}
