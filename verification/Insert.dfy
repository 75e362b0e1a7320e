/** Traversal with exploded INSERTs (src/entities/Insert.cpp, Block.cpp,
    Entity.cpp, Polyline.cpp): the order of the callbacks and the matrix each
    callback is given. */
module Insert {
  import opened Wrappers
  import opened LinearAlgebra
  import opened Affine
  import opened Placement

  datatype Entity =
    | Simple(id: nat, deleted: bool)
    | Polyline(id: nat, deleted: bool, vertices: seq<Entity>)
    | Insert(id: nat, deleted: bool, block: Option<nat>, place: Place, rows: int, cols: int,
             rowSpacing: real, colSpacing: real, subs: seq<Entity>)

  datatype Block = Block(id: nat, base: Vec3, entities: seq<Entity>, endblock: Option<nat>)

  /** One call of the callback: the entity, and what it finds in the state. */
  datatype Visit = Visit(id: nat, matrix: Mat, insert: Option<nat>)

  /** The callback may depend on everything it has seen before. */
  type Callback = (seq<Visit>, Visit) -> bool

  // ----- the flattened drawing -----

  /** What a refused visit does: end the traversal, nothing (the source ignores
      the answer for a POLYLINE), or skip the block's n following items. */
  datatype Refusal = Abort | Ignore | Skip(n: nat)

  datatype Item = Item(id: nat, path: seq<Frame>, insert: Option<nat>, refused: Refusal)

  /** A drawing, the traversal flags, and the proof that the drawing is acyclic. */
  datatype Scene = Scene(blocks: map<nat, Block>, ghost rank: map<nat, nat>, explode: bool, vertices: bool) {

    /** Every INSERT inside e refers to a block, of rank below r if INSERTs are
        exploded. */
    ghost predicate Below(e: Entity, r: nat) {
      match e
      case Simple(_, _) => true
      case Polyline(_, _, vs) => forall v :: v in vs ==> Below(v, r)
      case Insert(_, _, b, _, _, _, _, _, subs) =>
        && (b.Some? ==> b.value in blocks && (explode ==> b.value in rank && rank[b.value] < r))
        && forall v :: v in subs ==> Below(v, r)
    }

    /** The block references are acyclic, if they are followed at all. */
    ghost predicate Valid() {
      forall b :: b in blocks && b in rank ==> Fits(blocks[b].entities, rank[b])
    }

    ghost predicate Fits(es: seq<Entity>, r: nat) {
      forall e :: e in es ==> Below(e, r)
    }

    /** e is an INSERT that shows copies of its block. */
    ghost predicate Exploded(e: Entity, r: nat) {
      Below(e, r) && e.Insert? && e.block.Some? && explode
    }

    function SubFrame(e: Entity): Frame
      requires e.Insert? && (e.block.Some? ==> e.block.value in blocks)
    {
      if e.block.None? then Reset else Placed(None, e.place, blocks[e.block.value].base)
    }

    function CellFrame(e: Entity, i: nat, j: nat): Frame
      requires e.Insert? && e.block.Some? && e.block.value in blocks
    {
      Placed(Some(Cell(i, j, e.rowSpacing, e.colSpacing)), e.place, blocks[e.block.value].base)
    }

    ghost function FlatEntity(e: Entity, r: nat, path: seq<Frame>, ins: Option<nat>): seq<Item>
      requires Valid() && Below(e, r)
      decreases r, 0, e, 3, 0
    {
      match e
      case Simple(id, deleted) => if deleted then [] else [Item(id, path, ins, Abort)]
      case Polyline(id, deleted, vs) =>
        if deleted then []
        else [Item(id, path, ins, Ignore)] + (if vertices then FlatList(vs, r, path, ins) else [])
      case Insert(id, deleted, block, _, rows, cols, _, _, subs) =>
        (if block.Some? && explode then FlatRows(e, r, path, if rows < 0 then 0 else rows)
         else if deleted then [] else [Item(id, path, ins, Abort)])
        + FlatList(subs, r, path + [SubFrame(e)], Some(id))
    }

    /** The first i rows of copies of an INSERT's block. */
    ghost function FlatRows(e: Entity, r: nat, path: seq<Frame>, i: nat): seq<Item>
      requires Valid() && Exploded(e, r)
      decreases r, 0, e, 2, i
    {
      if i == 0 then []
      else FlatRows(e, r, path, i - 1) + FlatCells(e, r, path, i - 1, if e.cols < 0 then 0 else e.cols)
    }

    /** The first j cells of row i. */
    ghost function FlatCells(e: Entity, r: nat, path: seq<Frame>, i: nat, j: nat): seq<Item>
      requires Valid() && Exploded(e, r)
      decreases r, 0, e, 1, j
    {
      if j == 0 then []
      else FlatCells(e, r, path, i, j - 1) + FlatBlock(e.block.value, path + [CellFrame(e, i, j - 1)], Some(e.id))
    }

    ghost function FlatBlock(b: nat, path: seq<Frame>, ins: Option<nat>): seq<Item>
      requires Valid() && b in blocks && b in rank
      decreases rank[b], 1
    {
      var body := FlatList(blocks[b].entities, rank[b], path, ins);
      [Item(blocks[b].id, path, ins, Skip(|body|))] + body
      + (if blocks[b].endblock.Some? then [Item(blocks[b].endblock.value, path, ins, Abort)] else [])
    }

    ghost function FlatList(es: seq<Entity>, r: nat, path: seq<Frame>, ins: Option<nat>): seq<Item>
      requires Valid() && Fits(es, r)
      decreases r, 0, es
    {
      if es == [] then []
      else FlatList(es[..|es| - 1], r, path, ins) + FlatEntity(es[|es| - 1], r, path, ins)
    }
  }

  // ----- running a callback over the flattened drawing -----

  function VisitOf(start: Mat, it: Item): Visit
    requires |start| == 4 && forall i :: 0 <= i < 4 ==> |start[i]| == 4
  {
    Visit(it.id, PathMatrix(start, it.path), it.insert)
  }

  /** The log and the answer after the items, given the log so far. */
  function Run(cb: Callback, start: Mat, log: seq<Visit>, items: seq<Item>): (seq<Visit>, bool)
    requires |start| == 4 && forall i :: 0 <= i < 4 ==> |start[i]| == 4
    decreases |items|
  {
    if items == [] then (log, true)
    else
      var v := VisitOf(start, items[0]);
      if cb(log, v) || items[0].refused.Ignore? then Run(cb, start, log + [v], items[1..])
      else if items[0].refused.Abort? then (log + [v], false)
      else Run(cb, start, log + [v], if items[0].refused.n < |items| then items[1 + items[0].refused.n..] else [])
  }

  /** No item skips past the end. */
  ghost predicate Nested(items: seq<Item>) {
    forall i :: 0 <= i < |items| && items[i].refused.Skip? ==> i + 1 + items[i].refused.n <= |items|
  }

  lemma {:induction false} RunConcat(cb: Callback, start: Mat, log: seq<Visit>, a: seq<Item>, b: seq<Item>)
    requires Square(start, 4) && Nested(a)
    ensures Run(cb, start, log, a + b)
         == (var m := Run(cb, start, log, a); if m.1 then Run(cb, start, m.0, b) else m)
    decreases |a|
  {
    if a == [] {
      assert a + b == b;
    } else {
      hide VisitOf;
      var v := VisitOf(start, a[0]);
      assert (a + b)[0] == a[0] && (a + b)[1..] == a[1..] + b;
      if cb(log, v) || a[0].refused.Ignore? {
        NestedSuffix(a, 1);
        RunConcat(cb, start, log + [v], a[1..], b);
      } else if a[0].refused.Skip? {
        var n := 1 + a[0].refused.n;
        SkipsWithin(a, b, n);
        RunConcat(cb, start, log + [v], a[n..], b);
      }
    }
  }

  /** What follows the items that a refused block skips. */
  lemma SkipsWithin(a: seq<Item>, b: seq<Item>, n: nat)
    requires Nested(a) && a != [] && a[0].refused.Skip? && n == 1 + a[0].refused.n
    ensures n <= |a| && Nested(a[n..])
    ensures (if n < |a| then a[n..] else []) == a[n..]
    ensures (if n < |a + b| then (a + b)[n..] else []) == a[n..] + b
  {
    NestedSuffix(a, n);
    assert (a + b)[n..] == a[n..] + b;
  }

  lemma NestedSuffix(a: seq<Item>, n: nat)
    requires Nested(a) && n <= |a|
    ensures Nested(a[n..])
  {
    forall i | 0 <= i < |a| - n && a[n..][i].refused.Skip?
      ensures i + 1 + a[n..][i].refused.n <= |a| - n
    {
      assert a[n + i].refused.Skip?;
    }
  }

  lemma NestedConcat(a: seq<Item>, b: seq<Item>)
    requires Nested(a) && Nested(b)
    ensures Nested(a + b)
  {
    forall i | 0 <= i < |a + b| && (a + b)[i].refused.Skip?
      ensures i + 1 + (a + b)[i].refused.n <= |a + b|
    {
      if i >= |a| {
        assert b[i - |a|].refused.Skip?;
      }
    }
  }

  lemma {:induction false} FlatNested(s: Scene, e: Entity, r: nat, path: seq<Frame>, ins: Option<nat>)
    requires s.Valid() && s.Below(e, r)
    ensures Nested(s.FlatEntity(e, r, path, ins))
    decreases r, 0, e, 3, 0
  {
    match e
    case Simple(_, _) =>
    case Polyline(id, deleted, vs) =>
      if s.vertices {
        FlatListNested(s, vs, r, path, ins);
        NestedConcat([Item(id, path, ins, Ignore)], s.FlatList(vs, r, path, ins));
      }
    case Insert(id, deleted, block, _, rows, _, _, _, subs) =>
      var sub := s.FlatList(subs, r, path + [s.SubFrame(e)], Some(id));
      FlatListNested(s, subs, r, path + [s.SubFrame(e)], Some(id));
      if block.Some? && s.explode {
        var n := if rows < 0 then 0 else rows;
        FlatRowsNested(s, e, r, path, n);
        NestedConcat(s.FlatRows(e, r, path, n), sub);
      } else {
        NestedConcat(if deleted then [] else [Item(id, path, ins, Abort)], sub);
      }
  }

  lemma {:induction false} FlatRowsNested(s: Scene, e: Entity, r: nat, path: seq<Frame>, i: nat)
    requires s.Valid() && s.Exploded(e, r)
    ensures Nested(s.FlatRows(e, r, path, i))
    decreases r, 0, e, 2, i
  {
    if i > 0 {
      var cols := if e.cols < 0 then 0 else e.cols;
      FlatRowsNested(s, e, r, path, i - 1);
      FlatCellsNested(s, e, r, path, i - 1, cols);
      NestedConcat(s.FlatRows(e, r, path, i - 1), s.FlatCells(e, r, path, i - 1, cols));
    }
  }

  lemma {:induction false} FlatCellsNested(s: Scene, e: Entity, r: nat, path: seq<Frame>, i: nat, j: nat)
    requires s.Valid() && s.Exploded(e, r)
    ensures Nested(s.FlatCells(e, r, path, i, j))
    decreases r, 0, e, 1, j
  {
    if j > 0 {
      var p := path + [s.CellFrame(e, i, j - 1)];
      FlatCellsNested(s, e, r, path, i, j - 1);
      FlatBlockNested(s, e.block.value, p, Some(e.id));
      NestedConcat(s.FlatCells(e, r, path, i, j - 1), s.FlatBlock(e.block.value, p, Some(e.id)));
    }
  }

  lemma {:induction false} FlatBlockNested(s: Scene, b: nat, path: seq<Frame>, ins: Option<nat>)
    requires s.Valid() && b in s.blocks && b in s.rank
    ensures Nested(s.FlatBlock(b, path, ins))
    decreases s.rank[b], 1
  {
    var block := s.blocks[b];
    var body := s.FlatList(block.entities, s.rank[b], path, ins);
    var tail := if block.endblock.Some? then [Item(block.endblock.value, path, ins, Abort)] else [];
    FlatListNested(s, block.entities, s.rank[b], path, ins);
    NestedConcat(body, tail);
    var all := [Item(block.id, path, ins, Skip(|body|))] + (body + tail);
    forall i | 0 <= i < |all| && all[i].refused.Skip? ensures i + 1 + all[i].refused.n <= |all| {
      if i > 0 {
        assert (body + tail)[i - 1].refused.Skip?;
      }
    }
    assert s.FlatBlock(b, path, ins) == all;
  }

  lemma {:induction false} FlatListNested(s: Scene, es: seq<Entity>, r: nat, path: seq<Frame>, ins: Option<nat>)
    requires s.Valid() && s.Fits(es, r)
    ensures Nested(s.FlatList(es, r, path, ins))
    decreases r, 0, es
  {
    if es != [] {
      var init, last := es[..|es| - 1], es[|es| - 1];
      FlatListNested(s, init, r, path, ins);
      FlatNested(s, last, r, path, ins);
      NestedConcat(s.FlatList(init, r, path, ins), s.FlatEntity(last, r, path, ins));
    }
  }
}
