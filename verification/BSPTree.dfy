/** The point index of src/util/BSPTree.cpp: a tree whose leaves hold indices
    into one shared array of points. */
module BSPTree {
  import opened Affine
  import opened Box

  class PointArray {
    var elems: seq<Vec3>

    constructor ()
      ensures elems == []
    {
      elems := [];
    }
  }

  ghost predicate Distinct(s: seq<int>) {
    forall i, j :: 0 <= i < j < |s| ==> s[i] != s[j]
  }

  ghost function Elements(s: seq<int>): set<int> {
    set x | x in s
  }

  ghost predicate InBounds(pts: seq<Vec3>, live: set<int>) {
    forall i :: i in live ==> 0 <= i < |pts| && InRange(pts[i])
  }

  /** Different live indices name different points. */
  ghost predicate Apart(pts: seq<Vec3>, live: set<int>)
    requires InBounds(pts, live)
  {
    forall i, j :: i in live && j in live && i != j ==> pts[i] != pts[j]
  }

  lemma ApartSubset(pts: seq<Vec3>, live: set<int>, sub: set<int>)
    requires InBounds(pts, live) && Apart(pts, live) && sub <= live
    ensures InBounds(pts, sub) && Apart(pts, sub)
  {
  }

  /** idx is a live index of pt, or -1 when pt is not live. */
  ghost predicate Finds(pts: seq<Vec3>, live: set<int>, pt: Vec3, idx: int)
    requires InBounds(pts, live)
  {
    if idx == -1 then forall i :: i in live ==> pts[i] != pt
    else idx in live && pts[idx] == pt
  }

  class Node {
    var left: Node?
    var right: Node?
    var dimension: int
    var position: real
    var indices: seq<int>
    const points: PointArray
    ghost var Repr: set<object>
    ghost var Live: set<int>

    predicate LeftOf(pt: Vec3)
      reads this
    {
      At(pt, dimension) < position
    }

    /** The structure below this node, for the points pts: children do not
        share nodes or indices, every live point is on the side of the plane
        that LeftOf routes it to, and no leaf holds more than max indices. */
    ghost predicate Valid(pts: seq<Vec3>, max: int)
      reads this, Repr
      decreases Repr
    {
      && this in Repr && points !in Repr && (left == null <==> right == null)
      && InBounds(pts, Live)
      && if left == null then
           Distinct(indices) && Live == Elements(indices) && |indices| <= max
         else
           && left in Repr && right in Repr && left.Repr <= Repr && right.Repr <= Repr
           && this !in left.Repr && this !in right.Repr && left.Repr !! right.Repr
           && left.points == points && right.points == points
           && left.Valid(pts, max) && right.Valid(pts, max)
           && 0 <= dimension < 3
           && left.Live !! right.Live && Live == left.Live + right.Live
           && (forall i :: i in left.Live ==> LeftOf(pts[i]))
           && (forall i :: i in right.Live ==> !LeftOf(pts[i]))
    }

    /** The leaf that pt belongs to has no room left. */
    ghost predicate LeafFull(pt: Vec3, pts: seq<Vec3>, max: int)
      requires Valid(pts, max)
      reads this, Repr
      decreases Repr
    {
      if left == null then |indices| >= max
      else if LeftOf(pt) then left.LeafFull(pt, pts, max)
      else right.LeafFull(pt, pts, max)
    }

    constructor (ps: PointArray)
      ensures left == null && right == null && indices == [] && points == ps
      ensures Repr == {this} && Live == {}
      ensures forall pts, max :: max >= 0 ==> Valid(pts, max)
    {
      left, right := null, null;
      points := ps;
      dimension, position := 3, 0.0;
      indices := [];
      Repr := {this};
      Live := {};
    }

    lemma Extend(pts: seq<Vec3>, more: seq<Vec3>, max: int)
      requires Valid(pts, max)
      ensures Valid(pts + more, max)
      decreases Repr
    {
      if left != null {
        left.Extend(pts, more, max);
        right.Extend(pts, more, max);
      }
    }

    /** The position of pt among the indices of a leaf, or their number. */
    method Search(pt: Vec3, ghost max: int) returns (i: nat)
      requires left == null && Valid(points.elems, max)
      ensures i <= |indices|
      ensures i < |indices| ==> indices[i] in Live && points.elems[indices[i]] == pt
      ensures i == |indices| ==> forall k :: k in Live ==> points.elems[k] != pt
    {
      assert forall k :: 0 <= k < |indices| ==> indices[k] in Live;
      i := 0;
      while i < |indices|
        invariant i <= |indices| && forall k :: 0 <= k < i ==> points.elems[indices[k]] != pt
      {
        if pt == points.elems[indices[i]] {
          return;
        }
        i := i + 1;
      }
    }

    method FindPoint(pt: Vec3, ghost max: int) returns (idx: int)
      requires Valid(points.elems, max)
      ensures Finds(points.elems, Live, pt, idx)
      decreases Repr
    {
      if left != null {
        if LeftOf(pt) {
          idx := left.FindPoint(pt, max);
        } else {
          idx := right.FindPoint(pt, max);
        }
      } else {
        var i := Search(pt, max);
        idx := if i < |indices| then indices[i] else -1;
      }
    }

    method RemovePoint(pt: Vec3, ghost max: int) returns (idx: int)
      requires Valid(points.elems, max)
      modifies Repr
      ensures Valid(points.elems, max) && Repr == old(Repr)
      ensures Finds(points.elems, old(Live), pt, idx)
      ensures Live == old(Live) - {idx}
      decreases Repr
    {
      if left != null {
        if LeftOf(pt) {
          idx := left.RemovePoint(pt, max);
        } else {
          idx := right.RemovePoint(pt, max);
        }
        Live := Live - {idx};
      } else {
        idx := RemoveHere(pt, max);
      }
    }

    method RemoveHere(pt: Vec3, ghost max: int) returns (idx: int)
      requires left == null && Valid(points.elems, max)
      modifies this
      ensures left == null && Valid(points.elems, max) && Repr == old(Repr)
      ensures Finds(points.elems, old(Live), pt, idx)
      ensures Live == old(Live) - {idx}
    {
      var i := Search(pt, max);
      if i == |indices| {
        return -1;
      }
      idx := indices[i];
      RemoveFast(indices, i);
      indices := indices[i := indices[|indices| - 1]][..|indices| - 1];
      Live := Live - {idx};
    }

    /** The dividing plane: the middle of the longest side of the box. */
    method FindPlane(ghost max: int) returns (dim: int, pos: real)
      requires left == null && |indices| >= 2 && Valid(points.elems, max) && Apart(points.elems, Live)
      ensures 0 <= dim < 3
      ensures exists k :: k in Live && At(points.elems[k], dim) < pos
      ensures exists k :: k in Live && !(At(points.elems[k], dim) < pos)
    {
      assert forall k :: 0 <= k < |indices| ==> indices[k] in Live;
      ghost var ps := PointsAt(points.elems, indices);
      var box := new Box();
      for i := 0 to |indices|
        invariant box.Bounds(ps[..i])
      {
        assert ps[..i + 1] == ps[..i] + [ps[i]];
        box.Grow(points.elems[indices[i]], ps[..i]);
      }
      assert ps[..|indices|] == ps;
      dim := LongestSide(box.min, box.max);
      pos := (At(box.min, dim) + At(box.max, dim)) / 2.0;
      PlaneDivides(points.elems, indices, dim, pos);
    }

    /** Hands the indices of this node to two empty leaves. */
    method Distribute(l: Node, r: Node)
      requires l != r && l != this && r != this && l.indices == [] && r.indices == []
      requires Distinct(indices) && forall k :: 0 <= k < |indices| ==> 0 <= indices[k] < |points.elems|
      modifies l`indices, r`indices
      ensures Distinct(l.indices) && Distinct(r.indices) && |l.indices| + |r.indices| == |indices|
      ensures forall x :: x in l.indices <==> x in indices && LeftOf(points.elems[x])
      ensures forall x :: x in r.indices <==> x in indices && !LeftOf(points.elems[x])
    {
      for i := 0 to |indices|
        invariant Distinct(l.indices) && Distinct(r.indices) && |l.indices| + |r.indices| == i
        invariant forall x :: x in l.indices <==> x in indices[..i] && LeftOf(points.elems[x])
        invariant forall x :: x in r.indices <==> x in indices[..i] && !LeftOf(points.elems[x])
      {
        assert indices[i] !in indices[..i];
        assert indices[..i + 1] == indices[..i] + [indices[i]];
        if LeftOf(points.elems[indices[i]]) {
          l.indices := l.indices + [indices[i]];
        } else {
          r.indices := r.indices + [indices[i]];
        }
      }
      assert indices[..|indices|] == indices;
    }

    /** Gives a leaf two leaves below it, neither of them empty. */
    method Split(ghost max: int)
      requires left == null && |indices| >= 2 && Valid(points.elems, max) && Apart(points.elems, Live)
      modifies this
      ensures Valid(points.elems, max) && fresh(Repr - old(Repr)) && Live == old(Live)
      ensures left != null && left.left == null && right.left == null
      ensures left.Live != {} && right.Live != {}
      ensures |left.indices| < |old(indices)| && |right.indices| < |old(indices)|
    {
      assert forall k :: 0 <= k < |indices| ==> indices[k] in Live;
      var dim, pos := FindPlane(max);
      var l := new Node(points);
      var r := new Node(points);
      dimension, position := dim, pos;
      Distribute(l, r);
      l.Live, r.Live := Elements(l.indices), Elements(r.indices);
      assert forall x :: x in Live <==> x in indices;
      Adopt(l, r, max);
    }

    method Adopt(l: Node, r: Node, ghost max: int)
      requires this in Repr && points !in Repr && InBounds(points.elems, Live) && left == null && right == null
      requires 0 <= dimension < 3 && l != r && l != this && r != this && |indices| <= max
      requires l.left == null && l.right == null && r.left == null && r.right == null
      requires l.points == points == r.points && l.Repr == {l} && r.Repr == {r}
      requires Distinct(l.indices) && l.Live == Elements(l.indices)
      requires Distinct(r.indices) && r.Live == Elements(r.indices)
      requires forall x :: x in l.Live <==> x in Live && LeftOf(points.elems[x])
      requires forall x :: x in r.Live <==> x in Live && !LeftOf(points.elems[x])
      requires |l.indices| <= max && |r.indices| <= max
      modifies this`left, this`right, this`indices, this`Repr
      ensures left == l && right == r && indices == [] && Repr == {this, l, r}
      ensures Valid(points.elems, max)
    {
      assert forall x :: !(x in l.Live && x in r.Live);
      assert forall x :: x in Live <==> x in l.Live + r.Live;
      left, right := l, r;
      indices := [];
      Repr := {this, l, r};
      assert l.Valid(points.elems, max) && r.Valid(points.elems, max);
    }

    /** Adds pt below this node unless a live point equals it; splits one leaf
        on the way when that leaf is full, and none otherwise. */
    method AddPoint(pt: Vec3, max: int) returns (idx: int, ghost splits: nat)
      requires max >= 2 && InRange(pt) && Valid(points.elems, max) && Apart(points.elems, Live)
      modifies Repr, points
      ensures Valid(points.elems, max) && fresh(Repr - old(Repr))
      ensures Added(old(points.elems), old(Live), pt, idx, points.elems, Live)
      ensures splits == if old(LeafFull(pt, points.elems, max)) then 1 else 0
      decreases LeafFull(pt, points.elems, max), Repr, 1
    {
      if left != null {
        if LeftOf(pt) {
          idx, splits := AddLeft(pt, max);
        } else {
          idx, splits := AddRight(pt, max);
        }
      } else if |indices| >= max {
        Split(max);
        assert !left.LeafFull(pt, points.elems, max) && !right.LeafFull(pt, points.elems, max);
        idx, splits := AddPoint(pt, max);
        splits := splits + 1;
      } else {
        splits := 0;
        var i := Search(pt, max);
        if i == |indices| {
          idx := |points.elems|;
          points.elems := points.elems + [pt];
          indices := indices + [idx];
          Live := Live + {idx};
        } else {
          idx := indices[i];
        }
      }
    }

    method AddLeft(pt: Vec3, max: int) returns (idx: int, ghost splits: nat)
      requires max >= 2 && InRange(pt) && Valid(points.elems, max) && Apart(points.elems, Live)
      requires left != null && LeftOf(pt)
      modifies Repr, points
      ensures Valid(points.elems, max) && fresh(Repr - old(Repr))
      ensures Added(old(points.elems), old(Live), pt, idx, points.elems, Live)
      ensures splits == if old(LeafFull(pt, points.elems, max)) then 1 else 0
      decreases LeafFull(pt, points.elems, max), Repr, 0
    {
      ghost var pts, side := points.elems, left.Live;
      ApartSubset(pts, Live, side);
      hide Added, Apart, InBounds, Distinct, Elements;
      assert Live == side + right.Live;
      idx, splits := left.AddPoint(pt, max);
      AddedLifts(pts, side, right.Live, pt, idx, points.elems, left.Live);
      Rejoin(left, right, pts, max);
    }

    method AddRight(pt: Vec3, max: int) returns (idx: int, ghost splits: nat)
      requires max >= 2 && InRange(pt) && Valid(points.elems, max) && Apart(points.elems, Live)
      requires left != null && !LeftOf(pt)
      modifies Repr, points
      ensures Valid(points.elems, max) && fresh(Repr - old(Repr))
      ensures Added(old(points.elems), old(Live), pt, idx, points.elems, Live)
      ensures splits == if old(LeafFull(pt, points.elems, max)) then 1 else 0
      decreases LeafFull(pt, points.elems, max), Repr, 0
    {
      ghost var pts, side := points.elems, right.Live;
      ApartSubset(pts, Live, side);
      hide Added, Apart, InBounds, Distinct, Elements;
      assert Live == side + left.Live;
      idx, splits := right.AddPoint(pt, max);
      AddedLifts(pts, side, left.Live, pt, idx, points.elems, right.Live);
      Rejoin(right, left, pts, max);
    }

    /** After one child has been changed and points have been appended. */
    ghost method Rejoin(child: Node, other: Node, pts: seq<Vec3>, max: int)
      requires (left == child && right == other) || (left == other && right == child)
      requires this in Repr && points !in Repr + child.Repr && other in Repr && other.Repr <= Repr
      requires child in child.Repr
      requires this !in child.Repr && this !in other.Repr && child.Repr !! other.Repr
      requires child.points == points == other.points && 0 <= dimension < 3
      requires child.Valid(points.elems, max) && other.Valid(pts, max) && pts <= points.elems
      requires child.Live !! other.Live && InBounds(points.elems, child.Live + other.Live)
      requires forall i :: i in left.Live ==> LeftOf(points.elems[i])
      requires forall i :: i in right.Live ==> !LeftOf(points.elems[i])
      modifies this`Repr, this`Live
      ensures Valid(points.elems, max) && Repr == old(Repr) + child.Repr && Live == child.Live + other.Live
    {
      assert points.elems == pts + points.elems[|pts|..];
      other.Extend(pts, points.elems[|pts|..], max);
      Repr := Repr + child.Repr;
      Live := child.Live + other.Live;
    }
  }

  /** The index of the live point equal to pt if there is one, or else one
      point appended and made live. */
  ghost predicate Added(pts: seq<Vec3>, live: set<int>, pt: Vec3, idx: int, pts': seq<Vec3>, live': set<int>)
    requires InBounds(pts, live)
  {
    || (idx in live && pts[idx] == pt && pts' == pts && live' == live)
    || (idx == |pts| && pts' == pts + [pt] && live' == live + {idx} && forall i :: i in live ==> pts[i] != pt)
  }

  lemma AddedKeepsApart(pts: seq<Vec3>, live: set<int>, pt: Vec3, idx: int, pts': seq<Vec3>, live': set<int>)
    requires InRange(pt) && InBounds(pts, live) && Apart(pts, live) && Added(pts, live, pt, idx, pts', live')
    ensures InBounds(pts', live') && Apart(pts', live')
  {
  }

  /** Adding to one side of a plane is adding to the whole. */
  lemma AddedLifts(pts: seq<Vec3>, side: set<int>, other: set<int>, pt: Vec3, idx: int, pts': seq<Vec3>,
                   side': set<int>)
    requires InRange(pt) && InBounds(pts, side + other) && side !! other && InBounds(pts, side)
    requires forall i :: i in other ==> pts[i] != pt
    requires Added(pts, side, pt, idx, pts', side')
    ensures Added(pts, side + other, pt, idx, pts', side' + other)
    ensures side' == side + {idx} && side' !! other && InBounds(pts', side' + other) && pts <= pts'
    ensures 0 <= idx < |pts'| && pts'[idx] == pt
  {
  }

  function PointsAt(pts: seq<Vec3>, indices: seq<int>): (ps: seq<Vec3>)
    requires forall k :: 0 <= k < |indices| ==> 0 <= indices[k] < |pts|
    ensures |ps| == |indices| && forall k :: 0 <= k < |ps| ==> ps[k] == pts[indices[k]]
  {
    seq(|indices|, k requires 0 <= k < |indices| => pts[indices[k]])
  }

  function LongestSide(lo: Vec3, hi: Vec3): (dim: int)
    ensures 0 <= dim < 3
    ensures forall d :: 0 <= d < 3 ==> At(hi, d) - At(lo, d) <= At(hi, dim) - At(lo, dim)
  {
    var (x, y, z) := (hi.x - lo.x, hi.y - lo.y, hi.z - lo.z);
    if x > y then (if x > z then 0 else 2) else if y > z then 1 else 2
  }

  /** The middle of the longest side of two or more different points has some
      of them strictly to its left and some not. */
  lemma PlaneDivides(pts: seq<Vec3>, indices: seq<int>, dim: int, pos: real)
    requires |indices| >= 2 && Distinct(indices) && InBounds(pts, Elements(indices)) && Apart(pts, Elements(indices))
    requires forall k :: 0 <= k < |indices| ==> indices[k] in Elements(indices)
    requires var ps := PointsAt(pts, indices);
      dim == LongestSide(Lower(ps), Upper(ps)) && pos == (At(Lower(ps), dim) + At(Upper(ps), dim)) / 2.0
    ensures exists k :: 0 <= k < |indices| && At(pts[indices[k]], dim) < pos
    ensures exists k :: 0 <= k < |indices| && !(At(pts[indices[k]], dim) < pos)
  {
    var ps := PointsAt(pts, indices);
    assert ps[0] != ps[1];
    CornersBound(ps, 0);
    CornersBound(ps, 1);
    CornersBound(ps, 2);
    assert At(ps[0], 0) != At(ps[1], 0) || At(ps[0], 1) != At(ps[1], 1) || At(ps[0], 2) != At(ps[1], 2);
    var lo, hi := CornersTouch(ps, dim);
    assert At(Lower(ps), dim) < At(Upper(ps), dim);
  }

  lemma RemoveFast(s: seq<int>, i: nat)
    requires Distinct(s) && i < |s|
    ensures var t := s[i := s[|s| - 1]][..|s| - 1];
      Distinct(t) && Elements(t) == Elements(s) - {s[i]}
  {
    var t := s[i := s[|s| - 1]][..|s| - 1];
    forall x | x in Elements(s) - {s[i]} ensures x in t {
      var k :| 0 <= k < |s| && s[k] == x;
      assert t[if k == |s| - 1 then i else k] == x;
    }
  }

  /** The whole index: the node tree, the points and user data in the order they
      were added, and the box of every point ever added. */
  class Tree<Data> {
    const maxnodepoints: int
    const points: PointArray
    const boundingBox: Box
    var userdata: seq<Data>
    var topnode: Node
    ghost var Repr: set<object>

    ghost predicate Valid()
      reads this, Repr
    {
      && this in Repr && points in Repr && boundingBox in Repr && topnode in Repr
      && topnode.Repr <= Repr && this !in topnode.Repr && boundingBox !in topnode.Repr
      && topnode.points == points && maxnodepoints >= 2
      && topnode.Valid(points.elems, maxnodepoints)
      && Apart(points.elems, topnode.Live)
      && boundingBox.Bounds(points.elems)
      && |userdata| == |points.elems|
    }

    /** The list with live marks that the tree stands for. */
    ghost function State(): (s: Index)
      requires Valid()
      reads this, Repr
      ensures s.Valid()
    {
      Index(points.elems, topnode.Live)
    }

    constructor (maxnodepts: int)
      requires maxnodepts >= 2
      ensures Valid() && fresh(Repr) && maxnodepoints == maxnodepts
      ensures State() == Index([], {}) && userdata == []
    {
      maxnodepoints := maxnodepts;
      var ps := new PointArray();
      var box := new Box();
      var top := new Node(ps);
      points, boundingBox, topnode := ps, box, top;
      userdata := [];
      Repr := {this, ps, box, top};
    }

    method AddPoint(pt: Vec3, data: Data) returns (idx: int)
      requires Valid() && InRange(pt)
      modifies Repr
      ensures Valid() && fresh(Repr - old(Repr))
      ensures (State(), idx) == old(State()).Add(pt)
      ensures userdata == if idx == |old(userdata)| then old(userdata) + [data] else old(userdata)
    {
      ghost var pts, live := points.elems, topnode.Live;
      boundingBox.Grow(pt, pts);
      ghost var splits;
      idx, splits := topnode.AddPoint(pt, maxnodepoints);
      Repr := Repr + topnode.Repr;
      AddedKeepsApart(pts, live, pt, idx, points.elems, topnode.Live);
      AddedIsAdd(pts, live, pt, idx, points.elems, topnode.Live);
      if idx == |userdata| {
        userdata := userdata + [data];
      } else {
        CornersKnow(pts, idx);
      }
    }

    method FindPoint(pt: Vec3) returns (idx: int)
      requires Valid()
      ensures idx == State().Find(pt)
    {
      idx := topnode.FindPoint(pt, maxnodepoints);
      FindsIsFind(State(), pt, idx);
    }

    method RemovePoint(pt: Vec3) returns (idx: int)
      requires Valid()
      modifies Repr
      ensures Valid() && Repr == old(Repr) && userdata == old(userdata)
      ensures idx == old(State()).Find(pt) && State() == old(State()).Remove(pt)
    {
      ghost var s := State();
      idx := topnode.RemovePoint(pt, maxnodepoints);
      FindsIsFind(s, pt, idx);
    }

    method RemoveAt(i: nat)
      requires Valid() && i < |points.elems|
      modifies Repr
      ensures Valid() && Repr == old(Repr) && userdata == old(userdata)
      ensures State() == old(State()).RemoveAt(i)
    {
      var idx := RemovePoint(points.elems[i]);
    }

    method Clear()
      requires Valid()
      modifies Repr
      ensures Valid() && fresh(Repr - old(Repr))
      ensures State() == Index([], {}) && userdata == []
    {
      points.elems := [];
      userdata := [];
      topnode := new Node(points);
      boundingBox.MakeEmpty();
      Repr := {this, points, boundingBox, topnode};
    }
  }

  // ----- the simple list the tree refines -----

  datatype Index = Index(points: seq<Vec3>, live: set<int>) {

    ghost predicate Valid() {
      InBounds(points, live) && Apart(points, live)
    }

    /** The live index with these coordinates, or -1. */
    ghost function Find(pt: Vec3): (idx: int)
      requires Valid()
      ensures Finds(points, live, pt, idx)
    {
      if i :| i in live && points[i] == pt then i else -1
    }

    ghost function Add(pt: Vec3): (r: (Index, int))
      requires Valid() && InRange(pt)
      ensures r.0.Valid()
    {
      var i := Find(pt);
      if i != -1 then (this, i) else (Index(points + [pt], live + {|points|}), |points|)
    }

    ghost function Remove(pt: Vec3): (s: Index)
      requires Valid()
      ensures s.Valid()
    {
      Index(points, live - {Find(pt)})
    }

    ghost function RemoveAt(i: nat): (s: Index)
      requires Valid() && i < |points|
      ensures s.Valid()
    {
      Remove(points[i])
    }
  }

  lemma FindsIsFind(s: Index, pt: Vec3, idx: int)
    requires s.Valid() && Finds(s.points, s.live, pt, idx)
    ensures idx == s.Find(pt)
  {
  }

  lemma AddedIsAdd(pts: seq<Vec3>, live: set<int>, pt: Vec3, idx: int, pts': seq<Vec3>, live': set<int>)
    requires InRange(pt) && InBounds(pts, live) && Apart(pts, live) && Added(pts, live, pt, idx, pts', live')
    ensures (Index(pts', live'), idx) == Index(pts, live).Add(pt)
  {
    var i := Index(pts, live).Find(pt);
  }

  // ----- every run -----

  datatype Op = AddOp(pt: Vec3) | RemoveOp(pt: Vec3) | ClearOp

  ghost function Do(s: Index, op: Op): (t: Index)
    requires s.Valid() && (op.AddOp? ==> InRange(op.pt))
    ensures t.Valid()
  {
    match op
    case AddOp(pt) => s.Add(pt).0
    case RemoveOp(pt) => s.Remove(pt)
    case ClearOp => Index([], {})
  }

  ghost function DoAll(s: Index, ops: seq<Op>): (t: Index)
    requires s.Valid() && forall o :: o in ops && o.AddOp? ==> InRange(o.pt)
    ensures t.Valid()
  {
    if ops == [] then s else Do(DoAll(s, ops[..|ops| - 1]), ops[|ops| - 1])
  }

  /** Until the next clear, indices keep their coordinates, and the point that
      got index i is found there as long as it has not been removed. */
  lemma {:induction false} IndicesAreStable(s: Index, ops: seq<Op>)
    requires s.Valid() && (forall o :: o in ops && o.AddOp? ==> InRange(o.pt)) && ClearOp !in ops
    ensures s.points <= DoAll(s, ops).points
    ensures forall i :: i in s.live && RemoveOp(s.points[i]) !in ops ==>
      i in DoAll(s, ops).live && DoAll(s, ops).Find(s.points[i]) == i
  {
    if ops != [] {
      var init, last := ops[..|ops| - 1], ops[|ops| - 1];
      IndicesAreStable(s, init);
      var m, t := DoAll(s, init), DoAll(s, ops);
      assert forall o :: o in ops <==> o in init || o == last;
      forall i | i in s.live && RemoveOp(s.points[i]) !in ops
        ensures i in t.live && t.Find(s.points[i]) == i
      {
        assert i in m.live && m.points[i] == s.points[i];
        if last.RemoveOp? {
          assert m.Find(last.pt) != i;
        }
        FindsIsFind(t, s.points[i], i);
      }
    } else {
      forall i | i in s.live ensures s.Find(s.points[i]) == i {
        FindsIsFind(s, s.points[i], i);
      }
    }
  }

  /** The last mention of the point since the last clear was to add it. */
  ghost predicate AddedLast(ops: seq<Op>, pt: Vec3) {
    exists k :: 0 <= k < |ops| && ops[k] == AddOp(pt) && RemoveOp(pt) !in ops[k..] && ClearOp !in ops[k..]
  }

  lemma AddedLastStep(ops: seq<Op>, last: Op, pt: Vec3)
    ensures AddedLast(ops + [last], pt)
       <==> last == AddOp(pt) || (last != RemoveOp(pt) && last != ClearOp && AddedLast(ops, pt))
  {
    var all := ops + [last];
    if k :| 0 <= k < |all| && all[k] == AddOp(pt) && RemoveOp(pt) !in all[k..] && ClearOp !in all[k..] {
      assert all[k..][|ops| - k] == last;
      if k < |ops| {
        assert all[k..] == ops[k..] + [last] && ops[k] == AddOp(pt);
      }
    }
    if last == AddOp(pt) {
      assert all[|ops|..] == [last];
    } else if last != RemoveOp(pt) && last != ClearOp && AddedLast(ops, pt) {
      var k :| 0 <= k < |ops| && ops[k] == AddOp(pt) && RemoveOp(pt) !in ops[k..] && ClearOp !in ops[k..];
      assert all[k..] == ops[k..] + [last] && all[k] == AddOp(pt);
    }
  }

  /** A point is live after a run exactly when its last mention since the last
      clear was to add it. */
  lemma {:induction false} LiveMeansAddedLast(ops: seq<Op>, pt: Vec3)
    requires forall o :: o in ops && o.AddOp? ==> InRange(o.pt)
    ensures DoAll(Index([], {}), ops).Find(pt) != -1 <==> AddedLast(ops, pt)
  {
    if ops != [] {
      var init, last := ops[..|ops| - 1], ops[|ops| - 1];
      LiveMeansAddedLast(init, pt);
      LastMention(DoAll(Index([], {}), init), last, pt);
      AddedLastStep(init, last, pt);
      assert init + [last] == ops;
    }
  }

  lemma LastMention(m: Index, op: Op, pt: Vec3)
    requires m.Valid() && (op.AddOp? ==> InRange(op.pt))
    ensures Do(m, op).Find(pt) != -1 <==> op == AddOp(pt) || (op != RemoveOp(pt) && op != ClearOp && m.Find(pt) != -1)
  {
    var t := Do(m, op);
    var i, j := m.Find(pt), t.Find(pt);
    if op.AddOp? {
      var a := m.Find(op.pt);
      assert op.pt == pt ==> (if a == -1 then |m.points| else a) in t.live;
      assert i != -1 ==> i in t.live;
    } else if op.RemoveOp? {
      var r := m.Find(op.pt);
      assert i != -1 && op.pt != pt ==> i in t.live;
    }
  }

  /** removePoint(index) removes the live point with that index's coordinates:
      it removes the index itself, and nothing else, exactly when no other
      index is live there. */
  lemma RemoveAtIndex(s: Index, i: nat)
    requires s.Valid() && i < |s.points|
    ensures s.RemoveAt(i).live == s.live - {i} <==> s.Find(s.points[i]) == i || s.Find(s.points[i]) == -1
  {
    var f := s.Find(s.points[i]);
    if f != i && f != -1 {
      assert f in s.live - {i} && f !in s.RemoveAt(i).live;
    }
  }

  /** Added, removed and added again, a point has two indices; removing by the
      first removes the second. */
  lemma RemoveAtCounterexample(pt: Vec3)
    requires InRange(pt)
    ensures var s := DoAll(Index([], {}), [AddOp(pt), RemoveOp(pt), AddOp(pt)]);
      |s.points| == 2 && s.live == {1} && s.RemoveAt(0).live == {} != s.live - {0}
  {
    var e := Index([], {});
    var a, ar, ara := [AddOp(pt)], [AddOp(pt), RemoveOp(pt)], [AddOp(pt), RemoveOp(pt), AddOp(pt)];
    assert ara[..2] == ar && ar[..1] == a && a[..0] == [];
    assert e.Find(pt) == -1;
    assert DoAll(e, a) == Index([pt], {0});
    FindsIsFind(Index([pt], {0}), pt, 0);
    assert DoAll(e, ar) == Index([pt], {});
    assert Index([pt], {}).Find(pt) == -1;
    assert DoAll(e, ara) == Index([pt, pt], {1});
    FindsIsFind(Index([pt, pt], {1}), pt, 1);
  }
}
