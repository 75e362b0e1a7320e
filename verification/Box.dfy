/** The bounding box of src/util/Box.cpp. The empty box is inside out: its
    corners are the largest and smallest single-precision numbers. */
module Box {
  import opened Affine

  // 2^128 - 2^104
  const FLT_MAX: real := 340282346638528859811704183484516925440.0

  /** The largest float: 24 bits of ones, the last of them worth 2 to the 104. */
  lemma FltMaxIs()
    ensures FLT_MAX == 16777215.0 * 20282409603651670423947251286016.0
    ensures 20282409603651670423947251286016.0 == 4503599627370496.0 * 4503599627370496.0
    ensures 4503599627370496.0 == 67108864.0 * 67108864.0 && 67108864.0 == 8192.0 * 8192.0
  {
  }

  predicate InRange(p: Vec3) {
    forall d :: 0 <= d < 3 ==> -FLT_MAX <= At(p, d) <= FLT_MAX
  }

  function At(p: Vec3, d: int): real {
    if d == 0 then p.x else if d == 1 then p.y else p.z
  }

  function Min(a: real, b: real): real { if a > b then b else a }

  function Max(a: real, b: real): real { if a < b then b else a }

  /** The lower and upper corner of the box of a list of points. */
  function Lower(ps: seq<Vec3>): Vec3 {
    if ps == [] then Vec3(FLT_MAX, FLT_MAX, FLT_MAX)
    else
      var (l, p) := (Lower(ps[..|ps| - 1]), ps[|ps| - 1]);
      Vec3(Min(l.x, p.x), Min(l.y, p.y), Min(l.z, p.z))
  }

  function Upper(ps: seq<Vec3>): Vec3 {
    if ps == [] then Vec3(-FLT_MAX, -FLT_MAX, -FLT_MAX)
    else
      var (u, p) := (Upper(ps[..|ps| - 1]), ps[|ps| - 1]);
      Vec3(Max(u.x, p.x), Max(u.y, p.y), Max(u.z, p.z))
  }

  /** Every point lies between the corners. */
  lemma {:induction false} CornersBound(ps: seq<Vec3>, d: int)
    requires 0 <= d < 3
    ensures forall i :: 0 <= i < |ps| ==> At(Lower(ps), d) <= At(ps[i], d) <= At(Upper(ps), d)
  {
    if ps != [] {
      CornersBound(ps[..|ps| - 1], d);
    }
  }

  /** In every dimension some point touches each corner. */
  lemma {:induction false} CornersTouch(ps: seq<Vec3>, d: int) returns (lo: nat, hi: nat)
    requires 0 <= d < 3 && ps != [] && forall i :: 0 <= i < |ps| ==> InRange(ps[i])
    ensures lo < |ps| && At(ps[lo], d) == At(Lower(ps), d)
    ensures hi < |ps| && At(ps[hi], d) == At(Upper(ps), d)
  {
    var n := |ps| - 1;
    assert InRange(ps[n]);
    lo, hi := n, n;
    if n > 0 {
      var l, h := CornersTouch(ps[..n], d);
      if At(Lower(ps[..n]), d) < At(ps[n], d) {
        lo := l;
      }
      if At(Upper(ps[..n]), d) > At(ps[n], d) {
        hi := h;
      }
    }
  }

  /** A point already in the list does not move the corners. */
  lemma CornersKnow(ps: seq<Vec3>, i: nat)
    requires i < |ps|
    ensures Lower(ps + [ps[i]]) == Lower(ps) && Upper(ps + [ps[i]]) == Upper(ps)
  {
    assert (ps + [ps[i]])[..|ps|] == ps;
    CornersBound(ps, 0);
    CornersBound(ps, 1);
    CornersBound(ps, 2);
    assert At(Lower(ps), 0) <= At(ps[i], 0) && At(Lower(ps), 1) <= At(ps[i], 1) && At(Lower(ps), 2) <= At(ps[i], 2);
  }

  class Box {
    var min: Vec3
    var max: Vec3

    ghost predicate Bounds(ps: seq<Vec3>)
      reads this
    {
      min == Lower(ps) && max == Upper(ps)
    }

    constructor ()
      ensures Bounds([])
    {
      min, max := Vec3(FLT_MAX, FLT_MAX, FLT_MAX), Vec3(-FLT_MAX, -FLT_MAX, -FLT_MAX);
    }

    method MakeEmpty()
      modifies this
      ensures Bounds([])
    {
      min, max := Vec3(FLT_MAX, FLT_MAX, FLT_MAX), Vec3(-FLT_MAX, -FLT_MAX, -FLT_MAX);
    }

    method Grow(pt: Vec3, ghost ps: seq<Vec3>)
      requires Bounds(ps)
      modifies this
      ensures Bounds(ps + [pt])
    {
      assert (ps + [pt])[..|ps|] == ps;
      if min.x > pt.x { min := min.(x := pt.x); }
      if max.x < pt.x { max := max.(x := pt.x); }
      if min.y > pt.y { min := min.(y := pt.y); }
      if max.y < pt.y { max := max.(y := pt.y); }
      if min.z > pt.z { min := min.(z := pt.z); }
      if max.z < pt.z { max := max.(z := pt.z); }
    }
  }
}
