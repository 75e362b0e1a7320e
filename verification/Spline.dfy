/** src/entities/Spline.cpp: knots, weights, control points and fit points
    rebuilt from a flat stream of records. */
module Spline {
  import opened Wrappers
  import opened Tokens
  import opened Params

  /** An element of one of the arrays: a knot or a weight uses only x. Nothing
      is initialised before it is read. */
  datatype Slot = Slot(x: Option<real>, y: Option<real>, z: Option<real>) {
    function With(axis: int, v: real): Slot {
      if axis == 0 then this.(x := Some(v)) else if axis == 1 then this.(y := Some(v)) else this.(z := Some(v))
    }
  }

  const BLANK: Slot := Slot(None, None, None)

  /** An array that is allocated when its first record comes, and the 16-bit
      counter of the records that have come since. */
  datatype Channel = Channel(data: Option<seq<Slot>>, cnt: int)

  function Blanks(n: nat): (s: seq<Slot>)
    ensures |s| == n && forall i :: 0 <= i < n ==> s[i] == BLANK
  {
    if n == 0 then [] else [BLANK] + Blanks(n - 1)
  }

  function Opened(c: Channel, n: int): Channel
    requires c.data.None? ==> n >= 0
  {
    if c.data.None? && n != 0 then Channel(Some(Blanks(n)), 0) else c
  }

  /** A negative number of elements is allocated, or an element outside is stored. */
  predicate Faults(c: Channel, n: int) {
    || (c.data.None? && n < 0)
    || var o := Opened(c, n);
       o.data.Some? && o.cnt < n && !(0 <= o.cnt < |o.data.value|)
  }

  /** A value for the current element, and then the next one if it is the last. */
  function Fed(c: Channel, n: int, axis: int, v: real, last: bool): Channel
    requires !Faults(c, n)
  {
    var o := Opened(c, n);
    var d := if o.data.Some? && o.cnt < n
             then o.(data := Some(o.data.value[o.cnt := o.data.value[o.cnt].With(axis, v)])) else o;
    if last then d.(cnt := ToInt16(d.cnt + 1)) else d
  }

  datatype Which = Knots | Weights | Control | Fit

  datatype Sp = Sp(
    flags: int, degree: int, numKnots: int, numControlPoints: int, numFitPoints: int,
    knotTolerance: real, fitTolerance: real, cpTolerance: real,
    knots: Channel, weights: Channel, controlPoints: Channel, fitPoints: Channel)
  {
    function Get(w: Which): Channel {
      match w case Knots => knots case Weights => weights case Control => controlPoints case Fit => fitPoints
    }

    function With(w: Which, c: Channel): Sp {
      match w
      case Knots => this.(knots := c)
      case Weights => this.(weights := c)
      case Control => this.(controlPoints := c)
      case Fit => this.(fitPoints := c)
    }

    function Count(w: Which): int {
      match w
      case Knots => numKnots
      case Weights => numControlPoints
      case Control => numControlPoints
      case Fit => numFitPoints
    }
  }

  const PLANAR: int := 8

  const DEFAULT_CP_TOLERANCE: real := 0.0000001

  const EMPTY: Channel := Channel(None, 0)

  /** The fit tolerance starts as the control points' one. */
  function Created(): Sp {
    Sp(PLANAR, 3, 0, 0, 0, DEFAULT_CP_TOLERANCE, DEFAULT_CP_TOLERANCE, DEFAULT_CP_TOLERANCE, EMPTY, EMPTY, EMPTY, EMPTY)
  }

  function WhichOf(code: int): Option<Which> {
    if code == 10 || code == 20 || code == 30 then Some(Control)
    else if code == 11 || code == 21 || code == 31 then Some(Fit)
    else if code == 40 then Some(Knots)
    else if code == 41 then Some(Weights)
    else None
  }

  function AxisOf(code: int): int {
    if code == 40 || code == 41 then 0 else code / 10 - 1
  }

  predicate IsLast(code: int) {
    code == 40 || code == 41 || code == 30 || code == 31
  }

  predicate IsOwnCode(code: int) {
    WhichOf(code).Some? || code == 42 || code == 43 || code == 44 || 70 <= code <= 74
  }

  predicate FaultsAt(p: Sp, r: Rec) {
    WhichOf(r.code).Some? && var w := WhichOf(r.code).value; Faults(p.Get(w), p.Count(w))
  }

  /** handleRecord */
  function Handle(p: Sp, r: Rec): Sp
    requires !FaultsAt(p, r)
  {
    if WhichOf(r.code).Some? then
      var w := WhichOf(r.code).value;
      p.With(w, Fed(p.Get(w), p.Count(w), AxisOf(r.code), r.double, IsLast(r.code)))
    else if r.code == 42 then p.(knotTolerance := r.double)
    else if r.code == 43 then p.(cpTolerance := r.double)
    else if r.code == 44 then p.(fitTolerance := r.double)
    else if r.code == 70 then p.(flags := r.whole)
    else if r.code == 71 then p.(degree := r.whole)
    else if r.code == 72 then p.(numKnots := r.whole)
    else if r.code == 73 then p.(numControlPoints := r.whole)
    else if r.code == 74 then p.(numFitPoints := r.whole)
    else p
  }

  predicate Safe(p: Sp, rs: seq<Rec>)
    decreases rs
  {
    rs != [] ==> !FaultsAt(p, rs[0]) && Safe(Handle(p, rs[0]), rs[1..])
  }

  function Run(p: Sp, rs: seq<Rec>): Sp
    requires Safe(p, rs)
    decreases rs
  {
    if rs == [] then p else Run(Handle(p, rs[0]), rs[1..])
  }

  lemma {:induction false} RunBoth(p: Sp, a: seq<Rec>, b: seq<Rec>)
    requires Safe(p, a) && Safe(Run(p, a), b)
    ensures Safe(p, a + b) && Run(p, a + b) == Run(Run(p, a), b)
    decreases a
  {
    hide Handle, FaultsAt;
    if a == [] {
      assert a + b == b;
    } else {
      assert (a + b)[1..] == a[1..] + b;
      RunBoth(Handle(p, a[0]), a[1..], b);
    }
  }

  lemma RunOne(p: Sp, r: Rec)
    requires !FaultsAt(p, r)
    ensures Safe(p, [r]) && Run(p, [r]) == Handle(p, r)
  {
    hide Handle, FaultsAt;
    assert [r][1..] == [];
  }

  // ----- safety -----

  predicate Is16(n: int) {
    -0x8000 <= n <= 0x7fff
  }

  /** The record moves channel w on to its next element. */
  predicate Closes(w: Which, r: Rec) {
    WhichOf(r.code) == Some(w) && IsLast(r.code)
  }

  function Closings(rs: seq<Rec>, w: Which): nat {
    if rs == [] then 0 else (if Closes(w, rs[0]) then 1 else 0) + Closings(rs[1..], w)
  }

  /** Every record of channel w comes before the channel has been moved on
      `room` times. */
  predicate Within(rs: seq<Rec>, w: Which, room: int) {
    forall i :: 0 <= i < |rs| && WhichOf(rs[i].code) == Some(w) ==> Closings(rs[..i], w) < room
  }

  lemma WithinStep(rs: seq<Rec>, w: Which, room: int)
    requires rs != []
    ensures Within(rs, w, room)
       <==> (WhichOf(rs[0].code) == Some(w) ==> 0 < room)
            && Within(rs[1..], w, room - if Closes(w, rs[0]) then 1 else 0)
  {
    var later, c := rs[1..], if Closes(w, rs[0]) then 1 else 0;
    forall i | 0 <= i < |later|
      ensures later[i] == rs[i + 1] && Closings(rs[..i + 1], w) == c + Closings(later[..i], w)
    {
      assert rs[..i + 1][1..] == later[..i];
    }
    if Within(rs, w, room) {
      forall i | 0 <= i < |later| && WhichOf(later[i].code) == Some(w)
        ensures Closings(later[..i], w) < room - c
      {
        assert WhichOf(rs[i + 1].code) == Some(w);
      }
    }
    if (WhichOf(rs[0].code) == Some(w) ==> 0 < room) && Within(later, w, room - c) {
      forall i | 0 <= i < |rs| && WhichOf(rs[i].code) == Some(w)
        ensures Closings(rs[..i], w) < room
      {
        if i > 0 {
          assert WhichOf(later[i - 1].code) == Some(w);
        }
      }
    }
  }

  /** How often a channel with this number of elements can still be moved on
      before a record of it is stored outside the array: not at all from a
      negative counter, up to the end of the array when more elements are
      announced than it has, and otherwise until the counter wraps around. */
  function Room(c: Channel, n: int): int {
    if c.data.None? then (if n < 0 then 0 else 0x8000)
    else if c.cnt < n && c.cnt < 0 then 0
    else
      var size := |c.data.value|;
      (if c.cnt < n && size < n && size < 0x8000 then size else 0x8000) - c.cnt
  }

  /** Some record could be stored: no array is allocated for no elements, and the
      counter is never below -32768. */
  predicate Storing(c: Channel, n: int) {
    if c.data.None? then n != 0 else n > -0x8000
  }

  lemma CounterCounts(n: int)
    ensures -0x8000 <= n < 0x7fff ==> ToInt16(n + 1) == n + 1
    ensures ToInt16(0x8000) == -0x8000
  {
  }

  /** One record for a channel. */
  lemma FedKeepsRoom(c: Channel, n: int, axis: int, v: real, last: bool)
    requires Is16(c.cnt)
    ensures Storing(c, n) ==> (Faults(c, n) <==> Room(c, n) <= 0)
    ensures !Storing(c, n) ==> !Faults(c, n)
    ensures !Faults(c, n) ==> var d := Fed(c, n, axis, v, last);
      && Is16(d.cnt) && (Storing(d, n) <==> Storing(c, n))
      && (Storing(c, n) ==> Room(d, n) == Room(c, n) - if last then 1 else 0)
  {
    hide ToInt16;
    CounterCounts(c.cnt);
    CounterCounts(0);
  }

  predicate Counted(p: Sp) {
    forall w: Which :: Is16(p.Get(w).cnt)
  }

  lemma HandleIsCounted(p: Sp, r: Rec)
    requires Counted(p) && !FaultsAt(p, r)
    ensures Counted(Handle(p, r))
  {
    hide Faults, Fed;
    if WhichOf(r.code).Some? {
      var w := WhichOf(r.code).value;
      assert Is16(p.Get(w).cnt);
      FedKeepsRoom(p.Get(w), p.Count(w), AxisOf(r.code), r.double, IsLast(r.code));
    }
    forall x: Which
      ensures Is16(Handle(p, r).Get(x).cnt)
    {
      assert Is16(p.Get(x).cnt);
    }
  }

  lemma {:induction false} RunIsCounted(p: Sp, rs: seq<Rec>)
    requires Counted(p) && Safe(p, rs)
    ensures Counted(Run(p, rs))
    decreases rs
  {
    hide Handle, FaultsAt, Counted;
    if rs != [] {
      HandleIsCounted(p, rs[0]);
      RunIsCounted(Handle(p, rs[0]), rs[1..]);
    }
  }

  predicate IsCount(code: int) {
    72 <= code <= 74
  }

  predicate NoCounts(rs: seq<Rec>) {
    forall i :: 0 <= i < |rs| ==> !IsCount(rs[i].code)
  }

  /** The records of this channel come while there is room for them. */
  predicate Fits(p: Sp, rs: seq<Rec>, w: Which) {
    Storing(p.Get(w), p.Count(w)) ==> Within(rs, w, Room(p.Get(w), p.Count(w)))
  }

  lemma FitsStep(p: Sp, rs: seq<Rec>, w: Which)
    requires Counted(p) && rs != [] && !IsCount(rs[0].code) && !FaultsAt(p, rs[0])
    ensures Fits(p, rs, w) <==> Fits(Handle(p, rs[0]), rs[1..], w)
  {
    var r, c, n := rs[0], p.Get(w), p.Count(w);
    hide Faults, Fed, Within, Room, Storing;
    WithinStep(rs, w, Room(c, n));
    assert Is16(c.cnt);
    if WhichOf(r.code) == Some(w) {
      FedKeepsRoom(c, n, AxisOf(r.code), r.double, IsLast(r.code));
    }
  }

  lemma FirstFits(p: Sp, rs: seq<Rec>)
    requires Counted(p) && rs != [] && FaultsAt(p, rs[0])
    ensures exists w: Which :: !Fits(p, rs, w)
  {
    var w := WhichOf(rs[0].code).value;
    hide Faults, Within, Room, Storing;
    assert Is16(p.Get(w).cnt);
    FedKeepsRoom(p.Get(w), p.Count(w), 0, 0.0, false);
    WithinStep(rs, w, Room(p.Get(w), p.Count(w)));
    assert !Fits(p, rs, w);
  }

  /** Exactly which values may come, of all channels in any order, once the counts
      are there. */
  lemma {:induction false} ValuesFit(p: Sp, rs: seq<Rec>)
    requires Counted(p) && NoCounts(rs)
    ensures Safe(p, rs) <==> forall w: Which :: Fits(p, rs, w)
    decreases rs
  {
    hide Handle, FaultsAt, Fits, Counted;
    if rs == [] {
      NothingFits(p);
    } else if FaultsAt(p, rs[0]) {
      FirstFits(p, rs);
    } else {
      HandleIsCounted(p, rs[0]);
      ValuesFit(Handle(p, rs[0]), rs[1..]);
      forall w: Which
        ensures Fits(p, rs, w) <==> Fits(Handle(p, rs[0]), rs[1..], w)
      {
        FitsStep(p, rs, w);
      }
    }
  }

  lemma NothingFits(p: Sp)
    ensures forall w: Which :: Fits(p, [], w)
  {
  }

  /** In every state that any records have led to: more values are stored inside
      the arrays exactly when each of them comes while there is room. */
  lemma ValuesAreSafe(before: seq<Rec>, rs: seq<Rec>)
    requires Safe(Created(), before) && NoCounts(rs)
    ensures var p := Run(Created(), before);
      Safe(p, rs)
      <==> forall w: Which :: Storing(p.Get(w), p.Count(w)) ==> Within(rs, w, Room(p.Get(w), p.Count(w)))
  {
    RunIsCounted(Created(), before);
    var p := Run(Created(), before);
    ValuesFit(p, rs);
    assert forall w: Which ::
      Fits(p, rs, w) <==> (Storing(p.Get(w), p.Count(w)) ==> Within(rs, w, Room(p.Get(w), p.Count(w))));
  }

  // ----- streams with counts -----

  /** A count is acceptable when it arrives if it is not negative, and not above
      the size of an array that is already there. */
  predicate Announced(c: Channel, n: int) {
    0 <= n && (c.data.Some? ==> n <= |c.data.value|)
  }

  predicate Admissible(p: Sp, r: Rec) {
    && (r.code == 72 ==> Announced(p.knots, r.whole))
    && (r.code == 73 ==> Announced(p.controlPoints, r.whole) && Announced(p.weights, r.whole))
    && (r.code == 74 ==> Announced(p.fitPoints, r.whole))
  }

  predicate AllAdmissible(p: Sp, rs: seq<Rec>)
    decreases rs
  {
    rs != [] ==> Admissible(p, rs[0]) && (!FaultsAt(p, rs[0]) ==> AllAdmissible(Handle(p, rs[0]), rs[1..]))
  }

  /** The channel is announced properly, and its records come while there is
      room for them. */
  predicate Prepared(p: Sp, rs: seq<Rec>, w: Which) {
    Announced(p.Get(w), p.Count(w)) && Is16(p.Get(w).cnt) && Within(rs, w, Room(p.Get(w), p.Count(w)))
  }

  lemma WithinMore(rs: seq<Rec>, w: Which, room: int, more: int)
    requires Within(rs, w, room) && room <= more
    ensures Within(rs, w, more)
  {
  }

  /** One record, for this channel or for another. */
  lemma PreparedStep(p: Sp, rs: seq<Rec>, w: Which)
    requires rs != [] && Prepared(p, rs, w) && Admissible(p, rs[0])
    ensures WhichOf(rs[0].code) == Some(w) ==> !FaultsAt(p, rs[0])
    ensures !FaultsAt(p, rs[0]) ==> Prepared(Handle(p, rs[0]), rs[1..], w)
  {
    var r, c, n := rs[0], p.Get(w), p.Count(w);
    var room := Room(c, n);
    WithinStep(rs, w, room);
    hide Within, Faults, Fed, ToInt16;
    if WhichOf(r.code) == Some(w) {
      ValueStep(c, n, AxisOf(r.code), r.double, IsLast(r.code));
      if !FaultsAt(p, r) {
        var d := Handle(p, r).Get(w);
        WithinMore(rs[1..], w, room - if Closes(w, r) then 1 else 0, Room(d, n));
      }
    } else if !FaultsAt(p, r) {
      var q := Handle(p, r);
      assert q.Get(w) == c && Room(q.Get(w), q.Count(w)) == room;
    }
  }

  lemma ValueStep(c: Channel, n: int, axis: int, v: real, last: bool)
    requires Announced(c, n) && Is16(c.cnt)
    ensures Faults(c, n) ==> Room(c, n) <= 0
    ensures !Faults(c, n) ==> var d := Fed(c, n, axis, v, last);
      Announced(d, n) && Is16(d.cnt) && Room(c, n) - (if last then 1 else 0) <= Room(d, n)
  {
    FedKeepsRoom(c, n, axis, v, last);
    hide ToInt16;
  }

  /** Every stream, counts and values in any order: as long as the counts are
      acceptable when they arrive, and the last record of each channel comes
      before the channel has been moved on 32768 times, nothing is stored
      outside the arrays. */
  lemma {:induction false} AdmissibleIsSafe(p: Sp, rs: seq<Rec>)
    requires AllAdmissible(p, rs) && forall w: Which :: Prepared(p, rs, w)
    ensures Safe(p, rs)
    decreases rs
  {
    hide Prepared, Handle, FaultsAt, Admissible;
    if rs != [] {
      forall w: Which
        ensures WhichOf(rs[0].code) == Some(w) ==> !FaultsAt(p, rs[0])
        ensures !FaultsAt(p, rs[0]) ==> Prepared(Handle(p, rs[0]), rs[1..], w)
      {
        PreparedStep(p, rs, w);
      }
      OnlyValuesFault(p, rs[0]);
      AdmissibleIsSafe(Handle(p, rs[0]), rs[1..]);
    }
  }

  lemma OnlyValuesFault(p: Sp, r: Rec)
    ensures FaultsAt(p, r) ==> WhichOf(r.code).Some?
  {
  }

  /** From the start. */
  lemma AdmissibleSplineIsSafe(rs: seq<Rec>)
    requires AllAdmissible(Created(), rs) && forall w: Which :: Within(rs, w, 0x8000)
    ensures Safe(Created(), rs)
  {
    assert forall w: Which :: Prepared(Created(), rs, w) <==> Within(rs, w, 0x8000);
    AdmissibleIsSafe(Created(), rs);
  }

  /** Without the conditions: one knot is announced, and two after the first; or
      fewer than none. */
  lemma LateCountOverruns()
    ensures !Safe(Created(), [Whole(72, 1), Double(40, 0.0), Whole(72, 2), Double(40, 0.0)])
    ensures !Safe(Created(), [Whole(72, -1), Double(40, 0.0)])
  {
    var a := Handle(Created(), Whole(72, 1));
    var b := Handle(a, Double(40, 0.0));
    assert |b.knots.data.value| == 1 && b.knots.cnt == 1;
    assert FaultsAt(Handle(b, Whole(72, 2)), Double(40, 0.0));
    var rs := [Whole(72, 1), Double(40, 0.0), Whole(72, 2), Double(40, 0.0)];
    assert rs[1..][1..][1..] == [Double(40, 0.0)];
    assert rs[1..][1..] == [Whole(72, 2), Double(40, 0.0)];
    assert rs[1..] == [Double(40, 0.0), Whole(72, 2), Double(40, 0.0)];
    assert FaultsAt(Handle(Created(), Whole(72, -1)), Double(40, 0.0));
    assert [Whole(72, -1), Double(40, 0.0)][1..] == [Double(40, 0.0)];
  }

  // ----- writing -----

  /** The values that are written have been set. */
  predicate Full(w: Which, s: Slot) {
    s.x.Some? && (w.Control? || w.Fit? ==> s.y.Some? && s.z.Some?)
  }

  /** The elements of an array that the counts say it has. */
  function Items(p: Sp, w: Which): seq<Slot>
    requires p.Count(w) > 0 ==> p.Get(w).data.Some? && p.Count(w) <= |p.Get(w).data.value|
  {
    if p.Count(w) > 0 then p.Get(w).data.value[..p.Count(w)] else []
  }

  predicate AllFull(w: Which, items: seq<Slot>) {
    forall i :: 0 <= i < |items| ==> Full(w, items[i])
  }

  predicate HasArray(p: Sp, w: Which) {
    p.Count(w) > 0 ==>
      && p.Get(w).data.Some? && p.Count(w) <= |p.Get(w).data.value|
      && AllFull(w, Items(p, w))
  }

  /** The counts are 16-bit numbers, and there is an array for each that is
      positive, but for the weights, which may be missing. */
  predicate Writable(p: Sp) {
    && Is16(p.numKnots) && Is16(p.numControlPoints) && Is16(p.numFitPoints)
    && HasArray(p, Knots) && HasArray(p, Control) && HasArray(p, Fit)
    && (p.weights.data.Some? ==> HasArray(p, Weights))
  }

  /** getRecord(41, i): a missing weight is one. */
  function WeightAt(p: Sp, i: nat): real
    requires Writable(p) && i < p.numControlPoints
  {
    if p.weights.data.Some? then Items(p, Weights)[i].x.value else 1.0
  }

  /** Some weight is not one. */
  predicate Weighted(p: Sp)
    requires Writable(p)
  {
    p.weights.data.Some? && exists i :: 0 <= i < p.numControlPoints && WeightAt(p, i) != 1.0
  }

  function WrittenItem(w: Which, s: Slot): seq<Rec>
    requires Full(w, s)
  {
    match w
    case Knots => [Double(40, s.x.value)]
    case Weights => [Double(41, s.x.value)]
    case Control => [Double(10, s.x.value)] + [Double(20, s.y.value)] + [Double(30, s.z.value)]
    case Fit => [Double(11, s.x.value)] + [Double(21, s.y.value)] + [Double(31, s.z.value)]
  }

  /** The first k items. */
  function WrittenItems(w: Which, items: seq<Slot>, k: nat): seq<Rec>
    requires AllFull(w, items) && k <= |items|
  {
    if k == 0 then [] else WrittenItems(w, items, k - 1) + WrittenItem(w, items[k - 1])
  }

  function WrittenAll(w: Which, items: seq<Slot>): seq<Rec>
    requires AllFull(w, items)
  {
    WrittenItems(w, items, |items|)
  }

  function WrittenCounts(p: Sp): seq<Rec> {
    [Whole(70, p.flags)] + [Whole(71, p.degree)] + [Whole(72, p.numKnots)] + [Whole(73, p.numControlPoints)]
    + [Whole(74, p.numFitPoints)] + [Double(42, p.knotTolerance)] + [Double(43, p.cpTolerance)]
    + (if p.numFitPoints != 0 then [Double(44, p.fitTolerance)] else [])
  }

  /** The records of the weights, which are left out when all are one. */
  function WrittenWeights(p: Sp): seq<Rec>
    requires Writable(p)
  {
    if Weighted(p) then WrittenAll(Weights, Items(p, Weights)) else []
  }

  /** write(), after the records of the base class. */
  function Written(p: Sp, others: seq<Rec>): seq<Rec>
    requires Writable(p)
  {
    others + WrittenCounts(p) + WrittenAll(Knots, Items(p, Knots))
    + WrittenWeights(p) + WrittenAll(Control, Items(p, Control)) + WrittenAll(Fit, Items(p, Fit))
  }

  predicate AllForeign(rs: seq<Rec>) {
    forall i :: 0 <= i < |rs| ==> !IsOwnCode(rs[i].code)
  }

  // ----- reading what was written -----

  /** The fields that are single values, and the counts. */
  predicate SameCounts(p: Sp, q: Sp) {
    && p.flags == q.flags && p.degree == q.degree
    && p.numKnots == q.numKnots && p.numControlPoints == q.numControlPoints && p.numFitPoints == q.numFitPoints
    && p.knotTolerance == q.knotTolerance && p.cpTolerance == q.cpTolerance
  }

  /** As far as getRecord can tell, but for the fit tolerance. */
  predicate Same(p: Sp, q: Sp)
    requires Writable(p) && Writable(q)
  {
    && SameCounts(p, q)
    && Coordinates(Knots, Items(p, Knots)) == Coordinates(Knots, Items(q, Knots))
    && Coordinates(Control, Items(p, Control)) == Coordinates(Control, Items(q, Control))
    && Coordinates(Fit, Items(p, Fit)) == Coordinates(Fit, Items(q, Fit))
    && forall i :: 0 <= i < p.numControlPoints ==> WeightAt(p, i) == WeightAt(q, i)
  }

  function Coordinates(w: Which, items: seq<Slot>): (s: seq<Slot>)
    ensures |s| == |items|
    ensures forall i :: 0 <= i < |items| ==> s[i] == Kept(w, items[i])
  {
    if items == [] then [] else [Kept(w, items[0])] + Coordinates(w, items[1..])
  }

  /** The part of an element that means something. */
  function Kept(w: Which, s: Slot): Slot {
    if w.Control? || w.Fit? then s else Slot(s.x, None, None)
  }

  lemma {:induction false} RunForeign(p: Sp, rs: seq<Rec>)
    requires AllForeign(rs)
    ensures Safe(p, rs) && Run(p, rs) == p
    decreases rs
  {
    if rs != [] {
      RunForeign(p, rs[1..]);
    }
  }

  /** The first k of n elements have come. */
  predicate HasItems(c: Channel, w: Which, items: seq<Slot>, k: nat)
    requires k <= |items|
  {
    if k == 0 then c.data.None?
    else
      && c.data.Some? && |c.data.value| == |items| && c.cnt == k
      && (forall i :: 0 <= i < k ==> c.data.value[i] == Kept(w, items[i]))
      && (forall i :: k <= i < |items| ==> c.data.value[i] == BLANK)
  }

  /** The array, opened or not, with its counter at k. */
  lemma OpenedAt(c: Channel, w: Which, items: seq<Slot>, k: nat)
    requires k < |items| <= 0x7fff && HasItems(c, w, items, k)
    ensures !Faults(c, |items|) && var o := Opened(c, |items|);
      o.data.Some? && |o.data.value| == |items| && o.cnt == k && o.data.value[k] == BLANK
  {
  }

  lemma FeedScalar(c: Channel, w: Which, items: seq<Slot>, k: nat)
    requires (w.Knots? || w.Weights?) && k < |items| <= 0x7fff && HasItems(c, w, items, k) && Full(w, items[k])
    ensures !Faults(c, |items|) && HasItems(Fed(c, |items|, 0, items[k].x.value, true), w, items, k + 1)
  {
  }

  /** The three coordinates of a point. */
  lemma FeedPoint(c: Channel, w: Which, items: seq<Slot>, k: nat) returns (c1: Channel, c2: Channel, c3: Channel)
    requires (w.Control? || w.Fit?) && k < |items| <= 0x7fff && HasItems(c, w, items, k) && Full(w, items[k])
    ensures !Faults(c, |items|) && c1 == Fed(c, |items|, 0, items[k].x.value, false)
    ensures !Faults(c1, |items|) && c2 == Fed(c1, |items|, 1, items[k].y.value, false)
    ensures !Faults(c2, |items|) && c3 == Fed(c2, |items|, 2, items[k].z.value, true)
    ensures HasItems(c3, w, items, k + 1)
  {
    var n := |items|;
    OpenedAt(c, w, items, k);
    c1 := Fed(c, n, 0, items[k].x.value, false);
    c2 := Fed(c1, n, 1, items[k].y.value, false);
    c3 := Fed(c2, n, 2, items[k].z.value, true);
    assert BLANK.With(0, items[k].x.value).With(1, items[k].y.value).With(2, items[k].z.value) == items[k];
    assert c3.data.value[k] == items[k];
    assert forall i :: 0 <= i < n && i != k ==> c3.data.value[i] == Opened(c, n).data.value[i];
  }

  lemma HandleChannel(p: Sp, w: Which, code: int, v: real)
    requires WhichOf(code) == Some(w) && !Faults(p.Get(w), p.Count(w))
    ensures !FaultsAt(p, Double(code, v))
    ensures var c := Fed(p.Get(w), p.Count(w), AxisOf(code), v, IsLast(code));
      && Handle(p, Double(code, v)) == p.With(w, c) && p.With(w, c).Get(w) == c && p.With(w, c).Count(w) == p.Count(w)
  {
    hide Faults, Fed;
  }

  lemma WithTwice(p: Sp, w: Which, c: Channel, d: Channel)
    ensures p.With(w, c).With(w, d) == p.With(w, d) && p.With(w, p.Get(w)) == p
  {
  }

  lemma RunItem(p: Sp, w: Which, items: seq<Slot>, k: nat) returns (c: Channel)
    requires k < |items| == p.Count(w) <= 0x7fff && HasItems(p.Get(w), w, items, k) && Full(w, items[k])
    ensures Safe(p, WrittenItem(w, items[k])) && Run(p, WrittenItem(w, items[k])) == p.With(w, c)
    ensures HasItems(c, w, items, k + 1)
  {
    var s := items[k];
    if w.Knots? || w.Weights? {
      var code := if w.Knots? then 40 else 41;
      FeedScalar(p.Get(w), w, items, k);
      hide Faults, Fed, HasItems, Handle, FaultsAt;
      HandleChannel(p, w, code, s.x.value);
      c := Fed(p.Get(w), p.Count(w), 0, s.x.value, true);
      RunOne(p, Double(code, s.x.value));
    } else {
      var c1, c2;
      c1, c2, c := FeedPoint(p.Get(w), w, items, k);
      var code := if w.Control? then 10 else 11;
      RunPoint(p, w, code, s, c1, c2, c);
    }
  }

  lemma RunPoint(p: Sp, w: Which, code: int, s: Slot, c1: Channel, c2: Channel, c3: Channel)
    requires (w.Control? && code == 10) || (w.Fit? && code == 11)
    requires Full(w, s) && !Faults(p.Get(w), p.Count(w)) && c1 == Fed(p.Get(w), p.Count(w), 0, s.x.value, false)
    requires !Faults(c1, p.Count(w)) && c2 == Fed(c1, p.Count(w), 1, s.y.value, false)
    requires !Faults(c2, p.Count(w)) && c3 == Fed(c2, p.Count(w), 2, s.z.value, true)
    ensures Safe(p, WrittenItem(w, s)) && Run(p, WrittenItem(w, s)) == p.With(w, c3)
  {
    hide Faults, Fed, Handle, FaultsAt;
    var x, y, z := Double(code, s.x.value), Double(code + 10, s.y.value), Double(code + 20, s.z.value);
    HandleChannel(p, w, code, x.double);
    var p1 := p.With(w, c1);
    HandleChannel(p1, w, code + 10, y.double);
    WithTwice(p, w, c1, c2);
    var p2 := p.With(w, c2);
    HandleChannel(p2, w, code + 20, z.double);
    WithTwice(p, w, c2, c3);
    RunOne(p, x);
    RunOne(p1, y);
    RunOne(p2, z);
    RunBoth(p, [x], [y]);
    RunBoth(p, [x] + [y], [z]);
  }

  lemma {:induction false} RunItems(p: Sp, w: Which, items: seq<Slot>, k: nat) returns (c: Channel)
    requires k <= |items| == p.Count(w) <= 0x7fff && p.Get(w).data.None? && AllFull(w, items)
    ensures Safe(p, WrittenItems(w, items, k)) && Run(p, WrittenItems(w, items, k)) == p.With(w, c)
    ensures HasItems(c, w, items, k)
  {
    WithTwice(p, w, p.Get(w), p.Get(w));
    if k == 0 {
      c := p.Get(w);
    } else {
      hide HasItems, WrittenItem;
      var before := RunItems(p, w, items, k - 1);
      var q := p.With(w, before);
      assert q.Get(w) == before && q.Count(w) == p.Count(w);
      c := RunItem(q, w, items, k - 1);
      WithTwice(p, w, before, c);
      RunBoth(p, WrittenItems(w, items, k - 1), WrittenItem(w, items[k - 1]));
    }
  }

  /** The object once its counts have come. */
  function Headed(p: Sp): Sp {
    Created().(flags := p.flags, degree := p.degree, numKnots := p.numKnots, numControlPoints := p.numControlPoints,
      numFitPoints := p.numFitPoints, knotTolerance := p.knotTolerance, cpTolerance := p.cpTolerance,
      fitTolerance := if p.numFitPoints != 0 then p.fitTolerance else DEFAULT_CP_TOLERANCE)
  }

  lemma {:induction false} RunPlain(p: Sp, rs: seq<Rec>)
    requires forall i :: 0 <= i < |rs| ==> WhichOf(rs[i].code).None?
    ensures Safe(p, rs)
    decreases rs
  {
    if rs != [] {
      RunPlain(Handle(p, rs[0]), rs[1..]);
    }
  }

  lemma RunCounts(p: Sp)
    ensures Safe(Created(), WrittenCounts(p)) && Run(Created(), WrittenCounts(p)) == Headed(p)
  {
    var a := [Whole(70, p.flags), Whole(71, p.degree), Whole(72, p.numKnots)];
    var b := [Whole(73, p.numControlPoints), Whole(74, p.numFitPoints), Double(42, p.knotTolerance)];
    var c := [Double(43, p.cpTolerance)] + if p.numFitPoints != 0 then [Double(44, p.fitTolerance)] else [];
    assert WrittenCounts(p) == a + b + c;
    var p1 := Created().(flags := p.flags, degree := p.degree, numKnots := p.numKnots);
    var p2 := p1.(numControlPoints := p.numControlPoints, numFitPoints := p.numFitPoints,
      knotTolerance := p.knotTolerance);
    RunPlain(Created(), a);
    RunThree(Created(), a);
    RunPlain(p1, b);
    RunThree(p1, b);
    RunBoth(Created(), a, b);
    RunOne(p2, c[0]);
    if p.numFitPoints != 0 {
      RunOne(p2.(cpTolerance := p.cpTolerance), c[1]);
      RunBoth(p2, [c[0]], [c[1]]);
      assert c == [c[0]] + [c[1]];
    } else {
      assert c == [c[0]];
    }
    RunBoth(Created(), a + b, c);
  }

  lemma RunThree(p: Sp, rs: seq<Rec>)
    requires |rs| == 3 && forall i :: 0 <= i < |rs| ==> WhichOf(rs[i].code).None?
    ensures Safe(p, rs) && Run(p, rs) == Handle(Handle(Handle(p, rs[0]), rs[1]), rs[2])
  {
    hide Handle;
    var p1 := Handle(p, rs[0]);
    var p2 := Handle(p1, rs[1]);
    RunOne(p, rs[0]);
    RunOne(p1, rs[1]);
    RunOne(p2, rs[2]);
    RunBoth(p, [rs[0]], [rs[1]]);
    RunBoth(p, [rs[0]] + [rs[1]], [rs[2]]);
    assert [rs[0]] + [rs[1]] + [rs[2]] == rs;
  }

  /** Everything that is written, part by part. */
  lemma RunWritten(p: Sp, others: seq<Rec>) returns (k: Channel, w: Channel, c: Channel, f: Channel)
    requires Writable(p) && AllForeign(others)
    ensures Safe(Created(), Written(p, others))
    ensures Run(Created(), Written(p, others))
      == Headed(p).With(Knots, k).With(Weights, w).With(Control, c).With(Fit, f)
    ensures HasItems(k, Knots, Items(p, Knots), |Items(p, Knots)|)
    ensures HasItems(c, Control, Items(p, Control), |Items(p, Control)|)
    ensures HasItems(f, Fit, Items(p, Fit), |Items(p, Fit)|)
    ensures if Weighted(p) then HasItems(w, Weights, Items(p, Weights), |Items(p, Weights)|) else w.data.None?
  {
    RunForeign(Created(), others);
    RunCounts(p);
    var q0 := Headed(p);
    assert q0.knots == q0.weights == q0.controlPoints == q0.fitPoints == EMPTY;
    hide WrittenCounts, HasItems, Weighted, Headed, WrittenAll, Items, Run, Safe, Sp.With, HasArray, AllForeign;
    k, w, c, f := RunArrays(p, q0);
    var q1 := q0.With(Knots, k);
    var q2 := q1.With(Weights, w);
    var q3 := q2.With(Control, c);
    RunSix([Created(), Created(), q0, q1, q2, q3, q3.With(Fit, f)], others, WrittenCounts(p),
           WrittenAll(Knots, Items(p, Knots)), WrittenWeights(p), WrittenAll(Control, Items(p, Control)),
           WrittenAll(Fit, Items(p, Fit)));
  }

  lemma RunArrays(p: Sp, q: Sp) returns (k: Channel, w: Channel, c: Channel, f: Channel)
    requires Writable(p) && q.numKnots == p.numKnots && q.numControlPoints == p.numControlPoints
    requires q.numFitPoints == p.numFitPoints
    requires q.knots == q.weights == q.controlPoints == q.fitPoints == EMPTY
    ensures var q1 := q.With(Knots, k); var q2 := q1.With(Weights, w); var q3 := q2.With(Control, c);
      && Safe(q, WrittenAll(Knots, Items(p, Knots))) && Run(q, WrittenAll(Knots, Items(p, Knots))) == q1
      && Safe(q1, WrittenWeights(p)) && Run(q1, WrittenWeights(p)) == q2
      && Safe(q2, WrittenAll(Control, Items(p, Control))) && Run(q2, WrittenAll(Control, Items(p, Control))) == q3
      && Safe(q3, WrittenAll(Fit, Items(p, Fit))) && Run(q3, WrittenAll(Fit, Items(p, Fit))) == q3.With(Fit, f)
    ensures HasItems(k, Knots, Items(p, Knots), |Items(p, Knots)|)
    ensures HasItems(c, Control, Items(p, Control), |Items(p, Control)|)
    ensures HasItems(f, Fit, Items(p, Fit), |Items(p, Fit)|)
    ensures if Weighted(p) then HasItems(w, Weights, Items(p, Weights), |Items(p, Weights)|) else w.data.None?
  {
    hide HasItems, WrittenAll, Items, Run, Safe, HasArray;
    k := RunPart(q, p, Knots);
    var q1 := q.With(Knots, k);
    if Weighted(p) {
      w := RunPart(q1, p, Weights);
    } else {
      w := EMPTY;
      RunNothing(q1);
    }
    var q2 := q1.With(Weights, w);
    c := RunPart(q2, p, Control);
    f := RunPart(q2.With(Control, c), p, Fit);
  }

  /** p[i + 1] is where part i leads from p[i]. */
  lemma RunSix(p: seq<Sp>, a: seq<Rec>, b: seq<Rec>, c: seq<Rec>, d: seq<Rec>, e: seq<Rec>, f: seq<Rec>)
    requires |p| == 7 && Safe(p[0], a) && Run(p[0], a) == p[1] && Safe(p[1], b) && Run(p[1], b) == p[2]
    requires Safe(p[2], c) && Run(p[2], c) == p[3] && Safe(p[3], d) && Run(p[3], d) == p[4]
    requires Safe(p[4], e) && Run(p[4], e) == p[5] && Safe(p[5], f) && Run(p[5], f) == p[6]
    ensures Safe(p[0], a + b + c + d + e + f) && Run(p[0], a + b + c + d + e + f) == p[6]
  {
    hide *;
    RunBoth(p[0], a, b);
    RunBoth(p[0], a + b, c);
    RunBoth(p[0], a + b + c, d);
    RunBoth(p[0], a + b + c + d, e);
    RunBoth(p[0], a + b + c + d + e, f);
  }

  lemma RunNothing(p: Sp)
    ensures Safe(p, []) && Run(p, []) == p
  {
  }

  /** One of the arrays. */
  lemma RunPart(q: Sp, p: Sp, w: Which) returns (c: Channel)
    requires Writable(p) && HasArray(p, w) && q.Count(w) == p.Count(w) && q.Get(w) == EMPTY
    ensures Safe(q, WrittenAll(w, Items(p, w))) && Run(q, WrittenAll(w, Items(p, w))) == q.With(w, c)
    ensures HasItems(c, w, Items(p, w), |Items(p, w)|)
  {
    if p.Count(w) > 0 {
      c := RunItems(q, w, Items(p, w), |Items(p, w)|);
    } else {
      c := EMPTY;
      RunNothing(q);
      WithTwice(q, w, c, c);
    }
  }

  lemma PartSurvives(p: Sp, q: Sp, w: Which)
    requires Writable(p) && HasArray(p, w) && q.Count(w) == p.Count(w)
    requires HasItems(q.Get(w), w, Items(p, w), |Items(p, w)|)
    ensures HasArray(q, w) && Coordinates(w, Items(q, w)) == Coordinates(w, Items(p, w))
    ensures forall i :: 0 <= i < p.Count(w) ==> Items(q, w)[i].x == Items(p, w)[i].x
  {
    if p.Count(w) > 0 {
      var a, b := Items(p, w), Items(q, w);
      forall i | 0 <= i < |a|
        ensures b[i] == Kept(w, a[i]) && Full(w, b[i])
      {
        assert Full(w, a[i]);
      }
    }
  }

  /** Handling what write() writes is safe and gives the spline back: knots,
      control points and fit points, and the same weight everywhere even when
      the weights are left out. The fit tolerance is kept with fit points only. */
  lemma SplineSurvives(p: Sp, others: seq<Rec>)
    requires Writable(p) && AllForeign(others)
    ensures Safe(Created(), Written(p, others))
    ensures var q := Run(Created(), Written(p, others));
      && Writable(q) && Same(p, q)
      && (q.fitTolerance == p.fitTolerance <==> p.numFitPoints != 0 || p.fitTolerance == DEFAULT_CP_TOLERANCE)
  {
    var k, w, c, f := RunWritten(p, others);
    var q := Run(Created(), Written(p, others));
    hide Run, Safe, Written, HasItems, HasArray, Items, Coordinates, Same, Writable;
    SameFromParts(p, q, k, w, c, f);
  }

  lemma SameFromParts(p: Sp, q: Sp, k: Channel, w: Channel, c: Channel, f: Channel)
    requires Writable(p) && q == Headed(p).With(Knots, k).With(Weights, w).With(Control, c).With(Fit, f)
    requires HasItems(k, Knots, Items(p, Knots), |Items(p, Knots)|)
    requires HasItems(c, Control, Items(p, Control), |Items(p, Control)|)
    requires HasItems(f, Fit, Items(p, Fit), |Items(p, Fit)|)
    requires if Weighted(p) then HasItems(w, Weights, Items(p, Weights), |Items(p, Weights)|) else w.data.None?
    ensures Writable(q) && Same(p, q)
  {
    hide HasItems, HasArray, Items, Coordinates;
    PartSurvives(p, q, Knots);
    PartSurvives(p, q, Control);
    PartSurvives(p, q, Fit);
    if Weighted(p) {
      PartSurvives(p, q, Weights);
    }
  }

  /** Without fit points, the fit tolerance is not written. */
  lemma FitToleranceIsLost()
    ensures var p := Created().(fitTolerance := 1.0);
      Writable(p) && Safe(Created(), Written(p, [])) && Run(Created(), Written(p, [])).fitTolerance != 1.0
  {
    hide Run, Safe, Written, Same;
    SplineSurvives(Created().(fitTolerance := 1.0), []);
  }

  // ----- records and defaults -----

  lemma {:induction false} RunLacks(p: Sp, rs: seq<Rec>)
    requires Safe(p, rs)
    ensures var q := Run(p, rs);
      && (Lacks(rs, 70) ==> q.flags == p.flags) && (Lacks(rs, 71) ==> q.degree == p.degree)
      && (Lacks(rs, 72) ==> q.numKnots == p.numKnots) && (Lacks(rs, 73) ==> q.numControlPoints == p.numControlPoints)
      && (Lacks(rs, 74) ==> q.numFitPoints == p.numFitPoints)
      && (Lacks(rs, 42) ==> q.knotTolerance == p.knotTolerance) && (Lacks(rs, 43) ==> q.cpTolerance == p.cpTolerance)
      && (Lacks(rs, 44) ==> q.fitTolerance == p.fitTolerance)
    decreases rs
  {
    if rs != [] {
      RunLacks(Handle(p, rs[0]), rs[1..]);
      hide Fed, Faults;
    }
  }

  /** What a spline is when nothing is said about it: planar, of degree three. */
  lemma Defaults(rs: seq<Rec>)
    requires Safe(Created(), rs)
    ensures var q := Run(Created(), rs);
      && (Lacks(rs, 70) ==> q.flags == 8) && (Lacks(rs, 71) ==> q.degree == 3)
      && (Lacks(rs, 72) ==> q.numKnots == 0) && (Lacks(rs, 73) ==> q.numControlPoints == 0)
      && (Lacks(rs, 74) ==> q.numFitPoints == 0)
      && (Lacks(rs, 42) ==> q.knotTolerance == 0.0000001) && (Lacks(rs, 43) ==> q.cpTolerance == 0.0000001)
      && (Lacks(rs, 44) ==> q.fitTolerance == 0.0000001)
  {
    RunLacks(Created(), rs);
  }

  /** The group codes of the elements of an array. */
  predicate IsElement(w: Which, code: int) {
    match w
    case Knots => code == 40
    case Weights => code == 41
    case Control => code == 10 || code == 20 || code == 30
    case Fit => code == 11 || code == 21 || code == 31
  }

  lemma ItemCounts(w: Which, s: Slot, code: int)
    requires Full(w, s)
    ensures Count(WrittenItem(w, s), code) == if IsElement(w, code) then 1 else 0
  {
    match w
    case Knots => CountOne(Double(40, s.x.value), code);
    case Weights => CountOne(Double(41, s.x.value), code);
    case Control => CountThree(Double(10, s.x.value), Double(20, s.y.value), Double(30, s.z.value), code);
    case Fit => CountThree(Double(11, s.x.value), Double(21, s.y.value), Double(31, s.z.value), code);
  }

  lemma CountThree(a: Rec, b: Rec, c: Rec, code: int)
    ensures Count([a] + [b] + [c], code)
         == (if a.code == code then 1 else 0) + (if b.code == code then 1 else 0) + (if c.code == code then 1 else 0)
  {
    CountAppend([a] + [b], [c], code);
    CountAppend([a], [b], code);
    CountOne(a, code);
    CountOne(b, code);
    CountOne(c, code);
  }

  lemma {:induction false} ItemsCount(w: Which, items: seq<Slot>, k: nat, code: int)
    requires AllFull(w, items) && k <= |items|
    ensures Count(WrittenItems(w, items, k), code) == if IsElement(w, code) then k else 0
  {
    if k > 0 {
      ItemsCount(w, items, k - 1, code);
      CountAppend(WrittenItems(w, items, k - 1), WrittenItem(w, items[k - 1]), code);
      ItemCounts(w, items[k - 1], code);
    }
  }

  lemma CountsCount(p: Sp, code: int)
    ensures Count(WrittenCounts(p), code)
         == if code == 44 then (if p.numFitPoints != 0 then 1 else 0)
            else if 70 <= code <= 74 || code == 42 || code == 43 then 1 else 0
  {
    var a, b, c, d := Whole(70, p.flags), Whole(71, p.degree), Whole(72, p.numKnots), Whole(73, p.numControlPoints);
    var e, f, g := Whole(74, p.numFitPoints), Double(42, p.knotTolerance), Double(43, p.cpTolerance);
    var h := if p.numFitPoints != 0 then [Double(44, p.fitTolerance)] else [];
    CountThree(a, b, c, code);
    CountThree(d, e, f, code);
    CountOne(g, code);
    CountOne(Double(44, p.fitTolerance), code);
    assert Count([], code) == 0;
    hide Count;
    var abc, def := [a] + [b] + [c], [d] + [e] + [f];
    CountAppend(abc, def, code);
    CountAppend(abc + def, [g], code);
    CountAppend(abc + def + [g], h, code);
    assert WrittenCounts(p) == abc + def + [g] + h;
  }

  lemma WrittenSum(p: Sp, others: seq<Rec>, code: int)
    requires Writable(p)
    ensures Count(Written(p, others), code)
         == Count(others, code) + Count(WrittenCounts(p), code) + Count(WrittenAll(Knots, Items(p, Knots)), code)
            + Count(WrittenWeights(p), code) + Count(WrittenAll(Control, Items(p, Control)), code)
            + Count(WrittenAll(Fit, Items(p, Fit)), code)
  {
    var k, c := WrittenAll(Knots, Items(p, Knots)), WrittenAll(Control, Items(p, Control));
    var a, f := others + WrittenCounts(p), WrittenAll(Fit, Items(p, Fit));
    hide Count, Items, WrittenAll, WrittenCounts, WrittenWeights;
    CountAppend(others, WrittenCounts(p), code);
    CountAppend(a, k, code);
    CountAppend(a + k, WrittenWeights(p), code);
    CountAppend(a + k + WrittenWeights(p), c, code);
    CountAppend(a + k + WrittenWeights(p) + c, f, code);
  }

  lemma WeightsCount(p: Sp, code: int)
    requires Writable(p)
    ensures Count(WrittenWeights(p), code)
         == if code == 41 && exists i :: 0 <= i < p.numControlPoints && WeightAt(p, i) != 1.0
            then p.numControlPoints else 0
  {
    if Weighted(p) {
      var w := Items(p, Weights);
      ItemsCount(Weights, w, |w|, code);
    } else {
      assert Count([], code) == 0;
    }
  }

  /** What is written of a spline, by group codes: each count and tolerance once,
      the fit tolerance only with fit points, as many knots and points as there
      are, and weights for all control points or, if all are one, for none. */
  lemma WrittenCodes(p: Sp, others: seq<Rec>, code: int)
    requires Writable(p) && AllForeign(others)
    ensures var n := Count(Written(p, others), code);
      && (code == 40 ==> n == if p.numKnots > 0 then p.numKnots else 0)
      && (code == 10 || code == 20 || code == 30 ==> n == if p.numControlPoints > 0 then p.numControlPoints else 0)
      && (code == 11 || code == 21 || code == 31 ==> n == if p.numFitPoints > 0 then p.numFitPoints else 0)
      && (code == 41 ==> n == if exists i :: 0 <= i < p.numControlPoints && WeightAt(p, i) != 1.0
                             then p.numControlPoints else 0)
      && (code == 44 ==> n == if p.numFitPoints != 0 then 1 else 0)
      && (70 <= code <= 74 || code == 42 || code == 43 ==> n == 1)
  {
    if IsOwnCode(code) {
      CountForeign(others, code);
      WrittenSum(p, others, code);
      CountsCount(p, code);
      WeightsCount(p, code);
      ItemsCount(Knots, Items(p, Knots), |Items(p, Knots)|, code);
      ItemsCount(Control, Items(p, Control), |Items(p, Control)|, code);
      ItemsCount(Fit, Items(p, Fit), |Items(p, Fit)|, code);
      hide Count, Written, WrittenWeights, WeightAt, WrittenCounts, WrittenItems;
    }
  }

  lemma RunStep(p: Sp, r: Rec, rs: seq<Rec>)
    requires !FaultsAt(p, r) && Safe(Handle(p, r), rs)
    ensures Safe(p, [r] + rs) && Run(p, [r] + rs) == Run(Handle(p, r), rs)
  {
    hide Handle, FaultsAt;
    assert ([r] + rs)[1..] == rs;
  }

  /** What the group codes of single values mean. */
  lemma CodesMean(f: int, d: int, nk: int, nc: int, nf: int, kt: real, ct: real, ft: real, rest: seq<Rec>)
    requires Safe(Created().(flags := f, degree := d, numKnots := nk, numControlPoints := nc, numFitPoints := nf,
                             knotTolerance := kt, cpTolerance := ct, fitTolerance := ft), rest)
    ensures var p := Created().(flags := f, degree := d, numKnots := nk, numControlPoints := nc, numFitPoints := nf,
                                knotTolerance := kt, cpTolerance := ct, fitTolerance := ft);
      var rs := [Whole(70, f)] + ([Whole(71, d)] + ([Whole(72, nk)] + ([Whole(73, nc)] + ([Whole(74, nf)]
        + ([Double(42, kt)] + ([Double(43, ct)] + ([Double(44, ft)] + rest)))))));
      Safe(Created(), rs) && Run(Created(), rs) == Run(p, rest)
  {
    var p1 := Created().(flags := f);
    var p2 := p1.(degree := d);
    var p3 := p2.(numKnots := nk);
    var p4 := p3.(numControlPoints := nc);
    var p5 := p4.(numFitPoints := nf);
    var p6 := p5.(knotTolerance := kt);
    var p7 := p6.(cpTolerance := ct);
    hide Safe, Run;
    var r8 := [Double(44, ft)] + rest;
    RunStep(p7, Double(44, ft), rest);
    var r7 := [Double(43, ct)] + r8;
    RunStep(p6, Double(43, ct), r8);
    var r6 := [Double(42, kt)] + r7;
    RunStep(p5, Double(42, kt), r7);
    var r5 := [Whole(74, nf)] + r6;
    RunStep(p4, Whole(74, nf), r6);
    var r4 := [Whole(73, nc)] + r5;
    RunStep(p3, Whole(73, nc), r5);
    var r3 := [Whole(72, nk)] + r4;
    RunStep(p2, Whole(72, nk), r4);
    var r2 := [Whole(71, d)] + r3;
    RunStep(p1, Whole(71, d), r3);
    RunStep(Created(), Whole(70, f), r2);
  }

  /** What the group codes of the arrays mean, for the first element of each. */
  lemma ElementsMean(p: Sp, k: real, w: real, c: Vector, f: Vector)
    requires p.numKnots == p.numControlPoints == p.numFitPoints == 1
    requires p.knots == p.weights == p.controlPoints == p.fitPoints == Channel(None, 0)
    ensures var rs := [Double(40, k)] + ([Double(41, w)] + ([Double(10, c.x)] + ([Double(20, c.y)] + ([Double(30, c.z)]
        + ([Double(11, f.x)] + ([Double(21, f.y)] + ([Double(31, f.z)] + [])))))));
      && Safe(p, rs)
      && Run(p, rs) == p.(knots := Channel(Some([Slot(Some(k), None, None)]), 1),
                          weights := Channel(Some([Slot(Some(w), None, None)]), 1),
                          controlPoints := Channel(Some([Slot(Some(c.x), Some(c.y), Some(c.z))]), 1),
                          fitPoints := Channel(Some([Slot(Some(f.x), Some(f.y), Some(f.z))]), 1))
  {
    ScalarMeans(EMPTY, k);
    ScalarMeans(EMPTY, w);
    var c1, c2 := PointMeans(c);
    var f1, f2 := PointMeans(f);
    var p1 := p.(knots := Channel(Some([Slot(Some(k), None, None)]), 1));
    var p2 := p1.(weights := Channel(Some([Slot(Some(w), None, None)]), 1));
    var p3 := p2.(controlPoints := c1);
    var p4 := p2.(controlPoints := c2);
    var p5 := p2.(controlPoints := Channel(Some([Slot(Some(c.x), Some(c.y), Some(c.z))]), 1));
    var p6 := p5.(fitPoints := f1);
    var p7 := p5.(fitPoints := f2);
    hide Fed, Faults, Safe, Run;
    RunNothing(Handle(p7, Double(31, f.z)));
    var r8 := [Double(31, f.z)] + [];
    RunStep(p7, Double(31, f.z), []);
    var r7 := [Double(21, f.y)] + r8;
    RunStep(p6, Double(21, f.y), r8);
    var r6 := [Double(11, f.x)] + r7;
    RunStep(p5, Double(11, f.x), r7);
    var r5 := [Double(30, c.z)] + r6;
    RunStep(p4, Double(30, c.z), r6);
    var r4 := [Double(20, c.y)] + r5;
    RunStep(p3, Double(20, c.y), r5);
    var r3 := [Double(10, c.x)] + r4;
    RunStep(p2, Double(10, c.x), r4);
    var r2 := [Double(41, w)] + r3;
    RunStep(p1, Double(41, w), r3);
    RunStep(p, Double(40, k), r2);
  }

  lemma ScalarMeans(c: Channel, v: real)
    requires c == EMPTY
    ensures !Faults(c, 1) && Fed(c, 1, 0, v, true) == Channel(Some([Slot(Some(v), None, None)]), 1)
  {
    assert Blanks(1) == [BLANK];
    assert [BLANK][0 := BLANK.With(0, v)] == [Slot(Some(v), None, None)];
  }

  lemma PointMeans(q: Vector) returns (c1: Channel, c2: Channel)
    ensures !Faults(EMPTY, 1) && c1 == Fed(EMPTY, 1, 0, q.x, false)
    ensures !Faults(c1, 1) && c2 == Fed(c1, 1, 1, q.y, false)
    ensures !Faults(c2, 1)
    ensures Fed(c2, 1, 2, q.z, true) == Channel(Some([Slot(Some(q.x), Some(q.y), Some(q.z))]), 1)
  {
    assert Blanks(1) == [BLANK];
    c1 := Fed(EMPTY, 1, 0, q.x, false);
    assert [BLANK][0 := BLANK.With(0, q.x)] == [Slot(Some(q.x), None, None)];
    assert c1 == Channel(Some([Slot(Some(q.x), None, None)]), 0);
    c2 := Fed(c1, 1, 1, q.y, false);
    var x, y := Slot(Some(q.x), None, None), Slot(Some(q.x), Some(q.y), None);
    assert [x][0 := y] == [y] && x.With(1, q.y) == y;
    assert c2 == Channel(Some([y]), 0);
    assert [y][0 := y.With(2, q.z)] == [Slot(Some(q.x), Some(q.y), Some(q.z))];
  }

  // ----- the object -----

  class Entity {
    var flags: int
    var degree: int
    var numKnots: int
    var numControlPoints: int
    var numFitPoints: int
    var knotTolerance: real
    var fitTolerance: real
    var cpTolerance: real
    var knots: array?<Slot>
    var weights: array?<Slot>
    var controlPoints: array?<Slot>
    var fitPoints: array?<Slot>
    var knotCnt: int
    var fitCnt: int
    var cpCnt: int
    var weightCnt: int

    ghost predicate Apart()
      reads this
    {
      && (knots != null ==> knots != weights && knots != controlPoints && knots != fitPoints)
      && (weights != null ==> weights != controlPoints && weights != fitPoints)
      && (controlPoints != null ==> controlPoints != fitPoints)
    }

    ghost function View(): Sp
      reads this, knots, weights, controlPoints, fitPoints
    {
      Sp(flags, degree, numKnots, numControlPoints, numFitPoints, knotTolerance, fitTolerance, cpTolerance,
         ChannelOf(knots, knotCnt), ChannelOf(weights, weightCnt), ChannelOf(controlPoints, cpCnt),
         ChannelOf(fitPoints, fitCnt))
    }

    constructor ()
      ensures Apart() && View() == Created()
    {
      flags, degree, numKnots, numControlPoints, numFitPoints := PLANAR, 3, 0, 0, 0;
      knotTolerance, fitTolerance, cpTolerance := DEFAULT_CP_TOLERANCE, DEFAULT_CP_TOLERANCE, DEFAULT_CP_TOLERANCE;
      knots, weights, controlPoints, fitPoints := null, null, null, null;
      knotCnt, weightCnt, cpCnt, fitCnt := 0, 0, 0, 0;
    }

    /** True when the record is this class's own. */
    method HandleRecord(r: Rec) returns (handled: bool)
      requires Apart() && !FaultsAt(View(), r)
      modifies this, knots, weights, controlPoints, fitPoints
      ensures Apart() && View() == Handle(old(View()), r) && (handled <==> IsOwnCode(r.code))
    {
      if r.code == 10 || r.code == 20 || r.code == 30 || r.code == 11 || r.code == 21 || r.code == 31 {
        HandlePoint(r);
        return true;
      }
      if r.code == 40 || r.code == 41 {
        HandleScalar(r);
        return true;
      }
      handled := HandleValue(r);
    }

    method HandlePoint(r: Rec)
      requires Apart() && !FaultsAt(View(), r) && (WhichOf(r.code) == Some(Control) || WhichOf(r.code) == Some(Fit))
      modifies this`controlPoints, this`cpCnt, this`fitPoints, this`fitCnt, controlPoints, fitPoints
      ensures Apart() && View() == Handle(old(View()), r)
    {
      hide Fed, Faults, ChannelOf;
      if r.code == 10 || r.code == 20 || r.code == 30 {
        controlPoints, cpCnt := Feed(controlPoints, cpCnt, numControlPoints, r.code / 10 - 1, r.double, r.code == 30);
      } else {
        fitPoints, fitCnt := Feed(fitPoints, fitCnt, numFitPoints, r.code / 10 - 1, r.double, r.code == 31);
      }
    }

    method HandleScalar(r: Rec)
      requires Apart() && !FaultsAt(View(), r) && (r.code == 40 || r.code == 41)
      modifies this`knots, this`knotCnt, this`weights, this`weightCnt, knots, weights
      ensures Apart() && View() == Handle(old(View()), r)
    {
      hide Fed, Faults, ChannelOf;
      if r.code == 40 {
        knots, knotCnt := Feed(knots, knotCnt, numKnots, 0, r.double, true);
      } else {
        weights, weightCnt := Feed(weights, weightCnt, numControlPoints, 0, r.double, true);
      }
    }

    method HandleValue(r: Rec) returns (handled: bool)
      requires WhichOf(r.code).None?
      modifies this`knotTolerance, this`cpTolerance, this`fitTolerance, this`flags, this`degree, this`numKnots,
               this`numControlPoints, this`numFitPoints
      ensures View() == Handle(old(View()), r) && (handled <==> IsOwnCode(r.code))
    {
      hide ChannelOf;
      match r.code {
        case 42 => knotTolerance := r.double;
        case 43 => cpTolerance := r.double;
        case 44 => fitTolerance := r.double;
        case 70 => flags := r.whole;
        case 71 => degree := r.whole;
        case 72 => numKnots := r.whole;
        case 73 => numControlPoints := r.whole;
        case 74 => numFitPoints := r.whole;
        case _ => return false;
      }
      handled := true;
    }

    method HasWeights() returns (b: bool)
      requires Writable(View())
      ensures b <==> Weighted(View())
    {
      if weights == null {
        return false;
      }
      var i, n := 0, numControlPoints;
      while i < n
        invariant 0 <= i && (i > 0 ==> i <= n)
        invariant forall k :: 0 <= k < i ==> WeightAt(View(), k) == 1.0
      {
        assert Full(Weights, Items(View(), Weights)[i]);
        if weights[i].x.value != 1.0 {
          assert WeightAt(View(), i) != 1.0;
          break;
        }
        i := i + 1;
      }
      b := i < n;
    }

    method WriteCounts() returns (rs: seq<Rec>)
      ensures rs == WrittenCounts(View())
    {
      rs := [Whole(70, flags), Whole(71, degree), Whole(72, numKnots), Whole(73, numControlPoints),
        Whole(74, numFitPoints)];
      rs := rs + [Double(42, knotTolerance), Double(43, cpTolerance)];
      if numFitPoints != 0 {
        rs := rs + [Double(44, fitTolerance)];
      }
    }

    /** One of the four loops over the arrays. */
    method WriteChannel(w: Which) returns (rs: seq<Rec>)
      requires HasArray(View(), w)
      ensures rs == WrittenAll(w, Items(View(), w))
    {
      hide WrittenAll;
      match w {
        case Knots => rs := WriteArray(knots, numKnots, w);
        case Weights => rs := WriteArray(weights, numControlPoints, w);
        case Control => rs := WriteArray(controlPoints, numControlPoints, w);
        case Fit => rs := WriteArray(fitPoints, numFitPoints, w);
      }
    }

    /** The records of write(), behind those of the base class. */
    method Write(others: seq<Rec>) returns (rs: seq<Rec>)
      requires Writable(View())
      ensures rs == Written(View(), others)
    {
      hide WrittenCounts, WrittenAll, Items, HasArray, View, WeightAt;
      var counts := WriteCounts();
      var part := WriteChannel(Knots);
      rs := others + counts + part;
      var b := HasWeights();
      if b {
        part := WriteChannel(Weights);
        rs := rs + part;
      }
      part := WriteChannel(Control);
      rs := rs + part;
      part := WriteChannel(Fit);
      rs := rs + part;
    }
  }

  ghost function ChannelOf(a: array?<Slot>, cnt: int): Channel
    reads a
  {
    Channel(if a == null then None else Some(a[..]), cnt)
  }

  /** One value: allocates the array at the first, and stores and counts it. */
  method Feed(a: array?<Slot>, cnt: int, n: int, axis: int, v: real, last: bool) returns (a': array?<Slot>, cnt': int)
    requires !Faults(ChannelOf(a, cnt), n)
    modifies a
    ensures ChannelOf(a', cnt') == Fed(old(ChannelOf(a, cnt)), n, axis, v, last)
    ensures a' == a || (a == null && fresh(a'))
  {
    a', cnt' := a, cnt;
    if a' == null && n != 0 {
      cnt' := 0;
      a' := new Slot[n](_ => BLANK);
      assert a'[..] == Blanks(n);
    }
    if a' != null && cnt' < n {
      a'[cnt'] := a'[cnt'].With(axis, v);
    }
    if last {
      cnt' := ToInt16(cnt' + 1);
    }
  }

  method WriteArray(a: array?<Slot>, n: int, w: Which) returns (rs: seq<Rec>)
    requires n > 0 ==> a != null && n <= a.Length && AllFull(w, a[..n])
    ensures rs == WrittenAll(w, if n > 0 then a[..n] else [])
  {
    hide WrittenItem, Full;
    rs := [];
    var i := 0;
    ghost var items := if n > 0 then a[..n] else [];
    while i < n
      invariant 0 <= i && (i > 0 ==> i <= n) && rs == WrittenItems(w, items, i)
    {
      assert items[i] == a[i] && Full(w, items[i]);
      var item := WriteItem(w, a[i]);
      rs := rs + item;
      i := i + 1;
    }
  }

  method WriteItem(w: Which, s: Slot) returns (rs: seq<Rec>)
    requires Full(w, s)
    ensures rs == WrittenItem(w, s)
  {
    match w {
      case Knots => rs := [Double(40, s.x.value)];
      case Weights => rs := [Double(41, s.x.value)];
      case Control => rs := [Double(10, s.x.value), Double(20, s.y.value), Double(30, s.z.value)];
      case Fit => rs := [Double(11, s.x.value), Double(21, s.y.value), Double(31, s.z.value)];
    }
  }
}
