/** src/entities/LWPolyline.cpp: vertices rebuilt from a flat stream of records. */
module LWPolyline {
  import opened Wrappers
  import opened Tokens
  import opened Params

  /** The coordinates are not initialised before they are read. */
  datatype Arrays = Arrays(x: seq<Option<real>>, y: seq<Option<real>>, bulge: seq<real>, widths: Option<Widths>) {
    predicate Sized(n: int) {
      |x| == |y| == |bulge| == n && (widths.Some? ==> |widths.value.start| == |widths.value.end| == n)
    }
  }

  datatype Widths = Widths(start: seq<real>, end: seq<real>)

  /** The fields of the object; tmpFlags as the set of the group codes whose bits
      are set. */
  datatype Lw = Lw(
    constantWidth: real, elevation: real, flags: int, numVertices: int,
    tmpCounter: int, seen: set<int>, arrays: Option<Arrays>, thickness: real, extrusion: Vector)

  const Z_AXIS: Vector := Vector(0.0, 0.0, 1.0)

  function Created(): Lw {
    Lw(0.0, 0.0, 0, 0, 0, {}, None, 0.0, Z_AXIS)
  }

  const VERTEX_CODES: set<int> := {10, 20, 40, 41, 42}

  predicate IsVertexCode(code: int) {
    code == 10 || code == 20 || code == 40 || code == 41 || code == 42
  }

  predicate IsOwnCode(code: int) {
    IsVertexCode(code) || code == 38 || code == 43 || code == 70 || code == 90
    || code == 39 || code == 210 || code == 220 || code == 230
  }

  function Repeat<T>(n: nat, v: T): (s: seq<T>)
    ensures |s| == n && forall i :: 0 <= i < n ==> s[i] == v
  {
    seq(n, _ => v)
  }

  function Allocated(p: Lw): Lw
    requires p.numVertices > 0
  {
    var n := p.numVertices;
    var zeros := Repeat(n, 0.0);
    p.(arrays := Some(Arrays(Repeat(n, None), Repeat(n, None), zeros,
         if p.constantWidth == 0.0 then Some(Widths(zeros, zeros)) else None)),
       tmpCounter := 0, seen := {})
  }

  /** A record of a kind that the current vertex already has starts the next. */
  function Advanced(p: Lw, code: int): Lw {
    if code in p.seen then p.(seen := {}, tmpCounter := ToInt16(p.tmpCounter + 1)) else p
  }

  function Stored(a: Arrays, code: int, i: int, v: real): Arrays
    requires a.Sized(|a.x|) && 0 <= i < |a.x| && (code == 40 || code == 41 ==> a.widths.Some?)
  {
    if code == 10 then a.(x := a.x[i := Some(v)])
    else if code == 20 then a.(y := a.y[i := Some(v)])
    else if code == 40 then a.(widths := Some(a.widths.value.(start := a.widths.value.start[i := v])))
    else if code == 41 then a.(widths := Some(a.widths.value.(end := a.widths.value.end[i := v])))
    else a.(bulge := a.bulge[i := v])
  }

  /** The object just before it stores a vertex record, or decides not to. */
  function Prepared(p: Lw, code: int): Lw {
    if p.arrays.Some? then Advanced(p, code)
    else if p.numVertices > 0 then Advanced(Allocated(p), code)
    else p
  }

  predicate Stores(p: Lw, code: int) {
    p.arrays.Some? && p.tmpCounter < p.numVertices && (code == 40 || code == 41 ==> p.arrays.value.widths.Some?)
  }

  predicate Valid(p: Lw) {
    p.arrays.Some? ==> p.arrays.value.Sized(|p.arrays.value.x|)
  }

  /** The record is stored outside the arrays. */
  predicate Overruns(p: Lw, r: Rec) {
    var q := Prepared(p, r.code);
    IsVertexCode(r.code) && Stores(q, r.code) && !(0 <= q.tmpCounter < |q.arrays.value.x|)
  }

  /** handleRecord, with that of the extrusion entity. */
  function Handle(p: Lw, r: Rec): (q: Lw)
    requires Valid(p) && !Overruns(p, r)
    ensures Valid(q)
  {
    if IsVertexCode(r.code) then
      var q := Prepared(p, r.code);
      if Stores(q, r.code) then
        q.(seen := q.seen + {r.code}, arrays := Some(Stored(q.arrays.value, r.code, q.tmpCounter, r.double)))
      else q
    else if r.code == 38 then p.(elevation := r.double)
    else if r.code == 43 then p.(constantWidth := r.double)
    else if r.code == 70 then p.(flags := r.whole)
    else if r.code == 90 then p.(numVertices := r.whole)
    else if r.code == 39 then p.(thickness := r.double)
    else if r.code == 210 then p.(extrusion := p.extrusion.(x := r.double))
    else if r.code == 220 then p.(extrusion := p.extrusion.(y := r.double))
    else if r.code == 230 then p.(extrusion := p.extrusion.(z := r.double))
    else p
  }

  /** No record of the stream is stored outside the arrays. */
  predicate Safe(p: Lw, rs: seq<Rec>)
    requires Valid(p)
    decreases rs
  {
    rs != [] ==> !Overruns(p, rs[0]) && Safe(Handle(p, rs[0]), rs[1..])
  }

  function Run(p: Lw, rs: seq<Rec>): (q: Lw)
    requires Valid(p) && Safe(p, rs)
    ensures Valid(q)
    decreases rs
  {
    if rs == [] then p else Run(Handle(p, rs[0]), rs[1..])
  }

  lemma {:induction false} RunBoth(p: Lw, a: seq<Rec>, b: seq<Rec>)
    requires Valid(p) && Safe(p, a) && Safe(Run(p, a), b)
    ensures Safe(p, a + b) && Run(p, a + b) == Run(Run(p, a), b)
    decreases a
  {
    if a == [] {
      assert a + b == b;
    } else {
      assert (a + b)[1..] == a[1..] + b;
      RunBoth(Handle(p, a[0]), a[1..], b);
    }
  }

  // ----- safety -----

  /** The counter is at most where the arrays end, and below while a vertex is
      being filled in. */
  predicate InStep(p: Lw) {
    && Valid(p)
    && (p.arrays.Some? ==>
          var n := |p.arrays.value.x|;
          && 0 <= p.tmpCounter <= n && p.tmpCounter <= 0x7fff && (p.seen != {} ==> p.tmpCounter < n)
          && (p.arrays.value.widths.None? ==> p.seen !! {40, 41}))
  }

  lemma CounterWraps()
    ensures ToInt16(0x8000) == -0x8000
  {
  }

  lemma AdvancedStays(p: Lw, code: int)
    requires InStep(p) && p.arrays.Some? && (Announced(p) || p.numVertices > 0)
    ensures var q := Advanced(p, code);
      (Stores(q, code) && 0 <= q.tmpCounter ==> InStep(q)) && (!Stores(q, code) ==> InStep(q))
  {
    hide ToInt16;
    if code in p.seen {
      assert p.seen != {} && p.tmpCounter < |p.arrays.value.x|;
      if p.tmpCounter == 0x7fff {
        CounterWraps();
      }
    }
  }

  lemma AllocatedInStep(p: Lw)
    requires p.numVertices > 0
    ensures InStep(Allocated(p)) && (Announced(p) ==> Announced(Allocated(p)))
    ensures Allocated(p).arrays.Some? && Allocated(p).numVertices > 0
  {
  }

  lemma PreparedIsValid(p: Lw, code: int)
    requires Valid(p)
    ensures Valid(Prepared(p, code))
  {
  }

  lemma PreparedStays(p: Lw, code: int)
    requires InStep(p) && (Announced(p) || p.numVertices > 0)
    ensures var q := Prepared(p, code);
      Valid(q) && (Stores(q, code) && 0 <= q.tmpCounter ==> InStep(q)) && (!Stores(q, code) ==> InStep(q))
  {
    hide Advanced, Allocated, Announced;
    if p.arrays.Some? {
      AdvancedStays(p, code);
    } else if p.numVertices > 0 {
      AllocatedInStep(p);
      AdvancedStays(Allocated(p), code);
    }
    PreparedIsValid(p, code);
  }

  lemma StepStays(p: Lw, r: Rec)
    requires InStep(p) && !Overruns(p, r) && (Announced(p) || p.numVertices > 0)
    ensures InStep(Handle(p, r))
  {
    if IsVertexCode(r.code) {
      PreparedStays(p, r.code);
      hide Prepared;
    }
  }

  /** As many vertices as the arrays hold, once there are arrays, and no more
      than the 16-bit counter can count. */
  predicate Announced(p: Lw) {
    && p.numVertices <= 0x7fff
    && (p.arrays.Some? ==> p.numVertices <= |p.arrays.value.x|)
    && (p.arrays.Some? && p.seen != {} ==> p.tmpCounter < 0x7fff)
  }

  /** What makes a number of vertices acceptable when it arrives. */
  predicate Admissible(p: Lw, r: Rec) {
    r.code == 90 ==> r.whole <= 0x7fff && (p.arrays.Some? ==> r.whole <= |p.arrays.value.x|)
  }

  predicate AllAdmissible(p: Lw, rs: seq<Rec>)
    requires Valid(p)
    decreases rs
  {
    rs != [] ==> Admissible(p, rs[0]) && (!Overruns(p, rs[0]) ==> AllAdmissible(Handle(p, rs[0]), rs[1..]))
  }

  lemma StepIsSafe(p: Lw, r: Rec)
    requires InStep(p) && Announced(p) && Admissible(p, r)
    ensures !Overruns(p, r) && Announced(Handle(p, r))
  {
  }

  /** Every stream, whatever its records: as long as no number of vertices
      exceeds the arrays that are already there, nothing is stored outside them. */
  lemma {:induction false} AdmissibleIsSafe(p: Lw, rs: seq<Rec>)
    requires InStep(p) && Announced(p) && AllAdmissible(p, rs)
    ensures Safe(p, rs)
    decreases rs
  {
    if rs != [] {
      StepIsSafe(p, rs[0]);
      StepStays(p, rs[0]);
      AdmissibleIsSafe(Handle(p, rs[0]), rs[1..]);
    }
  }

  /** Without the condition: one vertex is announced, and two after the first. */
  lemma LateAnnouncementOverruns()
    ensures !Safe(Created(), [Whole(90, 1), Double(10, 0.0), Whole(90, 2), Double(10, 0.0)])
  {
    var a := Handle(Created(), Whole(90, 1));
    var b := Handle(a, Double(10, 0.0));
    assert |b.arrays.value.x| == 1 && b.tmpCounter == 0 && b.seen == {10};
    var c := Handle(b, Whole(90, 2));
    assert Overruns(c, Double(10, 0.0));
    var rs := [Whole(90, 1), Double(10, 0.0), Whole(90, 2), Double(10, 0.0)];
    assert rs[1..][1..][1..] == [Double(10, 0.0)];
    assert rs[1..][1..] == [Whole(90, 2), Double(10, 0.0)];
    assert rs[1..] == [Double(10, 0.0), Whole(90, 2), Double(10, 0.0)];
  }

  predicate AllVertexCodes(rs: seq<Rec>) {
    forall i :: 0 <= i < |rs| ==> IsVertexCode(rs[i].code)
  }

  /** Steps that x records still take to reach the end of the arrays. */
  function Distance(p: Lw): int
    requires p.arrays.Some?
  {
    var n := |p.arrays.value.x|;
    2 * ((if n < 0x8000 then n else 0x8000) - p.tmpCounter) - (if 10 in p.seen then 1 else 0)
  }

  lemma OneMoreX(p: Lw, r: Rec)
    requires InStep(p) && p.arrays.Some? && r == Double(10, 0.0) && !Overruns(p, r)
    requires p.numVertices > 0x7fff || p.numVertices > |p.arrays.value.x|
    ensures var q := Handle(p, r);
      q.arrays.Some? && q.numVertices == p.numVertices && |q.arrays.value.x| == |p.arrays.value.x|
        && Distance(q) < Distance(p)
  {
  }

  /** Too many vertices announced: x records alone run out of the arrays. */
  lemma {:induction false} TooManyOverrun(p: Lw) returns (rs: seq<Rec>)
    requires InStep(p) && p.arrays.Some?
    requires p.numVertices > 0x7fff || p.numVertices > |p.arrays.value.x|
    ensures AllVertexCodes(rs) && !Safe(p, rs)
    decreases Distance(p)
  {
    var r := Double(10, 0.0);
    if Overruns(p, r) {
      rs := [r];
    } else {
      OneMoreX(p, r);
      StepStays(p, r);
      var later := TooManyOverrun(Handle(p, r));
      rs := [r] + later;
      assert rs[1..] == later;
    }
  }

  /** What every object is like that has not stored outside its arrays: a vertex
      is being filled in within them, or the counter has wrapped around, which
      takes a number of vertices below everything it can hold. */
  predicate Reached(p: Lw) {
    p.seen <= VERTEX_CODES && (InStep(p) || (Valid(p) && p.arrays.Some? && p.tmpCounter == -0x8000 && p.seen == {}))
  }

  lemma StepReaches(p: Lw, r: Rec)
    requires Reached(p) && !Overruns(p, r)
    ensures Reached(Handle(p, r))
  {
    hide ToInt16;
    CounterWraps();
    CounterCounts(p.tmpCounter);
  }

  lemma CounterCounts(n: int)
    ensures -0x8000 <= n < 0x7fff ==> ToInt16(n + 1) == n + 1
  {
  }

  lemma {:induction false} RunReaches(p: Lw, rs: seq<Rec>)
    requires Reached(p) && Safe(p, rs)
    ensures Reached(Run(p, rs))
    decreases rs
  {
    if rs != [] {
      StepReaches(p, rs[0]);
      RunReaches(Handle(p, rs[0]), rs[1..]);
    }
  }

  /** Nothing is stored when the number of vertices is below every counter. */
  lemma {:induction false} NothingIsStored(p: Lw, rs: seq<Rec>)
    requires Reached(p) && p.numVertices <= -0x8000 && AllVertexCodes(rs)
    ensures Safe(p, rs)
    decreases rs
  {
    if rs != [] {
      assert IsVertexCode(rs[0].code);
      NoRoom(p, rs[0]);
      StepReaches(p, rs[0]);
      NothingIsStored(Handle(p, rs[0]), rs[1..]);
    }
  }

  lemma NoRoom(p: Lw, r: Rec)
    requires Reached(p) && p.numVertices <= -0x8000 && IsVertexCode(r.code)
    ensures !Overruns(p, r) && Handle(p, r).numVertices == p.numVertices
  {
    hide ToInt16;
    CounterWraps();
    CounterCounts(p.tmpCounter);
  }

  /** Exactly when the vertex records that may still come are harmless: nothing
      can be stored any more, or as many vertices are announced as the arrays
      hold, few enough for the counter, which has not passed its last value and
      is not about to. */
  predicate Harmless(p: Lw) {
    p.numVertices <= -0x8000 || (Announced(p) && (p.arrays.Some? ==> p.tmpCounter >= 0))
  }

  /** In every state that any records have led to. */
  lemma VerticesAreSafe(before: seq<Rec>)
    requires Safe(Created(), before)
    ensures (forall rs :: AllVertexCodes(rs) ==> Safe(Run(Created(), before), rs)) <==> Harmless(Run(Created(), before))
  {
    RunReaches(Created(), before);
    var p := Run(Created(), before);
    if p.numVertices <= -0x8000 {
      forall rs | AllVertexCodes(rs)
        ensures Safe(p, rs)
      {
        NothingIsStored(p, rs);
      }
    } else if Harmless(p) {
      forall rs | AllVertexCodes(rs)
        ensures Safe(p, rs)
      {
        WithoutAnnouncementAdmissible(p, rs);
        AdmissibleIsSafe(p, rs);
      }
    } else {
      var rs := SomeOverrun(p);
    }
  }

  /** Otherwise some of them are not. */
  lemma SomeOverrun(p: Lw) returns (rs: seq<Rec>)
    requires Reached(p) && !Harmless(p)
    ensures AllVertexCodes(rs) && !Safe(p, rs)
  {
    var r := Double(10, 0.0);
    if p.arrays.None? {
      AllocatedInStep(p);
      StepStays(p, r);
      var later := TooManyOverrun(Handle(p, r));
      rs := [r] + later;
      assert rs[1..] == later;
    } else if p.tmpCounter < 0 {
      rs := [r];
    } else if p.numVertices > 0x7fff || p.numVertices > |p.arrays.value.x| {
      rs := TooManyOverrun(p);
    } else {
      var code :| code in p.seen;
      CounterWraps();
      assert Overruns(p, Double(code, 0.0));
      rs := [Double(code, 0.0)];
    }
  }

  lemma {:induction false} WithoutAnnouncementAdmissible(q: Lw, rs: seq<Rec>)
    requires Valid(q) && forall i :: 0 <= i < |rs| ==> rs[i].code != 90
    ensures AllAdmissible(q, rs)
    decreases rs
  {
    if rs != [] && !Overruns(q, rs[0]) {
      WithoutAnnouncementAdmissible(Handle(q, rs[0]), rs[1..]);
    }
  }

  // ----- writing -----

  function When(c: bool, rs: seq<Rec>): seq<Rec> {
    if c then rs else []
  }

  /** writeExtrusionData */
  function WrittenExtrusion(p: Lw): seq<Rec> {
    When(p.thickness != 0.0, [Double(39, p.thickness)])
    + When(p.extrusion != Z_AXIS, [Double(210, p.extrusion.x), Double(220, p.extrusion.y), Double(230, p.extrusion.z)])
  }

  /** What is written before the records of the base class. */
  function WrittenHead(p: Lw): seq<Rec> {
    [Whole(90, ToInt16(p.numVertices))]
    + When(p.flags != 0, [Whole(70, p.flags)])
    + When(p.elevation != 0.0, [Double(38, p.elevation)])
    + When(p.constantWidth != 0.0, [Double(43, p.constantWidth)])
    + WrittenExtrusion(p)
  }

  /** Arrays that hold every vertex, with coordinates that have been set. */
  predicate Writable(p: Lw) {
    && Valid(p)
    && (p.numVertices > 0 ==>
          && p.arrays.Some? && p.numVertices <= |p.arrays.value.x|
          && forall i :: 0 <= i < p.numVertices ==> p.arrays.value.x[i].Some? && p.arrays.value.y[i].Some?)
  }

  function WrittenVertex(p: Lw, i: nat): seq<Rec>
    requires Writable(p) && i < p.numVertices
  {
    var a := p.arrays.value;
    [Double(10, a.x[i].value)] + [Double(20, a.y[i].value)]
    + (if a.widths.Some? then
         When(a.widths.value.start[i] != 0.0, [Double(40, a.widths.value.start[i])])
         + When(a.widths.value.end[i] != 0.0, [Double(41, a.widths.value.end[i])])
       else [])
    + When(a.bulge[i] != 0.0, [Double(42, a.bulge[i])])
  }

  /** The vertices before number n. */
  function WrittenVertices(p: Lw, n: nat): seq<Rec>
    requires Writable(p) && (n > 0 ==> n <= p.numVertices)
  {
    if n == 0 then [] else WrittenVertices(p, n - 1) + WrittenVertex(p, n - 1)
  }

  function VertexCount(p: Lw): nat {
    if p.numVertices > 0 then p.numVertices else 0
  }

  /** write(), with the records of the base class in their place. */
  function Written(p: Lw, others: seq<Rec>): seq<Rec>
    requires Writable(p)
  {
    WrittenHead(p) + others + WrittenVertices(p, VertexCount(p))
  }

  predicate AllForeign(rs: seq<Rec>) {
    forall i :: 0 <= i < |rs| ==> !IsOwnCode(rs[i].code)
  }

  /** What the object says about the polyline: nothing of its loading counters,
      nor of elements beyond the last vertex. */
  function Content(p: Lw): Lw
    requires Valid(p)
  {
    p.(tmpCounter := 0, seen := {}, arrays :=
         if p.numVertices <= 0 then None
         else if p.arrays.Some? && p.numVertices <= |p.arrays.value.x| then Some(Prefix(p.arrays.value, p.numVertices))
         else p.arrays)
  }

  function Prefix(a: Arrays, n: nat): Arrays
    requires a.Sized(|a.x|) && n <= |a.x|
  {
    Arrays(a.x[..n], a.y[..n], a.bulge[..n],
      if a.widths.Some? then Some(Widths(a.widths.value.start[..n], a.widths.value.end[..n])) else None)
  }

  predicate HasVertices(p: Lw) {
    Valid(p) && (p.numVertices > 0 ==> p.arrays.Some? && p.numVertices <= |p.arrays.value.x|)
  }

  /** The same values for vertex i. */
  predicate SameVertex(a: Arrays, b: Arrays, i: nat)
    requires a.Sized(|a.x|) && b.Sized(|b.x|) && i < |a.x| && i < |b.x|
  {
    && a.x[i] == b.x[i] && a.y[i] == b.y[i] && a.bulge[i] == b.bulge[i]
    && match (a.widths, b.widths)
       case (None, None) => true
       case (Some(v), Some(w)) => v.start[i] == w.start[i] && v.end[i] == w.end[i]
       case _ => false
  }

  /** Two polylines say the same if they agree in their fields and, vertex by
      vertex, in their arrays. */
  lemma SameContent(p: Lw, q: Lw)
    requires HasVertices(p) && HasVertices(q)
    ensures Content(p) == Content(q)
       <==> p.constantWidth == q.constantWidth && p.elevation == q.elevation && p.flags == q.flags
            && p.numVertices == q.numVertices && p.thickness == q.thickness && p.extrusion == q.extrusion
            && forall i :: 0 <= i < p.numVertices ==> SameVertex(p.arrays.value, q.arrays.value, i)
  {
    if p.numVertices == q.numVertices > 0 {
      SamePrefix(p.arrays.value, q.arrays.value, p.numVertices);
    }
    hide Prefix;
  }

  lemma SamePrefix(a: Arrays, b: Arrays, n: nat)
    requires a.Sized(|a.x|) && b.Sized(|b.x|) && 0 < n <= |a.x| && n <= |b.x|
    ensures Prefix(a, n) == Prefix(b, n) <==> forall i :: 0 <= i < n ==> SameVertex(a, b, i)
  {
    SameFront(a.x, b.x, n);
    SameFront(a.y, b.y, n);
    SameFront(a.bulge, b.bulge, n);
    if a.widths.Some? && b.widths.Some? {
      SameFront(a.widths.value.start, b.widths.value.start, n);
      SameFront(a.widths.value.end, b.widths.value.end, n);
    }
    if forall i :: 0 <= i < n ==> SameVertex(a, b, i) {
      forall i | 0 <= i < n
        ensures a.x[i] == b.x[i] && a.y[i] == b.y[i] && a.bulge[i] == b.bulge[i]
        ensures a.widths.Some? <==> b.widths.Some?
        ensures a.widths.Some? && b.widths.Some? ==>
          a.widths.value.start[i] == b.widths.value.start[i] && a.widths.value.end[i] == b.widths.value.end[i]
      {
        assert SameVertex(a, b, i);
      }
      assert SameVertex(a, b, 0);
    }
  }

  lemma SameFront<T>(s: seq<T>, t: seq<T>, n: nat)
    requires n <= |s| && n <= |t|
    ensures s[..n] == t[..n] <==> forall i :: 0 <= i < n ==> s[i] == t[i]
  {
    if s[..n] == t[..n] {
      forall i | 0 <= i < n
        ensures s[i] == t[i]
      {
        assert s[..n][i] == t[..n][i];
      }
    }
  }

  // ----- reading what was written -----

  lemma RunOne(p: Lw, r: Rec)
    requires Valid(p) && !Overruns(p, r)
    ensures Safe(p, [r]) && Run(p, [r]) == Handle(p, r)
  {
    assert [r][1..] == [];
  }

  lemma RunWhen(p: Lw, c: bool, r: Rec)
    requires Valid(p) && (c ==> !Overruns(p, r))
    ensures Safe(p, When(c, [r])) && Run(p, When(c, [r])) == if c then Handle(p, r) else p
  {
    if c {
      RunOne(p, r);
    }
  }

  lemma {:induction false} RunForeign(p: Lw, rs: seq<Rec>)
    requires Valid(p) && AllForeign(rs)
    ensures Safe(p, rs) && Run(p, rs) == p
    decreases rs
  {
    if rs != [] {
      RunForeign(p, rs[1..]);
    }
  }

  /** The object after the records that come before the vertices. */
  function Headed(p: Lw): Lw {
    Created().(constantWidth := p.constantWidth, elevation := p.elevation, flags := p.flags,
      numVertices := ToInt16(p.numVertices), thickness := p.thickness, extrusion := p.extrusion)
  }

  lemma RunExtrusion(q: Lw, p: Lw)
    requires Valid(q) && q.thickness == 0.0 && q.extrusion == Z_AXIS
    ensures Safe(q, WrittenExtrusion(p))
    ensures Run(q, WrittenExtrusion(p)) == q.(thickness := p.thickness, extrusion := p.extrusion)
  {
    hide Prepared;
    var v := p.extrusion;
    var a, b, c := Double(210, v.x), Double(220, v.y), Double(230, v.z);
    RunWhen(q, p.thickness != 0.0, Double(39, p.thickness));
    var q1 := q.(thickness := p.thickness);
    if v != Z_AXIS {
      var q2 := q1.(extrusion := Z_AXIS.(x := v.x));
      var q3 := q2.(extrusion := q2.extrusion.(y := v.y));
      RunOne(q1, a);
      RunOne(q2, b);
      RunBoth(q1, [a], [b]);
      RunOne(q3, c);
      RunBoth(q1, [a] + [b], [c]);
      assert [a] + [b] + [c] == [a, b, c];
    }
    RunBoth(q, When(p.thickness != 0.0, [Double(39, p.thickness)]), When(v != Z_AXIS, [a, b, c]));
  }

  lemma RunHead(p: Lw)
    ensures Safe(Created(), WrittenHead(p)) && Run(Created(), WrittenHead(p)) == Headed(p)
  {
    var n := Whole(90, ToInt16(p.numVertices));
    var q1 := Created().(numVertices := n.whole);
    var q2 := q1.(flags := p.flags);
    var q3 := q2.(elevation := p.elevation);
    var q4 := q3.(constantWidth := p.constantWidth);
    var r2, r3, r4 := When(p.flags != 0, [Whole(70, p.flags)]), When(p.elevation != 0.0, [Double(38, p.elevation)]),
                      When(p.constantWidth != 0.0, [Double(43, p.constantWidth)]);
    RunOne(Created(), n);
    RunWhen(q1, p.flags != 0, Whole(70, p.flags));
    RunWhen(q2, p.elevation != 0.0, Double(38, p.elevation));
    RunWhen(q3, p.constantWidth != 0.0, Double(43, p.constantWidth));
    RunExtrusion(q4, p);
    RunBoth(Created(), [n], r2);
    RunBoth(Created(), [n] + r2, r3);
    RunBoth(Created(), [n] + r2 + r3, r4);
    RunBoth(Created(), [n] + r2 + r3 + r4, WrittenExtrusion(p));
  }

  /** Loading: the first i vertices are those of p. */
  predicate Has(p: Lw, q: Lw, i: nat)
    requires Writable(p) && i <= p.numVertices && p.arrays.Some?
  {
    && q == Headed(p).(tmpCounter := q.tmpCounter, seen := q.seen, arrays := q.arrays)
    && q.arrays.Some? && HasArrays(p, q.arrays.value, i)
    && (if i == 0 then q.tmpCounter == 0 && q.seen == {} else q.tmpCounter == i - 1 && 10 in q.seen)
  }

  predicate HasArrays(p: Lw, a: Arrays, i: nat)
    requires Writable(p) && i <= p.numVertices && p.arrays.Some?
  {
    var b := p.arrays.value;
    && a.Sized(p.numVertices) && (a.widths.Some? <==> b.widths.Some?)
    && (forall k :: 0 <= k < i ==> a.x[k] == b.x[k] && a.y[k] == b.y[k] && a.bulge[k] == b.bulge[k])
    && (forall k :: i <= k < p.numVertices ==> a.bulge[k] == 0.0)
    && (a.widths.Some? ==>
          && (forall k :: 0 <= k < i ==> a.widths.value.start[k] == b.widths.value.start[k])
          && (forall k :: 0 <= k < i ==> a.widths.value.end[k] == b.widths.value.end[k])
          && (forall k :: i <= k < p.numVertices ==> a.widths.value.start[k] == 0.0 && a.widths.value.end[k] == 0.0))
  }

  /** The object can take the record as one more of its current vertex. */
  predicate Takes(q: Lw, r: Rec) {
    && Valid(q) && q.arrays.Some? && 0 <= q.tmpCounter < q.numVertices && q.tmpCounter < |q.arrays.value.x|
    && IsVertexCode(r.code) && r.code !in q.seen
    && (r.code == 40 || r.code == 41 ==> q.arrays.value.widths.Some?)
  }

  function Put(q: Lw, r: Rec): Lw
    requires Takes(q, r)
  {
    q.(seen := q.seen + {r.code}, arrays := Some(Stored(q.arrays.value, r.code, q.tmpCounter, r.double)))
  }

  lemma RunTaken(q: Lw, c: bool, r: Rec)
    requires Valid(q) && (c ==> Takes(q, r))
    ensures Safe(q, When(c, [r])) && Run(q, When(c, [r])) == if c then Put(q, r) else q
  {
    if c {
      HandleTakes(q, r);
    }
    hide *;
    RunWhen(q, c, r);
  }

  lemma HandleTakes(q: Lw, r: Rec)
    requires Takes(q, r)
    ensures !Overruns(q, r) && Handle(q, r) == Put(q, r)
  {
    hide Stored, IsVertexCode;
    assert Prepared(q, r.code) == q;
  }

  lemma RunX(p: Lw, q: Lw, i: nat)
    requires Writable(p) && i < p.numVertices <= 0x7fff && Has(p, q, i)
    ensures var r := Double(10, p.arrays.value.x[i].value);
      && Safe(q, [r])
      && Run(q, [r]) == q.(tmpCounter := i, seen := {10}, arrays := Some(Stored(q.arrays.value, 10, i, r.double)))
  {
    RunOne(q, Double(10, p.arrays.value.x[i].value));
  }

  /** The arrays with vertex i stored. */
  function Filled(p: Lw, a: Arrays, i: nat): Arrays
    requires Writable(p) && i < p.numVertices && a.Sized(p.numVertices)
    requires a.widths.Some? <==> p.arrays.value.widths.Some?
  {
    var b := p.arrays.value;
    var a1 := Stored(Stored(a, 10, i, b.x[i].value), 20, i, b.y[i].value);
    var a2 := if b.widths.Some? && b.widths.value.start[i] != 0.0
              then Stored(a1, 40, i, b.widths.value.start[i]) else a1;
    var a3 := if b.widths.Some? && b.widths.value.end[i] != 0.0 then Stored(a2, 41, i, b.widths.value.end[i]) else a2;
    if b.bulge[i] != 0.0 then Stored(a3, 42, i, b.bulge[i]) else a3
  }

  /** What is left out when it is zero is zero already. */
  lemma FilledHasIt(p: Lw, a: Arrays, i: nat)
    requires Writable(p) && i < p.numVertices && HasArrays(p, a, i)
    ensures HasArrays(p, Filled(p, a, i), i + 1)
  {
  }

  /** Vertex i of n is being filled in; f says which of its records have come. */
  predicate At(q: Lw, i: nat, n: int, w: bool, f: set<int>) {
    && Valid(q) && q.arrays.Some? && |q.arrays.value.x| == n && (q.arrays.value.widths.Some? <==> w)
    && q.tmpCounter == i < n == q.numVertices && q.seen == f
  }

  lemma RunAt(q: Lw, i: nat, n: int, w: bool, f: set<int>, c: bool, r: Rec) returns (q': Lw)
    requires At(q, i, n, w, f)
    requires c ==> IsVertexCode(r.code) && r.code !in f && (r.code == 40 || r.code == 41 ==> w)
    ensures (c ==> Takes(q, r)) && q' == if c then Put(q, r) else q
    ensures Safe(q, When(c, [r])) && Run(q, When(c, [r])) == q'
    ensures At(q', i, n, w, if c then f + {r.code} else f) && q.tmpCounter == i == q'.tmpCounter
  {
    hide Run, Safe, Handle, Overruns, Put, Stored, IsVertexCode;
    RunTaken(q, c, r);
    q' := if c then Put(q, r) else q;
    if c {
      PutStaysAt(q, i, n, w, f, r);
    }
  }

  lemma PutStaysAt(q: Lw, i: nat, n: int, w: bool, f: set<int>, r: Rec)
    requires At(q, i, n, w, f) && Takes(q, r)
    ensures At(Put(q, r), i, n, w, f + {r.code})
  {
    StoredKeepsSize(q.arrays.value, r.code, i, r.double);
    hide Stored, Arrays.Sized;
  }

  lemma StoredKeepsSize(a: Arrays, code: int, i: int, v: real)
    requires a.Sized(|a.x|) && 0 <= i < |a.x| && (code == 40 || code == 41 ==> a.widths.Some?)
    ensures var b := Stored(a, code, i, v); b.Sized(|b.x|) && |b.x| == |a.x| && (b.widths.Some? <==> a.widths.Some?)
  {
  }

  /** The records of one vertex fill in that vertex. */
  lemma RunVertex(p: Lw, q: Lw, i: nat)
    requires Writable(p) && i < p.numVertices <= 0x7fff && Has(p, q, i)
    ensures Safe(q, WrittenVertex(p, i)) && Has(p, Run(q, WrittenVertex(p, i)), i + 1)
  {
    var b, n := p.arrays.value, p.numVertices;
    var w := b.widths.Some?;
    var x, y, u := Double(10, b.x[i].value), Double(20, b.y[i].value), Double(42, b.bulge[i]);
    var s := Double(40, if w then b.widths.value.start[i] else 0.0);
    var e := Double(41, if w then b.widths.value.end[i] else 0.0);
    RunX(p, q, i);
    var q1 := Run(q, [x]);
    XIsAt(p, q, i);
    var f := {10};
    hide Handle, Overruns, Stored, HasArrays, Headed, Run, Safe, At;
    var q2 := RunAt(q1, i, n, w, f, true, y);
    f := f + {20};
    var q3 := RunAt(q2, i, n, w, f, s.double != 0.0, s);
    f := if s.double != 0.0 then f + {40} else f;
    var q4 := RunAt(q3, i, n, w, f, e.double != 0.0, e);
    f := if e.double != 0.0 then f + {41} else f;
    var q5 := RunAt(q4, i, n, w, f, u.double != 0.0, u);
    RunFive(q, [x], [y], When(s.double != 0.0, [s]), When(e.double != 0.0, [e]), When(u.double != 0.0, [u]));
    VertexSplits(p, i, s, e, u);
    assert q5.arrays == Some(Filled(p, q.arrays.value, i));
    FilledHasIt(p, q.arrays.value, i);
  }

  lemma XIsAt(p: Lw, q: Lw, i: nat)
    requires Writable(p) && i < p.numVertices <= 0x7fff && Has(p, q, i)
    requires var r := Double(10, p.arrays.value.x[i].value);
      && Safe(q, [r])
      && Run(q, [r]) == q.(tmpCounter := i, seen := {10}, arrays := Some(Stored(q.arrays.value, 10, i, r.double)))
    ensures At(Run(q, [Double(10, p.arrays.value.x[i].value)]), i, p.numVertices, p.arrays.value.widths.Some?, {10})
  {
    hide Run, Safe;
  }

  lemma VertexSplits(p: Lw, i: nat, s: Rec, e: Rec, u: Rec)
    requires Writable(p) && i < p.numVertices
    requires var w := p.arrays.value.widths;
      && s == Double(40, if w.Some? then w.value.start[i] else 0.0)
      && e == Double(41, if w.Some? then w.value.end[i] else 0.0)
      && u == Double(42, p.arrays.value.bulge[i])
    ensures WrittenVertex(p, i)
         == [Double(10, p.arrays.value.x[i].value)] + [Double(20, p.arrays.value.y[i].value)]
            + (When(s.double != 0.0, [s]) + When(e.double != 0.0, [e])) + When(u.double != 0.0, [u])
  {
    if p.arrays.value.widths.None? {
      assert When(s.double != 0.0, [s]) + When(e.double != 0.0, [e]) == [];
    }
  }

  lemma RunFive(q: Lw, a: seq<Rec>, b: seq<Rec>, c: seq<Rec>, d: seq<Rec>, e: seq<Rec>)
    requires Valid(q) && Safe(q, a) && Safe(Run(q, a), b) && Safe(Run(Run(q, a), b), c)
    requires Safe(Run(Run(Run(q, a), b), c), d) && Safe(Run(Run(Run(Run(q, a), b), c), d), e)
    ensures Safe(q, a + b + (c + d) + e)
    ensures Run(q, a + b + (c + d) + e) == Run(Run(Run(Run(Run(q, a), b), c), d), e)
  {
    hide *;
    RunBoth(q, a, b);
    RunBoth(q, a + b, c);
    RunBoth(q, a + b + c, d);
    assert a + b + (c + d) == a + b + c + d;
    RunBoth(q, a + b + c + d, e);
  }

  lemma {:induction false} RunVertices(p: Lw, n: nat)
    requires Writable(p) && 0 < p.numVertices <= 0x7fff && n <= p.numVertices
    requires p.arrays.value.widths.Some? <==> p.constantWidth == 0.0
    ensures var q := Allocated(Headed(p));
      Safe(q, WrittenVertices(p, n)) && Has(p, Run(q, WrittenVertices(p, n)), n)
  {
    var q := Allocated(Headed(p));
    if n > 0 {
      hide WrittenVertex, Has, Allocated, Headed;
      RunVertices(p, n - 1);
      var r := Run(q, WrittenVertices(p, n - 1));
      RunVertex(p, r, n - 1);
      RunBoth(q, WrittenVertices(p, n - 1), WrittenVertex(p, n - 1));
    }
  }

  /** The first vertex record allocates the arrays. */
  lemma FirstAllocates(q: Lw, rs: seq<Rec>)
    requires q.arrays.None? && q.numVertices > 0 && rs != [] && IsVertexCode(rs[0].code)
    requires Valid(Allocated(q)) && Safe(Allocated(q), rs)
    ensures Safe(q, rs) && Run(q, rs) == Run(Allocated(q), rs)
  {
    hide Allocated, Advanced;
    AllocatedInStep(q);
    assert Prepared(q, rs[0].code) == Prepared(Allocated(q), rs[0].code);
  }

  lemma VertexCodes(p: Lw, i: nat)
    requires Writable(p) && i < p.numVertices
    ensures AllVertexCodes(WrittenVertex(p, i)) && WrittenVertex(p, i) != [] && WrittenVertex(p, i)[0].code == 10
  {
  }

  lemma {:induction false} VerticesAreVertexCodes(p: Lw, n: nat)
    requires Writable(p) && (n > 0 ==> n <= p.numVertices)
    ensures AllVertexCodes(WrittenVertices(p, n))
    ensures n > 0 ==> WrittenVertices(p, n) != [] && WrittenVertices(p, n)[0].code == 10
  {
    hide WrittenVertex, IsVertexCode;
    if n > 0 {
      VerticesAreVertexCodes(p, n - 1);
      VertexCodes(p, n - 1);
    }
  }

  /** Width arrays exist exactly when there is no constant width. */
  predicate WidthsMatch(q: Lw) {
    q.arrays.Some? ==> (q.arrays.value.widths.Some? <==> q.constantWidth == 0.0)
  }

  lemma {:induction false} RunKeeps(q: Lw, rs: seq<Rec>)
    requires Valid(q) && Safe(q, rs) && WidthsMatch(q)
    requires forall i :: 0 <= i < |rs| ==> rs[i].code != 43 && rs[i].code != 90
    ensures var r := Run(q, rs); WidthsMatch(r) && r.numVertices == q.numVertices && r.constantWidth == q.constantWidth
    decreases rs
  {
    if rs != [] {
      HandleKeeps(q, rs[0]);
      RunKeeps(Handle(q, rs[0]), rs[1..]);
    }
  }

  lemma HandleKeeps(q: Lw, r: Rec)
    requires Valid(q) && !Overruns(q, r) && WidthsMatch(q) && r.code != 43 && r.code != 90
    ensures var q' := Handle(q, r);
      WidthsMatch(q') && q'.numVertices == q.numVertices && q'.constantWidth == q.constantWidth
  {
  }

  /** Everything after the head, from the object that the head leaves. */
  lemma RunBody(p: Lw, others: seq<Rec>)
    requires Writable(p) && AllForeign(others)
    ensures var body := WrittenVertices(p, VertexCount(p)); var q := Headed(p);
      && Safe(q, body) && WidthsMatch(Run(q, body))
      && Run(q, body).numVertices == q.numVertices && Run(q, body).constantWidth == q.constantWidth
      && Safe(Created(), Written(p, others)) && Run(Created(), Written(p, others)) == Run(q, body)
  {
    var body, q := WrittenVertices(p, VertexCount(p)), Headed(p);
    VerticesAreVertexCodes(p, VertexCount(p));
    WithoutAnnouncementAdmissible(q, body);
    AdmissibleIsSafe(q, body);
    RunKeeps(q, body);
    RunHead(p);
    RunForeign(q, others);
    hide WrittenHead, WrittenVertices, Headed, Run, Safe;
    RunBoth(Created(), WrittenHead(p), others);
    RunBoth(Created(), WrittenHead(p) + others, body);
  }

  lemma HasAll(p: Lw, q: Lw)
    requires Writable(p) && 0 < p.numVertices <= 0x7fff && Valid(q) && Has(p, q, p.numVertices)
    ensures Content(q) == Content(p)
  {
    var a, b, n := q.arrays.value, p.arrays.value, p.numVertices;
    assert a.x[..n] == b.x[..n] && a.y[..n] == b.y[..n] && a.bulge[..n] == b.bulge[..n];
    if a.widths.Some? {
      assert a.widths.value.start[..n] == b.widths.value.start[..n]
        && a.widths.value.end[..n] == b.widths.value.end[..n];
    }
  }

  /** Handling the records that write() writes is always safe, and gives the
      polyline back exactly when its size fits a 16-bit number and it has width
      arrays just if it has no constant width. */
  lemma PolylineSurvives(p: Lw, others: seq<Rec>)
    requires Writable(p) && AllForeign(others)
    ensures Safe(Created(), Written(p, others))
    ensures Content(Run(Created(), Written(p, others))) == Content(p)
       <==> -0x8000 <= p.numVertices <= 0x7fff
            && (p.numVertices > 0 ==> (p.arrays.value.widths.Some? <==> p.constantWidth == 0.0))
  {
    RunBody(p, others);
    var body, q := WrittenVertices(p, VertexCount(p)), Headed(p);
    if 0 < p.numVertices <= 0x7fff && (p.arrays.value.widths.Some? <==> p.constantWidth == 0.0) {
      RunVertices(p, p.numVertices);
      VerticesAreVertexCodes(p, p.numVertices);
      FirstAllocates(q, body);
      HasAll(p, Run(q, body));
    } else if p.numVertices <= 0 {
      assert body == [];
    }
  }

  /** A polyline that had a constant width when its vertices came, and then lost
      it, gets width arrays when it is read again. */
  lemma LostWidthIsNotKept()
    ensures var p := Created().(numVertices := 1, arrays := Some(Arrays([Some(0.0)], [Some(0.0)], [0.0], None)));
      Writable(p) && Safe(Created(), Written(p, [])) && Content(Run(Created(), Written(p, []))) != Content(p)
  {
    var p := Created().(numVertices := 1, arrays := Some(Arrays([Some(0.0)], [Some(0.0)], [0.0], None)));
    hide Run, Safe, Written, Content;
    PolylineSurvives(p, []);
  }

  /** 32768 vertices are written as -32768. */
  lemma TooManyVerticesAreLost()
    ensures var n := 0x8000; var zeros := Repeat(n, 0.0);
      var p := Created().(numVertices := n,
        arrays := Some(Arrays(Repeat(n, Some(0.0)), Repeat(n, Some(0.0)), zeros, Some(Widths(zeros, zeros)))));
      Writable(p) && Safe(Created(), Written(p, [])) && Content(Run(Created(), Written(p, []))) != Content(p)
  {
    var n := 0x8000;
    var zeros := Repeat(n, 0.0);
    var p := Created().(numVertices := n,
      arrays := Some(Arrays(Repeat(n, Some(0.0)), Repeat(n, Some(0.0)), zeros, Some(Widths(zeros, zeros)))));
    hide Run, Safe, Written, Content;
    PolylineSurvives(p, []);
  }

  // ----- records and defaults -----

  lemma HandleLacks(p: Lw, r: Rec)
    requires Valid(p) && !Overruns(p, r)
    ensures var q := Handle(p, r);
      && (r.code !in {210, 220, 230} ==> q.extrusion == p.extrusion)
      && (r.code != 39 ==> q.thickness == p.thickness) && (r.code != 38 ==> q.elevation == p.elevation)
      && (r.code != 43 ==> q.constantWidth == p.constantWidth) && (r.code != 70 ==> q.flags == p.flags)
      && (r.code != 90 ==> q.numVertices == p.numVertices)
  {
  }

  lemma {:induction false} RunLacks(p: Lw, rs: seq<Rec>)
    requires Valid(p) && Safe(p, rs)
    ensures var q := Run(p, rs);
      && (Lacks(rs, 210) && Lacks(rs, 220) && Lacks(rs, 230) ==> q.extrusion == p.extrusion)
      && (Lacks(rs, 39) ==> q.thickness == p.thickness) && (Lacks(rs, 38) ==> q.elevation == p.elevation)
      && (Lacks(rs, 43) ==> q.constantWidth == p.constantWidth) && (Lacks(rs, 70) ==> q.flags == p.flags)
      && (Lacks(rs, 90) ==> q.numVertices == p.numVertices)
    decreases rs
  {
    if rs != [] {
      HandleLacks(p, rs[0]);
      RunLacks(Handle(p, rs[0]), rs[1..]);
      hide Handle, Overruns;
    }
  }

  /** What a polyline is when nothing is said about it. */
  lemma Defaults(rs: seq<Rec>)
    requires Safe(Created(), rs)
    ensures var q := Run(Created(), rs);
      && (Lacks(rs, 210) && Lacks(rs, 220) && Lacks(rs, 230) ==> q.extrusion == Vector(0.0, 0.0, 1.0))
      && (Lacks(rs, 39) ==> q.thickness == 0.0) && (Lacks(rs, 38) ==> q.elevation == 0.0)
      && (Lacks(rs, 43) ==> q.constantWidth == 0.0) && (Lacks(rs, 70) ==> q.flags == 0)
      && (Lacks(rs, 90) ==> q.numVertices == 0)
  {
    RunLacks(Created(), rs);
  }

  lemma CountWhen(c: bool, r: Rec, code: int)
    ensures Count(When(c, [r]), code) == if c && r.code == code then 1 else 0
  {
    CountOne(r, code);
    assert Count([], code) == 0;
  }

  lemma CountThree(a: Rec, b: Rec, c: Rec, code: int)
    ensures Count([a, b, c], code)
         == (if a.code == code then 1 else 0) + (if b.code == code then 1 else 0) + (if c.code == code then 1 else 0)
  {
    assert [a, b, c] == [a] + [b] + [c];
    CountAppend([a] + [b], [c], code);
    CountAppend([a], [b], code);
    CountOne(a, code);
    CountOne(b, code);
    CountOne(c, code);
  }

  /** In front of the vertices: 90 always, and each other record exactly when it
      says something. */
  lemma HeadCounts(p: Lw, code: int)
    ensures Count(WrittenHead(p), code)
         == if code == 90 then 1
            else if code == 70 then (if p.flags != 0 then 1 else 0)
            else if code == 38 then (if p.elevation != 0.0 then 1 else 0)
            else if code == 43 then (if p.constantWidth != 0.0 then 1 else 0)
            else if code == 39 then (if p.thickness != 0.0 then 1 else 0)
            else if code == 210 || code == 220 || code == 230 then
              (if p.extrusion != Vector(0.0, 0.0, 1.0) then 1 else 0)
            else 0
  {
    var a, b := [Whole(90, ToInt16(p.numVertices))], When(p.flags != 0, [Whole(70, p.flags)]);
    var c := When(p.elevation != 0.0, [Double(38, p.elevation)]);
    var d := When(p.constantWidth != 0.0, [Double(43, p.constantWidth)]);
    CountAppend(a + b + c + d, WrittenExtrusion(p), code);
    CountAppend(a + b + c, d, code);
    CountAppend(a + b, c, code);
    CountAppend(a, b, code);
    CountOne(a[0], code);
    CountWhen(p.flags != 0, Whole(70, p.flags), code);
    CountWhen(p.elevation != 0.0, Double(38, p.elevation), code);
    CountWhen(p.constantWidth != 0.0, Double(43, p.constantWidth), code);
    ExtrusionCounts(p, code);
    hide Count, When, WrittenExtrusion;
  }

  lemma ExtrusionCounts(p: Lw, code: int)
    ensures Count(WrittenExtrusion(p), code)
         == if code == 39 then (if p.thickness != 0.0 then 1 else 0)
            else if code == 210 || code == 220 || code == 230 then
              (if p.extrusion != Vector(0.0, 0.0, 1.0) then 1 else 0)
            else 0
  {
    var v := p.extrusion;
    var rs := [Double(210, v.x), Double(220, v.y), Double(230, v.z)];
    CountAppend(When(p.thickness != 0.0, [Double(39, p.thickness)]), When(v != Z_AXIS, rs), code);
    CountWhen(p.thickness != 0.0, Double(39, p.thickness), code);
    CountThree(rs[0], rs[1], rs[2], code);
    assert Count([], code) == 0;
    hide Count;
  }

  /** One vertex: x and y always, and widths and bulge exactly when they are not
      zero. */
  lemma VertexCounts(p: Lw, i: nat, code: int)
    requires Writable(p) && i < p.numVertices
    ensures Count(WrittenVertex(p, i), code) == VertexCountOf(p, i, code)
  {
    var a := p.arrays.value;
    var xy := [Double(10, a.x[i].value)] + [Double(20, a.y[i].value)];
    var bulge := When(a.bulge[i] != 0.0, [Double(42, a.bulge[i])]);
    CountAppend([Double(10, a.x[i].value)], [Double(20, a.y[i].value)], code);
    CountOne(Double(10, a.x[i].value), code);
    CountOne(Double(20, a.y[i].value), code);
    CountWhen(a.bulge[i] != 0.0, Double(42, a.bulge[i]), code);
    if a.widths.Some? {
      var s, e := a.widths.value.start[i], a.widths.value.end[i];
      var both := When(s != 0.0, [Double(40, s)]) + When(e != 0.0, [Double(41, e)]);
      CountWhen(s != 0.0, Double(40, s), code);
      CountWhen(e != 0.0, Double(41, e), code);
      CountAppend(When(s != 0.0, [Double(40, s)]), When(e != 0.0, [Double(41, e)]), code);
      CountAppend(xy + both, bulge, code);
      CountAppend(xy, both, code);
      assert WrittenVertex(p, i) == xy + both + bulge;
    } else {
      CountAppend(xy, bulge, code);
      assert WrittenVertex(p, i) == xy + [] + bulge == xy + bulge;
    }
    hide Count, When;
  }

  function VertexCountOf(p: Lw, i: nat, code: int): nat
    requires Writable(p) && i < p.numVertices
  {
    var a := p.arrays.value;
    if code == 10 || code == 20 then 1
    else if code == 40 then (if a.widths.Some? && a.widths.value.start[i] != 0.0 then 1 else 0)
    else if code == 41 then (if a.widths.Some? && a.widths.value.end[i] != 0.0 then 1 else 0)
    else if code == 42 then (if a.bulge[i] != 0.0 then 1 else 0)
    else 0
  }

  /** The vertices of which a record of this kind is written. */
  function VerticesWith(p: Lw, n: nat, code: int): nat
    requires Writable(p) && (n > 0 ==> n <= p.numVertices)
  {
    if n == 0 then 0 else VerticesWith(p, n - 1, code) + VertexCountOf(p, n - 1, code)
  }

  lemma {:induction false} VerticesCount(p: Lw, n: nat, code: int)
    requires Writable(p) && (n > 0 ==> n <= p.numVertices)
    ensures Count(WrittenVertices(p, n), code) == VerticesWith(p, n, code)
  {
    hide WrittenVertex, VertexCountOf;
    if n > 0 {
      VerticesCount(p, n - 1, code);
      VertexCounts(p, n - 1, code);
      CountAppend(WrittenVertices(p, n - 1), WrittenVertex(p, n - 1), code);
    }
  }

  /** What is written of a polyline, by group codes: nothing that is zero, no
      direction that is that of the z axis, and x and y of every vertex. */
  lemma WrittenCounts(p: Lw, others: seq<Rec>)
    requires Writable(p) && AllForeign(others)
    ensures var rs := Written(p, others); var z := Vector(0.0, 0.0, 1.0);
      && Count(rs, 90) == 1 && (Count(rs, 70) != 0 <==> p.flags != 0) && (Count(rs, 38) != 0 <==> p.elevation != 0.0)
      && (Count(rs, 43) != 0 <==> p.constantWidth != 0.0) && (Count(rs, 39) != 0 <==> p.thickness != 0.0)
      && (Count(rs, 210) != 0 <==> p.extrusion != z) && (Count(rs, 220) != 0 <==> p.extrusion != z)
      && (Count(rs, 230) != 0 <==> p.extrusion != z)
    ensures forall code :: code in VERTEX_CODES ==>
      Count(Written(p, others), code) == VerticesWith(p, VertexCount(p), code)
  {
    forall code | IsOwnCode(code)
      ensures Count(Written(p, others), code)
           == Count(WrittenHead(p), code) + VerticesWith(p, VertexCount(p), code)
    {
      CountForeign(others, code);
      CountAppend(WrittenHead(p) + others, WrittenVertices(p, VertexCount(p)), code);
      CountAppend(WrittenHead(p), others, code);
      VerticesCount(p, VertexCount(p), code);
    }
    forall code | IsOwnCode(code)
      ensures !IsVertexCode(code) ==> VerticesWith(p, VertexCount(p), code) == 0
      ensures IsVertexCode(code) ==> Count(WrittenHead(p), code) == 0
    {
      HeadCounts(p, code);
      if !IsVertexCode(code) {
        NoneWith(p, VertexCount(p), code);
      }
    }
    hide Count, VerticesWith, Written, WrittenHead;
    HeadCounts(p, 90);
    HeadCounts(p, 70);
    HeadCounts(p, 38);
    HeadCounts(p, 43);
    HeadCounts(p, 39);
    HeadCounts(p, 210);
    HeadCounts(p, 220);
    HeadCounts(p, 230);
  }

  lemma {:induction false} NoneWith(p: Lw, n: nat, code: int)
    requires Writable(p) && (n > 0 ==> n <= p.numVertices) && !IsVertexCode(code)
    ensures VerticesWith(p, n, code) == 0
  {
    if n > 0 {
      NoneWith(p, n - 1, code);
    }
  }

  lemma RunStep(p: Lw, r: Rec, rs: seq<Rec>)
    requires Valid(p) && !Overruns(p, r) && Safe(Handle(p, r), rs)
    ensures Safe(p, [r] + rs) && Run(p, [r] + rs) == Run(Handle(p, r), rs)
  {
    hide Handle, Overruns;
    assert ([r] + rs)[1..] == rs;
  }

  function Filling(p: Lw, seen: set<int>, a: Arrays): Lw {
    p.(seen := seen, arrays := Some(a))
  }

  predicate IsOne(p: Lw) {
    && p.numVertices == 1 && p.tmpCounter == 0 && p.arrays.Some? && p.arrays.value.Sized(1)
    && p.arrays.value.widths.Some?
  }

  /** One more value for the only vertex. */
  lemma OneValue(p: Lw, q: Lw, code: int, v: real)
    requires IsOne(p) && IsVertexCode(code) && code !in p.seen
    requires IsOne(q) && q == Filling(p, p.seen + {code}, q.arrays.value)
    requires var (a, c) := (p.arrays.value, q.arrays.value);
      && c.x == (if code == 10 then [Some(v)] else a.x) && c.y == (if code == 20 then [Some(v)] else a.y)
      && c.widths.value.start == (if code == 40 then [v] else a.widths.value.start)
      && c.widths.value.end == (if code == 41 then [v] else a.widths.value.end)
      && c.bulge == if code == 42 then [v] else a.bulge
    ensures Valid(p) && !Overruns(p, Double(code, v)) && Handle(p, Double(code, v)) == q
  {
    var a := p.arrays.value;
    assert a.x[0 := Some(v)] == [Some(v)] && a.y[0 := Some(v)] == [Some(v)] && a.bulge[0 := v] == [v];
    assert a.widths.value.start[0 := v] == [v] && a.widths.value.end[0 := v] == [v];
  }

  lemma FirstIsSafe(p: Lw, v: real)
    requires p.numVertices == 1 && p.arrays.None? && p.constantWidth == 0.0
    ensures Valid(p) && !Overruns(p, Double(10, v))
  {
  }

  /** What each group code means, on a polyline of one vertex. */
  lemma CodesMean(f: int, e: real, th: real, d: Vector, x: real, y: real, s: real, t: real, b: real)
    ensures var rs := [Whole(90, 1)] + ([Whole(70, f)] + ([Double(38, e)] + ([Double(39, th)] + ([Double(210, d.x)]
        + ([Double(220, d.y)] + ([Double(230, d.z)] + ([Double(10, x)] + ([Double(20, y)] + ([Double(40, s)]
        + ([Double(41, t)] + ([Double(42, b)] + [])))))))))));
      && Safe(Created(), rs)
      && Run(Created(), rs) == Lw(0.0, e, f, 1, 0, {10, 20, 40, 41, 42},
           Some(Arrays([Some(x)], [Some(y)], [b], Some(Widths([s], [t])))), th, d)
  {
    var p7 := Created().(numVertices := 1, flags := f, elevation := e, thickness := th, extrusion := d);
    var none, zero := [None], [0.0];
    var empty := Arrays(none, none, zero, Some(Widths(zero, zero)));
    var p8 := Filling(p7, {10}, empty.(x := [Some(x)]));
    var p9 := Filling(p7, {10, 20}, p8.arrays.value.(y := [Some(y)]));
    var p10 := Filling(p7, {10, 20, 40}, p9.arrays.value.(widths := Some(Widths([s], zero))));
    var p11 := Filling(p7, {10, 20, 40, 41}, p10.arrays.value.(widths := Some(Widths([s], [t]))));
    var p12 := Filling(p7, {10, 20, 40, 41, 42}, p11.arrays.value.(bulge := [b]));
    assert Repeat(1, 0.0) == zero && Repeat<Option<real>>(1, None) == none;
    assert Handle(p7, Double(10, x)) == Handle(Filling(p7, {}, empty), Double(10, x));
    OneValue(Filling(p7, {}, empty), p8, 10, x);
    OneValue(p8, p9, 20, y);
    OneValue(p9, p10, 40, s);
    OneValue(p10, p11, 41, t);
    OneValue(p11, p12, 42, b);
    FirstIsSafe(p7, x);
    hide Handle, Overruns, Run, Safe, Repeat;
    RunStep(p11, Double(42, b), []);
    var r12 := [Double(42, b)] + [];
    RunStep(p10, Double(41, t), r12);
    var r11 := [Double(41, t)] + r12;
    RunStep(p9, Double(40, s), r11);
    var r10 := [Double(40, s)] + r11;
    RunStep(p8, Double(20, y), r10);
    var r9 := [Double(20, y)] + r10;
    RunStep(p7, Double(10, x), r9);
    var r8 := [Double(10, x)] + r9;
    HeadCodesMean(f, e, th, d, r8);
  }

  lemma HeadCodesMean(f: int, e: real, th: real, d: Vector, rest: seq<Rec>)
    requires var p := Created().(numVertices := 1, flags := f, elevation := e, thickness := th, extrusion := d);
      Safe(p, rest)
    ensures var p := Created().(numVertices := 1, flags := f, elevation := e, thickness := th, extrusion := d);
      var rs := [Whole(90, 1)] + ([Whole(70, f)] + ([Double(38, e)] + ([Double(39, th)] + ([Double(210, d.x)]
        + ([Double(220, d.y)] + ([Double(230, d.z)] + rest))))));
      Safe(Created(), rs) && Run(Created(), rs) == Run(p, rest)
  {
    var p1 := Created().(numVertices := 1);
    var p2 := p1.(flags := f);
    var p3 := p2.(elevation := e);
    var p4 := p3.(thickness := th);
    var p5 := p4.(extrusion := p4.extrusion.(x := d.x));
    var p6 := p5.(extrusion := p5.extrusion.(y := d.y));
    hide Safe, Run;
    var r7 := [Double(230, d.z)] + rest;
    RunStep(p6, Double(230, d.z), rest);
    var r6 := [Double(220, d.y)] + r7;
    RunStep(p5, Double(220, d.y), r7);
    var r5 := [Double(210, d.x)] + r6;
    RunStep(p4, Double(210, d.x), r6);
    var r4 := [Double(39, th)] + r5;
    RunStep(p3, Double(39, th), r5);
    var r3 := [Double(38, e)] + r4;
    RunStep(p2, Double(38, e), r4);
    var r2 := [Whole(70, f)] + r3;
    RunStep(p1, Whole(70, f), r3);
    RunStep(Created(), Whole(90, 1), r2);
  }

  // ----- the object -----

  class Entity {
    var constantWidth: real
    var elevation: real
    var flags: int
    var numVertices: int
    var tmpCounter: int
    var tmpFlags: set<int>
    var xcoord: array?<Option<real>>
    var ycoord: array?<Option<real>>
    var startingWidth: array?<real>
    var endWidth: array?<real>
    var bulge: array?<real>
    var thickness: real
    var extrusionDir: Vector

    ghost predicate Sound()
      reads this
    {
      Consistent(xcoord, ycoord, bulge, startingWidth, endWidth)
    }

    static ghost predicate Consistent(x: array?<Option<real>>, y: array?<Option<real>>, b: array?<real>,
                                      s: array?<real>, e: array?<real>) {
      && (x == null <==> y == null) && (x == null <==> b == null) && (s == null <==> e == null)
      && (x == null ==> s == null)
      && (x != null ==> x != y && y.Length == x.Length && b.Length == x.Length)
      && (s != null ==> s.Length == x.Length && e.Length == x.Length && s != e && s != b && e != b)
    }

    ghost function ArraysView(): Arrays
      requires Sound() && xcoord != null
      reads this, xcoord, ycoord, startingWidth, endWidth, bulge
    {
      Arrays(xcoord[..], ycoord[..], bulge[..],
        if startingWidth == null then None else Some(Widths(startingWidth[..], endWidth[..])))
    }

    ghost function View(): (p: Lw)
      requires Sound()
      reads this, xcoord, ycoord, startingWidth, endWidth, bulge
      ensures Valid(p)
    {
      Lw(constantWidth, elevation, flags, numVertices, tmpCounter, tmpFlags,
         if xcoord == null then None else Some(ArraysView()), thickness, extrusionDir)
    }

    constructor ()
      ensures Sound() && View() == Created()
    {
      constantWidth, elevation, flags, numVertices, tmpCounter, tmpFlags := 0.0, 0.0, 0, 0, 0, {};
      xcoord, ycoord, startingWidth, endWidth, bulge := null, null, null, null, null;
      thickness, extrusionDir := 0.0, Z_AXIS;
    }

    /** The first vertex record allocates, and sets what has a default. */
    method Allocate()
      requires Sound() && xcoord == null && numVertices > 0
      modifies this`xcoord, this`ycoord, this`startingWidth, this`endWidth, this`bulge, this`tmpCounter, this`tmpFlags
      ensures Sound() && View() == Allocated(old(View()))
      ensures fresh(xcoord) && fresh(ycoord) && fresh(bulge)
      ensures startingWidth != null ==> fresh(startingWidth) && fresh(endWidth)
    {
      hide Repeat, Arrays.Sized, Consistent, Valid;
      var x, y, b, s, e := NewArrays(numVertices, constantWidth == 0.0);
      Adopt(x, y, b, s, e);
    }

    method Adopt(x: array<Option<real>>, y: array<Option<real>>, b: array<real>, s: array?<real>, e: array?<real>)
      requires Consistent(x, y, b, s, e) && (s != null <==> e != null)
      modifies this`xcoord, this`ycoord, this`startingWidth, this`endWidth, this`bulge, this`tmpCounter, this`tmpFlags
      ensures xcoord == x && ycoord == y && bulge == b && startingWidth == s && endWidth == e
      ensures Sound() && tmpCounter == 0 && tmpFlags == {}
    {
      hide Consistent;
      xcoord, ycoord, bulge, startingWidth, endWidth := x, y, b, s, e;
      tmpCounter, tmpFlags := 0, {};
    }

    static method NewArrays(n: nat, widths: bool)
      returns (x: array<Option<real>>, y: array<Option<real>>, b: array<real>, s: array?<real>, e: array?<real>)
      ensures fresh(x) && fresh(y) && fresh(b) && (widths ==> s != null && e != null && fresh(s) && fresh(e))
      ensures Consistent(x, y, b, s, e) && (s != null <==> widths)
      ensures x[..] == Repeat(n, None) == y[..] && b[..] == Repeat(n, 0.0)
      ensures widths ==> s[..] == Repeat(n, 0.0) == e[..]
    {
      b, s, e := new real[n], null, null;
      if widths {
        s := new real[n];
        e := new real[n];
      }
      InitArrays(n, b, s, e);
      x := new Option<real>[n](_ => None);
      y := new Option<real>[n](_ => None);
      assert x[..] == Repeat(n, None) == y[..];
    }

    /** The loop that sets the defaults. */
    static method InitArrays(n: int, b: array<real>, s: array?<real>, e: array?<real>)
      requires n == b.Length && (s == null <==> e == null)
      requires s != null ==> s.Length == n == e.Length && s != e && s != b && e != b
      modifies b, s, e
      ensures b[..] == Repeat(n, 0.0) && (s != null ==> s[..] == Repeat(n, 0.0) == e[..])
    {
      for i := 0 to n
        invariant forall k :: 0 <= k < i ==> b[k] == 0.0
        invariant s != null ==> forall k :: 0 <= k < i ==> s[k] == 0.0
        invariant s != null ==> forall k :: 0 <= k < i ==> e[k] == 0.0
      {
        b[i] := 0.0;
        if s != null {
          s[i] := 0.0;
          e[i] := 0.0;
        }
      }
    }

    /** Moves on to the next vertex when this one already has such a record. */
    method Advance(code: int)
      requires Sound() && xcoord != null && IsVertexCode(code)
      modifies this`tmpCounter, this`tmpFlags
      ensures Sound() && View() == Advanced(old(View()), code)
    {
      if code in tmpFlags {
        tmpFlags := {};
        tmpCounter := ToInt16(tmpCounter + 1);
      }
    }

    method StoreValue(code: int, v: real)
      requires Sound() && IsVertexCode(code) && Stores(View(), code) && 0 <= tmpCounter < xcoord.Length
      modifies this`tmpFlags, xcoord, ycoord, startingWidth, endWidth, bulge
      ensures Sound()
      ensures View() == old(View()).(seen := old(View()).seen + {code},
        arrays := Some(Stored(old(ArraysView()), code, tmpCounter, v)))
    {
      tmpFlags := tmpFlags + {code};
      var i := tmpCounter;
      match code {
        case 10 => xcoord[i] := Some(v);
        case 20 => ycoord[i] := Some(v);
        case 40 => startingWidth[i] := v;
        case 41 => endWidth[i] := v;
        case _ => bulge[i] := v;
      }
      assert ArraysView() == Stored(old(ArraysView()), code, i, v);
    }

    method HandleVertex(r: Rec)
      requires Sound() && IsVertexCode(r.code) && !Overruns(View(), r)
      modifies this, xcoord, ycoord, startingWidth, endWidth, bulge
      ensures Sound() && View() == Handle(old(View()), r)
    {
      hide Stored, IsVertexCode;
      if xcoord == null {
        if numVertices <= 0 {
          return;
        }
        Allocate();
      }
      Advance(r.code);
      if tmpCounter >= numVertices || ((r.code == 40 || r.code == 41) && startingWidth == null) {
        return;
      }
      StoreValue(r.code, r.double);
    }

    /** True when the record is this class's own. */
    method HandleRecord(r: Rec) returns (handled: bool)
      requires Sound() && !Overruns(View(), r)
      modifies this, xcoord, ycoord, startingWidth, endWidth, bulge
      ensures Sound() && View() == Handle(old(View()), r) && (handled <==> IsOwnCode(r.code))
    {
      match r.code {
        case 10 | 20 | 40 | 41 | 42 => HandleVertex(r);
        case 38 => elevation := r.double;
        case 43 => constantWidth := r.double;
        case 70 => flags := r.whole;
        case 90 => numVertices := r.whole;
        case _ => handled := HandleExtrusion(r); return;
      }
      handled := true;
    }

    method HandleExtrusion(r: Rec) returns (handled: bool)
      requires Sound()
      modifies this`thickness, this`extrusionDir
      ensures handled <==> r.code == 39 || r.code == 210 || r.code == 220 || r.code == 230
      ensures handled ==> View() == Handle(old(View()), r)
      ensures !handled ==> View() == old(View())
    {
      match r.code {
        case 39 => thickness := r.double;
        case 210 => extrusionDir := extrusionDir.(x := r.double);
        case 220 => extrusionDir := extrusionDir.(y := r.double);
        case 230 => extrusionDir := extrusionDir.(z := r.double);
        case _ => return false;
      }
      handled := true;
    }

    /** The records of write(), around those of the base class. */
    method Write(others: seq<Rec>) returns (rs: seq<Rec>)
      requires Sound() && Writable(View())
      ensures rs == Written(View(), others)
    {
      rs := [Whole(90, ToInt16(numVertices))];
      if flags != 0 {
        rs := rs + [Whole(70, flags)];
      }
      if elevation != 0.0 {
        rs := rs + [Double(38, elevation)];
      }
      if constantWidth != 0.0 {
        rs := rs + [Double(43, constantWidth)];
      }
      var extrusion := WriteExtrusion();
      rs := rs + extrusion;
      assert rs == WrittenHead(View());
      rs := rs + others;
      var vertices := WriteVertices();
      rs := rs + vertices;
    }

    method WriteVertices() returns (vertices: seq<Rec>)
      requires Sound() && Writable(View())
      ensures vertices == WrittenVertices(View(), VertexCount(View()))
    {
      hide WrittenVertex;
      vertices := [];
      var i := 0;
      while i < numVertices
        invariant 0 <= i && (i > 0 ==> i <= numVertices) && vertices == WrittenVertices(View(), i)
      {
        var vertex := WriteVertex(i);
        vertices := vertices + vertex;
        i := i + 1;
      }
    }

    method WriteExtrusion() returns (rs: seq<Rec>)
      requires Sound()
      ensures rs == WrittenExtrusion(View())
    {
      rs := [];
      if thickness != 0.0 {
        rs := rs + [Double(39, thickness)];
      }
      if extrusionDir != Z_AXIS {
        rs := rs + [Double(210, extrusionDir.x), Double(220, extrusionDir.y), Double(230, extrusionDir.z)];
      }
    }

    method WriteVertex(i: nat) returns (rs: seq<Rec>)
      requires Sound() && Writable(View()) && i < numVertices
      ensures rs == WrittenVertex(View(), i)
    {
      rs := [Double(10, xcoord[i].value), Double(20, ycoord[i].value)];
      if startingWidth != null {
        if startingWidth[i] != 0.0 {
          rs := rs + [Double(40, startingWidth[i])];
        }
        if endWidth[i] != 0.0 {
          rs := rs + [Double(41, endWidth[i])];
        }
      }
      if bulge[i] != 0.0 {
        rs := rs + [Double(42, bulge[i])];
      }
    }
  }
}
