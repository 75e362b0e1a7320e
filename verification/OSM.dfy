/** src/convert/convertosm.cpp: entities become the nodes and ways of an OSM
    document. A coordinate is its printed key, and elements are kept without
    their tags. */
module OSM {
  import opened Wrappers
  import opened Tokens
  import opened Escape

  datatype Element =
    | Node(id: int, key: string)
    | Label(id: int, key: string, name: string)  // the node of an MTEXT
    | Way(id: int, kind: string, refs: seq<int>)

  /** The entities that are converted, with their numbers. */
  datatype Entity =
    | Polyline(num: nat, keys: seq<string>)
    | LWPolyline(num: nat, keys: seq<string>)
    | Line(num: nat, from: string, to: string)
    | Point(num: nat, key: string)
    | MText(num: nat, key: string, text: string)
    | Other(num: nat)

  /** The map of known points, the shared counter behind entity numbers and node
      ids, what has been printed, and the ids that were taken from the counter. */
  datatype State = State(points: map<string, int>, count: nat, out: seq<Element>, taken: seq<int>)

  /** Zero when the point is not known. */
  function LookUp(points: map<string, int>, key: string): int {
    if key in points then points[key] else 0
  }

  /** A node for a point that has none: its id goes through an int. */
  function Placed(s: State, key: string): State {
    if LookUp(s.points, key) != 0 then s
    else
      var id := ToInt32(s.count);
      State(s.points[key := id], s.count + 1, s.out + [Node(id, key)], s.taken + [id])
  }

  function AllPlaced(s: State, keys: seq<string>): State {
    if keys == [] then s else Placed(AllPlaced(s, keys[..|keys| - 1]), keys[|keys| - 1])
  }

  /** One nd for every vertex whose point is known. */
  function References(points: map<string, int>, keys: seq<string>): seq<int> {
    if keys == [] then []
    else
      var id := LookUp(points, keys[|keys| - 1]);
      References(points, keys[..|keys| - 1]) + if id != 0 then [id] else []
  }

  function WithWay(s: State, num: int, kind: string, keys: seq<string>): State {
    var p := AllPlaced(s, keys);
    p.(out := p.out + [Way(num, kind, References(p.points, keys))])
  }

  /** A POINT or MTEXT becomes known under its own number, and is printed. */
  function WithOwnNode(s: State, num: int, key: string, e: Element): State {
    var points := if LookUp(s.points, key) != 0 then s.points else s.points[key := ToInt32(num)];
    s.(points := points, out := s.out + [e])
  }

  function Converted(s: State, e: Entity): State {
    match e
    case Polyline(num, keys) => WithWay(s, num, "dimePolyline", keys)
    case LWPolyline(num, keys) => WithWay(s, num, "dimeLWPolyline", keys)
    case Line(num, from, to) => WithWay(s, num, "dimeLine", [from, to])
    case Point(num, key) => WithOwnNode(s, num, key, Node(num, key))
    case MText(num, key, text) => WithOwnNode(s, num, key, Label(num, key, Escaped(text)))
    case Other(_) => s
  }

  function AllConverted(s: State, es: seq<Entity>): State
    decreases es
  {
    if es == [] then s else AllConverted(Converted(s, es[0]), es[1..])
  }

  // ----- integrity -----

  /** A node with this id stands for the key. */
  predicate HasNode(out: seq<Element>, id: int, key: string) {
    exists i :: 0 <= i < |out| && !out[i].Way? && out[i].id == id && out[i].key == key
  }

  /** Every known point has its node in the output. */
  predicate Known(s: State) {
    forall k :: k in s.points && s.points[k] != 0 ==> HasNode(s.out, s.points[k], k)
  }

  const LIMIT: nat := 0x8000_0000

  lemma StillHasNode(out: seq<Element>, more: seq<Element>, id: int, key: string)
    requires HasNode(out, id, key)
    ensures HasNode(out + more, id, key)
  {
    var i :| 0 <= i < |out| && !out[i].Way? && out[i].id == id && out[i].key == key;
    assert (out + more)[i] == out[i];
  }

  lemma KnownAfter(s: State, more: seq<Element>)
    requires Known(s)
    ensures Known(s.(out := s.out + more))
  {
    forall k | k in s.points && s.points[k] != 0
      ensures HasNode(s.out + more, s.points[k], k)
    {
      StillHasNode(s.out, more, s.points[k], k);
    }
  }

  lemma PlacedIsKnown(s: State, key: string)
    requires Known(s) && 0 < s.count < LIMIT
    ensures var p := Placed(s, key);
      && Known(p) && LookUp(p.points, key) != 0
      && (forall k :: LookUp(s.points, k) != 0 ==> LookUp(p.points, k) == LookUp(s.points, k))
  {
    if LookUp(s.points, key) == 0 {
      var p := Placed(s, key);
      KnownAfter(s, [Node(s.count, key)]);
      assert p.out[|s.out|] == Node(s.count, key);
      forall k | k in p.points && p.points[k] != 0
        ensures HasNode(p.out, p.points[k], k)
      {
        if k != key {
          StillHasNode(s.out, [Node(s.count, key)], s.points[k], k);
        }
      }
    }
  }

  /** n numbers of the counter, as ids. */
  function Ids(first: nat, n: nat): (ids: seq<int>)
    ensures |ids| == n && forall i :: 0 <= i < n ==> ids[i] == ToInt32(first + i)
  {
    if n == 0 then [] else Ids(first, n - 1) + [ToInt32(first + n - 1)]
  }

  /** Only ids from the counter were taken, one after the other. */
  predicate Taken(s: State, p: State) {
    s.count <= p.count && p.taken == s.taken + Ids(s.count, p.count - s.count)
  }

  lemma {:induction false} IdsConcat(first: nat, m: nat, n: nat)
    ensures Ids(first, m + n) == Ids(first, m) + Ids(first + m, n)
  {
    hide ToInt32;
    if n > 0 {
      IdsConcat(first, m, n - 1);
      assert m + n - 1 == m + (n - 1) && first + (m + n - 1) == first + m + n - 1;
      assert Ids(first, m) + (Ids(first + m, n - 1) + [ToInt32(first + m + n - 1)])
          == Ids(first, m) + Ids(first + m, n - 1) + [ToInt32(first + m + n - 1)];
    } else {
      assert Ids(first, m) + [] == Ids(first, m);
    }
  }

  lemma TakenTwice(s: State, p: State, q: State)
    requires Taken(s, p) && Taken(p, q)
    ensures Taken(s, q)
  {
    hide Ids;
    IdsConcat(s.count, p.count - s.count, q.count - p.count);
    Regroup(s.taken, Ids(s.count, p.count - s.count), Ids(p.count, q.count - p.count));
  }

  lemma TakenGrows(s: State, p: State)
    requires Taken(s, p)
    ensures s.count <= p.count
  {
  }

  lemma TakenPrints(s: State, p: State, e: Element)
    requires Taken(s, p)
    ensures Taken(s, p.(out := p.out + [e]))
  {
  }

  lemma NothingTaken(s: State, p: State)
    requires p.count == s.count && p.taken == s.taken
    ensures Taken(s, p)
  {
    assert s.taken + Ids(s.count, 0) == s.taken;
  }

  lemma OneTaken(s: State, p: State)
    requires p.count == s.count + 1 && p.taken == s.taken + [ToInt32(s.count)]
    ensures Taken(s, p)
  {
    assert Ids(s.count, 1) == [ToInt32(s.count)];
  }

  lemma {:induction false} AllPlacedAreKnown(s: State, keys: seq<string>)
    requires Known(s) && 0 < s.count && s.count + |keys| <= LIMIT
    ensures var p := AllPlaced(s, keys);
      && Known(p) && (forall i :: 0 <= i < |keys| ==> LookUp(p.points, keys[i]) != 0)
      && p.count <= s.count + |keys| && Taken(s, p)
  {
    hide Taken, Known, LookUp, ToInt32;
    if keys == [] {
      NothingTaken(s, s);
    } else {
      var front, last := keys[..|keys| - 1], keys[|keys| - 1];
      AllPlacedAreKnown(s, front);
      var q := AllPlaced(s, front);
      TakenGrows(s, q);
      PlacedIsKnown(q, last);
      var p := Placed(q, last);
      forall i | 0 <= i < |keys|
        ensures LookUp(p.points, keys[i]) != 0
      {
        assert i < |front| ==> keys[i] == front[i];
      }
      if p == q {
        NothingTaken(q, p);
      } else {
        OneTaken(q, p);
      }
      TakenTwice(s, q, p);
    }
  }

  lemma {:induction false} ReferencesAre(points: map<string, int>, keys: seq<string>)
    requires forall i :: 0 <= i < |keys| ==> LookUp(points, keys[i]) != 0
    ensures var r := References(points, keys);
      |r| == |keys| && forall i :: 0 <= i < |keys| ==> r[i] == LookUp(points, keys[i])
  {
    if keys != [] {
      var front := keys[..|keys| - 1];
      assert forall i :: 0 <= i < |front| ==> front[i] == keys[i];
      ReferencesAre(points, front);
    }
  }

  /** One nd for every vertex, in order, each naming a node that has been printed
      before for the same key. */
  predicate WayIsComplete(before: seq<Element>, way: Element, keys: seq<string>) {
    way.Way? && |way.refs| == |keys| && forall i :: 0 <= i < |keys| ==>
      way.refs[i] != 0 && HasNode(before, way.refs[i], keys[i])
  }

  lemma WayCompletes(s: State, num: int, kind: string, keys: seq<string>)
    requires Known(s) && 0 < s.count && s.count + |keys| <= LIMIT
    ensures var p := WithWay(s, num, kind, keys);
      && Known(p) && p.out != [] && WayIsComplete(p.out[..|p.out| - 1], p.out[|p.out| - 1], keys)
      && p.count <= s.count + |keys| && Taken(s, p)
  {
    hide Taken;
    AllPlacedAreKnown(s, keys);
    var p := AllPlaced(s, keys);
    ReferencesAre(p.points, keys);
    var way := Way(num, kind, References(p.points, keys));
    KnownAfter(p, [way]);
    assert (p.out + [way])[..|p.out|] == p.out;
    TakenPrints(s, p, way);
  }

  /** The vertices of the ways. */
  function Keys(e: Entity): seq<string> {
    match e
    case Polyline(_, keys) => keys
    case LWPolyline(_, keys) => keys
    case Line(_, from, to) => [from, to]
    case _ => []
  }

  predicate IsWay(e: Entity) {
    e.Polyline? || e.LWPolyline? || e.Line?
  }

  lemma OwnNodeIsKnown(s: State, num: nat, key: string, e: Element)
    requires Known(s) && num < LIMIT && !e.Way? && e.id == num && e.key == key
    ensures var p := WithOwnNode(s, num, key, e); Known(p) && p.count == s.count && Taken(s, p)
  {
    KnownAfter(s, [e]);
    var p := WithOwnNode(s, num, key, e);
    NothingTaken(s, p);
    assert p.out[|s.out|] == e;
    forall k | k in p.points && p.points[k] != 0
      ensures HasNode(p.out, p.points[k], k)
    {
      if k in s.points && s.points[k] != 0 {
        StillHasNode(s.out, [e], s.points[k], k);
      }
    }
  }

  lemma ConvertedIsKnown(s: State, e: Entity)
    requires Known(s) && e.num < s.count && s.count + |Keys(e)| <= LIMIT
    ensures var p := Converted(s, e);
      && Known(p) && p.count <= s.count + |Keys(e)| && Taken(s, p)
      && (IsWay(e) ==> p.out != [] && WayIsComplete(p.out[..|p.out| - 1], p.out[|p.out| - 1], Keys(e)))
  {
    hide Known, WayIsComplete, Taken, Placed, AllPlaced, WithWay, WithOwnNode, Escaped, References;
    match e
    case Polyline(num, keys) => WayCompletes(s, num, "dimePolyline", keys);
    case LWPolyline(num, keys) => WayCompletes(s, num, "dimeLWPolyline", keys);
    case Line(num, from, to) => WayCompletes(s, num, "dimeLine", [from, to]);
    case Point(num, key) => OwnNodeIsKnown(s, num, key, Node(num, key));
    case MText(num, key, text) => OwnNodeIsKnown(s, num, key, Label(num, key, Escaped(text)));
    case Other(_) => NothingTaken(s, s);
  }

  function TotalKeys(es: seq<Entity>): nat {
    if es == [] then 0 else |Keys(es[0])| + TotalKeys(es[1..])
  }

  /** Every way of the run is complete when it is printed. */
  predicate AllComplete(s: State, es: seq<Entity>)
    decreases es
  {
    es != [] ==>
      var p := Converted(s, es[0]);
      && (IsWay(es[0]) ==> p.out != [] && WayIsComplete(p.out[..|p.out| - 1], p.out[|p.out| - 1], Keys(es[0])))
      && AllComplete(p, es[1..])
  }

  /** Any run over entities that were made before it, while ids fit an int:
      every way is complete, and the ids taken from the counter are those from
      its first value on, one after the other. */
  lemma {:induction false} RunIsSound(s: State, es: seq<Entity>)
    requires Known(s) && s.count + TotalKeys(es) <= LIMIT && forall i :: 0 <= i < |es| ==> es[i].num < s.count
    ensures var p := AllConverted(s, es);
      AllComplete(s, es) && Known(p) && Taken(s, p) && p.count <= s.count + TotalKeys(es)
    decreases es
  {
    hide Known, Taken, Converted, WayIsComplete;
    if es == [] {
      NothingTaken(s, s);
    } else {
      ConvertedIsKnown(s, es[0]);
      var p := Converted(s, es[0]);
      TakenGrows(s, p);
      RunIsSound(p, es[1..]);
      TakenTwice(s, p, AllConverted(s, es));
    }
  }

  /** So the new ids differ from each other and from every entity number. */
  lemma FreshIdsAreFresh(s: State, es: seq<Entity>, i: nat, j: nat, num: nat)
    requires Known(s) && s.taken == [] && s.count + TotalKeys(es) <= LIMIT && forall k :: 0 <= k < |es| ==>
      es[k].num < s.count
    requires i < j < |AllConverted(s, es).taken| && num < s.count
    ensures var ids := AllConverted(s, es).taken; ids[i] != ids[j] && ids[i] != num && ids[j] != num && ids[i] > 0
  {
    hide Known, AllConverted, AllComplete, ToInt32, TotalKeys;
    RunIsSound(s, es);
    var p := AllConverted(s, es);
    assert p.taken == Ids(s.count, p.count - s.count);
  }

  /** A POINT or MTEXT is found again, and a vertex on it needs no node of its own,
      exactly when its place was known before or its number is not zero as an
      int. */
  lemma OwnNodeIsFound(s: State, e: Entity)
    requires e.Point? || e.MText?
    ensures var p := Converted(s, e);
      && (LookUp(p.points, e.key) != 0 <==> LookUp(s.points, e.key) != 0 || e.num % 0x1_0000_0000 != 0)
      && (Placed(p, e.key) == p <==> LookUp(s.points, e.key) != 0 || e.num % 0x1_0000_0000 != 0)
      && forall k :: k != e.key ==> LookUp(p.points, k) == LookUp(s.points, k)
  {
    ZeroAsInt(e.num);
    hide ToInt32, Escaped;
  }

  lemma ZeroAsInt(n: nat)
    ensures ToInt32(n) == 0 <==> n % 0x1_0000_0000 == 0
  {
  }

  /** The first entity that is made has the number 0, which looks like no number
      at all: as a POINT it is forgotten, and a line from it gets a new node. */
  lemma PointZeroIsForgotten(s: State, key: string)
    requires key !in s.points && 0 < s.count < LIMIT
    ensures var p := Converted(s, Point(0, key)); var q := Placed(p, key);
      key in p.points && q.out == p.out + [Node(s.count, key)]
  {
  }

  // ----- the ids of the nodes -----

  function NodeIds(out: seq<Element>): seq<int> {
    if out == [] then []
    else NodeIds(out[..|out| - 1]) + if out[|out| - 1].Way? then [] else [out[|out| - 1].id]
  }

  lemma NodeIdsAppend(out: seq<Element>, e: Element)
    ensures NodeIds(out + [e]) == NodeIds(out) + if e.Way? then [] else [e.id]
  {
    assert (out + [e])[..|out|] == out;
  }

  /** The numbers of the POINTs and MTEXTs, as often as they are converted. */
  function OwnIds(es: seq<Entity>): seq<int> {
    if es == [] then [] else (if es[0].Point? || es[0].MText? then [es[0].num] else []) + OwnIds(es[1..])
  }

  lemma OwnIdsOfOne(e: Entity)
    ensures OwnIds([e]) == if e.Point? || e.MText? then [e.num] else []
  {
    assert [e][1..] == [] && OwnIds([]) == [];
  }

  predicate Distinct(ids: seq<int>) {
    forall i, j :: 0 <= i < j < |ids| ==> ids[i] != ids[j]
  }

  /** The ids below a number, or the others, in order. */
  function Part(ids: seq<int>, base: int, below: bool): (part: seq<int>)
    ensures forall i :: 0 <= i < |part| ==> (part[i] < base <==> below)
    ensures forall x :: x in part <==> x in ids && (x < base <==> below)
  {
    if ids == [] then []
    else Part(ids[..|ids| - 1], base, below)
         + if ids[|ids| - 1] < base <==> below then [ids[|ids| - 1]] else []
  }

  lemma PartAppend(ids: seq<int>, id: int, base: int, below: bool)
    ensures Part(ids + [id], base, below) == Part(ids, base, below) + if id < base <==> below then [id] else []
  {
    assert (ids + [id])[..|ids|] == ids;
  }

  lemma DistinctAppend(ids: seq<int>, id: int)
    ensures Distinct(ids + [id]) <==> Distinct(ids) && id !in ids
  {
    var all := ids + [id];
    if Distinct(all) {
      assert forall i :: 0 <= i < |ids| ==> all[i] == ids[i];
      forall i | 0 <= i < |ids|
        ensures ids[i] != id
      {
        assert all[i] != all[|ids|];
      }
    }
  }

  lemma {:induction false} DistinctInParts(ids: seq<int>, base: int)
    ensures Distinct(ids) <==> Distinct(Part(ids, base, true)) && Distinct(Part(ids, base, false))
  {
    if ids != [] {
      var init, id := ids[..|ids| - 1], ids[|ids| - 1];
      assert ids == init + [id];
      DistinctInParts(init, base);
      DistinctAppend(init, id);
      PartAppend(init, id, base, true);
      PartAppend(init, id, base, false);
      hide Part, Distinct;
      var same, other := Part(init, base, id < base), Part(init, base, id >= base);
      DistinctAppend(same, id);
      assert other + [] == other;
      assert id in init <==> id in same;
    }
  }

  lemma IdsAreDistinct(first: nat, n: nat)
    requires first + n <= LIMIT
    ensures Distinct(Ids(first, n))
  {
    hide ToInt32;
    var ids := Ids(first, n);
    forall i, j | 0 <= i < j < n
      ensures ids[i] != ids[j]
    {
      assert ids[i] == ToInt32(first + i) == first + i && ids[j] == ToInt32(first + j) == first + j;
    }
  }

  /** From s to p, nodes with these ids below the number have been printed, and
      above it those with the ids that were taken. */
  ghost predicate Prints(s: State, p: State, base: int, own: seq<int>) {
    && s.count <= p.count
    && Part(NodeIds(p.out), base, true) == Part(NodeIds(s.out), base, true) + own
    && Part(NodeIds(p.out), base, false) == Part(NodeIds(s.out), base, false) + Ids(s.count, p.count - s.count)
  }

  lemma PrintsNothing(s: State, base: int)
    ensures Prints(s, s, base, [])
  {
    assert Part(NodeIds(s.out), base, true) + [] == Part(NodeIds(s.out), base, true);
    assert Part(NodeIds(s.out), base, false) + Ids(s.count, 0) == Part(NodeIds(s.out), base, false);
  }

  lemma PrintsTwice(s: State, p: State, q: State, base: int, a: seq<int>, b: seq<int>)
    requires Prints(s, p, base, a) && Prints(p, q, base, b)
    ensures Prints(s, q, base, a + b)
  {
    hide Part, NodeIds, Ids;
    IdsConcat(s.count, p.count - s.count, q.count - p.count);
    Regroup(Part(NodeIds(s.out), base, true), a, b);
    Regroup(Part(NodeIds(s.out), base, false), Ids(s.count, p.count - s.count), Ids(p.count, q.count - p.count));
  }

  lemma PrintsOwn(s: State, p: State, base: int, e: Element)
    requires p.count == s.count && p.out == s.out + [e] && !e.Way? && e.id < base
    ensures Prints(s, p, base, [e.id])
  {
    NodeIdsAppend(s.out, e);
    PartAppend(NodeIds(s.out), e.id, base, true);
    PartAppend(NodeIds(s.out), e.id, base, false);
    assert Part(NodeIds(s.out), base, false) + Ids(s.count, 0) == Part(NodeIds(s.out), base, false);
  }

  lemma PrintsWay(s: State, p: State, base: int, own: seq<int>, way: Element)
    requires Prints(s, p, base, own) && way.Way?
    ensures Prints(s, p.(out := p.out + [way]), base, own)
  {
    NodeIdsAppend(p.out, way);
    assert NodeIds(p.out) + [] == NodeIds(p.out);
  }

  lemma PrintsPlaced(s: State, base: int, key: string)
    requires base <= s.count < LIMIT
    ensures Prints(s, Placed(s, key), base, [])
  {
    PrintsNothing(s, base);
    if LookUp(s.points, key) == 0 {
      var id, below := s.count, Part(NodeIds(s.out), base, true);
      NodeIdsAppend(s.out, Node(id, key));
      PartAppend(NodeIds(s.out), id, base, true);
      PartAppend(NodeIds(s.out), id, base, false);
      assert Ids(s.count, 1) == [id];
      assert below + [] == below;
    }
  }

  lemma {:induction false} PrintsAllPlaced(s: State, base: int, keys: seq<string>)
    requires Known(s) && base <= s.count && 0 < s.count && s.count + |keys| <= LIMIT
    ensures Prints(s, AllPlaced(s, keys), base, [])
  {
    hide Known, Taken, Prints, Placed;
    if keys == [] {
      PrintsNothing(s, base);
    } else {
      var front := keys[..|keys| - 1];
      PrintsAllPlaced(s, base, front);
      AllPlacedAreKnown(s, front);
      var q := AllPlaced(s, front);
      TakenGrows(s, q);
      PrintsPlaced(q, base, keys[|keys| - 1]);
      PrintsTwice(s, q, AllPlaced(s, keys), base, [], []);
      var none: seq<int> := [];
      assert none + none == none;
    }
  }

  lemma PrintsConverted(s: State, base: int, e: Entity)
    requires Known(s) && e.num < base <= s.count && s.count + |Keys(e)| <= LIMIT
    ensures Prints(s, Converted(s, e), base, OwnIds([e]))
  {
    hide Known, Prints, Escaped, References, AllPlaced;
    OwnIdsOfOne(e);
    match e
    case Polyline(num, keys) => PrintsWithWay(s, base, num, "dimePolyline", keys);
    case LWPolyline(num, keys) => PrintsWithWay(s, base, num, "dimeLWPolyline", keys);
    case Line(num, from, to) => PrintsWithWay(s, base, num, "dimeLine", [from, to]);
    case Point(num, key) => PrintsOwn(s, Converted(s, e), base, Node(num, key));
    case MText(num, key, text) => PrintsOwn(s, Converted(s, e), base, Label(num, key, Escaped(text)));
    case Other(_) => PrintsNothing(s, base);
  }

  lemma PrintsWithWay(s: State, base: int, num: int, kind: string, keys: seq<string>)
    requires Known(s) && base <= s.count && 0 < s.count && s.count + |keys| <= LIMIT
    ensures Prints(s, WithWay(s, num, kind, keys), base, [])
  {
    hide Known, Prints, References;
    PrintsAllPlaced(s, base, keys);
    var p := AllPlaced(s, keys);
    PrintsWay(s, p, base, [], Way(num, kind, References(p.points, keys)));
  }

  lemma {:induction false} RunPrints(s: State, base: int, es: seq<Entity>)
    requires Known(s) && base <= s.count && s.count + TotalKeys(es) <= LIMIT
    requires forall i :: 0 <= i < |es| ==> es[i].num < base
    ensures Prints(s, AllConverted(s, es), base, OwnIds(es))
    decreases es
  {
    hide Known, Taken, Prints, Converted, WayIsComplete;
    if es == [] {
      PrintsNothing(s, base);
    } else {
      var p := Converted(s, es[0]);
      ConvertedIsKnown(s, es[0]);
      TakenGrows(s, p);
      PrintsConverted(s, base, es[0]);
      RunPrints(p, base, es[1..]);
      PrintsTwice(s, p, AllConverted(s, es), base, OwnIds([es[0]]), OwnIds(es[1..]));
      OwnIdsOfOne(es[0]);
    }
  }

  /** The nodes of a whole run have different ids exactly when no POINT or MTEXT
      is converted twice, as it is when a block that holds it is exploded
      twice. */
  lemma NodeIdsAreDistinct(s: State, es: seq<Entity>)
    requires Known(s) && s.out == [] && s.count + TotalKeys(es) <= LIMIT
    requires forall i :: 0 <= i < |es| ==> es[i].num < s.count
    ensures Distinct(NodeIds(AllConverted(s, es).out)) <==> Distinct(OwnIds(es))
  {
    RunIsSound(s, es);
    RunPrints(s, s.count, es);
    hide AllConverted, Known, Taken, AllComplete, OwnIds, Distinct, Prints, NodeIds;
    DistinctPrints(s, AllConverted(s, es), OwnIds(es));
  }

  lemma DistinctPrints(s: State, p: State, own: seq<int>)
    requires s.out == [] && Prints(s, p, s.count, own) && p.count <= LIMIT
    ensures Distinct(NodeIds(p.out)) <==> Distinct(own)
  {
    hide Ids, Distinct, Part, NodeIds;
    IdsAreDistinct(s.count, p.count - s.count);
    DistinctInParts(NodeIds(p.out), s.count);
    NoNodes(s.count);
    var none: seq<int> := [];
    assert none + own == own && none + Ids(s.count, p.count - s.count) == Ids(s.count, p.count - s.count);
  }

  lemma NoNodes(base: int)
    ensures NodeIds([]) == [] && Part([], base, true) == [] == Part([], base, false)
  {
  }

  /** A POINT that is reached twice is printed twice. */
  lemma SamePointTwice(s: State)
    requires Known(s) && s.out == []
    ensures AllConverted(s, [Point(3, "k"), Point(3, "k")]).out == [Node(3, "k"), Node(3, "k")]
  {
    var es := [Point(3, "k"), Point(3, "k")];
    assert es[1..] == [Point(3, "k")] && es[1..][1..] == [];
  }

  // ----- what is printed for the entities -----

  /** The ways and the nodes with numbers of entities, without the nodes that were
      made for vertices. */
  function Own(out: seq<Element>, base: int): (own: seq<Element>) {
    if out == [] then []
    else
      var last := out[|out| - 1];
      Own(out[..|out| - 1], base) + if last.Way? || last.id < base then [last] else []
  }

  lemma OwnAppend(out: seq<Element>, e: Element, base: int)
    ensures Own(out + [e], base) == Own(out, base) + if e.Way? || e.id < base then [e] else []
  {
    assert (out + [e])[..|out|] == out;
  }

  /** The element that an entity is printed as: under its own number, a way of its
      kind, or a node at its place, with a name that stands for its text. */
  predicate IsFor(x: Element, e: Entity) {
    match e
    case Polyline(num, keys) => x.Way? && x.id == num && x.kind == "dimePolyline" && |x.refs| == |keys|
    case LWPolyline(num, keys) => x.Way? && x.id == num && x.kind == "dimeLWPolyline" && |x.refs| == |keys|
    case Line(num, _, _) => x.Way? && x.id == num && x.kind == "dimeLine" && |x.refs| == 2
    case Point(num, key) => x == Node(num, key)
    case MText(num, key, text) => x.Label? && x.id == num && x.key == key && Unescaped(x.name) == Some(text)
    case Other(_) => false
  }

  /** The entities that are converted at all. */
  function Printed(es: seq<Entity>): seq<Entity> {
    if es == [] then [] else (if es[0].Other? then [] else [es[0]]) + Printed(es[1..])
  }

  predicate AreFor(own: seq<Element>, es: seq<Entity>) {
    |own| == |es| && forall i :: 0 <= i < |own| ==> IsFor(own[i], es[i])
  }

  lemma {:induction false} PlacingIsNotOwn(s: State, keys: seq<string>, base: int)
    requires Known(s) && base <= s.count && 0 < s.count && s.count + |keys| <= LIMIT
    ensures Own(AllPlaced(s, keys).out, base) == Own(s.out, base)
  {
    hide Known, Taken;
    if keys != [] {
      var front, last := keys[..|keys| - 1], keys[|keys| - 1];
      PlacingIsNotOwn(s, front, base);
      AllPlacedAreKnown(s, front);
      var q := AllPlaced(s, front);
      TakenGrows(s, q);
      OwnAppend(q.out, Node(ToInt32(q.count), last), base);
    }
  }

  lemma WayIsOwn(s: State, num: int, kind: string, keys: seq<string>, base: int)
    requires Known(s) && base <= s.count && 0 < s.count && s.count + |keys| <= LIMIT
    ensures var way := Way(num, kind, References(AllPlaced(s, keys).points, keys));
      Own(WithWay(s, num, kind, keys).out, base) == Own(s.out, base) + [way] && |way.refs| == |keys|
  {
    hide Known, Own;
    PlacingIsNotOwn(s, keys, base);
    var p := AllPlaced(s, keys);
    AllPlacedAreKnown(s, keys);
    ReferencesAre(p.points, keys);
    OwnAppend(p.out, Way(num, kind, References(p.points, keys)), base);
  }

  lemma ConvertedIsFor(s: State, e: Entity, base: int) returns (x: Element)
    requires Known(s) && e.num < base <= s.count && s.count + |Keys(e)| <= LIMIT && !e.Other?
    ensures IsFor(x, e) && Own(Converted(s, e).out, base) == Own(s.out, base) + [x]
  {
    hide Known, Own, References, AllPlaced, Escaped, Unescaped;
    var p := Converted(s, e);
    x := p.out[|p.out| - 1];
    match e
    case Polyline(num, keys) => WayIsOwn(s, num, "dimePolyline", keys, base);
    case LWPolyline(num, keys) => WayIsOwn(s, num, "dimeLWPolyline", keys, base);
    case Line(num, from, to) => WayIsOwn(s, num, "dimeLine", [from, to], base);
    case Point(num, key) => OwnAppend(s.out, Node(num, key), base);
    case MText(num, key, text) =>
      OwnAppend(s.out, Label(num, key, Escaped(text)), base);
      UnescapesToText(text);
  }

  /** Over every run: what is printed under the numbers of the entities is one
      element for each that is converted, in order, of its kind, with its number,
      its place and, unescaped, its text. */
  lemma {:induction false} RunIsFor(s: State, es: seq<Entity>, base: int) returns (own: seq<Element>)
    requires Known(s) && base <= s.count && s.count + TotalKeys(es) <= LIMIT
    requires forall i :: 0 <= i < |es| ==> es[i].num < base
    ensures AreFor(own, Printed(es)) && Own(AllConverted(s, es).out, base) == Own(s.out, base) + own
    decreases es
  {
    hide Known, Taken, Converted, WayIsComplete, IsFor, Own, AreFor;
    if es == [] {
      NothingIsFor();
      own := [];
      assert Own(s.out, base) + [] == Own(s.out, base);
    } else {
      var p := Converted(s, es[0]);
      ConvertedIsKnown(s, es[0]);
      TakenGrows(s, p);
      var later := RunIsFor(p, es[1..], base);
      if es[0].Other? {
        OtherIsNothing(s, es[0]);
        assert Printed(es) == [] + Printed(es[1..]) == Printed(es[1..]);
        own := later;
      } else {
        var x := ConvertedIsFor(s, es[0], base);
        own := [x] + later;
        Regroup(Own(s.out, base), [x], later);
        OneMoreFor(x, later, es);
      }
    }
  }

  lemma OneMoreFor(x: Element, later: seq<Element>, es: seq<Entity>)
    requires es != [] && !es[0].Other? && IsFor(x, es[0]) && AreFor(later, Printed(es[1..]))
    ensures AreFor([x] + later, Printed(es))
  {
    hide IsFor;
  }

  lemma NothingIsFor()
    ensures AreFor([], Printed([]))
  {
  }

  lemma OtherIsNothing(s: State, e: Entity)
    requires e.Other?
    ensures Converted(s, e) == s
  {
  }

  /** From the start of a conversion, all of what is printed. */
  lemma EveryEntityIsPrinted(s: State, es: seq<Entity>) returns (own: seq<Element>)
    requires Known(s) && s.out == [] && s.count + TotalKeys(es) <= LIMIT
    requires forall i :: 0 <= i < |es| ==> es[i].num < s.count
    ensures AreFor(own, Printed(es)) && Own(AllConverted(s, es).out, s.count) == own
  {
    hide AreFor, Printed, AllConverted, Known;
    own := RunIsFor(s, es, s.count);
    assert [] + own == own;
  }

  // ----- the converter -----

  class Converter {
    var points: map<string, int>
    var entityCount: nat
    var out: seq<Element>
    ghost var taken: seq<int>

    ghost function View(): State
      reads this
    {
      State(points, entityCount, out, taken)
    }

    constructor ()
      ensures View() == State(map[], 0, [], [])
    {
      points, entityCount, out, taken := map[], 0, [], [];
    }

    /** The constructor of every entity. */
    method NewEntityNum() returns (num: nat)
      modifies this`entityCount
      ensures num == old(entityCount) && entityCount == num + 1
    {
      num := entityCount;
      entityCount := entityCount + 1;
    }

    method LookUpPoint(key: string) returns (id: int)
      ensures id == LookUp(points, key)
    {
      if key in points {
        return points[key];
      }
      return 0;
    }

    /** The id is passed as an int. */
    method Add(key: string, id: int)
      modifies this`points
      ensures points == old(points)[key := ToInt32(id)]
    {
      points := points[key := ToInt32(id)];
    }

    /** The body of the first loop over the vertices. */
    method PlaceNode(key: string)
      modifies this
      ensures View() == Placed(old(View()), key)
    {
      var id := LookUpPoint(key);
      if id == 0 {
        id := entityCount;
        entityCount := entityCount + 1;
        Add(key, id);
        id := LookUpPoint(key);
        out := out + [Node(id, key)];
        taken := taken + [id];
      }
    }

    /** The three conversions with vertices: a node for each that has none, and
        then the way. */
    method ConvertVertices(num: nat, kind: string, keys: seq<string>)
      modifies this
      ensures View() == WithWay(old(View()), num, kind, keys)
    {
      hide Placed;
      for i := 0 to |keys|
        invariant View() == AllPlaced(old(View()), keys[..i])
      {
        PlaceNode(keys[i]);
        assert keys[..i + 1][..i] == keys[..i];
      }
      assert keys[..|keys|] == keys;
      var refs := [];
      for i := 0 to |keys|
        invariant View() == AllPlaced(old(View()), keys) && refs == References(points, keys[..i])
      {
        var id := LookUpPoint(keys[i]);
        if id != 0 {
          refs := refs + [id];
        }
        assert keys[..i + 1][..i] == keys[..i];
      }
      out := out + [Way(num, kind, refs)];
    }

    method ConvertPoint(num: nat, key: string)
      modifies this
      ensures View() == WithOwnNode(old(View()), num, key, Node(num, key))
    {
      out := out + [Node(num, key)];
      var id := LookUpPoint(key);
      if id == 0 {
        Add(key, num);
      }
    }

    method ConvertMText(num: nat, key: string, text: string)
      modifies this
      ensures View() == WithOwnNode(old(View()), num, key, Label(num, key, Escaped(text)))
    {
      var id := LookUpPoint(key);
      if id == 0 {
        Add(key, num);
      }
      var name := EscapeString(text);
      out := out + [Label(num, key, name)];
    }

    /** private_callback, which never stops the traversal. */
    method Callback(e: Entity) returns (more: bool)
      modifies this
      ensures more && View() == Converted(old(View()), e)
    {
      match e {
        case Polyline(num, keys) => ConvertVertices(num, "dimePolyline", keys);
        case LWPolyline(num, keys) => ConvertVertices(num, "dimeLWPolyline", keys);
        case Line(num, from, to) => ConvertVertices(num, "dimeLine", [from, to]);
        case Point(num, key) => ConvertPoint(num, key);
        case MText(num, key, text) => ConvertMText(num, key, text);
        case Other(_) =>
      }
      more := true;
    }
  }
}
