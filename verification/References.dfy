/** Block references: src/entities/Insert.cpp, src/entities/Block.cpp, the
    sections that hold entities, and the dictionary of src/Model.cpp. Objects are
    numbered in the order in which reading creates them, and pointers to them
    are their numbers. */
module References {
  import opened Wrappers
  import Dict

  // ----- what a file holds -----

  /** An entity with those that follow it: the attributes of an INSERT, or the
      contents of a BLOCK. */
  datatype Item =
    | Insert(name: Option<string>, children: seq<Item>)
    | Block(name: Option<string>, children: seq<Item>)
    | Other

  function Children(item: Item): seq<Item> {
    match item case Insert(_, ch) => ch case Block(_, ch) => ch case Other => []
  }

  function Size(item: Item): (n: nat)
    ensures n > 0
  {
    1 + match item case Insert(_, ch) => Sizes(ch) case Block(_, ch) => Sizes(ch) case Other => 0
  }

  function Sizes(items: seq<Item>): nat {
    if items == [] then 0 else Size(items[0]) + Sizes(items[1..])
  }

  // ----- objects -----

  /** A block name is a pointer to a string of the dictionary. */
  datatype Obj =
    | InsertObj(blockName: Option<Dict.Str>, block: Option<nat>, entities: seq<nat>)
    | BlockObj(name: Option<Dict.Str>, entities: seq<nat>)
    | OtherObj

  predicate NameIs(p: Option<Dict.Str>, name: Option<string>) {
    p.Some? == name.Some? && (p.Some? ==> p.value.chars == name.value)
  }

  /** Where the items stand, when the first stands at the given number. */
  function Roots(items: seq<Item>, at: nat): seq<nat> {
    if items == [] then [] else [at] + Roots(items[1..], at + Size(items[0]))
  }

  /** The objects from this number on are those of the item. */
  predicate Mirrors(objs: seq<Obj>, at: nat, item: Item)
    decreases item, 0
  {
    && at < |objs|
    && match item
       case Insert(name, ch) =>
         && objs[at].InsertObj? && NameIs(objs[at].blockName, name)
         && objs[at].entities == Roots(ch, at + 1) && AllMirror(objs, at + 1, ch)
       case Block(name, ch) =>
         && objs[at].BlockObj? && NameIs(objs[at].name, name)
         && objs[at].entities == Roots(ch, at + 1) && AllMirror(objs, at + 1, ch)
       case Other => objs[at].OtherObj?
  }

  predicate AllMirror(objs: seq<Obj>, at: nat, items: seq<Item>)
    decreases items, 1
  {
    items != [] ==> Mirrors(objs, at, items[0]) && AllMirror(objs, at + Size(items[0]), items[1..])
  }

  /** Equal objects in the stretch of an item, but perhaps for what INSERTs
      point to. */
  predicate Alike(a: Obj, b: Obj) {
    match (a, b)
    case (InsertObj(n, _, e), InsertObj(n', _, e')) => n == n' && e == e'
    case _ => a == b
  }

  lemma {:induction false} MirrorsAlike(objs: seq<Obj>, objs': seq<Obj>, at: nat, item: Item)
    requires Mirrors(objs, at, item) && at + Size(item) <= |objs'|
    requires forall j :: at <= j < at + Size(item) && j < |objs| ==> Alike(objs[j], objs'[j])
    ensures Mirrors(objs', at, item)
    decreases item, 0
  {
    match item
    case Insert(_, ch) => AllMirrorAlike(objs, objs', at + 1, ch);
    case Block(_, ch) => AllMirrorAlike(objs, objs', at + 1, ch);
    case Other =>
  }

  lemma {:induction false} AllMirrorAlike(objs: seq<Obj>, objs': seq<Obj>, at: nat, items: seq<Item>)
    requires AllMirror(objs, at, items) && at + Sizes(items) <= |objs'|
    requires forall j :: at <= j < at + Sizes(items) && j < |objs| ==> Alike(objs[j], objs'[j])
    ensures AllMirror(objs', at, items)
    decreases items, 1
  {
    if items != [] {
      MirrorsAlike(objs, objs', at, items[0]);
      AllMirrorAlike(objs, objs', at + Size(items[0]), items[1..]);
    }
  }

  lemma {:induction false} SizesAppend(items: seq<Item>, item: Item)
    ensures Sizes(items + [item]) == Sizes(items) + Size(item)
  {
    if items == [] {
      assert [item][1..] == [];
    } else {
      assert (items + [item])[1..] == items[1..] + [item];
      SizesAppend(items[1..], item);
    }
  }

  lemma {:induction false} RootsAppend(items: seq<Item>, item: Item, at: nat)
    ensures Roots(items + [item], at) == Roots(items, at) + [at + Sizes(items)]
  {
    if items == [] {
      assert [item][1..] == [];
    } else {
      assert (items + [item])[1..] == items[1..] + [item];
      RootsAppend(items[1..], item, at + Size(items[0]));
    }
  }

  lemma {:induction false} AllMirrorAppend(objs: seq<Obj>, at: nat, items: seq<Item>, item: Item)
    requires AllMirror(objs, at, items) && Mirrors(objs, at + Sizes(items), item)
    ensures AllMirror(objs, at, items + [item])
    decreases items
  {
    if items == [] {
      assert [item][1..] == [];
    } else {
      assert (items + [item])[1..] == items[1..] + [item];
      AllMirrorAppend(objs, at + Size(items[0]), items[1..], item);
    }
  }

  // ----- the dictionary and the objects agree -----

  predicate IsBlock(objs: seq<Obj>, b: nat, name: string) {
    b < |objs| && objs[b].BlockObj? && objs[b].name.Some? && objs[b].name.value.chars == name
  }

  predicate Sound(objs: seq<Obj>, refs: map<string, Option<nat>>) {
    && (forall n :: n in refs && refs[n].Some? ==> IsBlock(objs, refs[n].value, n))
    && (forall i :: 0 <= i < |objs| ==> SoundAt(objs, refs, i))
  }

  /** A name that is used is in the dictionary, and one that is defined is not
      NULL there. */
  predicate SoundAt(objs: seq<Obj>, refs: map<string, Option<nat>>, i: nat)
    requires i < |objs|
  {
    match objs[i]
    case InsertObj(p, block, _) =>
      && (p.Some? ==> p.value.chars in refs)
      && (block.Some? ==> p.Some? && IsBlock(objs, block.value, p.value.chars))
    case BlockObj(p, _) => p.Some? ==> p.value.chars in refs && refs[p.value.chars].Some?
    case OtherObj => true
  }

  predicate Defined(objs: seq<Obj>, name: string) {
    exists b :: 0 <= b < |objs| && IsBlock(objs, b, name)
  }

  /** An INSERT of a defined block points to a block of that name. */
  predicate Resolved(objs: seq<Obj>, i: nat)
    requires i < |objs|
  {
    objs[i].InsertObj? && objs[i].blockName.Some? && Defined(objs, objs[i].blockName.value.chars) ==>
      objs[i].block.Some? && IsBlock(objs, objs[i].block.value, objs[i].blockName.value.chars)
  }

  /** Adding an object that has no name yet. */
  lemma SoundAdd(objs: seq<Obj>, refs: map<string, Option<nat>>, o: Obj)
    requires Sound(objs, refs)
    requires match o case InsertObj(p, b, _) => p.None? && b.None? case BlockObj(p, _) => p.None? case OtherObj => true
    ensures Sound(objs + [o], refs)
  {
    forall i | 0 <= i < |objs|
      ensures SoundAt(objs + [o], refs, i)
    {
      assert SoundAt(objs, refs, i);
    }
  }

  /** Another object in the place of one that is no named block. */
  lemma SoundSet(objs: seq<Obj>, refs: map<string, Option<nat>>, k: nat, o: Obj)
    requires Sound(objs, refs) && k < |objs|
    requires objs[k].BlockObj? && objs[k].name.Some? ==> o.BlockObj? && o.name == objs[k].name
    requires SoundAt(objs[k := o], refs, k)
    ensures Sound(objs[k := o], refs)
  {
    var objs' := objs[k := o];
    forall i | 0 <= i < |objs|
      ensures SoundAt(objs', refs, i)
    {
      assert SoundAt(objs, refs, i);
    }
  }

  /** An INSERT that gets a known name, and nothing or what the name stands for. */
  lemma SoundInsert(objs: seq<Obj>, refs: map<string, Option<nat>>, k: nat, p: Dict.Str,
                                       block: Option<nat>)
    requires Sound(objs, refs) && k < |objs| && objs[k].InsertObj?
    requires p.chars in refs && (block.Some? ==> block == refs[p.chars])
    ensures Sound(objs[k := InsertObj(Some(p), block, objs[k].entities)], refs)
  {
    SoundSet(objs, refs, k, InsertObj(Some(p), block, objs[k].entities));
  }

  lemma SoundEntities(objs: seq<Obj>, refs: map<string, Option<nat>>, k: nat, entities: seq<nat>)
    requires Sound(objs, refs) && k < |objs| && !objs[k].OtherObj?
    ensures Sound(objs[k := objs[k].(entities := entities)], refs)
  {
    assert SoundAt(objs, refs, k);
    var o := objs[k].(entities := entities);
    EntitiesStaySound(objs, refs, k, o);
    hide Sound;
    SoundSet(objs, refs, k, o);
  }

  lemma EntitiesStaySound(objs: seq<Obj>, refs: map<string, Option<nat>>, k: nat, o: Obj)
    requires k < |objs| && SoundAt(objs, refs, k) && !objs[k].OtherObj? && !o.OtherObj?
    requires o == objs[k].(entities := o.entities)
    ensures SoundAt(objs[k := o], refs, k)
  {
  }

  lemma SoundNewName(objs: seq<Obj>, refs: map<string, Option<nat>>, name: string)
    requires Sound(objs, refs) && name !in refs
    ensures Sound(objs, refs[name := None])
  {
    var refs' := refs[name := None];
    forall i | 0 <= i < |objs|
      ensures SoundAt(objs, refs', i)
    {
      assert SoundAt(objs, refs, i);
    }
  }

  /** A block gets its name, and the dictionary the block. */
  lemma SoundNameBlock(objs: seq<Obj>, refs: map<string, Option<nat>>, k: nat, p: Dict.Str)
    requires Sound(objs, refs) && k < |objs| && objs[k].BlockObj? && objs[k].name.None?
    ensures Sound(objs[k := objs[k].(name := Some(p))], refs[p.chars := Some(k)])
  {
    var objs', refs' := objs[k := objs[k].(name := Some(p))], refs[p.chars := Some(k)];
    forall i | 0 <= i < |objs|
      ensures SoundAt(objs', refs', i)
    {
      assert SoundAt(objs, refs, i);
    }
  }

  // ----- fixing -----

  function EntitiesOf(o: Obj): seq<nat> {
    match o case InsertObj(_, _, e) => e case BlockObj(_, e) => e case OtherObj => []
  }

  /** Only what INSERTs of a stretch point to has changed. */
  predicate Changed(a: seq<Obj>, b: seq<Obj>, lo: nat, hi: nat) {
    && |a| == |b|
    && (forall j :: 0 <= j < |a| ==> Alike(a[j], b[j]))
    && (forall j :: 0 <= j < |a| && !(lo <= j < hi) ==> a[j] == b[j])
  }

  /** Points to something, if its name stands for something. */
  predicate Fixed(o: Obj, refs: map<string, Option<nat>>) {
    o.InsertObj? && o.blockName.Some? && o.blockName.value.chars in refs && refs[o.blockName.value.chars].Some? ==>
      o.block.Some?
  }

  predicate AllFixed(objs: seq<Obj>, refs: map<string, Option<nat>>, lo: nat, hi: nat) {
    forall j :: lo <= j < hi && j < |objs| ==> Fixed(objs[j], refs)
  }

  lemma SizeIs(item: Item)
    ensures Size(item) == 1 + Sizes(Children(item))
  {
  }

  lemma MirrorsChildren(objs: seq<Obj>, at: nat, item: Item)
    requires Mirrors(objs, at, item)
    ensures at < |objs| && EntitiesOf(objs[at]) == Roots(Children(item), at + 1)
    ensures AllMirror(objs, at + 1, Children(item))
  {
  }

  lemma ChangedMirrors(a: seq<Obj>, b: seq<Obj>, lo: nat, hi: nat, at: nat, items: seq<Item>)
    requires Changed(a, b, lo, hi) && AllMirror(a, at, items) && at + Sizes(items) <= |a|
    ensures AllMirror(b, at, items) && |a| == |b|
  {
    AllMirrorAlike(a, b, at, items);
  }

  lemma ChangedMirror(a: seq<Obj>, b: seq<Obj>, lo: nat, hi: nat, at: nat, item: Item)
    requires Changed(a, b, lo, hi) && Mirrors(a, at, item) && at + Size(item) <= |a|
    ensures Mirrors(b, at, item)
  {
    MirrorsAlike(a, b, at, item);
  }

  lemma ChangedLength(a: seq<Obj>, b: seq<Obj>, lo: nat, hi: nat)
    requires Changed(a, b, lo, hi)
    ensures |a| == |b|
  {
  }

  lemma NothingChanged(a: seq<Obj>, refs: map<string, Option<nat>>, lo: nat, hi: nat)
    ensures Changed(a, a, lo, hi) && AllFixed(a, refs, lo, lo)
  {
  }

  lemma ChangedTwice(a: seq<Obj>, b: seq<Obj>, c: seq<Obj>, lo: nat, hi: nat)
    requires Changed(a, b, lo, hi) && Changed(b, c, lo, hi)
    ensures Changed(a, c, lo, hi)
  {
  }

  lemma Widen(a: seq<Obj>, b: seq<Obj>, lo: nat, hi: nat, lo': nat, hi': nat)
    requires Changed(a, b, lo, hi) && lo' <= lo && hi <= hi'
    ensures Changed(a, b, lo', hi')
  {
  }

  lemma FixedStays(a: seq<Obj>, b: seq<Obj>, refs: map<string, Option<nat>>, lo: nat, hi: nat,
                                      lo': nat, hi': nat)
    requires AllFixed(a, refs, lo, hi) && Changed(a, b, lo', hi') && hi <= lo'
    ensures AllFixed(b, refs, lo, hi)
  {
  }

  lemma FixedBoth(objs: seq<Obj>, refs: map<string, Option<nat>>, lo: nat, mid: nat, hi: nat)
    requires AllFixed(objs, refs, lo, mid) && AllFixed(objs, refs, mid, hi)
    ensures AllFixed(objs, refs, lo, hi)
  {
  }

  lemma UsedName(objs: seq<Obj>, refs: map<string, Option<nat>>, i: nat)
    requires Sound(objs, refs) && i < |objs| && objs[i].InsertObj? && objs[i].blockName.Some?
    ensures objs[i].blockName.value.chars in refs
  {
    assert SoundAt(objs, refs, i);
  }

  lemma SizesNone()
    ensures Sizes([]) == 0
  {
  }

  lemma {:induction false} RootsLength(items: seq<Item>, at: nat)
    ensures |Roots(items, at)| == |items|
  {
    if items != [] {
      RootsLength(items[1..], at + Size(items[0]));
    }
  }

  /** Where item k stands, and that it ends before the items do. */
  lemma {:induction false} ItemAt(objs: seq<Obj>, at: nat, items: seq<Item>, k: nat)
    requires AllMirror(objs, at, items) && k < |items|
    ensures |Roots(items, at)| == |items| && Roots(items, at)[k] == at + Sizes(items[..k])
    ensures Mirrors(objs, at + Sizes(items[..k]), items[k])
    ensures Sizes(items[..k + 1]) == Sizes(items[..k]) + Size(items[k]) && Sizes(items[..k + 1]) <= Sizes(items)
    decreases items
  {
    RootsLength(items, at);
    if k == 0 {
      assert items[..1][1..] == [] && items[..0] == [];
    } else {
      ItemAt(objs, at + Size(items[0]), items[1..], k - 1);
      assert items[..k][1..] == items[1..][..k - 1] && items[..k + 1][1..] == items[1..][..k];
    }
  }

  // ----- sections -----

  datatype Kind = Blocks | Entities | Elsewhere

  /** A section of the file with its entities; those of other sections are kept
      as records. */
  datatype FileSection = FileSection(kind: Kind, items: seq<Item>)

  datatype Section = Section(kind: Kind, entities: seq<nat>)

  /** The number of the first object of section k. */
  function Start(file: seq<FileSection>, k: nat): nat
    requires k <= |file|
  {
    if k == 0 then 0
    else Start(file, k - 1) + if file[k - 1].kind == Elsewhere then 0 else Sizes(file[k - 1].items)
  }

  /** The first k sections have been read. */
  predicate SectionsMirror(objs: seq<Obj>, secs: seq<Section>, file: seq<FileSection>, k: nat)
    requires k <= |file|
  {
    && |secs| == k
    && forall i :: 0 <= i < k ==> secs[i].kind == file[i].kind && (secs[i].kind != Elsewhere ==>
         secs[i].entities == Roots(file[i].items, Start(file, i)) && AllMirror(objs, Start(file, i), file[i].items))
  }

  // ----- what the objects say about the file -----

  /** The item and all that it contains, in reading order. */
  function Preorder(item: Item): (items: seq<Item>)
    ensures |items| == Size(item)
    decreases item, 0
  {
    [item] + match item case Insert(_, ch) => PreorderAll(ch) case Block(_, ch) => PreorderAll(ch) case Other => []
  }

  function PreorderAll(items: seq<Item>): (all: seq<Item>)
    ensures |all| == Sizes(items)
    decreases items, 1
  {
    if items == [] then [] else Preorder(items[0]) + PreorderAll(items[1..])
  }

  /** The items of the first k sections. */
  function FileItems(file: seq<FileSection>, k: nat): (items: seq<Item>)
    requires k <= |file|
    ensures |items| == Start(file, k)
  {
    if k == 0 then []
    else FileItems(file, k - 1) + if file[k - 1].kind == Elsewhere then [] else PreorderAll(file[k - 1].items)
  }

  /** The object has the kind and the name of the item. */
  predicate Describes(o: Obj, item: Item) {
    match item
    case Insert(name, _) => o.InsertObj? && NameIs(o.blockName, name)
    case Block(name, _) => o.BlockObj? && NameIs(o.name, name)
    case Other => o.OtherObj?
  }

  /** The objects from this number on describe the items, one by one. */
  predicate AllDescribe(objs: seq<Obj>, at: nat, items: seq<Item>) {
    at + |items| <= |objs| && forall i :: 0 <= i < |items| ==> Describes(objs[at + i], items[i])
  }

  lemma DescribesBoth(objs: seq<Obj>, at: nat, a: seq<Item>, b: seq<Item>)
    requires AllDescribe(objs, at, a) && AllDescribe(objs, at + |a|, b)
    ensures AllDescribe(objs, at, a + b)
  {
    forall i | 0 <= i < |a + b|
      ensures Describes(objs[at + i], (a + b)[i])
    {
      if i >= |a| {
        assert Describes(objs[at + |a| + (i - |a|)], b[i - |a|]);
      }
    }
  }

  lemma {:induction false} MirrorDescribes(objs: seq<Obj>, at: nat, item: Item)
    requires Mirrors(objs, at, item) && at + Size(item) <= |objs|
    ensures AllDescribe(objs, at, Preorder(item))
    decreases item, 0
  {
    match item {
      case Insert(_, ch) =>
        AllMirrorDescribes(objs, at + 1, ch);
        DescribesBoth(objs, at, [item], PreorderAll(ch));
      case Block(_, ch) =>
        AllMirrorDescribes(objs, at + 1, ch);
        DescribesBoth(objs, at, [item], PreorderAll(ch));
      case Other =>
    }
  }

  lemma {:induction false} AllMirrorDescribes(objs: seq<Obj>, at: nat, items: seq<Item>)
    requires AllMirror(objs, at, items) && at + Sizes(items) <= |objs|
    ensures AllDescribe(objs, at, PreorderAll(items))
    decreases items, 1
  {
    if items != [] {
      MirrorDescribes(objs, at, items[0]);
      AllMirrorDescribes(objs, at + Size(items[0]), items[1..]);
      DescribesBoth(objs, at, Preorder(items[0]), PreorderAll(items[1..]));
    }
  }

  lemma SectionMirrors(objs: seq<Obj>, secs: seq<Section>, file: seq<FileSection>, k: nat)
    requires k < |file| && file[k].kind != Elsewhere && SectionsMirror(objs, secs, file, |file|)
    ensures |secs| == |file| && secs[k].entities == Roots(file[k].items, Start(file, k))
    ensures AllMirror(objs, Start(file, k), file[k].items)
  {
    hide AllMirror, Roots, Start;
  }

  /** What has been read describes the file: as many objects as items, of the
      same kinds and names, in the same order. */
  lemma {:induction false} SectionsDescribe(objs: seq<Obj>, secs: seq<Section>, file: seq<FileSection>, k: nat)
    requires k <= |file| && |objs| >= Start(file, |file|) && SectionsMirror(objs, secs, file, |file|)
    ensures AllDescribe(objs, 0, FileItems(file, k))
  {
    hide SectionsMirror, AllMirror, PreorderAll, Describes, Sizes;
    if k > 0 {
      SectionsDescribe(objs, secs, file, k - 1);
      StartsGrow(file, k, |file|);
      if file[k - 1].kind != Elsewhere {
        SectionMirrors(objs, secs, file, k - 1);
        AllMirrorDescribes(objs, Start(file, k - 1), file[k - 1].items);
        DescribesBoth(objs, 0, FileItems(file, k - 1), PreorderAll(file[k - 1].items));
      }
    }
  }

  function First(secs: seq<Section>, kind: Kind): (k: nat)
    ensures k <= |secs|
  {
    if secs == [] || secs[0].kind == kind then 0 else 1 + First(secs[1..], kind)
  }

  function FirstOf(file: seq<FileSection>, kind: Kind): (k: nat)
    ensures k <= |file| && (k < |file| ==> file[k].kind == kind)
    ensures forall i :: 0 <= i < k ==> file[i].kind != kind
  {
    if file == [] || file[0].kind == kind then 0 else 1 + FirstOf(file[1..], kind)
  }

  /** The INSERTs of the first section of this kind, and of all it contains. */
  predicate ResolvedIn(objs: seq<Obj>, file: seq<FileSection>, kind: Kind) {
    var k := FirstOf(file, kind);
    k < |file| ==> forall j :: Start(file, k) <= j < Start(file, k + 1) && j < |objs| ==> Resolved(objs, j)
  }

  lemma {:induction false} StartsGrow(file: seq<FileSection>, i: nat, j: nat)
    requires i <= j <= |file|
    ensures Start(file, i) <= Start(file, j)
  {
    if i < j {
      StartsGrow(file, i, j - 1);
    }
  }

  lemma NoSections(objs: seq<Obj>, file: seq<FileSection>)
    ensures Start(file, 0) == 0 && SectionsMirror(objs, [], file, 0)
  {
  }

  lemma {:induction false} MoreSections(a: seq<Obj>, b: seq<Obj>, secs: seq<Section>, file: seq<FileSection>, k: nat,
                                        entities: seq<nat>)
    requires k < |file| && SectionsMirror(a, secs, file, k) && |a| == Start(file, k) <= |b|
    requires forall j :: 0 <= j < |a| ==> b[j] == a[j]
    requires file[k].kind != Elsewhere ==> entities == Roots(file[k].items, |a|) && AllMirror(b, |a|, file[k].items)
    ensures SectionsMirror(b, secs + [Section(file[k].kind, entities)], file, k + 1)
  {
    hide AllMirror, Roots, Start;
    var all := secs + [Section(file[k].kind, entities)];
    forall i | 0 <= i < k + 1 && file[i].kind != Elsewhere
      ensures all[i].entities == Roots(file[i].items, Start(file, i)) && AllMirror(b, Start(file, i), file[i].items)
    {
      if i < k {
        assert all[i] == secs[i];
        SectionStays(a, b, file, i, k);
      }
    }
  }

  lemma SectionStays(a: seq<Obj>, b: seq<Obj>, file: seq<FileSection>, i: nat, k: nat)
    requires i < k <= |file| && file[i].kind != Elsewhere && AllMirror(a, Start(file, i), file[i].items)
    requires |a| == Start(file, k) <= |b| && forall j :: 0 <= j < |a| ==> b[j] == a[j]
    ensures AllMirror(b, Start(file, i), file[i].items)
  {
    hide AllMirror;
    StartsGrow(file, i + 1, k);
    AllMirrorAlike(a, b, Start(file, i), file[i].items);
  }

  lemma SectionsStay(a: seq<Obj>, b: seq<Obj>, secs: seq<Section>, file: seq<FileSection>, lo: nat,
                                        hi: nat)
    requires SectionsMirror(a, secs, file, |file|) && |a| == Start(file, |file|) && Changed(a, b, lo, hi)
    ensures SectionsMirror(b, secs, file, |file|) && |b| == |a|
  {
    forall i | 0 <= i < |file| && file[i].kind != Elsewhere
      ensures AllMirror(b, Start(file, i), file[i].items)
    {
      StartsGrow(file, i + 1, |file|);
      ChangedMirrors(a, b, lo, hi, Start(file, i), file[i].items);
    }
  }

  lemma {:induction false} SameFirst(secs: seq<Section>, file: seq<FileSection>, kind: Kind)
    requires |secs| == |file| && forall i :: 0 <= i < |secs| ==> secs[i].kind == file[i].kind
    ensures First(secs, kind) == FirstOf(file, kind)
  {
    if secs != [] {
      SameFirst(secs[1..], file[1..], kind);
    }
  }

  lemma FirstIsFirstOf(objs: seq<Obj>, secs: seq<Section>, file: seq<FileSection>, kind: Kind)
    requires SectionsMirror(objs, secs, file, |file|)
    ensures |secs| == |file| && First(secs, kind) == FirstOf(file, kind)
  {
    SameFirst(secs, file, kind);
  }

  lemma SectionsApart(file: seq<FileSection>, b: nat, e: nat)
    requires b < |file| && e < |file| && b != e
    ensures Start(file, b + 1) <= Start(file, e) || Start(file, e + 1) <= Start(file, b)
  {
    if b < e {
      StartsGrow(file, b + 1, e);
    } else {
      StartsGrow(file, e + 1, b);
    }
  }

  lemma StillFixed(a: seq<Obj>, b: seq<Obj>, refs: map<string, Option<nat>>, lo: nat, hi: nat,
                                      lo': nat, hi': nat)
    requires AllFixed(a, refs, lo, hi) && Changed(a, b, lo', hi') && (hi <= lo' || hi' <= lo)
    ensures AllFixed(b, refs, lo, hi)
  {
  }

  lemma EmptyIsSound(refs: map<string, Option<nat>>)
    requires refs == map[]
    ensures Sound([], refs)
  {
  }

  /** No step turns a defined name back into nothing, so what has been looked up
      last is resolved. */
  lemma FixedIsResolved(objs: seq<Obj>, refs: map<string, Option<nat>>, lo: nat, hi: nat)
    requires Sound(objs, refs) && AllFixed(objs, refs, lo, hi)
    ensures forall j :: lo <= j < hi && j < |objs| ==> Resolved(objs, j)
  {
    forall j | lo <= j < hi && j < |objs|
      ensures Resolved(objs, j)
    {
      assert SoundAt(objs, refs, j) && Fixed(objs[j], refs);
      if objs[j].InsertObj? && objs[j].blockName.Some? && Defined(objs, objs[j].blockName.value.chars) {
        var b :| 0 <= b < |objs| && IsBlock(objs, b, objs[j].blockName.value.chars);
        assert SoundAt(objs, refs, b);
      }
    }
  }

  // ----- the model -----

  type Table = Dict.Table<Option<nat>>

  class Model {
    var refDict: Table
    var objects: seq<Obj>
    var sections: seq<Section>

    ghost predicate Valid()
      reads this`refDict, this`objects, refDict, refDict.buckets, refDict.g.repr
    {
      refDict.Valid() && Sound(objects, refDict.values)
    }

    ghost function Frame(): set<object>
      reads this`refDict, refDict`g
    {
      {refDict, refDict.buckets} + refDict.g.repr
    }

    constructor ()
      ensures Valid() && objects == [] && fresh(Frame()) && refDict.tableSize == 17989
    {
      refDict := new Dict.Table<Option<nat>>(17989);
      objects, sections := [], [];
    }

    // ----- the dictionary -----

    method AddReference(name: string, id: Option<nat>) returns (ptr: Dict.Str)
      requires refDict.Valid()
      modifies refDict, refDict.buckets, refDict.g.repr
      ensures refDict.Valid() && fresh(refDict.g.repr - old(refDict.g.repr))
      ensures refDict.values == old(refDict.values)[name := id] && ptr.chars == name
    {
      var isNew;
      isNew, ptr := refDict.Enter(name, id);
    }

    method FindReference(name: string) returns (id: Option<nat>)
      requires refDict.Valid()
      ensures id == if name in refDict.values then refDict.values[name] else None
    {
      var v := refDict.Find(name);
      id := if v.Some? then v.value else None;
    }

    method LookUp(name: string) returns (id: Option<nat>)
      requires Valid() && name in refDict.values
      ensures Valid() && id == refDict.values[name]
    {
      hide Sound;
      id := FindReference(name);
    }

    // ----- reading -----

    /** The end of dimeInsert::read for the block name: a name that is not known
        yet is entered as a reference to nothing; one that is known is not
        touched. */
    method ReadBlockName(i: nat, name: string)
      requires Valid() && i < |objects| && objects[i] == InsertObj(None, None, [])
      modifies this`objects, refDict, refDict.buckets, refDict.g.repr
      ensures Valid() && fresh(refDict.g.repr - old(refDict.g.repr))
      ensures |objects| == |old(objects)|
      ensures forall j :: 0 <= j < |objects| && j != i ==> objects[j] == old(objects)[j]
      ensures objects[i].InsertObj? && NameIs(objects[i].blockName, Some(name))
      ensures objects[i].entities == old(objects)[i].entities
    {
      hide Sound, Table.Valid;
      StringIsKey(name);
      var ptr := refDict.FindString(name);
      if ptr.Some? {
        var block := FindReference(name);
        SetInsert(i, ptr.value, block);
      } else {
        var p := AddForward(name);
        SetInsert(i, p, None);
      }
    }

    lemma StringIsKey(name: string)
      requires refDict.Valid()
      ensures name in refDict.g.entries <==> name in refDict.values
      ensures name in refDict.g.entries ==> refDict.g.Strings()[name].chars == name
    {
    }

    /** A reference to a block that has not been read yet. */
    method AddForward(name: string) returns (p: Dict.Str)
      requires Valid() && name !in refDict.values
      modifies refDict, refDict.buckets, refDict.g.repr
      ensures Valid() && fresh(refDict.g.repr - old(refDict.g.repr))
      ensures p.chars == name && name in refDict.values
    {
      SoundNewName(objects, refDict.values, name);
      hide Sound, Table.Valid;
      p := AddReference(name, None);
    }

    method SetInsert(i: nat, p: Dict.Str, block: Option<nat>)
      requires Valid() && i < |objects| && objects[i].InsertObj?
      requires p.chars in refDict.values && (block.Some? ==> block == refDict.values[p.chars])
      modifies this`objects
      ensures Valid() && objects == old(objects)[i := InsertObj(Some(p), block, old(objects)[i].entities)]
    {
      hide Sound, Table.Valid;
      SoundInsert(objects, refDict.values, i, p, block);
      objects := objects[i := InsertObj(Some(p), block, objects[i].entities)];
    }

    /** addBlock */
    method AddBlock(i: nat, name: string)
      requires Valid() && i < |objects| && objects[i].BlockObj? && objects[i].name.None?
      modifies this`objects, refDict, refDict.buckets, refDict.g.repr
      ensures Valid() && fresh(refDict.g.repr - old(refDict.g.repr))
      ensures |objects| == |old(objects)|
      ensures forall j :: 0 <= j < |objects| && j != i ==> objects[j] == old(objects)[j]
      ensures objects[i].BlockObj? && NameIs(objects[i].name, Some(name))
      ensures objects[i].entities == old(objects)[i].entities
    {
      var p := AddReference(name, Some(i));
      SoundNameBlock(objects, old(refDict.values), i, p);
      objects := objects[i := objects[i].(name := Some(p))];
    }

    method SetEntities(i: nat, entities: seq<nat>)
      requires Valid() && i < |objects| && !objects[i].OtherObj?
      modifies this`objects
      ensures Valid() && |objects| == |old(objects)|
      ensures forall j :: 0 <= j < |objects| && j != i ==> objects[j] == old(objects)[j]
      ensures objects[i] == old(objects)[i].(entities := entities)
    {
      hide Sound, Dict.Table.Valid;
      SoundEntities(objects, refDict.values, i, entities);
      objects := objects[i := objects[i].(entities := entities)];
    }

    method NewObject(o: Obj) returns (i: nat)
      requires Valid() && (o == InsertObj(None, None, []) || o == BlockObj(None, []) || o == OtherObj)
      modifies this`objects
      ensures Valid() && objects == old(objects) + [o] && i == |old(objects)|
    {
      SoundAdd(objects, refDict.values, o);
      i := |objects|;
      objects := objects + [o];
    }

    /** Reads an entity and those that follow it. */
    method ReadItem(item: Item) returns (i: nat)
      requires Valid()
      modifies this`objects, refDict, refDict.buckets, refDict.g.repr
      ensures Valid() && fresh(refDict.g.repr - old(refDict.g.repr))
      ensures i == |old(objects)| && |objects| == i + Size(item) && Mirrors(objects, i, item)
      ensures forall j :: 0 <= j < |old(objects)| ==> objects[j] == old(objects)[j]
      decreases item, 0
    {
      hide Valid, Sound;
      match item {
        case Other =>
          i := NewObject(OtherObj);
        case Insert(name, ch) =>
          i := NewObject(InsertObj(None, None, []));
          if name.Some? {
            ReadBlockName(i, name.value);
          }
          ReadContents(i, item, ch);
        case Block(name, ch) =>
          i := NewObject(BlockObj(None, []));
          if name.Some? {
            AddBlock(i, name.value);
          }
          ReadContents(i, item, ch);
      }
    }

    /** What follows the entity, kept in it. */
    method ReadContents(i: nat, ghost item: Item, ch: seq<Item>)
      requires Valid() && i + 1 == |objects| && !objects[i].OtherObj?
      requires match item case Insert(n, c) => c == ch && objects[i].InsertObj? && NameIs(objects[i].blockName, n)
                          case Block(n, c) => c == ch && objects[i].BlockObj? && NameIs(objects[i].name, n)
                          case Other => false
      modifies this`objects, refDict, refDict.buckets, refDict.g.repr
      ensures Valid() && fresh(refDict.g.repr - old(refDict.g.repr))
      ensures |objects| == i + Size(item) && Mirrors(objects, i, item)
      ensures forall j :: 0 <= j < i ==> objects[j] == old(objects)[j]
      decreases ch, 2
    {
      hide Valid, Sound, AllMirror, Roots;
      var entities := ReadEntities(ch);
      ghost var before := objects;
      SetEntities(i, entities);
      AllMirrorAlike(before, objects, i + 1, ch);
    }

    /** readEntities, and the loops of the sections. */
    method ReadEntities(items: seq<Item>) returns (entities: seq<nat>)
      requires Valid()
      modifies this`objects, refDict, refDict.buckets, refDict.g.repr
      ensures Valid() && fresh(refDict.g.repr - old(refDict.g.repr))
      ensures var at := |old(objects)|;
        |objects| == at + Sizes(items) && entities == Roots(items, at) && AllMirror(objects, at, items)
      ensures forall j :: 0 <= j < |old(objects)| ==> objects[j] == old(objects)[j]
      decreases items, 1
    {
      hide Valid, Sound, AllMirror, Roots, Sizes, Mirrors;
      entities := [];
      ghost var at := |objects|;
      EmptyItems(objects, at);
      for k := 0 to |items|
        invariant Valid() && fresh(refDict.g.repr - old(refDict.g.repr))
        invariant |objects| == at + Sizes(items[..k]) && entities == Roots(items[..k], at)
        invariant AllMirror(objects, at, items[..k])
        invariant forall j :: 0 <= j < at ==> objects[j] == old(objects)[j]
      {
        ghost var before := objects;
        var e := ReadItem(items[k]);
        AllMirrorAlike(before, objects, at, items[..k]);
        AllMirrorAppend(objects, at, items[..k], items[k]);
        RootsAppend(items[..k], items[k], at);
        SizesAppend(items[..k], items[k]);
        assert items[..k + 1] == items[..k] + [items[k]];
        entities := entities + [e];
      }
      assert items[..|items|] == items;
    }

    // ----- forward references -----

    /** fixReferences: an INSERT that points to nothing looks its name up again;
        then the attributes of an INSERT and the contents of a BLOCK. */
    method FixReferences(i: nat, ghost item: Item)
      requires Valid() && Mirrors(objects, i, item) && i + Size(item) <= |objects|
      modifies this`objects
      ensures Valid() && Changed(old(objects), objects, i, i + Size(item))
      ensures AllFixed(objects, refDict.values, i, i + Size(item))
      decreases Size(item), 0
    {
      hide *;
      SizeIs(item);
      ghost var ch, hi := Children(item), i + Size(item);
      var entities := FixHere(i);
      MirrorsChildren(old(objects), i, item);
      ghost var before := objects;
      ChangedMirrors(old(objects), objects, i, i + 1, i + 1, ch);
      FixAll(entities, i + 1, ch);
      FixedStays(before, objects, refDict.values, i, i + 1, i + 1, hi);
      Widen(old(objects), before, i, i + 1, i, hi);
      Widen(before, objects, i + 1, hi, i, hi);
      ChangedTwice(old(objects), before, objects, i, hi);
      FixedBoth(objects, refDict.values, i, i + 1, hi);
    }

    method FixHere(i: nat) returns (entities: seq<nat>)
      requires Valid() && i < |objects|
      modifies this`objects
      ensures Valid() && Changed(old(objects), objects, i, i + 1) && AllFixed(objects, refDict.values, i, i + 1)
      ensures entities == EntitiesOf(old(objects)[i])
    {
      hide Sound, Table.Valid;
      entities := EntitiesOf(objects[i]);
      if objects[i].InsertObj? && objects[i].block.None? && objects[i].blockName.Some? {
        var p := objects[i].blockName.value;
        UsedName(objects, refDict.values, i);
        var block := LookUp(p.chars);
        SetInsert(i, p, block);
      }
    }

    /** The loops over the entities. */
    method FixAll(entities: seq<nat>, ghost at: nat, ghost items: seq<Item>)
      requires Valid() && AllMirror(objects, at, items) && at + Sizes(items) <= |objects|
      requires entities == Roots(items, at)
      modifies this`objects
      ensures Valid() && Changed(old(objects), objects, at, at + Sizes(items))
      ensures AllFixed(objects, refDict.values, at, at + Sizes(items))
      decreases Sizes(items), 1
    {
      hide *;
      RootsLength(items, at);
      NothingChanged(objects, refDict.values, at, at + Sizes(items));
      assert items[..0] == [];
      SizesNone();
      for k := 0 to |entities|
        invariant Valid() && Changed(old(objects), objects, at, at + Sizes(items))
        invariant AllFixed(objects, refDict.values, at, at + Sizes(items[..k]))
      {
        ghost var mid, next, hi := at + Sizes(items[..k]), at + Sizes(items[..k + 1]), at + Sizes(items);
        ItemAt(old(objects), at, items, k);
        ChangedLength(old(objects), objects, at, hi);
        ChangedMirror(old(objects), objects, at, hi, mid, items[k]);
        ghost var before := objects;
        FixReferences(entities[k], items[k]);
        FixedStays(before, objects, refDict.values, at, mid, mid, next);
        FixedBoth(objects, refDict.values, at, mid, next);
        Widen(before, objects, mid, next, at, hi);
        ChangedTwice(old(objects), before, objects, at, hi);
      }
      assert items[..|items|] == items;
    }

    // ----- the whole file -----

    /** The sections of the file, one after the other. */
    method ReadSections(file: seq<FileSection>)
      requires Valid() && objects == []
      modifies this`objects, this`sections, refDict, refDict.buckets, refDict.g.repr
      ensures Valid() && fresh(refDict.g.repr - old(refDict.g.repr))
      ensures |objects| == Start(file, |file|) && SectionsMirror(objects, sections, file, |file|)
    {
      hide Sound, Table.Valid, SectionsMirror, AllMirror, Roots;
      sections := [];
      NoSections(objects, file);
      for k := 0 to |file|
        invariant Valid() && fresh(refDict.g.repr - old(refDict.g.repr))
        invariant |objects| == Start(file, k) && SectionsMirror(objects, sections, file, k)
      {
        ghost var before := objects;
        var entities: seq<nat> := [];
        if file[k].kind != Elsewhere {
          entities := ReadEntities(file[k].items);
        }
        MoreSections(before, objects, sections, file, k, entities);
        sections := sections + [Section(file[k].kind, entities)];
      }
    }

    /** findSection */
    method FindSection(kind: Kind) returns (k: nat)
      requires Valid()
      ensures Valid() && k == First(sections, kind)
    {
      hide Sound, Table.Valid;
      k := 0;
      while k < |sections| && sections[k].kind != kind
        invariant 0 <= k <= |sections| && First(sections, kind) == k + First(sections[k..], kind)
      {
        k := k + 1;
      }
    }

    method FixSection(k: nat, ghost file: seq<FileSection>)
      requires Valid() && k < |file| && file[k].kind != Elsewhere
      requires |objects| == Start(file, |file|) && SectionsMirror(objects, sections, file, |file|)
      modifies this`objects
      ensures Valid() && Changed(old(objects), objects, Start(file, k), Start(file, k + 1))
      ensures AllFixed(objects, refDict.values, Start(file, k), Start(file, k + 1))
      ensures |objects| == Start(file, |file|) && SectionsMirror(objects, sections, file, |file|)
    {
      hide Sound, Table.Valid, Changed, AllFixed, AllMirror, Roots, SectionsMirror;
      StartsGrow(file, k + 1, |file|);
      SectionMirrors(objects, sections, file, k);
      FixAll(sections[k].entities, Start(file, k), file[k].items);
      SectionsStay(old(objects), objects, sections, file, Start(file, k), Start(file, k + 1));
    }

    /** The second half of dimeModel::read: the first section of each kind. */
    method FixSections(ghost file: seq<FileSection>)
      requires Valid() && |objects| == Start(file, |file|) && SectionsMirror(objects, sections, file, |file|)
      modifies this`objects
      ensures Valid() && |objects| == Start(file, |file|) && SectionsMirror(objects, sections, file, |file|)
      ensures ResolvedIn(objects, file, Blocks) && ResolvedIn(objects, file, Entities)
    {
      hide *;
      var b := FindSection(Blocks);
      var e := FindSection(Entities);
      FirstIsFirstOf(objects, sections, file, Blocks);
      FirstIsFirstOf(objects, sections, file, Entities);
      if b < |sections| {
        FixSection(b, file);
      }
      ghost var before := objects;
      if e < |sections| {
        FixSection(e, file);
      }
      BothFixed(before, objects, refDict.values, file, b, e);
      AllResolved(file, Blocks);
      AllResolved(file, Entities);
    }

    lemma AllResolved(file: seq<FileSection>, kind: Kind)
      requires Valid()
      requires var k := FirstOf(file, kind); k < |file| ==>
        AllFixed(objects, refDict.values, Start(file, k), Start(file, k + 1))
      ensures ResolvedIn(objects, file, kind)
    {
      hide Sound, AllFixed, Resolved, Table.Valid;
      var k := FirstOf(file, kind);
      if k < |file| {
        FixedIsResolved(objects, refDict.values, Start(file, k), Start(file, k + 1));
      }
    }

    /** dimeModel::read: the objects are those of the file, and afterwards the
        INSERTs of the first BLOCKS section and of the first ENTITIES section,
        and of all that they contain, point to blocks of their names wherever
        these are defined. */
    method Read(file: seq<FileSection>)
      modifies this
      ensures Valid() && |objects| == Start(file, |file|) && SectionsMirror(objects, sections, file, |file|)
      ensures ResolvedIn(objects, file, Blocks) && ResolvedIn(objects, file, Entities)
    {
      refDict := new Dict.Table<Option<nat>>(17989);
      objects, sections := [], [];
      hide Sound, Table.Valid, SectionsMirror, ResolvedIn;
      EmptyIsSound(refDict.values);
      ReadSections(file);
      FixSections(file);
    }
  }

  lemma BothFixed(a: seq<Obj>, c: seq<Obj>, refs: map<string, Option<nat>>, file: seq<FileSection>,
                                     b: nat, e: nat)
    requires b <= |file| && e <= |file| && (b < |file| && e < |file| ==> file[b].kind != file[e].kind)
    requires b < |file| ==> AllFixed(a, refs, Start(file, b), Start(file, b + 1))
    requires if e < |file| then AllFixed(c, refs, Start(file, e), Start(file, e + 1))
      && Changed(a, c, Start(file, e), Start(file, e + 1))
             else a == c
    ensures b < |file| ==> AllFixed(c, refs, Start(file, b), Start(file, b + 1))
  {
    if b < |file| && e < |file| {
      SectionsApart(file, b, e);
      StillFixed(a, c, refs, Start(file, b), Start(file, b + 1), Start(file, e), Start(file, e + 1));
    }
  }

  /** With one section of each kind, no INSERT of the file is left out: whenever
      the file has a BLOCK of the same name, anywhere, the object of the INSERT
      points to the object of a BLOCK of that name. */
  lemma EveryInsertResolved(objs: seq<Obj>, secs: seq<Section>, file: seq<FileSection>, j: nat,
                                               b: nat)
    requires |objs| == Start(file, |file|) && SectionsMirror(objs, secs, file, |file|)
    requires ResolvedIn(objs, file, Blocks) && ResolvedIn(objs, file, Entities)
    requires forall i, k :: 0 <= i < k < |file| && file[i].kind == file[k].kind ==> file[i].kind == Elsewhere
    requires var items := FileItems(file, |file|);
      j < |items| && b < |items| && items[j].Insert? && items[b].Block? && items[j].name == items[b].name != None
    ensures var items := FileItems(file, |file|);
      && objs[j].InsertObj? && objs[j].block.Some?
      && var k := objs[j].block.value; k < |items| && items[k].Block? && items[k].name == items[j].name
  {
    hide SectionsMirror, ResolvedIn, Start, FileItems;
    SectionsDescribe(objs, secs, file, |file|);
    InsertResolved(objs, file, j);
    var name := objs[j].blockName.value.chars;
    assert IsBlock(objs, b, name);
    assert Defined(objs, name);
    assert IsBlock(objs, objs[j].block.value, name);
  }

  lemma InsertResolved(objs: seq<Obj>, file: seq<FileSection>, j: nat)
    requires |objs| == Start(file, |file|) && j < |objs|
    requires ResolvedIn(objs, file, Blocks) && ResolvedIn(objs, file, Entities)
    requires forall i, k :: 0 <= i < k < |file| && file[i].kind == file[k].kind ==> file[i].kind == Elsewhere
    ensures Resolved(objs, j)
  {
    hide Resolved;
    var k := SectionOf(file, |file|, j);
    assert FirstOf(file, file[k].kind) == k;
  }

  /** The section that an object comes from. */
  lemma {:induction false} SectionOf(file: seq<FileSection>, n: nat, j: nat) returns (k: nat)
    requires n <= |file| && j < Start(file, n)
    ensures k < n && Start(file, k) <= j < Start(file, k + 1) && file[k].kind != Elsewhere
  {
    if j < Start(file, n - 1) {
      k := SectionOf(file, n - 1, j);
    } else {
      k := n - 1;
    }
  }

  lemma EmptyItems(objs: seq<Obj>, at: nat)
    ensures Sizes([]) == 0 && Roots([], at) == [] && AllMirror(objs, at, [])
  {
  }
}
