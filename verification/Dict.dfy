/** src/util/Dict.cpp: a chained hash table changed through a reference to the
    slot that holds, or would hold, a key. */
module Dict {
  import opened Wrappers

  /** A string on the heap: what strdup returns. */
  class Str {
    const chars: string

    constructor (chars: string)
      ensures this.chars == chars
    {
      this.chars := chars;
    }
  }

  class Entry<V> {
    const key: Str
    var value: V
    var next: Entry?<V>

    constructor (k: string, v: V)
      ensures fresh(key) && key.chars == k && value == v && next == null
    {
      key := new Str(k);
      value := v;
      next := null;
    }
  }

  /** Where a pointer to an entry is kept: the slot findEntry refers to. */
  datatype Slot<!V> = Bucket | Next(prev: Entry<V>)

  // ----- the hash -----

  /** A plain char is signed. */
  function Promoted(c: char): bv32 {
    var b := (c as int % 256) as bv32;
    if b >= 128 then b | 0xffff_ff00 else b
  }

  function NextShift(shift: nat): (r: nat)
    requires shift <= 24
    ensures r <= 24
  {
    if shift + 5 > 24 then shift + 5 - 24 else shift + 5
  }

  function Shifted(b: bv32, shift: nat): bv32
    requires shift <= 24
  {
    b << shift
  }

  function Mix(total: bv32, c: char, shift: nat): bv32
    requires shift <= 24
  {
    total ^ Shifted(Promoted(c), shift)
  }

  /** How far character i is shifted: five bits more each time, and never more
      than 24. */
  function ShiftAt(i: nat): (r: nat)
    ensures r <= 24
  {
    if i == 0 then 0 else (5 * i - 1) % 24 + 1
  }

  /** A character as a C int: its bytes from 128 on are negative. */
  function SignedChar(c: char): bv32 {
    var b := (c as int % 256) as bv32;
    if b < 128 then b else 0 - (256 - b)
  }

  /** All characters, each shifted by its place, joined by exclusive or. */
  function XorOf(s: string): bv32 {
    if s == [] then 0 else XorOf(s[..|s| - 1]) ^ Shifted(SignedChar(s[|s| - 1]), ShiftAt(|s| - 1))
  }

  function Hash(s: string, total: bv32, shift: nat): bv32
    requires shift <= 24
  {
    if s == [] then total else Hash(s[1..], Mix(total, s[0], shift), NextShift(shift))
  }

  lemma ShiftsFollow(i: nat)
    ensures NextShift(ShiftAt(i)) == ShiftAt(i + 1)
  {
    if i > 0 {
      var q, r := (5 * i - 1) / 24, (5 * i - 1) % 24;
      assert 5 * i - 1 == 24 * q + r;
      assert 5 * (i + 1) - 1 == 24 * q + (r + 5);
    }
  }

  lemma CharsAreSigned(c: char)
    ensures Promoted(c) == SignedChar(c)
  {
    var n := c as int % 256;
    SignBits(n as bv32);
  }

  lemma SignBits(b: bv32)
    ensures b < 256 ==> b | 0xffff_ff00 == 0 - (256 - b)
  {
  }

  lemma XorMore(s: string, k: nat)
    requires k < |s|
    ensures XorOf(s[..k + 1]) == Mix(XorOf(s[..k]), s[k], ShiftAt(k))
  {
    CharsAreSigned(s[k]);
    hide ShiftAt, Promoted, SignedChar, Shifted;
    assert s[..k + 1][..k] == s[..k];
  }

  lemma {:induction false} HashFrom(s: string, k: nat)
    requires k <= |s|
    ensures Hash(s[k..], XorOf(s[..k]), ShiftAt(k)) == XorOf(s)
    decreases |s| - k
  {
    if k < |s| {
      ShiftsFollow(k);
      XorMore(s, k);
      hide NextShift, ShiftAt, Mix, XorOf;
      assert s[k..][1..] == s[k + 1..];
      HashFrom(s, k + 1);
    } else {
      assert s[..k] == s;
    }
  }

  function BucketNr(s: string, size: nat): (b: nat)
    requires size > 0
    ensures b < size
  {
    (Hash(s, 0, 0) as int) % size
  }

  /** The hash in one piece. */
  lemma HashIsXor(s: string, size: nat)
    requires size > 0
    ensures BucketNr(s, size) == (XorOf(s) as int) % size
  {
    HashFrom(s, 0);
    assert s[0..] == s && s[..0] == [];
  }

  // ----- chains -----

  ghost function At<V>(chain: seq<Entry<V>>, i: nat): Entry?<V> {
    if i < |chain| then chain[i] else null
  }

  /** Following next from the head gives exactly the chain. */
  ghost predicate Linked<V>(head: Entry?<V>, chain: seq<Entry<V>>)
    reads chain`next
  {
    head == At(chain, 0) && forall i :: 0 <= i < |chain| ==> chain[i].next == At(chain, i + 1)
  }

  /** The chains of the buckets, the entry of each key, and all entries. */
  datatype Layout<!V> = Layout(chains: seq<seq<Entry<V>>>, entries: map<string, Entry<V>>, repr: set<Entry<V>>) {
    /** Every entry of every chain is the entry of its key, in the bucket of its
        key, and no chain holds an entry twice; every key has its entry there. */
    ghost predicate Keyed(size: nat) {
      && |chains| == size > 0
      && (forall b :: 0 <= b < size ==> Owns(chains[b], b, size, this))
      && Named()
      && (forall k :: k in entries ==> entries[k] in chains[BucketNr(k, size)])
    }

    /** The stored string of each key. */
    ghost function Strings(): map<string, Str> {
      map k | k in entries :: entries[k].key
    }

    ghost predicate Named() {
      forall k :: k in entries ==> entries[k].key.chars == k && entries[k] in repr
    }
  }

  ghost predicate Owns<V>(chain: seq<Entry<V>>, b: nat, size: nat, g: Layout<V>)
    requires size > 0
  {
    && (forall i :: 0 <= i < |chain| ==>
          var k := chain[i].key.chars;
          BucketNr(k, size) == b && k in g.entries && g.entries[k] == chain[i] && chain[i] in g.repr)
    && (forall i, j :: 0 <= i < j < |chain| ==> chain[i] != chain[j])
  }

  lemma Unchanged<V>(g: Layout<V>, key: string)
    requires key in g.entries
    ensures g.Strings() == g.Strings()[key := g.entries[key].key]
  {
  }

  /** Everything as it was, but for the chain of bucket b. */
  ghost predicate OnlyBucket<V>(g: Layout<V>, h: Layout<V>, b: nat, chain: seq<Entry<V>>) {
    && |h.chains| == |g.chains| && b < |g.chains| && h.chains[b] == chain
    && forall c :: 0 <= c < |g.chains| && c != b ==> h.chains[c] == g.chains[c]
  }

  lemma KeyedAppend<V>(g: Layout<V>, size: nat, e: Entry<V>) returns (h: Layout<V>)
    requires g.Keyed(size) && e !in g.repr && e.key.chars !in g.entries
    ensures h.Keyed(size) && h.repr == g.repr + {e} && h.entries == g.entries[e.key.chars := e]
    ensures h.Strings() == g.Strings()[e.key.chars := e.key]
    ensures var b := BucketNr(e.key.chars, size);
      OnlyBucket(g, h, b, g.chains[b][..|g.chains[b]|] + [e])
  {
    hide BucketNr;
    var key := e.key.chars;
    var b := BucketNr(key, size);
    assert g.chains[b][..|g.chains[b]|] == g.chains[b];
    h := Layout(g.chains[b := g.chains[b] + [e]], g.entries[key := e], g.repr + {e});
    forall c | 0 <= c < size
      ensures Owns(h.chains[c], c, size, h)
    {
      assert Owns(g.chains[c], c, size, g);
    }
    hide Owns;
    forall k | k in h.entries
      ensures h.entries[k].key.chars == k && h.entries[k] in h.repr && h.entries[k] in h.chains[BucketNr(k, size)]
    {
      if k == key {
        assert h.chains[b][|g.chains[b]|] == e;
      }
    }
  }

  lemma StaysIn<T>(s: seq<T>, i: nat, x: T)
    requires i < |s| && x in s && x != s[i]
    ensures x in s[..i] + s[i + 1..]
  {
    assert s == s[..i] + [s[i]] + s[i + 1..];
  }

  lemma KeyedRemove<V>(g: Layout<V>, size: nat, b: nat, i: nat) returns (h: Layout<V>)
    requires g.Keyed(size) && b < size && i < |g.chains[b]|
    ensures var e := g.chains[b][i];
      && h.Keyed(size) && h.repr == g.repr - {e} && h.entries == g.entries - {e.key.chars}
      && e.key.chars in g.entries && g.entries[e.key.chars] == e
    ensures h.Strings() == g.Strings() - {g.chains[b][i].key.chars}
    ensures OnlyBucket(g, h, b, g.chains[b][..i] + g.chains[b][i + 1..])
  {
    hide BucketNr;
    var chain, e := g.chains[b], g.chains[b][i];
    var rest := chain[..i] + chain[i + 1..];
    h := Layout(g.chains[b := rest], g.entries - {e.key.chars}, g.repr - {e});
    assert Owns(chain, b, size, g);
    assert forall j :: 0 <= j < |rest| ==> rest[j] == chain[if j < i then j else j + 1];
    forall c | 0 <= c < size
      ensures Owns(h.chains[c], c, size, h)
    {
      assert Owns(g.chains[c], c, size, g);
    }
    hide Owns;
    assert e == chain[i] && g.entries[e.key.chars] == e;
    forall k | k in h.entries
      ensures h.entries[k].key.chars == k && h.entries[k] in h.repr && h.entries[k] in h.chains[BucketNr(k, size)]
    {
      if BucketNr(k, size) == b {
        StaysIn(chain, i, g.entries[k]);
      }
    }
  }

  ghost function Flatten<T>(chains: seq<seq<T>>): seq<T> {
    if chains == [] then [] else chains[0] + Flatten(chains[1..])
  }

  class Table<V> {
    const tableSize: nat
    const buckets: array<Entry?<V>>
    ghost var g: Layout<V>
    ghost var values: map<string, V>  // the table as a map

    ghost predicate Valid()
      reads this, buckets, g.repr`next, g.repr`value
    {
      Linkage() && Valued()
    }

    ghost predicate Valued()
      requires g.Named()
      reads this`values, this`g, g.repr`value
    {
      values.Keys == g.entries.Keys && forall k :: k in g.entries ==> values[k] == g.entries[k].value
    }

    ghost predicate Linkage()
      reads this`g, buckets, g.repr`next
    {
      && buckets.Length == tableSize == |g.chains| && tableSize > 0 && g.Named()
      && g.Keyed(tableSize) && AllLinked(g)
    }

    constructor (entries: nat)
      requires entries > 0
      ensures Valid() && values == map[] && fresh(buckets) && g.repr == {} && tableSize == entries
    {
      tableSize := entries;
      buckets := new Entry?<V>[entries](_ => null);
      g := Layout(seq(entries, _ => []), map[], {});
      values := map[];
    }

    method HashOf(s: string) returns (b: nat)
      requires tableSize > 0
      ensures b == BucketNr(s, tableSize)
    {
      hide Mix, NextShift;
      var total: bv32, shift: nat, i := 0, 0, 0;
      while i < |s|
        invariant 0 <= i <= |s| && shift <= 24
        invariant Hash(s, 0, 0) == Hash(s[i..], total, shift)
      {
        assert s[i..][1..] == s[i + 1..];
        total := Mix(total, s[i], shift);
        shift := NextShift(shift);
        i := i + 1;
      }
      b := (total as int) % tableSize;
    }

    /** findEntry: the bucket of the key and the slot that points to its entry,
        or that ends the chain. */
    method FindEntry(key: string) returns (b: nat, slot: Slot<V>, entry: Entry?<V>, ghost i: nat)
      requires Linkage()
      ensures b == BucketNr(key, tableSize) && i <= |g.chains[b]|
      ensures IsSlot(b, slot, i) && entry == At(g.chains[b], i)
      ensures entry != null <==> key in g.entries
      ensures entry != null ==> entry == g.entries[key]
    {
      hide BucketNr;
      b := HashOf(key);
      slot := Bucket;
      entry := buckets[b];
      i := 0;
      assert Linked(buckets[b], g.chains[b]) && Owns(g.chains[b], b, tableSize, g);
      while entry != null && entry.key.chars != key
        invariant i <= |g.chains[b]| && IsSlot(b, slot, i) && entry == At(g.chains[b], i)
        invariant forall j :: 0 <= j < i ==> g.chains[b][j].key.chars != key
        decreases |g.chains[b]| - i
      {
        assert Linked(buckets[b], g.chains[b]);
        assert g.chains[b][i].next == At(g.chains[b], i + 1);
        slot := Next(entry);
        entry := entry.next;
        i := i + 1;
      }
    }

    /** The slot is the one that points to element i of the chain. */
    ghost predicate IsSlot(b: nat, slot: Slot<V>, i: nat)
      requires b < |g.chains| && i <= |g.chains[b]|
      reads this`g
    {
      if i == 0 then slot == Bucket else slot == Next(g.chains[b][i - 1])
    }

    method SetSlot(b: nat, slot: Slot<V>, e: Entry?<V>)
      requires b < buckets.Length
      modifies buckets, (if slot.Next? then {slot.prev} else {})`next
      ensures slot.Bucket? ==> buckets[..] == old(buckets[..])[b := e]
      ensures slot.Next? ==> buckets[..] == old(buckets[..]) && slot.prev.next == e
    {
      match slot {
        case Bucket => buckets[b] := e;
        case Next(prev) => prev.next := e;
      }
    }

    /** The slot is the bucket's own, or in an entry that is in no other chain,
        nor twice in its own, nor in the new tail. */
    ghost predicate Separate(b: nat, slot: Slot<V>, i: nat, rest: seq<Entry<V>>)
      reads this`g
    {
      && |g.chains| == tableSize && b < tableSize && i <= |g.chains[b]|
      && (if i == 0 then slot == Bucket else slot == Next(g.chains[b][i - 1]))
      && (forall j, k :: 0 <= j < k < |g.chains[b]| ==> g.chains[b][j] != g.chains[b][k])
      && (slot.Next? ==> slot.prev !in rest && forall c :: 0 <= c < tableSize && c != b ==> slot.prev !in g.chains[c])
    }

    ghost predicate AllLinked(h: Layout<V>)
      requires buckets.Length == tableSize && h.Keyed(tableSize)
      reads buckets, h.repr`next
    {
      assert forall b :: 0 <= b < tableSize ==> Owns(h.chains[b], b, tableSize, h);
      forall b :: 0 <= b < tableSize ==> Linked(buckets[b], h.chains[b])
    }

    /** Assigning to the slot of element i: from there on the bucket holds the
        chain of e, and no other bucket changes. */
    method Relink(b: nat, slot: Slot<V>, ghost i: nat, e: Entry?<V>, ghost rest: seq<Entry<V>>, ghost h: Layout<V>)
      requires buckets.Length == tableSize && g.Keyed(tableSize) && AllLinked(g) && h.Keyed(tableSize)
      requires Separate(b, slot, i, rest) && Linked(e, rest) && OnlyBucket(g, h, b, g.chains[b][..i] + rest)
      modifies this`g, buckets, (if slot.Next? then {slot.prev} else {})`next
      ensures g == h && AllLinked(h)
    {
      hide Layout.Keyed;
      ghost var chain := g.chains[b];
      assert Linked(buckets[b], chain);
      g := h;
      SetSlot(b, slot, e);
      assert Linked(e, rest);
      assert forall j :: 0 <= j < i - 1 ==> chain[j].next == At(chain, j + 1);
      forall c | 0 <= c < tableSize
        ensures Linked(buckets[c], h.chains[c])
      {
        if c == b {
          hide Linked;
          Joined(buckets[b], chain, i, e, rest);
        }
      }
    }

    /** What the slot needs for Relink: it is not in the new tail, nor in any
        other chain. */
    lemma SlotIsOwn(b: nat, slot: Slot<V>, i: nat, rest: seq<Entry<V>>)
      requires Linkage() && b < tableSize && i <= |g.chains[b]| && IsSlot(b, slot, i)
      requires forall e :: e in rest ==> e !in g.repr || e in g.chains[b][i..]
      ensures Separate(b, slot, i, rest)
    {
      DistinctInChain(b);
      hide BucketNr, Linked;
      assert Owns(g.chains[b], b, tableSize, g);
      forall c, j | 0 <= c < tableSize && c != b && 0 <= j < |g.chains[c]| && slot.Next?
        ensures slot.prev != g.chains[c][j]
      {
        assert Owns(g.chains[c], c, tableSize, g);
      }
    }

    lemma DistinctInChain(b: nat)
      requires Linkage() && b < tableSize
      ensures forall j, k :: 0 <= j < k < |g.chains[b]| ==> g.chains[b][j] != g.chains[b][k]
    {
      hide BucketNr, Linked;
      assert Owns(g.chains[b], b, tableSize, g);
    }

    /** Relink, on a table that is in order and is then laid out as h. */
    method Splice(b: nat, slot: Slot<V>, ghost i: nat, e: Entry?<V>, ghost rest: seq<Entry<V>>, ghost h: Layout<V>)
      requires Linkage() && b < tableSize && i <= |g.chains[b]| && IsSlot(b, slot, i) && Linked(e, rest)
      requires forall x :: x in rest ==> x !in g.repr || x in g.chains[b][i..]
      requires h.Keyed(tableSize) && OnlyBucket(g, h, b, g.chains[b][..i] + rest)
      modifies this`g, buckets, g.repr`next
      ensures Linkage() && g == h
    {
      SlotIsOwn(b, slot, i, rest);
      SlotInRepr(b, slot, i);
      assert h.Named() && |h.chains| == tableSize > 0;
      hide AllLinked, Layout.Keyed, Layout.Named, Layout.Strings, Linked, IsSlot, Separate, OnlyBucket, Owns, BucketNr;
      Relink(b, slot, i, e, rest, h);
    }

    lemma SlotInRepr(b: nat, slot: Slot<V>, i: nat)
      requires Linkage() && b < tableSize && i <= |g.chains[b]| && IsSlot(b, slot, i)
      ensures slot.Next? ==> slot.prev in g.repr
    {
      hide BucketNr, Linked;
      assert Owns(g.chains[b], b, tableSize, g);
    }

    /** A new entry at the end of its chain. */
    method Append(b: nat, slot: Slot<V>, ghost i: nat, e: Entry<V>)
      requires Linkage() && b == BucketNr(e.key.chars, tableSize) && i == |g.chains[b]| && IsSlot(b, slot, i)
      requires e !in g.repr && e.key.chars !in g.entries && e.next == null
      modifies this`g, buckets, g.repr`next
      ensures Linkage() && g.repr == old(g.repr) + {e} && g.entries == old(g.entries)[e.key.chars := e]
      ensures g.Strings() == old(g.Strings())[e.key.chars := e.key]
    {
      hide AllLinked, Layout.Keyed, Layout.Named, Layout.Strings, Linked, IsSlot, Separate, OnlyBucket, Owns, BucketNr;
      ghost var h := KeyedAppend(g, tableSize, e);
      LinkedAlone(e);
      Splice(b, slot, i, e, [e], h);
    }

    method SetValue(key: string, entry: Entry<V>, value: V)
      requires Valid() && key in g.entries && g.entries[key] == entry
      modifies this`values, entry`value
      ensures Valid() && values == old(values)[key := value]
    {
      hide Layout.Keyed, AllLinked, BucketNr;
      entry.value := value;
      values := values[key := value];
    }

    method EnterNew(b: nat, slot: Slot<V>, ghost i: nat, key: string, value: V) returns (ptr: Str)
      requires Valid() && b == BucketNr(key, tableSize) && i == |g.chains[b]| && IsSlot(b, slot, i) && key !in g.entries
      modifies this`g, this`values, buckets, g.repr`next
      ensures Valid() && fresh(g.repr - old(g.repr)) && values == old(values)[key := value]
      ensures fresh(ptr) && ptr.chars == key && g.Strings() == old(g.Strings())[key := ptr]
    {
      hide BucketNr, Layout.Keyed, Layout.Named, AllLinked, IsSlot, Layout.Strings, Linked, Owns;
      var e := new Entry(key, value);
      values := values[key := value];
      Append(b, slot, i, e);
      ptr := e.key;
    }

    /** Both enters: a new entry at the end of its chain, or a new value for the
        entry that is there. */
    method Enter(key: string, value: V) returns (isNew: bool, ptr: Str)
      requires Valid()
      modifies this`g, this`values, buckets, g.repr
      ensures Valid() && fresh(g.repr - old(g.repr))
      ensures values == old(values)[key := value]
      ensures (isNew <==> key !in old(g.entries)) && (isNew ==> fresh(ptr))
      ensures g.Strings() == old(g.Strings())[key := ptr] && ptr.chars == key
      ensures !isNew ==> ptr == old(g.entries[key]).key
    {
      hide BucketNr, Layout.Keyed, AllLinked, IsSlot, Layout.Strings;
      var b, slot, entry, i := FindEntry(key);
      if entry == null {
        ptr := EnterNew(b, slot, i, key, value);
        return true, ptr;
      }
      SetValue(key, entry, value);
      Unchanged(g, key);
      return false, entry.key;
    }

    /** find, for the stored string. */
    method FindString(key: string) returns (ptr: Option<Str>)
      requires Valid()
      ensures ptr == if key in g.entries then Some(g.Strings()[key]) else None
    {
      hide BucketNr, Owns, Linked;
      var b, slot, entry, i := FindEntry(key);
      ptr := if entry == null then None else Some(entry.key);
    }

    /** find, for the value. */
    method Find(key: string) returns (value: Option<V>)
      requires Valid()
      ensures value == if key in values then Some(values[key]) else None
    {
      hide BucketNr, Owns, Linked;
      var b, slot, entry, i := FindEntry(key);
      value := if entry == null then None else Some(entry.value);
    }

    /** The slot of the entry takes the entry's own next. */
    method Remove(key: string) returns (found: bool)
      requires Valid()
      modifies this`g, this`values, buckets, g.repr`next
      ensures Valid() && g.repr <= old(g.repr) && (found <==> key in old(g.entries))
      ensures values == old(values) - {key} && g.Strings() == old(g.Strings()) - {key}
      ensures found ==> old(g.entries[key]) !in g.repr
    {
      hide BucketNr, Owns, AllLinked, Layout.Keyed, Linked, IsSlot;
      var b, slot, entry, i := FindEntry(key);
      if entry == null {
        return false;
      }
      Unlink(b, slot, i, entry);
      values := values - {key};
      return true;
    }

    method Unlink(b: nat, slot: Slot<V>, ghost i: nat, entry: Entry<V>)
      requires Linkage() && b < tableSize && i < |g.chains[b]| && IsSlot(b, slot, i) && entry == g.chains[b][i]
      modifies this`g, buckets, g.repr`next
      ensures Linkage() && g.repr == old(g.repr) - {entry} && g.entries == old(g.entries) - {entry.key.chars}
      ensures g.Strings() == old(g.Strings()) - {entry.key.chars}
    {
      LinkedTail(buckets[b], g.chains[b], i);
      hide AllLinked, Layout.Keyed, Layout.Named, Layout.Strings, Linked, IsSlot, Separate, OnlyBucket, Owns, BucketNr;
      ghost var h := KeyedRemove(g, tableSize, b, i);
      ghost var rest := g.chains[b][i + 1..];
      assert g.chains[b][i..][1..] == rest;
      Splice(b, slot, i, entry.next, rest, h);
    }

    /** Frees every entry, chain by chain. */
    method Clear() returns (ghost freed: seq<Entry<V>>)
      requires Valid()
      modifies this`g, this`values, buckets
      ensures Valid() && values == map[] && freed == Flatten(old(g.chains))
    {
      hide BucketNr, Layout.Keyed;
      freed := [];
      assert g.chains[0..] == g.chains;
      for b := 0 to tableSize
        invariant g == old(g) && forall c :: 0 <= c < b ==> buckets[c] == null
        invariant forall c :: b <= c < tableSize ==> Linked(buckets[c], g.chains[c])
        invariant freed + Flatten(g.chains[b..]) == Flatten(g.chains)
      {
        ghost var chain := FreeChain(b);
        assert g.chains[b..][1..] == g.chains[b + 1..];
        Regroup(freed, chain, Flatten(g.chains[b + 1..]));
        freed := freed + chain;
      }
      assert freed + Flatten(g.chains[tableSize..]) == freed;
      ForgetAll();
    }

    method FreeChain(b: nat) returns (ghost freed: seq<Entry<V>>)
      requires buckets.Length == tableSize == |g.chains| && b < tableSize && Linked(buckets[b], g.chains[b])
      modifies buckets
      ensures freed == g.chains[b] && buckets[..] == old(buckets[..])[b := null]
    {
      ghost var chain := g.chains[b];
      var entry := buckets[b];
      freed := [];
      while entry != null
        invariant |freed| <= |chain| && freed == chain[..|freed|] && entry == At(chain, |freed|)
        decreases |chain| - |freed|
      {
        assert chain[|freed|].next == At(chain, |freed| + 1);
        freed := freed + [entry];
        entry := entry.next;
      }
      buckets[b] := null;
    }

    ghost method ForgetAll()
      requires buckets.Length == tableSize > 0 && forall c :: 0 <= c < tableSize ==> buckets[c] == null
      modifies this`g, this`values
      ensures Valid() && values == map[]
    {
      g := Layout(seq(tableSize, _ => []), map[], {});
      values := map[];
    }
  }

  /** A key is in one chain only, its bucket's, and there once. */
  lemma KeyIsOnce<V>(g: Layout<V>, size: nat, b: nat, i: nat, c: nat, j: nat)
    requires g.Keyed(size) && b < size && c < size && i < |g.chains[b]| && j < |g.chains[c]|
    requires g.chains[b][i].key.chars == g.chains[c][j].key.chars
    ensures b == c == BucketNr(g.chains[b][i].key.chars, size) && i == j
  {
    hide BucketNr;
    assert Owns(g.chains[b], b, size, g) && Owns(g.chains[c], c, size, g);
  }

  lemma LinkedAlone<V>(e: Entry<V>)
    requires e.next == null
    ensures Linked(e, [e]) && forall x :: x in [e] ==> x == e
  {
  }

  lemma LinkedTail<V>(head: Entry?<V>, chain: seq<Entry<V>>, i: nat)
    requires Linked(head, chain) && i < |chain|
    ensures Linked(chain[i].next, chain[i + 1..])
  {
    var rest := chain[i + 1..];
    forall j | 0 <= j < |rest|
      ensures rest[j].next == At(rest, j + 1)
    {
      assert rest[j] == chain[i + 1 + j];
    }
  }

  /** The first i elements of the chain, whose last now points to e. */
  lemma Joined<V>(head: Entry?<V>, chain: seq<Entry<V>>, i: nat, e: Entry?<V>, rest: seq<Entry<V>>)
    requires i <= |chain| && Linked(e, rest)
    requires if i == 0 then head == e else head == chain[0] && chain[i - 1].next == e
    requires forall j :: 0 <= j < i - 1 ==> chain[j].next == At(chain, j + 1)
    ensures Linked(head, chain[..i] + rest)
  {
    var all := chain[..i] + rest;
    forall j | 0 <= j < |all|
      ensures all[j].next == At(all, j + 1)
    {
      if j < i {
        assert all[j] == chain[j];
      } else {
        assert all[j] == rest[j - i] && rest[j - i].next == At(rest, j - i + 1);
      }
    }
  }
}
