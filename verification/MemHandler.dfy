/** src/util/MemHandler.cpp: memory is handed out from the front of large
    blocks, and given back all at once. malloc always succeeds here. */
module MemHandler {
  import opened Wrappers
  import opened Bits

  const MEMBLOCK_SIZE: nat := 65536

  /** currPos, moved up to the alignment. */
  function Padded(pos: nat, alignment: int): (r: nat)
    ensures r >= pos
  {
    if alignment > 1 && And(pos, alignment - 1) != 0 then pos - And(pos, alignment - 1) + alignment else pos
  }

  lemma PaddedIsAligned(pos: nat, alignment: int)
    requires IsPower2(alignment)
    ensures Aligned(Padded(pos, alignment), alignment) && Padded(pos, alignment) < pos + alignment
  {
    RoundedUp(pos, alignment);
  }

  /** The offsets are aligned, wherever the allocator stands, exactly for the
      powers of two. */
  lemma AlignsExactly(alignment: int)
    requires alignment >= 1
    ensures (forall pos: nat :: Aligned(Padded(pos, alignment), alignment)) <==> IsPower2(alignment)
  {
    hide Aligned, And;
    if IsPower2(alignment) {
      forall pos: nat
        ensures Aligned(Padded(pos, alignment), alignment)
      {
        PaddedIsAligned(pos, alignment);
      }
    } else {
      var k := ZeroBit(alignment - 1);
      assert Padded(Power2(k), alignment) == Power2(k);
      NotAligned(Power2(k), alignment);
    }
  }

  /** Three is no power of two, and a request at position 1 stays there. */
  lemma ThreeDoesNotAlign()
    ensures Padded(1, 3) == 1 && !Aligned(Padded(1, 3), 3)
  {
    assert And(0, 1) == 0;
    NotAligned(1, 3);
  }

  lemma NotAligned(pos: nat, alignment: nat)
    requires 0 < pos < alignment
    ensures !Aligned(pos, alignment)
  {
    RemainderIs(pos, alignment, 0, pos);
  }

  /** A block that is given up because of a small size has been used past its
      middle, up to the padding of that last request. */
  lemma RetiredIsUsed(pos: nat, size: nat, alignment: int)
    requires IsPower2(alignment) && size <= MEMBLOCK_SIZE / 2 && Padded(pos, alignment) + size > MEMBLOCK_SIZE
    ensures pos > MEMBLOCK_SIZE / 2 - alignment
  {
    PaddedIsAligned(pos, alignment);
  }

  class Node {
    const next: Node?
    const block: array<char>
    const size: nat
    var currPos: nat

    constructor (numbytes: nat, nextNode: Node?)
      ensures next == nextNode && size == numbytes == block.Length && currPos == 0 && fresh(block)
    {
      next := nextNode;
      block := new char[numbytes];
      size := numbytes;
      currPos := 0;
    }

    /** The offset of the memory, if there is room; the padding stays either way. */
    method Alloc(numbytes: nat, alignment: int) returns (ret: Option<nat>)
      modifies this`currPos
      ensures var p := Padded(old(currPos), alignment);
        && ret == (if p + numbytes <= size then Some(p) else None)
        && currPos == if ret.Some? then p + numbytes else p
    {
      ret := None;
      if alignment > 1 {
        var low := And(currPos, alignment - 1);
        if low != 0 {
          currPos := currPos - low + alignment;
        }
      }
      if currPos + numbytes <= size {
        ret := Some(currPos);
        currPos := currPos + numbytes;
      }
    }
  }

  /** Memory that has been handed out. */
  datatype Range = Range(node: Node, start: nat, len: nat)

  predicate Disjoint(a: Range, b: Range) {
    a.node.block != b.node.block || a.start + a.len <= b.start || b.start + b.len <= a.start
  }

  ghost predicate Apart(rs: seq<Range>) {
    forall i, j :: 0 <= i < j < |rs| ==> Disjoint(rs[i], rs[j])
  }

  /** Following next gives exactly these nodes. */
  ghost predicate IsList(head: Node?, nodes: seq<Node>) {
    if nodes == [] then head == null else head == nodes[0] && IsList(nodes[0].next, nodes[1..])
  }

  /** Every node has a block of its own. */
  ghost predicate NoDuplicates(nodes: seq<Node>) {
    forall i, j :: 0 <= i < j < |nodes| ==> nodes[i].block != nodes[j].block
  }

  lemma ApartAppend(rs: seq<Range>, r: Range)
    requires Apart(rs) && forall i :: 0 <= i < |rs| ==> Disjoint(rs[i], r)
    ensures Apart(rs + [r])
  {
  }

  lemma NoDuplicatesInsert(a: seq<Node>, b: seq<Node>, n: Node)
    requires NoDuplicates(a + b) && forall i :: 0 <= i < |a + b| ==> (a + b)[i].block != n.block
    ensures NoDuplicates(a + ([n] + b)) && NoDuplicates([n] + a + b)
  {
    var s, t, u := a + b, a + ([n] + b), [n] + a + b;
    forall i, j | 0 <= i < j < |t|
      ensures t[i].block != t[j].block && u[i].block != u[j].block
    {
      assert t[i] == if i < |a| then s[i] else if i == |a| then n else s[i - 1];
      assert t[j] == if j < |a| then s[j] else if j == |a| then n else s[j - 1];
      assert u[i] == if i == 0 then n else s[i - 1];
      assert u[j] == s[j - 1];
    }
  }

  class Handler {
    var memnode: Node
    var bigmemnode: Node?
    ghost var small: seq<Node>
    ghost var big: seq<Node>
    ghost var live: seq<Range>

    /** The two lists of nodes; every small node but the current one has passed
        its middle. */
    ghost predicate Lists()
      reads this`memnode, this`bigmemnode, this`small, this`big, small
    {
      && small != [] && IsList(memnode, small) && IsList(bigmemnode, big) && NoDuplicates(small + big)
      && (forall i :: 0 <= i < |small| ==> small[i].size == MEMBLOCK_SIZE)
      && (forall i :: 0 < i < |small| ==> small[i].currPos > MEMBLOCK_SIZE / 2)
      && (forall i :: 0 <= i < |big| ==> big[i].size > MEMBLOCK_SIZE / 2)
      && (forall n :: n in small + big ==> n.block.Length == n.size)
    }

    /** A range lies in its node, and in what the node has given away. */
    ghost predicate InPlace(r: Range)
      reads this`small, this`big, r.node`currPos
    {
      && r.start + r.len <= r.node.size
      && ((r.node in small && r.start + r.len <= r.node.currPos) || r.node in big)
    }

    ghost predicate Valid()
      reads this, small, set r | r in live :: r.node`currPos
    {
      Lists() && Apart(live) && forall i :: 0 <= i < |live| ==> InPlace(live[i])
    }

    constructor ()
      ensures Valid() && live == [] && fresh(memnode)
    {
      var n := new Node(MEMBLOCK_SIZE, null);
      memnode := n;
      bigmemnode := null;
      small, big, live := [n], [], [];
    }

    /** A node of its own for more than half a block. */
    method AllocBig(size: nat) returns (node: Node)
      requires Valid() && size > MEMBLOCK_SIZE / 2
      modifies this`bigmemnode, this`big, this`live
      ensures Valid() && fresh(node) && fresh(node.block) && node.block.Length == size
      ensures live == old(live) + [Range(node, 0, size)] && big == [node] + old(big)
    {
      node := new Node(size, bigmemnode);
      NoDuplicatesInsert(small, big, node);
      ApartAppend(live, Range(node, 0, size));
      hide Apart, NoDuplicates;
      bigmemnode := node;
      big := [node] + big;
      live := live + [Range(node, 0, size)];
    }

    lemma CurrentIsSmall()
      requires Lists()
      ensures memnode == small[0] && memnode in small && memnode !in big
      ensures forall n :: n in small + big && n.block == memnode.block ==> n == memnode
    {
      var all := small + big;
      assert all[0] == memnode;
      forall j | 0 < j < |all|
        ensures all[j].block != memnode.block
      {
        assert all[0].block != all[j].block;
      }
      forall j | 0 <= j < |big|
        ensures big[j] != memnode
      {
        assert all[|small| + j] == big[j];
      }
    }

    /** From the current node, which is past its middle if that fails. */
    method TakeFromCurrent(size: nat, alignment: int) returns (ret: Option<nat>)
      requires Valid() && size <= MEMBLOCK_SIZE / 2
      modifies this`live, memnode`currPos
      ensures Valid() && live == old(live) + if ret.Some? then [Range(memnode, ret.value, size)] else []
      ensures var p := Padded(old(memnode.currPos), alignment);
        ret == if p + size <= MEMBLOCK_SIZE then Some(p) else None
      ensures ret.None? ==> memnode.currPos > MEMBLOCK_SIZE / 2
    {
      CurrentIsSmall();
      assert forall i :: 0 <= i < |live| && live[i].node.block == memnode.block ==>
        live[i].start + live[i].len <= memnode.currPos;
      ret := memnode.Alloc(size, alignment);
      if ret.Some? {
        ghost var r := Range(memnode, ret.value, size);
        assert forall i :: 0 <= i < |live| ==> Disjoint(live[i], r);
        ApartAppend(live, r);
        hide Apart;
        live := live + [r];
      }
    }

    /** A new node in front; the old one is not looked at again. */
    method NewCurrent()
      requires Valid() && memnode.currPos > MEMBLOCK_SIZE / 2
      modifies this`memnode, this`small
      ensures Valid() && fresh(memnode) && fresh(memnode.block) && memnode.currPos == 0
      ensures small == [memnode] + old(small)
    {
      var n := new Node(MEMBLOCK_SIZE, memnode);
      NoDuplicatesInsert(small, big, n);
      hide Apart, NoDuplicates;
      memnode := n;
      small := [n] + small;
    }

    /** For a size of at most half a block. A new node is taken exactly when the
        padded memory does not fit into the current one. */
    method AllocSmall(size: nat, alignment: int) returns (node: Node, start: nat)
      requires Valid() && size <= MEMBLOCK_SIZE / 2
      modifies this`memnode, this`small, this`live, memnode`currPos
      ensures Valid() && live == old(live) + [Range(node, start, size)] && node == memnode
      ensures if Padded(old(memnode.currPos), alignment) + size <= MEMBLOCK_SIZE
              then small == old(small) && start == Padded(old(memnode.currPos), alignment)
              else fresh(node) && fresh(node.block) && small == [node] + old(small) && start == 0
      ensures memnode == old(memnode) || (fresh(memnode) && fresh(memnode.block))
    {
      hide Valid;
      var ret := TakeFromCurrent(size, alignment);
      if ret == None {
        NewCurrent();
        AndZero(if alignment > 1 then alignment - 1 else 0);
        ret := TakeFromCurrent(size, alignment);
      }
      node, start := memnode, ret.value;
    }

    /** Never fails: the memory is inside its block, apart from all that was
        handed out before, and aligned to any power of two. */
    method AllocMem(size: nat, alignment: int) returns (node: Node, start: nat)
      requires Valid()
      modifies this, memnode`currPos
      ensures Valid() && live == old(live) + [Range(node, start, size)]
      ensures IsPower2(alignment) ==> Aligned(start, alignment)
      ensures size > 32768 ==> fresh(node) && start == 0 && node.block.Length == size && small == old(small)
      ensures size <= 32768 ==> node.block.Length == 65536 && big == old(big)
      ensures node == old(memnode) || (fresh(node) && fresh(node.block))
    {
      hide Valid, Padded, IsPower2;
      if IsPower2(alignment) {
        PaddedIsAligned(memnode.currPos, alignment);
      }
      if size > MEMBLOCK_SIZE / 2 {
        node := AllocBig(size);
        start := 0;
      } else {
        node, start := AllocSmall(size, alignment);
        CurrentIsWhole();
      }
    }

    lemma CurrentIsWhole()
      requires Valid()
      ensures memnode.block.Length == 65536
    {
      CurrentIsSmall();
    }

    /** What memory holds. */
    ghost function Bytes(r: Range): seq<char>
      requires r.start + r.len <= r.node.block.Length
      reads r.node.block
    {
      r.node.block[r.start..r.start + r.len]
    }

    /** Every range can be read. */
    lemma InBlock(i: nat)
      requires Valid() && i < |live|
      ensures live[i].start + live[i].len <= live[i].node.block.Length
    {
      assert InPlace(live[i]);
    }

    /** A copy of the string and its NUL; what else was handed out keeps its bytes. */
    method StringAlloc(s: string) returns (node: Node, start: nat)
      requires Valid()
      modifies this, memnode`currPos, memnode.block
      ensures Valid() && live == old(live) + [Range(node, start, |s| + 1)]
      ensures start + |s| + 1 <= node.block.Length && node.block[start..start + |s| + 1] == s + ['\0']
      ensures forall i ::
        0 <= i < |old(live)| && old(live)[i].start + old(live)[i].len <= old(live)[i].node.block.Length ==>
        Bytes(old(live)[i]) == old(Bytes(live[i]))
    {
      hide Valid, Disjoint, IsPower2, Aligned;
      node, start := AllocMem(|s| + 1, 1);
      ghost var r := Range(node, start, |s| + 1);
      assert live[|live| - 1] == r;
      InBlock(|live| - 1);
      LastIsApart();
      assert forall i :: 0 <= i < |old(live)| ==> live[i] == old(live)[i];
      Fill(node, start, s, old(live));
    }

    /** The string and its NUL go there; ranges apart from that keep their bytes. */
    method Fill(node: Node, start: nat, s: string, ghost others: seq<Range>)
      requires start + |s| + 1 <= node.block.Length
      requires forall i :: 0 <= i < |others| ==> Disjoint(others[i], Range(node, start, |s| + 1))
      modifies node.block
      ensures node.block[start..start + |s| + 1] == s + ['\0']
      ensures forall i :: 0 <= i < |others| && others[i].start + others[i].len <= others[i].node.block.Length ==>
        Bytes(others[i]) == old(Bytes(others[i]))
    {
      CopyString(node.block, start, s);
      forall i | 0 <= i < |others| && others[i].start + others[i].len <= others[i].node.block.Length
        ensures Bytes(others[i]) == old(Bytes(others[i]))
      {
        assert Disjoint(others[i], Range(node, start, |s| + 1));
      }
    }

    lemma LastIsApart()
      requires Valid() && live != []
      ensures forall i :: 0 <= i < |live| - 1 ==> Disjoint(live[i], live[|live| - 1])
    {
    }

    /** Frees both lists, node by node. */
    method Destroy() returns (ghost freed: seq<Node>)
      requires Valid()
      ensures freed == small + big && NoDuplicates(freed)
    {
      ghost var first := FreeList(memnode, small);
      ghost var second := FreeList(bigmemnode, big);
      freed := first + second;
    }
  }

  method FreeList(head: Node?, ghost nodes: seq<Node>) returns (ghost freed: seq<Node>)
    requires IsList(head, nodes)
    ensures freed == nodes
  {
    var curr := head;
    freed := [];
    assert nodes[0..] == nodes;
    while curr != null
      invariant |freed| <= |nodes| && freed == nodes[..|freed|] && IsList(curr, nodes[|freed|..])
      decreases |nodes| - |freed|
    {
      assert nodes[|freed|..][1..] == nodes[|freed| + 1..];
      freed := freed + [curr];
      curr := curr.next;
    }
  }

  /** strcpy */
  method CopyString(block: array<char>, start: nat, s: string)
    requires start + |s| + 1 <= block.Length
    modifies block
    ensures block[start..start + |s| + 1] == s + ['\0']
    ensures forall k :: 0 <= k < block.Length && !(start <= k <= start + |s|) ==> block[k] == old(block[k])
  {
    for i := 0 to |s|
      invariant forall k :: 0 <= k < i ==> block[start + k] == s[k]
      invariant forall k :: 0 <= k < block.Length && !(start <= k < start + i) ==> block[k] == old(block[k])
    {
      block[start + i] := s[i];
    }
    block[start + |s|] := '\0';
  }
}
