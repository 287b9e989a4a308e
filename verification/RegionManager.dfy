/** The region table of the arena: a vector of allocation regions sorted by end address, each with an array of
    chunk handles, one for every 256 bytes. It is proved to represent two finite maps: `blocks`, from the start
    of a region to its size and id, and `index`, from the address of a chunk to the handle of that chunk. */
module ArenaRegions {
  import opened Options
  import opened ArenaTypes

  /** One contiguous block from the device allocator. `handles[i]` is the chunk that starts at `ptr + 256 * i`. */
  datatype Region = Region(ptr: nat, memorySize: nat, id: int, handles: seq<Handle>) {
    function EndPtr(): nat {
      ptr + memorySize
    }

    predicate WellFormed() {
      0 < memorySize && |handles| * 256 == memorySize
    }

    predicate Contains(p: nat) {
      ptr <= p < EndPtr()
    }

    /** The slot of `a` is one of this region's, `a` is the first address of that slot, and the slot holds `h`. */
    predicate Holds(a: nat, h: Handle) {
      && WellFormed() && Contains(a)
      && (a - ptr) % 256 == 0
      && handles[(a - ptr) / 256] == h
    }

    function SlotAddress(k: nat): nat {
      ptr + 256 * k
    }
  }

  ghost predicate Sorted(regions: seq<Region>) {
    && (forall i | 0 <= i < |regions| :: regions[i].WellFormed())
    && (forall i, j | 0 <= i < j < |regions| :: regions[i].EndPtr() <= regions[j].ptr)
  }

  ghost predicate Listed(r: Region, blocks: map<nat, Block>) {
    r.ptr in blocks && blocks[r.ptr] == Block(r.memorySize, r.id)
  }

  ghost predicate Located(regions: seq<Region>, b: nat) {
    exists i :: 0 <= i < |regions| && regions[i].ptr == b
  }

  ghost predicate Held(regions: seq<Region>, a: nat, h: Handle) {
    exists i :: 0 <= i < |regions| && regions[i].Holds(a, h)
  }

  ghost predicate Covered(r: Region, index: map<nat, Handle>) {
    forall k | 0 <= k < |r.handles| :: r.handles[k] != INVALID ==> r.SlotAddress(k) in index
  }

  ghost predicate Lists(regions: seq<Region>, blocks: map<nat, Block>) {
    && (forall i {:trigger Listed(regions[i], blocks)} | 0 <= i < |regions| :: Listed(regions[i], blocks))
    && (forall b {:trigger Located(regions, b)} | b in blocks :: Located(regions, b))
  }

  ghost predicate Indexes(regions: seq<Region>, index: map<nat, Handle>) {
    && (forall a | a in index :: index[a] != INVALID)
    && (forall a {:trigger Held(regions, a, index[a])} | a in index :: Held(regions, a, index[a]))
    && (forall i {:trigger Covered(regions[i], index)} | 0 <= i < |regions| :: Covered(regions[i], index))
  }

  /** How the vector of regions represents the two maps. */
  ghost predicate Represents(regions: seq<Region>, blocks: map<nat, Block>, index: map<nat, Handle>) {
    Sorted(regions) && Lists(regions, blocks) && Indexes(regions, index)
  }

  lemma SameContainer(regions: seq<Region>, i: nat, j: nat, p: nat)
    requires Sorted(regions) && i < |regions| && j < |regions|
    requires regions[i].Contains(p) && regions[j].Contains(p)
    ensures i == j
  {
  }

  lemma RegionOf(regions: seq<Region>, blocks: map<nat, Block>, b: nat) returns (i: nat)
    requires Sorted(regions) && Lists(regions, blocks) && b in blocks
    ensures i < |regions| && regions[i].ptr == b && blocks[b] == Block(regions[i].memorySize, regions[i].id)
    ensures regions[i].WellFormed()
  {
    assert Located(regions, b);
    i :| 0 <= i < |regions| && regions[i].ptr == b;
    assert Listed(regions[i], blocks);
  }

  lemma HolderOf(regions: seq<Region>, index: map<nat, Handle>, a: nat) returns (i: nat)
    requires Indexes(regions, index) && a in index
    ensures i < |regions| && regions[i].Holds(a, index[a])
  {
    assert Held(regions, a, index[a]);
    i :| 0 <= i < |regions| && regions[i].Holds(a, index[a]);
  }

  lemma RepresentedBlocks(regions: seq<Region>, blocks: map<nat, Block>)
    requires Sorted(regions) && Lists(regions, blocks)
    ensures BlocksOk(blocks)
  {
    forall b | b in blocks
      ensures BlockOk(blocks, b)
    {
      var i := RegionOf(regions, blocks, b);
    }
    forall b: nat, c: nat
      ensures InOrder(blocks, b, c)
    {
      if b in blocks && c in blocks {
        var i := RegionOf(regions, blocks, b);
        var j := RegionOf(regions, blocks, c);
      }
    }
  }

  /** `t` is `s` with `x` inserted at position `k`. */
  ghost predicate Inserted<T>(s: seq<T>, k: nat, x: T, t: seq<T>) {
    && k <= |s| && |t| == |s| + 1 && t[k] == x
    && (forall i | 0 <= i < k :: t[i] == s[i])
    && (forall i | k <= i < |s| :: t[i + 1] == s[i])
  }

  class RegionManager {
    var regions: seq<Region>
    ghost var blocks: map<nat, Block>
    ghost var index: map<nat, Handle>

    ghost predicate Valid()
      reads this
    {
      Represents(regions, blocks, index)
    }

    constructor ()
      ensures Valid() && regions == [] && blocks == map[] && index == map[]
    {
      regions, blocks, index := [], map[], map[];
    }

    /** The position std::upper_bound returns: the first region that ends after `p`. */
    method UpperBound(p: nat) returns (u: nat)
      requires Sorted(regions)
      ensures u <= |regions|
      ensures forall i | 0 <= i < u :: regions[i].EndPtr() <= p
      ensures forall i | u <= i < |regions| :: p < regions[i].EndPtr()
    {
      var lo, hi := 0, |regions|;
      while lo < hi
        invariant 0 <= lo <= hi <= |regions|
        invariant forall i | 0 <= i < lo :: regions[i].EndPtr() <= p
        invariant forall i | hi <= i < |regions| :: p < regions[i].EndPtr()
      {
        var mid := (lo + hi) / 2;
        if p < regions[mid].EndPtr() {
          hi := mid;
        } else {
          lo := mid + 1;
        }
      }
      u := lo;
    }

    /** Inserts a region without chunks, keeping the vector sorted by end address. */
    method AddAllocationRegion(ptr: nat, memorySize: nat, id: int)
      requires Valid()
      requires 0 < memorySize && memorySize % 256 == 0
      requires forall b | b in blocks :: Disjoint(ptr, memorySize, b, blocks[b].size)
      modifies this
      ensures Valid()
      ensures ptr !in old(blocks)
      ensures blocks == old(blocks)[ptr := Block(memorySize, id)] && index == old(index)
      ensures exists k :: 0 <= k <= |old(regions)| &&
                Inserted(old(regions), k, EmptyRegion(ptr, memorySize, id), regions)
    {
      var entry := UpperBound(ptr);
      var r := EmptyRegion(ptr, memorySize, id);
      ghost var before := regions;
      regions := regions[..entry] + [r] + regions[entry..];
      assert Inserted(before, entry, r, regions);
      InsertKeepsSorted(before, blocks, entry, r, regions);
      InsertKeepsLists(before, blocks, entry, r, regions);
      InsertKeepsIndexes(before, index, entry, r, regions);
      blocks := blocks[ptr := Block(memorySize, id)];
    }

    /** Removes a region that no chunk address points into. */
    method RemoveAllocationRegion(ptr: nat)
      requires Valid()
      requires ptr in blocks
      requires forall a | a in index :: !(ptr <= a < ptr + blocks[ptr].size)
      modifies this
      ensures Valid()
      ensures blocks == old(blocks) - {ptr} && index == old(index)
      ensures exists k :: 0 <= k < |old(regions)| && old(regions)[k].ptr == ptr &&
                Inserted(regions, k, old(regions)[k], old(regions))
    {
      var entry := UpperBound(ptr);
      ghost var before := regions;
      ghost var i := RegionOf(regions, blocks, ptr);
      BoundIsContainer(regions, ptr, entry, i);
      regions := regions[..entry] + regions[entry + 1..];
      assert Inserted(regions, entry, before[entry], before);
      RemoveKeepsLists(before, blocks, entry, regions);
      RemoveKeepsIndexes(before, index, entry, regions);
      blocks := blocks - {ptr};
    }

    /** The handle stored for the 256-byte slot that holds `p`; None when no region contains `p`. */
    method GetHandle(p: nat) returns (r: Option<Handle>)
      requires Valid()
      ensures r.None? ==> forall b | b in blocks :: !(b <= p < b + blocks[b].size)
      ensures r.Some? ==>
                exists b :: b in blocks && b <= p < b + blocks[b].size && r.value == HandleAt(index, SlotStart(b, p))
    {
      var entry := UpperBound(p);
      if entry == |regions| || p < regions[entry].ptr {
        forall b | b in blocks
          ensures !(b <= p < b + blocks[b].size)
        {
          var i := RegionOf(regions, blocks, b);
        }
        return None;
      }
      assert regions[entry].WellFormed();
      var slot := (p - regions[entry].ptr) / 256;
      SlotIsIndexed(regions, index, entry, slot);
      r := Some(regions[entry].handles[slot]);
      ghost var b := regions[entry].ptr;
      assert Listed(regions[entry], blocks);
      assert SlotStart(b, p) == regions[entry].SlotAddress(slot);
    }

    method SetHandle(p: nat, h: Handle, ghost b: nat)
      requires Valid()
      requires h != INVALID
      requires b in blocks && b <= p < b + blocks[b].size && (p - b) % 256 == 0
      modifies this`regions, this`index
      ensures Valid()
      ensures index == old(index)[p := h]
      ensures SameShape(regions, old(regions))
    {
      var entry := UpperBound(p);
      ghost var i := RegionOf(regions, blocks, b);
      BoundIsContainer(regions, p, entry, i);
      ghost var before := regions;
      WriteHandle(entry, p, h);
      WriteKeepsLists(before, blocks, entry, p, h, regions);
      WriteIndexes(before, index, entry, p, h, regions, index[p := h]);
      index := index[p := h];
    }

    method Erase(p: nat)
      requires Valid()
      requires p in index
      modifies this`regions, this`index
      ensures Valid()
      ensures index == old(index) - {p}
      ensures SameShape(regions, old(regions))
    {
      var entry := UpperBound(p);
      ghost var i := HolderOf(regions, index, p);
      BoundIsContainer(regions, p, entry, i);
      ghost var before := regions;
      WriteHandle(entry, p, INVALID);
      WriteKeepsLists(before, blocks, entry, p, INVALID, regions);
      WriteIndexes(before, index, entry, p, INVALID, regions, index - {p});
      index := index - {p};
    }

    method WriteHandle(entry: nat, p: nat, h: Handle)
      requires entry < |regions| && regions[entry].WellFormed() && regions[entry].Contains(p)
      modifies this`regions
      ensures regions == Write(old(regions), entry, p, h)
    {
      var r := regions[entry];
      var slot := (p - r.ptr) / 256;
      regions := regions[entry := r.(handles := r.handles[slot := h])];
    }
  }

  function EmptyRegion(ptr: nat, memorySize: nat, id: int): (r: Region)
    ensures forall k | 0 <= k < |r.handles| :: r.handles[k] == INVALID
  {
    Region(ptr, memorySize, id, seq(memorySize / 256, _ => INVALID))
  }

  function HandleAt(index: map<nat, Handle>, a: nat): Handle {
    if a in index then index[a] else INVALID
  }

  /** The first address of the 256-byte slot of `p` in the region that starts at `b`. */
  function SlotStart(b: nat, p: nat): nat
    requires b <= p
  {
    b + 256 * ((p - b) / 256)
  }

  function Write(regions: seq<Region>, entry: nat, p: nat, h: Handle): seq<Region>
    requires entry < |regions| && regions[entry].WellFormed() && regions[entry].Contains(p)
  {
    var r := regions[entry];
    regions[entry := r.(handles := r.handles[(p - r.ptr) / 256 := h])]
  }

  /** The same regions, whatever their handle arrays hold. */
  ghost predicate SameShape(r1: seq<Region>, r2: seq<Region>) {
    && |r1| == |r2|
    && forall i | 0 <= i < |r1| ::
         r1[i].ptr == r2[i].ptr && r1[i].memorySize == r2[i].memorySize && r1[i].id == r2[i].id
  }

  lemma BoundIsContainer(regions: seq<Region>, p: nat, u: nat, i: nat)
    requires Sorted(regions) && u <= |regions| && i < |regions| && regions[i].Contains(p)
    requires forall j | 0 <= j < u :: regions[j].EndPtr() <= p
    requires forall j | u <= j < |regions| :: p < regions[j].EndPtr()
    ensures u == i
  {
    var end := if u < |regions| then regions[u].EndPtr() else 0;
  }

  lemma SlotIsIndexed(regions: seq<Region>, index: map<nat, Handle>, i: nat, k: nat)
    requires Sorted(regions) && Indexes(regions, index)
    requires i < |regions| && k < |regions[i].handles|
    ensures HandleAt(index, regions[i].SlotAddress(k)) == regions[i].handles[k]
  {
    var a := regions[i].SlotAddress(k);
    assert regions[i].WellFormed() && regions[i].Contains(a);
    assert Covered(regions[i], index);
    if a in index {
      var j := HolderOf(regions, index, a);
      SameContainer(regions, i, j, a);
      assert (a - regions[i].ptr) / 256 == k;
    }
  }

  lemma WriteKeepsLists(regions: seq<Region>, blocks: map<nat, Block>, entry: nat, p: nat, h: Handle,
                        regions': seq<Region>)
    requires Sorted(regions) && Lists(regions, blocks)
    requires entry < |regions| && regions[entry].Contains(p) && regions' == Write(regions, entry, p, h)
    ensures Sorted(regions') && Lists(regions', blocks) && SameShape(regions', regions)
  {
    forall i | 0 <= i < |regions'|
      ensures Listed(regions'[i], blocks)
    {
      assert Listed(regions[i], blocks);
    }
    forall b | b in blocks
      ensures Located(regions', b)
    {
      var i := RegionOf(regions, blocks, b);
      assert regions'[i].ptr == b;
    }
  }

  lemma WriteIndexes(regions: seq<Region>, index: map<nat, Handle>, entry: nat, p: nat, h: Handle,
                     regions': seq<Region>, index': map<nat, Handle>)
    requires Sorted(regions) && Indexes(regions, index)
    requires entry < |regions| && regions[entry].Contains(p)
    requires (p - regions[entry].ptr) % 256 == 0
    requires regions' == Write(regions, entry, p, h)
    requires index' == if h == INVALID then index - {p} else index[p := h]
    ensures Indexes(regions', index')
  {
    forall a | a in index'
      ensures Held(regions', a, index'[a])
    {
      if a == p {
        assert regions'[entry].Holds(a, h);
      } else {
        var i := HolderOf(regions, index, a);
        OtherSlot(regions[entry], p, a);
        assert regions'[i].Holds(a, index[a]);
      }
    }
    forall i | 0 <= i < |regions'|
      ensures Covered(regions'[i], index')
    {
      assert Covered(regions[i], index);
      WriteCovered(regions, index, entry, p, h, index', i);
    }
  }

  lemma OtherSlot(r: Region, p: nat, a: nat)
    requires p != a && r.ptr <= p && (p - r.ptr) % 256 == 0
    ensures r.ptr <= a && (a - r.ptr) % 256 == 0 ==> (a - r.ptr) / 256 != (p - r.ptr) / 256
  {
  }

  lemma WriteCovered(regions: seq<Region>, index: map<nat, Handle>, entry: nat, p: nat, h: Handle,
                     index': map<nat, Handle>, i: nat)
    requires Sorted(regions) && i < |regions| && Covered(regions[i], index)
    requires entry < |regions| && regions[entry].Contains(p)
    requires (p - regions[entry].ptr) % 256 == 0
    requires index' == if h == INVALID then index - {p} else index[p := h]
    ensures Covered(Write(regions, entry, p, h)[i], index')
  {
    var r, r' := regions[i], Write(regions, entry, p, h)[i];
    forall k | 0 <= k < |r'.handles|
      ensures r'.handles[k] != INVALID ==> r'.SlotAddress(k) in index'
    {
      if r.SlotAddress(k) == p {
        assert r.WellFormed() && r.Contains(p);
        SameContainer(regions, i, entry, p);
      } else {
        assert i == entry ==> r'.handles[k] == r.handles[k];
      }
    }
  }

  lemma InsertKeepsSorted(regions: seq<Region>, blocks: map<nat, Block>, entry: nat, r: Region, regions': seq<Region>)
    requires Sorted(regions) && Lists(regions, blocks)
    requires Inserted(regions, entry, r, regions')
    requires r.WellFormed()
    requires forall i | 0 <= i < entry :: regions[i].EndPtr() <= r.ptr
    requires forall i | entry <= i < |regions| :: r.ptr < regions[i].EndPtr()
    requires forall b | b in blocks :: Disjoint(r.ptr, r.memorySize, b, blocks[b].size)
    ensures r.ptr !in blocks
    ensures Sorted(regions')
  {
    forall i | entry <= i < |regions|
      ensures r.EndPtr() <= regions[i].ptr
    {
      assert Listed(regions[i], blocks);
    }
    RepresentedBlocks(regions, blocks);
    assert r.ptr in blocks ==> BlockOk(blocks, r.ptr);
    forall i, j | 0 <= i < j < |regions'|
      ensures regions'[i].EndPtr() <= regions'[j].ptr
    {
      InsertedElement(regions, entry, r, regions', i);
      InsertedElement(regions, entry, r, regions', j);
    }
    forall i | 0 <= i < |regions'|
      ensures regions'[i].WellFormed()
    {
      InsertedElement(regions, entry, r, regions', i);
    }
  }

  lemma InsertedElement<T>(s: seq<T>, k: nat, x: T, t: seq<T>, i: nat)
    requires Inserted(s, k, x, t) && i < |t|
    ensures t[i] == if i < k then s[i] else if i == k then x else s[i - 1]
  {
    if k < i {
      assert t[i - 1 + 1] == s[i - 1];
    }
  }

  lemma InsertKeepsLists(regions: seq<Region>, blocks: map<nat, Block>, entry: nat, r: Region, regions': seq<Region>)
    requires Sorted(regions) && Lists(regions, blocks)
    requires Inserted(regions, entry, r, regions') && r.ptr !in blocks
    ensures Lists(regions', blocks[r.ptr := Block(r.memorySize, r.id)])
  {
    var blocks' := blocks[r.ptr := Block(r.memorySize, r.id)];
    forall i | 0 <= i < |regions'|
      ensures Listed(regions'[i], blocks')
    {
      InsertedElement(regions, entry, r, regions', i);
      if i != entry {
        assert Listed(regions[if i < entry then i else i - 1], blocks);
      }
    }
    forall b | b in blocks'
      ensures Located(regions', b)
    {
      if b == r.ptr {
        assert regions'[entry].ptr == b;
      } else {
        var i := RegionOf(regions, blocks, b);
        assert regions'[if i < entry then i else i + 1].ptr == b;
      }
    }
  }

  lemma InsertKeepsIndexes(regions: seq<Region>, index: map<nat, Handle>, entry: nat, r: Region, regions': seq<Region>)
    requires Indexes(regions, index)
    requires Inserted(regions, entry, r, regions')
    requires forall k | 0 <= k < |r.handles| :: r.handles[k] == INVALID
    ensures Indexes(regions', index)
  {
    forall a | a in index
      ensures Held(regions', a, index[a])
    {
      var i := HolderOf(regions, index, a);
      assert regions'[if i < entry then i else i + 1].Holds(a, index[a]);
    }
    forall i | 0 <= i < |regions'|
      ensures Covered(regions'[i], index)
    {
      InsertedElement(regions, entry, r, regions', i);
      if i != entry {
        assert Covered(regions[if i < entry then i else i - 1], index);
      }
    }
  }

  lemma RemoveKeepsLists(regions: seq<Region>, blocks: map<nat, Block>, entry: nat, regions': seq<Region>)
    requires Sorted(regions) && Lists(regions, blocks)
    requires entry < |regions| && Inserted(regions', entry, regions[entry], regions)
    ensures Sorted(regions')
    ensures Lists(regions', blocks - {regions[entry].ptr})
  {
    forall i | 0 <= i < |regions'|
      ensures regions'[i] == regions[if i < entry then i else i + 1]
    {
    }
    var blocks' := blocks - {regions[entry].ptr};
    forall i | 0 <= i < |regions'|
      ensures Listed(regions'[i], blocks')
    {
      var j := if i < entry then i else i + 1;
      assert Listed(regions[j], blocks);
      assert regions[i].WellFormed() && regions[entry].WellFormed();
    }
    forall b | b in blocks'
      ensures Located(regions', b)
    {
      var i := RegionOf(regions, blocks, b);
      assert regions'[if i < entry then i else i - 1].ptr == b;
    }
  }

  lemma RemoveKeepsIndexes(regions: seq<Region>, index: map<nat, Handle>, entry: nat, regions': seq<Region>)
    requires Indexes(regions, index)
    requires entry < |regions| && Inserted(regions', entry, regions[entry], regions)
    requires forall a | a in index :: !regions[entry].Contains(a)
    ensures Indexes(regions', index)
  {
    forall a | a in index
      ensures Held(regions', a, index[a])
    {
      var i := HolderOf(regions, index, a);
      InsertedElement(regions', entry, regions[entry], regions, i);
      assert regions'[if i < entry then i else i - 1].Holds(a, index[a]);
    }
    forall i | 0 <= i < |regions'|
      ensures Covered(regions'[i], index)
    {
      var j := if i < entry then i else i + 1;
      assert regions'[i] == regions[j] && Covered(regions[j], index);
    }
  }
}
