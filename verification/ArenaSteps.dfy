/** Every step of ArenaCore keeps the invariant. */
module ArenaSteps {
  import opened ArenaTypes
  import opened ArenaCore

  // ---- Splitting -----------------------------------------------------------------------------------------------

  ghost predicate SplitPre(s: Core, h: Handle, bytes: nat) {
    && Tiled(s) && FreeListed(s) && h in s.home
    && LiveOk(s, h) && 0 < bytes < s.chunks[h].size && bytes % 256 == 0
  }

  lemma RecordIsUnused(s: Core)
    requires FreeListed(s)
    ensures TakenRecord(s) !in s.home && 0 <= TakenRecord(s) <= |s.chunks|
    ensures forall i | 0 <= i < |s.freeSeq| :: 0 <= s.freeSeq[i] < |s.chunks|
  {
    forall i | 0 <= i < |s.freeSeq|
      ensures 0 <= s.freeSeq[i] < |s.chunks|
    {
      assert UnusedOk(s, i);
    }
    if s.freeSeq != [] {
      assert UnusedOk(s, 0);
    }
  }

  /** What every record holds after a split: `k` is the remainder of `h`. */
  ghost predicate IsSplit(s: Core, t: Core, h: Handle, k: Handle, bytes: nat)
    requires 0 <= h < |s.chunks| && h in s.home
  {
    var c := s.chunks[h];
    && 0 <= k < |t.chunks| && |s.chunks| <= |t.chunks| && k != h && k != c.next && k !in s.home
    && t.chunks[h] == c.(size := bytes, next := k)
    && t.chunks[k].ptr == c.ptr + bytes && t.chunks[k].size == c.size - bytes
    && t.chunks[k].prev == h && t.chunks[k].next == c.next
    && t.chunks[k].stream == c.stream && t.chunks[k].streamSyncId == c.streamSyncId && !t.chunks[k].InUse()
    && (c.next != INVALID ==>
          0 <= c.next < |s.chunks| && c.next != h && t.chunks[c.next] == s.chunks[c.next].(prev := k))
    && (forall x | 0 <= x < |s.chunks| && x != h && x != k && x != c.next :: t.chunks[x] == s.chunks[x])
    && t.home == s.home[k := s.home[h]] && t.blocks == s.blocks && t.index == s.index[c.ptr + bytes := k]
    && t.bins == s.bins
  }

  lemma SplitRecords(s: Core, h: Handle, bytes: nat)
    requires SplitPre(s, h, bytes)
    ensures forall i | 0 <= i < |s.freeSeq| :: 0 <= s.freeSeq[i] < |s.chunks|
    ensures IsSplit(s, Split(s, h, bytes), h, TakenRecord(s), bytes)
  {
    RecordIsUnused(s);
    assert LiveOk(s, h);
  }

  lemma SplitAddressIsNew(s: Core, h: Handle, bytes: nat)
    requires SplitPre(s, h, bytes)
    ensures s.chunks[h].ptr + bytes !in s.index
  {
    var a := s.chunks[h].ptr + bytes;
    if a in s.index {
      assert Indexed(s, a);
      NoOverlap(s, h, s.index[a]);
    }
  }

  /** Two live chunks never overlap. */
  lemma {:induction false} NoOverlap(s: Core, g: Handle, h: Handle)
    requires Tiled(s) && g in s.home && h in s.home && g != h
    requires LiveOk(s, g) && LiveOk(s, h)
    ensures Disjoint(s.chunks[g].ptr, s.chunks[g].size, s.chunks[h].ptr, s.chunks[h].size)
    decreases s.chunks[g].ptr + s.chunks[h].ptr, s.chunks[g].ptr
  {
    var c, d := s.chunks[g], s.chunks[h];
    if s.home[g] != s.home[h] {
      assert InOrder(s.blocks, s.home[g], s.home[h]) && InOrder(s.blocks, s.home[h], s.home[g]);
    } else if d.ptr < c.ptr {
      NoOverlap(s, h, g);
    } else if c.ptr < d.ptr {
      var p := d.prev;
      assert p != INVALID && LiveOk(s, p);
      if p != g && c.ptr != s.chunks[p].ptr {
        NoOverlap(s, g, p);
      }
    }
  }

  lemma SplitPlaced(s: Core, t: Core, h: Handle, k: Handle, bytes: nat, x: Handle)
    requires SplitPre(s, h, bytes) && IsSplit(s, t, h, k, bytes)
    requires s.chunks[h].ptr + bytes !in s.index
    requires x in t.home
    ensures Placed(t, x)
  {
    var c, b := s.chunks[h], s.home[h];
    SplitOnGrid(b, b + s.blocks[b].size, c.ptr, c.size, bytes);
    if x != k && x != h {
      assert LiveOk(s, x);
    }
  }

  lemma SplitLive(s: Core, t: Core, h: Handle, k: Handle, bytes: nat, x: Handle)
    requires SplitPre(s, h, bytes) && IsSplit(s, t, h, k, bytes)
    requires s.chunks[h].ptr + bytes !in s.index
    requires x in t.home
    ensures LiveOk(t, x)
  {
    SplitPlaced(s, t, h, k, bytes, x);
    assert LiveOk(s, h) && (x != k ==> LiveOk(s, x));
    if t.chunks[x].next != INVALID {
      SplitPlaced(s, t, h, k, bytes, t.chunks[x].next);
    }
    if t.chunks[x].prev != INVALID {
      SplitPlaced(s, t, h, k, bytes, t.chunks[x].prev);
    }
  }

  lemma SplitKeepsTiled(s: Core, t: Core, h: Handle, k: Handle, bytes: nat)
    requires SplitPre(s, h, bytes) && IsSplit(s, t, h, k, bytes)
    ensures Tiled(t)
  {
    SplitAddressIsNew(s, h, bytes);
    forall x | x in t.home
      ensures LiveOk(t, x)
    {
      SplitLive(s, t, h, k, bytes, x);
    }
    forall a | a in t.index
      ensures Indexed(t, a)
    {
      if a != s.chunks[h].ptr + bytes {
        assert Indexed(s, a);
      }
      SplitPlaced(s, t, h, k, bytes, t.index[a]);
    }
    forall b | b in t.blocks
      ensures HasStart(t, b)
    {
      assert HasStart(s, b);
    }
  }

  lemma SplitKeepsBinned(s: Core, t: Core, h: Handle, k: Handle, bytes: nat, floating: set<Handle>)
    requires SplitPre(s, h, bytes) && IsSplit(s, t, h, k, bytes)
    requires Binned(s, floating) && h in floating
    requires t.chunks[k].binNum == INVALID
    ensures Binned(t, floating + {k})
  {
    assert BinOk(s, floating, h);
    forall x | x in t.home
      ensures BinOk(t, floating + {k}, x)
    {
      if x != k {
        assert BinOk(s, floating, x) && LiveOk(s, x);
      }
    }
    forall b: nat, x
      ensures InBinOk(t, floating + {k}, b, x)
    {
      assert InBinOk(s, floating, b, x);
    }
  }

  /** Records outside the live ones are untouched by a split. */
  lemma SplitKeepsFreeListed(s: Core, h: Handle, bytes: nat)
    requires SplitPre(s, h, bytes)
    requires forall i | 0 <= i < |s.freeSeq| :: 0 <= s.freeSeq[i] < |s.chunks|
    ensures FreeListed(Split(s, h, bytes))
    ensures Split(s, h, bytes).chunks[TakenRecord(s)].binNum == INVALID
  {
    SplitRecords(s, h, bytes);
    TakingKeepsFreeListed(s, Split(s, h, bytes));
    if s.freeSeq != [] {
      assert UnusedOk(s, 0);
    }
  }

  /** Once the taken record is live, the rest of the unused list is as it was. */
  lemma TakingKeepsFreeListed(s: Core, t: Core)
    requires FreeListed(s)
    requires t.freeSeq == TakeRecord(s).freeSeq && |t.chunks| == |TakeRecord(s).chunks|
    requires t.home.Keys == s.home.Keys + {TakenRecord(s)}
    requires forall x | 0 <= x < |s.chunks| && x !in s.home && x != TakenRecord(s) :: t.chunks[x] == s.chunks[x]
    ensures FreeListed(t)
  {
    RecordIsUnused(s);
    var d := if s.freeSeq == [] then 0 else 1;
    assert forall i | 0 <= i < |t.freeSeq| :: t.freeSeq[i] == s.freeSeq[i + d];
    forall i: nat | i < |t.freeSeq|
      ensures UnusedOk(t, i)
    {
      assert UnusedOk(s, i + d) && Distinct(s, 0, i + 1);
    }
    forall i: nat, j: nat
      ensures Distinct(t, i, j)
    {
      var i', j' := i + d, j + d;
      assert Distinct(s, i', j');
    }
    forall x | 0 <= x < |t.chunks|
      ensures Recorded(t, x)
    {
      if x < |s.chunks| && x !in t.home {
        assert Recorded(s, x);
        var i :| 0 <= i < |s.freeSeq| && s.freeSeq[i] == x;
        assert t.freeSeq[i - d] == x;
      }
    }
  }

  /** Putting a record at the head of the unused list. */
  lemma ReleasingKeepsFreeListed(s: Core, t: Core, h: Handle)
    requires FreeListed(s) && h in s.home
    requires t.freeSeq == [h] + s.freeSeq && |t.chunks| == |s.chunks| && t.home.Keys == s.home.Keys - {h}
    requires !t.chunks[h].InUse() && t.chunks[h].binNum == INVALID && t.chunks[h].next == FreeListHead(s)
    requires forall x | 0 <= x < |s.chunks| && x !in s.home :: t.chunks[x] == s.chunks[x]
    ensures FreeListed(t)
  {
    forall i: nat | i < |t.freeSeq|
      ensures UnusedOk(t, i)
    {
      if i > 0 {
        assert UnusedOk(s, i - 1);
      }
    }
    forall i: nat, j: nat
      ensures Distinct(t, i, j)
    {
      if 0 < i < j < |t.freeSeq| {
        assert Distinct(s, i - 1, j - 1);
      } else if j < |t.freeSeq| && 0 < j {
        assert UnusedOk(s, j - 1);
      }
    }
    forall x | 0 <= x < |t.chunks|
      ensures Recorded(t, x)
    {
      assert Recorded(s, x);
    }
  }

  // ---- Merging -------------------------------------------------------------------------------------------------

  ghost predicate MergePre(s: Core, h1: Handle, h2: Handle) {
    && Tiled(s) && FreeListed(s) && h1 in s.home && h2 in s.home
    && LiveOk(s, h1) && LiveOk(s, h2) && s.chunks[h1].next == h2
    && Mergeable(s.chunks[h1], s.chunks[h2])
  }

  /** What every record holds after `h1` has absorbed `h2`. */
  ghost predicate IsMerge(s: Core, t: Core, h1: Handle, h2: Handle)
    requires 0 <= h1 < |s.chunks| && 0 <= h2 < |s.chunks|
  {
    var c1, c2 := s.chunks[h1], s.chunks[h2];
    && |t.chunks| == |s.chunks| && h1 != h2 && h1 != c2.next && h2 != c2.next
    && t.chunks[h1].ptr == c1.ptr && t.chunks[h1].size == c1.size + c2.size
    && t.chunks[h1].prev == c1.prev && t.chunks[h1].next == c2.next
    && t.chunks[h1].stream == c1.stream && !t.chunks[h1].InUse() && t.chunks[h1].binNum == c1.binNum
    && t.chunks[h1].streamSyncId >= c1.streamSyncId && t.chunks[h1].streamSyncId >= c2.streamSyncId
    && (t.chunks[h1].streamSyncId == c1.streamSyncId || t.chunks[h1].streamSyncId == c2.streamSyncId)
    && !t.chunks[h2].InUse() && t.chunks[h2].binNum == c2.binNum && t.chunks[h2].next == FreeListHead(s)
    && (c2.next != INVALID ==>
          0 <= c2.next < |s.chunks| && t.chunks[c2.next] == s.chunks[c2.next].(prev := h1))
    && (forall x | 0 <= x < |s.chunks| && x != h1 && x != h2 && x != c2.next :: t.chunks[x] == s.chunks[x])
    && t.home == s.home - {h2} && t.blocks == s.blocks && t.index == s.index - {c2.ptr}
    && t.bins == s.bins && t.freeSeq == [h2] + s.freeSeq
  }

  lemma MergeRecords(s: Core, h1: Handle, h2: Handle)
    requires MergePre(s, h1, h2)
    ensures IsMerge(s, Merge(s, h1, h2), h1, h2)
  {
    assert Placed(s, h1) && Placed(s, h2);
    if s.chunks[h2].next != INVALID {
      assert Placed(s, s.chunks[h2].next);
    }
  }

  lemma MergePlaced(s: Core, t: Core, h1: Handle, h2: Handle, x: Handle)
    requires MergePre(s, h1, h2) && IsMerge(s, t, h1, h2)
    requires x in t.home
    ensures Placed(t, x)
  {
    var b := s.home[h1];
    if x == h1 {
      assert Placed(s, h1) && Placed(s, h2);
      MergeOnGrid(b, b + s.blocks[b].size, s.chunks[h1].ptr, s.chunks[h1].size, s.chunks[h2].size);
    } else {
      assert LiveOk(s, x) && Placed(s, x);
    }
  }

  lemma MergeLive(s: Core, t: Core, h1: Handle, h2: Handle, x: Handle)
    requires MergePre(s, h1, h2) && IsMerge(s, t, h1, h2)
    requires x in t.home
    ensures LiveOk(t, x)
  {
    MergePlaced(s, t, h1, h2, x);
    assert LiveOk(s, x);
    if t.chunks[x].next != INVALID {
      MergePlaced(s, t, h1, h2, t.chunks[x].next);
    }
    if t.chunks[x].prev != INVALID {
      MergePlaced(s, t, h1, h2, t.chunks[x].prev);
    }
  }

  lemma MergeKeepsTiled(s: Core, t: Core, h1: Handle, h2: Handle)
    requires MergePre(s, h1, h2) && IsMerge(s, t, h1, h2)
    ensures Tiled(t)
  {
    forall x | x in t.home
      ensures LiveOk(t, x)
    {
      MergeLive(s, t, h1, h2, x);
    }
    forall a | a in t.index
      ensures Indexed(t, a)
    {
      assert Indexed(s, a);
      MergePlaced(s, t, h1, h2, t.index[a]);
    }
    forall b | b in t.blocks
      ensures HasStart(t, b)
    {
      assert HasStart(s, b) && Indexed(s, b);
    }
  }

  lemma MergeKeepsBinned(s: Core, t: Core, h1: Handle, h2: Handle, floating: set<Handle>)
    requires MergePre(s, h1, h2) && IsMerge(s, t, h1, h2)
    requires Binned(s, floating) && h1 in floating && h2 in floating
    ensures Binned(t, floating - {h2})
  {
    assert BinOk(s, floating, h1) && BinOk(s, floating, h2);
    forall x | x in t.home
      ensures BinOk(t, floating - {h2}, x)
    {
      assert BinOk(s, floating, x);
    }
    forall b: nat, x
      ensures InBinOk(t, floating - {h2}, b, x)
    {
      assert InBinOk(s, floating, b, x);
    }
  }

  lemma MergeKeepsFreeListed(s: Core, t: Core, h1: Handle, h2: Handle)
    requires MergePre(s, h1, h2) && IsMerge(s, t, h1, h2)
    requires s.chunks[h2].binNum == INVALID
    ensures FreeListed(t)
  {
    assert LiveOk(s, h2);
    ReleasingKeepsFreeListed(s, t, h2);
  }

  // ---- Bins ----------------------------------------------------------------------------------------------------

  lemma WithBinOk(s: Core, h: Handle, floating: set<Handle>)
    requires CoreOk(s, floating) && h in floating && h in s.home
    requires 0 <= h < |s.chunks|
    ensures CoreOk(WithBin(s, h), floating - {h})
  {
    var t := WithBin(s, h);
    assert BinOk(s, floating, h);
    SameTiling(s, t);
    SameUnused(s, t);
    forall x | x in t.home
      ensures BinOk(t, floating - {h}, x)
    {
      assert BinOk(s, floating, x);
    }
    forall b: nat, x
      ensures InBinOk(t, floating - {h}, b, x)
    {
      assert InBinOk(s, floating, b, x);
    }
  }

  lemma WithoutBinOk(s: Core, h: Handle, floating: set<Handle>)
    requires CoreOk(s, floating) && h in s.home && h !in floating
    requires 0 <= h < |s.chunks| && !s.chunks[h].InUse()
    ensures 0 <= s.chunks[h].binNum < 21 && h in s.bins[s.chunks[h].binNum]
    ensures CoreOk(WithoutBin(s, h), floating + {h})
  {
    assert BinOk(s, floating, h);
    var t := WithoutBin(s, h);
    SameTiling(s, t);
    SameUnused(s, t);
    forall x | x in t.home
      ensures BinOk(t, floating + {h}, x)
    {
      assert BinOk(s, floating, x);
    }
    forall b: nat, x
      ensures InBinOk(t, floating + {h}, b, x)
    {
      assert InBinOk(s, floating, b, x);
    }
  }

  /** The tiling depends only on where live chunks lie and how they are linked. */
  lemma SameTiling(s: Core, t: Core)
    requires Tiled(s)
    requires t.home == s.home && t.blocks == s.blocks && t.index == s.index && |t.chunks| == |s.chunks|
    requires forall h | h in s.home && 0 <= h < |s.chunks| :: SamePlace(s.chunks[h], t.chunks[h])
    ensures Tiled(t)
  {
    forall h | h in t.home
      ensures LiveOk(t, h)
    {
      assert LiveOk(s, h);
    }
    forall a | a in t.index
      ensures Indexed(t, a)
    {
      assert Indexed(s, a);
    }
    forall b | b in t.blocks
      ensures HasStart(t, b)
    {
      assert HasStart(s, b);
    }
  }

  ghost predicate SamePlace(c: Chunk, d: Chunk) {
    c.ptr == d.ptr && c.size == d.size && c.prev == d.prev && c.next == d.next
  }

  ghost predicate SameRecord(c: Chunk, d: Chunk) {
    c.next == d.next && c.binNum == d.binNum && c.InUse() == d.InUse()
  }

  lemma SameUnused(s: Core, t: Core)
    requires FreeListed(s)
    requires t.home.Keys == s.home.Keys && t.freeSeq == s.freeSeq && |t.chunks| == |s.chunks|
    requires forall h | 0 <= h < |s.chunks| && h !in s.home :: SameRecord(s.chunks[h], t.chunks[h])
    ensures FreeListed(t)
  {
    forall i: nat, j: nat
      ensures Distinct(t, i, j)
    {
      assert Distinct(s, i, j);
    }
    forall i: nat | i < |t.freeSeq|
      ensures UnusedOk(t, i)
    {
      assert UnusedOk(s, i);
    }
    forall h | 0 <= h < |t.chunks|
      ensures Recorded(t, h)
    {
      assert Recorded(s, h);
    }
  }

  // ---- Granting and returning a chunk ---------------------------------------------------------------------------

  /** Chunk `h` changes hands: only who uses it changes, and neither before nor after is it in a bin. */
  lemma HandoverOk(s: Core, t: Core, h: Handle, floating: set<Handle>, floating': set<Handle>)
    requires CoreOk(s, floating) && h in s.home && 0 <= h < |s.chunks|
    requires s.chunks[h].binNum == INVALID && floating' - {h} == floating - {h}
    requires |t.chunks| == |s.chunks| && t == s.(chunks := t.chunks)
    requires forall x | 0 <= x < |s.chunks| && x != h :: t.chunks[x] == s.chunks[x]
    requires SamePlace(s.chunks[h], t.chunks[h]) && t.chunks[h].binNum == INVALID
    requires h in floating' <==> !t.chunks[h].InUse()
    ensures CoreOk(t, floating')
  {
    SameTiling(s, t);
    SameUnused(s, t);
    assert BinOk(s, floating, h);
    forall x | x in t.home
      ensures BinOk(t, floating', x)
    {
      assert BinOk(s, floating, x);
      assert x != h ==> (x in floating' <==> x in floating' - {h}) && (x in floating <==> x in floating - {h});
    }
    forall b: nat, x
      ensures InBinOk(t, floating', b, x)
    {
      assert InBinOk(s, floating, b, x);
      if x == h && b < 21 {
        NotInBin(s, floating, b, h);
      }
    }
  }

  lemma NotInBin(s: Core, floating: set<Handle>, b: nat, h: Handle)
    requires Binned(s, floating) && h in s.home && 0 <= h < |s.chunks| && b < 21
    requires s.chunks[h].binNum == INVALID
    ensures h !in s.bins[b]
  {
    assert InBinOk(s, floating, b, h) && BinOk(s, floating, h);
  }

  // ---- Adding a region -----------------------------------------------------------------------------------------

  ghost predicate AddPre(s: Core, ptr: nat, bytes: nat) {
    && Tiled(s) && FreeListed(s)
    && 0 < bytes && bytes % 256 == 0
    && forall b | b in s.blocks :: Disjoint(ptr, bytes, b, s.blocks[b].size)
  }

  lemma NothingThere(s: Core, ptr: nat, bytes: nat, a: nat)
    requires AddPre(s, ptr, bytes) && a in s.index
    ensures !(ptr <= a < ptr + bytes)
  {
    assert Indexed(s, a) && LiveOk(s, s.index[a]);
    assert Disjoint(ptr, bytes, s.home[s.index[a]], s.blocks[s.home[s.index[a]]].size);
  }

  lemma AddRegionOk(s: Core, ptr: nat, bytes: nat, id: int, floating: set<Handle>)
    requires AddPre(s, ptr, bytes) && Binned(s, floating)
    requires ptr !in s.blocks
    requires forall i | 0 <= i < |s.freeSeq| :: 0 <= s.freeSeq[i] < |s.chunks|
    ensures CoreOk(AddRegion(s, ptr, bytes, id), floating + {TakenRecord(s)})
  {
    var t, k := AddRegion(s, ptr, bytes, id), TakenRecord(s);
    RecordIsUnused(s);
    if s.freeSeq != [] {
      assert UnusedOk(s, 0);
    }
    TakingKeepsFreeListed(s, t);
    AddKeepsTiled(s, t, k, ptr, bytes, id);
    AddKeepsBinned(s, t, k, floating);
  }

  lemma AddKeepsBlocks(s: Core, ptr: nat, bytes: nat, id: int)
    requires AddPre(s, ptr, bytes) && ptr !in s.blocks
    ensures BlocksOk(s.blocks[ptr := Block(bytes, id)])
  {
    var blocks := s.blocks[ptr := Block(bytes, id)];
    forall b | b in blocks
      ensures BlockOk(blocks, b)
    {
      assert b != ptr ==> BlockOk(s.blocks, b);
    }
    forall b: nat, c: nat
      ensures InOrder(blocks, b, c)
    {
      assert InOrder(s.blocks, b, c);
      assert b in s.blocks ==> BlockOk(s.blocks, b) && Disjoint(ptr, bytes, b, s.blocks[b].size);
      assert c in s.blocks ==> Disjoint(ptr, bytes, c, s.blocks[c].size);
    }
  }

  /** Record `k` describes the whole new region at `ptr`; nothing else changed. */
  ghost predicate IsAdd(s: Core, t: Core, k: Handle, ptr: nat, bytes: nat, id: int) {
    && k !in s.home && t.home == s.home[k := ptr] && t.blocks == s.blocks[ptr := Block(bytes, id)]
    && t.index == s.index[ptr := k] && |s.chunks| <= |t.chunks| && 0 <= k < |t.chunks|
    && (forall x | 0 <= x < |s.chunks| && x != k :: t.chunks[x] == s.chunks[x])
    && t.chunks[k].ptr == ptr && t.chunks[k].size == bytes
    && t.chunks[k].prev == INVALID && t.chunks[k].next == INVALID
  }

  lemma AddLive(s: Core, t: Core, k: Handle, ptr: nat, bytes: nat, id: int, x: Handle)
    requires AddPre(s, ptr, bytes) && ptr !in s.blocks && ptr !in s.index && IsAdd(s, t, k, ptr, bytes, id)
    requires x in t.home
    ensures LiveOk(t, x)
  {
    if x == k {
      assert Placed(t, k);
    } else {
      assert LiveOk(s, x);
    }
  }

  lemma AddKeepsTiled(s: Core, t: Core, k: Handle, ptr: nat, bytes: nat, id: int)
    requires AddPre(s, ptr, bytes) && ptr !in s.blocks && IsAdd(s, t, k, ptr, bytes, id)
    ensures Tiled(t)
  {
    if ptr in s.index {
      NothingThere(s, ptr, bytes, ptr);
    }
    AddKeepsBlocks(s, ptr, bytes, id);
    forall x | x in t.home
      ensures LiveOk(t, x)
    {
      AddLive(s, t, k, ptr, bytes, id, x);
    }
    forall a | a in t.index
      ensures Indexed(t, a)
    {
      if a != ptr {
        assert Indexed(s, a);
      }
      AddLive(s, t, k, ptr, bytes, id, t.index[a]);
    }
    forall b | b in t.blocks
      ensures HasStart(t, b)
    {
      if b != ptr {
        assert HasStart(s, b);
      }
    }
  }

  lemma AddKeepsBinned(s: Core, t: Core, k: Handle, floating: set<Handle>)
    requires Binned(s, floating) && k !in s.home && FreeListed(s)
    requires t.home.Keys == s.home.Keys + {k} && t.bins == s.bins
    requires |s.chunks| <= |t.chunks| && 0 <= k < |t.chunks|
    requires forall x | 0 <= x < |s.chunks| && x != k :: t.chunks[x] == s.chunks[x]
    requires !t.chunks[k].InUse() && t.chunks[k].binNum == INVALID
    ensures Binned(t, floating + {k})
  {
    forall x | x in t.home
      ensures BinOk(t, floating + {k}, x)
    {
      if x != k {
        assert BinOk(s, floating, x);
      }
    }
    forall b: nat, x
      ensures InBinOk(t, floating + {k}, b, x)
    {
      assert InBinOk(s, floating, b, x);
    }
  }

  lemma SplitInsideBlock(s: Core, h: Handle, bytes: nat)
    requires SplitPre(s, h, bytes)
    ensures var b, p := s.home[h], s.chunks[h].ptr + bytes;
      b in s.blocks && b <= p < b + s.blocks[b].size && (p - b) % 256 == 0
  {
    assert Placed(s, h);
    var b := s.home[h];
    SplitOnGrid(b, b + s.blocks[b].size, s.chunks[h].ptr, s.chunks[h].size, bytes);
  }

  lemma SplitOk(s: Core, h: Handle, bytes: nat)
    requires SplitPre(s, h, bytes) && CoreOk(s, {h})
    requires forall i | 0 <= i < |s.freeSeq| :: 0 <= s.freeSeq[i] < |s.chunks|
    ensures IsSplit(s, Split(s, h, bytes), h, TakenRecord(s), bytes)
    ensures CoreOk(Split(s, h, bytes), {h, TakenRecord(s)})
    ensures Split(s, h, bytes).chunks[TakenRecord(s)].binNum == INVALID
  {
    var k := TakenRecord(s);
    SplitRecords(s, h, bytes);
    SplitKeepsFreeListed(s, h, bytes);
    SplitKeepsTiled(s, Split(s, h, bytes), h, k, bytes);
    SplitKeepsBinned(s, Split(s, h, bytes), h, k, bytes, {h});
    assert {h} + {k} == {h, k};
  }

  /** What splitting `h` needs of the records, the index and the unused list. */
  ghost predicate SplitReady(s: Core, h: Handle, bytes: nat) {
    && 0 <= h < |s.chunks| && h in s.home && bytes <= s.chunks[h].size
    && !s.chunks[h].InUse() && s.chunks[h].binNum == INVALID
    && (s.chunks[h].next == INVALID || 0 <= s.chunks[h].next < |s.chunks|)
    && TakenRecord(s) != h && TakenRecord(s) != s.chunks[h].next
    && 0 <= TakenRecord(s) < |TakeRecord(s).chunks|
    && !TakeRecord(s).chunks[TakenRecord(s)].InUse() && TakeRecord(s).chunks[TakenRecord(s)].binNum == INVALID
    && (forall i | 0 <= i < |s.freeSeq| :: 0 <= s.freeSeq[i] < |s.chunks|)
    && s.home[h] in s.blocks
    && var b, p := s.home[h], s.chunks[h].ptr + bytes;
       b <= p < b + s.blocks[b].size && (p - b) % 256 == 0
  }

  lemma ReadyToSplit(s: Core, h: Handle, bytes: nat)
    requires SplitPre(s, h, bytes) && CoreOk(s, {h}) && !s.chunks[h].InUse()
    ensures SplitReady(s, h, bytes)
    ensures s.freeSeq != [] ==> UnusedOk(s, 0)
  {
    RecordIsUnused(s);
    SplitInsideBlock(s, h, bytes);
    assert LiveOk(s, h) && BinOk(s, {h}, h);
    assert s.freeSeq != [] ==> UnusedOk(s, 0);
  }

  ghost predicate MergeReady(s: Core, h1: Handle, h2: Handle) {
    && 0 <= h1 < |s.chunks| && 0 <= h2 < |s.chunks| && h1 != h2
    && Mergeable(s.chunks[h1], s.chunks[h2]) && s.chunks[h2].prev == h1
    && (s.chunks[h2].next == INVALID || 0 <= s.chunks[h2].next < |s.chunks|)
    && s.chunks[h2].next != h1 && s.chunks[h2].next != h2
    && s.chunks[h2].ptr in s.index
  }

  lemma ReadyToMerge(s: Core, h1: Handle, h2: Handle, g: Handle)
    requires h1 in s.home && h2 in s.home && h1 != h2 && (g == h1 || g == h2)
    requires CoreOk(s, {if g == h1 then h2 else h1})
    requires 0 <= h1 < |s.chunks| && 0 <= h2 < |s.chunks|
    requires s.chunks[h1].next == h2 && Mergeable(s.chunks[h1], s.chunks[h2])
    ensures 0 <= s.chunks[g].binNum < 21 == |s.bins| && g in s.bins[s.chunks[g].binNum]
    ensures MergeReady(WithoutBin(s, g), h1, h2)
  {
    var f := if g == h1 then h2 else h1;
    WithoutBinOk(s, g, {f});
    assert LiveOk(s, h1) && LiveOk(s, h2);
    if s.chunks[h2].next != INVALID {
      assert LiveOk(s, s.chunks[h2].next);
    }
  }
}
