/** Coalescing a free chunk with its neighbours, and what it leaves behind. */
module ArenaCoalescing {
  import opened Hiding
  import opened ArenaTypes
  import opened ArenaCore
  import opened ArenaSteps
  import opened ArenaOwnership

  /** What coalescing preserves, whichever neighbours it takes in. */
  ghost predicate Preserves(s: Core, t: Core, tags: map<nat, Tag>) {
    && SameGrants(s, t) && t.blocks == s.blocks && SumUse(t.chunks) == SumUse(s.chunks)
    && (Tagged(s, tags) ==> Tagged(t, tags)) && SameFreeBytes(s, t)
    && (forall x {:trigger KeepsPlace(s, t, x)} | x in t.home :: KeepsPlace(s, t, x))
    && SyncsAreOld(s, t)
  }

  ghost predicate SyncFacts(s: Core, t: Core, u: Unfolding) {
    forall x | x in t.home :: TakesSync(s, t, x)
  }

  ghost predicate SyncsAreOld(s: Core, t: Core) {
    forall u {:trigger SyncFacts(s, t, u)} :: SyncFacts(s, t, u)
  }

  /** The sync id of a chunk is that of one of the chunks it consists of. */
  ghost predicate TakesSync(s: Core, t: Core, x: Handle) {
    exists y :: HoldsSync(s, t, x, y)
  }

  ghost predicate HoldsSync(s: Core, t: Core, x: Handle, y: Handle) {
    && 0 <= x < |t.chunks| && y in s.home && 0 <= y < |s.chunks|
    && t.chunks[x].ptr <= s.chunks[y].ptr && s.chunks[y].End() <= t.chunks[x].End()
    && t.chunks[x].streamSyncId == s.chunks[y].streamSyncId
  }

  ghost predicate KeepsPlace(s: Core, t: Core, x: Handle) {
    && x in s.home && x in t.home && t.home[x] == s.home[x]
    && 0 <= x < |s.chunks| && 0 <= x < |t.chunks| && t.chunks[x].ptr == s.chunks[x].ptr
  }

  lemma LiveNeighbours(s: Core, h: Handle)
    requires Tiled(s) && h in s.home
    ensures LiveOk(s, h) && 0 <= h < |s.chunks|
    ensures MergesNext(s, h) ==> s.chunks[h].next in s.home && s.chunks[h].next != h
    ensures MergesPrev(s, h) ==> s.chunks[h].prev in s.home && s.chunks[h].prev != h
    ensures s.chunks[h].next != INVALID ==> 0 <= s.chunks[h].next < |s.chunks| && s.chunks[h].next in s.home
    ensures s.chunks[h].prev != INVALID ==> 0 <= s.chunks[h].prev < |s.chunks| && s.chunks[h].prev in s.home
  {
    assert LiveOk(s, h);
  }

  lemma UnbinForMerge(s: Core, h1: Handle, h2: Handle, g: Handle, tags: map<nat, Tag>)
    requires h1 in s.home && h2 in s.home && g in s.home && h1 != h2
    requires {g, if g == h1 then h2 else h1} == {h1, h2}
    requires CoreOk(s, {if g == h1 then h2 else h1})
    requires 0 <= h1 < |s.chunks| && 0 <= h2 < |s.chunks|
    requires s.chunks[h1].next == h2 && Mergeable(s.chunks[h1], s.chunks[h2])
    ensures CoreOk(WithoutBin(s, g), {h1, h2})
    ensures MergePre(WithoutBin(s, g), h1, h2)
    ensures Preserves(s, WithoutBin(s, g), tags) && SameButBins(s, WithoutBin(s, g))
    ensures WithoutBin(s, g).chunks[h2].binNum == INVALID && WithoutBin(s, g).chunks[h1].binNum == INVALID
    ensures forall x | Settled(s, x) :: Settled(WithoutBin(s, g), x)
  {
    var f := if g == h1 then h2 else h1;
    WithoutBinOk(s, g, {f});
    assert {f} + {g} == {h1, h2};
    BinsHaveNoSay(s, WithoutBin(s, g), tags);
    BinsKeepPlaces(s, WithoutBin(s, g));
    assert LiveOk(WithoutBin(s, g), h1) && LiveOk(WithoutBin(s, g), h2);
    assert BinOk(WithoutBin(s, g), {h1, h2}, h1) && BinOk(WithoutBin(s, g), {h1, h2}, h2);
  }

  lemma MergeOk(s: Core, h1: Handle, h2: Handle, tags: map<nat, Tag>)
    requires CoreOk(s, {h1, h2}) && MergePre(s, h1, h2)
    requires s.chunks[h2].binNum == INVALID
    ensures IsMerge(s, Merge(s, h1, h2), h1, h2)
    ensures CoreOk(Merge(s, h1, h2), {h1}) && Preserves(s, Merge(s, h1, h2), tags)
  {
    var t := Merge(s, h1, h2);
    MergeRecords(s, h1, h2);
    MergeKeepsTiled(s, t, h1, h2);
    MergeKeepsBinned(s, t, h1, h2, {h1, h2});
    assert {h1, h2} - {h2} == {h1};
    MergeKeepsFreeListed(s, t, h1, h2);
    MergeKeepsGrants(s, t, h1, h2);
    MergeKeepsUse(s, t, h1, h2);
    MergeKeepsFree(s, t, h1, h2);
    forall x | x in t.home
      ensures KeepsPlace(s, t, x)
    {
      assert LiveOk(s, x);
    }
    if Tagged(s, tags) {
      MergeKeepsTagged(s, t, h1, h2, tags);
    }
    MergeTakesSync(s, t, h1, h2);
  }

  lemma MergeTakesSync(s: Core, t: Core, h1: Handle, h2: Handle)
    requires MergePre(s, h1, h2) && IsMerge(s, t, h1, h2)
    ensures SyncsAreOld(s, t)
  {
    forall x | x in t.home
      ensures TakesSync(s, t, x)
    {
      assert LiveOk(s, x) && LiveOk(s, h2);
      var y := if x == h1 && t.chunks[x].streamSyncId != s.chunks[h1].streamSyncId then h2 else x;
      assert HoldsSync(s, t, x, y);
    }
  }

  lemma BinsKeepPlaces(s: Core, t: Core)
    requires Tiled(s) && SameButBins(s, t)
    ensures (forall x | x in t.home :: KeepsPlace(s, t, x)) && SameFreeBytes(s, t)
    ensures SyncsAreOld(s, t)
  {
    BinsKeepFree(s, t);
    forall x | x in t.home
      ensures KeepsPlace(s, t, x)
    {
      assert LiveOk(s, x);
    }
    BinsKeepSyncs(s, t);
  }

  lemma BinsKeepSyncs(s: Core, t: Core)
    requires Tiled(s) && SameButBins(s, t)
    ensures SyncsAreOld(s, t)
  {
    forall x | x in t.home
      ensures TakesSync(s, t, x)
    {
      assert LiveOk(s, x);
      assert HoldsSync(s, t, x, x);
    }
  }

  lemma PreservesSelf(s: Core, tags: map<nat, Tag>)
    requires Tiled(s)
    ensures Preserves(s, s, tags)
  {
    BinsKeepPlaces(s, s);
  }

  ghost predicate Floats(s: Core, h: Handle) {
    CoreOk(s, {h}) && h in s.home && 0 <= h < |s.chunks| && !s.chunks[h].InUse()
  }

  lemma CoalesceNextOk(s: Core, h: Handle, tags: map<nat, Tag>)
    requires Floats(s, h)
    ensures Floats(CoalesceNext(s, h), h) && Preserves(s, CoalesceNext(s, h), tags)
    ensures SameHead(s, CoalesceNext(s, h), h)
    ensures forall x | x != h && Settled(s, x) :: Settled(CoalesceNext(s, h), x)
    ensures Settled(s, s.chunks[h].next) ==> Settled(CoalesceNext(s, h), h)
  {
    LiveNeighbours(s, h);
    PreservesSelf(s, tags);
    if MergesNext(s, h) {
      var n := s.chunks[h].next;
      UnbinForMerge(s, h, n, n, tags);
      var u := WithoutBin(s, n);
      MergeOk(u, h, n, tags);
      var t := Merge(u, h, n);
      PreservesTwice(s, u, t, tags);
      forall x | Settled(s, if x == h then n else x)
        ensures Settled(t, x)
      {
        MergeKeepsSettled(u, t, h, n, x);
      }
    }
  }

  /** The chunk still starts where it did and belongs to the same stream. */
  ghost predicate SameHead(s: Core, t: Core, h: Handle) {
    && 0 <= h < |s.chunks| && 0 <= h < |t.chunks| && h in s.home && h in t.home
    && t.chunks[h].ptr == s.chunks[h].ptr && t.chunks[h].prev == s.chunks[h].prev
    && t.chunks[h].stream == s.chunks[h].stream && t.chunks[h].size >= s.chunks[h].size
    && t.home[h] == s.home[h]
  }

  lemma CoalescePrevOk(s: Core, h: Handle, tags: map<nat, Tag>)
    requires Floats(s, h)
    ensures var (t, r) := CoalescePrev(s, h);
      && Floats(t, r) && Preserves(s, t, tags)
      && (Settled(s, h) ==> Settled(t, r))
      && (forall x | x != h && x != s.chunks[h].prev && Settled(s, x) :: Settled(t, x))
      && (s.chunks[h].prev != r ==> Settled(t, s.chunks[h].prev))
  {
    LiveNeighbours(s, h);
    PreservesSelf(s, tags);
    var p := s.chunks[h].prev;
    if MergesPrev(s, h) {
      LiveNeighbours(s, p);
      UnbinForMerge(s, p, h, p, tags);
      var u := WithoutBin(s, p);
      MergeOk(u, p, h, tags);
      var t := Merge(u, p, h);
      PreservesTwice(s, u, t, tags);
      forall x | Settled(s, if x == p then h else x)
        ensures Settled(t, x)
      {
        MergeKeepsSettled(u, t, p, h, x);
      }
    } else if p in s.home {
      LiveNeighbours(s, p);
    }
  }

  /** Coalesce as the program runs it: the successor first, then the predecessor. */
  function Coalesced(s: Core, h: Handle): (Core, Handle) {
    CoalescePrev(CoalesceNext(s, h), h)
  }

  /** One merge on each side is enough: when only the pairs that `h` is part of could be mergeable, no two adjacent
      free chunks of one stream are left. */
  lemma CoalescedIsSettled(s: Core, h: Handle, tags: map<nat, Tag>)
    requires Floats(s, h)
    ensures Floats(Coalesced(s, h).0, Coalesced(s, h).1) && Preserves(s, Coalesced(s, h).0, tags)
    ensures (forall x | x != h && x != s.chunks[h].prev :: Settled(s, x)) ==> NoAdjacentFree(Coalesced(s, h).0)
  {
    LiveNeighbours(s, h);
    var t := CoalesceNext(s, h);
    CoalesceNextOk(s, h, tags);
    CoalescePrevOk(t, h, tags);
    var (u, r) := CoalescePrev(t, h);
    PreservesTwice(s, t, u, tags);
    if forall x | x != h && x != s.chunks[h].prev :: Settled(s, x) {
      NextIsNotPrev(s, h);
      forall x
        ensures Settled(u, x)
      {
        if x != h && x != s.chunks[h].prev {
          assert Settled(s, x) && Settled(t, x);
        }
        LiveGone(t, h, x);
      }
    }
  }

  /** Nothing is left unmerged: where one free chunk of a region ends and another begins, their streams differ. */
  lemma FreeNeighboursDiffer(s: Core, b: nat, p: nat)
    requires Tiled(s) && NoAdjacentFree(s) && b in s.blocks && b <= p && FreeAt(s, p).Some?
    requires var q := p + FreeAt(s, p).value.size;
      q < b + s.blocks[b].size && FreeAt(s, q).Some?
    ensures FreeAt(s, p + FreeAt(s, p).value.size).value.stream != FreeAt(s, p).value.stream
  {
    var h, q := s.index[p], p + FreeAt(s, p).value.size;
    assert Indexed(s, p) && Indexed(s, q) && LiveOk(s, h) && Settled(s, h);
    assert InOrder(s.blocks, b, s.home[h]) && InOrder(s.blocks, s.home[h], b);
  }

  lemma NextIsNotPrev(s: Core, h: Handle)
    requires Tiled(s) && h in s.home
    ensures LiveOk(s, h) && (s.chunks[h].next != INVALID ==> s.chunks[h].next != s.chunks[h].prev)
  {
    assert LiveOk(s, h);
    if s.chunks[h].prev != INVALID {
      assert LiveOk(s, s.chunks[h].prev);
    }
  }

  lemma LiveGone(t: Core, h: Handle, x: Handle)
    requires Floats(t, h)
    ensures CoalescePrev(t, h).1 != h ==> h !in CoalescePrev(t, h).0.home
  {
    LiveNeighbours(t, h);
  }

  lemma PreservesTwice(s: Core, u: Core, t: Core, tags: map<nat, Tag>)
    requires Preserves(s, u, tags) && Preserves(u, t, tags)
    ensures Preserves(s, t, tags)
  {
    forall x | x in t.home
      ensures KeepsPlace(s, t, x)
    {
      assert KeepsPlace(u, t, x) && KeepsPlace(s, u, x);
    }
    forall p: nat
      ensures GrantAt(t, p) == GrantAt(s, p)
    {
      assert GrantAt(u, p) == GrantAt(s, p);
    }
    SameFreeTwice(s, u, t);
    TakesSyncTwice(s, u, t);
  }

  lemma SameFreeTwice(s: Core, u: Core, t: Core)
    requires SameFreeBytes(s, u) && SameFreeBytes(u, t)
    ensures SameFreeBytes(s, t)
  {
    assert FreeFacts(s, u, Unfolded) && FreeFacts(u, t, Unfolded);
    forall a: nat, stream: Stream
      ensures IsFreeFor(t, a, stream) <==> IsFreeFor(s, a, stream)
    {
      assert IsFreeFor(u, a, stream) <==> IsFreeFor(s, a, stream);
    }
  }

  lemma TakesSyncTwice(s: Core, u: Core, t: Core)
    requires SyncsAreOld(s, u) && SyncsAreOld(u, t)
    ensures SyncsAreOld(s, t)
  {
    assert SyncFacts(s, u, Unfolded) && SyncFacts(u, t, Unfolded);
    forall x | x in t.home
      ensures TakesSync(s, t, x)
    {
      var y :| HoldsSync(u, t, x, y);
      var z :| HoldsSync(s, u, y, z);
      assert HoldsSync(s, t, x, z);
    }
  }

  /** Everything that was settled still is, except possibly at `h`. */
  ghost predicate KeepsSettled(s: Core, t: Core, h: Handle) {
    forall x {:trigger Settled(t, x)} | x != h && Settled(s, x) :: Settled(t, x)
  }

  /** Walking to the right, a chunk is only ever merged with its successor: its predecessor is settled already. */
  lemma WalkCoalesces(s: Core, h: Handle, tags: map<nat, Tag>)
    requires Floats(s, h) && !MergesPrev(s, h)
    ensures Coalesced(s, h) == (CoalesceNext(s, h), h)
    ensures Floats(CoalesceNext(s, h), h) && Preserves(s, CoalesceNext(s, h), tags)
    ensures SameHead(s, CoalesceNext(s, h), h) && KeepsSettled(s, CoalesceNext(s, h), h)
    ensures !MergesPrev(CoalesceNext(s, h), h)
    ensures MergesNext(s, h) ==> CoalesceNext(s, h).chunks[h].size > s.chunks[h].size
  {
    CoalesceNextOk(s, h, tags);
    LiveNeighbours(s, h);
    if MergesNext(s, h) {
      assert LiveOk(s, s.chunks[h].next);
      NextIsNotPrev(s, h);
      MergedSize(s, h);
    }
  }

  lemma MergedSize(s: Core, h: Handle)
    requires Floats(s, h) && MergesNext(s, h)
    ensures var t, n := CoalesceNext(s, h), s.chunks[h].next;
      && 0 <= h < |t.chunks| && t.chunks[h].size == s.chunks[h].size + s.chunks[n].size
      && (0 <= s.chunks[h].prev < |s.chunks| && s.chunks[h].prev != h && s.chunks[h].prev != n &&
          s.chunks[h].prev != s.chunks[n].next ==>
            t.chunks[s.chunks[h].prev] == s.chunks[s.chunks[h].prev])
      && (0 <= s.chunks[h].prev < |s.chunks| && s.chunks[h].prev != h && s.chunks[h].prev != n ==>
            t.chunks[s.chunks[h].prev].InUse() == s.chunks[s.chunks[h].prev].InUse() &&
            t.chunks[s.chunks[h].prev].stream == s.chunks[s.chunks[h].prev].stream)
  {
    LiveNeighbours(s, h);
    LiveNeighbours(s, s.chunks[h].next);
  }

  lemma Unbinned(s: Core, h: Handle, tags: map<nat, Tag>)
    requires CoreOk(s, {}) && h in s.home && 0 <= h < |s.chunks| && !s.chunks[h].InUse()
    ensures 0 <= s.chunks[h].binNum < 21 == |s.bins| && h in s.bins[s.chunks[h].binNum]
    ensures Floats(WithoutBin(s, h), h) && Preserves(s, WithoutBin(s, h), tags)
    ensures SameHead(s, WithoutBin(s, h), h) && KeepsSettled(s, WithoutBin(s, h), h)
    ensures MergesPrev(s, h) == MergesPrev(WithoutBin(s, h), h)
  {
    WithoutBinOk(s, h, {});
    assert {} + {h} == {h};
    BinsHaveNoSay(s, WithoutBin(s, h), tags);
    BinsKeepPlaces(s, WithoutBin(s, h));
    assert BinOk(s, {}, h);
    LiveNeighbours(s, h);
  }

  lemma Rebinned(s: Core, h: Handle, tags: map<nat, Tag>)
    requires Floats(s, h) && Settled(s, h)
    ensures |s.bins| == 21 && s.chunks[h].binNum == INVALID
    ensures CoreOk(WithBin(s, h), {}) && Preserves(s, WithBin(s, h), tags)
    ensures SameHead(s, WithBin(s, h), h) && KeepsSettled(s, WithBin(s, h), h) && Settled(WithBin(s, h), h)
  {
    assert BinOk(s, {h}, h);
    WithBinOk(s, h, {h});
    assert {h} - {h} == {};
    BinsHaveNoSay(s, WithBin(s, h), tags);
    BinsKeepPlaces(s, WithBin(s, h));
  }

  /** Out of its bin, settled, and back in a bin: nothing else has become mergeable. */
  lemma SettledAgain(s: Core, u: Core, h: Handle, tags: map<nat, Tag>)
    requires CoreOk(s, {}) && h in s.home && 0 <= h < |s.chunks| && !s.chunks[h].InUse() && |s.bins| == 21
    requires 0 <= s.chunks[h].binNum < 21
    requires Floats(u, h) && Settled(u, h) && Preserves(WithoutBin(s, h), u, tags)
    requires SameHead(WithoutBin(s, h), u, h) && KeepsSettled(WithoutBin(s, h), u, h)
    ensures |u.bins| == 21 && 0 <= h < |u.chunks| && !u.chunks[h].InUse() && u.chunks[h].binNum == INVALID
    ensures CoreOk(WithBin(u, h), {}) && Preserves(s, WithBin(u, h), tags)
    ensures SameHead(s, WithBin(u, h), h) && KeepsSettled(s, WithBin(u, h), h) && Settled(WithBin(u, h), h)
  {
    Unbinned(s, h, tags);
    Rebinned(u, h, tags);
    PreservesTwice(WithoutBin(s, h), u, WithBin(u, h), tags);
    PreservesTwice(s, WithoutBin(s, h), WithBin(u, h), tags);
  }

  /** Every chunk of region `b` below `cursor` is settled. */
  ghost predicate SettledBelow(s: Core, b: nat, cursor: nat) {
    forall x {:trigger Settled(s, x)} | x in s.home && s.home[x] == b && 0 <= x < |s.chunks| &&
                                        s.chunks[x].ptr < cursor :: Settled(s, x)
  }

  lemma PredecessorIsSettled(s: Core, b: nat, h: Handle)
    requires Tiled(s) && h in s.home && s.home[h] == b && 0 <= h < |s.chunks|
    requires SettledBelow(s, b, s.chunks[h].ptr)
    ensures !MergesPrev(s, h)
  {
    LiveNeighbours(s, h);
    if s.chunks[h].prev in s.home {
      LiveNeighbours(s, s.chunks[h].prev);
      assert Settled(s, s.chunks[h].prev);
    }
  }

  /** Once `h` is settled too, everything up to the start of its successor is. */
  lemma WalkOn(s: Core, t: Core, b: nat, h: Handle)
    requires Tiled(s) && Tiled(t) && SameHead(s, t, h) && KeepsSettled(s, t, h) && Settled(t, h)
    requires s.home[h] == b && SettledBelow(s, b, s.chunks[h].ptr)
    requires forall x {:trigger KeepsPlace(s, t, x)} | x in t.home :: KeepsPlace(s, t, x)
    ensures SettledBelow(t, b, t.chunks[h].End())
  {
    forall x | x in t.home && t.home[x] == b && 0 <= x < |t.chunks| && t.chunks[x].ptr < t.chunks[h].End()
      ensures Settled(t, x)
    {
      LiveNeighbours(t, x);
      LiveNeighbours(t, h);
      assert KeepsPlace(s, t, x);
      if x != h {
        NoOverlap(t, h, x);
        assert Settled(s, x);
      }
    }
  }
}
