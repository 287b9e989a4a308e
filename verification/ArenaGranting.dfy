/** Giving a free chunk to a caller: out of its bin, cut to size, marked in use, and assigned to a stream. */
module ArenaGranting {
  import opened Options
  import opened ArenaTypes
  import opened ArenaCore
  import opened ArenaSteps
  import opened ArenaTiling
  import opened ArenaOwnership

  predicate WorthSplitting(size: nat, rounded: nat, maxDead: nat)
    requires rounded <= size
  {
    size >= rounded * 2 || size - rounded >= maxDead
  }

  /** The free chunk `h` out of its bin and cut to `rounded` bytes when it is worth it. */
  function Cut(s: Core, h: Handle, rounded: nat, maxDead: nat): Core
    requires 0 <= h < |s.chunks| && h in s.home && rounded <= s.chunks[h].size
    requires forall i | 0 <= i < |s.freeSeq| :: 0 <= s.freeSeq[i] < |s.chunks|
    requires |s.bins| == 21 && 0 <= TakenRecord(s) && TakenRecord(s) !in s.home
  {
    var t := WithoutBin(s, h);
    if WorthSplitting(s.chunks[h].size, rounded, maxDead)
    then WithBin(Split(t, h, rounded), TakenRecord(t)) else t
  }

  function Marked(c: Chunk, numBytes: nat, id: int): Chunk {
    c.(requestedSize := numBytes, allocationId := id)
  }

  function Assigned(c: Chunk, stream: Stream, syncId: nat): Chunk {
    if stream == NULL_STREAM then c else c.(stream := stream, streamSyncId := syncId)
  }

  function Hand(s: Core, h: Handle, numBytes: nat, id: int, stream: Stream, syncId: nat): Core
    requires 0 <= h < |s.chunks|
  {
    s.(chunks := s.chunks[h := Assigned(Marked(s.chunks[h], numBytes, id), stream, syncId)])
  }

  lemma HandThenAssign(s: Core, h: Handle, numBytes: nat, id: int, stream: Stream, syncId: nat)
    requires 0 <= h < |s.chunks|
    ensures var m := Hand(s, h, numBytes, id, NULL_STREAM, 0);
      |m.chunks| == |s.chunks| &&
      m.(chunks := m.chunks[h := Assigned(m.chunks[h], stream, syncId)]) == Hand(s, h, numBytes, id, stream, syncId)
  {
  }

  ghost predicate CutPre(s: Core, h: Handle, rounded: nat, maxDead: nat) {
    && CoreOk(s, {}) && NoAdjacentFree(s)
    && h in s.home && 0 <= h < |s.chunks| && !s.chunks[h].InUse()
    && 0 < rounded <= s.chunks[h].size && rounded % 256 == 0 && 0 < maxDead
    && (forall i | 0 <= i < |s.freeSeq| :: 0 <= s.freeSeq[i] < |s.chunks|)
    && 0 <= TakenRecord(s) && TakenRecord(s) !in s.home
  }

  lemma CutIsReady(s: Core, h: Handle, rounded: nat, maxDead: nat)
    requires CutPre(s, h, rounded, maxDead)
    ensures 0 <= s.chunks[h].binNum < 21 == |s.bins| && h in s.bins[s.chunks[h].binNum]
    ensures WithoutBin(s, h).chunks[h].binNum == INVALID
    ensures CoreOk(WithoutBin(s, h), {h}) && SameButBins(s, WithoutBin(s, h))
    ensures WorthSplitting(s.chunks[h].size, rounded, maxDead) ==>
              && SplitPre(WithoutBin(s, h), h, rounded) && SplitReady(WithoutBin(s, h), h, rounded)
              && (s.freeSeq != [] ==> UnusedOk(WithoutBin(s, h), 0))
    ensures NoAdjacentFree(WithoutBin(s, h))
  {
    WithoutBinOk(s, h, {});
    assert {} + {h} == {h};
    var t := WithoutBin(s, h);
    BinsHaveNoSay(s, t, map[]);
    forall x
      ensures Settled(t, x)
    {
      assert Settled(s, x);
    }
    if WorthSplitting(s.chunks[h].size, rounded, maxDead) {
      assert LiveOk(t, h);
      ReadyToSplit(t, h, rounded);
    }
  }

  lemma CutSize(s: Core, h: Handle, rounded: nat, maxDead: nat)
    requires CutPre(s, h, rounded, maxDead)
    ensures |s.bins| == 21 && |s.chunks| <= |Cut(s, h, rounded, maxDead).chunks|
    ensures Cut(s, h, rounded, maxDead).chunks[h].stream == s.chunks[h].stream
  {
    CutIsReady(s, h, rounded, maxDead);
  }

  /** Cutting leaves every other chunk as it was; the pieces of `h` are settled once `h` is in use. */
  lemma CutOk(s: Core, h: Handle, rounded: nat, maxDead: nat, tags: map<nat, Tag>)
    requires CutPre(s, h, rounded, maxDead) && Tagged(s, tags)
    ensures |s.bins| == 21
    ensures var t := Cut(s, h, rounded, maxDead);
      && CoreOk(t, {h}) && SameGrants(s, t) && Tagged(t, tags) && SumUse(t.chunks) == SumUse(s.chunks)
      && t.blocks == s.blocks && h in t.home && |s.chunks| <= |t.chunks|
      && t.chunks[h].binNum == INVALID && t.chunks[h].ptr == s.chunks[h].ptr && !t.chunks[h].InUse()
      && rounded <= t.chunks[h].size <= s.chunks[h].size
      && t.chunks[h].stream == s.chunks[h].stream && t.chunks[h].streamSyncId == s.chunks[h].streamSyncId
  {
    CutIsReady(s, h, rounded, maxDead);
    var u := WithoutBin(s, h);
    BinsHaveNoSay(s, u, tags);
    if WorthSplitting(s.chunks[h].size, rounded, maxDead) {
      var k := TakenRecord(u);
      var v := Split(u, h, rounded);
      SplitOk(u, h, rounded);
      SplitKeepsGrants(u, v, h, k, rounded);
      SplitKeepsTagged(u, v, h, k, rounded, tags);
      SplitKeepsUse(u, v, h, k, rounded);
      WithBinOk(v, k, {h, k});
      assert {h, k} - {k} == {h};
      BinsHaveNoSay(v, WithBin(v, k), tags);
    }
  }

  lemma CutSettles(s: Core, h: Handle, rounded: nat, maxDead: nat, u: Core)
    requires CutPre(s, h, rounded, maxDead) && |s.bins| == 21
    requires OnlyChunk(Cut(s, h, rounded, maxDead), u, h) && u.chunks[h].InUse()
    ensures NoAdjacentFree(u)
  {
    CutIsReady(s, h, rounded, maxDead);
    var t := WithoutBin(s, h);
    if WorthSplitting(s.chunks[h].size, rounded, maxDead) {
      SplitOk(t, h, rounded);
      SplitStaysSettled(t, Split(t, h, rounded), u, h, TakenRecord(t), rounded);
    } else {
      HandoverSettled(t, u, h);
    }
  }

  /** What handing out chunk `h` does: one new grant of at least the requested size, and nothing else. */
  ghost predicate Handed(s: Core, t: Core, h: Handle, numBytes: nat, id: int, stream: Stream, syncId: nat) {
    && 0 <= h < |s.chunks| && 0 <= h < |t.chunks| && t.blocks == s.blocks
    && var c := t.chunks[h];
       && c.ptr == s.chunks[h].ptr && numBytes <= c.size
       && h in t.home && h in s.home
       && GrantAt(s, c.ptr) == None
       && GrantAt(t, c.ptr) == Some(Grant(c.size, numBytes, id, c.stream, c.streamSyncId))
       && (forall p: nat | p != c.ptr :: GrantAt(t, p) == GrantAt(s, p))
       && (stream != NULL_STREAM ==> c.stream == stream && c.streamSyncId == syncId)
       && SumUse(t.chunks) == SumUse(s.chunks) + c.size
       && c.size <= s.chunks[h].size
  }

  /** The grant at `p` is cut from a free chunk that began there. It is smaller than two requests and wastes less than
      `maxDead`. A chunk of two requests or more, or one that leaves `maxDead` or more, gives exactly the request, and
      the rest stays free behind it; any other is given as a whole. No other free chunk changes. */
  ghost predicate IsCutToFit(s: Core, t: Core, p: nat, whole: FreeChunk, rounded: nat, maxDead: nat) {
    && GrantAt(t, p).Some? && FreeAt(t, p).None?
    && var n := GrantAt(t, p).value.size;
       && rounded <= n < 2 * rounded && n - rounded < maxDead
       && (if 2 * rounded <= whole.size || maxDead <= whole.size - rounded
           then n == rounded && FreeAt(t, p + rounded) == Some(whole.(size := whole.size - rounded))
           else n == whole.size && FreeAt(t, p + n) == FreeAt(s, p + n))
       && forall a: nat {:trigger FreeAt(t, a)} | a != p && a != p + n :: FreeAt(t, a) == FreeAt(s, a)
  }

  /** The same of a chunk that was free before. */
  ghost predicate IsCutFrom(s: Core, t: Core, p: nat, rounded: nat, maxDead: nat) {
    FreeAt(s, p).Some? && IsCutToFit(s, t, p, FreeAt(s, p).value, rounded, maxDead)
  }

  lemma HandedToFit(s: Core, h: Handle, rounded: nat, maxDead: nat, numBytes: nat, id: int, stream: Stream, syncId: nat)
    requires CutPre(s, h, rounded, maxDead) && |s.bins| == 21 && id != -1
    ensures 0 <= h < |Cut(s, h, rounded, maxDead).chunks|
    ensures IsCutFrom(s, Hand(Cut(s, h, rounded, maxDead), h, numBytes, id, stream, syncId), s.chunks[h].ptr, rounded,
                      maxDead)
  {
    CutIsFree(s, h, rounded, maxDead);
    HandedTakes(s, h, rounded, maxDead, numBytes, id, stream, syncId);
    var u, c := Cut(s, h, rounded, maxDead), s.chunks[h];
    CutFits(s, u, Hand(u, h, numBytes, id, stream, syncId), c.ptr, u.chunks[h].size, FreeOf(c), rounded, maxDead);
  }

  lemma HandedTakes(s: Core, h: Handle, rounded: nat, maxDead: nat, numBytes: nat, id: int, stream: Stream, syncId: nat)
    requires CutPre(s, h, rounded, maxDead) && |s.bins| == 21 && id != -1
    ensures 0 <= h < |Cut(s, h, rounded, maxDead).chunks|
    ensures var u := Cut(s, h, rounded, maxDead);
      var t, p := Hand(u, h, numBytes, id, stream, syncId), s.chunks[h].ptr;
      && SameFreeBut(u, t, p) && FreeAt(t, p).None?
      && GrantAt(t, p).Some? && GrantAt(t, p).value.size == u.chunks[h].size
  {
    NothingTagged(s);
    CutOk(s, h, rounded, maxDead, map[]);
    var u := Cut(s, h, rounded, maxDead);
    HandedLeavesFree(u, Hand(u, h, numBytes, id, stream, syncId), h);
    assert LiveOk(u, h);
  }

  lemma CutFits(s: Core, u: Core, t: Core, p: nat, n: nat, whole: FreeChunk, rounded: nat, maxDead: nat)
    requires FreeAt(s, p) == Some(whole) && 0 < rounded <= whole.size && 0 < maxDead
    requires n == if 2 * rounded <= whole.size || maxDead <= whole.size - rounded then rounded else whole.size
    requires n < whole.size ==> FreeAt(u, p + rounded) == Some(whole.(size := whole.size - rounded))
    requires forall a: nat | a != p && (a != p + rounded || n == whole.size) :: FreeAt(u, a) == FreeAt(s, a)
    requires SameFreeBut(u, t, p) && FreeAt(t, p).None? && GrantAt(t, p).Some? && GrantAt(t, p).value.size == n
    ensures IsCutFrom(s, t, p, rounded, maxDead)
  {
  }

  lemma NothingTagged(s: Core)
    requires Tiled(s)
    ensures Tagged(s, map[])
  {
    forall h | h in s.home
      ensures Owns(s, map[], h)
    {
      assert LiveOk(s, h);
    }
  }

  lemma CutIsFree(s: Core, h: Handle, rounded: nat, maxDead: nat)
    requires CutPre(s, h, rounded, maxDead) && |s.bins| == 21
    ensures var t, c := Cut(s, h, rounded, maxDead), s.chunks[h];
      && 0 <= h < |t.chunks| && FreeAt(s, c.ptr) == Some(FreeOf(c))
      && t.chunks[h].size == (if 2 * rounded <= c.size || maxDead <= c.size - rounded then rounded else c.size)
      && (t.chunks[h].size < c.size ==> FreeAt(t, c.ptr + rounded) == Some(FreeOf(c).(size := c.size - rounded)))
      && forall a: nat | a != c.ptr && (a != c.ptr + rounded || t.chunks[h].size == c.size) :: FreeAt(t, a) == FreeAt(s, a)
  {
    CutIsReady(s, h, rounded, maxDead);
    assert LiveOk(s, h);
    var u := WithoutBin(s, h);
    if WorthSplitting(s.chunks[h].size, rounded, maxDead) {
      var v, k := Split(u, h, rounded), TakenRecord(u);
      SplitOk(u, h, rounded);
      PartsAreFree(s, u, v, h, k, rounded);
      BinningLeavesFree(v, k);
    }
  }

  lemma BinningLeavesFree(s: Core, h: Handle)
    requires 0 <= h < |s.chunks| && |s.bins| == 21
    ensures forall a: nat :: FreeAt(WithBin(s, h), a) == FreeAt(s, a)
  {
  }

  /** Marking a chunk as given takes it from the free ones. */
  lemma HandedLeavesFree(s: Core, t: Core, h: Handle)
    requires Tiled(s) && h in s.home && 0 <= h < |s.chunks| == |t.chunks| && t == s.(chunks := t.chunks)
    requires t.chunks[h].InUse() && forall x | 0 <= x < |s.chunks| && x != h :: t.chunks[x] == s.chunks[x]
    ensures FreeAt(t, s.chunks[h].ptr).None?
    ensures SameFreeBut(s, t, s.chunks[h].ptr)
  {
    assert LiveOk(s, h);
    forall a: nat | a != s.chunks[h].ptr
      ensures FreeAt(t, a) == FreeAt(s, a)
    {
      assert a in s.index ==> Indexed(s, a);
    }
  }

  lemma PartsAreFree(s: Core, u: Core, v: Core, h: Handle, k: Handle, rounded: nat)
    requires Tiled(s) && h in s.home && 0 <= h < |s.chunks| && !s.chunks[h].InUse() && SameButBins(s, u) && h in u.home
    requires 0 <= h < |u.chunks| && IsSplit(u, v, h, k, rounded) && 0 < rounded
    ensures var c := s.chunks[h];
      && FreeAt(v, c.ptr + rounded) == Some(FreeOf(c).(size := c.size - rounded))
      && forall a: nat | a != c.ptr && a != c.ptr + rounded :: FreeAt(v, a) == FreeAt(s, a)
  {
    assert LiveOk(s, h);
    forall a: nat | a != s.chunks[h].ptr && a != s.chunks[h].ptr + rounded
      ensures FreeAt(v, a) == FreeAt(s, a)
    {
      assert a in s.index ==> Indexed(s, a);
    }
  }

  ghost function TagsAfter(tags: map<nat, Tag>, c: Chunk, stream: Stream, syncId: nat): map<nat, Tag> {
    if stream == NULL_STREAM then tags else Retag(tags, c, Tag(stream, syncId))
  }

  lemma HandOk(s: Core, h: Handle, rounded: nat, maxDead: nat, tags: map<nat, Tag>, numBytes: nat, id: int,
               stream: Stream, syncId: nat)
    requires CutPre(s, h, rounded, maxDead) && Tagged(s, tags) && |s.bins| == 21
    requires numBytes <= rounded && id != -1
    ensures 0 <= h < |Cut(s, h, rounded, maxDead).chunks|
    ensures var t := Hand(Cut(s, h, rounded, maxDead), h, numBytes, id, stream, syncId);
      && CoreOk(t, {}) && NoAdjacentFree(t) && Handed(s, t, h, numBytes, id, stream, syncId)
      && Tagged(t, TagsAfter(tags, t.chunks[h], stream, syncId))
  {
    CutOk(s, h, rounded, maxDead, tags);
    var u := Cut(s, h, rounded, maxDead);
    var t := Hand(u, h, numBytes, id, stream, syncId);
    assert OnlyChunk(u, t, h);
    HandoverOk(u, t, h, {h}, {});
    HandoverGrants(u, t, h);
    SumUseUpdate(u.chunks, h, t.chunks[h]);
    CutSettles(s, h, rounded, maxDead, t);
    if stream == NULL_STREAM {
      SameStreamTagged(u, t, h, tags);
    } else {
      HandoverTagged(u, t, h, tags);
    }
    assert LiveOk(s, h);
  }

  // ---- Freeing -------------------------------------------------------------------------------------------------

  function Unmarked(c: Chunk): Chunk {
    c.(allocationId := -1)
  }

  function Returned(s: Core, h: Handle): Core
    requires 0 <= h < |s.chunks|
  {
    s.(chunks := s.chunks[h := Unmarked(s.chunks[h])])
  }

  lemma ReturnOk(s: Core, h: Handle, tags: map<nat, Tag>)
    requires CoreOk(s, {}) && NoAdjacentFree(s) && Tagged(s, tags)
    requires h in s.home && 0 <= h < |s.chunks| && s.chunks[h].InUse()
    ensures s.chunks[h].binNum == INVALID
    ensures var t := Returned(s, h);
      && CoreOk(t, {h}) && Tagged(t, tags) && SumUse(t.chunks) == SumUse(s.chunks) - s.chunks[h].size
      && GrantAt(t, s.chunks[h].ptr) == None && t.blocks == s.blocks
      && (forall p: nat | p != s.chunks[h].ptr :: GrantAt(t, p) == GrantAt(s, p))
      && (forall x | x != h && x != s.chunks[h].prev :: Settled(t, x))
  {
    var t := Returned(s, h);
    assert BinOk(s, {}, h);
    assert OnlyChunk(s, t, h);
    HandoverOk(s, t, h, {}, {h});
    HandoverGrants(s, t, h);
    SumUseUpdate(s.chunks, h, t.chunks[h]);
    SameStreamTagged(s, t, h, tags);
    assert LiveOk(s, h);
    forall x | x != h && x != s.chunks[h].prev
      ensures Settled(t, x)
    {
      assert Settled(s, x);
      if x in s.home {
        assert LiveOk(s, x);
      }
    }
  }

  lemma ReturnFrees(s: Core, h: Handle)
    requires h in s.home && 0 <= h < |s.chunks| && s.chunks[h].InUse()
    ensures FreesBytes(s, Returned(s, h), s.chunks[h].ptr, GrantOf(s.chunks[h]))
  {
    var t := Returned(s, h);
    forall a: nat, stream: Stream
      ensures IsFreeFor(t, a, stream) <==>
              IsFreeFor(s, a, stream) || (s.chunks[h].ptr <= a < s.chunks[h].End() && stream == s.chunks[h].stream)
    {
      if IsFreeFor(t, a, stream) {
        var x :| IsFreePart(t, x, a, stream);
        assert x != h ==> IsFreePart(s, x, a, stream);
      }
      if IsFreeFor(s, a, stream) {
        var x :| IsFreePart(s, x, a, stream);
        assert IsFreePart(t, x, a, stream);
      } else if s.chunks[h].ptr <= a < s.chunks[h].End() && stream == s.chunks[h].stream {
        assert IsFreePart(t, h, a, stream);
      }
    }
  }
}
