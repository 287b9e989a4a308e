/** What the steps of ArenaCore do to grants, to stream ownership, to adjacent free chunks and to the bytes in use. */
module ArenaOwnership {
  import opened Options
  import opened Hiding
  import opened ArenaTypes
  import opened ArenaCore
  import opened ArenaSteps

  // ---- Sums ----------------------------------------------------------------------------------------------------

  lemma {:induction false} SumUseSame(a: seq<Chunk>, b: seq<Chunk>)
    requires |a| <= |b|
    requires forall i | 0 <= i < |a| :: Use(a[i]) == Use(b[i])
    requires forall i | |a| <= i < |b| :: Use(b[i]) == 0
    ensures SumUse(a) == SumUse(b)
  {
    if b != [] {
      var b' := b[..|b| - 1];
      if |a| == |b| {
        SumUseSame(a[..|a| - 1], b');
      } else {
        SumUseSame(a, b');
      }
    }
  }

  lemma {:induction false} SumUseUpdate(a: seq<Chunk>, i: nat, c: Chunk)
    requires i < |a|
    ensures SumUse(a[i := c]) == SumUse(a) - Use(a[i]) + Use(c)
    ensures Use(a[i]) <= SumUse(a)
  {
    var b := a[i := c];
    var n := |a| - 1;
    if i == n {
      assert b[..n] == a[..n];
    } else {
      SumUseUpdate(a[..n], i, c);
      assert b[..n] == a[..n][i := c];
    }
  }

  // ---- Bins have no say ----------------------------------------------------------------------------------------

  ghost predicate SameButBins(s: Core, t: Core) {
    && t.home == s.home && t.index == s.index && t.blocks == s.blocks && |t.chunks| == |s.chunks|
    && forall h | 0 <= h < |s.chunks| :: t.chunks[h] == s.chunks[h].(binNum := t.chunks[h].binNum)
  }

  lemma BinsHaveNoSay(s: Core, t: Core, tags: map<nat, Tag>)
    requires SameButBins(s, t)
    ensures SameGrants(s, t)
    ensures Tagged(s, tags) ==> Tagged(t, tags)
    ensures forall h | Settled(s, h) :: Settled(t, h)
    ensures SumUse(t.chunks) == SumUse(s.chunks)
  {
    if Tagged(s, tags) {
      forall h | h in t.home
        ensures Owns(t, tags, h)
      {
        assert Owns(s, tags, h);
      }
    }
    SumUseSame(s.chunks, t.chunks);
  }

  // ---- Splitting -----------------------------------------------------------------------------------------------

  lemma SplitKeepsGrants(s: Core, t: Core, h: Handle, k: Handle, bytes: nat)
    requires SplitPre(s, h, bytes) && IsSplit(s, t, h, k, bytes) && !s.chunks[h].InUse()
    ensures SameGrants(s, t)
  {
    SplitAddressIsNew(s, h, bytes);
    forall p: nat
      ensures GrantAt(t, p) == GrantAt(s, p)
    {
      if p in s.index {
        assert Indexed(s, p) && LiveOk(s, s.index[p]);
      }
    }
  }

  lemma SplitKeepsTagged(s: Core, t: Core, h: Handle, k: Handle, bytes: nat, tags: map<nat, Tag>)
    requires SplitPre(s, h, bytes) && IsSplit(s, t, h, k, bytes) && Tagged(s, tags)
    ensures Tagged(t, tags)
  {
    assert Owns(s, tags, h);
    forall x | x in t.home
      ensures Owns(t, tags, x)
    {
      if x != k {
        assert Owns(s, tags, x);
      }
    }
  }

  lemma SplitKeepsUse(s: Core, t: Core, h: Handle, k: Handle, bytes: nat)
    requires SplitPre(s, h, bytes) && IsSplit(s, t, h, k, bytes) && !s.chunks[h].InUse()
    requires k == TakenRecord(s) && |t.chunks| == |TakeRecord(s).chunks|
    ensures SumUse(t.chunks) == SumUse(s.chunks)
  {
    if s.freeSeq != [] {
      assert UnusedOk(s, 0);
    }
    SumUseSame(s.chunks, t.chunks);
  }

  /** Once `h` is in use, splitting it has left no two mergeable neighbours. */
  lemma SplitStaysSettled(s: Core, t: Core, u: Core, h: Handle, k: Handle, bytes: nat)
    requires SplitPre(s, h, bytes) && IsSplit(s, t, h, k, bytes) && !s.chunks[h].InUse()
    requires NoAdjacentFree(s)
    requires |u.chunks| == |t.chunks| && u.home == t.home && u.chunks[h].InUse() && u.chunks[h].next == k
    requires forall x | 0 <= x < |t.chunks| && x != h :: u.chunks[x] == t.chunks[x].(binNum := u.chunks[x].binNum)
    ensures NoAdjacentFree(u)
  {
    assert Settled(s, h);
    forall x
      ensures Settled(u, x)
    {
      assert Settled(s, x);
      if x in u.home && x != k {
        assert LiveOk(s, x);
      }
    }
  }

  // ---- Merging -------------------------------------------------------------------------------------------------

  lemma MergeKeepsGrants(s: Core, t: Core, h1: Handle, h2: Handle)
    requires MergePre(s, h1, h2) && IsMerge(s, t, h1, h2)
    ensures SameGrants(s, t)
  {
    forall p: nat
      ensures GrantAt(t, p) == GrantAt(s, p)
    {
      if p in s.index {
        assert Indexed(s, p);
      }
    }
  }

  lemma MergeKeepsFree(s: Core, t: Core, h1: Handle, h2: Handle)
    requires MergePre(s, h1, h2) && IsMerge(s, t, h1, h2)
    ensures SameFreeBytes(s, t)
  {
    forall a: nat, stream: Stream
      ensures IsFreeFor(t, a, stream) <==> IsFreeFor(s, a, stream)
    {
      if IsFreeFor(t, a, stream) {
        var h :| IsFreePart(t, h, a, stream);
        MergedPart(s, t, h1, h2, h, a, stream);
      }
      if IsFreeFor(s, a, stream) {
        var h :| IsFreePart(s, h, a, stream);
        PartIsMerged(s, t, h1, h2, h, a, stream);
      }
    }
  }

  lemma MergedPart(s: Core, t: Core, h1: Handle, h2: Handle, h: Handle, a: nat, stream: Stream)
    requires MergePre(s, h1, h2) && IsMerge(s, t, h1, h2) && IsFreePart(t, h, a, stream)
    ensures IsFreePart(s, if h == h1 && a >= s.chunks[h2].ptr then h2 else h, a, stream)
  {
    assert LiveOk(s, h);
  }

  lemma PartIsMerged(s: Core, t: Core, h1: Handle, h2: Handle, h: Handle, a: nat, stream: Stream)
    requires MergePre(s, h1, h2) && IsMerge(s, t, h1, h2) && IsFreePart(s, h, a, stream)
    ensures IsFreePart(t, if h == h2 then h1 else h, a, stream)
  {
    assert LiveOk(s, h);
  }

  lemma BinsKeepFree(s: Core, t: Core)
    requires SameButBins(s, t)
    ensures SameFreeBytes(s, t)
  {
    forall a: nat, stream: Stream
      ensures IsFreeFor(t, a, stream) <==> IsFreeFor(s, a, stream)
    {
      if IsFreeFor(t, a, stream) {
        var h :| IsFreePart(t, h, a, stream);
        assert IsFreePart(s, h, a, stream);
      }
      if IsFreeFor(s, a, stream) {
        var h :| IsFreePart(s, h, a, stream);
        assert IsFreePart(t, h, a, stream);
      }
    }
  }

  lemma MergeKeepsTagged(s: Core, t: Core, h1: Handle, h2: Handle, tags: map<nat, Tag>)
    requires MergePre(s, h1, h2) && IsMerge(s, t, h1, h2) && Tagged(s, tags)
    ensures Tagged(t, tags)
  {
    assert Owns(s, tags, h1) && Owns(s, tags, h2);
    forall x | x in t.home
      ensures Owns(t, tags, x)
    {
      assert Owns(s, tags, x);
    }
  }

  lemma MergeKeepsUse(s: Core, t: Core, h1: Handle, h2: Handle)
    requires MergePre(s, h1, h2) && IsMerge(s, t, h1, h2)
    ensures SumUse(t.chunks) == SumUse(s.chunks)
  {
    SumUseSame(s.chunks, t.chunks);
  }

  /** Merging keeps every other pair of neighbours as it was; the merged chunk is settled if `h2` was. */
  lemma MergeKeepsSettled(s: Core, t: Core, h1: Handle, h2: Handle, x: Handle)
    requires MergePre(s, h1, h2) && IsMerge(s, t, h1, h2)
    requires Settled(s, if x == h1 then h2 else x)
    ensures Settled(t, x)
  {
    if x in t.home {
      assert LiveOk(s, x) && LiveOk(s, h2);
    }
  }

  // ---- A new region --------------------------------------------------------------------------------------------

  lemma AddKeepsGrants(s: Core, t: Core, k: Handle, ptr: nat, bytes: nat, id: int)
    requires AddPre(s, ptr, bytes) && ptr !in s.blocks && IsAdd(s, t, k, ptr, bytes, id)
    requires !t.chunks[k].InUse()
    ensures SameGrants(s, t)
  {
    if ptr in s.index {
      NothingThere(s, ptr, bytes, ptr);
    }
    forall p: nat
      ensures GrantAt(t, p) == GrantAt(s, p)
    {
      if p in s.index {
        assert Indexed(s, p) && LiveOk(s, s.index[p]);
      }
    }
  }

  lemma AddLeavesFree(s: Core, t: Core, k: Handle, ptr: nat, bytes: nat, id: int)
    requires AddPre(s, ptr, bytes) && ptr !in s.blocks && IsAdd(s, t, k, ptr, bytes, id)
    ensures SameFreeBut(s, t, ptr)
  {
    forall p: nat | p != ptr
      ensures FreeAt(t, p) == FreeAt(s, p)
    {
      if p in s.index {
        assert Indexed(s, p) && LiveOk(s, s.index[p]);
      }
    }
  }

  lemma AddKeepsTagged(s: Core, t: Core, k: Handle, ptr: nat, bytes: nat, id: int, tags: map<nat, Tag>)
    requires AddPre(s, ptr, bytes) && IsAdd(s, t, k, ptr, bytes, id) && Tagged(s, tags)
    requires forall a | ptr <= a < ptr + bytes :: a !in tags
    ensures Tagged(t, tags)
  {
    forall x | x in t.home
      ensures Owns(t, tags, x)
    {
      if x != k {
        assert Owns(s, tags, x);
      }
    }
  }

  lemma AddKeepsSettled(s: Core, t: Core, k: Handle, ptr: nat, bytes: nat, id: int)
    requires AddPre(s, ptr, bytes) && IsAdd(s, t, k, ptr, bytes, id) && NoAdjacentFree(s)
    ensures NoAdjacentFree(t)
  {
    forall x
      ensures Settled(t, x)
    {
      assert Settled(s, x);
      if x in s.home {
        assert LiveOk(s, x);
      }
    }
  }

  // ---- Handing over --------------------------------------------------------------------------------------------

  /** Only the record of `h` differs, and `h` keeps its place. */
  ghost predicate OnlyChunk(s: Core, t: Core, h: Handle) {
    && 0 <= h < |s.chunks| == |t.chunks| && t == s.(chunks := t.chunks)
    && (forall x | 0 <= x < |s.chunks| && x != h :: t.chunks[x] == s.chunks[x])
    && SamePlace(s.chunks[h], t.chunks[h])
  }

  lemma HandoverGrants(s: Core, t: Core, h: Handle)
    requires Tiled(s) && h in s.home && OnlyChunk(s, t, h)
    ensures forall p: nat | p != s.chunks[h].ptr :: GrantAt(t, p) == GrantAt(s, p)
    ensures GrantAt(t, s.chunks[h].ptr) == if t.chunks[h].InUse() then Some(GrantOf(t.chunks[h])) else None
  {
    assert LiveOk(s, h);
    forall p: nat | p != s.chunks[h].ptr
      ensures GrantAt(t, p) == GrantAt(s, p)
    {
      if p in s.index {
        assert Indexed(s, p);
      }
    }
  }

  /** The tags after the bytes of a chunk have been given to a stream. */
  ghost function Retag(tags: map<nat, Tag>, c: Chunk, tag: Tag): (r: map<nat, Tag>)
    ensures forall a | a in r :: r[a] == if HasByte(c, a) then tag else if a in tags then tags[a] else r[a]
    ensures forall a | a in r :: HasByte(c, a) || a in tags
    ensures forall a: nat | HasByte(c, a) || a in tags :: a in r
  {
    tags + map a: nat | 0 <= a < c.End() && HasByte(c, a) :: tag
  }

  predicate HasByte(c: Chunk, a: nat) {
    c.ptr <= a < c.End()
  }

  lemma HandoverTagged(s: Core, t: Core, h: Handle, tags: map<nat, Tag>)
    requires Tiled(s) && h in s.home && OnlyChunk(s, t, h) && Tagged(s, tags)
    requires t.chunks[h].stream != NULL_STREAM
    ensures Tagged(t, Retag(tags, t.chunks[h], Tag(t.chunks[h].stream, t.chunks[h].streamSyncId)))
  {
    var tags' := Retag(tags, t.chunks[h], Tag(t.chunks[h].stream, t.chunks[h].streamSyncId));
    forall x | x in t.home
      ensures Owns(t, tags', x)
    {
      assert Owns(s, tags, x);
      assert LiveOk(s, h) && LiveOk(s, x);
      if x != h {
        NoOverlap(s, h, x);
        forall a | a in tags' && HasByte(t.chunks[x], a)
          ensures a in tags && tags'[a] == tags[a]
        {
        }
      }
    }
  }

  lemma SameStreamTagged(s: Core, t: Core, h: Handle, tags: map<nat, Tag>)
    requires h in s.home && OnlyChunk(s, t, h) && Tagged(s, tags)
    requires t.chunks[h].stream == s.chunks[h].stream && t.chunks[h].streamSyncId == s.chunks[h].streamSyncId
    ensures Tagged(t, tags)
  {
    forall x | x in t.home
      ensures Owns(t, tags, x)
    {
      assert Owns(s, tags, x);
    }
  }

  lemma HandoverSettled(s: Core, t: Core, h: Handle)
    requires OnlyChunk(s, t, h) && NoAdjacentFree(s) && t.chunks[h].InUse()
    ensures NoAdjacentFree(t)
  {
    forall x
      ensures Settled(t, x)
    {
      assert Settled(s, x);
    }
  }
}
