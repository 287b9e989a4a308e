/** Giving a region back to the device: all of its chunks are deleted, from its start to its end. */
module ArenaDropping {
  import opened ArenaTypes
  import opened ArenaCore
  import opened ArenaAccounts
  import opened ArenaSteps
  import opened ArenaTiling
  import opened ArenaOwnership

  ghost predicate AllFree(s: Core, b: nat) {
    forall h | h in s.home && s.home[h] == b && 0 <= h < |s.chunks| :: !s.chunks[h].InUse()
  }

  /** The chunk lies in region `b`, below `cursor`. */
  ghost predicate Below(s: Core, h: Handle, b: nat, cursor: nat) {
    h in s.home && s.home[h] == b && 0 <= h < |s.chunks| && s.chunks[h].ptr < cursor
  }

  /** The chunks of region `b` below `cursor` are gone; every other live chunk is exactly as it was. */
  ghost predicate DroppedBelow(s: Core, t: Core, b: nat, cursor: nat) {
    && |t.chunks| == |s.chunks| && t.blocks == s.blocks
    && (forall h {:trigger h in t.home} :: h in t.home <==> h in s.home && !Below(s, h, b, cursor))
    && (forall h | h in t.home && 0 <= h < |s.chunks| :: t.home[h] == s.home[h] && t.chunks[h] == s.chunks[h])
    && (forall a: nat {:trigger a in t.index} :: a in t.index <==> a in s.index && !(b <= a < cursor))
    && (forall a | a in t.index :: t.index[a] == s.index[a])
    && Binned(t, {}) && FreeListed(t)
    && SumUse(t.chunks) == SumUse(s.chunks)
  }

  lemma NothingDropped(s: Core, b: nat)
    requires CoreOk(s, {}) && b in s.blocks
    ensures DroppedBelow(s, s, b, b)
    ensures HasStart(s, b) && Below(s, s.index[b], b, b + 1) && s.chunks[s.index[b]].ptr == b
  {
    assert HasStart(s, b) && Indexed(s, b);
    forall h | h in s.home && s.home[h] == b
      ensures !Below(s, h, b, b)
    {
      assert LiveOk(s, h);
    }
  }

  /** Deleting the chunk at the cursor moves the cursor to its end, where the next chunk starts. */
  lemma DropOne(s: Core, t: Core, b: nat, h: Handle)
    requires CoreOk(s, {}) && AllFree(s, b)
    requires h in s.home && s.home[h] == b && 0 <= h < |s.chunks|
    requires DroppedBelow(s, t, b, s.chunks[h].ptr)
    ensures h in t.home && t.chunks[h] == s.chunks[h] && !s.chunks[h].InUse()
    ensures 0 <= s.chunks[h].binNum < 21 == |t.bins| && h in t.bins[s.chunks[h].binNum]
    ensures s.chunks[h].ptr in t.index
    ensures DroppedBelow(s, Delete(WithoutBin(t, h), h), b, s.chunks[h].End())
    ensures s.chunks[h].next != INVALID ==>
              && s.chunks[h].next in s.home && s.home[s.chunks[h].next] == b
              && 0 <= s.chunks[h].next < |s.chunks| && s.chunks[s.chunks[h].next].ptr == s.chunks[h].End()
    ensures s.chunks[h].next == INVALID ==> b in s.blocks && s.chunks[h].End() == b + s.blocks[b].size
  {
    assert LiveOk(s, h);
    assert BinOk(t, {}, h);
    DeleteBinned(t, h);
    var u := Delete(WithoutBin(t, h), h);
    DeleteBelow(s, t, b, h);
    SumUseSame(t.chunks, u.chunks);
  }

  lemma DeleteBinned(t: Core, h: Handle)
    requires Binned(t, {}) && FreeListed(t) && h in t.home && 0 <= h < |t.chunks| && !t.chunks[h].InUse()
    ensures Binned(Delete(WithoutBin(t, h), h), {}) && FreeListed(Delete(WithoutBin(t, h), h))
    ensures WithoutBin(t, h).chunks[h].binNum == INVALID
  {
    assert BinOk(t, {}, h);
    var u := Delete(WithoutBin(t, h), h);
    ReleasingKeepsFreeListed(t, u, h);
    forall x | x in u.home
      ensures BinOk(u, {}, x)
    {
      assert BinOk(t, {}, x);
    }
    forall b: nat, x
      ensures InBinOk(u, {}, b, x)
    {
      assert InBinOk(t, {}, b, x);
    }
  }

  lemma DeleteBelow(s: Core, t: Core, b: nat, h: Handle)
    requires CoreOk(s, {}) && h in s.home && s.home[h] == b && 0 <= h < |s.chunks|
    requires DroppedBelow(s, t, b, s.chunks[h].ptr)
    requires 0 <= t.chunks[h].binNum < |t.bins|
    ensures var u, cursor := Delete(WithoutBin(t, h), h), s.chunks[h].End();
      && |u.chunks| == |s.chunks| && u.blocks == s.blocks
      && (forall x {:trigger x in u.home} :: x in u.home <==> x in s.home && !Below(s, x, b, cursor))
      && (forall x | x in u.home && 0 <= x < |s.chunks| :: u.home[x] == s.home[x] && u.chunks[x] == s.chunks[x])
      && (forall a: nat {:trigger a in u.index} :: a in u.index <==> a in s.index && !(b <= a < cursor))
      && (forall a | a in u.index :: u.index[a] == s.index[a])
  {
    var u, cursor := Delete(WithoutBin(t, h), h), s.chunks[h].End();
    assert LiveOk(s, h);
    forall x
      ensures x in u.home <==> x in s.home && !Below(s, x, b, cursor)
    {
      if x in s.home && x != h {
        assert LiveOk(s, x);
        NoOverlap(s, h, x);
      }
    }
    forall a: nat
      ensures a in u.index <==> a in s.index && !(b <= a < cursor)
    {
      if a in s.index && s.chunks[h].ptr < a < cursor {
        assert Indexed(s, a) && LiveOk(s, s.index[a]);
        NoOverlap(s, h, s.index[a]);
      }
    }
  }

  /** `t` is `s` without region `b`. */
  ghost predicate IsDrop(s: Core, t: Core, b: nat) {
    && b in s.blocks && t.blocks == s.blocks - {b}
    && exists u :: DroppedBelow(s, u, b, b + s.blocks[b].size) && t == u.(blocks := t.blocks)
  }

  lemma DropOk(s: Core, t: Core, b: nat, tags: map<nat, Tag>)
    requires CoreOk(s, {}) && NoAdjacentFree(s) && Tagged(s, tags) && AllFree(s, b) && IsDrop(s, t, b)
    ensures CoreOk(t, {}) && NoAdjacentFree(t) && SameGrants(s, t) && KeepsFree(s, t)
    ensures SumUse(t.chunks) == SumUse(s.chunks)
    ensures Tagged(t, TagsOutside(tags, b, s.blocks[b].size))
    ensures forall c | c in t.blocks && AllFree(t, c) :: AllFree(s, c)
    ensures forall c | c in t.blocks && AllFree(s, c) :: AllFree(t, c)
  {
    var u :| DroppedBelow(s, u, b, b + s.blocks[b].size) && t == u.(blocks := t.blocks);
    forall h | h in t.home
      ensures BinOk(t, {}, h)
    {
      assert BinOk(u, {}, h);
    }
    forall c: nat, x
      ensures InBinOk(t, {}, c, x)
    {
      assert InBinOk(u, {}, c, x);
    }
    SameUnused(u, t);
    DropTiled(s, u, t, b);
    DropGrants(s, u, t, b);
    DropFree(s, u, t, b);
    DropRest(s, u, t, b, tags);
  }

  ghost function TagsOutside(tags: map<nat, Tag>, b: nat, size: nat): map<nat, Tag> {
    map a | a in tags && !(b <= a < b + size) :: tags[a]
  }

  /** Which chunks survive: those of other regions. */
  lemma Survives(s: Core, u: Core, b: nat, h: Handle)
    requires CoreOk(s, {}) && b in s.blocks && DroppedBelow(s, u, b, b + s.blocks[b].size) && h in s.home
    ensures h in u.home <==> s.home[h] != b
    ensures LiveOk(s, h)
  {
    assert LiveOk(s, h);
  }

  lemma DropLive(s: Core, u: Core, t: Core, b: nat, h: Handle)
    requires CoreOk(s, {}) && b in s.blocks && DroppedBelow(s, u, b, b + s.blocks[b].size)
    requires t == u.(blocks := s.blocks - {b}) && h in t.home
    ensures LiveOk(t, h)
  {
    Survives(s, u, b, h);
    DropPlaced(s, u, t, b, h);
    if t.chunks[h].next != INVALID {
      DropPlaced(s, u, t, b, t.chunks[h].next);
    }
    if t.chunks[h].prev != INVALID {
      assert LiveOk(s, t.chunks[h].prev);
      DropPlaced(s, u, t, b, t.chunks[h].prev);
    }
  }

  lemma DropPlaced(s: Core, u: Core, t: Core, b: nat, h: Handle)
    requires CoreOk(s, {}) && b in s.blocks && DroppedBelow(s, u, b, b + s.blocks[b].size)
    requires t == u.(blocks := s.blocks - {b}) && h in s.home && s.home[h] != b
    ensures Placed(t, h) && LiveOk(s, h) && s.chunks[h] == t.chunks[h] && s.home[h] == t.home[h]
  {
    Survives(s, u, b, h);
    var c := s.home[h];
    assert InOrder(s.blocks, b, c) && InOrder(s.blocks, c, b);
  }

  lemma DropTiled(s: Core, u: Core, t: Core, b: nat)
    requires CoreOk(s, {}) && b in s.blocks && DroppedBelow(s, u, b, b + s.blocks[b].size)
    requires t == u.(blocks := s.blocks - {b})
    ensures Tiled(t)
  {
    forall c | c in t.blocks
      ensures BlockOk(t.blocks, c)
    {
      assert BlockOk(s.blocks, c);
    }
    forall c: nat, d: nat
      ensures InOrder(t.blocks, c, d)
    {
      assert InOrder(s.blocks, c, d);
    }
    forall h | h in t.home
      ensures LiveOk(t, h)
    {
      Survives(s, u, b, h);
      DropLive(s, u, t, b, h);
    }
    forall a | a in t.index
      ensures Indexed(t, a)
    {
      assert Indexed(s, a);
      Survives(s, u, b, s.index[a]);
      DropPlaced(s, u, t, b, s.index[a]);
    }
    forall c | c in t.blocks
      ensures HasStart(t, c)
    {
      assert HasStart(s, c) && Indexed(s, c);
      DropPlaced(s, u, t, b, s.index[c]);
    }
  }

  lemma DropGrants(s: Core, u: Core, t: Core, b: nat)
    requires CoreOk(s, {}) && b in s.blocks && DroppedBelow(s, u, b, b + s.blocks[b].size) && AllFree(s, b)
    requires t == u.(blocks := s.blocks - {b})
    ensures SameGrants(s, t)
  {
    forall p: nat
      ensures GrantAt(t, p) == GrantAt(s, p)
    {
      if p in s.index {
        assert Indexed(s, p);
        Survives(s, u, b, s.index[p]);
        assert InOrder(s.blocks, b, s.home[s.index[p]]) && InOrder(s.blocks, s.home[s.index[p]], b);
      }
    }
  }

  /** Free bytes stay free for the same stream as long as their region is there. */
  ghost predicate KeepsFree(s: Core, t: Core) {
    forall a: nat, stream: Stream {:trigger IsFreeFor(t, a, stream)} ::
      IsFreeFor(t, a, stream) <==> IsFreeFor(s, a, stream) && Inside(t.blocks, a)
  }

  lemma DropFree(s: Core, u: Core, t: Core, b: nat)
    requires CoreOk(s, {}) && b in s.blocks && DroppedBelow(s, u, b, b + s.blocks[b].size)
    requires t == u.(blocks := s.blocks - {b})
    ensures KeepsFree(s, t)
  {
    forall a: nat, stream: Stream
      ensures IsFreeFor(t, a, stream) <==> IsFreeFor(s, a, stream) && Inside(t.blocks, a)
    {
      if IsFreeFor(t, a, stream) {
        var h :| IsFreePart(t, h, a, stream);
        Survives(s, u, b, h);
        DropPlaced(s, u, t, b, h);
        assert IsFreePart(s, h, a, stream);
      }
      if IsFreeFor(s, a, stream) && Inside(t.blocks, a) {
        var h :| IsFreePart(s, h, a, stream);
        var c :| c in t.blocks && c <= a < c + t.blocks[c].size;
        KeptPart(s, u, t, b, h, c, a, stream);
      }
    }
  }

  lemma KeptPart(s: Core, u: Core, t: Core, b: nat, h: Handle, c: nat, a: nat, stream: Stream)
    requires CoreOk(s, {}) && b in s.blocks && DroppedBelow(s, u, b, b + s.blocks[b].size)
    requires t == u.(blocks := s.blocks - {b}) && IsFreePart(s, h, a, stream)
    requires c in t.blocks && c <= a < c + t.blocks[c].size
    ensures IsFreePart(t, h, a, stream)
  {
    Survives(s, u, b, h);
    assert InOrder(s.blocks, s.home[h], c) && InOrder(s.blocks, c, s.home[h]);
    DropPlaced(s, u, t, b, h);
  }

  lemma KeepsFreeTwice(s: Core, u: Core, t: Core)
    requires KeepsFree(s, u) && KeepsFree(u, t)
    requires forall b | b in t.blocks :: b in u.blocks && u.blocks[b] == t.blocks[b]
    ensures KeepsFree(s, t)
  {
    forall a: nat, stream: Stream
      ensures IsFreeFor(t, a, stream) <==> IsFreeFor(s, a, stream) && Inside(t.blocks, a)
    {
      assert IsFreeFor(u, a, stream) <==> IsFreeFor(s, a, stream) && Inside(u.blocks, a);
      if Inside(t.blocks, a) {
        var c :| c in t.blocks && c <= a < c + t.blocks[c].size;
        assert c in u.blocks;
      }
    }
  }

  lemma DropRest(s: Core, u: Core, t: Core, b: nat, tags: map<nat, Tag>)
    requires CoreOk(s, {}) && b in s.blocks && DroppedBelow(s, u, b, b + s.blocks[b].size)
    requires t == u.(blocks := s.blocks - {b})
    requires NoAdjacentFree(s) && Tagged(s, tags)
    ensures NoAdjacentFree(t) && Tagged(t, TagsOutside(tags, b, s.blocks[b].size))
    ensures forall c | c in t.blocks :: AllFree(t, c) <==> AllFree(s, c)
  {
    forall x
      ensures Settled(t, x)
    {
      assert Settled(s, x);
      if x in t.home {
        DropLive(s, u, t, b, x);
        assert LiveOk(s, x);
      }
    }
    forall h | h in t.home
      ensures Owns(t, TagsOutside(tags, b, s.blocks[b].size), h)
    {
      Survives(s, u, b, h);
      assert Owns(s, tags, h);
    }
    forall c | c in t.blocks
      ensures AllFree(t, c) <==> AllFree(s, c)
    {
      forall h | h in s.home && s.home[h] == c
        ensures h in t.home
      {
        Survives(s, u, b, h);
      }
    }
  }
}
