/** What the local invariant of ArenaCore says about whole regions. */
module ArenaTiling {
  import opened ArenaTypes
  import opened ArenaCore
  import opened ArenaSteps

  /** `chain` runs from chunk to next chunk, each starting where the one before it ends. */
  ghost predicate Linked(s: Core, chain: seq<Handle>) {
    && chain != [] && chain[0] in s.home
    && (forall i {:trigger chain[i]} | 0 <= i < |chain| :: Placed(s, chain[i]) && s.home[chain[i]] == s.home[chain[0]])
    && (forall i | 0 <= i < |chain| - 1 ::
          && s.chunks[chain[i]].next == chain[i + 1] && s.chunks[chain[i + 1]].prev == chain[i]
          && s.chunks[chain[i]].End() == s.chunks[chain[i + 1]].ptr)
  }

  /** The chain is exactly the live chunks of its region from address `from` on, and reaches the region's end. */
  ghost predicate Tiles(s: Core, chain: seq<Handle>, b: nat, from: nat) {
    && Linked(s, chain) && b in s.blocks
    && s.home[chain[0]] == b && s.chunks[chain[0]].ptr == from
    && s.chunks[chain[|chain| - 1]].next == INVALID
    && s.chunks[chain[|chain| - 1]].End() == b + s.blocks[b].size
    && (forall h | h in s.home && s.home[h] == b && 0 <= h < |s.chunks| && from <= s.chunks[h].ptr :: h in chain)
  }

  lemma {:induction false} ChainFrom(s: Core, h: Handle) returns (chain: seq<Handle>)
    requires Tiled(s) && h in s.home && LiveOk(s, h)
    ensures Tiles(s, chain, s.home[h], s.chunks[h].ptr) && chain[0] == h
    decreases s.home[h] + s.blocks[s.home[h]].size - s.chunks[h].ptr
  {
    var b, c := s.home[h], s.chunks[h];
    if c.next == INVALID {
      chain := [h];
    } else {
      assert LiveOk(s, c.next);
      var rest := ChainFrom(s, c.next);
      chain := [h] + rest;
      assert forall i | 0 < i < |chain| :: chain[i] == rest[i - 1];
      assert Linked(s, chain);
    }
    forall x | x in s.home && s.home[x] == b && 0 <= x < |s.chunks| && c.ptr <= s.chunks[x].ptr
      ensures x in chain
    {
      if x != h {
        assert LiveOk(s, x);
        NoOverlap(s, h, x);
      }
    }
  }

  /** Every region is tiled: following `next` from the chunk at its start visits all of its live chunks, in address
      order and without gaps, and stops at its end. */
  lemma RegionIsTiled(s: Core, b: nat) returns (chain: seq<Handle>)
    requires Tiled(s) && b in s.blocks
    ensures Tiles(s, chain, b, b) && chain[0] == s.index[b]
    ensures forall h | h in s.home && s.home[h] == b :: h in chain
  {
    assert HasStart(s, b) && Indexed(s, b);
    assert LiveOk(s, s.index[b]);
    chain := ChainFrom(s, s.index[b]);
    forall h | h in s.home && s.home[h] == b
      ensures h in chain
    {
      assert LiveOk(s, h);
    }
  }

  /** The sizes along a chain add up to the bytes from its first address to its end. */
  ghost function SizeOf(s: Core, chain: seq<Handle>): nat
    requires forall i | 0 <= i < |chain| :: 0 <= chain[i] < |s.chunks|
  {
    if chain == [] then 0 else s.chunks[chain[0]].size + SizeOf(s, chain[1..])
  }

  lemma {:induction false} ChainSize(s: Core, chain: seq<Handle>)
    requires Linked(s, chain)
    ensures SizeOf(s, chain) == s.chunks[chain[|chain| - 1]].End() - s.chunks[chain[0]].ptr
  {
    assert Placed(s, chain[0]);
    if |chain| > 1 {
      var rest := chain[1..];
      assert forall i | 0 <= i < |rest| :: rest[i] == chain[i + 1];
      assert s.chunks[chain[0]].End() == s.chunks[chain[0 + 1]].ptr;
      assert Linked(s, rest) by {
        forall i | 0 <= i < |rest| - 1
          ensures s.chunks[rest[i]].next == rest[i + 1] && s.chunks[rest[i + 1]].prev == rest[i]
          ensures s.chunks[rest[i]].End() == s.chunks[rest[i + 1]].ptr
        {
          assert s.chunks[chain[i + 1]].next == chain[i + 1 + 1];
        }
      }
      ChainSize(s, rest);
    } else {
      assert chain[1..] == [];
    }
  }

  /** The chunks of a region are worth exactly the bytes of the region. */
  lemma RegionIsAccountedFor(s: Core, b: nat) returns (chain: seq<Handle>)
    requires Tiled(s) && b in s.blocks
    ensures Tiles(s, chain, b, b) && forall i | 0 <= i < |chain| :: 0 <= chain[i] < |s.chunks|
    ensures SizeOf(s, chain) == s.blocks[b].size
  {
    chain := RegionIsTiled(s, b);
    ChainSize(s, chain);
  }

  /** A live chunk's bytes belong to it alone, and lie inside its region. */
  lemma ChunksAreDisjoint(s: Core, g: Handle, h: Handle)
    requires Tiled(s) && g in s.home && h in s.home && g != h
    ensures 0 <= g < |s.chunks| && 0 <= h < |s.chunks| && s.home[g] in s.blocks
    ensures Disjoint(s.chunks[g].ptr, s.chunks[g].size, s.chunks[h].ptr, s.chunks[h].size)
    ensures s.home[g] <= s.chunks[g].ptr && s.chunks[g].End() <= s.home[g] + s.blocks[s.home[g]].size
  {
    assert LiveOk(s, g) && LiveOk(s, h);
    NoOverlap(s, g, h);
  }
}
