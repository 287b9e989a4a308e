/** The arena's statistics, and the sums they stand for. */
module ArenaAccounts {
  import opened Options
  import opened ArenaTypes
  import opened ArenaCore
  import opened ArenaGrowth

  datatype Stats = Stats(numAllocs: int, numReserves: int, numArenaExtensions: int, numArenaShrinkages: int,
                         bytesInUse: int, totalAllocatedBytes: int, maxBytesInUse: int, maxAllocSize: int,
                         bytesLimit: int)

  ghost function SumMap(m: map<nat, nat>): nat
    decreases m.Keys
  {
    if m == map[] then 0 else
      var k :| k in m; m[k] + SumMap(m - {k})
  }

  lemma {:induction false} SumMapRemove(m: map<nat, nat>, k: nat)
    requires k in m
    ensures SumMap(m) == m[k] + SumMap(m - {k})
    decreases m.Keys
  {
    var j :| j in m && SumMap(m) == m[j] + SumMap(m - {j});
    if j != k {
      SumMapRemove(m - {j}, k);
      SumMapRemove(m - {k}, j);
      assert m - {j} - {k} == m - {k} - {j};
    }
  }

  lemma SumMapAdd(m: map<nat, nat>, k: nat, v: nat)
    requires k !in m
    ensures SumMap(m[k := v]) == SumMap(m) + v
  {
    SumMapRemove(m[k := v], k);
    assert m[k := v] - {k} == m;
  }

  ghost function Sizes(blocks: map<nat, Block>): map<nat, nat> {
    map b | b in blocks :: blocks[b].size
  }

  lemma SizesAdd(blocks: map<nat, Block>, b: nat, size: nat, id: int)
    requires b !in blocks
    ensures SumMap(Sizes(blocks[b := Block(size, id)])) == SumMap(Sizes(blocks)) + size
    ensures |blocks[b := Block(size, id)]| == |blocks| + 1
  {
    assert Sizes(blocks[b := Block(size, id)]) == Sizes(blocks)[b := size];
    SumMapAdd(Sizes(blocks), b, size);
  }

  lemma SizesRemove(blocks: map<nat, Block>, b: nat)
    requires b in blocks
    ensures SumMap(Sizes(blocks - {b})) == SumMap(Sizes(blocks)) - blocks[b].size
    ensures |blocks - {b}| == |blocks| - 1
  {
    assert Sizes(blocks - {b}) == Sizes(blocks) - {b};
    SumMapRemove(Sizes(blocks), b);
    assert blocks == (blocks - {b})[b := blocks[b]];
  }

  /** The statistics are the sums they are named after. */
  ghost predicate Balanced(s: Core, reserved: map<nat, nat>, stats: Stats) {
    && stats.bytesInUse == SumUse(s.chunks) + SumMap(reserved)
    && stats.totalAllocatedBytes == SumMap(Sizes(s.blocks)) + SumMap(reserved)
    && stats.numArenaExtensions == |s.blocks|
    && stats.bytesInUse <= stats.maxBytesInUse
  }

  /** Every pointer handed out has its own allocation id, and holds at least what was asked for. */
  ghost predicate GrantOk(s: Core, nextId: int, p: nat) {
    var g := GrantAt(s, p);
    g.Some? ==> 0 < g.value.requestedSize <= g.value.size && 1 <= g.value.allocationId < nextId
  }

  ghost predicate GrantsOk(s: Core, nextId: int) {
    && 1 <= nextId
    && (forall p: nat {:trigger GrantAt(s, p)} :: GrantOk(s, nextId, p))
    && (forall p: nat, q: nat {:trigger GrantAt(s, p), GrantAt(s, q)} ::
          GrantAt(s, p).Some? && GrantAt(s, q).Some? && p != q ==>
            GrantAt(s, p).value.allocationId != GrantAt(s, q).value.allocationId)
  }

  /** Reserved memory overlaps neither a region nor other reserved memory. Address 0 stands for a reservation the
      device refused, which the program records all the same. */
  ghost predicate ApartFromBlock(reserved: map<nat, nat>, blocks: map<nat, Block>, p: nat, b: nat) {
    p in reserved && p != 0 && b in blocks ==> Disjoint(p, reserved[p], b, blocks[b].size)
  }

  ghost predicate ApartFromReserved(reserved: map<nat, nat>, p: nat, q: nat) {
    p in reserved && q in reserved && p != 0 && q != 0 && p != q ==> Disjoint(p, reserved[p], q, reserved[q])
  }

  ghost predicate ReservedApart(reserved: map<nat, nat>, blocks: map<nat, Block>) {
    && (forall p | p in reserved :: 0 < reserved[p])
    && (forall p: nat, b: nat {:trigger ApartFromBlock(reserved, blocks, p, b)} :: ApartFromBlock(reserved, blocks, p, b))
    && (forall p: nat, q: nat {:trigger ApartFromReserved(reserved, p, q)} :: ApartFromReserved(reserved, p, q))
  }

  lemma ReservingStaysApart(reserved: map<nat, nat>, blocks: map<nat, Block>, mem: nat, size: nat)
    requires ReservedApart(reserved, blocks) && mem !in reserved && 0 < size
    requires mem != 0 ==> FreshBlock(mem, size, reserved, blocks)
    ensures ReservedApart(reserved[mem := size], blocks)
  {
    var reserved' := reserved[mem := size];
    forall p: nat, b: nat
      ensures ApartFromBlock(reserved', blocks, p, b)
    {
      assert ApartFromBlock(reserved, blocks, p, b);
    }
    forall p: nat, q: nat
      ensures ApartFromReserved(reserved', p, q)
    {
      assert ApartFromReserved(reserved, p, q);
    }
  }

  lemma ReleasingStaysApart(reserved: map<nat, nat>, blocks: map<nat, Block>, p: nat)
    requires ReservedApart(reserved, blocks)
    ensures ReservedApart(reserved - {p}, blocks)
  {
    var reserved' := reserved - {p};
    forall q: nat, b: nat
      ensures ApartFromBlock(reserved', blocks, q, b)
    {
      assert ApartFromBlock(reserved, blocks, q, b);
    }
    forall q: nat, r: nat
      ensures ApartFromReserved(reserved', q, r)
    {
      assert ApartFromReserved(reserved, q, r);
    }
  }

  lemma ReservedStaysApart(reserved: map<nat, nat>, blocks: map<nat, Block>, mem: nat, bytes: nat, id: int)
    requires ReservedApart(reserved, blocks) && FreshBlock(mem, bytes, reserved, blocks)
    ensures ReservedApart(reserved, blocks[mem := Block(bytes, id)])
  {
    var blocks' := blocks[mem := Block(bytes, id)];
    forall p: nat, b: nat
      ensures ApartFromBlock(reserved, blocks', p, b)
    {
      assert ApartFromBlock(reserved, blocks, p, b);
    }
  }

  lemma ReservedApartFromFewer(reserved: map<nat, nat>, blocks: map<nat, Block>, b: nat)
    requires ReservedApart(reserved, blocks)
    ensures ReservedApart(reserved, blocks - {b})
  {
    forall p: nat, c: nat
      ensures ApartFromBlock(reserved, blocks - {b}, p, c)
    {
      assert ApartFromBlock(reserved, blocks, p, c);
    }
  }

  /** The device hands out memory that nobody holds yet. */
  ghost predicate FreshBlock(p: nat, bytes: nat, reserved: map<nat, nat>, blocks: map<nat, Block>) {
    && p != 0
    && (forall b | b in blocks :: Disjoint(p, bytes, b, blocks[b].size))
    && (forall q | q in reserved && q != 0 :: Disjoint(p, bytes, q, reserved[q]))
  }

  lemma NothingYet(s: Core, config: Config, stats: Stats)
    requires s == Core([], map[], map[], map[], s.bins, []) && |s.bins| == 21
    requires forall b | 0 <= b < 21 :: s.bins[b] == {}
    requires stats == Stats(0, 0, 0, 0, 0, 0, 0, 0, config.maxMem)
    ensures CoreOk(s, {}) && NoAdjacentFree(s) && GrantsOk(s, 1) && Tagged(s, map[])
    ensures forall p: nat :: GrantAt(s, p) == None
    ensures Balanced(s, map[], stats)
  {
    assert Sizes(s.blocks) == map[];
    forall p: nat
      ensures GrantAt(s, p) == None && GrantOk(s, 1, p)
    {
    }
  }

  /** Tagged bytes lie in regions. */
  ghost predicate Inside(blocks: map<nat, Block>, a: nat) {
    exists b :: b in blocks && b <= a < b + blocks[b].size
  }

  ghost predicate TagsInside(blocks: map<nat, Block>, tags: map<nat, Tag>) {
    forall a {:trigger Inside(blocks, a)} | a in tags :: Inside(blocks, a)
  }

  /** Region ids: under power-of-two growth exactly one region has id 0 as soon as there is a region. */
  ghost predicate FirstKept(blocks: map<nat, Block>) {
    && (forall b | b in blocks :: 0 <= blocks[b].id)
    && (blocks == map[] ||
        exists f :: f in blocks && blocks[f].id == 0 && forall b | b in blocks && b != f :: 0 < blocks[b].id)
  }

  /** Every block the device is about to grant is memory that nobody holds. */
  ghost predicate DeviceIsFresh(device: nat -> Option<nat>, reserved: map<nat, nat>, blocks: map<nat, Block>) {
    forall n: nat {:trigger device(n)} | 0 < n && device(n).Some? :: FreshBlock(device(n).value, n, reserved, blocks)
  }

  /** At `p` there is a live free chunk of `n` bytes that no stream owns. */
  ghost predicate FreeChunkAt(s: Core, p: nat, n: nat) {
    && p in s.index && s.index[p] in s.home && 0 <= s.index[p] < |s.chunks|
    && var c := s.chunks[s.index[p]];
       !c.InUse() && c.size == n && c.stream == NULL_STREAM
  }
}
