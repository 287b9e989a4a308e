/** The arena's bookkeeping as a value: the chunk table, the regions as maps, the bins and the list of unused
    records, with one function for each step that changes them, and the invariant those steps keep. The invariant
    speaks of one chunk and its two neighbours at a time; what follows from it about whole regions (they are tiled,
    nothing overlaps) is proved in ArenaTiling. */
module ArenaCore {
  import opened Options
  import opened Hiding
  import opened ArenaTypes

  /** `home` maps every live handle to the start of the region of its chunk. `freeSeq` is the list of unused records
      in the order in which they are handed out. */
  datatype Core = Core(chunks: seq<Chunk>, home: map<Handle, nat>, blocks: map<nat, Block>, index: map<nat, Handle>,
                       bins: seq<set<Handle>>, freeSeq: seq<Handle>)

  // ---- The invariant -------------------------------------------------------------------------------------------

  /** The chunk lies inside its region, on the 256-byte grid, and its address is indexed. */
  ghost predicate Placed(s: Core, h: Handle) {
    && h in s.home && 0 <= h < |s.chunks| && s.home[h] in s.blocks
    && var c, b := s.chunks[h], s.home[h];
       && OnGrid(b, b + s.blocks[b].size, c.ptr, c.size)
       && c.ptr in s.index && s.index[c.ptr] == h
  }

  /** A positive multiple of 256 bytes at a multiple of 256 from `b`, not reaching past `end`. */
  ghost predicate OnGrid(b: nat, end: nat, ptr: nat, size: nat) {
    && b <= ptr && 0 < size && ptr + size <= end
    && (ptr - b) % 256 == 0 && size % 256 == 0
  }

  lemma SplitOnGrid(b: nat, end: nat, ptr: nat, size: nat, bytes: nat)
    requires OnGrid(b, end, ptr, size) && 0 < bytes < size && bytes % 256 == 0
    ensures OnGrid(b, end, ptr, bytes) && OnGrid(b, end, ptr + bytes, size - bytes)
  {
  }

  lemma MergeOnGrid(b: nat, end: nat, ptr: nat, size1: nat, size2: nat)
    requires OnGrid(b, end, ptr, size1) && OnGrid(b, end, ptr + size1, size2)
    ensures OnGrid(b, end, ptr, size1 + size2)
  {
  }

  /** The next chunk starts where this one ends and points back to it; the last chunk ends the region. */
  ghost predicate NextOk(s: Core, h: Handle)
    requires Placed(s, h)
  {
    var c, b := s.chunks[h], s.home[h];
    if c.next == INVALID then c.End() == b + s.blocks[b].size
    else
      && Placed(s, c.next) && s.home[c.next] == b
      && s.chunks[c.next].ptr == c.End() && s.chunks[c.next].prev == h
  }

  ghost predicate PrevOk(s: Core, h: Handle)
    requires Placed(s, h)
  {
    var c := s.chunks[h];
    if c.prev == INVALID then c.ptr == s.home[h]
    else Placed(s, c.prev) && s.chunks[c.prev].next == h
  }

  ghost predicate LiveOk(s: Core, h: Handle) {
    Placed(s, h) && NextOk(s, h) && PrevOk(s, h)
  }

  ghost predicate Indexed(s: Core, a: nat) {
    a in s.index && s.index[a] in s.home && Placed(s, s.index[a]) && s.chunks[s.index[a]].ptr == a
  }

  ghost predicate HasStart(s: Core, b: nat) {
    b in s.index && s.index[b] in s.home && s.home[s.index[b]] == b
  }

  ghost predicate Tiled(s: Core) {
    && BlocksOk(s.blocks)
    && (forall h {:trigger LiveOk(s, h)} | h in s.home :: LiveOk(s, h))
    && (forall a {:trigger Indexed(s, a)} | a in s.index :: Indexed(s, a))
    && (forall b {:trigger HasStart(s, b)} | b in s.blocks :: HasStart(s, b))
  }

  /** A live chunk is in use and in no bin, or free and in the one bin of its size. A floating chunk is free and has
      been taken out of its bin. */
  ghost predicate BinOk(s: Core, floating: set<Handle>, h: Handle) {
    && 0 <= h < |s.chunks| && |s.bins| == 21
    && var c := s.chunks[h];
       if c.InUse() then c.binNum == INVALID && h !in floating
       else if h in floating then c.binNum == INVALID
       else c.binNum == BinNumForSize(c.size) && h in s.bins[BinNumForSize(c.size)]
  }

  ghost predicate InBinOk(s: Core, floating: set<Handle>, b: nat, h: Handle) {
    b < |s.bins| && h in s.bins[b] ==>
      h in s.home && h !in floating && 0 <= h < |s.chunks| && !s.chunks[h].InUse() && s.chunks[h].binNum == b
  }

  ghost predicate Binned(s: Core, floating: set<Handle>) {
    && |s.bins| == 21
    && (forall h {:trigger BinOk(s, floating, h)} | h in s.home :: BinOk(s, floating, h))
    && (forall b: nat, h {:trigger InBinOk(s, floating, b, h)} :: InBinOk(s, floating, b, h))
  }

  /** An unused record is not live, not in use, in no bin, and linked to the next unused one. */
  ghost predicate UnusedOk(s: Core, i: nat) {
    && i < |s.freeSeq|
    && var h := s.freeSeq[i];
       && 0 <= h < |s.chunks| && h !in s.home
       && !s.chunks[h].InUse() && s.chunks[h].binNum == INVALID
       && s.chunks[h].next == (if i + 1 < |s.freeSeq| then s.freeSeq[i + 1] else INVALID)
  }

  ghost predicate Recorded(s: Core, h: Handle) {
    h in s.home || h in s.freeSeq
  }

  ghost predicate Distinct(s: Core, i: nat, j: nat) {
    i < j < |s.freeSeq| ==> s.freeSeq[i] != s.freeSeq[j]
  }

  /** The records of the chunk table split exactly into the live ones and the list of unused ones. */
  ghost predicate FreeListed(s: Core) {
    && (forall i: nat {:trigger UnusedOk(s, i)} | i < |s.freeSeq| :: UnusedOk(s, i))
    && (forall i: nat, j: nat {:trigger Distinct(s, i, j)} :: Distinct(s, i, j))
    && (forall h {:trigger Recorded(s, h)} | 0 <= h < |s.chunks| :: Recorded(s, h))
    && (forall h | h in s.home :: 0 <= h < |s.chunks|)
  }

  ghost predicate CoreOk(s: Core, floating: set<Handle>) {
    Tiled(s) && Binned(s, floating) && FreeListed(s)
  }

  // ---- The steps -----------------------------------------------------------------------------------------------

  /** Takes an unused record, or appends one to the table. */
  function TakenRecord(s: Core): Handle {
    if s.freeSeq == [] then |s.chunks| else s.freeSeq[0]
  }

  function TakeRecord(s: Core): Core {
    if s.freeSeq == [] then s.(chunks := s.chunks + [DEFAULT_CHUNK]) else s.(freeSeq := s.freeSeq[1..])
  }

  function FreeListHead(s: Core): Handle {
    if s.freeSeq == [] then INVALID else s.freeSeq[0]
  }

  function WithBin(s: Core, h: Handle): Core
    requires 0 <= h < |s.chunks| && |s.bins| == 21
  {
    var b := BinNumForSize(s.chunks[h].size);
    s.(chunks := s.chunks[h := s.chunks[h].(binNum := b)], bins := s.bins[b := s.bins[b] + {h}])
  }

  function WithoutBin(s: Core, h: Handle): Core
    requires 0 <= h < |s.chunks|
  {
    var b := s.chunks[h].binNum;
    if !(0 <= b < |s.bins|) then s else
    s.(chunks := s.chunks[h := s.chunks[h].(binNum := INVALID)], bins := s.bins[b := s.bins[b] - {h}])
  }

  function WithPrev(chunks: seq<Chunk>, h: Handle, prev: Handle): seq<Chunk> {
    if 0 <= h < |chunks| then chunks[h := chunks[h].(prev := prev)] else chunks
  }

  /** Record `k` becomes the free remainder of chunk `h`, which keeps its first `bytes` bytes. */
  function SplitChunks(chunks: seq<Chunk>, h: Handle, k: Handle, bytes: nat): seq<Chunk>
    requires 0 <= h < |chunks| && 0 <= k < |chunks| && bytes <= chunks[h].size
  {
    var c := chunks[h];
    var remainder := chunks[k].(stream := c.stream, streamSyncId := c.streamSyncId, ptr := c.ptr + bytes,
                                size := c.size - bytes, allocationId := -1, prev := h, next := c.next);
    WithPrev(chunks[k := remainder][h := c.(size := bytes, next := k)], c.next, k)
  }

  function Split(s: Core, h: Handle, bytes: nat): Core
    requires 0 <= h < |s.chunks| && bytes <= s.chunks[h].size && h in s.home
    requires forall i | 0 <= i < |s.freeSeq| :: 0 <= s.freeSeq[i] < |s.chunks|
  {
    var t, k := TakeRecord(s), TakenRecord(s);
    t.(chunks := SplitChunks(t.chunks, h, k, bytes), home := t.home[k := t.home[h]],
       index := t.index[t.chunks[h].ptr + bytes := k])
  }

  /** Chunk `h2` is absorbed by its predecessor `h1`, and its record becomes the head of the unused ones. */
  function MergeChunks(chunks: seq<Chunk>, h1: Handle, h2: Handle, head: Handle): seq<Chunk>
    requires 0 <= h1 < |chunks| && 0 <= h2 < |chunks|
  {
    var c1, c2 := chunks[h1], chunks[h2];
    var id := if c1.streamSyncId < c2.streamSyncId then c2.streamSyncId else c1.streamSyncId;
    Released(WithPrev(chunks[h1 := c1.(next := c2.next, size := c1.size + c2.size, streamSyncId := id)], c2.next, h1),
             h2, head)
  }

  function ReleasedChunk(c: Chunk, head: Handle): Chunk {
    if c.stream == NULL_STREAM then c.(next := head) else c.(stream := NULL_STREAM, streamSyncId := 0, next := head)
  }

  function Released(chunks: seq<Chunk>, h: Handle, head: Handle): seq<Chunk>
    requires 0 <= h < |chunks|
  {
    chunks[h := ReleasedChunk(chunks[h], head)]
  }

  function Merge(s: Core, h1: Handle, h2: Handle): Core
    requires 0 <= h1 < |s.chunks| && 0 <= h2 < |s.chunks|
  {
    Core(MergeChunks(s.chunks, h1, h2, FreeListHead(s)), s.home - {h2}, s.blocks, s.index - {s.chunks[h2].ptr},
         s.bins, [h2] + s.freeSeq)
  }

  /** Drops the record of `h` from the live ones. */
  function Delete(s: Core, h: Handle): Core
    requires 0 <= h < |s.chunks|
  {
    Core(Released(s.chunks, h, FreeListHead(s)), s.home - {h}, s.blocks, s.index - {s.chunks[h].ptr}, s.bins,
         [h] + s.freeSeq)
  }

  /** A new region of `bytes` bytes at `ptr`, covered by one free chunk that no stream owns. */
  function AddRegion(s: Core, ptr: nat, bytes: nat, id: int): Core
    requires forall i | 0 <= i < |s.freeSeq| :: 0 <= s.freeSeq[i] < |s.chunks|
  {
    var t, k := TakeRecord(s), TakenRecord(s);
    var c := t.chunks[k].(ptr := ptr, size := bytes, allocationId := -1, prev := INVALID, next := INVALID,
                          stream := NULL_STREAM);
    t.(chunks := t.chunks[k := c], home := t.home[k := ptr], blocks := t.blocks[ptr := Block(bytes, id)],
       index := t.index[ptr := k])
  }

  // ---- Merging neighbours --------------------------------------------------------------------------------------

  predicate Mergeable(c: Chunk, d: Chunk) {
    !c.InUse() && !d.InUse() && c.stream == d.stream
  }

  predicate MergesNext(s: Core, h: Handle) {
    0 <= h < |s.chunks| && 0 <= s.chunks[h].next < |s.chunks| && Mergeable(s.chunks[h], s.chunks[s.chunks[h].next])
  }

  predicate MergesPrev(s: Core, h: Handle) {
    0 <= h < |s.chunks| && 0 <= s.chunks[h].prev < |s.chunks| && Mergeable(s.chunks[s.chunks[h].prev], s.chunks[h])
  }

  /** The floating chunk `h` absorbs its successor if that is free and of the same stream. */
  function CoalesceNext(s: Core, h: Handle): Core {
    if !MergesNext(s, h) then s
    else Merge(WithoutBin(s, s.chunks[h].next), h, s.chunks[h].next)
  }

  /** The floating chunk `h` is absorbed by its predecessor if that is free and of the same stream. */
  function CoalescePrev(s: Core, h: Handle): (Core, Handle) {
    if !MergesPrev(s, h) then (s, h)
    else (Merge(WithoutBin(s, s.chunks[h].prev), s.chunks[h].prev, h), s.chunks[h].prev)
  }

  /** `h` and its successor are not two free chunks of the same stream. */
  ghost predicate Settled(s: Core, h: Handle) {
    h in s.home ==> !MergesNext(s, h)
  }

  ghost predicate NoAdjacentFree(s: Core) {
    forall h {:trigger Settled(s, h)} :: Settled(s, h)
  }

  // ---- What callers and streams own ----------------------------------------------------------------------------

  /** What the arena remembers of a pointer it has handed out. */
  datatype Grant = Grant(size: nat, requestedSize: nat, allocationId: int, stream: Stream, streamSyncId: nat)

  ghost function GrantOf(c: Chunk): Grant {
    Grant(c.size, c.requestedSize, c.allocationId, c.stream, c.streamSyncId)
  }

  ghost function GrantAt(s: Core, p: nat): Option<Grant> {
    if p in s.index && 0 <= s.index[p] < |s.chunks| && s.chunks[s.index[p]].InUse()
    then Some(GrantOf(s.chunks[s.index[p]])) else None
  }

  /** A free chunk as a request sees it. */
  datatype FreeChunk = FreeChunk(size: nat, stream: Stream, syncId: nat)

  ghost function FreeAt(s: Core, p: nat): Option<FreeChunk> {
    if p in s.index && 0 <= s.index[p] < |s.chunks| && !s.chunks[s.index[p]].InUse()
    then Some(FreeOf(s.chunks[s.index[p]])) else None
  }

  ghost function FreeOf(c: Chunk): FreeChunk {
    FreeChunk(c.size, c.stream, c.streamSyncId)
  }

  ghost predicate SameFreeBut(s: Core, t: Core, p: nat) {
    forall a: nat {:trigger FreeAt(t, a)} | a != p :: FreeAt(t, a) == FreeAt(s, a)
  }

  ghost predicate IsFreePart(s: Core, h: Handle, a: nat, stream: Stream) {
    && h in s.home && 0 <= h < |s.chunks| && !s.chunks[h].InUse()
    && s.chunks[h].ptr <= a < s.chunks[h].End() && s.chunks[h].stream == stream
  }

  /** Byte `a` is free, and the last one to have it was `stream`. */
  ghost predicate IsFreeFor(s: Core, a: nat, stream: Stream) {
    exists h :: IsFreePart(s, h, a, stream)
  }

  ghost predicate FreeFacts(s: Core, t: Core, u: Unfolding) {
    forall a: nat, stream: Stream {:trigger IsFreeFor(t, a, stream)} ::
      IsFreeFor(t, a, stream) <==> IsFreeFor(s, a, stream)
  }

  /** The same bytes are free, for the same streams. */
  ghost predicate SameFreeBytes(s: Core, t: Core) {
    forall u {:trigger FreeFacts(s, t, u)} :: FreeFacts(s, t, u)
  }

  /** Besides, the bytes of a grant that began at `p` are free for its stream. */
  ghost predicate FreesBytes(s: Core, t: Core, p: nat, g: Grant) {
    forall a: nat, stream: Stream {:trigger IsFreeFor(t, a, stream)} ::
      IsFreeFor(t, a, stream) <==> IsFreeFor(s, a, stream) || (p <= a < p + g.size && stream == g.stream)
  }

  ghost predicate SameGrants(s: Core, t: Core) {
    forall p: nat {:trigger GrantAt(t, p)} :: GrantAt(t, p) == GrantAt(s, p)
  }

  /** The stream a byte of device memory was last given to, and that stream's sync id at that time. */
  datatype Tag = Tag(stream: Stream, syncId: nat)

  /** Every tagged byte of the chunk was given to the chunk's stream, at a sync id no larger than the chunk's. */
  ghost predicate Covers(c: Chunk, tags: map<nat, Tag>) {
    forall a | a in tags && c.ptr <= a < c.End() ::
      c.stream == tags[a].stream != NULL_STREAM && tags[a].syncId <= c.streamSyncId
  }

  ghost predicate Owns(s: Core, tags: map<nat, Tag>, h: Handle) {
    0 <= h < |s.chunks| && Covers(s.chunks[h], tags)
  }

  ghost predicate Tagged(s: Core, tags: map<nat, Tag>) {
    forall h {:trigger Owns(s, tags, h)} | h in s.home :: Owns(s, tags, h)
  }

  // ---- Bytes in use --------------------------------------------------------------------------------------------

  function Use(c: Chunk): nat {
    if c.InUse() then c.size else 0
  }

  function SumUse(chunks: seq<Chunk>): nat {
    if chunks == [] then 0 else SumUse(chunks[..|chunks| - 1]) + Use(chunks[|chunks| - 1])
  }
}
