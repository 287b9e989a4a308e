/** Which free chunk a request gets. */
module ArenaSearch {
  import opened ArenaTypes
  import opened ArenaCore
  import opened ArenaSteps

  /** A request of `stream` may take chunk `c`: it is nobody's, its own, or `stream` has waited for the chunk's
      stream since the chunk was given to it. */
  predicate SafeToUse(c: Chunk, stream: Stream, lastWait: (Stream, Stream) -> nat) {
    || c.stream == stream || c.stream == NULL_STREAM
    || (stream != NULL_STREAM && c.streamSyncId < lastWait(c.stream, stream))
  }

  predicate Fits(c: Chunk, bytes: nat, stream: Stream, lastWait: (Stream, Stream) -> nat) {
    !c.InUse() && bytes <= c.size && SafeToUse(c, stream, lastWait)
  }

  ghost predicate Candidate(s: Core, h: Handle, bytes: nat, stream: Stream, lastWait: (Stream, Stream) -> nat) {
    h in s.home && 0 <= h < |s.chunks| && Fits(s.chunks[h], bytes, stream, lastWait)
  }

  /** The order of a bin: by size, then by address. */
  predicate Before(c: Chunk, d: Chunk) {
    c.size < d.size || (c.size == d.size && c.ptr < d.ptr)
  }

  ghost predicate BestFit(s: Core, h: Handle, bytes: nat, stream: Stream, lastWait: (Stream, Stream) -> nat) {
    && Candidate(s, h, bytes, stream, lastWait)
    && forall x | Candidate(s, x, bytes, stream, lastWait) && x != h :: Before(s.chunks[h], s.chunks[x])
  }

  ghost predicate NoFit(s: Core, bytes: nat, stream: Stream, lastWait: (Stream, Stream) -> nat) {
    forall x :: !Candidate(s, x, bytes, stream, lastWait)
  }

  // ---- The same without handles ----------------------------------------------------------------------------------

  /** The stream may be given so many bytes of a free chunk: the chunk is large enough and nobody's, or was the
      stream's own, or the stream has waited for the other one since. */
  ghost predicate IsOpen(c: FreeChunk, bytes: nat, stream: Stream, lastWait: (Stream, Stream) -> nat) {
    && bytes <= c.size
    && (c.stream == NULL_STREAM || c.stream == stream || (stream != NULL_STREAM && lastWait(c.stream, stream) > c.syncId))
  }

  ghost predicate IsOpenAt(s: Core, p: nat, bytes: nat, stream: Stream, lastWait: (Stream, Stream) -> nat) {
    FreeAt(s, p).Some? && IsOpen(FreeAt(s, p).value, bytes, stream, lastWait)
  }

  ghost predicate NothingIsOpen(s: Core, bytes: nat, stream: Stream, lastWait: (Stream, Stream) -> nat) {
    forall p: nat :: !IsOpenAt(s, p, bytes, stream, lastWait)
  }

  /** The smallest chunk open to the request begins at `p`, and of those the one at the lowest address. */
  ghost predicate IsSmallestOpen(s: Core, p: nat, bytes: nat, stream: Stream, lastWait: (Stream, Stream) -> nat) {
    && IsOpenAt(s, p, bytes, stream, lastWait)
    && forall q: nat {:trigger FreeAt(s, q)} | IsOpenAt(s, q, bytes, stream, lastWait) && q != p ::
        var n, m := FreeAt(s, p).value.size, FreeAt(s, q).value.size;
        n < m || (n == m && p < q)
  }

  lemma OpenIsCandidate(s: Core, h: Handle, bytes: nat, stream: Stream, lastWait: (Stream, Stream) -> nat)
    requires Tiled(s) && h in s.home
    ensures 0 <= h < |s.chunks| && s.chunks[h].ptr in s.index && s.index[s.chunks[h].ptr] == h
    ensures IsOpenAt(s, s.chunks[h].ptr, bytes, stream, lastWait) <==> Candidate(s, h, bytes, stream, lastWait)
  {
    assert LiveOk(s, h);
  }

  lemma OpenIsIndexed(s: Core, p: nat, bytes: nat, stream: Stream, lastWait: (Stream, Stream) -> nat)
    requires Tiled(s) && IsOpenAt(s, p, bytes, stream, lastWait)
    ensures s.index[p] in s.home && s.chunks[s.index[p]].ptr == p
    ensures Candidate(s, s.index[p], bytes, stream, lastWait)
  {
    assert Indexed(s, p);
    OpenIsCandidate(s, s.index[p], bytes, stream, lastWait);
  }

  lemma NoFitIsNothingOpen(s: Core, bytes: nat, stream: Stream, lastWait: (Stream, Stream) -> nat)
    requires Tiled(s)
    ensures NoFit(s, bytes, stream, lastWait) <==> NothingIsOpen(s, bytes, stream, lastWait)
  {
    forall p: nat | IsOpenAt(s, p, bytes, stream, lastWait)
      ensures !NoFit(s, bytes, stream, lastWait)
    {
      OpenIsIndexed(s, p, bytes, stream, lastWait);
    }
    forall h | Candidate(s, h, bytes, stream, lastWait)
      ensures !NothingIsOpen(s, bytes, stream, lastWait)
    {
      OpenIsCandidate(s, h, bytes, stream, lastWait);
    }
  }

  lemma BestFitIsSmallestOpen(s: Core, h: Handle, bytes: nat, stream: Stream, lastWait: (Stream, Stream) -> nat)
    requires Tiled(s) && BestFit(s, h, bytes, stream, lastWait)
    ensures IsSmallestOpen(s, s.chunks[h].ptr, bytes, stream, lastWait)
  {
    OpenIsCandidate(s, h, bytes, stream, lastWait);
    var p := s.chunks[h].ptr;
    forall q: nat | IsOpenAt(s, q, bytes, stream, lastWait) && q != p
      ensures var n, m := FreeAt(s, p).value.size, FreeAt(s, q).value.size;
        n < m || (n == m && p < q)
    {
      OpenIsIndexed(s, q, bytes, stream, lastWait);
      assert Before(s.chunks[h], s.chunks[s.index[q]]);
    }
  }

  ghost predicate FirstOf(s: Core, hs: set<Handle>, h: Handle) {
    && h in hs && (forall x | x in hs :: 0 <= x < |s.chunks|)
    && forall x | x in hs && x != h :: Before(s.chunks[h], s.chunks[x])
  }

  lemma Ordered(s: Core, g: Handle, h: Handle)
    requires Tiled(s) && g in s.home && h in s.home && g != h
    ensures 0 <= g < |s.chunks| && 0 <= h < |s.chunks|
    ensures Before(s.chunks[g], s.chunks[h]) || Before(s.chunks[h], s.chunks[g])
  {
    assert LiveOk(s, g) && LiveOk(s, h);
  }

  lemma EmptyOrNot(hs: set<Handle>)
    ensures hs == {} || exists h :: h in hs
  {
    if forall h :: h !in hs {
      assert hs == {};
    }
  }

  lemma AnyOf(hs: set<Handle>) returns (h: Handle)
    requires hs != {}
    ensures h in hs
  {
    EmptyOrNot(hs);
    h :| h in hs;
  }

  /** A set of live chunks has a first one: the comparator of a bin orders them all, since no two share an address. */
  lemma {:induction false} FirstExists(s: Core, hs: set<Handle>) returns (h: Handle)
    requires Tiled(s) && hs != {} && hs <= s.home.Keys
    requires forall x | x in hs :: 0 <= x < |s.chunks|
    ensures FirstOf(s, hs, h)
    decreases hs
  {
    h := AnyOf(hs);
    if hs != {h} {
      var g := FirstExists(s, hs - {h});
      Ordered(s, g, h);
      if Before(s.chunks[g], s.chunks[h]) {
        h := g;
      }
    }
  }

  /** Every candidate is in a bin from BinNumForSize(bytes) on. */
  lemma CandidateBin(s: Core, h: Handle, bytes: nat, stream: Stream, lastWait: (Stream, Stream) -> nat)
    requires CoreOk(s, {}) && Candidate(s, h, bytes, stream, lastWait)
    ensures BinNumForSize(bytes) <= BinNumForSize(s.chunks[h].size) && h in s.bins[BinNumForSize(s.chunks[h].size)]
  {
    assert BinOk(s, {}, h);
    BinsAreOrdered(bytes, s.chunks[h].size);
  }

  /** The first chunk of bin `b` that fits, when no smaller bin has one, is the best fit of all. */
  lemma FirstFitIsBestFit(s: Core, b: nat, h: Handle, passed: set<Handle>, bytes: nat, stream: Stream,
                          lastWait: (Stream, Stream) -> nat)
    requires CoreOk(s, {}) && BinNumForSize(bytes) <= b < 21
    requires Candidate(s, h, bytes, stream, lastWait)
    requires FirstOf(s, s.bins[b] - passed, h)
    requires forall c: nat, x | BinNumForSize(bytes) <= c < b && x in s.bins[c] ::
               !Candidate(s, x, bytes, stream, lastWait)
    requires forall x | x in passed :: !Candidate(s, x, bytes, stream, lastWait)
    ensures BestFit(s, h, bytes, stream, lastWait)
  {
    forall x | Candidate(s, x, bytes, stream, lastWait) && x != h
      ensures Before(s.chunks[h], s.chunks[x])
    {
      CandidateBin(s, x, bytes, stream, lastWait);
      assert InBinOk(s, {}, b, h) && BinOk(s, {}, h);
      if BinNumForSize(s.chunks[x].size) != b {
        BinsAreOrdered(s.chunks[h].size, s.chunks[x].size);
      }
    }
  }

  lemma BinIsLive(s: Core, b: nat, hs: set<Handle>)
    requires CoreOk(s, {}) && b < 21 && hs <= s.bins[b]
    ensures hs <= s.home.Keys && forall x | x in hs :: 0 <= x < |s.chunks|
  {
    forall x | x in hs
      ensures x in s.home && 0 <= x < |s.chunks|
    {
      assert InBinOk(s, {}, b, x);
    }
  }

  /** A byte may pass to `stream` when nobody owns it, when `stream` does, or when `stream` has waited for its owner
      since the owner got it. A request without a stream never takes over a byte a stream owns. */
  ghost predicate MayTake(tags: map<nat, Tag>, a: nat, stream: Stream, lastWait: (Stream, Stream) -> nat) {
    a in tags ==>
      && stream != NULL_STREAM
      && (tags[a].stream == stream || tags[a].syncId < lastWait(tags[a].stream, stream))
  }

  /** The check on the chunk's own stream and sync id is enough for every byte of the chunk. */
  lemma CandidateBytesMayBeTaken(s: Core, h: Handle, tags: map<nat, Tag>, bytes: nat, stream: Stream,
                                 lastWait: (Stream, Stream) -> nat)
    requires Tagged(s, tags) && Candidate(s, h, bytes, stream, lastWait)
    ensures forall a: nat | s.chunks[h].ptr <= a < s.chunks[h].End() :: MayTake(tags, a, stream, lastWait)
  {
    assert Owns(s, tags, h);
  }
}
