/** The arena allocator. The methods make the field updates of the program one by one; each low-level method is
    proved to be one step of ArenaCore, and the public ones to keep the whole invariant. */
module Arena {
  import opened Hiding
  import opened Options
  import opened ArenaTypes
  import opened ArenaRegions
  import opened ArenaCore
  import opened ArenaSteps
  import opened ArenaTiling
  import opened ArenaOwnership
  import opened ArenaCoalescing
  import opened ArenaGrowth
  import opened ArenaSearch
  import opened ArenaAccounts
  import opened ArenaGranting
  import opened ArenaDropping
  import opened ArenaRecords

  class ArenaImpl {
    const config: Config
    const considerFirstRegionForShrinkage: bool
    const regionManager: RegionManager
    var currRegionAllocationBytes: nat
    var nextAllocationId: int
    var chunks: seq<Chunk>
    var freeChunksList: Handle
    var bins: seq<set<Handle>>
    var reservedChunks: map<nat, nat>
    var streamToChunks: map<Stream, set<Handle>>
    var stats: Stats

    /** The regions of the live chunks, the list of unused records, the last owner of every byte, and whether memory
        has ever been reserved outside the regions. */
    ghost var home: map<Handle, nat>
    ghost var freeSeq: seq<Handle>
    ghost var tags: map<nat, Tag>
    ghost var everReserved: bool
    ghost var model: Core

    ghost function View(): Core
      reads this, regionManager
    {
      Core(chunks, home, regionManager.blocks, regionManager.index, bins, freeSeq)
    }

    /** The parts of the state that are kept twice agree, and stream sets hold handles of the table. */
    ghost predicate LinkedBut(exempt: Handle)
      reads this, regionManager
    {
      && regionManager.Valid()
      && freeChunksList == FreeListHead(View())
      && HandlesBounded(streamToChunks, |chunks|)
      && StreamsKnow(chunks, streamToChunks, exempt)
    }

    /** A chunk in use for a stream is in that stream's set. */
    ghost predicate Linked()
      reads this, regionManager
    {
      LinkedBut(INVALID)
    }

    twostate predicate KeepsRecords()
      reads this
    {
      forall e {:trigger StreamsKnow(chunks, streamToChunks, e)} ::
        StreamsKnow(old(chunks), old(streamToChunks), e) ==> StreamsKnow(chunks, streamToChunks, e)
    }

    twostate lemma RecordsKept()
      requires streamToChunks == old(streamToChunks) && SameUse(old(chunks), chunks)
      ensures KeepsRecords()
    {
      forall e | StreamsKnow(old(chunks), old(streamToChunks), e) ensures StreamsKnow(chunks, streamToChunks, e) {
        StreamsKnowStill(old(chunks), chunks, streamToChunks, e);
      }
    }

    /** The chunk table, regions and bins are consistent, up to the floating chunks. */
    ghost predicate Sound(floating: set<Handle>)
      reads this, regionManager
    {
      Linked() && CoreOk(View(), floating)
    }

    ghost predicate Valid()
      reads this, regionManager
    {
      && Linked()
      && config.Valid() && considerFirstRegionForShrinkage == config.strategy.SameAsRequested?
      && model == View()
      && ArenaOk(config, model, nextAllocationId, tags, reservedChunks, stats)
      && 0 < currRegionAllocationBytes && currRegionAllocationBytes % 256 == 0
      && (!everReserved ==> reservedChunks == map[] && stats.totalAllocatedBytes <= config.maxMem)
    }

    /** What the invariant says of the arena, laid open. */
    lemma ValidUnfolds()
      requires Valid()
      ensures ArenaButSettled(config, model, nextAllocationId, tags, reservedChunks, stats) && NoAdjacentFree(model)
    {
      ArenaUnfolds(config, model, nextAllocationId, tags, reservedChunks, stats);
    }

    constructor (c: Config)
      requires c.Valid()
      ensures Valid() && fresh(regionManager)
      ensures config == c && forall p: nat :: GrantAt(View(), p) == None
      ensures reservedChunks == map[] && !everReserved && model.blocks == map[]
      ensures stats == Stats(0, 0, 0, 0, 0, 0, 0, 0, c.maxMem)
      ensures currRegionAllocationBytes % 256 == 0
      ensures currRegionAllocationBytes - 256 < c.maxMem && currRegionAllocationBytes - 256 < c.initialChunkSizeBytes
      ensures c.maxMem <= currRegionAllocationBytes || c.initialChunkSizeBytes <= currRegionAllocationBytes
    {
      config := c;
      considerFirstRegionForShrinkage := c.strategy.SameAsRequested?;
      regionManager := new RegionManager();
      var first := if c.maxMem < c.initialChunkSizeBytes then c.maxMem else c.initialChunkSizeBytes;
      currRegionAllocationBytes := RoundedBytes(first);
      nextAllocationId := 1;
      chunks := [];
      freeChunksList := INVALID;
      bins := seq(21, _ => {});
      reservedChunks := map[];
      streamToChunks := map[];
      stats := Stats(0, 0, 0, 0, 0, 0, 0, 0, c.maxMem);
      home, freeSeq, tags, everReserved := map[], [], map[], false;
      new;
      model := View();
      NothingYet(model, c, stats);
      StreamsKnowFolds(chunks, streamToChunks, INVALID);
      ArenaFolds(config, model, nextAllocationId, tags, reservedChunks, stats);
    }

    // ---- Records -------------------------------------------------------------------------------------------------

    method AllocateChunk() returns (h: Handle)
      requires freeChunksList == FreeListHead(View())
      requires freeSeq != [] ==> UnusedOk(View(), 0)
      modifies this`chunks, this`freeChunksList, this`freeSeq
      ensures h == TakenRecord(old(View())) && View() == TakeRecord(old(View()))
      ensures freeChunksList == FreeListHead(View()) && |old(chunks)| <= |chunks| && KeepsRecords()
    {
      if freeChunksList != INVALID {
        h := freeChunksList;
        freeChunksList := chunks[h].next;
        freeSeq := freeSeq[1..];
      } else {
        h := |chunks|;
        chunks := chunks + [DEFAULT_CHUNK];
      }
      RecordsKept();
    }

    method Unrecord(h: Handle, s: Stream)
      modifies this`streamToChunks
      ensures streamToChunks == WithoutRecord(old(streamToChunks), h, s)
    {
      if s in streamToChunks {
        streamToChunks := streamToChunks[s := streamToChunks[s] - {h}];
        if streamToChunks[s] == {} {
          streamToChunks := streamToChunks - {s};
        }
      }
    }

    method DeallocateChunk(h: Handle)
      requires 0 <= h < |chunks|
      modifies this`chunks, this`freeChunksList, this`freeSeq, this`streamToChunks
      ensures chunks == Released(old(chunks), h, old(freeChunksList))
      ensures freeChunksList == h && freeSeq == [h] + old(freeSeq)
      ensures HandlesBounded(old(streamToChunks), |chunks|) ==> HandlesBounded(streamToChunks, |chunks|)
      ensures !old(chunks[h].InUse()) ==> KeepsRecords()
    {
      if chunks[h].stream != NULL_STREAM {
        var s := chunks[h].stream;
        Unrecord(h, s);
        chunks := chunks[h := chunks[h].(stream := NULL_STREAM, streamSyncId := 0)];
      }
      chunks := chunks[h := chunks[h].(next := freeChunksList)];
      freeChunksList := h;
      freeSeq := [h] + freeSeq;
      forall e | StreamsKnow(old(chunks), old(streamToChunks), e) && !old(chunks[h].InUse())
        ensures StreamsKnow(chunks, streamToChunks, e)
      {
        StreamsForget(old(chunks), old(streamToChunks), chunks, old(chunks[h].stream), h, e);
      }
    }

    method InsertFreeChunkIntoBin(h: Handle)
      requires 0 <= h < |chunks| && |bins| == 21
      requires !chunks[h].InUse() && chunks[h].binNum == INVALID
      modifies this`chunks, this`bins
      ensures View() == WithBin(old(View()), h) && KeepsRecords()
    {
      var binNum := BinNumForSize(chunks[h].size);
      chunks := chunks[h := chunks[h].(binNum := binNum)];
      bins := bins[binNum := bins[binNum] + {h}];
      RecordsKept();
    }

    method RemoveFreeChunkFromBin(h: Handle)
      requires 0 <= h < |chunks| && |bins| == 21
      requires !chunks[h].InUse() && 0 <= chunks[h].binNum < 21 && h in bins[chunks[h].binNum]
      modifies this`chunks, this`bins
      ensures View() == WithoutBin(old(View()), h) && KeepsRecords()
    {
      var binNum := chunks[h].binNum;
      bins := bins[binNum := bins[binNum] - {h}];
      chunks := chunks[h := chunks[h].(binNum := INVALID)];
      RecordsKept();
    }

    /** Splits the floating chunk `h` after `bytes` bytes; the remainder goes to its bin. */
    method SplitChunk(h: Handle, bytes: nat)
      requires Linked() && |bins| == 21 && SplitReady(View(), h, bytes)
      requires freeSeq != [] ==> UnusedOk(View(), 0)
      modifies this`chunks, this`freeChunksList, this`freeSeq, this`home, this`bins
      modifies regionManager`regions, regionManager`index
      ensures Linked()
      ensures View() == WithBin(Split(old(View()), h, bytes), TakenRecord(old(View())))
      ensures SameShape(regionManager.regions, old(regionManager.regions))
    {
      var k := DivideChunk(h, bytes);
      InsertFreeChunkIntoBin(k);
    }

    method DivideChunk(h: Handle, bytes: nat) returns (k: Handle)
      requires Linked() && SplitReady(View(), h, bytes)
      requires freeSeq != [] ==> UnusedOk(View(), 0)
      modifies this`chunks, this`freeChunksList, this`freeSeq, this`home
      modifies regionManager`regions, regionManager`index
      ensures Linked() && View() == Split(old(View()), h, bytes)
      ensures k == TakenRecord(old(View())) && 0 <= k < |chunks| && !chunks[k].InUse() && chunks[k].binNum == INVALID
      ensures SameShape(regionManager.regions, old(regionManager.regions))
    {
      k := AllocateChunk();
      regionManager.SetHandle(chunks[h].ptr + bytes, k, home[h]);
      DivideRecords(h, k, bytes);
      home := home[k := home[h]];
    }

    method DivideRecords(h: Handle, k: Handle, bytes: nat)
      requires 0 <= h < |chunks| && 0 <= k < |chunks| && h != k && bytes <= chunks[h].size
      requires chunks[h].next != k && (chunks[h].next == INVALID || 0 <= chunks[h].next < |chunks|)
      requires !chunks[h].InUse() && chunks[h].binNum == INVALID
      modifies this`chunks
      ensures chunks == SplitChunks(old(chunks), h, k, bytes)
      ensures !old(chunks[k].InUse()) ==> KeepsRecords()
    {
      var c := chunks[h];
      chunks := chunks[k := chunks[k].(stream := c.stream, streamSyncId := c.streamSyncId, ptr := c.ptr + bytes)];
      chunks := chunks[k := chunks[k].(size := c.size - bytes)];
      chunks := chunks[h := c.(size := bytes)];
      chunks := chunks[k := chunks[k].(allocationId := -1)];
      var neighbor := c.next;
      chunks := chunks[k := chunks[k].(prev := h, next := neighbor)];
      chunks := chunks[h := chunks[h].(next := k)];
      if neighbor != INVALID {
        chunks := chunks[neighbor := chunks[neighbor].(prev := k)];
      }
      assert chunks == SplitChunks(old(chunks), h, k, bytes);
      if !old(chunks[k].InUse()) {
        RecordsKept();
      }
    }

    /** Merges chunk `h2` into its predecessor `h1`; both are free and of one stream. */
    method Merge(h1: Handle, h2: Handle)
      requires Linked() && MergeReady(View(), h1, h2)
      modifies this`chunks, this`freeChunksList, this`freeSeq, this`home, this`streamToChunks
      modifies regionManager`regions, regionManager`index
      ensures Linked()
      ensures View() == ArenaCore.Merge(old(View()), h1, h2)
      ensures SameShape(regionManager.regions, old(regionManager.regions))
    {
      ghost var t := ArenaCore.Merge(View(), h1, h2);
      var c1, c2 := chunks[h1], chunks[h2];
      assert !c1.InUse() && !c2.InUse() && c1.stream == c2.stream && c2.prev == h1;
      Absorb(h1, h2);
      DeleteChunk(h2);
      assert chunks == t.chunks;
    }

    /** The first of two chunks takes over the size, the successor and, if it is later, the sync id of the second. */
    method Absorb(h1: Handle, h2: Handle)
      requires Linked() && MergeReady(View(), h1, h2)
      modifies this`chunks
      ensures Linked() && View() == old(View()).(chunks := chunks) && |chunks| == |old(chunks)|
      ensures Released(chunks, h2, freeChunksList) == ArenaCore.Merge(old(View()), h1, h2).chunks
      ensures !chunks[h2].InUse() && chunks[h2].ptr == old(chunks[h2].ptr)
    {
      var c1, c2 := chunks[h1], chunks[h2];
      var h3 := c2.next;
      chunks := chunks[h1 := c1.(next := h3)];
      if h3 != INVALID {
        chunks := chunks[h3 := chunks[h3].(prev := h1)];
      }
      chunks := chunks[h1 := chunks[h1].(size := chunks[h1].size + chunks[h2].size)];
      chunks := chunks[h1 := chunks[h1].(streamSyncId := if c1.streamSyncId < c2.streamSyncId then c2.streamSyncId
                                                         else c1.streamSyncId)];
      RecordsKept();
    }

    method DeleteChunk(h: Handle)
      requires Linked()
      requires 0 <= h < |chunks| && !chunks[h].InUse() && chunks[h].ptr in regionManager.index
      modifies this`chunks, this`freeChunksList, this`freeSeq, this`home, this`streamToChunks
      modifies regionManager`regions, regionManager`index
      ensures Linked()
      ensures View() == Delete(old(View()), h)
      ensures SameShape(regionManager.regions, old(regionManager.regions))
    {
      regionManager.Erase(chunks[h].ptr);
      DeallocateChunk(h);
      home := home - {h};
    }

    /** Merges the floating chunk `h` with a free successor and a free predecessor of its stream. */
    method Coalesce(h: Handle) returns (r: Handle)
      requires Sound({h}) && Floats(View(), h)
      modifies this`chunks, this`freeChunksList, this`freeSeq, this`home, this`streamToChunks, this`bins
      modifies regionManager`regions, regionManager`index
      ensures (View(), r) == Coalesced(old(View()), h)
      ensures Sound({r})
      ensures SameShape(regionManager.regions, old(regionManager.regions))
    {
      CoalesceNextOk(View(), h, tags);
      MergeNextIfFree(h);
      CoalescePrevOk(View(), h, tags);
      r := MergePrevIfFree(h);
    }

    method MergeNextIfFree(h: Handle)
      requires Sound({h}) && Floats(View(), h)
      modifies this`chunks, this`freeChunksList, this`freeSeq, this`home, this`streamToChunks, this`bins
      modifies regionManager`regions, regionManager`index
      ensures View() == CoalesceNext(old(View()), h)
      ensures Linked()
      ensures SameShape(regionManager.regions, old(regionManager.regions))
    {
      LiveNeighbours(View(), h);
      if chunks[h].next != INVALID {
        var n := chunks[h].next;
        if !chunks[n].InUse() && chunks[n].stream == chunks[h].stream {
          ReadyToMerge(View(), h, n, n);
          RemoveFreeChunkFromBin(n);
          Merge(h, chunks[h].next);
        }
      }
    }

    method MergePrevIfFree(h: Handle) returns (r: Handle)
      requires Sound({h}) && Floats(View(), h)
      modifies this`chunks, this`freeChunksList, this`freeSeq, this`home, this`streamToChunks, this`bins
      modifies regionManager`regions, regionManager`index
      ensures (View(), r) == CoalescePrev(old(View()), h)
      ensures Linked()
      ensures SameShape(regionManager.regions, old(regionManager.regions))
    {
      LiveNeighbours(View(), h);
      r := h;
      if chunks[h].prev != INVALID {
        var p := chunks[h].prev;
        if !chunks[p].InUse() && chunks[p].stream == chunks[h].stream {
          r := p;
          LiveNeighbours(View(), p);
          ReadyToMerge(View(), p, h, p);
          RemoveFreeChunkFromBin(p);
          Merge(chunks[h].prev, h);
        }
      }
    }
  
    // ---- Searching -----------------------------------------------------------------------------------------------

    /** Walks the bins from `binNum` on, each in its order, and stops at the first chunk that fits. */
    method Search(binNum: nat, rounded: nat, stream: Stream, lastWait: (Stream, Stream) -> nat) returns (h: Handle)
      requires model == View() && CoreOk(model, {}) && binNum == BinNumForSize(rounded)
      ensures h == INVALID ==> NoFit(model, rounded, stream, lastWait)
      ensures h != INVALID ==> BestFit(model, h, rounded, stream, lastWait)
    {
      ghost var s := model;
      var b := binNum;
      while b < 21
        invariant binNum <= b <= 21
        invariant forall c: nat, x | binNum <= c < b && x in bins[c] :: !Candidate(s, x, rounded, stream, lastWait)
      {
        var remaining := bins[b];
        while remaining != {}
          invariant remaining <= bins[b]
          invariant forall x | x in bins[b] - remaining :: !Candidate(s, x, rounded, stream, lastWait)
          decreases remaining
        {
          BinIsLive(s, b, remaining);
          ghost var first := FirstExists(s, remaining);
          h :| h in remaining && forall x | x in remaining && x != h :: Before(chunks[h], chunks[x]);
          assert InBinOk(s, {}, b, h);
          assert !chunks[h].InUse();
          if Fits(chunks[h], rounded, stream, lastWait) {
            assert s.bins[b] - (s.bins[b] - remaining) == remaining;
            FirstFitIsBestFit(s, b, h, s.bins[b] - remaining, rounded, stream, lastWait);
            return;
          }
          remaining := remaining - {h};
        }
        b := b + 1;
      }
      forall x
        ensures !Candidate(s, x, rounded, stream, lastWait)
      {
        if Candidate(s, x, rounded, stream, lastWait) {
          CandidateBin(s, x, rounded, stream, lastWait);
        }
      }
      h := INVALID;
    }
  
    // ---- Allocating ----------------------------------------------------------------------------------------------

    /** Takes the free chunk `h` out of its bin, splits it when that pays, and marks it in use. */
    method SplitFreeChunkFromBin(h: Handle, rounded: nat, numBytes: nat)
      requires Linked() && CutPre(View(), h, rounded, config.maxDeadBytesPerChunk) && |bins| == 21
      modifies this`chunks, this`freeChunksList, this`freeSeq, this`home, this`bins
      modifies this`nextAllocationId, this`stats
      modifies regionManager`regions, regionManager`index
      ensures LinkedBut(h) && 0 <= h < |chunks|
      ensures 0 <= h < |Cut(old(View()), h, rounded, config.maxDeadBytesPerChunk).chunks|
      ensures View() == Hand(Cut(old(View()), h, rounded, config.maxDeadBytesPerChunk), h, numBytes,
                             old(nextAllocationId), NULL_STREAM, 0)
      ensures nextAllocationId == old(nextAllocationId) + 1
      ensures stats == GrantedStats(old(stats), chunks[h].size)
      ensures SameShape(regionManager.regions, old(regionManager.regions))
    {
      CutIsReady(View(), h, rounded, config.maxDeadBytesPerChunk);
      CutSize(View(), h, rounded, config.maxDeadBytesPerChunk);
      RemoveFreeChunkFromBin(h);
      if chunks[h].size >= rounded * 2 || chunks[h].size - rounded >= config.maxDeadBytesPerChunk {
        SplitChunk(h, rounded);
      }
      MarkInUse(h, numBytes);
    }

    method MarkInUse(h: Handle, numBytes: nat)
      requires 0 <= h < |chunks|
      modifies this`chunks, this`nextAllocationId, this`stats
      ensures View() == Hand(old(View()), h, numBytes, old(nextAllocationId), NULL_STREAM, 0)
      ensures old(StreamsKnow(chunks, streamToChunks, INVALID)) ==> StreamsKnow(chunks, streamToChunks, h)
      ensures nextAllocationId == old(nextAllocationId) + 1
      ensures stats == GrantedStats(old(stats), chunks[h].size)
    {
      chunks := chunks[h := chunks[h].(requestedSize := numBytes)];
      chunks := chunks[h := chunks[h].(allocationId := nextAllocationId)];
      nextAllocationId := nextAllocationId + 1;
      stats := GrantedStats(stats, chunks[h].size);
      if old(StreamsKnow(chunks, streamToChunks, INVALID)) {
        StreamsKnowOthers(old(chunks), chunks, streamToChunks, h);
      }
    }

    method AssignToStream(h: Handle, stream: Stream, syncId: nat)
      requires 0 <= h < |chunks| && LinkedBut(h)
      requires stream == NULL_STREAM ==> chunks[h].stream == NULL_STREAM
      modifies this`chunks, this`streamToChunks
      ensures chunks == old(chunks)[h := Assigned(old(chunks[h]), stream, syncId)]
      ensures Linked()
    {
      if stream != NULL_STREAM {
        chunks := chunks[h := chunks[h].(stream := stream, streamSyncId := syncId)];
        var known := if stream in streamToChunks then streamToChunks[stream] else {};
        streamToChunks := streamToChunks[stream := known + {h}];
      }
      StreamsKnowToo(old(chunks), old(streamToChunks), chunks, streamToChunks, h);
    }

    method Take(h: Handle, rounded: nat, numBytes: nat, stream: Stream, syncId: nat)
      requires Linked() && CutPre(View(), h, rounded, config.maxDeadBytesPerChunk) && |bins| == 21
      requires stream == NULL_STREAM ==> chunks[h].stream == NULL_STREAM
      modifies this`chunks, this`freeChunksList, this`freeSeq, this`home, this`bins
      modifies this`nextAllocationId, this`stats, this`streamToChunks, this`tags, this`model
      modifies regionManager`regions, regionManager`index
      ensures Linked() && model == View() && 0 <= h < |chunks|
      ensures tags == TagsAfter(old(tags), model.chunks[h], stream, syncId)
      ensures 0 <= h < |Cut(old(View()), h, rounded, config.maxDeadBytesPerChunk).chunks|
      ensures View() == Hand(Cut(old(View()), h, rounded, config.maxDeadBytesPerChunk), h, numBytes,
                             old(nextAllocationId), stream, syncId)
      ensures nextAllocationId == old(nextAllocationId) + 1
      ensures stats == GrantedStats(old(stats), chunks[h].size)
      ensures SameShape(regionManager.regions, old(regionManager.regions))
    {
      ghost var cut, id := Cut(View(), h, rounded, config.maxDeadBytesPerChunk), nextAllocationId;
      CutSize(View(), h, rounded, config.maxDeadBytesPerChunk);
      SplitFreeChunkFromBin(h, rounded, numBytes);
      HandThenAssign(cut, h, numBytes, id, stream, syncId);
      AssignToStream(h, stream, syncId);
      model := View();
      tags := TagsAfter(tags, chunks[h], stream, syncId);
    }

    /** The best fitting free chunk, handed to `stream`; INVALID when no free chunk fits. */
    method FindChunkPtr(binNum: nat, rounded: nat, numBytes: nat, stream: Stream,
                        lastWait: (Stream, Stream) -> nat, syncId: Stream -> nat) returns (h: Handle)
      requires Valid()
      requires binNum == BinNumForSize(rounded) && 0 < numBytes <= rounded && rounded % 256 == 0
      modifies this`chunks, this`freeChunksList, this`freeSeq, this`home, this`bins
      modifies this`nextAllocationId, this`stats, this`streamToChunks, this`tags, this`model
      modifies regionManager`regions, regionManager`index
      ensures Valid()
      ensures SameShape(regionManager.regions, old(regionManager.regions))
      ensures stats.totalAllocatedBytes == old(stats.totalAllocatedBytes)
      ensures h == INVALID ==> NoFit(old(model), rounded, stream, lastWait)
      ensures h == INVALID ==> model == old(model) && tags == old(tags) && stats == old(stats) &&
                               nextAllocationId == old(nextAllocationId)
      ensures h != INVALID ==> BestFit(old(model), h, rounded, stream, lastWait)
      ensures h != INVALID ==>
                IsCutFrom(old(model), model, old(model).chunks[h].ptr, rounded, config.maxDeadBytesPerChunk)
      ensures h != INVALID ==>
                && Handed(old(model), model, h, numBytes, old(nextAllocationId), stream, syncId(stream))
                && tags == TagsAfter(old(tags), model.chunks[h], stream, syncId(stream))
                && CountsGrant(old(stats), stats, model.chunks[h].size)
    {
      ValidUnfolds();
      h := Search(binNum, rounded, stream, lastWait);
      if h != INVALID {
        CandidateIsReady(model, h, rounded, stream, lastWait, config.maxDeadBytesPerChunk);
        HandOut(h, rounded, numBytes, stream, syncId(stream));
      }
    }

    method HandOut(h: Handle, rounded: nat, numBytes: nat, stream: Stream, syncId: nat)
      requires Valid() && CutPre(model, h, rounded, config.maxDeadBytesPerChunk) && |bins| == 21
      requires 0 < numBytes <= rounded && (stream == NULL_STREAM ==> chunks[h].stream == NULL_STREAM)
      modifies this`chunks, this`freeChunksList, this`freeSeq, this`home, this`bins
      modifies this`nextAllocationId, this`stats, this`streamToChunks, this`tags, this`model
      modifies regionManager`regions, regionManager`index
      ensures Valid()
      ensures SameShape(regionManager.regions, old(regionManager.regions))
      ensures stats.totalAllocatedBytes == old(stats.totalAllocatedBytes)
      ensures Handed(old(model), model, h, numBytes, old(nextAllocationId), stream, syncId)
      ensures IsCutFrom(old(model), model, old(model).chunks[h].ptr, rounded, config.maxDeadBytesPerChunk)
      ensures tags == TagsAfter(old(tags), model.chunks[h], stream, syncId)
      ensures CountsGrant(old(stats), stats, model.chunks[h].size)
    {
      ghost var s, was := model, stats;
      ghost var t := HandingKeepsArena(config, s, h, rounded, numBytes, nextAllocationId, stream, syncId, tags,
                                       reservedChunks, was);
      HandedToFit(s, h, rounded, config.maxDeadBytesPerChunk, numBytes, nextAllocationId, stream, syncId);
      Take(h, rounded, numBytes, stream, syncId);
    }
  
    // ---- Growing -------------------------------------------------------------------------------------------------

    method GetExtendBytes(bytes: nat, available: nat) returns (extend: nat)
      requires config.Valid() && 0 < currRegionAllocationBytes
      modifies this`currRegionAllocationBytes
      ensures (extend, currRegionAllocationBytes) == ExtendBytes(config, old(currRegionAllocationBytes), available, bytes)
    {
      match config.strategy
      case NextPowerOfTwo =>
        var increased := false;
        while currRegionAllocationBytes < bytes
          invariant 0 < currRegionAllocationBytes
          invariant Doubled(currRegionAllocationBytes, bytes) == Doubled(old(currRegionAllocationBytes), bytes)
          invariant increased <==> currRegionAllocationBytes != old(currRegionAllocationBytes)
          invariant old(currRegionAllocationBytes) <= currRegionAllocationBytes
          invariant increased ==> old(currRegionAllocationBytes) < bytes
          decreases bytes - currRegionAllocationBytes
        {
          currRegionAllocationBytes := currRegionAllocationBytes * 2;
          increased := true;
        }
        extend := if currRegionAllocationBytes < available then currRegionAllocationBytes else available;
        if !increased {
          if currRegionAllocationBytes * 2 < config.maxPowerOfTwoExtendBytes {
            currRegionAllocationBytes := currRegionAllocationBytes * 2;
          } else {
            currRegionAllocationBytes := config.maxPowerOfTwoExtendBytes;
          }
        }
      case SameAsRequested =>
        extend := bytes;
    }

    /** Asks the device for `bytes`, and for less and less as long as it refuses. */
    method AllocateFromDevice(bytes: nat, rounded: nat, device: nat -> Option<nat>, backoff: nat -> nat)
      returns (r: Option<(nat, nat)>)
      requires BacksOff(backoff)
      ensures r == Granted(bytes, rounded, device, backoff)
    {
      var size: nat := bytes;
      var mem := device(bytes);
      while mem.None?
        invariant mem == device(size)
        invariant Granted(size, rounded, device, backoff) == Granted(bytes, rounded, device, backoff)
        decreases size
      {
        var next := RoundedBytes(backoff(size));
        if next < rounded || next < 8192 {
          return None;
        }
        BackoffShrinks(size, backoff);
        size := next;
        mem := device(next);
      }
      r := Some((size, mem.value));
    }

    /** Adds a region that can hold `rounded` bytes, if the limit and the device allow one. */
    method Extend(rounded: nat, device: nat -> Option<nat>, backoff: nat -> nat) returns (ok: bool)
      requires Valid() && 0 < rounded && rounded % 256 == 0 && BacksOff(backoff)
      requires DeviceIsFresh(device, reservedChunks, model.blocks)
      modifies this`chunks, this`freeChunksList, this`freeSeq, this`home, this`bins, this`model
      modifies this`stats, this`currRegionAllocationBytes
      modifies regionManager
      ensures Valid()
      ensures ok == ExtendsTo(config, old(stats.totalAllocatedBytes), old(currRegionAllocationBytes), rounded, device,
                              backoff).Some?
      ensures Extends(config, old(stats.totalAllocatedBytes), old(currRegionAllocationBytes), rounded, device, backoff,
                      ExtendsTo(config, old(stats.totalAllocatedBytes), old(currRegionAllocationBytes), rounded, device,
                                backoff),
                      currRegionAllocationBytes)
      ensures !ok ==> model == old(model) && stats == old(stats)
      ensures ok ==>
                var (n, p) := ExtendsTo(config, old(stats.totalAllocatedBytes), old(currRegionAllocationBytes), rounded,
                                        device, backoff).value;
                && rounded <= n && FreeChunkAt(model, p, n)
                && IsExtension(old(model), model, p, n, old(stats.numArenaExtensions))
                && stats == ExtendedStats(old(stats), n)
    {
      var r := ObtainRegion(rounded, device, backoff);
      if r.None? {
        return false;
      }
      assert FreshBlock(r.value.1, r.value.0, reservedChunks, model.blocks);
      AddNewRegion(r.value.1, r.value.0);
      ok := true;
    }

    /** The size and address of a new region, as far as the limit and the device allow one. */
    method ObtainRegion(rounded: nat, device: nat -> Option<nat>, backoff: nat -> nat) returns (r: Option<(nat, nat)>)
      requires Valid() && 0 < rounded && rounded % 256 == 0 && BacksOff(backoff)
      modifies this`currRegionAllocationBytes
      ensures Valid()
      ensures r == ExtendsTo(config, stats.totalAllocatedBytes, old(currRegionAllocationBytes), rounded, device, backoff)
      ensures Extends(config, stats.totalAllocatedBytes, old(currRegionAllocationBytes), rounded, device, backoff, r,
                      currRegionAllocationBytes)
      ensures r.Some? ==>
                && rounded <= r.value.0 && r.value.0 % 256 == 0 && device(r.value.0) == Some(r.value.1)
                && (!everReserved ==> stats.totalAllocatedBytes + r.value.0 <= config.maxMem)
    {
      ValidUnfolds();
      ExtendsAsStated(config, stats.totalAllocatedBytes, currRegionAllocationBytes, rounded, device, backoff);
      var available := AvailableBytes(config.maxMem, stats.totalAllocatedBytes);
      if available < rounded {
        return None;
      }
      ExtendBytesOnGrid(config, currRegionAllocationBytes, available, rounded);
      ExtensionIsWithinLimit(config, stats.totalAllocatedBytes, currRegionAllocationBytes, rounded, device, backoff);
      var bytes := GetExtendBytes(rounded, available);
      r := AllocateFromDevice(bytes, rounded, device, backoff);
    }

    /** Registers a block from the device as a region that consists of one free chunk. */
    method AddNewRegion(mem: nat, bytes: nat)
      requires Valid() && 0 < bytes && bytes % 256 == 0
      requires FreshBlock(mem, bytes, reservedChunks, model.blocks)
      requires !everReserved ==> stats.totalAllocatedBytes + bytes <= config.maxMem
      modifies this`chunks, this`freeChunksList, this`freeSeq, this`home, this`bins, this`model, this`stats
      modifies regionManager
      ensures Valid()
      ensures FreeChunkAt(model, mem, bytes)
      ensures IsExtension(old(model), model, mem, bytes, old(stats.numArenaExtensions))
      ensures stats == ExtendedStats(old(stats), bytes)
    {
      ghost var t := ExtendingKeepsArena(config, model, nextAllocationId, tags, reservedChunks, stats, mem, bytes);
      PlaceRegion(mem, bytes);
    }

    method PlaceRegion(mem: nat, bytes: nat)
      requires Linked() && |bins| == 21 && 0 < bytes && bytes % 256 == 0
      requires freeSeq != [] ==> UnusedOk(View(), 0)
      requires forall i | 0 <= i < |freeSeq| :: 0 <= freeSeq[i] < |chunks|
      requires forall b | b in regionManager.blocks :: Disjoint(mem, bytes, b, regionManager.blocks[b].size)
      modifies this`chunks, this`freeChunksList, this`freeSeq, this`home, this`bins, this`model, this`stats
      modifies regionManager
      ensures Linked() && model == View()
      ensures model == WithBin(AddRegion(old(View()), mem, bytes, old(stats.numArenaExtensions)), TakenRecord(old(View())))
      ensures stats == ExtendedStats(old(stats), bytes)
    {
      ghost var s := View();
      var id := stats.numArenaExtensions;
      stats := stats.(totalAllocatedBytes := stats.totalAllocatedBytes + bytes);
      regionManager.AddAllocationRegion(mem, bytes, id);
      stats := stats.(numArenaExtensions := stats.numArenaExtensions + 1);
      assert View() == s.(blocks := s.blocks[mem := Block(bytes, id)]);
      var h := PlaceChunk(mem, bytes);
      assert View() == AddRegion(s, mem, bytes, id);
      InsertFreeChunkIntoBin(h);
      model := View();
    }

    /** The chunk that fills a region just registered. */
    method PlaceChunk(mem: nat, bytes: nat) returns (h: Handle)
      requires Linked() && mem in regionManager.blocks && regionManager.blocks[mem].size == bytes && 0 < bytes
      requires freeSeq != [] ==> UnusedOk(View(), 0)
      requires forall i | 0 <= i < |freeSeq| :: 0 <= freeSeq[i] < |chunks|
      modifies this`chunks, this`freeChunksList, this`freeSeq, this`home
      modifies regionManager`regions, regionManager`index
      ensures Linked() && h == TakenRecord(old(View())) && 0 <= h < |chunks|
      ensures View() == AddRegion(old(View()), mem, bytes, regionManager.blocks[mem].id)
      ensures !chunks[h].InUse() && chunks[h].binNum == INVALID
    {
      h := AllocateChunk();
      chunks := chunks[h := chunks[h].(ptr := mem, size := bytes, allocationId := -1, prev := INVALID, next := INVALID,
                                       stream := NULL_STREAM)];
      RecordsKept();
      home := home[h := mem];
      regionManager.SetHandle(mem, h, mem);
    }

    // ---- The allocator's interface ---------------------------------------------------------------------------------

    method Alloc(size: nat, lastWait: (Stream, Stream) -> nat, syncId: Stream -> nat, device: nat -> Option<nat>,
                 backoff: nat -> nat) returns (r: AllocResult)
      requires Valid() && BacksOff(backoff) && DeviceIsFresh(device, reservedChunks, model.blocks)
      modifies this, regionManager
      ensures Valid() && reservedChunks == old(reservedChunks)
      ensures r.NullPointer? <==> size == 0
      ensures r.Thrown? <==>
                && size != 0 && NothingIsOpen(old(model), RoundedBytes(size), NULL_STREAM, lastWait)
                && ExtendsTo(config, old(stats.totalAllocatedBytes), old(currRegionAllocationBytes), RoundedBytes(size),
                             device, backoff).None?
      ensures !r.Pointer? ==> SameGrants(old(model), model) && tags == old(tags)
      ensures r.Pointer? ==> Served(old(model), model, old(tags), tags, r.p, size, old(nextAllocationId), NULL_STREAM,
                                    syncId(NULL_STREAM), lastWait)
      ensures r.Pointer? ==>
                IsGivenFrom(old(model), model, r.p,
                            ExtendsTo(config, old(stats.totalAllocatedBytes), old(currRegionAllocationBytes), 
                                      RoundedBytes(size), device,
                                      backoff),
                            RoundedBytes(size), config.maxDeadBytesPerChunk, NULL_STREAM, lastWait)
      ensures r.Pointer? ==> CountsGrant(old(stats), stats, GrantAt(model, r.p).value.size)
    {
      r := AllocateRawInternal(size, NULL_STREAM, lastWait, syncId, device, backoff);
    }

    method AllocOnStream(size: nat, stream: Stream, lastWait: (Stream, Stream) -> nat, syncId: Stream -> nat,
                         device: nat -> Option<nat>, backoff: nat -> nat) returns (r: AllocResult)
      requires Valid() && BacksOff(backoff) && DeviceIsFresh(device, reservedChunks, model.blocks)
      modifies this, regionManager
      ensures Valid() && reservedChunks == old(reservedChunks)
      ensures r.NullPointer? <==> size == 0
      ensures r.Thrown? <==>
                && size != 0 && NothingIsOpen(old(model), RoundedBytes(size), stream, lastWait)
                && ExtendsTo(config, old(stats.totalAllocatedBytes), old(currRegionAllocationBytes), RoundedBytes(size),
                             device, backoff).None?
      ensures !r.Pointer? ==> SameGrants(old(model), model) && tags == old(tags)
      ensures r.Pointer? ==> Served(old(model), model, old(tags), tags, r.p, size, old(nextAllocationId), stream,
                                    syncId(stream), lastWait)
      ensures r.Pointer? ==>
                IsGivenFrom(old(model), model, r.p,
                            ExtendsTo(config, old(stats.totalAllocatedBytes), old(currRegionAllocationBytes), 
                                      RoundedBytes(size), device,
                                      backoff),
                            RoundedBytes(size), config.maxDeadBytesPerChunk, stream, lastWait)
      ensures r.Pointer? ==> CountsGrant(old(stats), stats, GrantAt(model, r.p).value.size)
    {
      r := AllocateRawInternal(size, stream, lastWait, syncId, device, backoff);
    }

    /** Searches, extends the arena when nothing fits, and searches again. The second search cannot fail: the error
        "failed to find a free memory block despite calling Extend" is unreachable. */
    method AllocateRawInternal(numBytes: nat, stream: Stream, lastWait: (Stream, Stream) -> nat, syncId: Stream -> nat,
                               device: nat -> Option<nat>, backoff: nat -> nat) returns (r: AllocResult)
      requires Valid() && BacksOff(backoff) && DeviceIsFresh(device, reservedChunks, model.blocks)
      modifies this, regionManager
      ensures Valid() && reservedChunks == old(reservedChunks)
      ensures r.NullPointer? <==> numBytes == 0
      ensures r.Thrown? <==>
                && numBytes != 0
                && NothingIsOpen(old(model), RoundedBytes(numBytes), stream, lastWait)
                && ExtendsTo(config, old(stats.totalAllocatedBytes), old(currRegionAllocationBytes),
                             RoundedBytes(numBytes), device, backoff).None?
      ensures !r.Pointer? ==> SameGrants(old(model), model) && tags == old(tags)
      ensures r.Pointer? ==> Served(old(model), model, old(tags), tags, r.p, numBytes, old(nextAllocationId), stream,
                                    syncId(stream), lastWait)
      ensures r.Pointer? ==>
                IsGivenFrom(old(model), model, r.p,
                            ExtendsTo(config, old(stats.totalAllocatedBytes), old(currRegionAllocationBytes), 
                                      RoundedBytes(numBytes), device,
                                      backoff),
                            RoundedBytes(numBytes), config.maxDeadBytesPerChunk, stream, lastWait)
      ensures r.Pointer? ==> CountsGrant(old(stats), stats, GrantAt(model, r.p).value.size)
    {
      if numBytes == 0 {
        return NullPointer;
      }
      var rounded := RoundedBytes(numBytes);
      KnowStream(stream);
      var found := FindAndServe(rounded, numBytes, stream, lastWait, syncId);
      if found.Some? {
        return Pointer(found.value);
      }
      r := ExtendAndServe(rounded, numBytes, stream, lastWait, syncId, device, backoff);
    }

    method ExtendAndServe(rounded: nat, numBytes: nat, stream: Stream, lastWait: (Stream, Stream) -> nat,
                          syncId: Stream -> nat, device: nat -> Option<nat>, backoff: nat -> nat)
      returns (r: AllocResult)
      requires Valid() && BacksOff(backoff) && DeviceIsFresh(device, reservedChunks, model.blocks)
      requires 0 < numBytes <= rounded && rounded % 256 == 0
      requires NothingIsOpen(model, rounded, stream, lastWait)
      modifies this, regionManager
      ensures Valid() && reservedChunks == old(reservedChunks)
      ensures r.Pointer? || r.Thrown?
      ensures r.Thrown? <==> ExtendsTo(config, old(stats.totalAllocatedBytes), old(currRegionAllocationBytes), rounded,
                                       device, backoff).None?
      ensures r.Thrown? ==> model == old(model) && tags == old(tags)
      ensures r.Pointer? ==> Served(old(model), model, old(tags), tags, r.p, numBytes, old(nextAllocationId), stream,
                                    syncId(stream), lastWait)
      ensures r.Pointer? ==>
                IsGivenFrom(old(model), model, r.p,
                            ExtendsTo(config, old(stats.totalAllocatedBytes), old(currRegionAllocationBytes), rounded, device,
                                      backoff),
                            rounded, config.maxDeadBytesPerChunk, stream, lastWait)
      ensures r.Pointer? ==> CountsGrant(old(stats), stats, GrantAt(model, r.p).value.size)
    {
      var ok := Extend(rounded, device, backoff);
      if !ok {
        return Thrown;
      }
      ghost var u := model;
      ghost var region := ExtendsTo(config, old(stats.totalAllocatedBytes), old(currRegionAllocationBytes), rounded, device,
                                    backoff).value;
      RegionIsOpen(u, region.1, region.0, rounded, stream, lastWait);
      var found := FindAndServe(rounded, numBytes, stream, lastWait, syncId);
      ServedAfterExtension(old(model), u, model, old(tags), tags, found.value, numBytes, old(nextAllocationId), stream,
                           syncId(stream), lastWait);
      NewRegionIsGiven(old(model), u, model, found.value, region, rounded, config.maxDeadBytesPerChunk, stream, lastWait);
      return Pointer(found.value);
    }

    /** One search, and the grant if it finds a chunk. */
    method FindAndServe(rounded: nat, numBytes: nat, stream: Stream, lastWait: (Stream, Stream) -> nat,
                        syncId: Stream -> nat) returns (r: Option<nat>)
      requires Valid() && 0 < numBytes <= rounded && rounded % 256 == 0
      modifies this`chunks, this`freeChunksList, this`freeSeq, this`home, this`bins
      modifies this`nextAllocationId, this`stats, this`streamToChunks, this`tags, this`model
      modifies regionManager`regions, regionManager`index
      ensures Valid()
      ensures r.None? ==> NothingIsOpen(old(model), rounded, stream, lastWait)
      ensures r.None? ==> model == old(model) && tags == old(tags) && stats == old(stats) &&
                          nextAllocationId == old(nextAllocationId)
      ensures r.Some? ==> Served(old(model), model, old(tags), tags, r.value, numBytes, old(nextAllocationId), stream,
                                 syncId(stream), lastWait)
      ensures r.Some? ==> IsSmallestOpen(old(model), r.value, rounded, stream, lastWait)
      ensures r.Some? ==> IsCutFrom(old(model), model, r.value, rounded, config.maxDeadBytesPerChunk)
      ensures r.Some? ==> CountsGrant(old(stats), stats, GrantAt(model, r.value).value.size)
    {
      ValidUnfolds();
      var h := FindChunkPtr(BinNumForSize(rounded), rounded, numBytes, stream, lastWait, syncId);
      if h == INVALID {
        NoFitIsNothingOpen(model, rounded, stream, lastWait);
        return None;
      }
      BestFitIsSmallestOpen(old(model), h, rounded, stream, lastWait);
      ValidUnfolds();
      HandedIsServed(old(model), model, h, old(tags), rounded, numBytes, old(nextAllocationId), stream, syncId(stream),
                     lastWait);
      return Some(chunks[h].ptr);
    }

    method KnowStream(stream: Stream)
      requires Valid()
      modifies this`streamToChunks
      ensures Valid()
    {
      if stream != NULL_STREAM && stream !in streamToChunks {
        streamToChunks := streamToChunks[stream := {}];
        StreamsKnowMore(chunks, old(streamToChunks), streamToChunks, INVALID);
      }
    }
  
    /** Memory straight from the device, outside the regions. `mem` is the device's answer, 0 if it refused. */
    method Reserve(size: nat, mem: nat) returns (r: AllocResult)
      requires Valid()
      requires size != 0 && mem != 0 ==> FreshBlock(mem, size, reservedChunks, model.blocks)
      modifies this`reservedChunks, this`stats, this`everReserved
      ensures Valid() && model == old(model)
      ensures r.NullPointer? <==> size == 0
      ensures r.Thrown? <==> size != 0 && mem == 0 && 0 in old(reservedChunks)
      ensures r.Pointer? ==> r.p == mem && mem !in old(reservedChunks)
      ensures reservedChunks == if r.Pointer? then old(reservedChunks)[mem := size] else old(reservedChunks)
      ensures !r.Pointer? ==> stats == old(stats) && everReserved == old(everReserved)
      ensures r.Pointer? ==> everReserved && CountsGrant(old(stats), stats, size)
      ensures r.Pointer? ==>
                && stats.numReserves == old(stats.numReserves) + 1
                && stats.totalAllocatedBytes == old(stats.totalAllocatedBytes) + size
                && stats.numArenaExtensions == old(stats.numArenaExtensions)
                && stats.numArenaShrinkages == old(stats.numArenaShrinkages)
    {
      if size == 0 {
        return NullPointer;
      }
      if mem in reservedChunks {
        FreshIsNotReserved(config, model, nextAllocationId, tags, reservedChunks, stats, mem, size);
        return Thrown;
      }
      ReservingKeepsArena(config, model, nextAllocationId, tags, reservedChunks, stats, mem, size);
      reservedChunks := reservedChunks[mem := size];
      stats := ReservedStats(stats, size);
      everReserved := true;
      r := Pointer(mem);
    }

    /** Returns a pointer; false stands for the exception raised when it is not one the arena handed out. */
    method Free(p: nat) returns (ok: bool)
      requires Valid()
      modifies this`chunks, this`freeChunksList, this`freeSeq, this`home, this`bins, this`streamToChunks, this`model
      modifies this`stats, this`reservedChunks
      modifies regionManager`regions, regionManager`index
      ensures Valid()
      ensures p == 0 ==> ok && model == old(model) && reservedChunks == old(reservedChunks)
      ensures p != 0 && p in old(reservedChunks) ==>
                ok && model == old(model) && reservedChunks == old(reservedChunks) - {p}
      ensures p !in old(reservedChunks) ==> reservedChunks == old(reservedChunks)
      ensures p == 0 || !ok ==> stats == old(stats)
      ensures p != 0 && p in old(reservedChunks) ==>
                stats == old(stats).(bytesInUse := old(stats.bytesInUse) - old(reservedChunks)[p],
                                     totalAllocatedBytes := old(stats.totalAllocatedBytes) - old(reservedChunks)[p])
      ensures !ok ==> model == old(model)
      ensures p != 0 && p !in old(reservedChunks) ==>
                && (ok <==> exists q: nat :: StartsSlot(old(model), p, q))
                && (forall q: nat :: StartsSlot(old(model), p, q) ==> Revoked(old(model), model, q))
                && forall q: nat :: StartsSlot(old(model), p, q) ==>
                     stats == old(stats).(bytesInUse := old(stats.bytesInUse) - GrantAt(old(model), q).value.size)
    {
      if p == 0 {
        return true;
      }
      if p in reservedChunks {
        ReleasingKeepsArena(config, model, nextAllocationId, tags, reservedChunks, stats, p);
        stats := stats.(bytesInUse := stats.bytesInUse - reservedChunks[p],
                        totalAllocatedBytes := stats.totalAllocatedBytes - reservedChunks[p]);
        reservedChunks := reservedChunks - {p};
        return true;
      }
      ok := DeallocateRawInternal(p);
    }

    method DeallocateRawInternal(p: nat) returns (ok: bool)
      requires Valid()
      modifies this`chunks, this`freeChunksList, this`freeSeq, this`home, this`bins, this`streamToChunks, this`model
      modifies this`stats
      modifies regionManager`regions, regionManager`index
      ensures Valid()
      ensures !ok ==> model == old(model) && stats == old(stats)
      ensures ok <==> exists q: nat :: StartsSlot(old(model), p, q)
      ensures forall q: nat :: StartsSlot(old(model), p, q) ==> Revoked(old(model), model, q)
      ensures forall q: nat :: StartsSlot(old(model), p, q) ==>
                stats == old(stats).(bytesInUse := old(stats.bytesInUse) - GrantAt(old(model), q).value.size)
    {
      ValidUnfolds();
      var handle := regionManager.GetHandle(p);
      forall q: nat | StartsSlot(model, p, q)
        ensures exists b :: b in model.blocks && b <= p < b + model.blocks[b].size
        ensures forall b | b in model.blocks && b <= p < b + model.blocks[b].size :: SlotStart(b, p) == q
        ensures q in model.index && model.index[q] != INVALID
      {
        GrantIsInSlot(model, p, q);
      }
      if handle.None? || handle.value == INVALID {
        return false;
      }
      var h := handle.value;
      ghost var b :| b in model.blocks && b <= p < b + model.blocks[b].size &&
                     h == HandleAt(model.index, SlotStart(b, p));
      IndexedChunk(model, SlotStart(b, p));
      if !chunks[h].InUse() {
        return false;
      }
      assert StartsSlot(model, p, SlotStart(b, p));
      FreeAndMaybeCoalesce(h);
      ok := true;
    }

    method FreeAndMaybeCoalesce(h: Handle)
      requires Valid() && h in model.home && 0 <= h < |chunks| && chunks[h].InUse()
      modifies this`chunks, this`freeChunksList, this`freeSeq, this`home, this`bins, this`streamToChunks, this`model
      modifies this`stats
      modifies regionManager`regions, regionManager`index
      ensures Valid()
      ensures Revoked(old(model), model, old(chunks[h].ptr))
      ensures stats == old(stats).(bytesInUse := old(stats.bytesInUse) - old(chunks[h].size))
    {
      ghost var t := FreeingKeepsArena(config, model, nextAllocationId, tags, reservedChunks, stats, h);
      ReturnChunk(h);
    }

    method MarkFree(h: Handle)
      requires Linked() && 0 <= h < |chunks|
      modifies this`chunks, this`stats
      ensures Linked() && View() == Returned(old(View()), h)
      ensures stats == old(stats).(bytesInUse := old(stats.bytesInUse) - old(chunks[h].size))
    {
      chunks := chunks[h := chunks[h].(allocationId := -1)];
      RecordsKept();
      stats := stats.(bytesInUse := stats.bytesInUse - chunks[h].size);
    }

    method ReturnChunk(h: Handle)
      requires Linked() && 0 <= h < |chunks| && Floats(Returned(View(), h), h) && |bins| == 21
      modifies this`chunks, this`freeChunksList, this`freeSeq, this`home, this`bins, this`streamToChunks, this`model
      modifies this`stats
      modifies regionManager`regions, regionManager`index
      ensures Linked() && model == View()
      ensures var (u, r) := Coalesced(Returned(old(View()), h), h);
        0 <= r < |u.chunks| && |u.bins| == 21 && model == WithBin(u, r)
      ensures stats == old(stats).(bytesInUse := old(stats.bytesInUse) - old(chunks[h].size))
    {
      MarkFree(h);
      CoalescedIsSettled(View(), h, map[]);
      var r := Coalesce(h);
      assert BinOk(View(), {r}, r);
      InsertFreeChunkIntoBin(r);
      model := View();
    }
  
    // ---- Shrinking -----------------------------------------------------------------------------------------------

    /** Gives every eligible region without a chunk in use back to the device, and no other. */
    method Shrink()
      requires Valid()
      modifies this, regionManager
      ensures Valid() && reservedChunks == old(reservedChunks)
      ensures ShrinksTo(config, old(model), model)
      ensures CountsShrinkages(old(stats), stats, |old(model.blocks)| - |model.blocks|)
      ensures currRegionAllocationBytes == config.initialGrowthChunkSizeBytes
    {
      var regionPtrs, regionSizes := CollectEligible();
      ghost var s := model;
      ShrinkRegions(regionPtrs, regionSizes);
      AllLookedAt(config, s, model, regionPtrs);
      currRegionAllocationBytes := config.initialGrowthChunkSizeBytes;
    }

    method ShrinkRegions(regionPtrs: seq<nat>, regionSizes: seq<nat>)
      requires Valid() && Pending(config, model.blocks, model.blocks, regionPtrs, regionSizes, 0)
      modifies this`chunks, this`freeChunksList, this`freeSeq, this`home, this`bins, this`streamToChunks, this`model
      modifies this`stats, this`tags
      modifies regionManager
      ensures Valid()
      ensures ShrunkBy(old(model), model, regionPtrs)
      ensures CountsShrinkages(old(stats), stats, |old(model.blocks)| - |model.blocks|)
    {
      ghost var s := model;
      NothingShrunkYet();
      var i := 0;
      assert regionPtrs[..0] == [];
      while i < |regionPtrs|
        invariant 0 <= i <= |regionPtrs|
        invariant Valid()
        invariant ShrunkBy(s, model, regionPtrs[..i])
        invariant CountsShrinkages(old(stats), stats, |s.blocks| - |model.blocks|)
        invariant Pending(config, s.blocks, model.blocks, regionPtrs, regionSizes, i)
      {
        ghost var before := model.blocks;
        PendingHead(config, s.blocks, before, regionPtrs, regionSizes, i);
        ShrinkStep(regionPtrs[i], regionSizes[i], s, regionPtrs[..i]);
        PendingTail(config, s.blocks, before, model.blocks, regionPtrs, regionSizes, i);
        OneMore(regionPtrs, i);
        i := i + 1;
      }
      assert regionPtrs[..i] == regionPtrs;
    }

    lemma NothingShrunkYet()
      requires Valid()
      ensures ShrunkBy(model, model, [])
    {
      ValidUnfolds();
      NothingShrunk(model);
    }

    method ShrinkStep(b: nat, size: nat, ghost s: Core, ghost done: seq<nat>)
      requires Valid() && Eligible(config, model.blocks, b) && size == model.blocks[b].size
      requires ShrunkBy(s, model, done) && b in s.blocks
      modifies this`chunks, this`freeChunksList, this`freeSeq, this`home, this`bins, this`streamToChunks, this`model
      modifies this`stats, this`tags
      modifies regionManager
      ensures Valid()
      ensures ShrunkBy(s, model, done + [b])
      ensures model.blocks == old(model).blocks || model.blocks == old(model).blocks - {b}
      ensures CountsShrinkages(old(stats), stats, |old(model).blocks| - |model.blocks|)
    {
      ValidUnfolds();
      var deallocate := RegionIsFree(b);
      if deallocate {
        DropRegion(b, size);
        assert |model.blocks| == |old(model).blocks| - 1 by {
          assert model.blocks.Keys == old(model).blocks.Keys - {b};
        }
      }
      ShrinkOne(s, old(model), model, done, b, deallocate);
    }

    method CollectEligible() returns (ptrs: seq<nat>, sizes: seq<nat>)
      requires Valid()
      ensures Pending(config, model.blocks, model.blocks, ptrs, sizes, 0)
      ensures forall b | b in model.blocks && Eligible(config, model.blocks, b) :: b in ptrs
      ensures forall b | b in ptrs :: Eligible(config, model.blocks, b)
    {
      var regions := regionManager.regions;
      ptrs, sizes := [], [];
      var i := 0;
      while i < |regions|
        invariant 0 <= i <= |regions| && |sizes| == |ptrs|
        invariant forall k | 0 <= k < |ptrs| :: ptrs[k] in model.blocks && sizes[k] == model.blocks[ptrs[k]].size
        invariant forall k | 0 <= k < |ptrs| :: ptrs[k] in model.blocks && Eligible(config, model.blocks, ptrs[k])
        invariant forall k | 0 <= k < |ptrs| :: forall j | i <= j < |regions| :: ptrs[k] < regions[j].ptr
        invariant forall j | 0 <= j < i && Eligible(config, model.blocks, regions[j].ptr) :: regions[j].ptr in ptrs
        invariant forall j, k | 0 <= j < k < |ptrs| :: ptrs[j] != ptrs[k]
      {
        assert Listed(regions[i], model.blocks) && regions[i].WellFormed();
        if considerFirstRegionForShrinkage || regions[i].id != 0 {
          ptrs, sizes := ptrs + [regions[i].ptr], sizes + [regions[i].memorySize];
        }
        i := i + 1;
      }
      forall b | b in model.blocks && Eligible(config, model.blocks, b)
        ensures b in ptrs
      {
        var j := RegionOf(regions, model.blocks, b);
      }
    }

    /** Walks the chunks of the region that starts at `b` until one is in use. */
    method RegionIsFree(b: nat) returns (free: bool)
      requires Valid() && b in model.blocks
      ensures free <==> AllFree(model, b)
    {
      ValidUnfolds();
      ghost var s := model;
      NothingDropped(s, b);
      var h := FirstChunk(b);
      ghost var cursor := b;
      while h != INVALID
        invariant h != INVALID ==> h in s.home && s.home[h] == b && 0 <= h < |s.chunks| && s.chunks[h].ptr == cursor
        invariant h == INVALID ==> cursor == b + s.blocks[b].size
        invariant forall x | Below(s, x, b, cursor) :: !s.chunks[x].InUse()
        invariant cursor <= b + s.blocks[b].size
        decreases b + s.blocks[b].size - cursor, h != INVALID
      {
        if chunks[h].InUse() {
          return false;
        }
        StepRight(s, b, h);
        cursor := chunks[h].End();
        h := chunks[h].next;
      }
      EverythingBelow(s, b);
      return true;
    }
  
    method FirstChunk(b: nat) returns (h: Handle)
      requires Linked() && model == View() && Tiled(model) && b in model.blocks
      ensures b in model.index && h == model.index[b]
    {
      var handle := regionManager.GetHandle(b);
      StartOfRegion(model, b);
      h := handle.value;
    }

    /** Deletes the chunks of a region that has none in use, returns it to the device and forgets it. */
    method DropRegion(b: nat, shrinkSize: nat)
      requires Valid() && AllFree(model, b) && Eligible(config, model.blocks, b)
      requires shrinkSize == model.blocks[b].size
      modifies this`chunks, this`freeChunksList, this`freeSeq, this`home, this`bins, this`streamToChunks, this`model
      modifies this`stats, this`tags
      modifies regionManager
      ensures Valid()
      ensures IsDrop(old(model), model, b)
      ensures stats == ShrunkStats(old(stats), old(model.blocks[b].size))
    {
      ForgetRegion(b, shrinkSize);
      DroppingKeepsArena(config, old(model), model, nextAllocationId, old(tags), reservedChunks, old(stats), b);
    }

    method ForgetRegion(b: nat, shrinkSize: nat)
      requires Valid() && AllFree(model, b) && b in model.blocks
      modifies this`chunks, this`freeChunksList, this`freeSeq, this`home, this`bins, this`streamToChunks, this`model
      modifies this`stats, this`tags
      modifies regionManager
      ensures Linked() && model == View()
      ensures IsDrop(old(model), model, b)
      ensures stats == ShrunkStats(old(stats), shrinkSize)
      ensures tags == TagsOutside(old(tags), b, old(model).blocks[b].size)
    {
      assert CoreOk(model, {}) by {
        ValidUnfolds();
      }
      stats := stats.(numArenaShrinkages := stats.numArenaShrinkages + 1,
                      totalAllocatedBytes := stats.totalAllocatedBytes - shrinkSize);
      ghost var u := DeleteChunks(b);
      EraseRegion(b, u);
      stats := stats.(numArenaExtensions := stats.numArenaExtensions - 1);
    }

    method EraseRegion(b: nat, ghost u: Core)
      requires Linked() && b in model.blocks && u == View()
      requires DroppedBelow(model, u, b, b + model.blocks[b].size)
      modifies regionManager, this`model, this`tags
      ensures Linked() && model == View()
      ensures IsDrop(old(model), model, b)
      ensures tags == TagsOutside(old(tags), b, old(model).blocks[b].size)
    {
      ghost var s := model;
      regionManager.RemoveAllocationRegion(b);
      model := View();
      tags := TagsOutside(tags, b, s.blocks[b].size);
      assert model == u.(blocks := s.blocks - {b});
    }

    method DeleteChunks(b: nat) returns (ghost u: Core)
      requires Linked() && model == View() && CoreOk(model, {}) && AllFree(model, b) && b in model.blocks
      modifies this`chunks, this`freeChunksList, this`freeSeq, this`home, this`bins, this`streamToChunks
      modifies regionManager`regions, regionManager`index
      ensures Linked()
      ensures u == View() && DroppedBelow(model, u, b, b + model.blocks[b].size)
    {
      ghost var s := model;
      NothingDropped(s, b);
      var h := FirstChunk(b);
      ghost var cursor := b;
      while h != INVALID
        invariant Linked() && DroppedBelow(s, View(), b, cursor)
        invariant h != INVALID ==> h in s.home && s.home[h] == b && 0 <= h < |s.chunks| && s.chunks[h].ptr == cursor
        invariant h == INVALID ==> cursor == b + s.blocks[b].size
        invariant cursor <= b + s.blocks[b].size
        decreases b + s.blocks[b].size - cursor, h != INVALID
      {
        DropOne(s, View(), b, h);
        StepRight(s, b, h);
        var next := chunks[h].next;
        RemoveFreeChunkFromBin(h);
        DeleteChunk(h);
        cursor := s.chunks[h].End();
        h := next;
      }
      u := View();
    }
  
    // ---- The end of a stream's session ---------------------------------------------------------------------------

    /** Takes the chunks recorded for `stream` away from it, then merges free neighbours region by region. */
    method ResetChunksUsingStream(stream: Stream)
      requires Valid()
      modifies this`chunks, this`freeChunksList, this`freeSeq, this`home, this`bins, this`streamToChunks, this`model
      modifies this`tags
      modifies regionManager`regions, regionManager`index
      ensures Valid()
      ensures SameGrantsButStreams(old(model), model)
      ensures model.blocks == old(model).blocks
      ensures NoneFor(model, stream)
      ensures stream in old(streamToChunks) ==> ClearsFree(old(model), model, old(streamToChunks)[stream])
      ensures stream !in old(streamToChunks) ==> model == old(model) && tags == old(tags)
      ensures stream in old(streamToChunks) ==> tags == TagsWithout(old(tags), old(model), old(streamToChunks)[stream])
    {
      if stream !in streamToChunks {
        StreamsKnowNone(model, streamToChunks, stream);
      } else {
        ReleaseStream(stream);
      }
    }

    method ReleaseStream(stream: Stream)
      requires Valid() && stream in streamToChunks
      modifies this`chunks, this`freeChunksList, this`freeSeq, this`home, this`bins, this`streamToChunks, this`model
      modifies this`tags
      modifies regionManager`regions, regionManager`index
      ensures Linked() && model == View()
      ensures ArenaOk(config, model, nextAllocationId, tags, reservedChunks, stats)
      ensures SameGrantsButStreams(old(model), model) && NoneFor(model, stream)
      ensures ClearsFree(old(model), model, old(streamToChunks)[stream])
      ensures model.blocks == old(model).blocks
      ensures tags == TagsWithout(old(tags), old(model), old(streamToChunks)[stream])
    {
      ghost var handles := streamToChunks[stream];
      ClearedKeepsArena(config, model, nextAllocationId, tags, reservedChunks, stats, handles);
      ClearStream(stream);
      ghost var u := model;
      CoalesceAll();
      StreamsThenSame(old(model), u, model);
      ClearedThenSame(old(model), u, model, handles);
      StillNoneFor(u, model, stream);
    }

    method ClearStream(stream: Stream)
      requires Valid() && stream in streamToChunks
      modifies this`chunks, this`streamToChunks, this`model, this`tags
      ensures Linked() && model == View()
      ensures model == Cleared(old(model), old(streamToChunks)[stream])
      ensures tags == TagsWithout(old(tags), old(model), old(streamToChunks)[stream])
      ensures NoneFor(model, stream)
    {
      ghost var handles := streamToChunks[stream];
      ClearChunks(streamToChunks[stream]);
      StreamsKnowRest(old(chunks), chunks, streamToChunks, stream);
      streamToChunks := streamToChunks - {stream};
      StreamsKnowNone(View(), streamToChunks, stream);
      tags := TagsWithout(tags, model, handles);
      model := View();
    }

    method ClearChunks(handles: set<Handle>)
      requires Bounded(handles, |chunks|)
      modifies this`chunks
      ensures View() == Cleared(old(View()), handles)
    {
      ghost var s := View();
      var remaining := handles;
      while remaining != {}
        invariant remaining <= handles && |chunks| == |s.chunks|
        invariant forall i | 0 <= i < |chunks| ::
                    chunks[i] == if i in handles - remaining then s.chunks[i].(stream := NULL_STREAM) else s.chunks[i]
        decreases remaining
      {
        EmptyOrNot(remaining);
        var h :| h in remaining;
        chunks := chunks[h := chunks[h].(stream := NULL_STREAM)];
        remaining := remaining - {h};
      }
      assert chunks == Cleared(s, handles).chunks;
    }

    method CoalesceAll()
      requires Linked() && model == View()
      requires ArenaButSettled(config, model, nextAllocationId, tags, reservedChunks, stats)
      modifies this`chunks, this`freeChunksList, this`freeSeq, this`home, this`bins, this`streamToChunks, this`model
      modifies regionManager`regions, regionManager`index
      ensures Linked() && model == View()
      ensures ArenaOk(config, model, nextAllocationId, tags, reservedChunks, stats)
      ensures Preserves(old(model), model, tags)
    {
      ghost var s := model;
      PreservesSelf(s, tags);
      var count := |regionManager.regions|;
      var i := 0;
      while i < count
        invariant 0 <= i <= count == |regionManager.regions|
        invariant Linked() && model == View() && CoreOk(model, {})
        invariant Preserves(s, model, tags)
        invariant forall j | 0 <= j < i :: SettledRegion(model, regionManager.regions[j].ptr)
      {
        ghost var before := model;
        assert Listed(regionManager.regions[i], regionManager.blocks);
        CoalesceRegion(regionManager.regions[i].ptr);
        PreservesTwice(s, before, model, tags);
        i := i + 1;
      }
      EveryRegionSettled(regionManager.regions, model);
      CoalescedKeepsArena(config, s, model, nextAllocationId, tags, reservedChunks, stats);
    }

    /** Walks one region from left to right, merging each free chunk with the free chunks of its stream after it. The
        chunk it is at is never deleted: what is to its left has been settled, so it is never merged leftwards. */
    method CoalesceRegion(b: nat)
      requires Linked() && model == View() && CoreOk(model, {}) && b in model.blocks
      modifies this`chunks, this`freeChunksList, this`freeSeq, this`home, this`bins, this`streamToChunks, this`model
      modifies regionManager`regions, regionManager`index
      ensures Linked() && model == View() && CoreOk(model, {})
      ensures Preserves(old(model), model, tags)
      ensures SettledRegion(model, b)
      ensures forall c | c != b && SettledRegion(old(model), c) :: SettledRegion(model, c)
      ensures SameShape(regionManager.regions, old(regionManager.regions))
    {
      ghost var s := model;
      PreservesSelf(s, tags);
      NothingDropped(s, b);
      var h := FirstChunk(b);
      ghost var cursor := b;
      RegionStart(s, b);
      while h != INVALID
        invariant Linked() && model == View() && CoreOk(model, {})
        invariant Preserves(s, model, tags)
        invariant SameShape(regionManager.regions, old(regionManager.regions))
        invariant h != INVALID ==>
                    h in model.home && model.home[h] == b && 0 <= h < |chunks| && model.chunks[h].ptr == cursor
        invariant h == INVALID ==> cursor == b + s.blocks[b].size
        invariant cursor <= b + s.blocks[b].size
        invariant SettledBelow(model, b, cursor)
        invariant forall c | c != b && SettledRegion(s, c) :: SettledRegion(model, c)
        decreases b + s.blocks[b].size - cursor, h != INVALID
      {
        SettleNext(s, b, h);
        StepRight(model, b, h);
        cursor := model.chunks[h].End();
        h := chunks[h].next;
      }
      EverythingBelow(model, b);
    }

    method SettleNext(ghost s: Core, b: nat, h: Handle)
      requires Linked() && model == View() && CoreOk(model, {})
      requires h in model.home && model.home[h] == b && 0 <= h < |chunks|
      requires Preserves(s, model, tags) && SettledBelow(model, b, model.chunks[h].ptr)
      modifies this`chunks, this`freeChunksList, this`freeSeq, this`home, this`bins, this`streamToChunks, this`model
      modifies regionManager`regions, regionManager`index
      ensures Linked() && model == View() && CoreOk(model, {})
      ensures h in model.home && model.home[h] == b && 0 <= h < |chunks| && model.chunks[h].ptr == old(model.chunks[h].ptr)
      ensures Preserves(s, model, tags) && SettledBelow(model, b, model.chunks[h].End())
      ensures forall c | c != b && SettledRegion(old(model), c) :: SettledRegion(model, c)
      ensures SameShape(regionManager.regions, old(regionManager.regions))
    {
      ghost var before := model;
      PredecessorIsSettled(before, b, h);
      SettleChunk(h);
      WalkOn(before, model, b, h);
      OthersStaySettled(before, model, b, h);
      PreservesTwice(s, before, model, tags);
    }

    /** Merges chunk `h`, if it is free, with its successors until the next chunk is in use or of another stream. */
    method SettleChunk(h: Handle)
      requires Linked() && model == View() && CoreOk(model, {}) && h in model.home && 0 <= h < |chunks|
      requires !MergesPrev(model, h)
      modifies this`chunks, this`freeChunksList, this`freeSeq, this`home, this`bins, this`streamToChunks, this`model
      modifies regionManager`regions, regionManager`index
      ensures Linked() && model == View() && CoreOk(model, {})
      ensures Preserves(old(model), model, tags) && SameHead(old(model), model, h)
      ensures KeepsSettled(old(model), model, h) && Settled(model, h)
      ensures SameShape(regionManager.regions, old(regionManager.regions))
    {
      ghost var s := model;
      PreservesSelf(s, tags);
      if !chunks[h].InUse() {
        Unbinned(s, h, tags);
        RemoveFreeChunkFromBin(h);
        MergeSuccessors(h);
        SettledAgain(s, View(), h, tags);
        Rebin(h);
      }
    }

    method Rebin(h: Handle)
      requires Linked() && 0 <= h < |chunks| && |bins| == 21
      requires !chunks[h].InUse() && chunks[h].binNum == INVALID
      modifies this`chunks, this`bins, this`model
      ensures Linked() && model == View() == WithBin(old(View()), h)
    {
      if chunks[h].binNum == INVALID {
        InsertFreeChunkIntoBin(h);
      }
      model := View();
    }

    method MergeSuccessors(h: Handle)
      requires Linked() && Floats(View(), h) && !MergesPrev(View(), h)
      modifies this`chunks, this`freeChunksList, this`freeSeq, this`home, this`bins, this`streamToChunks
      modifies regionManager`regions, regionManager`index
      ensures Linked() && Floats(View(), h)
      ensures Preserves(old(View()), View(), tags) && SameHead(old(View()), View(), h)
      ensures KeepsSettled(old(View()), View(), h) && Settled(View(), h)
      ensures SameShape(regionManager.regions, old(regionManager.regions))
    {
      ghost var s := View();
      PreservesSelf(s, tags);
      LiveNeighbours(View(), h);
      var next := chunks[h].next;
      while next != INVALID && !chunks[next].InUse() && chunks[next].stream == chunks[h].stream
        invariant Linked() && Floats(View(), h) && !MergesPrev(View(), h) && next == chunks[h].next
        invariant Preserves(s, View(), tags) && SameHead(s, View(), h) && KeepsSettled(s, View(), h)
        invariant SameShape(regionManager.regions, old(regionManager.regions))
        invariant next != INVALID ==> 0 <= next < |chunks|
        invariant chunks[h].End() <= s.home[h] + s.blocks[s.home[h]].size
        decreases s.home[h] + s.blocks[s.home[h]].size - chunks[h].End()
      {
        MergeOneMore(s, h);
        LiveNeighbours(View(), h);
        next := chunks[h].next;
      }
    }

    method MergeOneMore(ghost s: Core, h: Handle)
      requires Linked() && Floats(View(), h) && !MergesPrev(View(), h) && MergesNext(View(), h)
      requires Preserves(s, View(), tags) && SameHead(s, View(), h) && KeepsSettled(s, View(), h)
      modifies this`chunks, this`freeChunksList, this`freeSeq, this`home, this`bins, this`streamToChunks
      modifies regionManager`regions, regionManager`index
      ensures Linked() && Floats(View(), h) && !MergesPrev(View(), h)
      ensures Preserves(s, View(), tags) && SameHead(s, View(), h) && KeepsSettled(s, View(), h)
      ensures chunks[h].size > old(chunks[h].size)
      ensures SameShape(regionManager.regions, old(regionManager.regions))
    {
      ghost var before := View();
      MergeSuccessor(h);
      PreservesTwice(s, before, View(), tags);
    }

    method MergeSuccessor(h: Handle)
      requires Linked() && Floats(View(), h) && !MergesPrev(View(), h) && MergesNext(View(), h)
      modifies this`chunks, this`freeChunksList, this`freeSeq, this`home, this`bins, this`streamToChunks
      modifies regionManager`regions, regionManager`index
      ensures Linked() && Floats(View(), h) && !MergesPrev(View(), h)
      ensures Preserves(old(View()), View(), tags) && SameHead(old(View()), View(), h)
      ensures KeepsSettled(old(View()), View(), h)
      ensures chunks[h].size > old(chunks[h].size)
      ensures SameShape(regionManager.regions, old(regionManager.regions))
    {
      WalkCoalesces(View(), h, tags);
      var r := Coalesce(h);
    }
  }

  /** A new arena grants 100 bytes. A pointer four bytes into them was never handed out, and yet frees them. */
  method InnerPointerFrees() returns (p: nat, ok: bool, ghost before: Core, ghost after: Core)
    ensures ok && 4 <= p && GrantAt(before, p) == None
    ensures Revoked(before, after, p - 4)
  {
    var arena := new ArenaImpl(Config(4096, SameAsRequested, 256, 256, 256, 256));
    var r := arena.Alloc(100, (_, _) => 0, _ => 0, _ => Some(4096), n => n / 2);
    p, before := r.p + 4, arena.model;
    assert StartsSlot(before, p, r.p);
    ok := arena.Free(p);
    after := arena.model;
  }

  /** Taking chunks away from their stream upsets nothing but the separation of free neighbours. */
  lemma ClearedKeepsArena(config: Config, s: Core, nextId: int, tags: map<nat, Tag>, reserved: map<nat, nat>,
                          stats: Stats, hs: set<Handle>)
    requires ArenaOk(config, s, nextId, tags, reserved, stats)
    ensures ArenaButSettled(config, Cleared(s, hs), nextId, TagsWithout(tags, s, hs), reserved, stats)
    ensures SameGrantsButStreams(s, Cleared(s, hs))
  {
    ArenaUnfolds(config, s, nextId, tags, reserved, stats);
    var t := Cleared(s, hs);
    ClearedCore(s, hs);
    SumUseSame(s.chunks, t.chunks);
    ClearedTags(s, tags, hs);
    forall p: nat
      ensures GrantOk(t, nextId, p)
    {
      assert GrantOk(s, nextId, p);
    }
  }

  lemma ClearedCore(s: Core, hs: set<Handle>)
    requires CoreOk(s, {})
    ensures CoreOk(Cleared(s, hs), {}) && SameGrantsButStreams(s, Cleared(s, hs))
  {
    var t := Cleared(s, hs);
    SameTiling(s, t);
    SameUnused(s, t);
    forall h | h in t.home
      ensures BinOk(t, {}, h)
    {
      assert BinOk(s, {}, h);
    }
    forall b: nat, h
      ensures InBinOk(t, {}, b, h)
    {
      assert InBinOk(s, {}, b, h);
    }
  }

  lemma ClearedTags(s: Core, tags: map<nat, Tag>, hs: set<Handle>)
    requires CoreOk(s, {}) && Tagged(s, tags) && TagsInside(s.blocks, tags)
    ensures Tagged(Cleared(s, hs), TagsWithout(tags, s, hs)) && TagsInside(s.blocks, TagsWithout(tags, s, hs))
  {
    var t := Cleared(s, hs);
    forall h | h in t.home
      ensures Owns(t, TagsWithout(tags, s, hs), h)
    {
      assert Owns(s, tags, h);
      if h in hs {
        forall a | a in TagsWithout(tags, s, hs)
          ensures !HasByte(s.chunks[h], a)
        {
          assert !InChunks(s, hs, a);
        }
      }
    }
    forall a | a in TagsWithout(tags, s, hs)
      ensures Inside(s.blocks, a)
    {
      assert a in tags;
    }
  }

  lemma StreamsThenSame(s: Core, u: Core, t: Core)
    requires SameGrantsButStreams(s, u) && SameGrants(u, t)
    ensures SameGrantsButStreams(s, t)
  {
    forall p: nat
      ensures GrantAt(t, p) == GrantAt(u, p)
    {
    }
    assert forall p: nat {:trigger GrantAt(t, p)} :: GrantAt(u, p).Some? == GrantAt(s, p).Some?;
  }

  /** The region's chunks are all settled. */
  ghost predicate SettledRegion(s: Core, b: nat) {
    forall x {:trigger Settled(s, x)} | x in s.home && s.home[x] == b :: Settled(s, x)
  }

  lemma RegionStart(s: Core, b: nat)
    requires CoreOk(s, {}) && b in s.blocks
    ensures b in s.index && s.index[b] in s.home && s.home[s.index[b]] == b && 0 <= s.index[b] < |s.chunks|
    ensures s.chunks[s.index[b]].ptr == b && SettledBelow(s, b, b)
  {
    assert HasStart(s, b) && Indexed(s, b);
    forall x | x in s.home && s.home[x] == b && 0 <= x < |s.chunks|
      ensures b <= s.chunks[x].ptr
    {
      assert LiveOk(s, x);
    }
  }

  lemma OthersStaySettled(s: Core, t: Core, b: nat, h: Handle)
    requires KeepsSettled(s, t, h) && SameHead(s, t, h) && s.home[h] == b
    requires forall x {:trigger KeepsPlace(s, t, x)} | x in t.home :: KeepsPlace(s, t, x)
    ensures forall c | c != b && SettledRegion(s, c) :: SettledRegion(t, c)
  {
    forall c | c != b && SettledRegion(s, c)
      ensures SettledRegion(t, c)
    {
      forall x | x in t.home && t.home[x] == c
        ensures Settled(t, x)
      {
        assert KeepsPlace(s, t, x) && Settled(s, x);
      }
    }
  }

  lemma EveryRegionSettled(regions: seq<Region>, s: Core)
    requires Tiled(s) && Lists(regions, s.blocks)
    requires forall j | 0 <= j < |regions| :: SettledRegion(s, regions[j].ptr)
    ensures NoAdjacentFree(s)
  {
    forall x
      ensures Settled(s, x)
    {
      if x in s.home {
        assert LiveOk(s, x);
        assert Located(regions, s.home[x]);
      }
    }
  }

  lemma CoalescedKeepsArena(config: Config, s: Core, t: Core, nextId: int, tags: map<nat, Tag>,
                            reserved: map<nat, nat>, stats: Stats)
    requires ArenaButSettled(config, s, nextId, tags, reserved, stats)
    requires Preserves(s, t, tags) && CoreOk(t, {}) && NoAdjacentFree(t)
    ensures ArenaOk(config, t, nextId, tags, reserved, stats)
  {
    forall p: nat
      ensures GrantOk(t, nextId, p)
    {
      assert GrantOk(s, nextId, p);
    }
    ArenaFolds(config, t, nextId, tags, reserved, stats);
  }

  function Cleared(s: Core, hs: set<Handle>): Core {
    s.(chunks := seq(|s.chunks|, i requires 0 <= i < |s.chunks| =>
                       if i in hs then s.chunks[i].(stream := NULL_STREAM) else s.chunks[i]))
  }

  /** The tags that remain when the bytes of the chunks `hs` are nobody's any more. */
  ghost function TagsWithout(tags: map<nat, Tag>, s: Core, hs: set<Handle>): map<nat, Tag> {
    map a | a in tags && !InChunks(s, hs, a) :: tags[a]
  }

  ghost predicate InChunks(s: Core, hs: set<Handle>, a: nat) {
    exists h :: h in hs && h in s.home && 0 <= h < |s.chunks| && HasByte(s.chunks[h], a)
  }

  /** No byte recorded for the stream has since gone to another one. */
  ghost predicate RecordedAreOwn(s: Core, tags: map<nat, Tag>, hs: set<Handle>, stream: Stream) {
    forall h | h in hs && h in s.home && 0 <= h < |s.chunks| ::
      s.chunks[h].stream == stream || forall a | a in tags :: !HasByte(s.chunks[h], a)
  }

  /** A reset forgets the owner of other streams' bytes just when a recorded chunk that holds owned bytes is by now
      another stream's. */
  lemma ResetClearsItsOwn(s: Core, tags: map<nat, Tag>, hs: set<Handle>, stream: Stream)
    requires Tagged(s, tags)
    ensures RecordedAreOwn(s, tags, hs, stream) <==>
            forall a | a in tags && tags[a].stream != stream :: a in TagsWithout(tags, s, hs)
  {
    forall h | h in hs && h in s.home
      ensures 0 <= h < |s.chunks| && Covers(s.chunks[h], tags)
    {
      assert Owns(s, tags, h);
    }
    if RecordedAreOwn(s, tags, hs, stream) {
      forall a | a in tags && tags[a].stream != stream
        ensures !InChunks(s, hs, a)
      {
      }
    }
  }

  /** One free chunk of 256 bytes at 4096, used by stream 1, then taken over, used and freed by stream 2. */
  function TakenOver(): Core {
    Core([Chunk(256, 256, -1, 4096, INVALID, INVALID, 0, 2, 7)], map[0 := 4096], map[4096 := Block(256, 0)],
         map[4096 := 0], [{0}] + seq(20, _ => {}), [])
  }

  /** The record of stream 1 still names that chunk. Resetting stream 1 lets stream 3 have it without having waited for
      stream 2, which it could not have before. */
  lemma ResetReachesAnotherStream()
    ensures CoreOk(TakenOver(), {})
    ensures NoFit(TakenOver(), 256, 3, (_, _) => 0)
    ensures Candidate(Cleared(TakenOver(), {0}), 0, 256, 3, (_, _) => 0)
  {
  }

  /** Nothing is granted to the stream. */
  ghost predicate NoneFor(s: Core, stream: Stream) {
    stream != NULL_STREAM ==>
      forall p: nat {:trigger GrantAt(s, p)} :: GrantAt(s, p).Some? ==> GrantAt(s, p).value.stream != stream
  }

  lemma StreamsKnowNone(s: Core, records: map<Stream, set<Handle>>, stream: Stream)
    requires StreamsKnow(s.chunks, records, INVALID) && stream !in records
    ensures NoneFor(s, stream)
  {
    assert StreamsKnowFacts(s.chunks, records, INVALID, Unfolded);
  }

  /** Free bytes of the chunks `hs` are nobody's, and other free bytes whose they were. */
  ghost predicate ClearsFree(s: Core, t: Core, hs: set<Handle>) {
    forall a: nat, stream: Stream {:trigger IsFreeFor(t, a, stream)} ::
      IsFreeFor(t, a, stream) <==>
      exists h, was: Stream :: IsFreePart(s, h, a, was) && stream == if h in hs then NULL_STREAM else was
  }

  lemma ClearedThenSame(s: Core, u: Core, t: Core, hs: set<Handle>)
    requires u == Cleared(s, hs) && SameFreeBytes(u, t)
    ensures ClearsFree(s, t, hs)
  {
    assert FreeFacts(u, t, Unfolded);
    forall a: nat, stream: Stream
      ensures IsFreeFor(t, a, stream) <==>
              exists h, was: Stream :: IsFreePart(s, h, a, was) && stream == if h in hs then NULL_STREAM else was
    {
      assert IsFreeFor(t, a, stream) <==> IsFreeFor(u, a, stream);
      if IsFreeFor(u, a, stream) {
        var h :| IsFreePart(u, h, a, stream);
        assert IsFreePart(s, h, a, s.chunks[h].stream);
      }
      forall h, was: Stream | IsFreePart(s, h, a, was) && stream == if h in hs then NULL_STREAM else was
        ensures IsFreeFor(u, a, stream)
      {
        assert IsFreePart(u, h, a, stream);
      }
    }
  }

  lemma StillNoneFor(s: Core, t: Core, stream: Stream)
    requires NoneFor(s, stream) && SameGrants(s, t)
    ensures NoneFor(t, stream)
  {
    forall p: nat ensures GrantAt(t, p) == GrantAt(s, p) {
    }
  }

  ghost predicate SameGrantsButStreams(s: Core, t: Core) {
    forall p: nat {:trigger GrantAt(t, p)} ::
      && GrantAt(s, p).Some? == GrantAt(t, p).Some?
      && (GrantAt(s, p).Some? ==>
            && GrantAt(t, p).value.size == GrantAt(s, p).value.size
            && GrantAt(t, p).value.requestedSize == GrantAt(s, p).value.requestedSize
            && GrantAt(t, p).value.allocationId == GrantAt(s, p).value.allocationId)
  }

  function ShrunkStats(stats: Stats, bytes: nat): Stats {
    stats.(numArenaShrinkages := stats.numArenaShrinkages + 1,
           totalAllocatedBytes := stats.totalAllocatedBytes - bytes,
           numArenaExtensions := stats.numArenaExtensions - 1)
  }

  lemma StartOfRegion(s: Core, b: nat)
    requires Tiled(s) && b in s.blocks
    ensures b in s.index && 0 < s.blocks[b].size && SlotStart(b, b) == b
    ensures forall c | c in s.blocks && c <= b < c + s.blocks[c].size :: c == b
  {
    assert HasStart(s, b) && BlockOk(s.blocks, b);
    forall c | c in s.blocks && c <= b < c + s.blocks[c].size
      ensures c == b
    {
      assert InOrder(s.blocks, c, b);
    }
  }

  lemma StepRight(s: Core, b: nat, h: Handle)
    requires Tiled(s) && h in s.home && s.home[h] == b && 0 <= h < |s.chunks|
    ensures b in s.blocks && 0 < s.chunks[h].size && s.chunks[h].End() <= b + s.blocks[b].size
    ensures s.chunks[h].next == INVALID ==> s.chunks[h].End() == b + s.blocks[b].size
    ensures s.chunks[h].next != INVALID ==>
              && s.chunks[h].next in s.home && s.home[s.chunks[h].next] == b
              && 0 <= s.chunks[h].next < |s.chunks| && s.chunks[s.chunks[h].next].ptr == s.chunks[h].End()
    ensures forall x | Below(s, x, b, s.chunks[h].End()) :: x == h || Below(s, x, b, s.chunks[h].ptr)
  {
    assert LiveOk(s, h);
    forall x | Below(s, x, b, s.chunks[h].End()) && x != h
      ensures Below(s, x, b, s.chunks[h].ptr)
    {
      assert LiveOk(s, x);
      NoOverlap(s, h, x);
    }
  }

  lemma EverythingBelow(s: Core, b: nat)
    requires Tiled(s) && b in s.blocks
    ensures forall x | x in s.home && s.home[x] == b && 0 <= x < |s.chunks| :: Below(s, x, b, b + s.blocks[b].size)
  {
    forall x | x in s.home && s.home[x] == b && 0 <= x < |s.chunks|
      ensures Below(s, x, b, b + s.blocks[b].size)
    {
      assert LiveOk(s, x);
    }
  }

  ghost predicate HasGrantIn(s: Core, b: nat) {
    exists p: nat :: b in s.blocks && b <= p < b + s.blocks[b].size && GrantAt(s, p).Some?
  }

  /** What Shrink does: only the regions with a grant are left, and under NextPowerOfTwo the first one. Grants, and
      free memory in what is left, are as they were. */
  ghost predicate ShrinksTo(config: Config, s: Core, t: Core) {
    && SameGrants(s, t) && KeepsFree(s, t)
    && (forall b: nat {:trigger b in t.blocks} ::
          b in t.blocks <==>
          b in s.blocks && (HasGrantIn(s, b) || (config.strategy.NextPowerOfTwo? && s.blocks[b].id == 0)))
    && (forall b | b in t.blocks :: t.blocks[b] == s.blocks[b])
  }

  lemma UsedHasGrant(s: Core, b: nat)
    requires Tiled(s) && b in s.blocks
    ensures AllFree(s, b) <==> !HasGrantIn(s, b)
  {
    forall h | h in s.home && s.home[h] == b && 0 <= h < |s.chunks| && s.chunks[h].InUse()
      ensures HasGrantIn(s, b)
    {
      assert LiveOk(s, h);
      assert GrantAt(s, s.chunks[h].ptr).Some?;
    }
    if HasGrantIn(s, b) {
      var p: nat :| b in s.blocks && b <= p < b + s.blocks[b].size && GrantAt(s, p).Some?;
      assert Indexed(s, p);
      assert InOrder(s.blocks, b, s.home[s.index[p]]) && InOrder(s.blocks, s.home[s.index[p]], b);
    }
  }

  lemma AllLookedAt(config: Config, s: Core, t: Core, ptrs: seq<nat>)
    requires ShrunkBy(s, t, ptrs)
    requires forall b | b in s.blocks && Eligible(config, s.blocks, b) :: b in ptrs
    requires forall b | b in ptrs :: Eligible(config, s.blocks, b)
    ensures ShrinksTo(config, s, t)
  {
    assert ShrunkFacts(s, t, ptrs, Unfolded);
    forall b | b in s.blocks
      ensures AllFree(s, b) <==> !HasGrantIn(s, b)
    {
      UsedHasGrant(s, b);
    }
  }

  /** One count for each region given back. */
  ghost predicate CountsShrinkages(before: Stats, after: Stats, dropped: int) {
    after == before.(numArenaShrinkages := before.numArenaShrinkages + dropped,
                     numArenaExtensions := before.numArenaExtensions - dropped,
                     totalAllocatedBytes := after.totalAllocatedBytes)
  }

  lemma NothingShrunk(s: Core)
    requires Tiled(s)
    ensures ShrunkBy(s, s, [])
  {
    AllFreeIsKept(s);
    forall u ensures ShrunkFacts(s, s, [], u) {
    }
  }

  lemma AllFreeIsKept(s: Core)
    requires Tiled(s)
    ensures KeepsFree(s, s)
  {
    forall a: nat, stream: Stream | IsFreeFor(s, a, stream)
      ensures Inside(s.blocks, a)
    {
      var h :| IsFreePart(s, h, a, stream);
      assert LiveOk(s, h);
    }
  }

  lemma OneMore(ptrs: seq<nat>, i: nat)
    requires i < |ptrs|
    ensures ptrs[..i] + [ptrs[i]] == ptrs[..i + 1]
  {
  }

  /** The regions still to be looked at are distinct, eligible and untouched. */
  ghost predicate Pending(config: Config, s: map<nat, Block>, t: map<nat, Block>, ptrs: seq<nat>, sizes: seq<nat>,
                          i: nat) {
    && |sizes| == |ptrs|
    && (forall k {:trigger ptrs[k]} | i <= k < |ptrs| ::
          Eligible(config, t, ptrs[k]) && ptrs[k] in s && sizes[k] == t[ptrs[k]].size)
    && (forall j, k | i <= j < k < |ptrs| :: ptrs[j] != ptrs[k])
    && (forall k | 0 <= k < |ptrs| :: Eligible(config, s, ptrs[k]))
  }

  lemma PendingHead(config: Config, s: map<nat, Block>, t: map<nat, Block>, ptrs: seq<nat>, sizes: seq<nat>, i: nat)
    requires Pending(config, s, t, ptrs, sizes, i) && i < |ptrs|
    ensures Eligible(config, t, ptrs[i]) && ptrs[i] in s && i < |sizes| && sizes[i] == t[ptrs[i]].size
  {
  }

  lemma PendingTail(config: Config, s: map<nat, Block>, t: map<nat, Block>, u: map<nat, Block>, ptrs: seq<nat>,
                    sizes: seq<nat>, i: nat)
    requires Pending(config, s, t, ptrs, sizes, i) && i < |ptrs|
    requires forall c | c in t && c != ptrs[i] :: c in u && u[c] == t[c]
    ensures Pending(config, s, u, ptrs, sizes, i + 1)
  {
  }

  /** `t` is what is left of `s` after the regions in `ptrs` without a chunk in use have gone. */
  ghost predicate ShrunkBy(s: Core, t: Core, ptrs: seq<nat>) {
    forall u {:trigger ShrunkFacts(s, t, ptrs, u)} :: ShrunkFacts(s, t, ptrs, u)
  }

  ghost predicate ShrunkFacts(s: Core, t: Core, ptrs: seq<nat>, u: Unfolding) {
    && Tiled(s) && SameGrants(s, t) && KeepsFree(s, t)
    && (forall b: nat {:trigger b in t.blocks} :: b in t.blocks <==> b in s.blocks && !(b in ptrs && AllFree(s, b)))
    && (forall b | b in t.blocks :: t.blocks[b] == s.blocks[b])
    && (forall b | b in t.blocks :: AllFree(t, b) <==> AllFree(s, b))
  }

  lemma ShrinkOne(s: Core, u: Core, t: Core, ptrs: seq<nat>, b: nat, dropped: bool)
    requires ShrunkBy(s, u, ptrs) && b in u.blocks && b in s.blocks
    requires CoreOk(u, {}) && NoAdjacentFree(u)
    requires dropped <==> AllFree(u, b)
    requires if dropped then IsDrop(u, t, b) else t == u
    ensures ShrunkBy(s, t, ptrs + [b])
  {
    assert ShrunkFacts(s, u, ptrs, Unfolded);
    if dropped {
      var noTags: map<nat, Tag> := map[];
      NoTags(u);
      DropOk(u, t, b, noTags);
      SameGrantsTwice(s, u, t);
      KeepsFreeTwice(s, u, t);
    }
    assert ShrunkFacts(s, t, ptrs + [b], Unfolded);
    forall v ensures ShrunkFacts(s, t, ptrs + [b], v) {
    }
  }

  lemma NoTags(s: Core)
    requires FreeListed(s)
    ensures Tagged(s, map[])
  {
  }

  lemma DroppingKeepsArena(config: Config, s: Core, t: Core, nextId: int, tags: map<nat, Tag>, reserved: map<nat, nat>,
                           stats: Stats, b: nat)
    requires ArenaOk(config, s, nextId, tags, reserved, stats)
    requires IsDrop(s, t, b) && AllFree(s, b) && Eligible(config, s.blocks, b)
    ensures ArenaOk(config, t, nextId, TagsOutside(tags, b, s.blocks[b].size), reserved,
                    ShrunkStats(stats, s.blocks[b].size))
  {
    ArenaUnfolds(config, s, nextId, tags, reserved, stats);
    DropOk(s, t, b, tags);
    DroppedBalance(s, t, reserved, stats, b);
    DroppedRest(config, s, t, nextId, tags, b);
    ReservedApartFromFewer(reserved, s.blocks, b);
    ArenaFolds(config, t, nextId, TagsOutside(tags, b, s.blocks[b].size), reserved, ShrunkStats(stats, s.blocks[b].size));
  }

  lemma DroppedBalance(s: Core, t: Core, reserved: map<nat, nat>, stats: Stats, b: nat)
    requires Balanced(s, reserved, stats) && b in s.blocks && t.blocks == s.blocks - {b}
    requires SumUse(t.chunks) == SumUse(s.chunks)
    ensures Balanced(t, reserved, ShrunkStats(stats, s.blocks[b].size))
  {
    SizesRemove(s.blocks, b);
  }

  lemma DroppedRest(config: Config, s: Core, t: Core, nextId: int, tags: map<nat, Tag>, b: nat)
    requires GrantsOk(s, nextId) && SameGrants(s, t) && TagsInside(s.blocks, tags)
    requires Eligible(config, s.blocks, b) && t.blocks == s.blocks - {b}
    requires config.strategy.NextPowerOfTwo? ==> FirstKept(s.blocks)
    ensures GrantsOk(t, nextId) && TagsInside(t.blocks, TagsOutside(tags, b, s.blocks[b].size))
    ensures config.strategy.NextPowerOfTwo? ==> FirstKept(t.blocks)
  {
    forall p: nat
      ensures GrantOk(t, nextId, p)
    {
      assert GrantOk(s, nextId, p);
    }
    forall a | a in TagsOutside(tags, b, s.blocks[b].size)
      ensures Inside(t.blocks, a)
    {
      assert Inside(s.blocks, a);
      var c :| c in s.blocks && c <= a < c + s.blocks[c].size;
      assert c in t.blocks;
    }
    if config.strategy.NextPowerOfTwo? {
      var f :| f in s.blocks && s.blocks[f].id == 0 && forall c | c in s.blocks && c != f :: 0 < s.blocks[c].id;
      assert f in t.blocks && t.blocks[f].id == 0;
    }
  }

  ghost predicate Eligible(config: Config, blocks: map<nat, Block>, b: nat) {
    b in blocks && (config.strategy.SameAsRequested? || blocks[b].id != 0)
  }

  lemma FreshIsNotReserved(config: Config, s: Core, nextId: int, tags: map<nat, Tag>, reserved: map<nat, nat>,
                           stats: Stats, mem: nat, size: nat)
    requires ArenaOk(config, s, nextId, tags, reserved, stats) && 0 < size
    requires mem != 0 ==> FreshBlock(mem, size, reserved, s.blocks)
    ensures mem in reserved ==> mem == 0
  {
    ArenaUnfolds(config, s, nextId, tags, reserved, stats);
  }

  lemma ReservingKeepsArena(config: Config, s: Core, nextId: int, tags: map<nat, Tag>, reserved: map<nat, nat>,
                            stats: Stats, mem: nat, size: nat)
    requires ArenaOk(config, s, nextId, tags, reserved, stats) && 0 < size && mem !in reserved
    requires mem != 0 ==> FreshBlock(mem, size, reserved, s.blocks)
    ensures ArenaOk(config, s, nextId, tags, reserved[mem := size], ReservedStats(stats, size))
  {
    ArenaUnfolds(config, s, nextId, tags, reserved, stats);
    SumMapAdd(reserved, mem, size);
    ReservingStaysApart(reserved, s.blocks, mem, size);
    ArenaFolds(config, s, nextId, tags, reserved[mem := size], ReservedStats(stats, size));
  }

  lemma ReleasingKeepsArena(config: Config, s: Core, nextId: int, tags: map<nat, Tag>, reserved: map<nat, nat>,
                            stats: Stats, p: nat)
    requires ArenaOk(config, s, nextId, tags, reserved, stats) && p in reserved
    ensures var released := stats.(bytesInUse := stats.bytesInUse - reserved[p],
                                   totalAllocatedBytes := stats.totalAllocatedBytes - reserved[p]);
      && 0 <= released.bytesInUse && released.totalAllocatedBytes <= stats.totalAllocatedBytes
      && ArenaOk(config, s, nextId, tags, reserved - {p}, released)
  {
    ArenaUnfolds(config, s, nextId, tags, reserved, stats);
    SumMapRemove(reserved, p);
    ReleasingStaysApart(reserved, s.blocks, p);
    ArenaFolds(config, s, nextId, tags, reserved - {p},
               stats.(bytesInUse := stats.bytesInUse - reserved[p],
                      totalAllocatedBytes := stats.totalAllocatedBytes - reserved[p]));
  }

  function ReservedStats(stats: Stats, size: nat): Stats {
    var inUse := stats.bytesInUse + size;
    stats.(bytesInUse := inUse, numReserves := stats.numReserves + 1, numAllocs := stats.numAllocs + 1,
           maxAllocSize := if stats.maxAllocSize < size then size else stats.maxAllocSize,
           maxBytesInUse := if stats.maxBytesInUse < inUse then inUse else stats.maxBytesInUse,
           totalAllocatedBytes := stats.totalAllocatedBytes + size)
  }

  /** The grant at `p` is gone and every other grant is as it was. */
  ghost predicate Revoked(s: Core, t: Core, p: nat) {
    && GrantAt(s, p).Some? && GrantAt(t, p) == None
    && FreesBytes(s, t, p, GrantAt(s, p).value)
    && forall q: nat | q != p :: GrantAt(t, q) == GrantAt(s, q)
  }

  /** There is a grant at q, and p points into its first 256 bytes. */
  ghost predicate StartsSlot(s: Core, p: nat, q: nat) {
    q <= p < q + 256 && GrantAt(s, q).Some?
  }

  lemma IndexedChunk(s: Core, a: nat)
    requires Tiled(s)
    ensures a in s.index ==> s.index[a] in s.home && 0 <= s.index[a] < |s.chunks| && s.chunks[s.index[a]].ptr == a
  {
    if a in s.index {
      assert Indexed(s, a);
    }
  }

  /** A granted pointer starts the slot of every address in its first 256 bytes, in exactly one region. */
  lemma GrantIsInSlot(s: Core, p: nat, q: nat)
    requires Tiled(s) && StartsSlot(s, p, q)
    ensures exists b :: b in s.blocks && b <= p < b + s.blocks[b].size
    ensures forall b | b in s.blocks && b <= p < b + s.blocks[b].size :: SlotStart(b, p) == q
    ensures q in s.index && s.index[q] != INVALID
  {
    assert Indexed(s, q) && LiveOk(s, s.index[q]);
    var c := s.home[s.index[q]];
    assert c in s.blocks && c <= p < c + s.blocks[c].size;
    forall b | b in s.blocks && b <= p < b + s.blocks[b].size
      ensures SlotStart(b, p) == q
    {
      assert InOrder(s.blocks, b, c) && InOrder(s.blocks, c, b);
    }
  }

  lemma FreeingKeepsArena(config: Config, s: Core, nextId: int, tags: map<nat, Tag>, reserved: map<nat, nat>,
                          stats: Stats, h: Handle) returns (t: Core)
    requires ArenaOk(config, s, nextId, tags, reserved, stats)
    requires h in s.home && 0 <= h < |s.chunks| && s.chunks[h].InUse()
    ensures |s.bins| == 21 && Floats(Returned(s, h), h)
    ensures var (u, r) := Coalesced(Returned(s, h), h);
      0 <= r < |u.chunks| && |u.bins| == 21 && t == WithBin(u, r)
    ensures Revoked(s, t, s.chunks[h].ptr)
    ensures ArenaOk(config, t, nextId, tags, reserved, stats.(bytesInUse := stats.bytesInUse - s.chunks[h].size))
  {
    ArenaUnfolds(config, s, nextId, tags, reserved, stats);
    t := FreedCore(s, h, tags);
    forall p: nat
      ensures GrantOk(t, nextId, p)
    {
      assert GrantOk(s, nextId, p);
    }
    ArenaFolds(config, t, nextId, tags, reserved, stats.(bytesInUse := stats.bytesInUse - s.chunks[h].size));
  }

  lemma FreedCore(s: Core, h: Handle, tags: map<nat, Tag>) returns (t: Core)
    requires CoreOk(s, {}) && NoAdjacentFree(s) && Tagged(s, tags)
    requires h in s.home && 0 <= h < |s.chunks| && s.chunks[h].InUse()
    ensures |s.bins| == 21 && Floats(Returned(s, h), h)
    ensures var (u, r) := Coalesced(Returned(s, h), h);
      0 <= r < |u.chunks| && |u.bins| == 21 && t == WithBin(u, r)
    ensures CoreOk(t, {}) && NoAdjacentFree(t) && Tagged(t, tags) && t.blocks == s.blocks
    ensures Revoked(s, t, s.chunks[h].ptr)
    ensures SumUse(t.chunks) == SumUse(s.chunks) - s.chunks[h].size
  {
    var v := Returned(s, h);
    ReturnOk(s, h, tags);
    CoalescedIsSettled(v, h, tags);
    var (u, r) := Coalesced(v, h);
    t := BinnedRegion(u, r, tags);
    SameGrantsTwice(v, u, t);
    assert LiveOk(s, h);
    forall q: nat | q != s.chunks[h].ptr
      ensures GrantAt(t, q) == GrantAt(s, q)
    {
      assert GrantAt(v, q) == GrantAt(s, q);
    }
    assert GrantAt(v, s.chunks[h].ptr) == None;
    FreedBytes(s, v, u, t, h);
  }

  lemma FreedBytes(s: Core, v: Core, u: Core, t: Core, h: Handle)
    requires h in s.home && 0 <= h < |s.chunks| && s.chunks[h].InUse() && v == Returned(s, h)
    requires SameFreeBytes(v, u) && SameButBins(u, t)
    ensures FreesBytes(s, t, s.chunks[h].ptr, GrantOf(s.chunks[h]))
  {
    ReturnFrees(s, h);
    BinsKeepFree(u, t);
    SameFreeTwice(v, u, t);
    assert FreeFacts(v, t, Unfolded);
  }

  /** NullPointer is the answer to a request of no bytes; Thrown is the exception raised when memory ran out. */
  datatype AllocResult = NullPointer | Pointer(p: nat) | Thrown

  /** `t` is `s` with a new grant at `p` of at least `numBytes`, and every other grant as it was. */
  ghost predicate NewGrant(s: Core, t: Core, p: nat, numBytes: nat, id: int, stream: Stream, syncId: nat) {
    && GrantAt(s, p) == None && GrantAt(t, p).Some?
    && var g := GrantAt(t, p).value;
       && g.requestedSize == numBytes <= g.size && g.allocationId == id
       && (stream != NULL_STREAM ==> g.stream == stream && g.streamSyncId == syncId)
       && (forall q: nat | q != p :: GrantAt(t, q) == GrantAt(s, q))
  }

  /** The pointer `p` has been granted, and every byte of it could be passed to the stream that asked. */
  ghost predicate Served(s: Core, t: Core, before: map<nat, Tag>, after: map<nat, Tag>, p: nat, numBytes: nat, id: int,
                         stream: Stream, syncId: nat, lastWait: (Stream, Stream) -> nat) {
    && NewGrant(s, t, p, numBytes, id, stream, syncId)
    && (forall a: nat {:trigger MayTake(before, a, stream, lastWait)} |
          p <= a < p + GrantAt(t, p).value.size :: MayTake(before, a, stream, lastWait))
    && p in t.index && 0 <= t.index[p] < |t.chunks| && t.chunks[t.index[p]].ptr == p
    && after == TagsAfter(before, t.chunks[t.index[p]], stream, syncId)
  }

  /** Which memory a request gets: the smallest free chunk open to it, or if none is, the region the device grants;
      cut to fit, with all other free chunks as they were. */
  ghost predicate IsGivenFrom(s: Core, t: Core, p: nat, region: Option<(nat, nat)>, rounded: nat, maxDead: nat,
                              stream: Stream, lastWait: (Stream, Stream) -> nat) {
    if NothingIsOpen(s, rounded, stream, lastWait)
    then region.Some? && p == region.value.1 && IsCutFromRegion(s, t, p, region.value.0, rounded, maxDead)
    else IsSmallestOpen(s, p, rounded, stream, lastWait) && IsCutFrom(s, t, p, rounded, maxDead)
  }

  ghost predicate IsCutFromRegion(s: Core, t: Core, p: nat, n: nat, rounded: nat, maxDead: nat) {
    exists id: nat :: IsCutToFit(s, t, p, FreeChunk(n, NULL_STREAM, id), rounded, maxDead)
  }

  /** After an extension for want of an open chunk the new region is the one that is open. */
  lemma NewRegionIsGiven(s: Core, u: Core, t: Core, p: nat, region: (nat, nat), rounded: nat, maxDead: nat,
                         stream: Stream, lastWait: (Stream, Stream) -> nat)
    requires NothingIsOpen(s, rounded, stream, lastWait) && SameFreeBut(s, u, region.1)
    requires FreeChunkAt(u, region.1, region.0) && rounded <= region.0
    requires IsSmallestOpen(u, p, rounded, stream, lastWait) && IsCutFrom(u, t, p, rounded, maxDead)
    ensures IsGivenFrom(s, t, p, Some(region), rounded, maxDead, stream, lastWait)
  {
    assert !IsOpenAt(s, p, rounded, stream, lastWait);
    assert p != region.1 ==> FreeAt(u, p) == FreeAt(s, p);
    var id := FreeAt(u, p).value.syncId;
    assert FreeAt(u, p).value == FreeChunk(region.0, NULL_STREAM, id);
    assert IsCutToFit(s, t, p, FreeChunk(region.0, NULL_STREAM, id), rounded, maxDead);
  }

  lemma HandedIsServed(s: Core, t: Core, h: Handle, tags: map<nat, Tag>, rounded: nat, numBytes: nat, id: int,
                       stream: Stream, syncId: nat, lastWait: (Stream, Stream) -> nat)
    requires Tagged(s, tags) && BestFit(s, h, rounded, stream, lastWait)
    requires Handed(s, t, h, numBytes, id, stream, syncId) && Tiled(t)
    ensures Served(s, t, tags, TagsAfter(tags, t.chunks[h], stream, syncId), t.chunks[h].ptr, numBytes, id, stream,
                   syncId, lastWait)
  {
    CandidateBytesMayBeTaken(s, h, tags, rounded, stream, lastWait);
    assert LiveOk(t, h);
  }

  lemma RegionIsOpen(s: Core, p: nat, n: nat, rounded: nat, stream: Stream, lastWait: (Stream, Stream) -> nat)
    requires FreeChunkAt(s, p, n) && rounded <= n
    ensures !NothingIsOpen(s, rounded, stream, lastWait)
  {
    assert IsOpenAt(s, p, rounded, stream, lastWait);
  }

  lemma ServedAfterExtension(s: Core, u: Core, t: Core, before: map<nat, Tag>, after: map<nat, Tag>, p: nat,
                             numBytes: nat, id: int, stream: Stream, syncId: nat, lastWait: (Stream, Stream) -> nat)
    requires SameGrants(s, u) && Served(u, t, before, after, p, numBytes, id, stream, syncId, lastWait)
    ensures Served(s, t, before, after, p, numBytes, id, stream, syncId, lastWait)
  {
    forall q: nat | q != p
      ensures GrantAt(t, q) == GrantAt(s, q)
    {
      assert GrantAt(u, q) == GrantAt(s, q);
    }
    assert GrantAt(u, p) == GrantAt(s, p);
  }

  /** `t` is `s` with one more region, whose memory nobody holds yet. */
  ghost predicate IsExtension(s: Core, t: Core, p: nat, n: nat, id: int) {
    p !in s.blocks && t.blocks == s.blocks[p := Block(n, id)] && SameGrants(s, t) && SameFreeBut(s, t, p)
  }

  function ExtendedStats(stats: Stats, bytes: nat): Stats {
    stats.(totalAllocatedBytes := stats.totalAllocatedBytes + bytes, numArenaExtensions := stats.numArenaExtensions + 1)
  }

  lemma ExtendingKeepsArena(config: Config, s: Core, nextId: int, tags: map<nat, Tag>, reserved: map<nat, nat>,
                            stats: Stats, mem: nat, bytes: nat) returns (t: Core)
    requires ArenaOk(config, s, nextId, tags, reserved, stats)
    requires 0 < bytes && bytes % 256 == 0 && FreshBlock(mem, bytes, reserved, s.blocks)
    ensures |s.bins| == 21 && (forall i | 0 <= i < |s.freeSeq| :: 0 <= s.freeSeq[i] < |s.chunks|)
    ensures s.freeSeq != [] ==> UnusedOk(s, 0)
    ensures 0 <= TakenRecord(s) < |AddRegion(s, mem, bytes, stats.numArenaExtensions).chunks|
    ensures t == WithBin(AddRegion(s, mem, bytes, stats.numArenaExtensions), TakenRecord(s))
    ensures IsExtension(s, t, mem, bytes, stats.numArenaExtensions) && FreeChunkAt(t, mem, bytes)
    ensures ArenaOk(config, t, nextId, tags, reserved, ExtendedStats(stats, bytes))
  {
    ArenaUnfolds(config, s, nextId, tags, reserved, stats);
    var id := stats.numArenaExtensions;
    t := ExtendedCore(s, tags, mem, bytes, id);
    ExtendedBalance(s, t, reserved, stats, mem, bytes);
    ExtendedRest(config, s, t, nextId, tags, mem, bytes, id);
    ReservedStaysApart(reserved, s.blocks, mem, bytes, id);
    ArenaFolds(config, t, nextId, tags, reserved, ExtendedStats(stats, bytes));
  }

  lemma ExtendedCore(s: Core, tags: map<nat, Tag>, mem: nat, bytes: nat, id: int) returns (t: Core)
    requires CoreOk(s, {}) && NoAdjacentFree(s) && Tagged(s, tags) && TagsInside(s.blocks, tags)
    requires 0 < bytes && bytes % 256 == 0
    requires forall b | b in s.blocks :: Disjoint(mem, bytes, b, s.blocks[b].size)
    ensures |s.bins| == 21 && (forall i | 0 <= i < |s.freeSeq| :: 0 <= s.freeSeq[i] < |s.chunks|)
    ensures s.freeSeq != [] ==> UnusedOk(s, 0)
    ensures 0 <= TakenRecord(s) < |AddRegion(s, mem, bytes, id).chunks|
    ensures t == WithBin(AddRegion(s, mem, bytes, id), TakenRecord(s))
    ensures IsExtension(s, t, mem, bytes, id) && FreeChunkAt(t, mem, bytes)
    ensures CoreOk(t, {}) && NoAdjacentFree(t) && Tagged(t, tags) && SumUse(t.chunks) == SumUse(s.chunks)
  {
    var u := AddedRegion(s, tags, mem, bytes, id);
    t := BinnedRegion(u, TakenRecord(s), tags);
    SameGrantsTwice(s, u, t);
    BinningLeavesFree(u, TakenRecord(s));
  }

  lemma AddedRegion(s: Core, tags: map<nat, Tag>, mem: nat, bytes: nat, id: int) returns (u: Core)
    requires CoreOk(s, {}) && NoAdjacentFree(s) && Tagged(s, tags) && TagsInside(s.blocks, tags)
    requires 0 < bytes && bytes % 256 == 0
    requires forall b | b in s.blocks :: Disjoint(mem, bytes, b, s.blocks[b].size)
    ensures mem !in s.blocks
    ensures |s.bins| == 21 && (forall i | 0 <= i < |s.freeSeq| :: 0 <= s.freeSeq[i] < |s.chunks|)
    ensures s.freeSeq != [] ==> UnusedOk(s, 0)
    ensures u == AddRegion(s, mem, bytes, id)
    ensures CoreOk(u, {TakenRecord(s)}) && TakenRecord(s) in u.home
    ensures SameGrants(s, u) && Tagged(u, tags) && NoAdjacentFree(u) && SumUse(u.chunks) == SumUse(s.chunks)
    ensures FreeChunkAt(u, mem, bytes) && u.index[mem] == TakenRecord(s) && SameFreeBut(s, u, mem)
  {
    var k := TakenRecord(s);
    RecordIsUnused(s);
    assert s.freeSeq != [] ==> UnusedOk(s, 0);
    NewBlock(s.blocks, mem, bytes);
    u := AddRegion(s, mem, bytes, id);
    AddRegionOk(s, mem, bytes, id, {});
    assert {} + {k} == {k};
    AddKeepsGrants(s, u, k, mem, bytes, id);
    AddLeavesFree(s, u, k, mem, bytes, id);
    NewBytesUntagged(s.blocks, tags, mem, bytes);
    AddKeepsTagged(s, u, k, mem, bytes, id, tags);
    AddKeepsSettled(s, u, k, mem, bytes, id);
    SumUseSame(s.chunks, u.chunks);
  }

  lemma BinnedRegion(u: Core, k: Handle, tags: map<nat, Tag>) returns (t: Core)
    requires CoreOk(u, {k}) && k in u.home && NoAdjacentFree(u) && Tagged(u, tags)
    ensures 0 <= k < |u.chunks| && |u.bins| == 21
    ensures t == WithBin(u, k) && CoreOk(t, {}) && NoAdjacentFree(t) && Tagged(t, tags) && SameGrants(u, t)
    ensures SumUse(t.chunks) == SumUse(u.chunks) && SameButBins(u, t)
  {
    WithBinOk(u, k, {k});
    assert {k} - {k} == {};
    t := WithBin(u, k);
    BinsHaveNoSay(u, t, tags);
    forall x
      ensures Settled(t, x)
    {
      assert Settled(u, x);
    }
  }

  lemma SameGrantsTwice(s: Core, u: Core, t: Core)
    requires SameGrants(s, u) && SameGrants(u, t)
    ensures SameGrants(s, t)
  {
    forall p: nat
      ensures GrantAt(t, p) == GrantAt(s, p)
    {
      assert GrantAt(u, p) == GrantAt(s, p);
    }
  }

  lemma NewBlock(blocks: map<nat, Block>, mem: nat, bytes: nat)
    requires BlocksOk(blocks) && 0 < bytes
    requires forall b | b in blocks :: Disjoint(mem, bytes, b, blocks[b].size)
    ensures mem !in blocks
  {
    assert mem in blocks ==> BlockOk(blocks, mem);
  }

  lemma NewBytesUntagged(blocks: map<nat, Block>, tags: map<nat, Tag>, mem: nat, bytes: nat)
    requires TagsInside(blocks, tags)
    requires forall b | b in blocks :: Disjoint(mem, bytes, b, blocks[b].size)
    ensures forall a | mem <= a < mem + bytes :: a !in tags
  {
    forall a | mem <= a < mem + bytes
      ensures a !in tags
    {
      assert a in tags ==> Inside(blocks, a);
    }
  }

  lemma ExtendedBalance(s: Core, t: Core, reserved: map<nat, nat>, stats: Stats, mem: nat, bytes: nat)
    requires Balanced(s, reserved, stats) && mem !in s.blocks
    requires t.blocks == s.blocks[mem := Block(bytes, stats.numArenaExtensions)] && SumUse(t.chunks) == SumUse(s.chunks)
    ensures Balanced(t, reserved, ExtendedStats(stats, bytes))
  {
    SizesAdd(s.blocks, mem, bytes, stats.numArenaExtensions);
  }

  lemma ExtendedRest(config: Config, s: Core, t: Core, nextId: int, tags: map<nat, Tag>, mem: nat, bytes: nat, id: int)
    requires GrantsOk(s, nextId) && SameGrants(s, t) && TagsInside(s.blocks, tags)
    requires mem !in s.blocks && t.blocks == s.blocks[mem := Block(bytes, id)] && id == |s.blocks|
    requires config.strategy.NextPowerOfTwo? ==> FirstKept(s.blocks)
    ensures GrantsOk(t, nextId) && TagsInside(t.blocks, tags)
    ensures config.strategy.NextPowerOfTwo? ==> FirstKept(t.blocks)
  {
    forall p: nat
      ensures GrantOk(t, nextId, p)
    {
      assert GrantOk(s, nextId, p);
    }
    forall a | a in tags
      ensures Inside(t.blocks, a)
    {
      assert Inside(s.blocks, a);
      var b :| b in s.blocks && b <= a < b + s.blocks[b].size;
      assert b in t.blocks;
    }
    if config.strategy.NextPowerOfTwo? && s.blocks == map[] {
      assert t.blocks[mem].id == 0;
    } else if config.strategy.NextPowerOfTwo? {
      var f :| f in s.blocks && s.blocks[f].id == 0 && forall b | b in s.blocks && b != f :: 0 < s.blocks[b].id;
      assert f in t.blocks && t.blocks[f].id == 0;
      NonEmpty(s.blocks, f);
    }
  }

  lemma NonEmpty(blocks: map<nat, Block>, f: nat)
    requires f in blocks
    ensures 0 < |blocks|
  {
    assert blocks.Keys != {};
  }

  /** The whole invariant of the bookkeeping: chunks, bins and records are consistent, no two adjacent free chunks
      of a stream remain, grants are distinct and large enough, bytes belong to the stream they were last given to,
      power-of-two growth keeps the first region, the statistics balance and reserved memory is apart. */
  ghost predicate ArenaFacts(config: Config, s: Core, nextId: int, tags: map<nat, Tag>, reserved: map<nat, nat>,
                             stats: Stats, u: Unfolding) {
    ArenaButSettled(config, s, nextId, tags, reserved, stats) && NoAdjacentFree(s)
  }

  ghost predicate ArenaOk(config: Config, s: Core, nextId: int, tags: map<nat, Tag>, reserved: map<nat, nat>,
                          stats: Stats) {
    forall u {:trigger ArenaFacts(config, s, nextId, tags, reserved, stats, u)} ::
      ArenaFacts(config, s, nextId, tags, reserved, stats, u)
  }

  lemma ArenaUnfolds(config: Config, s: Core, nextId: int, tags: map<nat, Tag>, reserved: map<nat, nat>, stats: Stats)
    requires ArenaOk(config, s, nextId, tags, reserved, stats)
    ensures ArenaButSettled(config, s, nextId, tags, reserved, stats) && NoAdjacentFree(s)
  {
    assert ArenaFacts(config, s, nextId, tags, reserved, stats, Unfolded);
  }

  lemma ArenaFolds(config: Config, s: Core, nextId: int, tags: map<nat, Tag>, reserved: map<nat, nat>, stats: Stats)
    requires ArenaButSettled(config, s, nextId, tags, reserved, stats) && NoAdjacentFree(s)
    ensures ArenaOk(config, s, nextId, tags, reserved, stats)
  {
    forall u ensures ArenaFacts(config, s, nextId, tags, reserved, stats, u) {
    }
  }

  ghost predicate ArenaButSettled(config: Config, s: Core, nextId: int, tags: map<nat, Tag>, reserved: map<nat, nat>,
                                  stats: Stats) {
    && config.Valid()
    && CoreOk(s, {})
    && GrantsOk(s, nextId)
    && Tagged(s, tags) && TagsInside(s.blocks, tags)
    && (config.strategy.NextPowerOfTwo? ==> FirstKept(s.blocks))
    && Balanced(s, reserved, stats)
    && ReservedApart(reserved, s.blocks)
  }

  lemma HandingKeepsArena(config: Config, s: Core, h: Handle, rounded: nat, numBytes: nat, id: int, stream: Stream,
                          syncId: nat, tags: map<nat, Tag>, reserved: map<nat, nat>, stats: Stats) returns (t: Core)
    requires ArenaOk(config, s, id, tags, reserved, stats)
    requires CutPre(s, h, rounded, config.maxDeadBytesPerChunk) && |s.bins| == 21 && 0 < numBytes <= rounded
    ensures 0 <= h < |Cut(s, h, rounded, config.maxDeadBytesPerChunk).chunks|
    ensures t == Hand(Cut(s, h, rounded, config.maxDeadBytesPerChunk), h, numBytes, id, stream, syncId)
    ensures Handed(s, t, h, numBytes, id, stream, syncId)
    ensures ArenaOk(config, t, id + 1, TagsAfter(tags, t.chunks[h], stream, syncId), reserved,
                    GrantedStats(stats, t.chunks[h].size))
  {
    ArenaUnfolds(config, s, id, tags, reserved, stats);
    HandOk(s, h, rounded, config.maxDeadBytesPerChunk, tags, numBytes, id, stream, syncId);
    t := Hand(Cut(s, h, rounded, config.maxDeadBytesPerChunk), h, numBytes, id, stream, syncId);
    HandedKeepsRest(s, t, h, numBytes, id, stream, syncId, tags);
    ArenaFolds(config, t, id + 1, TagsAfter(tags, t.chunks[h], stream, syncId), reserved, GrantedStats(stats,
        t.chunks[h].size));
  }

  function GrantedStats(stats: Stats, size: nat): Stats {
    var inUse := stats.bytesInUse + size;
    stats.(numAllocs := stats.numAllocs + 1, bytesInUse := inUse,
           maxBytesInUse := if stats.maxBytesInUse < inUse then inUse else stats.maxBytesInUse,
           maxAllocSize := if stats.maxAllocSize < size then size else stats.maxAllocSize)
  }

  /** One more grant of `n` bytes is counted, and the largest numbers so far are kept. */
  ghost predicate CountsGrant(before: Stats, after: Stats, n: nat) {
    && after.numAllocs == before.numAllocs + 1 && after.bytesInUse == before.bytesInUse + n
    && after.maxBytesInUse >= before.maxBytesInUse && after.maxBytesInUse >= after.bytesInUse
    && (after.maxBytesInUse == before.maxBytesInUse || after.maxBytesInUse == after.bytesInUse)
    && after.maxAllocSize >= before.maxAllocSize && after.maxAllocSize >= n
    && (after.maxAllocSize == before.maxAllocSize || after.maxAllocSize == n)
  }

  lemma CandidateIsReady(s: Core, h: Handle, rounded: nat, stream: Stream, lastWait: (Stream, Stream) -> nat,
                         maxDead: nat)
    requires CoreOk(s, {}) && NoAdjacentFree(s) && BestFit(s, h, rounded, stream, lastWait)
    requires 0 < rounded && rounded % 256 == 0 && 0 < maxDead
    ensures CutPre(s, h, rounded, maxDead) && |s.bins| == 21
    ensures stream == NULL_STREAM ==> s.chunks[h].stream == NULL_STREAM
  {
    RecordIsUnused(s);
  }

  /** Handing out one more chunk keeps ids distinct, and tagged bytes inside regions. */
  lemma HandedKeepsRest(s: Core, t: Core, h: Handle, numBytes: nat, id: int, stream: Stream, syncId: nat,
                        tags: map<nat, Tag>)
    requires GrantsOk(s, id) && Handed(s, t, h, numBytes, id, stream, syncId) && 0 < numBytes
    requires CoreOk(t, {}) && TagsInside(s.blocks, tags)
    ensures GrantsOk(t, id + 1)
    ensures TagsInside(t.blocks, TagsAfter(tags, t.chunks[h], stream, syncId))
  {
    var next := id + 1;
    forall p: nat
      ensures GrantOk(t, next, p)
    {
      assert GrantOk(s, id, p);
    }
    assert forall p: nat :: GrantAt(s, p).Some? ==> GrantOk(s, id, p);
    assert LiveOk(t, h);
    var b := t.home[h];
    forall a | a in TagsAfter(tags, t.chunks[h], stream, syncId)
      ensures Inside(t.blocks, a)
    {
      if a in tags {
        assert Inside(s.blocks, a);
      } else {
        assert b in t.blocks && b <= a < b + t.blocks[b].size;
      }
    }
  }

  ghost predicate HandlesBounded(m: map<Stream, set<Handle>>, n: nat) {
    forall s {:trigger m[s]} | s in m :: Bounded(m[s], n)
  }

  ghost predicate Bounded(hs: set<Handle>, n: nat) {
    forall h | h in hs :: 0 <= h < n
  }
}
