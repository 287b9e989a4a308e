/** The handles recorded for each stream. A stream's set may hold more than the stream's chunks, but never misses a
    chunk in use for it. */
module ArenaRecords {
  import opened Hiding
  import opened ArenaTypes

  ghost predicate StreamsKnowFacts(chunks: seq<Chunk>, records: map<Stream, set<Handle>>, exempt: Handle, u: Unfolding) {
    forall h | 0 <= h < |chunks| && h != exempt && chunks[h].InUse() && chunks[h].stream != NULL_STREAM ::
      chunks[h].stream in records && h in records[chunks[h].stream]
  }

  /** Every chunk in use for a stream, but perhaps one, is recorded for it. */
  ghost predicate StreamsKnow(chunks: seq<Chunk>, records: map<Stream, set<Handle>>, exempt: Handle) {
    forall u {:trigger StreamsKnowFacts(chunks, records, exempt, u)} :: StreamsKnowFacts(chunks, records, exempt, u)
  }

  lemma StreamsKnowFolds(chunks: seq<Chunk>, records: map<Stream, set<Handle>>, exempt: Handle)
    requires StreamsKnowFacts(chunks, records, exempt, Unfolded)
    ensures StreamsKnow(chunks, records, exempt)
  {
    forall u ensures StreamsKnowFacts(chunks, records, exempt, u) {
    }
  }

  /** What is in use was in use for the same stream. */
  ghost predicate SameUse(a: seq<Chunk>, b: seq<Chunk>) {
    forall h | 0 <= h < |b| && b[h].InUse() :: h < |a| && a[h].InUse() && a[h].stream == b[h].stream
  }

  lemma StreamsKnowStill(a: seq<Chunk>, b: seq<Chunk>, records: map<Stream, set<Handle>>, exempt: Handle)
    requires StreamsKnow(a, records, exempt) && SameUse(a, b)
    ensures StreamsKnow(b, records, exempt)
  {
    assert StreamsKnowFacts(a, records, exempt, Unfolded);
    StreamsKnowFolds(b, records, exempt);
  }

  /** Whatever becomes of one chunk, it may be left out. */
  lemma StreamsKnowOthers(a: seq<Chunk>, b: seq<Chunk>, records: map<Stream, set<Handle>>, h: Handle)
    requires StreamsKnow(a, records, INVALID) && |a| == |b| && 0 <= h < |a| && b[h := a[h]] == a
    ensures StreamsKnow(b, records, h)
  {
    assert StreamsKnowFacts(a, records, INVALID, Unfolded);
    forall x | 0 <= x < |b| && x != h ensures b[x] == a[x] {
      assert b[h := a[h]][x] == b[x];
    }
    StreamsKnowFolds(b, records, h);
  }

  /** Once the chunk left out is recorded for its stream, or has none, none is left out. */
  lemma StreamsKnowToo(a: seq<Chunk>, before: map<Stream, set<Handle>>, b: seq<Chunk>,
                       after: map<Stream, set<Handle>>, h: Handle)
    requires StreamsKnow(a, before, h) && 0 <= h < |a| && |a| == |b|
    requires forall x | 0 <= x < |a| && x != h :: b[x] == a[x]
    requires b[h].stream == NULL_STREAM || (b[h].stream in after && h in after[b[h].stream])
    requires forall s, x {:trigger x in before[s]} | s in before && x in before[s] :: s in after && x in after[s]
    ensures StreamsKnow(b, after, INVALID)
  {
    assert StreamsKnowFacts(a, before, h, Unfolded);
    StreamsKnowFolds(b, after, INVALID);
  }

  lemma StreamsKnowMore(chunks: seq<Chunk>, before: map<Stream, set<Handle>>, after: map<Stream, set<Handle>>,
                        exempt: Handle)
    requires StreamsKnow(chunks, before, exempt)
    requires forall s {:trigger before[s]} {:trigger after[s]} | s in before :: s in after && before[s] <= after[s]
    ensures StreamsKnow(chunks, after, exempt)
  {
    assert StreamsKnowFacts(chunks, before, exempt, Unfolded);
    StreamsKnowFolds(chunks, after, exempt);
  }

  /** When the chunks recorded for a stream have been taken from it, its record may go. */
  lemma StreamsKnowRest(a: seq<Chunk>, b: seq<Chunk>, records: map<Stream, set<Handle>>, stream: Stream)
    requires StreamsKnow(a, records, INVALID) && stream in records && |a| == |b|
    requires forall h | 0 <= h < |a| ::
               b[h] == if h in records[stream] then a[h].(stream := NULL_STREAM) else a[h]
    ensures StreamsKnow(b, records - {stream}, INVALID)
  {
    assert StreamsKnowFacts(a, records, INVALID, Unfolded);
    forall h | 0 <= h < |b| && h != INVALID && b[h].InUse() && b[h].stream != NULL_STREAM
      ensures b[h].stream in records - {stream} && h in (records - {stream})[b[h].stream]
    {
      assert b[h] == a[h];
    }
    StreamsKnowFolds(b, records - {stream}, INVALID);
  }

  /** The record of one handle for one stream is dropped, and with the last one the stream. */
  function WithoutRecord(records: map<Stream, set<Handle>>, h: Handle, s: Stream): map<Stream, set<Handle>> {
    if s !in records then records
    else if records[s] - {h} == {} then records - {s}
    else records[s := records[s] - {h}]
  }

  lemma OthersStayRecorded(records: map<Stream, set<Handle>>, h: Handle, s: Stream, t: Stream, x: Handle)
    requires t in records && x in records[t] && x != h
    ensures t in WithoutRecord(records, h, s) && x in WithoutRecord(records, h, s)[t]
  {
    assert t == s ==> x in records[s] - {h};
  }

  /** The record of a handle that is not in use may be dropped. */
  lemma StreamsForget(a: seq<Chunk>, records: map<Stream, set<Handle>>, b: seq<Chunk>, s: Stream, h: Handle,
                      exempt: Handle)
    requires StreamsKnow(a, records, exempt) && SameUse(a, b) && !(0 <= h < |b| && b[h].InUse())
    ensures StreamsKnow(b, records, exempt) && StreamsKnow(b, WithoutRecord(records, h, s), exempt)
  {
    StreamsKnowStill(a, b, records, exempt);
    assert StreamsKnowFacts(b, records, exempt, Unfolded);
    var after := WithoutRecord(records, h, s);
    forall x | 0 <= x < |b| && x != exempt && b[x].InUse() && b[x].stream != NULL_STREAM
      ensures b[x].stream in after && x in after[b[x].stream]
    {
      OthersStayRecorded(records, h, s, b[x].stream, x);
    }
    StreamsKnowFolds(b, after, exempt);
  }
}
