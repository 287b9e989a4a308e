/**
 * Destination memory with copies that have been enqueued but may not have run yet. Copies on one
 * stream run in the order they were enqueued; copies on different streams run in any order.
 */
module PendingCopies {

  type Bytes = seq<bv8>

  // Copy `length` bytes at `prefix` of a staging slot to `address`.
  datatype Copy = Copy(stream: nat, slot: nat, prefix: nat, length: nat, address: nat)

  function Splice(memory: Bytes, address: nat, data: Bytes): (m: Bytes)
    requires address + |data| <= |memory|
    ensures |m| == |memory| && m[address..address + |data|] == data
    ensures forall a :: 0 <= a < |m| && !(address <= a < address + |data|) ==> m[a] == memory[a]
  {
    memory[..address] + data + memory[address + |data|..]
  }

  predicate Fits(slots: seq<Bytes>, size: nat, p: Copy) {
    p.slot < |slots| && p.prefix + p.length <= |slots[p.slot]| && p.address + p.length <= size
  }

  predicate AllFit(slots: seq<Bytes>, size: nat, pending: seq<Copy>) {
    forall p :: p in pending ==> Fits(slots, size, p)
  }

  // What the copy moves if it runs now.
  function Payload(slots: seq<Bytes>, p: Copy): (data: Bytes)
    requires p.slot < |slots| && p.prefix + p.length <= |slots[p.slot]|
    ensures |data| == p.length
  {
    slots[p.slot][p.prefix..p.prefix + p.length]
  }

  function Run(memory: Bytes, slots: seq<Bytes>, p: Copy): (m: Bytes)
    requires Fits(slots, |memory|, p)
    ensures |m| == |memory|
  {
    Splice(memory, p.address, Payload(slots, p))
  }

  // The memory once every pending copy has run, in the order enqueued.
  function Settled(memory: Bytes, slots: seq<Bytes>, pending: seq<Copy>): (m: Bytes)
    requires AllFit(slots, |memory|, pending)
    ensures |m| == |memory|
    decreases pending
  {
    if pending == [] then memory else Settled(Run(memory, slots, pending[0]), slots, pending[1..])
  }

  predicate Apart(p: Copy, q: Copy) {
    p.address + p.length <= q.address || q.address + q.length <= p.address
  }

  // Two copies touch the same bytes only if a stream orders them.
  predicate RaceFree(pending: seq<Copy>) {
    forall i, j :: 0 <= i < j < |pending| && pending[i].stream != pending[j].stream ==> Apart(pending[i], pending[j])
  }

  // A copy may run once its stream has nothing before it.
  predicate IsReady(pending: seq<Copy>, i: nat) {
    i < |pending| && forall j :: 0 <= j < i ==> pending[j].stream != pending[i].stream
  }

  function WithoutCopy(pending: seq<Copy>, i: nat): (rest: seq<Copy>)
    requires i < |pending|
    ensures |rest| == |pending| - 1 && forall p :: p in rest ==> p in pending
  {
    pending[..i] + pending[i + 1..]
  }

  lemma WithoutCopyIsRaceFree(pending: seq<Copy>, i: nat)
    requires RaceFree(pending) && i < |pending|
    ensures RaceFree(WithoutCopy(pending, i))
  {
    var rest := WithoutCopy(pending, i);
    forall a, b | 0 <= a < b < |rest| && rest[a].stream != rest[b].stream ensures Apart(rest[a], rest[b]) {
      var a', b' := if a < i then a else a + 1, if b < i then b else b + 1;
      assert rest[a] == pending[a'] && rest[b] == pending[b'];
    }
  }

  lemma RunsCommute(memory: Bytes, slots: seq<Bytes>, p: Copy, q: Copy)
    requires Fits(slots, |memory|, p) && Fits(slots, |memory|, q) && Apart(p, q)
    ensures Run(Run(memory, slots, p), slots, q) == Run(Run(memory, slots, q), slots, p)
  {
    var pq, qp := Run(Run(memory, slots, p), slots, q), Run(Run(memory, slots, q), slots, p);
    var dp, dq := Payload(slots, p), Payload(slots, q);
    forall a | 0 <= a < |memory| ensures pq[a] == qp[a] {
      if p.address <= a < p.address + p.length {
        assert Run(memory, slots, p)[p.address..p.address + p.length][a - p.address] == dp[a - p.address];
        assert qp[p.address..p.address + p.length][a - p.address] == dp[a - p.address];
      } else if q.address <= a < q.address + q.length {
        assert Run(memory, slots, q)[q.address..q.address + q.length][a - q.address] == dq[a - q.address];
        assert pq[q.address..q.address + q.length][a - q.address] == dq[a - q.address];
      }
    }
  }

  // A copy apart from everything before it may run first.
  lemma {:induction false} RunEarly(memory: Bytes, slots: seq<Bytes>, pending: seq<Copy>, i: nat)
    requires AllFit(slots, |memory|, pending) && i < |pending|
    requires forall j :: 0 <= j < i ==> Apart(pending[j], pending[i])
    ensures Settled(memory, slots, pending) == Settled(Run(memory, slots, pending[i]), slots, WithoutCopy(pending, i))
    decreases i
  {
    var p := pending[i];
    var rest := WithoutCopy(pending, i);
    if i == 0 {
      assert rest == pending[1..];
    } else {
      var first := pending[0];
      RunEarly(Run(memory, slots, first), slots, pending[1..], i - 1);
      RunsCommute(memory, slots, first, p);
      assert rest[1..] == WithoutCopy(pending[1..], i - 1);
      assert rest[0] == first;
    }
  }

  // Whichever ready copy runs next, everything settles to the same memory.
  lemma AnyOrderSettlesAlike(memory: Bytes, slots: seq<Bytes>, pending: seq<Copy>, i: nat)
    requires AllFit(slots, |memory|, pending) && RaceFree(pending) && IsReady(pending, i)
    ensures RaceFree(WithoutCopy(pending, i))
    ensures Settled(memory, slots, pending) == Settled(Run(memory, slots, pending[i]), slots, WithoutCopy(pending, i))
  {
    WithoutCopyIsRaceFree(pending, i);
    RunEarly(memory, slots, pending, i);
  }

  lemma {:induction false} EnqueueSettles(memory: Bytes, slots: seq<Bytes>, pending: seq<Copy>, p: Copy)
    requires AllFit(slots, |memory|, pending) && Fits(slots, |memory|, p)
    ensures AllFit(slots, |memory|, pending + [p])
    ensures Settled(memory, slots, pending + [p]) == Run(Settled(memory, slots, pending), slots, p)
    decreases pending
  {
    if pending == [] {
      assert (pending + [p])[1..] == [];
    } else {
      EnqueueSettles(Run(memory, slots, pending[0]), slots, pending[1..], p);
      assert (pending + [p])[1..] == pending[1..] + [p];
    }
  }

  // Refilling a slot no pending copy reads from changes nothing that is still to come.
  lemma {:induction false} RefillSettlesAlike(memory: Bytes, slots: seq<Bytes>, pending: seq<Copy>, slot: nat, data: Bytes)
    requires AllFit(slots, |memory|, pending) && slot < |slots| && |data| == |slots[slot]|
    requires forall p :: p in pending ==> p.slot != slot
    ensures AllFit(slots[slot := data], |memory|, pending)
    ensures Settled(memory, slots[slot := data], pending) == Settled(memory, slots, pending)
    decreases pending
  {
    if pending != [] {
      RefillSettlesAlike(Run(memory, slots, pending[0]), slots, pending[1..], slot, data);
    }
  }

  // A copy apart from everything pending may as well run at once.
  lemma EarlyCopySettles(memory: Bytes, slots: seq<Bytes>, pending: seq<Copy>, p: Copy)
    requires AllFit(slots, |memory|, pending) && Fits(slots, |memory|, p)
    requires forall q :: q in pending ==> Apart(q, p)
    ensures Settled(Run(memory, slots, p), slots, pending) == Run(Settled(memory, slots, pending), slots, p)
  {
    EnqueueSettles(memory, slots, pending, p);
    RunEarly(memory, slots, pending + [p], |pending|);
    assert WithoutCopy(pending + [p], |pending|) == pending;
  }
}
