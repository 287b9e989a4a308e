/**
 * The file reader that stages aligned reads in a ring of pinned buffers and copies from them
 * asynchronously (src/direct_cuda_stream_reader.cc).
 *
 * `memory` is the memory the callers' destinations lie in and `pending` the copies enqueued that
 * have not run. They belong to the device: `LetDeviceRun` lets any of the copies that are ready
 * run, and stands wherever the reader does something in between.
 */
module StagedReader {
  import opened Division
  import opened Hiding
  import opened PendingCopies
  import opened Alignment
  import opened PositionedReads

  datatype Destination = Null | Host(address: nat) | Device(address: nat)
  datatype SeekPosition = FromStart | FromCurrent | FromEnd | Unknown

  predicate IsSetup(slotBytes: nat, ringDepth: int, alignment: nat) {
    ringDepth >= 1 && 0 < alignment < slotBytes <= MAX_UNSIGNED && slotBytes % alignment == 0
  }

  // The checks made before the file is opened; the slot size is rounded up first.
  function Setup(requestedSlotBytes: nat, ringDepth: int, alignment: nat): (slotBytes: Result<nat>)
    requires requestedSlotBytes <= MAX_UNSIGNED && alignment > 0
    ensures slotBytes.Ok? ==>
        IsSetup(slotBytes.value, ringDepth, alignment) &&
        requestedSlotBytes <= slotBytes.value < requestedSlotBytes + alignment
    ensures slotBytes == Error(InvalidArgument) ==> ringDepth < 1 || requestedSlotBytes <= alignment
    ensures ringDepth < 1 || requestedSlotBytes <= alignment ==> slotBytes.Error?
    ensures slotBytes.Error? ==> slotBytes.error == InvalidArgument || slotBytes.error == AlignmentOverflow
  {
    MultipleHasNoRemainder(1, alignment);
    var rounded := AlignUp(requestedSlotBytes, alignment);
    if rounded.Error? then rounded
    else if ringDepth < 1 || rounded.value <= alignment then Error(InvalidArgument)
    else rounded
  }

  // --- The reader -----------------------------------------------------------------------------

  // Nothing still to come may write to the destination range, except copies that the stream
  // itself orders before this one.
  predicate IsFree(pending: seq<Copy>, destination: Destination, stream: nat, length: nat)
    requires !destination.Null?
  {
    forall p :: p in pending && (destination.Host? || p.stream != stream) ==>
        p.address + p.length <= destination.address || destination.address + length <= p.address
  }

  lemma SomethingIsIn(pending: seq<Copy>)
    ensures pending == [] || exists p :: p in pending
  {
    if pending != [] {
      assert pending[0] in pending;
    }
  }

  // A copy that a read into the first `length` bytes of the destination has enqueued.
  predicate IsCopyInto(p: Copy, destination: Destination, stream: nat, length: nat) {
    && destination.Device? && p.stream == stream
    && destination.address <= p.address && p.address + p.length <= destination.address + length
  }

  // Nothing is in flight that was not, but copies into those bytes.
  predicate OnlyCopiesInto(
    before: seq<Copy>, pending: seq<Copy>, destination: Destination, stream: nat, length: nat) {
    forall p :: p in pending ==> p in before || IsCopyInto(p, destination, stream, length)
  }

  lemma MoreCopies(
    before: seq<Copy>, middle: seq<Copy>, pending: seq<Copy>, destination: Destination, stream: nat, length: nat,
    wanted: nat)
    requires OnlyCopiesInto(before, middle, destination, stream, wanted)
    requires OnlyCopiesInto(middle, pending, destination, stream, length) && length <= wanted
    ensures OnlyCopiesInto(before, pending, destination, stream, wanted)
    ensures !destination.Null? && IsFree(middle, destination, stream, wanted) ==>
        IsFree(pending, destination, stream, wanted)
  {
  }

  ghost predicate DeliveryFacts(
    file: seq<bv8>, before: seq<bv8>, after: seq<bv8>, address: nat, from: nat, length: nat, u: Unfolding)
    requires from + length <= |file| && address + length <= |before| == |after|
  {
    forall a {:trigger after[a]} :: 0 <= a < |after| ==>
        after[a] == if address <= a < address + length then file[from + a - address] else before[a]
  }

  // `length` bytes of the file from `from` on have been put at `address`, and nothing else moved.
  ghost predicate IsDelivery(file: seq<bv8>, before: seq<bv8>, after: seq<bv8>, address: nat, from: nat, length: nat) {
    && from + length <= |file| && address + length <= |before| == |after|
    && forall u {:trigger DeliveryFacts(file, before, after, address, from, length, u)} ::
        DeliveryFacts(file, before, after, address, from, length, u)
  }

  lemma SpliceDelivers(file: seq<bv8>, before: seq<bv8>, data: seq<bv8>, address: nat, from: nat)
    requires from + |data| <= |file| && file[from..from + |data|] == data && address + |data| <= |before|
    ensures IsDelivery(file, before, Splice(before, address, data), address, from, |data|)
  {
  }

  lemma NothingDelivered(file: seq<bv8>, before: seq<bv8>, after: seq<bv8>, address: nat, from: nat)
    requires from <= |file| && address <= |before|
    ensures IsDelivery(file, before, after, address, from, 0) <==> after == before
  {
    if IsDelivery(file, before, after, address, from, 0) {
      assert DeliveryFacts(file, before, after, address, from, 0, Unfolded);
    }
  }

  // What was delivered is the file's own stretch of bytes.
  lemma DeliveredBytes(file: seq<bv8>, before: seq<bv8>, after: seq<bv8>, address: nat, from: nat, length: nat)
    requires IsDelivery(file, before, after, address, from, length)
    ensures after[address..address + length] == file[from..from + length]
    ensures after[..address] == before[..address] && after[address + length..] == before[address + length..]
  {
    assert DeliveryFacts(file, before, after, address, from, length, Unfolded);
  }

  // Two reads in a row into adjacent memory are one read.
  lemma DeliverMore(
    file: seq<bv8>, first: seq<bv8>, second: seq<bv8>, third: seq<bv8>, address: nat, from: nat, m: nat, n: nat)
    requires IsDelivery(file, first, second, address, from, m)
    requires IsDelivery(file, second, third, address + m, from + m, n)
    ensures IsDelivery(file, first, third, address, from, m + n)
  {
    assert DeliveryFacts(file, first, second, address, from, m, Unfolded);
    assert DeliveryFacts(file, second, third, address + m, from + m, n, Unfolded);
  }

  // One call of the reader: how much it asks for, on which stream, and whether the memory it
  // names is the device's.
  datatype Piece = Piece(device: bool, bytes: int, stream: nat)

  function At(piece: Piece, address: nat): (destination: Destination)
    ensures !destination.Null? && destination.address == address && destination.Device? == piece.device
  {
    if piece.device then Device(address) else Host(address)
  }

  function TotalBytes(pieces: seq<Piece>): (total: nat)
  {
    if pieces == [] then 0 else (if pieces[0].bytes > 0 then pieces[0].bytes else 0) + TotalBytes(pieces[1..])
  }

  // No copy in flight may write where any of the pieces goes, unless every piece follows it on
  // its own stream.
  predicate AllFree(pending: seq<Copy>, pieces: seq<Piece>, address: nat, length: nat) {
    forall p, piece {:trigger p in pending, piece in pieces} ::
      p in pending && piece in pieces && !(piece.device && p.stream == piece.stream) ==>
        p.address + p.length <= address || address + length <= p.address
  }

  lemma FirstIsFree(
    before: seq<Copy>, pending: seq<Copy>, pieces: seq<Piece>, address: nat, length: nat, available: nat)
    requires AllFree(before, pieces, address, length) && pieces != [] && available <= length
    requires forall p :: p in pending ==> p in before
    ensures IsFree(pending, At(pieces[0], address), pieces[0].stream, available)
  {
    assert pieces[0] in pieces;
  }

  // What the first piece put in flight lies in front of the memory of the rest.
  lemma RestIsFree(
    before: seq<Copy>, pending: seq<Copy>, pieces: seq<Piece>, address: nat, length: nat, done: nat, rest: nat)
    requires AllFree(before, pieces, address, length) && pieces != [] && done + rest <= length
    requires OnlyCopiesInto(before, pending, At(pieces[0], address), pieces[0].stream, done)
    ensures AllFree(pending, pieces[1..], address + done, rest)
  {
    assert forall piece :: piece in pieces[1..] ==> piece in pieces;
  }

  lemma StagedPrefix(slot: seq<bv8>, file: seq<bv8>, offset: nat, total: nat, length: nat)
    requires length <= total <= |slot| && offset + total <= |file| && Holds(slot, file, offset, total)
    ensures Holds(slot, file, offset, length)
  {
    HoldsUnfolds(slot, file, offset, total);
    HoldsUnfolds(slot, file, offset, length);
    assert slot[..length] == slot[..total][..length];
  }

  // A copy out of a slot that holds the file's bytes from `offset` on delivers those behind its prefix.
  lemma RunDelivers(file: seq<bv8>, memory: seq<bv8>, slots: seq<seq<bv8>>, copy: Copy, offset: nat)
    requires Fits(slots, |memory|, copy) && offset + copy.prefix + copy.length <= |file|
    requires slots[copy.slot][..copy.prefix + copy.length] == file[offset..offset + copy.prefix + copy.length]
    ensures IsDelivery(file, memory, Run(memory, slots, copy), copy.address, offset + copy.prefix, copy.length)
  {
    var slot, prefix, length := slots[copy.slot], copy.prefix, copy.length;
    assert slot[prefix..prefix + length] == slot[..prefix + length][prefix..];
    SpliceDelivers(file, memory, Payload(slots, copy), copy.address, offset + prefix);
  }

  lemma OneCopyMore(pending: seq<Copy>, destination: Destination, copy: Copy, length: nat)
    requires !destination.Null? && destination.address <= copy.address
    requires copy.address + copy.length <= destination.address + length
    ensures OnlyCopiesInto(pending, pending, destination, copy.stream, length)
    ensures destination.Device? ==> OnlyCopiesInto(pending, pending + [copy], destination, copy.stream, length)
  {
  }

  lemma CopyIsApart(pending: seq<Copy>, destination: Destination, copy: Copy, completed: nat)
    requires !destination.Null? && IsFree(pending, destination, copy.stream, completed + copy.length)
    requires copy.address == destination.address + completed
    ensures forall p :: p in pending && (destination.Host? || p.stream != copy.stream) ==> Apart(p, copy)
  {
  }

  ghost predicate HoldsFacts(slot: seq<bv8>, file: seq<bv8>, offset: nat, total: nat, u: Unfolding)
    requires total <= |slot| && offset + total <= |file|
  {
    slot[..total] == file[offset..offset + total]
  }

  ghost predicate Holds(slot: seq<bv8>, file: seq<bv8>, offset: nat, total: nat)
    requires total <= |slot| && offset + total <= |file|
  {
    forall u {:trigger HoldsFacts(slot, file, offset, total, u)} :: HoldsFacts(slot, file, offset, total, u)
  }

  lemma HoldsUnfolds(slot: seq<bv8>, file: seq<bv8>, offset: nat, total: nat)
    requires total <= |slot| && offset + total <= |file|
    ensures Holds(slot, file, offset, total) <==> slot[..total] == file[offset..offset + total]
  {
    if Holds(slot, file, offset, total) {
      assert HoldsFacts(slot, file, offset, total, Unfolded);
    }
  }

  ghost predicate RingFacts(
    slots: seq<seq<bv8>>, size: nat, pending: seq<Copy>, copyInflight: seq<bool>, slotBytes: nat, u: Unfolding)
    requires |slots| == |copyInflight|
  {
    && (forall i :: 0 <= i < |slots| ==> |slots[i]| == slotBytes)
    && AllFit(slots, size, pending) && RaceFree(pending)
    && (forall p :: p in pending ==> copyInflight[p.slot])
    && (forall i, j :: 0 <= i < j < |pending| ==> pending[i].slot != pending[j].slot)
  }

  // Every slot has its size, and every copy in flight fits, races with no other, is known to be in
  // flight and has its slot to itself.
  ghost predicate RingIsOk(
    slots: seq<seq<bv8>>, size: nat, pending: seq<Copy>, copyInflight: seq<bool>, slotBytes: nat)
    requires |slots| == |copyInflight|
  {
    forall u {:trigger RingFacts(slots, size, pending, copyInflight, slotBytes, u)} ::
      RingFacts(slots, size, pending, copyInflight, slotBytes, u)
  }

  lemma RingFolds(
    slots: seq<seq<bv8>>, size: nat, pending: seq<Copy>, copyInflight: seq<bool>, slotBytes: nat)
    requires |slots| == |copyInflight| && RingFacts(slots, size, pending, copyInflight, slotBytes, Unfolded)
    ensures RingIsOk(slots, size, pending, copyInflight, slotBytes)
  {
    forall u ensures RingFacts(slots, size, pending, copyInflight, slotBytes, u) {
    }
  }

  class DirectCudaStreamReader {
    const file: seq<bv8>
    const alignment: nat
    const slotBytes: nat
    const ringDepth: nat
    const direct: bool            // the file could be opened for unbuffered reads
    const answers: Answers        // what the system answers to the positioned reads
    var calls: nat                // how many of them have been made
    var position: nat
    var nextSlot: nat
    var slots: seq<seq<bv8>>
    var copyInflight: seq<bool>
    var memory: seq<bv8>
    var pending: seq<Copy>

    ghost predicate Valid()
      reads this
    {
      && IsSetup(slotBytes, ringDepth, alignment)
      && position <= |file| <= 0x7fff_ffff_ffff_ffff
      && nextSlot < ringDepth
      && |slots| == |copyInflight| == ringDepth
      && RingIsOk(slots, |memory|, pending, copyInflight, slotBytes)
    }

    // What that says of the ring and the copies in flight.
    lemma RingUnfolds()
      requires Valid()
      ensures RingFacts(slots, |memory|, pending, copyInflight, slotBytes, Unfolded)
    {
    }

    // The destination memory once the device has caught up.
    ghost function Final(): (m: seq<bv8>)
      requires Valid()
      reads this
    {
      assert RingFacts(slots, |memory|, pending, copyInflight, slotBytes, Unfolded);
      Settled(memory, slots, pending)
    }

    constructor (
      file: seq<bv8>, requestedSlotBytes: nat, ringDepth: nat, alignment: nat, direct: bool, answers: Answers,
      memory: seq<bv8>)
      requires |file| <= 0x7fff_ffff_ffff_ffff && requestedSlotBytes <= MAX_UNSIGNED && alignment > 0
      requires Setup(requestedSlotBytes, ringDepth, alignment).Ok?
      ensures Valid() && position == 0 && this.file == file && Final() == memory == this.memory && pending == []
      ensures this.slotBytes == Setup(requestedSlotBytes, ringDepth, alignment).value && this.alignment == alignment
      ensures this.direct == direct && this.answers == answers && calls == 0
    {
      var slotBytes := Setup(requestedSlotBytes, ringDepth, alignment).value;
      this.file, this.alignment, this.slotBytes, this.ringDepth, this.direct := file, alignment, slotBytes,
          ringDepth, direct;
      this.answers := answers;
      position, nextSlot, calls := 0, 0, 0;
      slots := seq(ringDepth, _ => seq(slotBytes, _ => 0 as bv8));
      copyInflight := seq(ringDepth, _ => false);
      this.memory, pending := memory, [];
      new;
      RingFolds(slots, |this.memory|, pending, copyInflight, this.slotBytes);
    }

    // --- The device ---------------------------------------------------------------------------

    method RunOne(i: nat)
      requires Valid() && IsReady(pending, i)
      modifies `memory, `pending
      ensures Valid() && Final() == old(Final())
      ensures |memory| == |old(memory)| && pending == WithoutCopy(old(pending), i)
    {
      RingUnfolds();
      AnyOrderSettlesAlike(memory, slots, pending, i);
      assert pending[i] in pending;
      memory := Run(memory, slots, pending[i]);
      pending := WithoutCopy(pending, i);
      RingFolds(slots, |memory|, pending, copyInflight, slotBytes);
    }

    // Any number of ready copies run, in any order their streams allow.
    method LetDeviceRun()
      requires Valid()
      modifies `memory, `pending
      ensures Valid() && Final() == old(Final())
      ensures |memory| == |old(memory)| && forall p :: p in pending ==> p in old(pending)
    {
      while *
        invariant Valid() && Final() == old(Final())
        invariant |memory| == |old(memory)| && forall p :: p in pending ==> p in old(pending)
        decreases |pending|
      {
        if pending == [] {
          return;
        }
        assert IsReady(pending, 0);
        var i: nat :| IsReady(pending, i);
        RunOne(i);
      }
    }

    // Waiting for the event of a slot: the device runs until the copy from that slot has run.
    method Synchronize(slot: nat)
      requires Valid() && slot < ringDepth
      modifies `memory, `pending
      ensures Valid() && Final() == old(Final())
      ensures |memory| == |old(memory)| && forall p :: p in pending ==> p in old(pending)
      ensures forall p :: p in pending ==> p.slot != slot
    {
      while exists p :: p in pending && p.slot == slot
        invariant Valid() && Final() == old(Final())
        invariant |memory| == |old(memory)| && forall p :: p in pending ==> p in old(pending)
        decreases |pending|
      {
        assert IsReady(pending, 0);
        var i: nat :| IsReady(pending, i);
        RunOne(i);
      }
    }

    method WaitSlot(slot: nat)
      requires Valid() && slot < ringDepth
      modifies `memory, `pending, `copyInflight
      ensures Valid() && Final() == old(Final())
      ensures |memory| == |old(memory)| && forall p :: p in pending ==> p in old(pending)
      ensures forall p :: p in pending ==> p.slot != slot
    {
      if copyInflight[slot] {
        Synchronize(slot);
        RingUnfolds();
        copyInflight := copyInflight[slot := false];
        RingFolds(slots, |memory|, pending, copyInflight, slotBytes);
      } else {
        RingUnfolds();
      }
    }

    // Every copy still in flight is waited for, so what was promised is there.
    method Cleanup()
      requires Valid()
      modifies `memory, `pending
      ensures Valid() && pending == [] && memory == old(Final())
    {
      for i := 0 to ringDepth
        invariant Valid() && Final() == old(Final()) && forall p :: p in pending ==> p.slot >= i
      {
        if copyInflight[i] {
          Synchronize(i);
        } else {
          RingUnfolds();
        }
      }
      RingUnfolds();
      SomethingIsIn(pending);
    }

    // --- Reading the file ---------------------------------------------------------------------

    // The first `total` bytes of the slot are the bytes of the file from `offset` on.
    ghost predicate Staged(slot: nat, offset: nat, total: nat)
      reads this
    {
      && slot < |slots| && total <= |slots[slot]| && offset + total <= |file|
      && Holds(slots[slot], file, offset, total)
    }

    ghost predicate SlotIsIdle(slot: nat)
      reads this
    {
      slot < ringDepth && forall p :: p in pending ==> p.slot != slot
    }

    // Nothing has happened but that some pending copies may have run.
    twostate predicate OnlyDeviceRan()
      requires old(Valid()) && Valid()
      reads this
    {
      && Final() == old(Final()) && |memory| == |old(memory)|
      && (forall p :: p in pending ==> p in old(pending))
    }

    // The slot is refilled while no copy from it is pending.
    method Refill(slot: nat, data: seq<bv8>)
      requires Valid() && SlotIsIdle(slot) && |data| == slotBytes
      modifies `slots
      ensures Valid() && OnlyDeviceRan() && slots == old(slots)[slot := data]
    {
      RingUnfolds();
      RefillSettlesAlike(memory, slots, pending, slot, data);
      slots := slots[slot := data];
      RingFolds(slots, |memory|, pending, copyInflight, slotBytes);
    }

    // One positioned read into the slot behind the `total` bytes already there. What a failed one
    // leaves in the slot is anything.
    method Pread(range: Range, slot: nat, total: nat) returns (answer: Answer, count: nat)
      requires Valid() && SlotIsIdle(slot) && Staged(slot, range.offset, total)
      requires total < range.bytes <= slotBytes && range.size == |file|
      modifies `slots, `memory, `pending, `calls
      ensures Valid() && OnlyDeviceRan() && SlotIsIdle(slot) && calls == old(calls) + 1
      ensures answer == answers(old(calls))
      ensures answer.Count? ==>
          count == GotAt(answers, old(calls), range, total) && Staged(slot, range.offset, total + count)
    {
      LetDeviceRun();
      answer, count := answers(calls), 0;
      calls := calls + 1;
      if answer.Count? {
        count := Got(answer.n, range.bytes - total, range.size - range.offset - total);
        FillMore(range.offset, slot, total, count);
      } else {
        Spoil(slot);
      }
    }

    method Spoil(slot: nat)
      requires Valid() && SlotIsIdle(slot)
      modifies `slots
      ensures Valid() && OnlyDeviceRan()
    {
      RingUnfolds();
      assert |slots[slot]| == slotBytes;
      var data :| |data| == slotBytes;
      Refill(slot, data);
    }

    method FillMore(offset: nat, slot: nat, total: nat, count: nat)
      requires Valid() && SlotIsIdle(slot) && Staged(slot, offset, total)
      requires total + count <= slotBytes && offset + total + count <= |file|
      modifies `slots
      ensures Valid() && OnlyDeviceRan() && Staged(slot, offset, total + count)
    {
      RingUnfolds();
      HoldsUnfolds(slots[slot], file, offset, total);
      var from := offset + total;
      Refill(slot, slots[slot][..total] + file[from..from + count] + slots[slot][total + count..]);
      assert file[offset..from + count] == file[offset..from] + file[from..from + count];
      HoldsUnfolds(slots[slot], file, offset, total + count);
    }

    lemma NothingIsStaged(slot: nat, offset: nat)
      requires Valid() && slot < ringDepth && offset <= |file|
      ensures Staged(slot, offset, 0)
    {
      HoldsUnfolds(slots[slot], file, offset, 0);
    }

    method ReadBufferedAt(range: Range, slot: nat) returns (r: Result<nat>)
      requires Valid() && SlotIsIdle(slot) && range.bytes <= slotBytes && range.offset <= range.size == |file|
      modifies `slots, `memory, `pending, `calls
      ensures Valid() && OnlyDeviceRan() && SlotIsIdle(slot)
      ensures Ended(r, calls) == Buffered(answers, old(calls), range, 0)
      ensures r.Ok? ==> Staged(slot, range.offset, r.value)
    {
      ghost var end := Buffered(answers, calls, range, 0);
      NothingIsStaged(slot, range.offset);
      var total := 0;
      while total < range.bytes
        invariant Valid() && OnlyDeviceRan() && SlotIsIdle(slot)
        invariant total <= range.bytes && Staged(slot, range.offset, total)
        invariant Buffered(answers, calls, range, total) == end
      {
        var answer, count := Pread(range, slot, total);
        if !answer.Count? {
          return Error(FileError);
        }
        if count == 0 {
          break;
        }
        total := total + count;
      }
      r := Ok(total);
    }

    method ReadAt(range: Range, slot: nat) returns (r: Result<nat>)
      requires Valid() && SlotIsIdle(slot) && range.bytes <= slotBytes && range.offset <= range.size == |file|
      modifies `slots, `memory, `pending, `calls
      ensures Valid() && OnlyDeviceRan() && SlotIsIdle(slot)
      ensures StagesTo(answers, old(calls), range, direct, alignment, Ended(r, calls))
      ensures r.Ok? ==> Staged(slot, range.offset, r.value)
    {
      if direct {
        r := ReadUnbufferedAt(range, slot);
      } else {
        r := ReadBufferedAt(range, slot);
      }
    }

    method ReadUnbufferedAt(range: Range, slot: nat) returns (r: Result<nat>)
      requires Valid() && SlotIsIdle(slot) && range.bytes <= slotBytes && range.offset <= range.size == |file|
      modifies `slots, `memory, `pending, `calls
      ensures Valid() && OnlyDeviceRan() && SlotIsIdle(slot)
      ensures Ended(r, calls) == Unbuffered(answers, old(calls), range, 0, alignment)
      ensures r.Ok? ==> Staged(slot, range.offset, r.value)
    {
      ghost var end := Unbuffered(answers, calls, range, 0, alignment);
      NothingIsStaged(slot, range.offset);
      WillEndUnfolds(answers, calls, range, 0, alignment, end);
      var total := 0;
      while total < range.bytes
        invariant Valid() && OnlyDeviceRan() && SlotIsIdle(slot)
        invariant total <= range.bytes && Staged(slot, range.offset, total)
        invariant WillEnd(answers, calls, range, total, alignment, end)
      {
        NextAnswer(answers, calls, range, total, alignment, end);
        var answer, count := Pread(range, slot, total);
        if total == 0 && answer.Unsupported? {
          r := ReadBufferedAt(range, slot);
          return;
        }
        if !answer.Count? {
          return Error(FileError);
        }
        if count == 0 {
          break;
        }
        total := total + count;
        if count % alignment != 0 {
          break;
        }
      }
      WillEndUnfolds(answers, calls, range, total, alignment, end);
      r := Ok(total);
    }

    // --- Reading and seeking ------------------------------------------------------------------

    // Hands the staged bytes on: at once to host memory, as a pending copy to device memory.
    method CopyOut(
      destination: Destination, completed: nat, slot: nat, prefix: nat, payload: nat, stream: nat, ghost offset: nat)
      requires Valid() && SlotIsIdle(slot) && !destination.Null?
      requires Staged(slot, offset, prefix + payload)
      requires destination.address + completed + payload <= |memory|
      requires IsFree(pending, destination, stream, completed + payload)
      modifies `memory, `pending, `copyInflight
      ensures Valid() && |memory| == |old(memory)|
      ensures IsDelivery(file, old(Final()), Final(), destination.address + completed, offset + prefix, payload)
      ensures OnlyCopiesInto(old(pending), pending, destination, stream, completed + payload)
    {
      var copy := Copy(stream, slot, prefix, payload, destination.address + completed);
      StagedIsDelivered(copy, offset);
      CopyIsApart(pending, destination, copy, completed);
      OneCopyMore(pending, destination, copy, completed + payload);
      HandOver(destination, copy);
    }

    lemma StagedIsDelivered(copy: Copy, offset: nat)
      requires Valid() && Staged(copy.slot, offset, copy.prefix + copy.length)
      requires copy.address + copy.length <= |memory|
      ensures Fits(slots, |memory|, copy)
      ensures IsDelivery(file, Final(), Run(Final(), slots, copy), copy.address, offset + copy.prefix, copy.length)
    {
      HoldsUnfolds(slots[copy.slot], file, offset, copy.prefix + copy.length);
      RunDelivers(file, Final(), slots, copy, offset);
    }

    method HandOver(destination: Destination, copy: Copy)
      requires Valid() && SlotIsIdle(copy.slot) && Fits(slots, |memory|, copy) && !destination.Null?
      requires forall p :: p in pending && (destination.Host? || p.stream != copy.stream) ==> Apart(p, copy)
      modifies `memory, `pending, `copyInflight
      ensures Valid() && |memory| == |old(memory)| && Final() == Run(old(Final()), slots, copy)
      ensures pending == if destination.Device? then old(pending) + [copy] else old(pending)
    {
      if destination.Device? {
        Enqueue(copy);
      } else {
        CopyNow(copy);
      }
    }

    method Enqueue(copy: Copy)
      requires Valid() && SlotIsIdle(copy.slot) && Fits(slots, |memory|, copy)
      requires forall p :: p in pending && p.stream != copy.stream ==> Apart(p, copy)
      modifies `pending, `copyInflight
      ensures Valid() && Final() == Run(old(Final()), slots, copy)
      ensures pending == old(pending) + [copy]
    {
      RingUnfolds();
      EnqueueSettles(memory, slots, pending, copy);
      pending := pending + [copy];
      copyInflight := copyInflight[copy.slot := true];
      RingFolds(slots, |memory|, pending, copyInflight, slotBytes);
    }

    method CopyNow(copy: Copy)
      requires Valid() && Fits(slots, |memory|, copy) && forall p :: p in pending ==> Apart(p, copy)
      modifies `memory
      ensures Valid() && |memory| == |old(memory)| && Final() == Run(old(Final()), slots, copy)
    {
      RingUnfolds();
      EarlyCopySettles(memory, slots, pending, copy);
      memory := Run(memory, slots, copy);
      RingFolds(slots, |memory|, pending, copyInflight, slotBytes);
    }

    // The bytes that a request can be given from here.
    function Available(requested: int): (n: nat)
      requires Valid()
      reads this
      ensures position + n <= |file|
    {
      if requested <= 0 then 0 else Min(requested, |file| - position)
    }

    // The slots are taken in turn, each once its last copy has run.
    method NextSlot() returns (slot: nat)
      requires Valid()
      modifies `nextSlot, `memory, `pending, `copyInflight
      ensures Valid() && OnlyDeviceRan() && SlotIsIdle(slot)
      ensures slots == old(slots) && position == old(position)
      ensures slot == old(nextSlot) && nextSlot == (slot + 1) % ringDepth
    {
      slot := nextSlot;
      nextSlot := (nextSlot + 1) % ringDepth;
      WaitSlot(slot);
    }

    // The reading of so many bytes from here.
    function TaskOf(wanted: nat): (t: Task)
      reads this
    {
      Task(direct, alignment, slotBytes, |file|, position, wanted)
    }

    // Brings the payload of one round into the next slot of the ring, behind its prefix.
    method StagePayload(round: Round) returns (r: Result<nat>, slot: nat, ghost e: Ended)
      requires Valid() && round.range.size == |file| && round.range.bytes <= slotBytes
      requires round.prefix + round.payload <= round.range.bytes && round.range.offset <= |file|
      modifies this
      ensures Valid() && OnlyDeviceRan() && SlotIsIdle(slot) && position == old(position)
      ensures r.Ok? ==> Staged(slot, round.range.offset, round.prefix + round.payload)
      ensures StagesTo(answers, old(calls), round.range, direct, alignment, e) && calls == e.next
      ensures e.value.Error? ==> r == e.value
      ensures e.value.Ok? ==> if e.value.value < round.prefix + round.payload then r == Error(ShortRead) else r.Ok?
    {
      slot := NextSlot();
      r := ReadAt(round.range, slot);
      e := Ended(r, calls);
      if r.Ok? {
        if r.value < round.prefix + round.payload {
          return Error(ShortRead), slot, e;
        }
        StagedPrefix(slots[slot], file, round.range.offset, r.value, round.prefix + round.payload);
      }
    }

    // One round: its payload is staged and handed on.
    method ReadPayload(destination: Destination, completed: nat, round: Round, stream: nat)
      returns (r: Result<nat>, ghost e: Ended)
      requires Valid() && !destination.Null? && round.range.size == |file| && round.range.bytes <= slotBytes
      requires round.prefix + round.payload <= round.range.bytes
      requires round.range.offset + round.prefix == position + completed
      requires position + completed + round.payload <= |file|
      requires destination.address + completed + round.payload <= |memory|
      requires IsFree(pending, destination, stream, completed + round.payload)
      modifies this
      ensures Valid() && position == old(position) && |memory| == |old(memory)|
      ensures r.Ok? ==>
          IsDelivery(file, old(Final()), Final(), destination.address + completed, position + completed, round.payload)
      ensures r.Error? ==> Final() == old(Final())
      ensures OnlyCopiesInto(old(pending), pending, destination, stream, completed + round.payload)
      ensures StagesTo(answers, old(calls), round.range, direct, alignment, e) && calls == e.next
      ensures e.value.Error? ==> r == e.value
      ensures e.value.Ok? ==> if e.value.value < round.prefix + round.payload then r == Error(ShortRead) else r.Ok?
    {
      var slot;
      r, slot, e := StagePayload(round);
      if r.Ok? {
        LetDeviceRun();
        CopyOut(destination, completed, slot, round.prefix, round.payload, stream, round.range.offset);
      }
    }

    // The loop of one request: payload after payload until everything wanted is handed on.
    method ReadWanted(destination: Destination, wanted: nat, stream: nat) returns (r: Result<nat>, ghost moved: nat)
      requires Valid() && !destination.Null? && position + wanted <= |file|
      requires destination.address + wanted <= |memory| && IsFree(pending, destination, stream, wanted)
      modifies this
      ensures Valid() && |memory| == |old(memory)| && position == old(position)
      ensures IsDelivery(file, old(Final()), Final(), destination.address, position, moved)
      ensures r.Ok? ==> r.value == moved == wanted
      ensures r.Error? ==> moved <= wanted
      ensures Ended(r, calls) == Reading(answers, old(calls), TaskOf(wanted), 0)
      ensures OnlyCopiesInto(old(pending), pending, destination, stream, wanted)
    {
      ghost var start, from := Final(), calls;
      var task, completed := TaskOf(wanted), 0;
      moved := 0;
      Begins(answers, calls, task);
      NothingDelivered(file, start, start, destination.address, position);
      while completed < wanted
        invariant Valid() && position == old(position) && |memory| == |old(memory)|
        invariant completed == moved <= wanted && IsFree(pending, destination, stream, wanted)
        invariant IsDelivery(file, start, Final(), destination.address, position, moved)
        invariant OnlyCopiesInto(old(pending), pending, destination, stream, wanted)
        invariant Continues(answers, from, task, calls, completed)
      {
        ghost var before, inFlight := Final(), pending;
        var payload;
        r, payload := ReadNext(destination, task, completed, stream, from);
        if r.Error? {
          return;
        }
        DeliverMore(file, start, before, Final(), destination.address, position, completed, payload);
        MoreCopies(old(pending), inFlight, pending, destination, stream, completed + payload, wanted);
        completed := completed + payload;
        moved := completed;
      }
      Finishes(answers, from, task, calls);
      r := Ok(completed);
    }

    // The next round of a request that began with the answer `from`.
    method ReadNext(destination: Destination, task: Task, completed: nat, stream: nat, ghost from: nat)
      returns (r: Result<nat>, payload: nat)
      requires Valid() && !destination.Null? && task == TaskOf(task.wanted) && completed < task.wanted
      requires Continues(answers, from, task, calls, completed)
      requires destination.address + task.wanted <= |memory| && IsFree(pending, destination, stream, task.wanted)
      modifies this
      ensures Valid() && position == old(position) && |memory| == |old(memory)|
      ensures r.Ok? ==> completed + payload <= task.wanted && payload > 0
      ensures r.Ok? ==>
          IsDelivery(file, old(Final()), Final(), destination.address + completed, position + completed, payload)
      ensures r.Ok? ==> OnlyCopiesInto(old(pending), pending, destination, stream, completed + payload)
      ensures r.Ok? ==> Continues(answers, from, task, calls, completed + payload)
      ensures r.Error? ==> Final() == old(Final()) && Ended(r, calls) == Reading(answers, from, task, 0)
      ensures r.Error? ==> OnlyCopiesInto(old(pending), pending, destination, stream, task.wanted)
    {
      var round := NextRound(task, completed);
      ghost var e, k := Ended(Ok(0), 0), calls;
      payload := round.payload;
      r, e := ReadPayload(destination, completed, round, stream);
      RoundGoesOn(answers, from, task, k, completed, round, e);
    }

    // However the copies are timed, once they have run the destination holds the next bytes of
    // the file and nothing else has changed.
    method Read(destination: Destination, requested: int, stream: nat)
      returns (r: Result<nat>, ghost moved: nat)
      requires Valid()
      requires !destination.Null? ==> destination.address + Available(requested) <= |memory|
      requires !destination.Null? ==> IsFree(pending, destination, stream, Available(requested))
      modifies this
      ensures Valid() && |memory| == |old(memory)|
      ensures r.Ok? ==> r.value == moved == old(Available(requested)) && position == old(position) + moved
      ensures r.Ok? && requested > 0 ==>
          r.value == if requested < |file| - old(position) then requested else |file| - old(position)
      ensures r.Error? ==> moved <= old(Available(requested)) && position == old(position)
      ensures moved == 0 ==> Final() == old(Final())
      ensures moved > 0 ==> !destination.Null?
      ensures moved > 0 ==> IsDelivery(file, old(Final()), Final(), destination.address, old(position), moved)
      ensures (r.Error? && r.error == InvalidArgument) <==> requested < 0 || (requested > 0 && destination.Null?)
      ensures r != Error(InvalidArgument) ==>
          Ended(r, calls) == Reading(answers, old(calls), old(TaskOf(Available(requested))), 0)
      ensures r == Error(ShortRead)
         <==> requested > 0 && !destination.Null? &&
              HasCutRound(answers, old(calls), old(TaskOf(Available(requested))), 0)
      ensures r == Error(FileError)
         <==> requested > 0 && !destination.Null? &&
              HasBrokenRound(answers, old(calls), old(TaskOf(Available(requested))), 0)
      ensures OnlyCopiesInto(old(pending), pending, destination, stream, old(Available(requested)))
    {
      moved := 0;
      ghost var task := TaskOf(Available(requested));
      if requested < 0 || (requested != 0 && destination.Null?) {
        return Error(InvalidArgument), moved;
      }
      if requested == 0 || position >= |file| {
        NothingLeft(answers, calls, task);
        return Ok(0), moved;
      }
      var wanted := Min(requested, |file| - position);
      ShortReadsAreCut(answers, calls, task, 0);
      FileErrorsAreMet(answers, calls, task, 0);
      ghost var before := Final();
      r, moved := ReadWanted(destination, wanted, stream);
      NothingDelivered(file, before, Final(), destination.address, position);
      if r.Ok? {
        position := position + r.value;
      }
    }

    // The first piece; the memory of those behind it stays as free as it was.
    method ReadPiece(address: nat, pieces: seq<Piece>) returns (r: Result<nat>, ghost moved: nat)
      requires Valid() && pieces != [] && address + Remaining(pieces) <= |memory|
      requires AllFree(pending, pieces, address, Remaining(pieces))
      modifies this
      ensures Valid() && |memory| == |old(memory)|
      ensures moved <= old(Remaining(pieces)) && IsDelivery(file, old(Final()), Final(), address, old(position), moved)
      ensures r.Ok? ==> r.value == moved && position == old(position) + moved
      ensures r.Ok? ==> old(Remaining(pieces)) == moved + Remaining(pieces[1..])
      ensures r.Ok? ==> AllFree(pending, pieces[1..], address + moved, Remaining(pieces[1..]))
      ensures r == Error(InvalidArgument) ==> pieces[0].bytes < 0
    {
      LetDeviceRun();
      var first := pieces[0];
      ghost var before, length := pending, Remaining(pieces);
      FirstIsFree(old(pending), pending, pieces, address, length, Available(first.bytes));
      r, moved := Read(At(first, address), first.bytes, first.stream);
      if r.Ok? {
        RestIsFree(before, pending, pieces, address, length, moved, Remaining(pieces[1..]));
      }
    }

    // Any number of reads, each into the memory behind the one before it and on whatever streams,
    // with the device running in between: together they are one read of the file.
    method ReadInPieces(address: nat, pieces: seq<Piece>) returns (r: Result<nat>, ghost moved: nat)
      requires Valid() && address + Remaining(pieces) <= |memory|
      requires AllFree(pending, pieces, address, Remaining(pieces))
      modifies this
      ensures Valid() && |memory| == |old(memory)|
      ensures IsDelivery(file, old(Final()), Final(), address, old(position), moved)
      ensures r.Ok? ==> r.value == moved == old(Remaining(pieces)) && position == old(position) + moved
      ensures r.Error? ==> moved <= old(Remaining(pieces))
      ensures (forall piece :: piece in pieces ==> piece.bytes >= 0) && r.Error? ==> r.error != InvalidArgument
      decreases |pieces|
    {
      moved := 0;
      if pieces == [] {
        return Ok(0), moved;
      }
      ghost var start, from := Final(), position;
      r, moved := ReadPiece(address, pieces);
      if r.Ok? {
        ghost var middle, done := Final(), moved;
        var count := r.value;
        r, moved := ReadInPieces(address + count, pieces[1..]);
        DeliverMore(file, start, middle, Final(), address, from, done, moved);
        moved := done + moved;
        if r.Ok? {
          r := Ok(count + r.value);
        }
      }
    }

    // Reading the whole plan in pieces and letting go of the reader leaves the plan in memory.
    method ReadPlan(address: nat, pieces: seq<Piece>) returns (r: Result<nat>)
      requires Valid() && position == 0 && |file| <= TotalBytes(pieces) && address + |file| <= |memory|
      requires AllFree(pending, pieces, address, |file|)
      modifies this
      ensures Valid() && pending == []
      ensures r.Ok? ==> |memory| == |old(memory)| && memory[address..address + |file|] == file
      ensures r.Ok? ==> memory[..address] == old(Final())[..address]
      ensures r.Ok? ==> memory[address + |file|..] == old(Final())[address + |file|..]
    {
      ghost var before := Final();
      ghost var moved;
      r, moved := ReadInPieces(address, pieces);
      DeliveredBytes(file, before, Final(), address, 0, moved);
      Cleanup();
    }

    // The bytes that all the pieces together can be given from here.
    function Remaining(pieces: seq<Piece>): (n: nat)
      requires Valid()
      reads this
      ensures position + n <= |file|
    {
      Min(TotalBytes(pieces), |file| - position)
    }

    method Seek(offset: int, from: SeekPosition) returns (ok: bool)
      requires Valid() && -0x8000_0000_0000_0000 <= offset <= 0x7fff_ffff_ffff_ffff
      modifies `position
      ensures Valid() && Final() == old(Final())
      ensures ok <==>
          (from.FromStart? && 0 <= offset <= |file|) ||
          (from.FromCurrent? && 0 <= old(position) + offset <= |file|) ||
          (from.FromEnd? && 0 <= |file| + offset <= |file|)
      ensures ok && from.FromStart? ==> position == offset
      ensures ok && from.FromCurrent? ==> position == old(position) + offset
      ensures ok && from.FromEnd? ==> position == |file| + offset
      ensures !ok ==> position == old(position)
    {
      var base := 0;
      match from {
        case FromStart =>
        case FromCurrent => base := position;
        case FromEnd => base := |file|;
        case Unknown => return false;
      }
      var newPosition := 0;
      if offset < 0 {
        var magnitude := -(offset + 1) + 1;
        if magnitude > base {
          return false;
        }
        newPosition := base - magnitude;
      } else {
        if offset > |file| - Min(base, |file|) {
          return false;
        }
        newPosition := base + offset;
      }
      if newPosition > |file| {
        return false;
      }
      position := newPosition;
      ok := true;
    }
  }
  lemma MultiplesAreAligned(q: nat, alignment: nat)
    requires alignment > 0 && q * alignment <= MAX_UNSIGNED
    ensures AlignDown(q * alignment, alignment) == q * alignment
    ensures AlignUp(q * alignment, alignment) == Ok(q * alignment)
  {
    MultipleHasNoRemainder(q, alignment);
  }

  lemma FirstUnit(t: Task, unit: nat)
    requires unit > 1 && t == Task(true, unit, unit + unit, t.size, 0, unit) && IsTask(t)
    ensures RoundAt(t, 0) == Round(0, unit, Range(0, unit, t.size))
  {
    MultiplesAreAligned(0, unit);
    MultiplesAreAligned(1, unit);
  }

  lemma OneByte(answers: Answers, size: nat, unit: nat)
    requires 1 < unit < size && answers(0) == Count(1)
    ensures IsBadCut(answers, 0, 0, Range(0, unit, size), 0, unit, unit)
  {
    QuotientIs(1, unit, 0, 1);
  }

  // One byte comes where a whole unit was needed.
  lemma OneByteIsCut(answers: Answers, t: Task, unit: nat)
    requires unit > 1 && t == Task(true, unit, unit + unit, t.size, 0, unit) && IsTask(t) && unit < t.size
    requires answers(0) == Count(1)
    ensures HasCutRound(answers, 0, t, 0)
  {
    FirstUnit(t, unit);
    OneByte(answers, t.size, unit);
    FirstRoundIsCut(answers, 0, t, Round(0, unit, Range(0, unit, t.size)), 0);
  }

  // A file of four bytes, read in units of two. The system hands over one byte when asked for two;
  // the request for the first two bytes then fails as a short read, though both are there.
  method UnalignedCountFails() returns (r: Result<nat>)
    ensures r == Error(ShortRead)
  {
    var unit := 2;
    MultiplesAreAligned(2, unit);
    var reader := new DirectCudaStreamReader([1, 2, 3, 4], unit + unit, 1, unit, true, k => Count(1), [0, 0]);
    OneByteIsCut(reader.answers, reader.TaskOf(unit), unit);
    ghost var moved;
    r, moved := reader.Read(Host(0), unit, 0);
  }
}
