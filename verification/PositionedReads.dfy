/**
 * What the system answers to positioned reads, and what comes of it: one staged read makes as many
 * of them as it takes, and one request as many staged reads as it takes
 * (src/direct_cuda_stream_reader.cc:251-415).
 */
module PositionedReads {
  import opened Division
  import opened Alignment
  import opened Hiding

  // The answer to one positioned read, interrupted calls having been repeated.
  datatype Answer = Count(n: nat) | Unsupported | Failed

  // The answers to all positioned reads, in their order.
  type Answers = nat -> Answer

  // How many bytes a count stands for: none exactly if none are wanted or left.
  function Got(n: nat, wanted: nat, left: nat): (count: nat)
    ensures count <= wanted && count <= left && (count == 0 <==> wanted == 0 || left == 0)
  {
    var most := Min(wanted, left);
    if most == 0 then 0 else if n == 0 then 1 else Min(n, most)
  }

  // The range of the file a staged read covers, and the whole file's size.
  datatype Range = Range(offset: nat, bytes: nat, size: nat)

  function GotAt(answers: Answers, k: nat, range: Range, total: nat): (count: nat)
    requires answers(k).Count? && range.offset <= range.size && total <= range.bytes && range.offset + total <= range.size
    ensures total + count <= range.bytes && range.offset + total + count <= range.size
    ensures count == 0 <==> total == range.bytes || range.offset + total == range.size
  {
    Got(answers(k).n, range.bytes - total, range.size - range.offset - total)
  }

  // How a read ends, and the number of the next answer.
  datatype Ended = Ended(value: Result<nat>, next: nat)

  function Buffered(answers: Answers, k: nat, range: Range, total: nat): (e: Ended)
    requires total <= range.bytes && range.offset + total <= range.size
    ensures e.value.Ok? ==> e.value.value == Min(range.bytes, range.size - range.offset)
    ensures e.value.Error? ==> e.value == Error(FileError)
    decreases range.bytes - total
  {
    if total == range.bytes then Ended(Ok(total), k)
    else if !answers(k).Count? then Ended(Error(FileError), k + 1)
    else
      var count := GotAt(answers, k, range, total);
      if count == 0 then Ended(Ok(total), k + 1) else Buffered(answers, k + 1, range, total + count)
  }

  function Unbuffered(answers: Answers, k: nat, range: Range, total: nat, alignment: nat): (e: Ended)
    requires total <= range.bytes && range.offset + total <= range.size && alignment > 0
    ensures e.value.Ok? ==> e.value.value <= Min(range.bytes, range.size - range.offset)
    ensures e.value.Error? ==> e.value == Error(FileError)
    decreases range.bytes - total
  {
    if total == range.bytes then Ended(Ok(total), k)
    else if total == 0 && answers(k).Unsupported? then Buffered(answers, k + 1, range, 0)
    else if !answers(k).Count? then Ended(Error(FileError), k + 1)
    else
      var count := GotAt(answers, k, range, total);
      if count == 0 then Ended(Ok(total), k + 1)
      else if count % alignment != 0 then Ended(Ok(total + count), k + 1)
      else Unbuffered(answers, k + 1, range, total + count, alignment)
  }

  function Staging(answers: Answers, k: nat, range: Range, direct: bool, alignment: nat): (e: Ended)
    requires range.offset <= range.size && alignment > 0
    ensures e.value.Ok? ==> e.value.value <= Min(range.bytes, range.size - range.offset)
    ensures e.value.Error? ==> e.value == Error(FileError)
  {
    if direct then Unbuffered(answers, k, range, 0, alignment) else Buffered(answers, k, range, 0)
  }

  ghost predicate StagesFacts(
    answers: Answers, k: nat, range: Range, direct: bool, alignment: nat, e: Ended, u: Unfolding)
    requires range.offset <= range.size && alignment > 0
  {
    e == Staging(answers, k, range, direct, alignment)
  }

  // A staged read that begins with the k-th answer ends like this.
  ghost predicate StagesTo(answers: Answers, k: nat, range: Range, direct: bool, alignment: nat, e: Ended) {
    && range.offset <= range.size && alignment > 0
    && forall u {:trigger StagesFacts(answers, k, range, direct, alignment, e, u)} ::
        StagesFacts(answers, k, range, direct, alignment, e, u)
  }

  lemma StagesUnfolds(answers: Answers, k: nat, range: Range, direct: bool, alignment: nat, e: Ended)
    requires StagesTo(answers, k, range, direct, alignment, e)
    ensures e == Staging(answers, k, range, direct, alignment)
  {
    assert StagesFacts(answers, k, range, direct, alignment, e, Unfolded);
  }

  ghost predicate EndsFacts(
    answers: Answers, k: nat, range: Range, total: nat, alignment: nat, e: Ended, u: Unfolding)
    requires total <= range.bytes && range.offset + total <= range.size && alignment > 0
  {
    Unbuffered(answers, k, range, total, alignment) == e
  }

  // From here an unbuffered read will end like this.
  ghost predicate WillEnd(answers: Answers, k: nat, range: Range, total: nat, alignment: nat, e: Ended) {
    && total <= range.bytes && range.offset + total <= range.size && alignment > 0
    && forall u {:trigger EndsFacts(answers, k, range, total, alignment, e, u)} ::
        EndsFacts(answers, k, range, total, alignment, e, u)
  }

  lemma WillEndUnfolds(answers: Answers, k: nat, range: Range, total: nat, alignment: nat, e: Ended)
    requires total <= range.bytes && range.offset + total <= range.size && alignment > 0
    ensures WillEnd(answers, k, range, total, alignment, e) <==> Unbuffered(answers, k, range, total, alignment) == e
  {
    if WillEnd(answers, k, range, total, alignment, e) {
      assert EndsFacts(answers, k, range, total, alignment, e, Unfolded);
    }
  }

  // What the next answer means for an unbuffered read.
  lemma NextAnswer(answers: Answers, k: nat, range: Range, total: nat, alignment: nat, e: Ended)
    requires WillEnd(answers, k, range, total, alignment, e) && total < range.bytes
    ensures total == 0 && answers(k).Unsupported? ==> e == Buffered(answers, k + 1, range, 0)
    ensures !answers(k).Count? && !(total == 0 && answers(k).Unsupported?) ==> e == Ended(Error(FileError), k + 1)
    ensures answers(k).Count? ==>
        var count := GotAt(answers, k, range, total);
        if count == 0 then e == Ended(Ok(total), k + 1)
        else if count % alignment != 0 then e == Ended(Ok(total + count), k + 1)
        else WillEnd(answers, k + 1, range, total + count, alignment, e)
  {
    WillEndUnfolds(answers, k, range, total, alignment, e);
  }

  // --- Bad cuts -------------------------------------------------------------------------------

  // The n-th answer from here cuts an unbuffered read short: the answers before it were aligned and
  // left something to read, this one is unaligned and leaves the read before the end of the file
  // and before the bytes needed.
  predicate IsBadCut(answers: Answers, k: nat, n: nat, range: Range, total: nat, alignment: nat, needed: nat)
    requires total <= range.bytes && range.offset + total <= range.size && alignment > 0
    decreases n
  {
    && answers(k).Count?
    && var count := GotAt(answers, k, range, total);
       var after := total + count;
       if n == 0 then count % alignment != 0 && range.offset + after < range.size && after < needed
       else count > 0 && count % alignment == 0 && IsBadCut(answers, k + 1, n - 1, range, after, alignment, needed)
  }

  ghost predicate HasBadCut(answers: Answers, k: nat, range: Range, total: nat, alignment: nat, needed: nat)
    requires total <= range.bytes && range.offset + total <= range.size && alignment > 0
  {
    exists n: nat :: IsBadCut(answers, k, n, range, total, alignment, needed)
  }

  // An unbuffered read ends short of what is needed exactly if one of its answers is such a cut.
  lemma {:induction false} CutsDecide(
    answers: Answers, k: nat, range: Range, total: nat, alignment: nat, needed: nat)
    requires total <= range.bytes && range.offset + total <= range.size && alignment > 0
    requires needed <= range.bytes && range.offset + needed <= range.size
    ensures var e := Unbuffered(answers, k, range, total, alignment);
      (e.value.Ok? && e.value.value < needed) <==> HasBadCut(answers, k, range, total, alignment, needed)
    decreases range.bytes - total
  {
    MultipleHasNoRemainder(0, alignment);
    if answers(k).Count? {
      var count := GotAt(answers, k, range, total);
      if count > 0 && count % alignment == 0 {
        CutsDecide(answers, k + 1, range, total + count, alignment, needed);
        LaterCut(answers, k, range, total, alignment, needed);
      } else if count % alignment != 0 && total + count < needed {
        assert IsBadCut(answers, k, 0, range, total, alignment, needed);
      }
    }
  }

  // After an aligned answer a cut can only be a later one.
  lemma LaterCut(answers: Answers, k: nat, range: Range, total: nat, alignment: nat, needed: nat)
    requires total <= range.bytes && range.offset + total <= range.size && alignment > 0 && answers(k).Count?
    requires GotAt(answers, k, range, total) > 0 && GotAt(answers, k, range, total) % alignment == 0
    ensures HasBadCut(answers, k, range, total, alignment, needed)
       <==> HasBadCut(answers, k + 1, range, total + GotAt(answers, k, range, total), alignment, needed)
  {
    var after := total + GotAt(answers, k, range, total);
    if HasBadCut(answers, k + 1, range, after, alignment, needed) {
      var n: nat :| IsBadCut(answers, k + 1, n, range, after, alignment, needed);
      assert IsBadCut(answers, k, n + 1, range, total, alignment, needed);
    }
    if HasBadCut(answers, k, range, total, alignment, needed) {
      var n: nat :| IsBadCut(answers, k, n, range, total, alignment, needed);
      assert IsBadCut(answers, k + 1, n - 1, range, after, alignment, needed);
    }
  }

  // --- One request ----------------------------------------------------------------------------

  // The reader, where it stands and how much is to be read from there.
  datatype Task = Task(direct: bool, alignment: nat, slotBytes: nat, size: nat, position: nat, wanted: nat)

  predicate IsTask(t: Task) {
    && 0 < t.alignment < t.slotBytes <= MAX_UNSIGNED && t.slotBytes % t.alignment == 0
    && t.position + t.wanted <= t.size <= 0x7fff_ffff_ffff_ffff
  }

  // The staged read that brings the next bytes, once `completed` are done.
  datatype Round = Round(prefix: nat, payload: nat, range: Range)

  function RoundAt(t: Task, completed: nat): (r: Round)
    requires IsTask(t) && completed < t.wanted
    ensures 0 < r.payload && completed + r.payload <= t.wanted
    ensures r.range.size == t.size && r.range.offset + r.prefix == t.position + completed
    ensures r.prefix + r.payload <= r.range.bytes <= t.slotBytes
  {
    StagedReadFits(t.slotBytes, t.alignment, 0, 0);
    var payload := Min(AlignDown(t.slotBytes - t.alignment, t.alignment), t.wanted - completed);
    var offset := AlignDown(t.position + completed, t.alignment);
    var prefix := t.position + completed - offset;
    StagedReadFits(t.slotBytes, t.alignment, prefix, payload);
    Round(prefix, payload, Range(offset, AlignUp(prefix + payload, t.alignment).value, t.size))
  }

  // A staged read begins at the last unit before the bytes wanted and takes no unit more than it
  // needs; it brings all that is left or as much as a slot holds behind a prefix.
  lemma RoundIsTight(t: Task, completed: nat)
    requires IsTask(t) && completed < t.wanted
    ensures var r := RoundAt(t, completed);
      && r.range.offset % t.alignment == 0 && r.prefix < t.alignment
      && r.range.bytes % t.alignment == 0 && r.range.bytes < r.prefix + r.payload + t.alignment
      && (r.payload < t.wanted - completed ==> r.payload + 2 * t.alignment > t.slotBytes)
  {
    StagedReadFits(t.slotBytes, t.alignment, 0, 0);
    var r := RoundAt(t, completed);
    StagedReadFits(t.slotBytes, t.alignment, r.prefix, r.payload);
  }

  ghost predicate RoundFacts(t: Task, completed: nat, r: Round, u: Unfolding)
    requires IsTask(t) && completed < t.wanted
  {
    r == RoundAt(t, completed)
  }

  ghost predicate IsRound(t: Task, completed: nat, r: Round) {
    && IsTask(t) && completed < t.wanted
    && forall u {:trigger RoundFacts(t, completed, r, u)} :: RoundFacts(t, completed, r, u)
  }

  method NextRound(t: Task, completed: nat) returns (r: Round)
    requires IsTask(t) && completed < t.wanted
    ensures IsRound(t, completed, r)
    ensures 0 < r.payload && completed + r.payload <= t.wanted
    ensures r.range.size == t.size && r.range.offset + r.prefix == t.position + completed
    ensures r.prefix + r.payload <= r.range.bytes <= t.slotBytes
  {
    StagedReadFits(t.slotBytes, t.alignment, 0, 0);
    var payload := Min(AlignDown(t.slotBytes - t.alignment, t.alignment), t.wanted - completed);
    var wantedOffset := t.position + completed;
    var readOffset := AlignDown(wantedOffset, t.alignment);
    var prefix := wantedOffset - readOffset;
    StagedReadFits(t.slotBytes, t.alignment, prefix, payload);
    var readLength := AlignUp(prefix + payload, t.alignment).value;
    r := Round(prefix, payload, Range(readOffset, readLength, t.size));
    assert r == RoundAt(t, completed);
  }

  function StagingAt(answers: Answers, k: nat, t: Task, completed: nat): (e: Ended)
    requires IsTask(t) && completed < t.wanted
    ensures e.value.Error? ==> e.value == Error(FileError)
  {
    Staging(answers, k, RoundAt(t, completed).range, t.direct, t.alignment)
  }

  function Reading(answers: Answers, k: nat, t: Task, completed: nat): (e: Ended)
    requires IsTask(t) && completed <= t.wanted
    ensures e.value.Ok? ==> e.value.value == t.wanted
    ensures e.value.Error? ==> e.value.error == FileError || e.value.error == ShortRead
    decreases t.wanted - completed
  {
    if completed == t.wanted then Ended(Ok(completed), k)
    else
      var r, e := RoundAt(t, completed), StagingAt(answers, k, t, completed);
      if e.value.Error? then e
      else if e.value.value < r.prefix + r.payload then Ended(Error(ShortRead), e.next)
      else Reading(answers, e.next, t, completed + r.payload)
  }

  ghost predicate ContinuesFacts(answers: Answers, from: nat, t: Task, k: nat, completed: nat, u: Unfolding)
    requires IsTask(t) && completed <= t.wanted
  {
    Reading(answers, k, t, completed) == Reading(answers, from, t, 0)
  }

  // A request that began with the answer `from` has got here.
  ghost predicate Continues(answers: Answers, from: nat, t: Task, k: nat, completed: nat) {
    && IsTask(t) && completed <= t.wanted
    && forall u {:trigger ContinuesFacts(answers, from, t, k, completed, u)} ::
        ContinuesFacts(answers, from, t, k, completed, u)
  }

  lemma Begins(answers: Answers, k: nat, t: Task)
    requires IsTask(t)
    ensures Continues(answers, k, t, k, 0)
  {
  }

  // The round's payload is there, or the request ends.
  lemma RoundGoesOn(answers: Answers, from: nat, t: Task, k: nat, completed: nat, r: Round, e: Ended)
    requires Continues(answers, from, t, k, completed) && IsRound(t, completed, r)
    requires StagesTo(answers, k, r.range, t.direct, t.alignment, e)
    ensures e.value.Error? ==> Reading(answers, from, t, 0) == e
    ensures e.value.Ok? && e.value.value < r.prefix + r.payload ==>
        Reading(answers, from, t, 0) == Ended(Error(ShortRead), e.next)
    ensures e.value.Ok? && e.value.value >= r.prefix + r.payload ==>
        Continues(answers, from, t, e.next, completed + r.payload)
  {
    assert RoundFacts(t, completed, r, Unfolded);
    assert ContinuesFacts(answers, from, t, k, completed, Unfolded);
    StagesUnfolds(answers, k, r.range, t.direct, t.alignment, e);
  }

  lemma Finishes(answers: Answers, from: nat, t: Task, k: nat)
    requires Continues(answers, from, t, k, t.wanted)
    ensures Reading(answers, from, t, 0) == Ended(Ok(t.wanted), k)
  {
    assert ContinuesFacts(answers, from, t, k, t.wanted, Unfolded);
  }

  // The i-th staged read from here, all before having brought their payload, is badly cut.
  ghost predicate IsCutRound(answers: Answers, k: nat, t: Task, completed: nat, i: nat)
    requires IsTask(t) && completed <= t.wanted
    decreases i
  {
    && completed < t.wanted
    && var r, e := RoundAt(t, completed), StagingAt(answers, k, t, completed);
       if i == 0 then t.direct && HasBadCut(answers, k, r.range, 0, t.alignment, r.prefix + r.payload)
       else
         && e.value.Ok? && e.value.value >= r.prefix + r.payload
         && IsCutRound(answers, e.next, t, completed + r.payload, i - 1)
  }

  lemma FirstRoundIsCut(answers: Answers, k: nat, t: Task, r: Round, n: nat)
    requires IsTask(t) && t.wanted > 0 && t.direct && r == RoundAt(t, 0)
    requires IsBadCut(answers, k, n, r.range, 0, t.alignment, r.prefix + r.payload)
    ensures HasCutRound(answers, k, t, 0)
  {
    assert HasBadCut(answers, k, r.range, 0, t.alignment, r.prefix + r.payload);
    assert IsCutRound(answers, k, t, 0, 0);
  }

  ghost predicate HasCutRound(answers: Answers, k: nat, t: Task, completed: nat)
    requires IsTask(t) && completed <= t.wanted
  {
    exists i: nat :: IsCutRound(answers, k, t, completed, i)
  }

  // A request fails as a short read exactly if one of its staged reads is badly cut.
  lemma {:induction false} ShortReadsAreCut(answers: Answers, k: nat, t: Task, completed: nat)
    requires IsTask(t) && completed <= t.wanted
    ensures Reading(answers, k, t, completed).value == Error(ShortRead) <==> HasCutRound(answers, k, t, completed)
    decreases t.wanted - completed
  {
    if completed < t.wanted {
      LaterCutRound(answers, k, t, completed);
      var r, e := RoundAt(t, completed), StagingAt(answers, k, t, completed);
      if e.value.Ok? && e.value.value >= r.prefix + r.payload {
        ShortReadsAreCut(answers, e.next, t, completed + r.payload);
      }
    }
  }

  lemma NothingLeft(answers: Answers, k: nat, t: Task)
    requires IsTask(t)
    ensures Reading(answers, k, t, t.wanted) == Ended(Ok(t.wanted), k)
    ensures !HasCutRound(answers, k, t, t.wanted) && !HasBrokenRound(answers, k, t, t.wanted)
  {
  }

  lemma LaterCutRound(answers: Answers, k: nat, t: Task, completed: nat)
    requires IsTask(t) && completed < t.wanted
    ensures var r, e := RoundAt(t, completed), StagingAt(answers, k, t, completed);
      HasCutRound(answers, k, t, completed) <==>
        e.value.Ok? &&
        (e.value.value >= r.prefix + r.payload ==> HasCutRound(answers, e.next, t, completed + r.payload))
  {
    var r, e := RoundAt(t, completed), StagingAt(answers, k, t, completed);
    RoundIsCut(answers, k, t, completed);
    if e.value.Ok? && e.value.value < r.prefix + r.payload {
      assert IsCutRound(answers, k, t, completed, 0);
    } else if i: nat :| IsCutRound(answers, k, t, completed, i) {
      assert IsCutRound(answers, e.next, t, completed + r.payload, i - 1);
    }
    if e.value.Ok? && e.value.value >= r.prefix + r.payload && HasCutRound(answers, e.next, t, completed + r.payload) {
      var i: nat :| IsCutRound(answers, e.next, t, completed + r.payload, i);
      assert IsCutRound(answers, k, t, completed, i + 1);
    }
  }

  lemma RoundIsCut(answers: Answers, k: nat, t: Task, completed: nat)
    requires IsTask(t) && completed < t.wanted
    ensures var r, e := RoundAt(t, completed), StagingAt(answers, k, t, completed);
      (e.value.Ok? && e.value.value < r.prefix + r.payload) <==>
      (t.direct && HasBadCut(answers, k, r.range, 0, t.alignment, r.prefix + r.payload))
  {
    var r := RoundAt(t, completed);
    if t.direct {
      CutsDecide(answers, k, r.range, 0, t.alignment, r.prefix + r.payload);
    }
  }

  // --- Failures -------------------------------------------------------------------------------

  // The n-th answer a buffered read meets from here is no count; the answers before it were, and
  // left something to read.
  predicate IsBroken(answers: Answers, k: nat, n: nat, range: Range, total: nat)
    requires total <= range.bytes && range.offset + total <= range.size
    decreases n
  {
    && total < range.bytes
    && if n == 0 then !answers(k).Count? else
         && answers(k).Count? && GotAt(answers, k, range, total) > 0
         && IsBroken(answers, k + 1, n - 1, range, total + GotAt(answers, k, range, total))
  }

  // An unbuffered read may find at once that it is not supported, and is then a buffered one.
  predicate IsBrokenDirect(answers: Answers, k: nat, n: nat, range: Range, total: nat, alignment: nat)
    requires total <= range.bytes && range.offset + total <= range.size && alignment > 0
    decreases n
  {
    && total < range.bytes
    && var instead := total == 0 && answers(k).Unsupported?;
       if n == 0 then !answers(k).Count? && !instead
       else if instead then IsBroken(answers, k + 1, n - 1, range, 0)
       else
         && answers(k).Count? && GotAt(answers, k, range, total) > 0
         && GotAt(answers, k, range, total) % alignment == 0
         && IsBrokenDirect(answers, k + 1, n - 1, range, total + GotAt(answers, k, range, total), alignment)
  }

  ghost predicate Breaks(answers: Answers, k: nat, range: Range, total: nat)
    requires total <= range.bytes && range.offset + total <= range.size
  {
    exists n: nat :: IsBroken(answers, k, n, range, total)
  }

  ghost predicate BreaksDirect(answers: Answers, k: nat, range: Range, total: nat, alignment: nat)
    requires total <= range.bytes && range.offset + total <= range.size && alignment > 0
  {
    exists n: nat :: IsBrokenDirect(answers, k, n, range, total, alignment)
  }

  lemma {:induction false} BreaksDecide(answers: Answers, k: nat, range: Range, total: nat)
    requires total <= range.bytes && range.offset + total <= range.size
    ensures Buffered(answers, k, range, total).value.Error? <==> Breaks(answers, k, range, total)
    decreases range.bytes - total
  {
    if total < range.bytes {
      if answers(k).Count? {
        var after := total + GotAt(answers, k, range, total);
        if after > total {
          BreaksDecide(answers, k + 1, range, after);
          if Breaks(answers, k + 1, range, after) {
            var n: nat :| IsBroken(answers, k + 1, n, range, after);
            assert IsBroken(answers, k, n + 1, range, total);
          }
          if n: nat :| IsBroken(answers, k, n, range, total) {
            assert IsBroken(answers, k + 1, n - 1, range, after);
          }
        }
      } else {
        assert IsBroken(answers, k, 0, range, total);
      }
    }
  }

  // An unbuffered read fails exactly if one of the answers it meets is such.
  lemma {:induction false} DirectBreaksDecide(answers: Answers, k: nat, range: Range, total: nat, alignment: nat)
    requires total <= range.bytes && range.offset + total <= range.size && alignment > 0
    ensures Unbuffered(answers, k, range, total, alignment).value.Error? <==>
            BreaksDirect(answers, k, range, total, alignment)
    decreases range.bytes - total
  {
    if total < range.bytes {
      if total == 0 && answers(k).Unsupported? {
        BreaksDecide(answers, k + 1, range, 0);
        if Breaks(answers, k + 1, range, 0) {
          var n: nat :| IsBroken(answers, k + 1, n, range, 0);
          assert IsBrokenDirect(answers, k, n + 1, range, total, alignment);
        }
        if n: nat :| IsBrokenDirect(answers, k, n, range, total, alignment) {
          assert IsBroken(answers, k + 1, n - 1, range, 0);
        }
      } else if answers(k).Count? {
        LaterBreak(answers, k, range, total, alignment);
        var after := total + GotAt(answers, k, range, total);
        if after > total && (after - total) % alignment == 0 {
          DirectBreaksDecide(answers, k + 1, range, after, alignment);
        }
      } else {
        assert IsBrokenDirect(answers, k, 0, range, total, alignment);
      }
    }
  }

  lemma LaterBreak(answers: Answers, k: nat, range: Range, total: nat, alignment: nat)
    requires total < range.bytes && range.offset + total <= range.size && alignment > 0 && answers(k).Count?
    ensures var count := GotAt(answers, k, range, total);
      BreaksDirect(answers, k, range, total, alignment) <==>
        count > 0 && count % alignment == 0 && BreaksDirect(answers, k + 1, range, total + count, alignment)
  {
    var count := GotAt(answers, k, range, total);
    if n: nat :| IsBrokenDirect(answers, k, n, range, total, alignment) {
      assert IsBrokenDirect(answers, k + 1, n - 1, range, total + count, alignment);
    }
    if count > 0 && count % alignment == 0 && BreaksDirect(answers, k + 1, range, total + count, alignment) {
      var n: nat :| IsBrokenDirect(answers, k + 1, n, range, total + count, alignment);
      assert IsBrokenDirect(answers, k, n + 1, range, total, alignment);
    }
  }

  ghost predicate BreaksStaging(answers: Answers, k: nat, range: Range, direct: bool, alignment: nat)
    requires range.offset <= range.size && alignment > 0
  {
    if direct then BreaksDirect(answers, k, range, 0, alignment) else Breaks(answers, k, range, 0)
  }

  // The i-th staged read from here, all before having brought their payload, fails.
  ghost predicate IsBrokenRound(answers: Answers, k: nat, t: Task, completed: nat, i: nat)
    requires IsTask(t) && completed <= t.wanted
    decreases i
  {
    && completed < t.wanted
    && var r, e := RoundAt(t, completed), StagingAt(answers, k, t, completed);
       if i == 0 then BreaksStaging(answers, k, r.range, t.direct, t.alignment)
       else
         && e.value.Ok? && e.value.value >= r.prefix + r.payload
         && IsBrokenRound(answers, e.next, t, completed + r.payload, i - 1)
  }

  ghost predicate HasBrokenRound(answers: Answers, k: nat, t: Task, completed: nat)
    requires IsTask(t) && completed <= t.wanted
  {
    exists i: nat :: IsBrokenRound(answers, k, t, completed, i)
  }

  lemma RoundIsBroken(answers: Answers, k: nat, t: Task, completed: nat)
    requires IsTask(t) && completed < t.wanted
    ensures StagingAt(answers, k, t, completed).value.Error? <==>
            BreaksStaging(answers, k, RoundAt(t, completed).range, t.direct, t.alignment)
  {
    if t.direct {
      DirectBreaksDecide(answers, k, RoundAt(t, completed).range, 0, t.alignment);
    } else {
      BreaksDecide(answers, k, RoundAt(t, completed).range, 0);
    }
  }

  lemma LaterBrokenRound(answers: Answers, k: nat, t: Task, completed: nat)
    requires IsTask(t) && completed < t.wanted
    ensures var r, e := RoundAt(t, completed), StagingAt(answers, k, t, completed);
      HasBrokenRound(answers, k, t, completed) <==>
        (e.value.Error? ||
         (e.value.value >= r.prefix + r.payload && HasBrokenRound(answers, e.next, t, completed + r.payload)))
  {
    var r, e := RoundAt(t, completed), StagingAt(answers, k, t, completed);
    RoundIsBroken(answers, k, t, completed);
    if e.value.Error? {
      assert IsBrokenRound(answers, k, t, completed, 0);
    } else if i: nat :| IsBrokenRound(answers, k, t, completed, i) {
      assert IsBrokenRound(answers, e.next, t, completed + r.payload, i - 1);
    }
    if e.value.Ok? && e.value.value >= r.prefix + r.payload && HasBrokenRound(answers, e.next, t, completed + r.payload) {
      var i: nat :| IsBrokenRound(answers, e.next, t, completed + r.payload, i);
      assert IsBrokenRound(answers, k, t, completed, i + 1);
    }
  }

  // A request fails for the file exactly if one of its staged reads meets a failure.
  lemma {:induction false} FileErrorsAreMet(answers: Answers, k: nat, t: Task, completed: nat)
    requires IsTask(t) && completed <= t.wanted
    ensures Reading(answers, k, t, completed).value == Error(FileError) <==> HasBrokenRound(answers, k, t, completed)
    decreases t.wanted - completed
  {
    if completed < t.wanted {
      LaterBrokenRound(answers, k, t, completed);
      var r, e := RoundAt(t, completed), StagingAt(answers, k, t, completed);
      if e.value.Ok? && e.value.value >= r.prefix + r.payload {
        FileErrorsAreMet(answers, e.next, t, completed + r.payload);
      }
    }
  }
}
