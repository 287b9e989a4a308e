/**
 * Rounding to the unit of unbuffered reads (src/direct_cuda_stream_reader.cc:36-52, 378-386).
 */
module Alignment {
  import opened Division

  const MAX_UNSIGNED := 0x1_0000_0000_0000_0000 - 1

  datatype Result<T> = Ok(value: T) | Error(error: ReadError)
  datatype ReadError = AlignmentOverflow | InvalidArgument | ShortRead | FileError

  function Min(a: nat, b: nat): (m: nat)
    ensures m <= a && m <= b && (m == a || m == b)
  {
    if a < b then a else b
  }

  function AlignDown(value: nat, alignment: nat): (r: nat)
    requires alignment > 0
    ensures r <= value < r + alignment && r % alignment == 0
  {
    MultipleHasNoRemainder(value / alignment, alignment);
    value / alignment * alignment
  }

  function AlignUp(value: nat, alignment: nat): (r: Result<nat>)
    requires alignment > 0 && value <= MAX_UNSIGNED
    ensures r.Ok? ==> value <= r.value < value + alignment && r.value % alignment == 0 && r.value <= MAX_UNSIGNED
  {
    var remainder := value % alignment;
    NextMultiple(value, alignment);
    if remainder == 0 then Ok(value)
    else
      var increment := alignment - remainder;
      if value > MAX_UNSIGNED - increment then Error(AlignmentOverflow) else Ok(value + increment)
  }

  // Rounding up finds the least multiple, or none fits 64 bits.
  lemma AlignUpIsLeast(value: nat, alignment: nat, m: nat)
    requires alignment > 0 && value <= MAX_UNSIGNED && value <= m && m % alignment == 0
    ensures AlignUp(value, alignment).Ok? ==> AlignUp(value, alignment).value <= m
    ensures AlignUp(value, alignment).Error? ==> MAX_UNSIGNED < m
  {
    NextMultiple(value, alignment);
  }

  // No multiple lies between a value and the one found by rounding it up.
  lemma NextMultiple(value: nat, alignment: nat)
    requires alignment > 0
    ensures value % alignment != 0 ==> (value + (alignment - value % alignment)) % alignment == 0
    ensures value % alignment != 0 ==>
        forall m {:trigger m % alignment} :: value <= m < value + (alignment - value % alignment) ==> m % alignment != 0
  {
    var q, r := value / alignment, value % alignment;
    if r != 0 {
      assert value + (alignment - r) == (q + 1) * alignment;
      MultipleHasNoRemainder(q + 1, alignment);
      forall m: nat {:trigger m % alignment} | value <= m < value + (alignment - r) ensures m % alignment != 0 {
        QuotientIs(m, alignment, q, m - q * alignment);
      }
    }
  }

  // Whatever its offset, a payload of at most the slot less one unit is read with one unit's
  // worth of prefix and rounding and still fits the slot.
  lemma StagedReadFits(slotBytes: nat, alignment: nat, prefix: nat, payload: nat)
    requires 0 < alignment < slotBytes <= MAX_UNSIGNED && slotBytes % alignment == 0
    requires prefix < alignment && payload <= AlignDown(slotBytes - alignment, alignment)
    ensures alignment <= AlignDown(slotBytes - alignment, alignment)
    ensures AlignUp(prefix + payload, alignment).Ok? && AlignUp(prefix + payload, alignment).value <= slotBytes
  {
    var room := slotBytes - alignment;
    MultipleHasNoRemainder(1, alignment);
    DifferenceOfMultiples(slotBytes, alignment, alignment);
    NextMultiple(prefix + payload, alignment);
    if room < alignment {
      QuotientIs(room, alignment, 0, room);
    } else {
      var q := room / alignment;
      assert q >= 1;
      assert q * alignment >= alignment;
    }
  }
}
