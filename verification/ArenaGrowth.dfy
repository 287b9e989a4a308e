/** How much memory the arena asks the device for: the growth policy and the attempts it makes. */
module ArenaGrowth {
  import opened Options
  import opened ArenaTypes

  datatype ExtendStrategy = NextPowerOfTwo | SameAsRequested

  /** The configured sizes that end up as region sizes are positive multiples of 256, as AllocationRegion demands. */
  datatype Config = Config(maxMem: nat, strategy: ExtendStrategy, initialChunkSizeBytes: nat,
                           maxDeadBytesPerChunk: nat, initialGrowthChunkSizeBytes: nat,
                           maxPowerOfTwoExtendBytes: nat)
  {
    predicate Valid() {
      && 0 < maxMem < SIZE_LIMIT && 0 < initialChunkSizeBytes && 0 < maxDeadBytesPerChunk
      && 0 < initialGrowthChunkSizeBytes && initialGrowthChunkSizeBytes % 256 == 0
      && 0 < maxPowerOfTwoExtendBytes && maxPowerOfTwoExtendBytes % 256 == 0
    }
  }

  /** size_t arithmetic wraps at 2^64. */
  const SIZE_LIMIT: nat := 0x1_0000_0000_0000_0000

  /** config_.max_mem - stats_.total_allocated_bytes in size_t, rounded down to a multiple of 256. Reserved memory
      counts as allocated without being checked against the limit, so the subtraction can wrap. */
  function AvailableBytes(maxMem: nat, totalAllocated: int): (r: nat)
    ensures r % 256 == 0
    ensures 0 <= totalAllocated <= maxMem ==> totalAllocated + r <= maxMem
  {
    var d := if totalAllocated <= maxMem then maxMem - totalAllocated
             else (maxMem - totalAllocated) % 0x1_0000_0000_0000_0000;
    d / 256 * 256
  }

  /** `curr` doubled until it is at least `bytes`. */
  function Doubled(curr: nat, bytes: nat): (r: nat)
    requires 0 < curr
    ensures bytes <= r && curr <= r
    decreases bytes - curr
  {
    if bytes <= curr then curr else Doubled(2 * curr, bytes)
  }

  lemma {:induction false} DoubledIsLeast(curr: nat, bytes: nat)
    requires 0 < curr
    ensures curr < bytes ==> Doubled(curr, bytes) < 2 * bytes
    ensures bytes <= curr ==> Doubled(curr, bytes) == curr
    ensures curr % 256 == 0 ==> Doubled(curr, bytes) % 256 == 0
    decreases bytes - curr
  {
    if curr < bytes {
      DoubledIsLeast(2 * curr, bytes);
    }
  }

  /** The size of the next region, and the region size to start from the time after. */
  function ExtendBytes(c: Config, curr: nat, available: nat, bytes: nat): (r: (nat, nat))
    requires c.Valid() && 0 < curr
    ensures bytes <= available ==> bytes <= r.0
    ensures c.strategy.NextPowerOfTwo? ==> r.0 <= available
    ensures 0 < r.1
  {
    match c.strategy
    case SameAsRequested => (bytes, curr)
    case NextPowerOfTwo =>
      var grown := Doubled(curr, bytes);
      var extend := if grown < available then grown else available;
      if curr < bytes then (extend, grown)
      else if grown * 2 < c.maxPowerOfTwoExtendBytes then (extend, grown * 2)
      else (extend, c.maxPowerOfTwoExtendBytes)
  }

  lemma ExtendBytesOnGrid(c: Config, curr: nat, available: nat, bytes: nat)
    requires c.Valid() && 0 < curr && curr % 256 == 0 && available % 256 == 0 && bytes % 256 == 0
    ensures ExtendBytes(c, curr, available, bytes).0 % 256 == 0
    ensures ExtendBytes(c, curr, available, bytes).1 % 256 == 0
  {
    DoubledIsLeast(curr, bytes);
    var grown := Doubled(curr, bytes);
    TwiceOnGrid(grown);
  }

  lemma TwiceOnGrid(n: nat)
    requires n % 256 == 0
    ensures (n * 2) % 256 == 0
  {
  }

  /** Multiplying by 0.9 in single precision: any function that takes off at least a thirty-second. */
  ghost predicate BacksOff(backoff: nat -> nat) {
    forall n: nat :: 32 * backoff(n) <= 31 * n
  }

  /** The attempts made after the device has refused `bytes`: a tenth less each time, until one is granted or the
      next would be too small. */
  function Retry(bytes: nat, rounded: nat, device: nat -> Option<nat>, backoff: nat -> nat): (r: Option<(nat, nat)>)
    requires BacksOff(backoff)
    decreases bytes
  {
    var n := RoundedBytes(backoff(bytes));
    if n < rounded || n < 8192 then None
    else
      match device(n)
      case Some(p) => Some((n, p))
      case None =>
        BackoffShrinks(bytes, backoff);
        Retry(n, rounded, device, backoff)
  }

  /** Above the cut-off of 8K each attempt is strictly smaller than the one before. */
  lemma BackoffShrinks(bytes: nat, backoff: nat -> nat)
    requires BacksOff(backoff)
    requires 8192 <= RoundedBytes(backoff(bytes))
    ensures RoundedBytes(backoff(bytes)) < bytes
  {
    assert 32 * backoff(bytes) <= 31 * bytes;
  }

  /** A retry that succeeds still covers the request and is smaller than what the device refused. */
  lemma {:induction false} RetryCoversRequest(bytes: nat, rounded: nat, device: nat -> Option<nat>,
                                             backoff: nat -> nat)
    requires BacksOff(backoff)
    ensures var r := Retry(bytes, rounded, device, backoff);
      r.Some? ==> rounded <= r.value.0 < bytes && 8192 <= r.value.0 && r.value.0 % 256 == 0 &&
                  device(r.value.0) == Some(r.value.1)
    decreases bytes
  {
    var n := RoundedBytes(backoff(bytes));
    if !(n < rounded || n < 8192) {
      BackoffShrinks(bytes, backoff);
      if device(n).None? {
        RetryCoversRequest(n, rounded, device, backoff);
      }
    }
  }

  /** The region the device grants for a request, if any: its size and address. */
  function Granted(bytes: nat, rounded: nat, device: nat -> Option<nat>, backoff: nat -> nat): Option<(nat, nat)>
    requires BacksOff(backoff)
  {
    match device(bytes)
    case Some(p) => Some((bytes, p))
    case None => Retry(bytes, rounded, device, backoff)
  }

  /** What Extend obtains: nothing when the request exceeds what the limit leaves, or when the device refuses. */
  function ExtendsTo(c: Config, totalAllocated: int, curr: nat, rounded: nat, device: nat -> Option<nat>,
                     backoff: nat -> nat): Option<(nat, nat)>
    requires c.Valid() && 0 < curr && BacksOff(backoff)
  {
    var available := AvailableBytes(c.maxMem, totalAllocated);
    if available < rounded then None
    else Granted(ExtendBytes(c, curr, available, rounded).0, rounded, device, backoff)
  }

  /** Without reserved memory, an extension never takes the total past the limit; it always covers the request. */
  lemma ExtensionIsWithinLimit(c: Config, totalAllocated: int, curr: nat, rounded: nat, device: nat -> Option<nat>,
                               backoff: nat -> nat)
    requires c.Valid() && 0 < curr && curr % 256 == 0 && BacksOff(backoff) && 0 < rounded && rounded % 256 == 0
    ensures var r := ExtendsTo(c, totalAllocated, curr, rounded, device, backoff);
      r.Some? ==>
        && rounded <= r.value.0 && r.value.0 % 256 == 0
        && device(r.value.0) == Some(r.value.1)
        && (0 <= totalAllocated <= c.maxMem ==> totalAllocated + r.value.0 <= c.maxMem)
  {
    var available := AvailableBytes(c.maxMem, totalAllocated);
    if rounded <= available {
      var bytes := ExtendBytes(c, curr, available, rounded).0;
      ExtendBytesOnGrid(c, curr, available, rounded);
      RetryCoversRequest(bytes, rounded, device, backoff);
    }
  }

  // ---- The sizes asked for, without the code's own steps --------------------------------------------------------

  function Power(n: nat): (p: nat)
    ensures p > 0
  {
    if n == 0 then 1 else 2 * Power(n - 1)
  }

  lemma {:induction false} DoubledIsPower(curr: nat, bytes: nat) returns (k: nat)
    requires 0 < curr
    ensures Doubled(curr, bytes) == curr * Power(k)
    decreases bytes - curr
  {
    k := 0;
    if curr < bytes {
      var j := DoubledIsPower(2 * curr, bytes);
      k := j + 1;
      assert 2 * curr * Power(j) == curr * (2 * Power(j));
    }
  }

  /** What the limit leaves is the largest multiple of 256, and past the limit the difference wraps. */
  ghost predicate IsAvailable(maxMem: nat, totalAllocated: int, available: nat) {
    var rest := maxMem - totalAllocated + if totalAllocated <= maxMem then 0 else SIZE_LIMIT;
    available % 256 == 0 && (0 < rest ==> available <= rest < available + 256)
  }

  ghost predicate IsLesser(m: nat, a: nat, b: nat) {
    m <= a && m <= b && (m == a || m == b)
  }

  /** `first` is asked for first, and the growth size is `next` from then on: the request itself and no change under
      SameAsRequested. Under NextPowerOfTwo the growth size is doubled up to the request, or if it covers the request,
      used as it is and doubled for the next time, up to the configured size. */
  ghost predicate GrowsTo(c: Config, curr: nat, available: nat, rounded: nat, first: nat, next: nat) {
    match c.strategy
    case SameAsRequested => first == rounded && next == curr
    case NextPowerOfTwo =>
      if rounded <= curr then
        IsLesser(first, curr, available)
        && next == if 2 * curr < c.maxPowerOfTwoExtendBytes then 2 * curr else c.maxPowerOfTwoExtendBytes
      else
        IsLesser(first, next, available) && rounded <= next < 2 * rounded && exists k :: next == curr * Power(k)
  }

  lemma GrowthIsAsStated(c: Config, curr: nat, available: nat, rounded: nat)
    requires c.Valid() && 0 < curr
    ensures var (first, next) := ExtendBytes(c, curr, available, rounded);
      GrowsTo(c, curr, available, rounded, first, next)
  {
    DoubledIsLeast(curr, rounded);
    var k := DoubledIsPower(curr, rounded);
    assert Doubled(curr, rounded) == curr * Power(k);
  }

  /** The k-th size asked of the device. */
  function Attempt(first: nat, k: nat, backoff: nat -> nat): nat {
    if k == 0 then first else RoundedBytes(backoff(Attempt(first, k - 1, backoff)))
  }

  predicate IsWorthwhile(n: nat, rounded: nat) {
    rounded <= n && 8 * 1024 <= n
  }

  /** All attempts up to the k-th are worthwhile, and those before it are refused. */
  ghost predicate Reaches(first: nat, rounded: nat, device: nat -> Option<nat>, backoff: nat -> nat, k: nat) {
    && (forall j: nat {:trigger Attempt(first, j, backoff)} | 0 < j <= k :: IsWorthwhile(Attempt(first, j, backoff), rounded))
    && (forall j: nat {:trigger Attempt(first, j, backoff)} | j < k :: device(Attempt(first, j, backoff)).None?)
  }

  ghost predicate IsObtained(
    first: nat, rounded: nat, device: nat -> Option<nat>, backoff: nat -> nat, k: nat, r: (nat, nat))
  {
    && Reaches(first, rounded, device, backoff, k)
    && r.0 == Attempt(first, k, backoff) && device(r.0) == Some(r.1)
  }

  ghost predicate IsRefused(first: nat, rounded: nat, device: nat -> Option<nat>, backoff: nat -> nat, k: nat) {
    && Reaches(first, rounded, device, backoff, k) && device(Attempt(first, k, backoff)).None?
    && !IsWorthwhile(Attempt(first, k + 1, backoff), rounded)
  }

  lemma NextAttempt(bytes: nat, rounded: nat, device: nat -> Option<nat>, backoff: nat -> nat)
    requires BacksOff(backoff) && device(bytes).None?
    ensures var next := RoundedBytes(backoff(bytes));
      Granted(bytes, rounded, device, backoff)
      == if IsWorthwhile(next, rounded) then Granted(next, rounded, device, backoff) else None
  {
  }

  ghost predicate Obtains(first: nat, rounded: nat, device: nat -> Option<nat>, backoff: nat -> nat, r: (nat, nat)) {
    exists k: nat :: IsObtained(first, rounded, device, backoff, k, r)
  }

  ghost predicate Refuses(first: nat, rounded: nat, device: nat -> Option<nat>, backoff: nat -> nat) {
    exists k: nat :: IsRefused(first, rounded, device, backoff, k)
  }

  /** The first attempt the device grants is taken, unless one not worthwhile comes before it. */
  lemma {:induction false} AttemptsDecide(
    first: nat, rounded: nat, device: nat -> Option<nat>, backoff: nat -> nat, k: nat)
    requires BacksOff(backoff) && Reaches(first, rounded, device, backoff, k)
    ensures var g := Granted(Attempt(first, k, backoff), rounded, device, backoff);
      if g.Some? then Obtains(first, rounded, device, backoff, g.value) else Refuses(first, rounded, device, backoff)
    decreases Attempt(first, k, backoff)
  {
    var n, next := Attempt(first, k, backoff), Attempt(first, k + 1, backoff);
    if device(n).Some? {
      assert IsObtained(first, rounded, device, backoff, k, (n, device(n).value));
    } else {
      NextAttempt(n, rounded, device, backoff);
      if IsWorthwhile(next, rounded) {
        BackoffShrinks(n, backoff);
        AttemptsDecide(first, rounded, device, backoff, k + 1);
      } else {
        assert IsRefused(first, rounded, device, backoff, k);
      }
    }
  }

  /** What an extension obtains, and the growth size it leaves. */
  ghost predicate Extends(c: Config, totalAllocated: int, curr: nat, rounded: nat, device: nat -> Option<nat>,
                          backoff: nat -> nat, r: Option<(nat, nat)>, next: nat) {
    exists available: nat ::
      && IsAvailable(c.maxMem, totalAllocated, available)
      && (if available < rounded then r.None? && next == curr
          else AsksDevice(c, curr, available, rounded, device, backoff, r, next))
  }

  ghost predicate AsksDevice(c: Config, curr: nat, available: nat, rounded: nat, device: nat -> Option<nat>,
                             backoff: nat -> nat, r: Option<(nat, nat)>, next: nat) {
    exists first: nat ::
      && GrowsTo(c, curr, available, rounded, first, next)
      && (if r.None? then Refuses(first, rounded, device, backoff) else Obtains(first, rounded, device, backoff, r.value))
  }

  lemma WhatIsAvailable(maxMem: nat, totalAllocated: int)
    ensures IsAvailable(maxMem, totalAllocated, AvailableBytes(maxMem, totalAllocated))
  {
    var d := maxMem - totalAllocated;
    if d < 0 < d + SIZE_LIMIT {
      assert d % 0x1_0000_0000_0000_0000 == d + 0x1_0000_0000_0000_0000;
    }
  }

  lemma ExtendsAsStated(c: Config, totalAllocated: int, curr: nat, rounded: nat, device: nat -> Option<nat>,
                        backoff: nat -> nat)
    requires c.Valid() && 0 < curr && BacksOff(backoff)
    ensures var available := AvailableBytes(c.maxMem, totalAllocated);
      Extends(c, totalAllocated, curr, rounded, device, backoff,
              ExtendsTo(c, totalAllocated, curr, rounded, device, backoff),
              if available < rounded then curr else ExtendBytes(c, curr, available, rounded).1)
  {
    var available := AvailableBytes(c.maxMem, totalAllocated);
    WhatIsAvailable(c.maxMem, totalAllocated);
    if rounded <= available {
      var (first, next) := ExtendBytes(c, curr, available, rounded);
      GrowthIsAsStated(c, curr, available, rounded);
      AttemptsDecide(first, rounded, device, backoff, 0);
    }
  }

  /** Reserved memory is not checked against the limit. Once it has taken the total past the limit, the subtraction
      wraps, and all but a little of the address space counts as available. */
  lemma ReserveLiftsTheLimit(maxMem: nat, totalAllocated: nat)
    requires maxMem < totalAllocated < maxMem + 0x1_0000_0000_0000_0000
    ensures AvailableBytes(maxMem, totalAllocated) ==
            (0x1_0000_0000_0000_0000 - (totalAllocated - maxMem)) / 256 * 256
  {
    var d := maxMem - totalAllocated;
    assert d % 0x1_0000_0000_0000_0000 == d + 0x1_0000_0000_0000_0000;
  }
}
