/** The vocabulary of the best-fit-with-coalescing arena: handles, chunks, bins and blocks of device memory. */
module ArenaTypes {
  import opened Options

  /** An index into the chunk table, or INVALID. */
  type Handle = int

  /** A stream of work on the device. 0 is the null stream. */
  type Stream = nat

  const INVALID: Handle := -1
  const NULL_STREAM: Stream := 0

  /** One record of the chunk table. */
  datatype Chunk = Chunk(size: nat, requestedSize: nat, allocationId: int, ptr: nat, prev: Handle, next: Handle,
                         binNum: int, stream: Stream, streamSyncId: nat) {
    predicate InUse() {
      allocationId != -1
    }

    function End(): nat {
      ptr + size
    }
  }

  const DEFAULT_CHUNK := Chunk(0, 0, -1, 0, INVALID, INVALID, INVALID, NULL_STREAM, 0)

  /** A block of device memory that an allocation region manages, with the id of that region. */
  datatype Block = Block(size: nat, id: int)

  ghost predicate Disjoint(p: nat, n: nat, q: nat, m: nat) {
    p + n <= q || q + m <= p
  }

  ghost predicate BlockOk(blocks: map<nat, Block>, b: nat) {
    b in blocks && 0 < blocks[b].size && blocks[b].size % 256 == 0
  }

  ghost predicate InOrder(blocks: map<nat, Block>, b: nat, c: nat) {
    b in blocks && c in blocks && b < c ==> b + blocks[b].size <= c
  }

  /** Regions are positive multiples of 256 bytes long and do not overlap. */
  ghost predicate BlocksOk(blocks: map<nat, Block>) {
    && (forall b {:trigger BlockOk(blocks, b)} | b in blocks :: BlockOk(blocks, b))
    && (forall b: nat, c: nat {:trigger InOrder(blocks, b, c)} :: InOrder(blocks, b, c))
  }

  // ---- Size classes --------------------------------------------------------------------------------------------

  /** `bytes` rounded up to a multiple of the minimal allocation size. */
  function RoundedBytes(bytes: nat): (r: nat)
    ensures r % 256 == 0 && bytes <= r < bytes + 256
  {
    256 * ((bytes + 256 - 1) / 256)
  }

  /** The same in 64-bit arithmetic, as the program computes it. */
  function RoundedBytes64(bytes: nat): (r: nat)
    requires bytes < 0x1_0000_0000_0000_0000
  {
    256 * ((bytes + 256 - 1) % 0x1_0000_0000_0000_0000 / 256) % 0x1_0000_0000_0000_0000
  }

  /** The sum wraps, and the request is then rounded to nothing, just above this size. */
  lemma RoundingWraps(bytes: nat)
    requires bytes < 0x1_0000_0000_0000_0000
    ensures RoundedBytes64(bytes) == RoundedBytes(bytes) <==> bytes <= 0xFFFF_FFFF_FFFF_FF00
    ensures RoundedBytes64(bytes) == 0 <==> bytes == 0 || bytes > 0xFFFF_FFFF_FFFF_FF00
  {
  }

  function Log2Floor(n: nat): nat
    requires 0 < n
  {
    if n == 1 then 0 else 1 + Log2Floor(n / 2)
  }

  function BinNumForSize(bytes: nat): (b: nat)
    ensures b < 21
  {
    var v := (if bytes < 256 then 256 else bytes) / 256;
    if Log2Floor(v) < 20 then Log2Floor(v) else 20
  }

  function BinNumToSize(b: nat): nat {
    if b == 0 then 256 else 2 * BinNumToSize(b - 1)
  }

  lemma {:induction false} Log2Monotone(m: nat, n: nat)
    requires 0 < m <= n
    ensures Log2Floor(m) <= Log2Floor(n)
  {
    if m > 1 {
      Log2Monotone(m / 2, n / 2);
    }
  }

  /** A chunk of a higher bin is strictly larger than any chunk of a lower bin. */
  lemma BinsAreOrdered(m: nat, n: nat)
    ensures m <= n ==> BinNumForSize(m) <= BinNumForSize(n)
    ensures BinNumForSize(m) < BinNumForSize(n) ==> m < n
  {
    if m <= n {
      Log2Monotone((if m < 256 then 256 else m) / 256, (if n < 256 then 256 else n) / 256);
    } else {
      Log2Monotone((if n < 256 then 256 else n) / 256, (if m < 256 then 256 else m) / 256);
    }
  }

  lemma {:induction false} Log2Of(b: nat, v: nat)
    requires BinNumToSize(b) <= v * 256 + 255 && v * 256 < 2 * BinNumToSize(b)
    requires 0 < v
    ensures Log2Floor(v) == b
  {
    MultipleOf256(b);
    if b > 0 {
      MultipleOf256(b - 1);
      Log2Of(b - 1, v / 2);
    }
  }

  lemma {:induction false} MultipleOf256(b: nat)
    ensures BinNumToSize(b) % 256 == 0 && 256 <= BinNumToSize(b)
    ensures b > 0 ==> BinNumToSize(b) % 512 == 0
  {
    if b > 0 {
      MultipleOf256(b - 1);
    }
  }

  /** Bin b holds exactly the sizes from BinNumToSize(b) up to, but not including, the next bin's size; the last bin
      also holds everything larger. The checks the constructor makes on the bins therefore hold. */
  lemma BinHoldsItsRange(b: nat, bytes: nat)
    requires b < 21 && 256 <= bytes
    ensures BinNumForSize(bytes) == b <==>
            BinNumToSize(b) <= bytes && (b == 20 || bytes < 2 * BinNumToSize(b))
  {
    MultipleOf256(b);
    var v := bytes / 256;
    if BinNumToSize(b) <= bytes < 2 * BinNumToSize(b) {
      Log2Of(b, v);
    } else if bytes < BinNumToSize(b) {
      Log2Of(b, BinNumToSize(b) / 256);
      if BinNumForSize(bytes) == b {
        var k := BinContaining(v);
        BinSizesIncrease(b, k);
      }
    } else {
      Log2Monotone(BinNumToSize(b) / 256, v);
      Log2Of(b, BinNumToSize(b) / 256);
      if b < 20 {
        MultipleOf256(b + 1);
        Log2Monotone(BinNumToSize(b + 1) / 256, v);
        Log2Of(b + 1, BinNumToSize(b + 1) / 256);
      }
    }
  }

  lemma {:induction false} BinContaining(v: nat) returns (k: nat)
    requires 0 < v
    ensures k == Log2Floor(v) && BinNumToSize(k) <= v * 256
  {
    if v == 1 {
      k := 0;
    } else {
      var j := BinContaining(v / 2);
      k := j + 1;
    }
  }

  lemma {:induction false} BinSizesIncrease(j: nat, k: nat)
    ensures j < k ==> BinNumToSize(j) < BinNumToSize(k)
  {
    if j < k {
      MultipleOf256(k - 1);
      BinSizesIncrease(j, k - 1);
    }
  }
}
