/** The encoding form of section 3 of RFC 3629. */
module Utf8 {
  type Byte = b: int | 0 <= b < 256

  // The numbers that stand for characters: all up to 0x10FFFF but the surrogates.
  predicate IsScalar(cp: int) {
    0 <= cp <= 0x10FFFF && !(0xD800 <= cp <= 0xDFFF)
  }

  function Encode(cp: nat): (bytes: seq<Byte>)
    requires IsScalar(cp)
  {
    if cp <= 0x7F then [cp]
    else if cp <= 0x7FF then [0xC0 + cp / 0x40, 0x80 + cp % 0x40]
    else if cp <= 0xFFFF then [0xE0 + cp / 0x1000, 0x80 + cp / 0x40 % 0x40, 0x80 + cp % 0x40]
    else [0xF0 + cp / 0x40000, 0x80 + cp / 0x1000 % 0x40, 0x80 + cp / 0x40 % 0x40, 0x80 + cp % 0x40]
  }

  predicate IsTail(b: Byte) {
    0x80 <= b <= 0xBF
  }

  // How many bytes the first byte announces; zero for a byte that cannot come first.
  function LengthFrom(first: Byte): (n: nat) {
    if first <= 0x7F then 1
    else if 0xC2 <= first <= 0xDF then 2
    else if 0xE0 <= first <= 0xEF then 3
    else if 0xF0 <= first <= 0xF4 then 4
    else 0
  }

  // Reads one character back from exactly its bytes.
  function Value(bytes: seq<int>): (cp: int)
    requires bytes != []
  {
    if |bytes| == 1 then bytes[0]
    else if |bytes| == 2 then (bytes[0] - 0xC0) * 0x40 + (bytes[1] - 0x80)
    else if |bytes| == 3 then ((bytes[0] - 0xE0) * 0x40 + (bytes[1] - 0x80)) * 0x40 + (bytes[2] - 0x80)
    else if |bytes| == 4 then
      (((bytes[0] - 0xF0) * 0x40 + (bytes[1] - 0x80)) * 0x40 + (bytes[2] - 0x80)) * 0x40 + (bytes[3] - 0x80)
    else -1
  }

  // The bytes of a character announce their number, go on as they must and give it back.
  lemma EncodedIsFaithful(cp: nat)
    requires IsScalar(cp)
    ensures var bytes := Encode(cp);
      && bytes != [] && LengthFrom(bytes[0]) == |bytes| && (forall i :: 1 <= i < |bytes| ==> IsTail(bytes[i]))
      && Value(bytes) == cp
  {
    var low, high := cp / 0x40, cp / 0x1000;
    assert cp == low * 0x40 + cp % 0x40;
    assert low == low / 0x40 * 0x40 + low % 0x40;
    assert low / 0x40 == high;
    assert high == high / 0x40 * 0x40 + high % 0x40;
    assert high / 0x40 == cp / 0x40000;
  }
}
