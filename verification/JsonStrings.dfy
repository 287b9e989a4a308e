/**
 * Reading a string field out of profiler metadata
 * (src/tensorrt_rtx_profiler_metadata.h:12-158): JSON strings as in section 7 of RFC 8259, decoded
 * to bytes, code points as UTF-8.
 */
module JsonStrings {
  import opened Hiding
  import opened Options
  import opened Utf8

  const QUOTE := 0x22
  const BACKSLASH := 0x5C
  const SLASH := 0x2F
  const LOWER_U := 0x75

  type Text = seq<Byte>

  // --- Units ----------------------------------------------------------------------------------

  // What a backslash and this byte stand for.
  function Unescaped(c: Byte): (b: Option<Byte>) {
    if c == QUOTE || c == BACKSLASH || c == SLASH then Some(c)
    else if c == 0x62 then Some(0x08)
    else if c == 0x66 then Some(0x0C)
    else if c == 0x6E then Some(0x0A)
    else if c == 0x72 then Some(0x0D)
    else if c == 0x74 then Some(0x09)
    else None
  }

  function HexDigit(c: Byte): (v: Option<nat>)
    ensures v.Some? ==> v.value < 16
  {
    if 0x30 <= c <= 0x39 then Some(c - 0x30)
    else if 0x61 <= c <= 0x66 then Some(c - 0x61 + 10)
    else if 0x41 <= c <= 0x46 then Some(c - 0x41 + 10)
    else None
  }

  function HexValue(digits: Text): (v: Option<nat>) {
    if digits == [] then Some(0)
    else
      var high, low := HexValue(digits[..|digits| - 1]), HexDigit(digits[|digits| - 1]);
      if high.None? || low.None? then None else Some(16 * high.value + low.value)
  }

  predicate IsHighSurrogate(v: nat) {
    0xD800 <= v <= 0xDBFF
  }

  predicate IsLowSurrogate(v: nat) {
    0xDC00 <= v <= 0xDFFF
  }

  function PairValue(high: nat, low: nat): (cp: nat)
    requires IsHighSurrogate(high) && IsLowSurrogate(low)
    ensures 0x10000 <= cp <= 0x10FFFF
  {
    0x10000 + (high - 0xD800) * 0x400 + (low - 0xDC00)
  }

  // One unit of a JSON string.
  datatype Piece = Plain(b: Byte) | Short(c: Byte) | Escaped(digits: Text) | Paired(high: Text, low: Text)

  predicate IsQuad(digits: Text) {
    |digits| == 4 && HexValue(digits).Some?
  }

  // Surrogates only come in pairs, the high one first.
  predicate IsPiece(p: Piece) {
    match p
    case Plain(b) => b != BACKSLASH
    case Short(c) => Unescaped(c).Some?
    case Escaped(digits) => IsQuad(digits) && IsScalar(HexValue(digits).value)
    case Paired(high, low) =>
      IsQuad(high) && IsQuad(low) && IsHighSurrogate(HexValue(high).value) && IsLowSurrogate(HexValue(low).value)
  }

  function Written(p: Piece): (text: Text) {
    match p
    case Plain(b) => [b]
    case Short(c) => [BACKSLASH, c]
    case Escaped(digits) => [BACKSLASH, LOWER_U] + digits
    case Paired(high, low) => [BACKSLASH, LOWER_U] + high + [BACKSLASH, LOWER_U] + low
  }

  function Meant(p: Piece): (text: Text)
    requires IsPiece(p)
  {
    match p
    case Plain(b) => [b]
    case Short(c) => [Unescaped(c).value]
    case Escaped(digits) => Encode(HexValue(digits).value)
    case Paired(high, low) => Encode(PairValue(HexValue(high).value, HexValue(low).value))
  }

  predicate ArePieces(ps: seq<Piece>) {
    forall i :: 0 <= i < |ps| ==> IsPiece(ps[i])
  }

  function AllWritten(ps: seq<Piece>): (text: Text) {
    if ps == [] then [] else Written(ps[0]) + AllWritten(ps[1..])
  }

  function AllMeant(ps: seq<Piece>): (text: Text)
    requires ArePieces(ps)
  {
    if ps == [] then [] else Meant(ps[0]) + AllMeant(ps[1..])
  }

  // --- Decoding -------------------------------------------------------------------------------

  // The piece that begins at i.
  function PieceAt(e: Text, i: nat): (p: Option<Piece>)
    requires i < |e|
    ensures p.Some? ==> IsPiece(p.value) && i + |Written(p.value)| <= |e| && |Written(p.value)| > 0
  {
    if e[i] != BACKSLASH then Some(Plain(e[i]))
    else if i + 1 == |e| then None
    else if e[i + 1] != LOWER_U then (if Unescaped(e[i + 1]).Some? then Some(Short(e[i + 1])) else None)
    else if i + 5 >= |e| || HexValue(e[i + 2..i + 6]).None? then None
    else
      var digits := e[i + 2..i + 6];
      var v := HexValue(digits).value;
      if IsHighSurrogate(v) then LowSurrogateAfter(e, i, digits)
      else if IsLowSurrogate(v) then None
      else
        QuadIsSmall(digits);
        Some(Escaped(digits))
  }

  function LowSurrogateAfter(e: Text, i: nat, high: Text): (p: Option<Piece>)
    requires i + 5 < |e| && IsQuad(high) && IsHighSurrogate(HexValue(high).value)
    ensures p.Some? ==> IsPiece(p.value) && i + |Written(p.value)| <= |e| && |Written(p.value)| > 0
  {
    if i + 11 >= |e| || e[i + 6] != BACKSLASH || e[i + 7] != LOWER_U then None
    else
      var low := e[i + 8..i + 12];
      if HexValue(low).None? || !IsLowSurrogate(HexValue(low).value) then None else Some(Paired(high, low))
  }

  function SixteenTo(n: nat): (p: nat) {
    if n == 0 then 1 else 16 * SixteenTo(n - 1)
  }

  lemma {:induction false} HexIsBelow(digits: Text)
    requires HexValue(digits).Some?
    ensures HexValue(digits).value < SixteenTo(|digits|)
  {
    if digits != [] {
      HexIsBelow(digits[..|digits| - 1]);
    }
  }

  lemma QuadIsSmall(digits: Text)
    requires IsQuad(digits)
    ensures HexValue(digits).value <= 0xFFFF
  {
    HexIsBelow(digits);
    assert SixteenTo(1) == 16 && SixteenTo(2) == 0x100 && SixteenTo(3) == 0x1000 && SixteenTo(4) == 0x10000;
  }

  function Prepended(ps: seq<Piece>, rest: Option<seq<Piece>>): (all: Option<seq<Piece>>) {
    if rest.None? then None else Some(ps + rest.value)
  }

  lemma PrependedThrough(a: seq<Piece>, b: seq<Piece>, rest: Option<seq<Piece>>)
    ensures Prepended(a, Prepended(b, rest)) == Prepended(a + b, rest)
    ensures Prepended([], rest) == rest
  {
    if rest.Some? {
      assert a + (b + rest.value) == a + b + rest.value;
      assert [] + rest.value == rest.value;
    }
  }

  // The pieces from i on, if there is nothing else.
  function Parsed(e: Text, i: nat): (ps: Option<seq<Piece>>)
    requires i <= |e|
    ensures ps.Some? ==> ArePieces(ps.value)
    decreases |e| - i
  {
    if i == |e| then Some([])
    else
      var p := PieceAt(e, i);
      if p.None? then None else Prepended([p.value], Parsed(e, i + |Written(p.value)|))
  }

  function Decoded(e: Text): (text: Option<Text>) {
    var ps := Parsed(e, 0);
    if ps.None? then None else Some(AllMeant(ps.value))
  }

  method ReadHex(e: Text, at: nat) returns (v: Option<nat>)
    requires at + 4 <= |e|
    ensures v == HexValue(e[at..at + 4])
  {
    var value := 0;
    for digit := 0 to 4
      invariant HexValue(e[at..at + digit]) == Some(value)
    {
      assert e[at..at + digit + 1][..digit] == e[at..at + digit];
      var d := HexDigit(e[at + digit]);
      if d.None? {
        NoHexWithin(e[at..at + 4], digit);
        return None;
      }
      value := 16 * value + d.value;
    }
    v := Some(value);
  }

  lemma {:induction false} NoHexWithin(digits: Text, k: nat)
    requires k < |digits| && HexDigit(digits[k]).None?
    ensures HexValue(digits).None?
  {
    if k < |digits| - 1 {
      NoHexWithin(digits[..|digits| - 1], k);
    }
  }

  // The bytes of a code point, by its range.
  method AppendUtf8(decoded: Text, cp: nat) returns (longer: Text)
    requires IsScalar(cp)
    ensures longer == decoded + Encode(cp)
  {
    longer := decoded;
    if cp >= 0x10000 {
      longer := longer + [0xF0 + cp / 0x40000];
      longer := longer + [0x80 + cp / 0x1000 % 0x40];
      longer := longer + [0x80 + cp / 0x40 % 0x40];
      longer := longer + [0x80 + cp % 0x40];
    } else if cp <= 0x7F {
      longer := longer + [cp];
    } else if cp <= 0x7FF {
      longer := longer + [0xC0 + cp / 0x40];
      longer := longer + [0x80 + cp % 0x40];
    } else {
      longer := longer + [0xE0 + cp / 0x1000];
      longer := longer + [0x80 + cp / 0x40 % 0x40];
      longer := longer + [0x80 + cp % 0x40];
    }
  }

  // The piece at i appended and passed, or nothing when there is none.
  method DecodePiece(e: Text, i: nat, decoded: Text) returns (next: nat, longer: Option<Text>)
    requires i < |e|
    ensures longer.Some? <==> PieceAt(e, i).Some?
    ensures longer.Some? ==>
        next == i + |Written(PieceAt(e, i).value)| && longer.value == decoded + Meant(PieceAt(e, i).value)
  {
    next, longer := i + 1, None;
    if e[i] != BACKSLASH {
      return i + 1, Some(decoded + [e[i]]);
    }
    if next == |e| {
      return;
    }
    if e[next] != LOWER_U {
      var b := Unescaped(e[next]);
      if b.Some? {
        longer := Some(decoded + [b.value]);
      }
      return next + 1, longer;
    }
    next, longer := DecodeUnicode(e, i, decoded);
  }

  method DecodeUnicode(e: Text, i: nat, decoded: Text) returns (next: nat, longer: Option<Text>)
    requires i + 1 < |e| && e[i] == BACKSLASH && e[i + 1] == LOWER_U
    ensures longer.Some? <==> PieceAt(e, i).Some?
    ensures longer.Some? ==>
        next == i + |Written(PieceAt(e, i).value)| && longer.value == decoded + Meant(PieceAt(e, i).value)
  {
    next, longer := i + 1, None;
    if next + 4 >= |e| {
      return;
    }
    var value := ReadHex(e, next + 1);
    if value.None? {
      return;
    }
    QuadIsSmall(e[i + 2..i + 6]);
    next := next + 4;
    if 0xD800 <= value.value <= 0xDBFF {
      next, longer := DecodeLowSurrogate(e, i, value.value, decoded);
      return;
    }
    if 0xDC00 <= value.value <= 0xDFFF {
      return;
    }
    var text := AppendUtf8(decoded, value.value);
    return next + 1, Some(text);
  }

  method DecodeLowSurrogate(e: Text, i: nat, high: nat, decoded: Text) returns (next: nat, longer: Option<Text>)
    requires i + 5 < |e| && HexValue(e[i + 2..i + 6]) == Some(high) && IsHighSurrogate(high)
    ensures var p := LowSurrogateAfter(e, i, e[i + 2..i + 6]);
      && (longer.Some? <==> p.Some?)
      && (longer.Some? ==> next == i + |Written(p.value)| && longer.value == decoded + Meant(p.value))
  {
    next, longer := i + 5, None;
    if next + 6 >= |e| || e[next + 1] != BACKSLASH || e[next + 2] != LOWER_U {
      return;
    }
    var low := ReadHex(e, next + 3);
    if low.None? || low.value < 0xDC00 || low.value > 0xDFFF {
      return;
    }
    next := next + 6;
    var text := AppendUtf8(decoded, PairValue(high, low.value));
    assert LowSurrogateAfter(e, i, e[i + 2..i + 6]) == Some(Paired(e[i + 2..i + 6], e[i + 8..i + 12]));
    return next + 1, Some(text);
  }

  lemma {:induction false} OneMoreMeant(ps: seq<Piece>, p: Piece)
    requires ArePieces(ps) && IsPiece(p)
    ensures ArePieces(ps + [p]) && AllMeant(ps + [p]) == AllMeant(ps) + Meant(p)
  {
    if ps == [] {
      assert [p][1..] == [];
    } else {
      OneMoreMeant(ps[1..], p);
      assert (ps + [p])[1..] == ps[1..] + [p];
    }
  }

  method DecodeJsonString(e: Text) returns (decoded: Option<Text>)
    ensures decoded == Decoded(e)
  {
    var text: Text := [];
    var i := 0;
    ghost var done: seq<Piece> := [];
    PrependedThrough([], [], Parsed(e, 0));
    while i < |e|
      invariant i <= |e| && Parsed(e, 0) == Prepended(done, Parsed(e, i))
      invariant ArePieces(done) && text == AllMeant(done)
    {
      var next, longer := DecodePiece(e, i, text);
      if longer.None? {
        return None;
      }
      ghost var p := PieceAt(e, i).value;
      PrependedThrough(done, [p], Parsed(e, next));
      OneMoreMeant(done, p);
      i, text, done := next, longer.value, done + [p];
    }
    assert done + [] == done;
    decoded := Some(text);
  }

  // --- What decoding means --------------------------------------------------------------------

  ghost predicate SpellsFacts(e: Text, i: nat, w: Text, u: Unfolding)
    requires i + |w| <= |e|
  {
    forall k {:trigger w[k]} :: 0 <= k < |w| ==> e[i + k] == w[k]
  }

  // The text w stands at i.
  ghost predicate Spells(e: Text, i: nat, w: Text) {
    i + |w| <= |e| && forall u {:trigger SpellsFacts(e, i, w, u)} :: SpellsFacts(e, i, w, u)
  }

  lemma SpellsUnfolds(e: Text, i: nat, w: Text)
    ensures Spells(e, i, w) <==> i + |w| <= |e| && SpellsFacts(e, i, w, Unfolded)
  {
    if i + |w| <= |e| && SpellsFacts(e, i, w, Unfolded) {
      forall u ensures SpellsFacts(e, i, w, u) {
      }
    }
  }

  lemma SpellsSlice(e: Text, i: nat, w: Text)
    ensures Spells(e, i, w) <==> i + |w| <= |e| && e[i..i + |w|] == w
  {
    SpellsUnfolds(e, i, w);
    if i + |w| <= |e| {
      var s := e[i..i + |w|];
      forall k | 0 <= k < |w| ensures s[k] == e[i + k] {
      }
    }
  }

  lemma SpellsBoth(e: Text, i: nat, a: Text, b: Text)
    ensures Spells(e, i, a + b) <==> Spells(e, i, a) && Spells(e, i + |a|, b)
  {
    var w := a + b;
    SpellsUnfolds(e, i, w);
    SpellsUnfolds(e, i, a);
    SpellsUnfolds(e, i + |a|, b);
    if Spells(e, i, w) {
      forall k | 0 <= k < |a| ensures e[i + k] == a[k] {
        assert w[k] == a[k];
      }
      forall k | 0 <= k < |b| ensures e[i + |a| + k] == b[k] {
        assert e[i + (|a| + k)] == w[|a| + k];
      }
    }
    if Spells(e, i, a) && Spells(e, i + |a|, b) {
      forall k | 0 <= k < |w| ensures e[i + k] == w[k] {
        assert k >= |a| ==> w[k] == b[k - |a|] && e[i + |a| + (k - |a|)] == b[k - |a|];
        assert k < |a| ==> w[k] == a[k];
      }
    }
  }

  lemma SpellsTwo(e: Text, i: nat, a: Byte, b: Byte)
    ensures Spells(e, i, [a, b]) <==> i + 1 < |e| && e[i] == a && e[i + 1] == b
  {
    var w := [a, b];
    SpellsUnfolds(e, i, w);
    if Spells(e, i, w) {
      assert e[i + 0] == w[0] && e[i + 1] == w[1];
    }
  }

  // An escaped quad stands at i just when its parts do.
  lemma SpellsEscape(e: Text, i: nat, digits: Text)
    requires |digits| == 4
    ensures Spells(e, i, [BACKSLASH, LOWER_U] + digits)
       <==> i + 5 < |e| && e[i] == BACKSLASH && e[i + 1] == LOWER_U && e[i + 2..i + 6] == digits
  {
    SpellsBoth(e, i, [BACKSLASH, LOWER_U], digits);
    SpellsTwo(e, i, BACKSLASH, LOWER_U);
    SpellsSlice(e, i + 2, digits);
  }

  lemma SpellsPair(e: Text, i: nat, high: Text, low: Text)
    requires |high| == |low| == 4
    ensures Spells(e, i, Written(Paired(high, low)))
       <==> && i + 11 < |e| && e[i] == BACKSLASH && e[i + 1] == LOWER_U && e[i + 2..i + 6] == high
            && e[i + 6] == BACKSLASH && e[i + 7] == LOWER_U && e[i + 8..i + 12] == low
  {
    var first, second := [BACKSLASH, LOWER_U] + high, [BACKSLASH, LOWER_U] + low;
    assert Written(Paired(high, low)) == first + second;
    SpellsBoth(e, i, first, second);
    SpellsEscape(e, i, high);
    SpellsEscape(e, i + 6, low);
  }

  lemma EscapeIsFound(e: Text, i: nat, digits: Text)
    requires IsPiece(Escaped(digits)) && i < |e|
    ensures Spells(e, i, Written(Escaped(digits))) <==> PieceAt(e, i) == Some(Escaped(digits))
  {
    SpellsEscape(e, i, digits);
    if i + 5 < |e| && e[i] == BACKSLASH && e[i + 1] == LOWER_U {
      var d := e[i + 2..i + 6];
      if d == digits {
        QuadIsSmall(digits);
        assert PieceAt(e, i) == Some(Escaped(d));
      }
    }
  }

  lemma PairIsFound(e: Text, i: nat, high: Text, low: Text)
    requires IsPiece(Paired(high, low)) && i < |e|
    ensures Spells(e, i, Written(Paired(high, low))) <==> PieceAt(e, i) == Some(Paired(high, low))
  {
    SpellsPair(e, i, high, low);
  }

  // A piece is found where it is written, and nowhere else.
  lemma PieceIsFound(e: Text, i: nat, p: Piece)
    requires IsPiece(p) && i < |e|
    ensures Spells(e, i, Written(p)) <==> PieceAt(e, i) == Some(p)
  {
    match p
    case Plain(b) =>
      SpellsSlice(e, i, [b]);
    case Short(c) =>
      SpellsTwo(e, i, BACKSLASH, c);
    case Escaped(digits) =>
      EscapeIsFound(e, i, digits);
    case Paired(high, low) =>
      PairIsFound(e, i, high, low);
  }

  lemma PieceParses(e: Text, i: nat, p: Piece, next: nat)
    requires IsPiece(p) && Spells(e, i, Written(p)) && next == i + |Written(p)|
    ensures next <= |e| && Parsed(e, i) == Prepended([p], Parsed(e, next))
  {
    PieceIsFound(e, i, p);
  }

  ghost predicate ParsesTo(e: Text, i: nat, ps: seq<Piece>, end: nat) {
    i <= |e| && end <= |e| && Parsed(e, i) == Prepended(ps, Parsed(e, end))
  }

  lemma ParsesThrough(e: Text, i: nat, p: Piece, next: nat, ps: seq<Piece>, end: nat)
    requires ParsesTo(e, i, [p], next) && ParsesTo(e, next, ps, end)
    ensures ParsesTo(e, i, [p] + ps, end)
  {
    PrependedThrough([p], ps, Parsed(e, end));
  }

  // Pieces are parsed one after the other, whatever follows them.
  lemma {:induction false} PiecesParse(e: Text, i: nat, ps: seq<Piece>, end: nat)
    requires ArePieces(ps) && Spells(e, i, AllWritten(ps)) && end == i + |AllWritten(ps)|
    ensures ParsesTo(e, i, ps, end)
    decreases |ps|
  {
    if ps == [] {
      PrependedThrough([], [], Parsed(e, end));
    } else {
      var w, rest := Written(ps[0]), AllWritten(ps[1..]);
      var next := i + |w|;
      SpellsBoth(e, i, w, rest);
      PieceParses(e, i, ps[0], next);
      PiecesParse(e, next, ps[1..], end);
      ParsesThrough(e, i, ps[0], next, ps[1..], end);
      assert [ps[0]] + ps[1..] == ps;
    }
  }

  lemma OneMoreWritten(p: Piece, ps: seq<Piece>)
    ensures AllWritten([p] + ps) == Written(p) + AllWritten(ps)
  {
    assert ([p] + ps)[1..] == ps;
  }

  // The rest of the text, from i on, is w.
  ghost predicate Fills(e: Text, i: nat, w: Text) {
    Spells(e, i, w) && i + |w| == |e|
  }

  lemma FillsBehind(e: Text, i: nat, p: Piece, rest: seq<Piece>)
    requires Spells(e, i, Written(p)) && Fills(e, i + |Written(p)|, AllWritten(rest))
    ensures Fills(e, i, AllWritten([p] + rest))
  {
    OneMoreWritten(p, rest);
    SpellsBoth(e, i, Written(p), AllWritten(rest));
  }

  lemma ParseBegins(e: Text, i: nat) returns (p: Piece, next: nat)
    requires i < |e| && Parsed(e, i).Some?
    ensures Spells(e, i, Written(p)) && i < next <= |e| && next == i + |Written(p)|
    ensures Parsed(e, next).Some? && Parsed(e, i).value == [p] + Parsed(e, next).value
  {
    p := PieceAt(e, i).value;
    next := i + |Written(p)|;
    PieceIsFound(e, i, p);
    PieceParses(e, i, p, next);
  }

  // What is parsed is what stands there.
  lemma {:induction false} ParsedIsWritten(e: Text, i: nat)
    requires i <= |e| && Parsed(e, i).Some?
    ensures Fills(e, i, AllWritten(Parsed(e, i).value))
    decreases |e| - i
  {
    if i < |e| {
      var p, next := ParseBegins(e, i);
      ParsedIsWritten(e, next);
      FillsBehind(e, i, p, Parsed(e, next).value);
    } else {
      SpellsSlice(e, i, []);
    }
  }

  lemma WrittenIsParsed(e: Text, ps: seq<Piece>)
    requires ArePieces(ps) && AllWritten(ps) == e
    ensures Parsed(e, 0) == Some(ps)
  {
    PiecesParse(e, 0, ps, |e|);
    assert ps + [] == ps;
  }

  ghost predicate IsWriting(e: Text, t: Text, ps: seq<Piece>) {
    ArePieces(ps) && AllWritten(ps) == e && AllMeant(ps) == t
  }

  // Exactly the sequences of pieces decode, and to what they mean: in particular every escaped code
  // point gives its UTF-8 bytes, and surrogates only count in pairs.
  lemma DecodesWhatIsWritten(e: Text, t: Text)
    ensures Decoded(e) == Some(t) <==> exists ps :: IsWriting(e, t, ps)
  {
    if Decoded(e) == Some(t) {
      var ps := Parsed(e, 0).value;
      ParsedIsWritten(e, 0);
      SpellsSlice(e, 0, AllWritten(ps));
      assert IsWriting(e, t, ps);
    }
    forall ps | IsWriting(e, t, ps) ensures Decoded(e) == Some(t) {
      WrittenIsParsed(e, ps);
    }
  }

  predicate LowSurrogateAt(e: Text, i: nat) {
    && i + 5 < |e| && e[i] == BACKSLASH && e[i + 1] == LOWER_U
    && IsQuad(e[i + 2..i + 6]) && IsLowSurrogate(HexValue(e[i + 2..i + 6]).value)
  }

  // An escaped surrogate that follows pieces is refused when it is a low one, and when it is a high
  // one without a low one after it.
  lemma LoneSurrogatesAreRefused(e: Text, ps: seq<Piece>, digits: Text, at: nat)
    requires ArePieces(ps) && at == |AllWritten(ps)| && IsQuad(digits)
    requires Spells(e, 0, AllWritten(ps)) && Spells(e, at, [BACKSLASH, LOWER_U] + digits)
    ensures IsLowSurrogate(HexValue(digits).value) ==> Decoded(e) == None
    ensures IsHighSurrogate(HexValue(digits).value) && !LowSurrogateAt(e, at + 6) ==> Decoded(e) == None
  {
    PiecesParse(e, 0, ps, at);
    LoneSurrogateIsNoPiece(e, digits, at);
  }

  lemma LoneSurrogateIsNoPiece(e: Text, digits: Text, at: nat)
    requires IsQuad(digits) && Spells(e, at, [BACKSLASH, LOWER_U] + digits)
    ensures at < |e|
    ensures IsLowSurrogate(HexValue(digits).value) ==> PieceAt(e, at) == None
    ensures IsHighSurrogate(HexValue(digits).value) && !LowSurrogateAt(e, at + 6) ==> PieceAt(e, at) == None
  {
    SpellsEscape(e, at, digits);
  }

  // --- Escaping -------------------------------------------------------------------------------

  function HexDigitOf(v: nat): (c: Byte)
    requires v < 16
    ensures HexDigit(c) == Some(v)
  {
    if v < 10 then 0x30 + v else 0x61 + v - 10
  }

  // Quotes, backslashes and control characters are escaped; all else stands for itself.
  function EscapedByte(b: Byte): (p: Piece) {
    if b == QUOTE || b == BACKSLASH then Short(b)
    else if b == 0x08 then Short(0x62)
    else if b == 0x0C then Short(0x66)
    else if b == 0x0A then Short(0x6E)
    else if b == 0x0D then Short(0x72)
    else if b == 0x09 then Short(0x74)
    else if b < 0x20 then Escaped([0x30, 0x30, HexDigitOf(b / 16), HexDigitOf(b % 16)])
    else Plain(b)
  }

  function EscapedText(t: Text): (ps: seq<Piece>)
    ensures |ps| == |t| && forall i :: 0 <= i < |t| ==> ps[i] == EscapedByte(t[i])
  {
    seq(|t|, i requires 0 <= i < |t| => EscapedByte(t[i]))
  }

  lemma EscapedByteMeans(b: Byte)
    ensures IsPiece(EscapedByte(b)) && Meant(EscapedByte(b)) == [b]
  {
    var p := EscapedByte(b);
    if p.Escaped? {
      var d := p.digits;
      assert d[..3][..2] == d[..2] && d[..2][..1] == d[..1] && d[..1][..0] == [];
      assert HexValue(d[..0]) == Some(0);
      assert HexValue(d[..1]) == Some(0);
      assert HexValue(d[..2]) == Some(0);
      assert HexValue(d[..3]) == Some(b / 16);
      assert HexValue(d) == Some(16 * (b / 16) + b % 16);
    }
  }

  lemma {:induction false} EscapedTextMeans(t: Text)
    ensures ArePieces(EscapedText(t)) && AllMeant(EscapedText(t)) == t
  {
    forall i | 0 <= i < |t| ensures IsPiece(EscapedText(t)[i]) {
      EscapedByteMeans(t[i]);
    }
    if t != [] {
      EscapedByteMeans(t[0]);
      EscapedTextMeans(t[1..]);
      assert EscapedText(t)[1..] == EscapedText(t[1..]);
      assert t == [t[0]] + t[1..];
    }
  }

  // Decoding undoes escaping, for every byte string.
  lemma DecodingUndoesEscaping(t: Text)
    ensures Decoded(AllWritten(EscapedText(t))) == Some(t)
  {
    EscapedTextMeans(t);
    assert IsWriting(AllWritten(EscapedText(t)), t, EscapedText(t));
    DecodesWhatIsWritten(AllWritten(EscapedText(t)), t);
  }
}
