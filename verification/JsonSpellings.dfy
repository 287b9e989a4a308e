/**
 * Decoding told by characters: what section 7 of RFC 8259 lets a string spell, and what each
 * spelling decodes to (src/tensorrt_rtx_profiler_metadata.h:12-158).
 */
module JsonSpellings {
  import opened Options
  import opened Utf8
  import opened JsonStrings
  import opened JsonFields

  // --- Spellings ------------------------------------------------------------------------------

  // A hexadecimal digit, letters in either case.
  function DigitOf(v: nat, upper: bool): (c: Byte)
    requires v < 16
  {
    if v < 10 then 0x30 + v else (if upper then 0x41 else 0x61) + (v - 10)
  }

  // The escape of one UTF-16 code unit.
  function EscapeOf(unit: nat, upper: seq<bool>): (text: Text)
    requires unit <= 0xFFFF && |upper| == 4
  {
    [0x5C, 0x75, DigitOf(unit / 0x1000, upper[0]), DigitOf(unit / 0x100 % 0x10, upper[1]),
     DigitOf(unit / 0x10 % 0x10, upper[2]), DigitOf(unit % 0x10, upper[3])]
  }

  // The letter behind the backslash.
  function ShortFor(cp: nat): (c: Option<Byte>) {
    if cp == 0x22 || cp == 0x5C || cp == 0x2F then Some(cp)
    else if cp == 0x8 then Some(0x62)
    else if cp == 0x9 then Some(0x74)
    else if cp == 0xA then Some(0x6E)
    else if cp == 0xC then Some(0x66)
    else if cp == 0xD then Some(0x72)
    else None
  }

  // A byte that stands for itself, a short escape, or a character by its UTF-16 code units.
  datatype Spelled = Raw(b: Byte) | Short(cp: nat) | Units(cp: nat, upper: seq<bool>)

  predicate IsSpelled(s: Spelled) {
    match s
    case Raw(b) => b != 0x5C
    case Short(cp) => ShortFor(cp).Some?
    case Units(cp, upper) => IsScalar(cp) && |upper| == if cp < 0x10000 then 4 else 8
  }

  function TextOf(s: Spelled): (text: Text)
    requires IsSpelled(s)
  {
    match s
    case Raw(b) => [b]
    case Short(cp) => [0x5C, ShortFor(cp).value]
    case Units(cp, upper) =>
      if cp < 0x10000 then EscapeOf(cp, upper)
      else
        EscapeOf(0xD800 + (cp - 0x10000) / 0x400, upper[..4]) + EscapeOf(0xDC00 + (cp - 0x10000) % 0x400, upper[4..])
  }

  function BytesOf(s: Spelled): (bytes: Text)
    requires IsSpelled(s)
  {
    match s
    case Raw(b) => [b]
    case Short(cp) => Encode(cp)
    case Units(cp, _) => Encode(cp)
  }

  predicate AreSpelled(spelled: seq<Spelled>) {
    forall i :: 0 <= i < |spelled| ==> IsSpelled(spelled[i])
  }

  function AllText(spelled: seq<Spelled>): (text: Text)
    requires AreSpelled(spelled)
  {
    if spelled == [] then [] else TextOf(spelled[0]) + AllText(spelled[1..])
  }

  function AllBytes(spelled: seq<Spelled>): (bytes: Text)
    requires AreSpelled(spelled)
  {
    if spelled == [] then [] else BytesOf(spelled[0]) + AllBytes(spelled[1..])
  }

  // --- Quads ----------------------------------------------------------------------------------

  lemma OneDigitMore(digits: Text, c: Byte)
    ensures HexValue(digits + [c]) ==
            if HexValue(digits).None? || HexDigit(c).None? then None
            else Some(16 * HexValue(digits).value + HexDigit(c).value)
  {
    assert (digits + [c])[..|digits|] == digits;
  }

  lemma QuadValue(a: Byte, b: Byte, c: Byte, d: Byte)
    ensures var v := HexValue([a, b, c, d]);
      var w, x, y, z := HexDigit(a), HexDigit(b), HexDigit(c), HexDigit(d);
      if w.Some? && x.Some? && y.Some? && z.Some?
      then v == Some(w.value * 0x1000 + x.value * 0x100 + y.value * 0x10 + z.value) else v.None?
  {
    OneDigitMore([], a);
    OneDigitMore([a], b);
    OneDigitMore([a, b], c);
    OneDigitMore([a, b, c], d);
    assert [] + [a] == [a] && [a] + [b] == [a, b] && [a, b] + [c] == [a, b, c] && [a, b, c] + [d] == [a, b, c, d];
  }

  lemma DigitIsRead(v: nat, upper: bool)
    requires v < 16
    ensures HexDigit(DigitOf(v, upper)) == Some(v)
  {
  }

  // The case of a digit.
  function IsUpper(c: Byte): (upper: bool) {
    0x41 <= c <= 0x46
  }

  lemma DigitIsSpelled(c: Byte)
    requires HexDigit(c).Some?
    ensures DigitOf(HexDigit(c).value, IsUpper(c)) == c
  {
  }

  lemma EscapeIsQuad(unit: nat, upper: seq<bool>)
    requires unit <= 0xFFFF && |upper| == 4
    ensures IsQuad(EscapeOf(unit, upper)[2..]) && HexValue(EscapeOf(unit, upper)[2..]) == Some(unit)
  {
    var t := EscapeOf(unit, upper);
    assert t[2..] == [t[2], t[3], t[4], t[5]];
    DigitIsRead(unit / 0x1000, upper[0]);
    DigitIsRead(unit / 0x100 % 0x10, upper[1]);
    DigitIsRead(unit / 0x10 % 0x10, upper[2]);
    DigitIsRead(unit % 0x10, upper[3]);
    QuadValue(t[2], t[3], t[4], t[5]);
    DigitsAddUp(unit);
  }

  lemma DigitsAddUp(unit: nat)
    ensures unit == unit / 0x1000 * 0x1000 + unit / 0x100 % 0x10 * 0x100 + unit / 0x10 % 0x10 * 0x10 + unit % 0x10
  {
    var h, m := unit / 0x10, unit / 0x100;
    assert h / 0x10 == m && m / 0x10 == unit / 0x1000;
  }

  lemma DigitsAreThose(w: nat, x: nat, y: nat, z: nat)
    requires w < 16 && x < 16 && y < 16 && z < 16
    ensures var unit := w * 0x1000 + x * 0x100 + y * 0x10 + z;
      unit / 0x1000 == w && unit / 0x100 % 0x10 == x && unit / 0x10 % 0x10 == y && unit % 0x10 == z
  {
    var unit := w * 0x1000 + x * 0x100 + y * 0x10 + z;
    assert unit / 0x10 == w * 0x100 + x * 0x10 + y;
    assert unit / 0x100 == w * 0x10 + x;
  }

  function CasesOf(digits: Text): (upper: seq<bool>)
    requires |digits| == 4
  {
    [IsUpper(digits[0]), IsUpper(digits[1]), IsUpper(digits[2]), IsUpper(digits[3])]
  }

  lemma QuadIsEscape(digits: Text)
    requires IsQuad(digits)
    ensures HexValue(digits).value <= 0xFFFF
    ensures EscapeOf(HexValue(digits).value, CasesOf(digits)) == [BACKSLASH, LOWER_U] + digits
  {
    QuadIsSmall(digits);
    var a, b, c, d := digits[0], digits[1], digits[2], digits[3];
    assert digits == [a, b, c, d];
    QuadValue(a, b, c, d);
    DigitsAreThose(HexDigit(a).value, HexDigit(b).value, HexDigit(c).value, HexDigit(d).value);
    DigitIsSpelled(a);
    DigitIsSpelled(b);
    DigitIsSpelled(c);
    DigitIsSpelled(d);
  }

  // --- Spellings are pieces -------------------------------------------------------------------

  function PieceOf(s: Spelled): (p: Piece)
    requires IsSpelled(s)
  {
    match s
    case Raw(b) => Plain(b)
    case Short(cp) => Piece.Short(ShortFor(cp).value)
    case Units(cp, upper) =>
      if cp < 0x10000 then Escaped(EscapeOf(cp, upper)[2..])
      else Paired(EscapeOf(0xD800 + (cp - 0x10000) / 0x400, upper[..4])[2..],
                  EscapeOf(0xDC00 + (cp - 0x10000) % 0x400, upper[4..])[2..])
  }

  lemma SpelledIsPiece(s: Spelled)
    requires IsSpelled(s)
    ensures IsPiece(PieceOf(s)) && Written(PieceOf(s)) == TextOf(s) && Meant(PieceOf(s)) == BytesOf(s)
  {
    match s
    case Raw(b) =>
    case Short(cp) =>
    case Units(cp, upper) =>
      if cp < 0x10000 {
        EscapeIsQuad(cp, upper);
      } else {
        PairIsPiece(cp, upper);
      }
  }

  lemma PairIsPiece(cp: nat, upper: seq<bool>)
    requires 0x10000 <= cp <= 0x10FFFF && |upper| == 8
    ensures var s := Units(cp, upper);
      IsPiece(PieceOf(s)) && Written(PieceOf(s)) == TextOf(s) && Meant(PieceOf(s)) == Encode(cp)
  {
    PairIsCharacter(cp);
    EscapesArePair(0xD800 + (cp - 0x10000) / 0x400, 0xDC00 + (cp - 0x10000) % 0x400, upper[..4], upper[4..]);
  }

  lemma EscapesArePair(high: nat, low: nat, first: seq<bool>, second: seq<bool>)
    requires IsHighSurrogate(high) && IsLowSurrogate(low) && |first| == |second| == 4
    ensures var p := Paired(EscapeOf(high, first)[2..], EscapeOf(low, second)[2..]);
      && IsPiece(p) && Written(p) == EscapeOf(high, first) + EscapeOf(low, second)
      && Meant(p) == Encode(PairValue(high, low))
  {
    EscapeIsQuad(high, first);
    EscapeIsQuad(low, second);
    var a, b := EscapeOf(high, first), EscapeOf(low, second);
    assert a == [BACKSLASH, LOWER_U] + a[2..] && b == [BACKSLASH, LOWER_U] + b[2..];
  }

  lemma PairIsCharacter(cp: nat)
    requires 0x10000 <= cp <= 0x10FFFF
    ensures var high, low := 0xD800 + (cp - 0x10000) / 0x400, 0xDC00 + (cp - 0x10000) % 0x400;
      IsHighSurrogate(high) && IsLowSurrogate(low) && PairValue(high, low) == cp
  {
  }

  function SpelledOf(p: Piece): (s: Spelled)
    requires IsPiece(p)
  {
    match p
    case Plain(b) => Raw(b)
    case Short(c) => Spelled.Short(Unescaped(c).value)
    case Escaped(digits) => Units(HexValue(digits).value, CasesOf(digits))
    case Paired(high, low) =>
      Units(PairValue(HexValue(high).value, HexValue(low).value), CasesOf(high) + CasesOf(low))
  }

  lemma PieceIsSpelled(p: Piece)
    requires IsPiece(p)
    ensures IsSpelled(SpelledOf(p)) && TextOf(SpelledOf(p)) == Written(p) && BytesOf(SpelledOf(p)) == Meant(p)
  {
    match p
    case Plain(b) =>
    case Short(c) =>
    case Escaped(digits) =>
      QuadIsEscape(digits);
    case Paired(high, low) =>
      PairIsSpelled(high, low);
  }

  lemma PairIsSpelled(high: Text, low: Text)
    requires IsPiece(Paired(high, low))
    ensures var p := Paired(high, low);
      IsSpelled(SpelledOf(p)) && TextOf(SpelledOf(p)) == Written(p) && BytesOf(SpelledOf(p)) == Meant(p)
  {
    QuadIsEscape(high);
    QuadIsEscape(low);
    var h, l, upper := HexValue(high).value, HexValue(low).value, CasesOf(high) + CasesOf(low);
    assert upper[..4] == CasesOf(high) && upper[4..] == CasesOf(low);
    PairSplits(h, l);
    TextOfPair(PairValue(h, l), h, l, upper);
    assert Written(Paired(high, low)) == ([BACKSLASH, LOWER_U] + high) + ([BACKSLASH, LOWER_U] + low);
  }

  lemma TextOfPair(cp: nat, high: nat, low: nat, upper: seq<bool>)
    requires 0x10000 <= cp <= 0x10FFFF && |upper| == 8 && high <= 0xFFFF && low <= 0xFFFF
    requires 0xD800 + (cp - 0x10000) / 0x400 == high && 0xDC00 + (cp - 0x10000) % 0x400 == low
    ensures TextOf(Units(cp, upper)) == EscapeOf(high, upper[..4]) + EscapeOf(low, upper[4..])
  {
  }

  lemma PairSplits(high: nat, low: nat)
    requires IsHighSurrogate(high) && IsLowSurrogate(low)
    ensures var cp := PairValue(high, low);
      && 0x10000 <= cp <= 0x10FFFF
      && 0xD800 + (cp - 0x10000) / 0x400 == high && 0xDC00 + (cp - 0x10000) % 0x400 == low
  {
  }

  // --- Whole texts ----------------------------------------------------------------------------

  function PiecesOf(spelled: seq<Spelled>): (ps: seq<Piece>)
    requires AreSpelled(spelled)
    ensures |ps| == |spelled| && forall i :: 0 <= i < |ps| ==> ps[i] == PieceOf(spelled[i])
  {
    seq(|spelled|, i requires 0 <= i < |spelled| => PieceOf(spelled[i]))
  }

  lemma {:induction false} SpelledArePieces(spelled: seq<Spelled>)
    requires AreSpelled(spelled)
    ensures ArePieces(PiecesOf(spelled))
    ensures AllWritten(PiecesOf(spelled)) == AllText(spelled) && AllMeant(PiecesOf(spelled)) == AllBytes(spelled)
  {
    var ps := PiecesOf(spelled);
    forall i | 0 <= i < |ps| ensures IsPiece(ps[i]) {
      SpelledIsPiece(spelled[i]);
    }
    if spelled != [] {
      SpelledIsPiece(spelled[0]);
      SpelledArePieces(spelled[1..]);
      assert ps[1..] == PiecesOf(spelled[1..]);
    }
  }

  lemma {:induction false} PiecesAreSpelled(ps: seq<Piece>) returns (spelled: seq<Spelled>)
    requires ArePieces(ps)
    ensures AreSpelled(spelled) && AllText(spelled) == AllWritten(ps) && AllBytes(spelled) == AllMeant(ps)
  {
    if ps == [] {
      spelled := [];
    } else {
      var rest := PiecesAreSpelled(ps[1..]);
      PieceIsSpelled(ps[0]);
      spelled := [SpelledOf(ps[0])] + rest;
      assert spelled[1..] == rest;
    }
  }

  ghost predicate IsSpelling(text: Text, bytes: Text, spelled: seq<Spelled>) {
    AreSpelled(spelled) && AllText(spelled) == text && AllBytes(spelled) == bytes
  }

  // A text decodes to some bytes exactly if it spells them: bytes for themselves, short escapes,
  // and characters by their UTF-16 code units in digits of either case.
  lemma DecodesWhatIsSpelled(text: Text, bytes: Text)
    ensures Decoded(text) == Some(bytes) <==> exists spelled :: IsSpelling(text, bytes, spelled)
  {
    DecodesWhatIsWritten(text, bytes);
    if ps :| IsWriting(text, bytes, ps) {
      var spelled := PiecesAreSpelled(ps);
      assert IsSpelling(text, bytes, spelled);
    }
    forall spelled | IsSpelling(text, bytes, spelled) ensures exists ps :: IsWriting(text, bytes, ps) {
      SpelledArePieces(spelled);
      assert IsWriting(text, bytes, PiecesOf(spelled));
    }
  }

  // Every character is read from its UTF-16 code units, surrogate pairs included.
  lemma EveryCharacterIsRead(cp: nat, upper: seq<bool>)
    requires IsSpelled(Units(cp, upper))
    ensures Decoded(TextOf(Units(cp, upper))) == Some(Encode(cp))
  {
    var spelled := [Units(cp, upper)];
    assert spelled[1..] == [];
    assert AllText(spelled) == TextOf(spelled[0]) + [] && AllBytes(spelled) == BytesOf(spelled[0]) + [];
    assert IsSpelling(TextOf(spelled[0]), Encode(cp), spelled);
    DecodesWhatIsSpelled(TextOf(spelled[0]), Encode(cp));
  }

  // --- Fields ---------------------------------------------------------------------------------

  // The quoted name first stands at p, and only blanks and colons up to start.
  ghost predicate IsNamedAt(json: Text, field: Text, p: nat, start: nat) {
    && IsFirst(json, [0x22] + field + [0x22], p) && p + |field| + 2 <= start < |json|
    && forall k :: p + |field| + 2 <= k < start ==> json[k] in {0x09, 0x0A, 0x0D, 0x20, 0x3A}
  }

  // The text stands there in quotes.
  ghost predicate IsQuoted(json: Text, start: nat, text: Text) {
    && start + 1 + |text| < |json| && json[start] == 0x22 && json[start + 1 + |text|] == 0x22
    && json[start + 1..start + 1 + |text|] == text
  }

  // The name, and behind it a string in which no quote stands for itself.
  ghost predicate IsSpelledField(json: Text, field: Text, p: nat, start: nat, spelled: seq<Spelled>) {
    && IsNamedAt(json, field, p, start) && AreSpelled(spelled) && Raw(0x22) !in spelled
    && IsQuoted(json, start, AllText(spelled))
  }

  lemma NamedIsKey(json: Text, field: Text, p: nat, start: nat)
    ensures IsNamedAt(json, field, p, start) <==>
            IsFirst(json, Key(field), p) && p + |Key(field)| <= start < |json| &&
            forall k :: p + |Key(field)| <= k < start ==> IsBlank(json[k])
  {
    assert Key(field) == [0x22] + field + [0x22];
  }

  // However its value is spelled, a field is read where its name first occurs.
  lemma SpelledFieldIsRead(json: Text, field: Text, p: nat, start: nat, spelled: seq<Spelled>)
    requires IsSpelledField(json, field, p, start, spelled)
    ensures FieldOf(json, field) == Some(AllBytes(spelled))
  {
    SpelledArePieces(spelled);
    NamedIsKey(json, field, p, start);
    PiecesAreNoQuotes(spelled);
    QuotedPiecesAreRead(json, field, p, start, PiecesOf(spelled));
  }

  lemma PiecesAreNoQuotes(spelled: seq<Spelled>)
    requires AreSpelled(spelled) && Raw(0x22) !in spelled
    ensures Plain(QUOTE) !in PiecesOf(spelled)
  {
    var ps := PiecesOf(spelled);
    forall i | 0 <= i < |ps| ensures ps[i] != Plain(QUOTE) {
      assert spelled[i] in spelled;
    }
  }

  lemma QuotedPiecesAreRead(json: Text, field: Text, p: nat, start: nat, ps: seq<Piece>)
    requires IsFirst(json, Key(field), p) && p + |Key(field)| <= start < |json|
    requires forall k :: p + |Key(field)| <= k < start ==> IsBlank(json[k])
    requires ArePieces(ps) && Plain(QUOTE) !in ps && IsQuoted(json, start, AllWritten(ps))
    ensures FieldOf(json, field) == Some(AllMeant(ps))
  {
    SpellsSlice(json, start + 1, AllWritten(ps));
    RenderedFieldIsRead(json, field, p, start, ps);
  }

  lemma {:induction false} OnlyBlanksArePassed(json: Text, i: nat)
    requires i <= |json|
    ensures forall k :: i <= k < AfterBlanks(json, i) ==> IsBlank(json[k])
    decreases |json| - i
  {
    if i < |json| && IsBlank(json[i]) {
      OnlyBlanksArePassed(json, i + 1);
    }
  }

  lemma HeadIsNoQuote(json: Text, from: nat, s: Spelled, end: nat)
    requires IsSpelled(s) && Spells(json, from, TextOf(s)) && from + |TextOf(s)| <= end
    requires from < |json| && ClosingQuote(json, from, false) == Some(end)
    ensures s != Raw(0x22) && |TextOf(s)| > 0
  {
    SpellsSlice(json, from, TextOf(s));
    assert |TextOf(s)| > 0;
    assert json[from..from + |TextOf(s)|][0] == json[from];
  }

  lemma HeadIsPassed(json: Text, from: nat, s: Spelled, rest: Text, end: nat)
    requires IsSpelled(s) && Spells(json, from, TextOf(s) + rest) && end == from + |TextOf(s)| + |rest|
    requires from < |json| && ClosingQuote(json, from, false) == Some(end)
    ensures s != Raw(0x22) && Spells(json, from + |TextOf(s)|, rest) && from + |TextOf(s)| <= |json|
    ensures ClosingQuote(json, from + |TextOf(s)|, false) == Some(end)
  {
    SpellsBoth(json, from, TextOf(s), rest);
    HeadIsNoQuote(json, from, s, end);
    SpelledIsPiece(s);
    PieceIsPassed(json, from, PieceOf(s));
  }

  // The text stands at `from`, and the string ends right behind it.
  ghost predicate EndsWith(json: Text, from: nat, text: Text) {
    from <= |json| && Spells(json, from, text) && ClosingQuote(json, from, false) == Some(from + |text|)
  }

  lemma EndsLater(json: Text, from: nat, s: Spelled, rest: Text)
    requires IsSpelled(s) && EndsWith(json, from, TextOf(s) + rest)
    ensures s != Raw(0x22) && EndsWith(json, from + |TextOf(s)|, rest)
  {
    HeadIsPassed(json, from, s, rest, from + |TextOf(s)| + |rest|);
  }

  // A quote that stands for itself would have ended the string.
  lemma {:induction false} NoQuoteWithin(json: Text, from: nat, spelled: seq<Spelled>, text: Text)
    requires AreSpelled(spelled) && text == AllText(spelled) && EndsWith(json, from, text)
    ensures Raw(0x22) !in spelled
    decreases |spelled|
  {
    if spelled != [] {
      var head, tail := spelled[0], spelled[1..];
      var rest := AllText(tail);
      EndsLater(json, from, head, rest);
      NoQuoteWithin(json, from + |TextOf(head)|, tail, rest);
      assert spelled == [head] + tail;
    }
  }

  ghost predicate SpellsField(json: Text, field: Text, value: Text, p: nat, start: nat, spelled: seq<Spelled>) {
    IsSpelledField(json, field, p, start, spelled) && AllBytes(spelled) == value
  }

  // What is cut out of the text to be decoded.
  ghost predicate IsCut(json: Text, field: Text, p: nat, start: nat, raw: Text) {
    IsNamedAt(json, field, p, start) && IsQuoted(json, start, raw) && EndsWith(json, start + 1, raw)
  }

  lemma ReadIsCut(json: Text, field: Text) returns (p: nat, start: nat, raw: Text)
    requires FieldOf(json, field).Some?
    ensures IsCut(json, field, p, start, raw) && FieldOf(json, field) == Decoded(raw)
  {
    p := FindFrom(json, Key(field), 0).value;
    var from := p + |Key(field)|;
    start := AfterBlanks(json, from);
    OnlyBlanksArePassed(json, from);
    raw := StringAt(json, start).value;
    StringIsWithin(json, start, raw);
    NamedIsKey(json, field, p, start);
  }

  lemma StringIsWithin(json: Text, start: nat, raw: Text)
    requires start <= |json| && StringAt(json, start) == Some(raw)
    ensures IsQuoted(json, start, raw) && EndsWith(json, start + 1, raw)
  {
    SpellsSlice(json, start + 1, raw);
  }

  lemma CutIsSpelled(json: Text, field: Text, p: nat, start: nat, raw: Text, spelled: seq<Spelled>)
    requires IsCut(json, field, p, start, raw) && AreSpelled(spelled) && AllText(spelled) == raw
    ensures IsSpelledField(json, field, p, start, spelled)
  {
    NoQuoteWithin(json, start + 1, spelled, raw);
  }

  lemma ReadIsSpelled(json: Text, field: Text) returns (p: nat, start: nat, spelled: seq<Spelled>)
    requires FieldOf(json, field).Some?
    ensures SpellsField(json, field, FieldOf(json, field).value, p, start, spelled)
  {
    var raw;
    p, start, raw := ReadIsCut(json, field);
    DecodesWhatIsSpelled(raw, FieldOf(json, field).value);
    spelled :| IsSpelling(raw, FieldOf(json, field).value, spelled);
    CutIsSpelled(json, field, p, start, raw, spelled);
  }

  // A field is read exactly if behind the first occurrence of its name a string is spelled, and
  // its value is what that spells.
  lemma FieldIsWhatIsSpelled(json: Text, field: Text, value: Text)
    ensures FieldOf(json, field) == Some(value) <==>
            exists p: nat, start: nat, spelled :: SpellsField(json, field, value, p, start, spelled)
  {
    if FieldOf(json, field) == Some(value) {
      var p, start, spelled := ReadIsSpelled(json, field);
    }
    forall p: nat, start: nat, spelled | SpellsField(json, field, value, p, start, spelled)
      ensures FieldOf(json, field) == Some(value)
    {
      SpelledFieldIsRead(json, field, p, start, spelled);
    }
  }
}
