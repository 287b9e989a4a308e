/**
 * Finding a string field in JSON text by its name
 * (src/tensorrt_rtx_profiler_metadata.h:160-194).
 */
module JsonFields {
  import opened Options
  import opened Utf8
  import opened JsonStrings

  predicate Occurs(json: Text, key: Text, p: nat) {
    p + |key| <= |json| && json[p..p + |key|] == key
  }

  // The first occurrence at or after p.
  function FindFrom(json: Text, key: Text, p: nat): (at: Option<nat>)
    ensures at.Some? ==> at.value >= p && Occurs(json, key, at.value)
    ensures at.Some? ==> forall q :: p <= q < at.value ==> !Occurs(json, key, q)
    ensures at.None? ==> forall q :: p <= q ==> !Occurs(json, key, q)
    decreases |json| - p
  {
    if p + |key| > |json| then None
    else if Occurs(json, key, p) then Some(p)
    else if p == |json| then None
    else FindFrom(json, key, p + 1)
  }

  // White space, and the colon between name and value.
  predicate IsBlank(b: Byte) {
    b == 0x20 || b == 0x09 || b == 0x0A || b == 0x0D || b == 0x3A
  }

  function AfterBlanks(json: Text, i: nat): (j: nat)
    requires i <= |json|
    ensures i <= j <= |json| && (j < |json| ==> !IsBlank(json[j]))
    decreases |json| - i
  {
    if i == |json| || !IsBlank(json[i]) then i else AfterBlanks(json, i + 1)
  }

  // The first quote that no backslash escapes.
  function ClosingQuote(json: Text, i: nat, escaped: bool): (end: Option<nat>)
    requires i <= |json|
    ensures end.Some? ==> i <= end.value < |json| && json[end.value] == QUOTE
    decreases |json| - i
  {
    if i == |json| then None
    else if !escaped && json[i] == QUOTE then Some(i)
    else ClosingQuote(json, i + 1, !escaped && json[i] == BACKSLASH)
  }

  function Key(field: Text): (key: Text) {
    [QUOTE] + field + [QUOTE]
  }

  // What stands between the quotes.
  function StringAt(json: Text, start: nat): (raw: Option<Text>)
    requires start <= |json|
  {
    if start == |json| || json[start] != QUOTE then None
    else
      var end := ClosingQuote(json, start + 1, false);
      if end.None? then None else Some(json[start + 1..end.value])
  }

  // The string after the name that stands at p.
  function RawValueAt(json: Text, field: Text, p: nat): (raw: Option<Text>)
    requires Occurs(json, Key(field), p)
  {
    StringAt(json, AfterBlanks(json, p + |Key(field)|))
  }

  function RawFieldOf(json: Text, field: Text): (raw: Option<Text>) {
    var at := FindFrom(json, Key(field), 0);
    if at.None? then None else RawValueAt(json, field, at.value)
  }

  function FieldOf(json: Text, field: Text): (value: Option<Text>) {
    var raw := RawFieldOf(json, field);
    if raw.None? then None else Decoded(raw.value)
  }

  method SkipBlanks(json: Text, from: nat) returns (start: nat)
    requires from <= |json|
    ensures start == AfterBlanks(json, from)
  {
    start := from;
    while start < |json| && IsBlank(json[start])
      invariant from <= start <= |json| && AfterBlanks(json, from) == AfterBlanks(json, start)
    {
      start := start + 1;
    }
  }

  method FindClosingQuote(json: Text, start: nat) returns (closing: Option<nat>)
    requires start <= |json|
    ensures closing == ClosingQuote(json, start, false)
  {
    var end, escaped := start, false;
    while end < |json|
      invariant start <= end <= |json|
      invariant ClosingQuote(json, start, false) == ClosingQuote(json, end, escaped)
    {
      if !escaped && json[end] == QUOTE {
        return Some(end);
      }
      escaped := !escaped && json[end] == BACKSLASH;
      end := end + 1;
    }
    closing := None;
  }

  method CutString(json: Text, start: nat) returns (raw: Option<Text>)
    requires start <= |json|
    ensures raw == StringAt(json, start)
  {
    if start == |json| || json[start] != QUOTE {
      return None;
    }
    var end := FindClosingQuote(json, start + 1);
    raw := if end.None? then None else Some(json[start + 1..end.value]);
  }

  method GetJsonStringField(json: Text, field: Text) returns (value: Option<Text>)
    ensures value == FieldOf(json, field)
  {
    var key := Key(field);
    var at := FindFrom(json, key, 0);
    if at.None? {
      return None;
    }
    var start := SkipBlanks(json, at.value + |key|);
    var raw := CutString(json, start);
    if raw.None? {
      return None;
    }
    value := DecodeJsonString(raw.value);
  }

  // --- Reading what was written ---------------------------------------------------------------

  lemma {:induction false} BlanksAreSkipped(json: Text, i: nat, n: nat)
    requires i + n < |json| && !IsBlank(json[i + n]) && forall k :: i <= k < i + n ==> IsBlank(json[k])
    ensures AfterBlanks(json, i) == i + n
    decreases n
  {
    if n > 0 {
      BlanksAreSkipped(json, i + 1, n - 1);
    }
  }

  predicate IsOrdinary(b: Byte) {
    b != QUOTE && b != BACKSLASH
  }

  lemma {:induction false} OrdinaryIsPassed(json: Text, i: nat, n: nat)
    requires i + n <= |json| && forall k :: i <= k < i + n ==> IsOrdinary(json[k])
    ensures ClosingQuote(json, i, false) == ClosingQuote(json, i + n, false)
    decreases n
  {
    if n > 0 {
      OrdinaryIsPassed(json, i + 1, n - 1);
    }
  }

  lemma {:induction false} QuadIsOrdinary(digits: Text)
    requires HexValue(digits).Some?
    ensures forall k :: 0 <= k < |digits| ==> IsOrdinary(digits[k])
  {
    if digits != [] {
      var last := |digits| - 1;
      QuadIsOrdinary(digits[..last]);
      forall k | 0 <= k < |digits| ensures IsOrdinary(digits[k]) {
        assert k < last ==> digits[k] == digits[..last][k];
      }
    }
  }

  lemma EscapeIsPassed(json: Text, i: nat, digits: Text)
    requires IsQuad(digits) && Spells(json, i, [BACKSLASH, LOWER_U] + digits)
    ensures ClosingQuote(json, i, false) == ClosingQuote(json, i + 6, false)
  {
    SpellsEscape(json, i, digits);
    QuadIsOrdinary(digits);
    forall k | i + 2 <= k < i + 6 ensures IsOrdinary(json[k]) {
      assert json[k] == json[i + 2..i + 6][k - i - 2];
    }
    OrdinaryIsPassed(json, i + 2, 4);
  }

  // No piece ends the string but a quote that stands for itself.
  lemma PieceIsPassed(json: Text, i: nat, p: Piece)
    requires IsPiece(p) && p != Plain(QUOTE) && Spells(json, i, Written(p))
    ensures ClosingQuote(json, i, false) == ClosingQuote(json, i + |Written(p)|, false)
  {
    match p
    case Plain(b) =>
      SpellsSlice(json, i, [b]);
    case Short(c) =>
      SpellsTwo(json, i, BACKSLASH, c);
    case Escaped(digits) =>
      EscapeIsPassed(json, i, digits);
    case Paired(high, low) =>
      var first, second := [BACKSLASH, LOWER_U] + high, [BACKSLASH, LOWER_U] + low;
      assert Written(p) == first + second;
      SpellsBoth(json, i, first, second);
      EscapeIsPassed(json, i, high);
      EscapeIsPassed(json, i + 6, low);
  }

  lemma {:induction false} PiecesArePassed(json: Text, i: nat, ps: seq<Piece>)
    requires ArePieces(ps) && Plain(QUOTE) !in ps && Spells(json, i, AllWritten(ps))
    ensures ClosingQuote(json, i, false) == ClosingQuote(json, i + |AllWritten(ps)|, false)
    decreases |ps|
  {
    if ps != [] {
      var w, rest := Written(ps[0]), AllWritten(ps[1..]);
      assert ps[0] in ps;
      SpellsBoth(json, i, w, rest);
      PieceIsPassed(json, i, ps[0]);
      PiecesArePassed(json, i + |w|, ps[1..]);
    }
  }

  // The field's name stands at p, and the opening quote of its value at start, blanks between them;
  // the value is written piece by piece.
  ghost predicate IsRendered(json: Text, field: Text, p: nat, start: nat, ps: seq<Piece>) {
    && Occurs(json, Key(field), p) && p + |Key(field)| <= start < |json| && json[start] == QUOTE
    && (forall k :: p + |Key(field)| <= k < start ==> IsBlank(json[k]))
    && ArePieces(ps) && Plain(QUOTE) !in ps && Spells(json, start + 1, AllWritten(ps))
    && start + 1 + |AllWritten(ps)| < |json| && json[start + 1 + |AllWritten(ps)|] == QUOTE
  }

  lemma ClosingIsFound(json: Text, i: nat, ps: seq<Piece>, end: nat)
    requires ArePieces(ps) && Plain(QUOTE) !in ps && Spells(json, i, AllWritten(ps)) && end == i + |AllWritten(ps)|
    requires end < |json| && json[end] == QUOTE
    ensures ClosingQuote(json, i, false) == Some(end)
  {
    PiecesArePassed(json, i, ps);
  }

  lemma WritingDecodes(w: Text, ps: seq<Piece>)
    requires ArePieces(ps) && w == AllWritten(ps)
    ensures Decoded(w) == Some(AllMeant(ps))
  {
    assert IsWriting(w, AllMeant(ps), ps);
    DecodesWhatIsWritten(w, AllMeant(ps));
  }

  lemma StringIsCut(json: Text, start: nat, w: Text, end: nat)
    requires start < |json| && json[start] == QUOTE && ClosingQuote(json, start + 1, false) == Some(end)
    requires Spells(json, start + 1, w) && end == start + 1 + |w|
    ensures StringAt(json, start) == Some(w)
  {
    var from := start + 1;
    SpellsSlice(json, from, w);
    assert json[from..end] == w;
  }

  // Where the field's name first occurs as its name, what its value means is read, however the
  // value is escaped.
  lemma RenderedFieldIsRead(json: Text, field: Text, p: nat, start: nat, ps: seq<Piece>)
    requires IsRendered(json, field, p, start, ps) && forall q :: 0 <= q < p ==> !Occurs(json, Key(field), q)
    ensures FieldOf(json, field) == Some(AllMeant(ps))
  {
    var w, end := AllWritten(ps), start + 1 + |AllWritten(ps)|;
    ClosingIsFound(json, start + 1, ps, end);
    StringIsCut(json, start, w, end);
    WritingDecodes(w, ps);
    FieldIsAt(json, field, p, start);
  }

  lemma FieldIsAt(json: Text, field: Text, p: nat, start: nat)
    requires Occurs(json, Key(field), p) && forall q :: 0 <= q < p ==> !Occurs(json, Key(field), q)
    requires p + |Key(field)| <= start < |json| && json[start] == QUOTE
    requires forall k :: p + |Key(field)| <= k < start ==> IsBlank(json[k])
    ensures RawFieldOf(json, field) == StringAt(json, start)
  {
    FirstIsFound(json, Key(field), p);
    var from := p + |Key(field)|;
    BlanksAreSkipped(json, from, start - from);
  }

  // For every byte string, reading a field that holds it escaped gives it back.
  lemma EscapedFieldIsRead(json: Text, field: Text, p: nat, start: nat, t: Text)
    requires IsRendered(json, field, p, start, EscapedText(t))
    requires forall q :: 0 <= q < p ==> !Occurs(json, Key(field), q)
    ensures FieldOf(json, field) == Some(t)
  {
    EscapedTextMeans(t);
    RenderedFieldIsRead(json, field, p, start, EscapedText(t));
  }

  lemma FirstIsFound(json: Text, key: Text, p: nat)
    requires Occurs(json, key, p) && forall q :: 0 <= q < p ==> !Occurs(json, key, q)
    ensures FindFrom(json, key, 0) == Some(p)
  {
    var at := FindFrom(json, key, 0);
    assert at.Some? && Occurs(json, key, at.value);
    assert !(p < at.value) && !(at.value < p);
  }

  // A name at p is the one that is located just when it stands nowhere before.
  lemma LocatedIsFirst(json: Text, key: Text, p: nat)
    requires Occurs(json, key, p)
    ensures FindFrom(json, key, 0) == Some(p) <==> forall q :: 0 <= q < p ==> !Occurs(json, key, q)
  {
    if forall q :: 0 <= q < p ==> !Occurs(json, key, q) {
      FirstIsFound(json, key, p);
    }
  }

  ghost predicate IsFirst(json: Text, key: Text, p: nat) {
    Occurs(json, key, p) && forall q :: 0 <= q < p ==> !Occurs(json, key, q)
  }

  // In any text the value read is the one behind the first occurrence of the name, whatever that
  // occurrence is part of; without an occurrence there is none.
  lemma FirstOccurrenceIsRead(json: Text, field: Text)
    ensures (forall p: nat :: !Occurs(json, Key(field), p)) ==> FieldOf(json, field) == None
    ensures forall p: nat :: IsFirst(json, Key(field), p) ==> RawFieldOf(json, field) == RawValueAt(json, field, p)
  {
    forall p: nat | IsFirst(json, Key(field), p) ensures RawFieldOf(json, field) == RawValueAt(json, field, p) {
      FirstIsFound(json, Key(field), p);
    }
  }

  // That the name must not occur earlier cannot be dropped: the search does not tell names from
  // values. In {"a":"b","b":"c"} the field "b" is not found.
  lemma EarlierValueHidesField()
    ensures FieldOf([0x7B, 0x22, 0x61, 0x22, 0x3A, 0x22, 0x62, 0x22, 0x2C, 0x22, 0x62, 0x22, 0x3A, 0x22, 0x63, 0x22, 0x7D],
                    [0x62]) == None
  {
    var json: Text :=
      [0x7B, 0x22, 0x61, 0x22, 0x3A, 0x22, 0x62, 0x22, 0x2C, 0x22, 0x62, 0x22, 0x3A, 0x22, 0x63, 0x22, 0x7D];
    var key := Key([0x62]);
    assert json[5..8] == key;
    assert Occurs(json, key, 5);
    forall p | 0 <= p < 5 ensures !Occurs(json, key, p) {
      assert json[p..p + 3][1] == json[p + 1];
      assert key[1] == 0x62;
    }
    FirstIsFound(json, key, 5);
    assert AfterBlanks(json, 8) == 8;
  }
}
