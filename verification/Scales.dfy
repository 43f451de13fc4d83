/** Reading a scale's lines: framing, the three dialects and the exact number scanner. Text is UTF-8 bytes. */
module Scales {
  import opened Wire
  import opened Utf8
  import opened Decimals
  import opened Names

  datatype Protocol = Generic | Cas | MassaK
  datatype Stability = Stable | Unstable | Overload | Underload
  datatype Measure = Gross | Net | Unknown
  datatype Unit = Kilogram | Gram | Pound

  type Text = seq<byte>

  /** An exact decimal number with its unit: the integer `scaled` with the point `decimals` places from its end. */
  datatype Reading = Reading(scaled: i64, decimals: nat, unit: Unit, stability: Stability, measure: Measure)

  datatype Frame = ReadingFrame(reading: Reading) | Garbage | Incomplete

  datatype Parsed = Parsed(frame: Frame, consumed: nat)

  const CR: byte := 13
  const LF: byte := 10
  const SPACE: byte := 32
  const TAB: byte := 9
  const COMMA: byte := 44
  const DOT: byte := 46
  const PLUS: byte := 43
  const MINUS: byte := 45
  const DOLLAR: byte := 36
  const TILDE: byte := 126
  const UPPER_M: byte := 77

  predicate IsTerminator(b: byte) {
    b == CR || b == LF
  }

  predicate IsDigit(b: byte) {
    48 <= b <= 57
  }

  predicate IsLetter(b: byte) {
    65 <= b <= 90 || 97 <= b <= 122
  }

  predicate IsBlank(b: byte) {
    b == SPACE || b == TAB
  }

  predicate IsWordByte(b: byte) {
    IsDigit(b) || IsLetter(b) || b == 95
  }

  // ---------------------------------------------------------------------
  // Trimming
  // ---------------------------------------------------------------------

  /** The UTF-8 forms of the characters Unicode calls White_Space. */
  predicate IsSpaceChar(c: Text) {
    || (|c| == 1 && (9 <= c[0] <= 13 || c[0] == 32))
    || (|c| == 2 && c[0] == 0xC2 && (c[1] == 0x85 || c[1] == 0xA0))
    || (|c| == 3 && c[0] == 0xE1 && c[1] == 0x9A && c[2] == 0x80)
    || (|c| == 3 && c[0] == 0xE2 && c[1] == 0x80
        && (0x80 <= c[2] <= 0x8A || c[2] == 0xA8 || c[2] == 0xA9 || c[2] == 0xAF))
    || (|c| == 3 && c[0] == 0xE2 && c[1] == 0x81 && c[2] == 0x9F)
    || (|c| == 3 && c[0] == 0xE3 && c[1] == 0x80 && c[2] == 0x80)
  }

  /** How many bytes of white space a text starts with, as one character; 0 when it starts with something else. */
  function SpaceAtStart(s: Text): (n: nat)
    ensures n <= |s|
  {
    if |s| >= 1 && IsSpaceChar(s[..1]) then 1
    else if |s| >= 2 && IsSpaceChar(s[..2]) then 2
    else if |s| >= 3 && IsSpaceChar(s[..3]) then 3
    else 0
  }

  function SpaceAtEnd(s: Text): (n: nat)
    ensures n <= |s|
  {
    if |s| >= 1 && IsSpaceChar(s[|s| - 1..]) then 1
    else if |s| >= 2 && IsSpaceChar(s[|s| - 2..]) then 2
    else if |s| >= 3 && IsSpaceChar(s[|s| - 3..]) then 3
    else 0
  }

  function TrimStart(s: Text): Text
    decreases |s|
  {
    if SpaceAtStart(s) == 0 then s else TrimStart(s[SpaceAtStart(s)..])
  }

  function TrimEnd(s: Text): Text
    decreases |s|
  {
    if SpaceAtEnd(s) == 0 then s else TrimEnd(s[..|s| - SpaceAtEnd(s)])
  }

  function Trim(s: Text): Text {
    TrimEnd(TrimStart(s))
  }

  // ---------------------------------------------------------------------
  // Numbers
  // ---------------------------------------------------------------------

  /** Whether a fraction is required: on a whole line, but not in a field the delimiters isolated. */
  datatype Scan = WholeLine | Field

  datatype Number = Number(scaled: i64, decimals: nat, end: nat)

  function DigitsEnd(s: Text, j: nat): (k: nat)
    requires j <= |s|
    ensures j <= k <= |s|
    decreases |s| - j
  {
    if j < |s| && IsDigit(s[j]) then DigitsEnd(s, j + 1) else j
  }

  function BlanksEnd(s: Text, j: nat): (k: nat)
    requires j <= |s|
    ensures j <= k <= |s|
    decreases |s| - j
  {
    if j < |s| && IsBlank(s[j]) then BlanksEnd(s, j + 1) else j
  }

  function LettersEnd(s: Text, j: nat): (k: nat)
    requires j <= |s|
    ensures j <= k <= |s|
    decreases |s| - j
  {
    if j < |s| && IsLetter(s[j]) then LettersEnd(s, j + 1) else j
  }

  predicate IsSign(b: byte) {
    b == PLUS || b == MINUS
  }

  /** Where the digits of a number starting at `i` begin: behind a sign there may be blanks first. */
  function DigitsStart(s: Text, i: nat): (k: nat)
    requires i < |s|
    ensures i <= k <= |s|
  {
    if IsSign(s[i]) then BlanksEnd(s, i + 1) else i
  }

  /** Where a number whose integer part ends at `j` ends: past its fraction when it has one. */
  function FractionEnd(s: Text, j: nat): (k: nat)
    requires j <= |s|
    ensures j <= k <= |s|
  {
    if j < |s| && (s[j] == DOT || s[j] == COMMA) && DigitsEnd(s, j + 1) > j + 1 then DigitsEnd(s, j + 1) else j
  }

  /** The digits of the integer part ending at `j` and of the fraction ending at `k`. */
  function NumberDigits(s: Text, from: nat, j: nat, k: nat): Text
    requires from <= j <= k <= |s|
  {
    s[from..j] + (if k > j then s[j + 1..k] else [])
  }

  /** `parse::<i64>` on the reassembled digits. */
  function Signed(negative: bool, digits: Text): Option<i64> {
    var v := if negative then -Value(digits) else Value(digits);
    if -0x8000_0000_0000_0000 <= v < 0x8000_0000_0000_0000 then Some(v) else None
  }

  /** Whether a number stands at `i`. */
  predicate MatchesAt(s: Text, scan: Scan, i: nat)
    requires i < |s|
  {
    var from := DigitsStart(s, i);
    var j := DigitsEnd(s, from);
    j > from && (scan == WholeLine ==> FractionEnd(s, j) > j)
  }

  function NumberAt(s: Text, i: nat): Option<Number>
    requires i < |s|
  {
    var from := DigitsStart(s, i);
    var j := DigitsEnd(s, from);
    var k := FractionEnd(s, j);
    match Signed(s[i] == MINUS, NumberDigits(s, from, j, k))
    case None => None
    case Some(v) => Some(Number(v, if k > j then k - j - 1 else 0, k))
  }

  /** The leftmost position from `i` on where a number stands, or the length. */
  function FirstMatch(s: Text, scan: Scan, i: nat): (k: nat)
    requires i <= |s|
    ensures i <= k <= |s|
    ensures forall p :: i <= p < k ==> !MatchesAt(s, scan, p)
    ensures k < |s| ==> MatchesAt(s, scan, k)
    decreases |s| - i
  {
    if i == |s| || MatchesAt(s, scan, i) then i else FirstMatch(s, scan, i + 1)
  }

  /** The number at the leftmost match, if there is one and it fits in 64 bits. */
  function Scanned(s: Text, scan: Scan): Option<Number> {
    var i := FirstMatch(s, scan, 0);
    if i == |s| then None else NumberAt(s, i)
  }

  lemma {:induction false} DigitsEndAll(s: Text, j: nat, p: nat)
    requires j <= |s| && j <= p <= DigitsEnd(s, j)
    ensures forall q :: j <= q < p ==> IsDigit(s[q])
    ensures DigitsEnd(s, p) == DigitsEnd(s, j)
    decreases p - j
  {
    if j < p {
      DigitsEndAll(s, j + 1, p);
    }
  }

  lemma {:induction false} BlanksEndAll(s: Text, j: nat, p: nat)
    requires j <= |s| && j <= p <= BlanksEnd(s, j)
    ensures forall q :: j <= q < p ==> IsBlank(s[q])
    decreases p - j
  {
    if j < p {
      BlanksEndAll(s, j + 1, p);
    }
  }

  /** After a bare integer on a whole line the scanner jumps past it; nothing it jumps over could have matched. */
  lemma {:induction false} NothingSkipped(s: Text, i: nat, p: nat)
    requires i < |s| && !MatchesAt(s, WholeLine, i) && DigitsEnd(s, DigitsStart(s, i)) > DigitsStart(s, i)
    requires i <= p < DigitsEnd(s, DigitsStart(s, i))
    ensures !MatchesAt(s, WholeLine, p)
  {
    var from := DigitsStart(s, i);
    if p > i && p < from {
      BlanksEndAll(s, i + 1, from);
      assert IsBlank(s[p]);
      assert DigitsEnd(s, p) == p;
    } else if p >= from {
      DigitsEndAll(s, from, p);
      DigitsEndAll(s, from, p + 1);
      assert IsDigit(s[p]);
    }
  }

  lemma {:induction false} SkipTo(s: Text, scan: Scan, i: nat, j: nat)
    requires i <= j <= |s| && forall p :: i <= p < j ==> !MatchesAt(s, scan, p)
    ensures FirstMatch(s, scan, i) == FirstMatch(s, scan, j)
    decreases j - i
  {
    if i < j {
      SkipTo(s, scan, i + 1, j);
    }
  }

  method ScanDigits(s: Text, start: nat) returns (j: nat)
    requires start <= |s|
    ensures j == DigitsEnd(s, start)
  {
    j := start;
    while j < |s| && IsDigit(s[j])
      invariant start <= j <= |s| && DigitsEnd(s, j) == DigitsEnd(s, start)
    {
      j := j + 1;
    }
  }

  method ScanBlanks(s: Text, start: nat) returns (j: nat)
    requires start <= |s|
    ensures j == BlanksEnd(s, start)
  {
    j := start;
    while j < |s| && IsBlank(s[j])
      invariant start <= j <= |s| && BlanksEnd(s, j) == BlanksEnd(s, start)
    {
      j := j + 1;
    }
  }

  method ScanFraction(s: Text, j: nat) returns (k: nat)
    requires j <= |s|
    ensures k == FractionEnd(s, j)
  {
    k := j;
    if j < |s| && (s[j] == DOT || s[j] == COMMA) {
      var fracStart := j + 1;
      var fracEnd := ScanDigits(s, fracStart);
      if fracEnd > fracStart {
        k := fracEnd;
      }
    }
  }

  method ScanNumber(s: Text, scan: Scan) returns (n: Option<Number>)
    ensures n == Scanned(s, scan)
  {
    hide DigitsEnd, BlanksEnd, FractionEnd, Signed, Value;
    var requireFraction := scan == WholeLine;
    var i := 0;
    while i < |s|
      invariant i <= |s| && FirstMatch(s, scan, i) == FirstMatch(s, scan, 0)
    {
      var start := i;
      var negative := s[i] == MINUS;
      var digitsStart := i;
      if IsSign(s[i]) {
        digitsStart := ScanBlanks(s, i + 1);
      }
      var intEnd := ScanDigits(s, digitsStart);
      if intEnd == digitsStart {
        i := start + 1;
        continue;
      }
      var j := ScanFraction(s, intEnd);
      if requireFraction && j == intEnd {
        forall p | i <= p < j ensures !MatchesAt(s, scan, p) {
          NothingSkipped(s, i, p);
        }
        i := if j > start + 1 then j else start + 1;
        SkipTo(s, scan, start, i);
        continue;
      }
      var scaled := Signed(negative, NumberDigits(s, digitsStart, intEnd, j));
      if scaled == None {
        return None;
      }
      return Some(Number(scaled.value, if j > intEnd then j - intEnd - 1 else 0, j));
    }
    return None;
  }

  // ---------------------------------------------------------------------
  // Units and words
  // ---------------------------------------------------------------------

  /** `g`, `gs`, `lb` and `lbs` are known; an unstated or unknown unit is kilograms. */
  function UnitNamed(letters: Text): Unit {
    if letters == [103] || letters == [103, 115] then Gram
    else if letters == [108, 98] || letters == [108, 98, 115] then Pound
    else Kilogram
  }

  function UnitAfter(s: Text, from: nat): Unit {
    var at := BlanksEnd(s, if from < |s| then from else |s|);
    UnitNamed(FoldLabel(s[at..LettersEnd(s, at)]))
  }

  method ScanUnitAfter(s: Text, from: nat) returns (u: Unit)
    ensures u == UnitAfter(s, from)
  {
    var i := ScanBlanks(s, if from < |s| then from else |s|);
    var start := i;
    while i < |s| && IsLetter(s[i])
      invariant start <= i <= |s| && LettersEnd(s, i) == LettersEnd(s, start)
    {
      i := i + 1;
    }
    return UnitNamed(FoldLabel(s[start..i]));
  }

  predicate WordAt(s: Text, word: Text, i: nat)
    requires i + |word| <= |s|
  {
    && s[i..i + |word|] == word
    && (i == 0 || !IsWordByte(s[i - 1]))
    && (i + |word| == |s| || !IsWordByte(s[i + |word|]))
  }

  /** `word` stands in `s` touching no letter, digit or underscore. */
  predicate ContainsWord(s: Text, word: Text) {
    word != [] && exists i :: 0 <= i <= |s| - |word| && WordAt(s, word, i)
  }

  method FindWord(s: Text, word: Text) returns (found: bool)
    ensures found <==> ContainsWord(s, word)
  {
    if word == [] || |s| < |word| {
      return false;
    }
    for i := 0 to |s| - |word| + 1
      invariant forall p :: 0 <= p < i ==> !WordAt(s, word, p)
    {
      if s[i..i + |word|] != word {
        continue;
      }
      var beforeFree := i == 0 || !IsWordByte(s[i - 1]);
      var after := i + |word|;
      var afterFree := after == |s| || !IsWordByte(s[after]);
      if beforeFree && afterFree {
        assert WordAt(s, word, i);
        return true;
      }
    }
    return false;
  }

  // ---------------------------------------------------------------------
  // The three dialects
  // ---------------------------------------------------------------------

  const OL: Text := [79, 76]
  const ST: Text := [83, 84]
  const UL: Text := [85, 76]
  const GS: Text := [71, 83]
  const NT: Text := [78, 84]

  /** What an off-scale line gives: zero kilograms, and only its stability and measure mean anything. */
  function OverloadReading(stability: Stability, measure: Measure): Reading {
    Reading(0, 0, Kilogram, stability, measure)
  }

  function ReadGeneric(line: Text): Option<Reading> {
    if ContainsWord(line, OL) then Some(OverloadReading(Overload, Unknown))
    else
      match Scanned(line, WholeLine)
      case None => None
      case Some(n) =>
        var stability := if TILDE in line || UPPER_M in line then Unstable else Stable;
        Some(Reading(n.scaled, n.decimals, UnitAfter(line, n.end), stability, Unknown))
  }

  function FindComma(s: Text): (i: nat)
    ensures i <= |s|
    ensures forall j :: 0 <= j < i ==> s[j] != 44
    ensures i < |s| ==> s[i] == 44
  {
    if s == [] || s[0] == COMMA then 0 else 1 + FindComma(s[1..])
  }

  /** `splitn(3, ',')`: at most three parts, the third keeping its commas. */
  function SplitThree(s: Text): (parts: seq<Text>)
    ensures 1 <= |parts| <= 3
  {
    var a := FindComma(s);
    if a == |s| then [s]
    else
      var rest := s[a + 1..];
      var b := FindComma(rest);
      if b == |rest| then [s[..a], rest] else [s[..a], rest[..b], rest[b + 1..]]
  }

  function CasStability(status: Text): Stability {
    if LabelsEqual(status, ST) then Stable
    else if LabelsEqual(status, OL) then Overload
    else if LabelsEqual(status, UL) then Underload
    else Unstable
  }

  function CasMeasure(parts: seq<Text>): Measure {
    if |parts| < 2 then Unknown
    else if Trim(parts[1]) == GS then Gross
    else if Trim(parts[1]) == NT then Net
    else Unknown
  }

  function FieldReading(field: Text, stability: Stability, measure: Measure): Option<Reading> {
    match Scanned(field, Field)
    case None => None
    case Some(n) => Some(Reading(n.scaled, n.decimals, UnitAfter(field, n.end), stability, measure))
  }

  function ReadCas(line: Text): Option<Reading> {
    var parts := SplitThree(line);
    var stability := CasStability(Trim(parts[0]));
    var measure := CasMeasure(parts);
    if stability == Overload || stability == Underload then Some(OverloadReading(stability, measure))
    else if |parts| < 3 then None
    else FieldReading(Trim(parts[2]), stability, measure)
  }

  function ReadMassaK(line: Text): Option<Reading> {
    var marked := line != [] && line[0] == DOLLAR;
    FieldReading(Trim(if marked then line[1..] else line), if marked then Stable else Unstable, Unknown)
  }

  function ReadLine(protocol: Protocol, line: Text): Option<Reading> {
    if !IsUtf8(line) then None
    else
      var trimmed := Trim(line);
      if trimmed == [] then None
      else
        match protocol
        case Generic => ReadGeneric(trimmed)
        case Cas => ReadCas(trimmed)
        case MassaK => ReadMassaK(trimmed)
  }

  method ParseGeneric(line: Text) returns (r: Option<Reading>)
    ensures r == ReadGeneric(line)
  {
    var over := FindWord(line, OL);
    if over {
      return Some(OverloadReading(Overload, Unknown));
    }
    var number := ScanNumber(line, WholeLine);
    if number == None {
      return None;
    }
    var stability := if TILDE in line || UPPER_M in line then Unstable else Stable;
    var unit := ScanUnitAfter(line, number.value.end);
    return Some(Reading(number.value.scaled, number.value.decimals, unit, stability, Unknown));
  }

  method ParseField(field: Text, stability: Stability, measure: Measure) returns (r: Option<Reading>)
    ensures r == FieldReading(field, stability, measure)
  {
    var number := ScanNumber(field, Field);
    if number == None {
      return None;
    }
    var unit := ScanUnitAfter(field, number.value.end);
    return Some(Reading(number.value.scaled, number.value.decimals, unit, stability, measure));
  }

  method ParseCas(line: Text) returns (r: Option<Reading>)
    ensures r == ReadCas(line)
  {
    var parts := SplitThree(line);
    var stability := CasStability(Trim(parts[0]));
    var measure := CasMeasure(parts);
    if stability == Overload || stability == Underload {
      return Some(OverloadReading(stability, measure));
    }
    if |parts| < 3 {
      return None;
    }
    r := ParseField(Trim(parts[2]), stability, measure);
  }

  method ParseMassaK(line: Text) returns (r: Option<Reading>)
    ensures r == ReadMassaK(line)
  {
    if line != [] && line[0] == DOLLAR {
      r := ParseField(Trim(line[1..]), Stable, Unknown);
    } else {
      r := ParseField(Trim(line), Unstable, Unknown);
    }
  }

  method ParseLine(protocol: Protocol, line: Text) returns (r: Option<Reading>)
    ensures r == ReadLine(protocol, line)
  {
    if !IsUtf8(line) {
      return None;
    }
    var trimmed := Trim(line);
    if trimmed == [] {
      return None;
    }
    match protocol {
      case Generic => r := ParseGeneric(trimmed);
      case Cas => r := ParseCas(trimmed);
      case MassaK => r := ParseMassaK(trimmed);
    }
  }

  // ---------------------------------------------------------------------
  // Framing
  // ---------------------------------------------------------------------

  function LineEnd(data: Text, i: nat): (k: nat)
    requires i <= |data|
    ensures i <= k <= |data|
    ensures forall j :: i <= j < k ==> !IsTerminator(data[j])
    ensures k < |data| ==> IsTerminator(data[k])
    decreases |data| - i
  {
    if i == |data| || IsTerminator(data[i]) then i else LineEnd(data, i + 1)
  }

  function TerminatorsEnd(data: Text, i: nat): (k: nat)
    requires i <= |data|
    ensures i <= k <= |data|
    ensures forall j :: i <= j < k ==> IsTerminator(data[j])
    decreases |data| - i
  {
    if i < |data| && IsTerminator(data[i]) then TerminatorsEnd(data, i + 1) else i
  }

  function FrameOf(protocol: Protocol, line: Text): Frame {
    match ReadLine(protocol, line) case Some(r) => ReadingFrame(r) case None => Garbage
  }

  /** The first line of `data`; `consumed` covers it and every terminator up to the next line. */
  function ParseFrame(protocol: Protocol, data: Text): (p: Parsed)
    ensures p.consumed <= |data|
    ensures p.frame == Incomplete <==> p.consumed == 0
    ensures p.frame == Incomplete <==> forall j :: 0 <= j < |data| ==> data[j] != 13 && data[j] != 10
  {
    var end := LineEnd(data, 0);
    if end == |data| then Parsed(Incomplete, 0)
    else Parsed(FrameOf(protocol, data[..end]), TerminatorsEnd(data, end))
  }

  method Parse(protocol: Protocol, data: Text) returns (p: Parsed)
    ensures p == ParseFrame(protocol, data)
  {
    var end := 0;
    while end < |data| && !IsTerminator(data[end])
      invariant end <= |data| && LineEnd(data, end) == LineEnd(data, 0)
    {
      end := end + 1;
    }
    if end == |data| {
      return Parsed(Incomplete, 0);
    }
    var after := end;
    while after < |data| && IsTerminator(data[after])
      invariant end <= after <= |data| && TerminatorsEnd(data, after) == TerminatorsEnd(data, end)
    {
      after := after + 1;
    }
    var reading := ParseLine(protocol, data[..end]);
    return Parsed(if reading.Some? then ReadingFrame(reading.value) else Garbage, after);
  }

  // ---------------------------------------------------------------------
  // What a reading can be trusted for
  // ---------------------------------------------------------------------

  predicate OffScale(r: Reading) {
    r.stability == Overload || r.stability == Underload
  }

  /** An octet that runs on into a word: a digit, a letter or an underscore. */
  predicate RunsOn(b: byte) {
    48 <= b <= 57 || 65 <= b <= 90 || 97 <= b <= 122 || b == 95
  }

  /** Two octets in a row that no word runs on from. */
  ghost predicate StandsAlone(s: Text, a: byte, b: byte) {
    exists i :: 0 <= i < |s| - 1 && AloneAt(s, a, b, i)
  }

  predicate AloneAt(s: Text, a: byte, b: byte, i: nat)
    requires i < |s| - 1
  {
    && s[i] == a && s[i + 1] == b
    && (i == 0 || !RunsOn(s[i - 1])) && (i + 2 == |s| || !RunsOn(s[i + 2]))
  }

  /** Two capitals, or the same letters in lower case. */
  predicate IsCode(s: Text, a: byte, b: byte) {
    |s| == 2 && (s[0] == a || s[0] as int == a + 32) && (s[1] == b || s[1] as int == b + 32)
  }

  lemma {:induction false} WordIsAlone(s: Text, word: Text)
    requires |word| == 2
    ensures ContainsWord(s, word) <==> StandsAlone(s, word[0], word[1])
  {
    forall i | 0 <= i <= |s| - 2 ensures WordAt(s, word, i) <==> AloneAt(s, word[0], word[1], i) {
      WordIsAloneAt(s, word, i);
    }
    hide WordAt, AloneAt;
  }

  lemma {:induction false} WordIsAloneAt(s: Text, word: Text, i: nat)
    requires |word| == 2 && i + 2 <= |s|
    ensures WordAt(s, word, i) <==> AloneAt(s, word[0], word[1], i)
  {
    assert s[i..i + 2] == [s[i], s[i + 1]];
    if s[i] == word[0] && s[i + 1] == word[1] {
      assert [s[i], s[i + 1]] == word;
    }
  }

  lemma {:induction false} EqualIsSpelled(s: Text, word: Text)
    requires |word| == 2 && 65 <= word[0] <= 90 && 65 <= word[1] <= 90
    ensures LabelsEqual(s, word) <==> IsCode(s, word[0], word[1])
  {
    if |s| == 2 {
      assert LabelsEqual(s, word) <==> Lower(s[0]) == Lower(word[0]) && Lower(s[1]) == Lower(word[1]);
    }
  }

  /** The status field of a comma-separated line. */
  function FirstField(line: Text): Text {
    line[..FindComma(line)]
  }

  /** How a line of each dialect says that the weight it carries has settled. */
  ghost predicate MarksSettled(protocol: Protocol, line: Text) {
    match protocol
    case Generic => !StandsAlone(line, 79, 76) && 126 !in line && 77 !in line
    case Cas => IsCode(Trim(FirstField(line)), 83, 84)
    case MassaK => line != [] && line[0] == 36
  }

  /** How it says that the load is outside the scale's range. */
  ghost predicate MarksOffScale(protocol: Protocol, line: Text) {
    match protocol
    case Generic => StandsAlone(line, 79, 76)
    case Cas => IsCode(Trim(FirstField(line)), 79, 76) || MarksUnderload(protocol, line)
    case MassaK => false
  }

  /** Only the comma-separated dialect tells too little from too much. */
  ghost predicate MarksUnderload(protocol: Protocol, line: Text) {
    protocol == Cas && IsCode(Trim(FirstField(line)), 85, 76)
  }

  /**
   * A reading is settled exactly when its line marks it so, and off the scale exactly when its line says so; such a
   * line always makes a reading, number or not, and its digits never become a weight. The marks are `OL`, `~` and `M`
   * in the generic dialect, `ST`, `OL` and `UL` in the comma-separated one, `$` in the third.
   */
  lemma {:induction false} StabilityIffMarked(protocol: Protocol, line: Text)
    requires IsUtf8(line) && Trim(line) != []
    ensures ReadLine(protocol, line).Some? ==>
              (ReadLine(protocol, line).value.stability == Stable <==> MarksSettled(protocol, Trim(line)))
    ensures ReadLine(protocol, line).Some? && OffScale(ReadLine(protocol, line).value)
       <==> MarksOffScale(protocol, Trim(line))
    ensures ReadLine(protocol, line).Some? && OffScale(ReadLine(protocol, line).value) ==>
              ReadLine(protocol, line).value.scaled == 0 && ReadLine(protocol, line).value.decimals == 0
    ensures ReadLine(protocol, line).Some? ==>
              (ReadLine(protocol, line).value.stability == Underload <==> MarksUnderload(protocol, Trim(line)))
  {
    var t := Trim(line);
    GenericMarks(t);
    CasMarks(t);
    MassaKMarks(t);
    hide Trim, IsUtf8, StandsAlone, ReadGeneric, ReadCas, ReadMassaK, IsCode, FirstField;
  }

  lemma {:induction false} GenericMarks(t: Text)
    ensures var r := ReadGeneric(t);
            && (r.Some? ==>
                  (r.value.stability == Stable <==> !StandsAlone(t, 79, 76) && 126 !in t && 77 !in t))
            && (r.Some? && r.value.stability == Overload <==> StandsAlone(t, 79, 76))
            && (r.Some? ==> r.value.stability != Underload)
            && (r.Some? && r.value.stability == Overload ==> r.value.scaled == 0 && r.value.decimals == 0)
  {
    WordIsAlone(t, OL);
    hide Scanned, UnitAfter, ContainsWord, StandsAlone;
  }

  lemma {:induction false} MassaKMarks(t: Text)
    ensures var r := ReadMassaK(t);
            && (r.Some? ==> (r.value.stability == Stable <==> t != [] && t[0] == 36))
            && (r.Some? ==> !OffScale(r.value))
  {
    hide Scanned, UnitAfter, Trim;
  }

  lemma {:induction false} CasMarks(t: Text)
    ensures var r, status := ReadCas(t), Trim(FirstField(t));
            && (r.Some? ==> (r.value.stability == Stable <==> IsCode(status, 83, 84)))
            && (r.Some? && r.value.stability == Overload <==> IsCode(status, 79, 76))
            && (r.Some? && r.value.stability == Underload <==> IsCode(status, 85, 76))
            && (r.Some? && OffScale(r.value) ==> r.value.scaled == 0 && r.value.decimals == 0)
  {
    var status := Trim(FirstField(t));
    assert SplitThree(t)[0] == FirstField(t);
    EqualIsSpelled(status, ST);
    EqualIsSpelled(status, OL);
    EqualIsSpelled(status, UL);
    hide Trim, Scanned, UnitAfter, SplitThree, LabelsEqual;
  }
}
