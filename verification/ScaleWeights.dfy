/** A weight written the way a scale writes it is read back exactly, in all three dialects. */
module ScaleWeights {
  import opened Wire
  import opened Utf8
  import opened Decimals
  import opened Names
  import opened Scales
  import Sequences

  const US: Text := [85, 83]

  // ---------------------------------------------------------------------
  // Writing
  // ---------------------------------------------------------------------

  /**
   * A weight and the freedom a scale has in writing it: which decimal separator, whether a plus is shown, how far the
   * sign is padded away from the digits.
   */
  datatype Shown = Shown(value: i64, decimals: nat, separator: byte, plus: bool, padding: nat, unit: Unit,
                         settled: bool, measure: Measure)

  function Repeat(b: byte, n: nat): (s: Text)
    ensures |s| == n
  {
    seq(n, _ => b)
  }

  function Magnitude(v: i64): nat {
    if v < 0 then -(v as int) else v
  }

  /** The digits, with zeros in front so that at least one stands before the fraction. */
  function PaddedDigits(n: nat, decimals: nat): (s: Text)
    ensures |s| > decimals
  {
    var digits := Decimal(n);
    if |digits| > decimals then digits else Repeat(48, decimals + 1 - |digits|) + digits
  }

  function IntegerPart(w: Shown): Text {
    var digits := PaddedDigits(Magnitude(w.value), w.decimals);
    digits[..|digits| - w.decimals]
  }

  function FractionPart(w: Shown): Text {
    var digits := PaddedDigits(Magnitude(w.value), w.decimals);
    digits[|digits| - w.decimals..]
  }

  function SignText(w: Shown): Text {
    if w.value < 0 then [45] else if w.plus then [43] else []
  }

  function Dot(w: Shown): Text {
    if w.decimals == 0 then [] else [w.separator]
  }

  /** Sign, padding, digits: how far the two are apart is the scale's choice. */
  function NumberText(w: Shown): Text {
    SignText(w) + Repeat(32, w.padding) + IntegerPart(w) + Dot(w) + FractionPart(w)
  }

  function UnitText(u: Unit): (s: Text)
    ensures s != []
  {
    match u
    case Kilogram => [107, 103]
    case Gram => [103]
    case Pound => [108, 98]
  }

  function UnitTail(spaced: bool, u: Unit): Text {
    (if spaced then [32] else []) + UnitText(u)
  }

  /** The fixed-width numeric slot and the unit behind it. */
  function Slot(w: Shown, spaced: bool): Text {
    NumberText(w) + UnitTail(spaced, w.unit)
  }

  function MeasureText(m: Measure): Text {
    match m
    case Gross => [71, 83]
    case Net => [78, 84]
    case Unknown => []
  }

  /** The line without its terminator: a tilde, `ST` or `US`, a dollar sign or a blank say whether it has settled. */
  function Written(protocol: Protocol, w: Shown): Text {
    match protocol
    case Generic => (if w.settled then [] else [126]) + Slot(w, true)
    case Cas => (if w.settled then [83, 84] else US) + ([44] + (MeasureText(w.measure) + ([44] + Slot(w, false))))
    case MassaK => [if w.settled then 36 else 32] + Slot(w, false)
  }

  /** A point or a comma separates the fraction. */
  predicate Writable(w: Shown) {
    w.separator == 46 || w.separator == 44
  }

  function Expected(protocol: Protocol, w: Shown): Reading {
    Reading(w.value, w.decimals, w.unit, if w.settled then Stable else Unstable,
            if protocol == Cas then w.measure else Unknown)
  }

  // ---------------------------------------------------------------------
  // Digits
  // ---------------------------------------------------------------------

  lemma {:induction false} LeadingZeros(n: nat, digits: Text)
    ensures Value(Repeat(48, n) + digits) == Value(digits)
  {
    var s := Repeat(48, n) + digits;
    if digits == [] {
      if n > 0 {
        assert s[..|s| - 1] == Repeat(48, n - 1) + digits;
        LeadingZeros(n - 1, digits);
      }
    } else {
      assert s[..|s| - 1] == Repeat(48, n) + digits[..|digits| - 1];
      LeadingZeros(n, digits[..|digits| - 1]);
    }
  }

  lemma {:induction false} PaddedValue(n: nat, decimals: nat)
    ensures Value(PaddedDigits(n, decimals)) == n
    ensures forall i :: 0 <= i < |PaddedDigits(n, decimals)| ==> IsDigit(PaddedDigits(n, decimals)[i])
  {
    var digits := Decimal(n);
    ValueOfDecimal(n);
    if |digits| <= decimals {
      LeadingZeros(decimals + 1 - |digits|, digits);
    }
  }

  // ---------------------------------------------------------------------
  // Runs of characters
  // ---------------------------------------------------------------------

  lemma {:induction false} DigitsRun(s: Text, j: nat, k: nat)
    requires j <= k <= |s| && (forall q :: j <= q < k ==> IsDigit(s[q])) && (k == |s| || !IsDigit(s[k]))
    ensures DigitsEnd(s, j) == k
    decreases k - j
  {
    if j < k {
      DigitsRun(s, j + 1, k);
    }
  }

  lemma {:induction false} BlanksRun(s: Text, j: nat, k: nat)
    requires j <= k <= |s| && (forall q :: j <= q < k ==> IsBlank(s[q])) && (k == |s| || !IsBlank(s[k]))
    ensures BlanksEnd(s, j) == k
    decreases k - j
  {
    if j < k {
      BlanksRun(s, j + 1, k);
    }
  }

  lemma {:induction false} LettersRun(s: Text, j: nat, k: nat)
    requires j <= k <= |s| && (forall q :: j <= q < k ==> IsLetter(s[q])) && (k == |s| || !IsLetter(s[k]))
    ensures LettersEnd(s, j) == k
    decreases k - j
  {
    if j < k {
      LettersRun(s, j + 1, k);
    }
  }

  predicate AllDigits(s: Text) {
    forall i :: 0 <= i < |s| ==> IsDigit(s[i])
  }

  predicate AllBlanks(s: Text) {
    forall i :: 0 <= i < |s| ==> IsBlank(s[i])
  }

  /** No number can start in it. */
  predicate Inert(s: Text) {
    forall i :: 0 <= i < |s| ==> !IsDigit(s[i]) && !IsSign(s[i])
  }

  /** A number inside a text, cut into its pieces. */
  datatype Layout = Layout(before: Text, sign: Text, pad: Text, digits: Text, dot: Text, fraction: Text, tail: Text)
  {
    function Whole(): Text {
      before + sign + pad + digits + dot + fraction + tail
    }

    function SignAt(): nat { |before| }
    function DigitsAt(): nat { |before| + |sign| + |pad| }
    function PointAt(): nat { DigitsAt() + |digits| }
    function TailAt(): nat { PointAt() + |dot| + |fraction| }

    ghost predicate Valid(scan: Scan) {
      && Inert(before)
      && (sign == [] || sign == [PLUS] || sign == [MINUS]) && (sign == [] ==> pad == [])
      && AllBlanks(pad) && digits != [] && AllDigits(digits) && AllDigits(fraction)
      && (dot == [] || dot == [DOT] || dot == [COMMA]) && (dot == [] <==> fraction == [])
      && tail != [] && !IsDigit(tail[0]) && tail[0] != DOT && tail[0] != COMMA
      && (scan == WholeLine ==> fraction != [])
    }
  }

  /** A text up to `n` that ends with `piece`. */
  lemma {:induction false} LastPiece(s: Text, n: nat, front: Text, piece: Text)
    requires n <= |s| && s[..n] == front + piece
    ensures |front| + |piece| == n && s[..|front|] == front && s[|front|..n] == piece
  {
    assert s[..|front|] == s[..n][..|front|];
    assert s[|front|..n] == s[..n][|front|..];
  }

  lemma {:induction false} Pieces(l: Layout)
    ensures var s := l.Whole();
            && s[l.SignAt()..l.SignAt() + |l.sign|] == l.sign
            && s[l.SignAt() + |l.sign|..l.DigitsAt()] == l.pad
            && s[l.DigitsAt()..l.PointAt()] == l.digits
            && s[l.PointAt()..l.PointAt() + |l.dot|] == l.dot
            && s[l.PointAt() + |l.dot|..l.TailAt()] == l.fraction
            && s[l.TailAt()..] == l.tail && s[..l.SignAt()] == l.before
            && |s| == l.TailAt() + |l.tail|
  {
    var s := l.Whole();
    var a := l.before + l.sign;
    var b := a + l.pad;
    var c := b + l.digits;
    var d := c + l.dot;
    var e := d + l.fraction;
    assert s == e + l.tail;
    hide Layout.Whole;
    LastPiece(s, |s|, e, l.tail);
    LastPiece(s, |e|, d, l.fraction);
    LastPiece(s, |d|, c, l.dot);
    LastPiece(s, |c|, b, l.digits);
    LastPiece(s, |b|, a, l.pad);
    LastPiece(s, |a|, l.before, l.sign);
  }

  lemma {:induction false} DigitsPiece(s: Text, j: nat, k: nat, piece: Text)
    requires j <= k <= |s| && s[j..k] == piece && AllDigits(piece) && (k == |s| || !IsDigit(s[k]))
    ensures DigitsEnd(s, j) == k
  {
    forall q | j <= q < k ensures IsDigit(s[q]) {
      assert s[q] == s[j..k][q - j];
    }
    DigitsRun(s, j, k);
  }

  lemma {:induction false} BlanksPiece(s: Text, j: nat, k: nat, piece: Text)
    requires j <= k <= |s| && s[j..k] == piece && AllBlanks(piece) && (k == |s| || !IsBlank(s[k]))
    ensures BlanksEnd(s, j) == k
  {
    forall q | j <= q < k ensures IsBlank(s[q]) {
      assert s[q] == s[j..k][q - j];
    }
    BlanksRun(s, j, k);
  }

  /** From the sign to the digits. */
  lemma {:induction false} SignStep(s: Text, a: nat, sign: Text, c: nat)
    requires a + |sign| <= c < |s| && s[a..a + |sign|] == sign && IsDigit(s[c])
    requires (sign == [] && a == c) || sign == [PLUS] || sign == [MINUS]
    requires sign == [] || AllBlanks(s[a + 1..c])
    ensures DigitsStart(s, a) == c && (s[a] == MINUS <==> sign == [MINUS])
  {
    if sign != [] {
      assert s[a] == s[a..a + 1][0];
      BlanksPiece(s, a + 1, c, s[a + 1..c]);
    }
  }

  /** From the end of the integer part over the fraction. */
  lemma {:induction false} FractionStep(s: Text, d: nat, dot: Text, fraction: Text)
    requires d + |dot| + |fraction| < |s| && s[d..d + |dot|] == dot
    requires s[d + |dot|..d + |dot| + |fraction|] == fraction
    requires AllDigits(fraction) && (dot == [] || dot == [DOT] || dot == [COMMA]) && (dot == [] <==> fraction == [])
    requires var b := s[d + |dot| + |fraction|]; !IsDigit(b) && b != DOT && b != COMMA
    ensures FractionEnd(s, d) == d + |dot| + |fraction|
  {
    if dot != [] {
      assert s[d] == s[d..d + 1][0];
      DigitsPiece(s, d + 1, d + 1 + |fraction|, fraction);
    }
  }

  /** Where the scanner goes, step by step. */
  lemma {:induction false} ScanSteps(l: Layout, scan: Scan)
    requires l.Valid(scan)
    ensures l.TailAt() < |l.Whole()|
    ensures var s := l.Whole();
            && DigitsStart(s, l.SignAt()) == l.DigitsAt()
            && DigitsEnd(s, l.DigitsAt()) == l.PointAt()
            && FractionEnd(s, l.PointAt()) == l.TailAt()
            && (s[l.SignAt()] == MINUS <==> l.sign == [MINUS])
  {
    var s := l.Whole();
    Pieces(l);
    hide Layout.Whole, DigitsStart, DigitsEnd, FractionEnd;
    var a, c, d, e := l.SignAt(), l.DigitsAt(), l.PointAt(), l.TailAt();
    assert s[c] == s[c..d][0] == l.digits[0];
    assert s[e] == s[e..][0] == l.tail[0];
    SignStep(s, a, l.sign, c);
    FractionStep(s, d, l.dot, l.fraction);
    assert !IsDigit(s[d]) by {
      if l.dot != [] {
        assert s[d] == s[d..d + 1][0];
      }
    }
    DigitsPiece(s, c, d, l.digits);
  }

  lemma {:induction false} InertNeverMatches(s: Text, a: nat, scan: Scan)
    requires a <= |s| && Inert(s[..a])
    ensures forall p :: 0 <= p < a ==> !MatchesAt(s, scan, p)
  {
    forall p | 0 <= p < a ensures !MatchesAt(s, scan, p) {
      assert s[p] == s[..a][p];
      assert DigitsEnd(s, p) == p;
    }
  }

  /** A scanner that finds its first match at `a` reads the digits there. */
  lemma {:induction false} ScanFrom(s: Text, scan: Scan, a: nat, c: nat, d: nat, e: nat, digits: Text, v: i64)
    requires a <= c < d <= e <= |s| && a < |s|
    requires DigitsStart(s, a) == c && DigitsEnd(s, c) == d && FractionEnd(s, d) == e
    requires scan == WholeLine ==> e > d
    requires Inert(s[..a])
    requires NumberDigits(s, c, d, e) == digits && Signed(s[a] == MINUS, digits) == Some(v)
    ensures Scanned(s, scan) == Some(Number(v, if e > d then e - d - 1 else 0, e))
  {
    InertNeverMatches(s, a, scan);
    SkipTo(s, scan, 0, a);
    hide Signed, DigitsStart, DigitsEnd, FractionEnd, NumberDigits, Inert;
    assert MatchesAt(s, scan, a);
    assert FirstMatch(s, scan, a) == a;
  }

  lemma {:induction false} DigitsRead(l: Layout)
    requires l.fraction == [] <==> l.dot == []
    requires |l.dot| <= 1
    ensures l.TailAt() <= |l.Whole()|
    ensures NumberDigits(l.Whole(), l.DigitsAt(), l.PointAt(), l.TailAt()) == l.digits + l.fraction
  {
    Pieces(l);
    hide Layout.Whole;
  }

  lemma {:induction false} AroundTheNumber(l: Layout)
    ensures var s := l.Whole();
            |s| == l.TailAt() + |l.tail| && s[..l.SignAt()] == l.before && s[l.TailAt()..] == l.tail
  {
    Pieces(l);
    hide Layout.Whole;
  }

  /** The number in such a text is found at its sign and read digit for digit. */
  lemma {:induction false} ScanLayout(l: Layout, scan: Scan, v: i64)
    requires l.Valid(scan) && Signed(l.sign == [MINUS], l.digits + l.fraction) == Some(v)
    ensures Scanned(l.Whole(), scan) == Some(Number(v, |l.fraction|, l.TailAt()))
    ensures l.TailAt() < |l.Whole()| && l.Whole()[l.TailAt()..] == l.tail
  {
    var s := l.Whole();
    assert (l.fraction == [] <==> l.dot == []) && |l.dot| <= 1 && l.tail != [] && l.digits != [];
    assert Inert(l.before) && (scan == WholeLine ==> l.fraction != []);
    var c, d, e := l.DigitsAt(), l.PointAt(), l.TailAt();
    assert l.SignAt() <= c < d <= e && (scan == WholeLine ==> e > d);
    assert (if e > d then e - d - 1 else 0) == |l.fraction|;
    hide Layout.Whole, Layout.Valid, Signed, DigitsStart, DigitsEnd, FractionEnd, AllDigits, AllBlanks, Inert,
         FirstMatch,
         Scanned, MatchesAt, NumberDigits;
    ScanSteps(l, scan);
    DigitsRead(l);
    AroundTheNumber(l);
    ScanFrom(s, scan, l.SignAt(), c, d, e, l.digits + l.fraction, v);
  }

  // ---------------------------------------------------------------------
  // Trimming and encoding of plain text
  // ---------------------------------------------------------------------

  predicate Visible(b: byte) {
    33 <= b <= 126
  }

  lemma {:induction false} TrimStartVisible(s: Text)
    requires s != [] && Visible(s[0])
    ensures TrimStart(s) == s
  {
  }

  lemma {:induction false} TrimEndVisible(s: Text)
    requires s != [] && Visible(s[|s| - 1])
    ensures TrimEnd(s) == s
  {
  }

  lemma {:induction false} TrimSpaces(n: nat, s: Text)
    requires s != [] && Visible(s[0]) && Visible(s[|s| - 1])
    ensures Trim(Repeat(SPACE, n) + s) == s
  {
    TrimStartSpaces(n, s);
    TrimEndVisible(s);
  }

  lemma {:induction false} TrimStartSpaces(n: nat, s: Text)
    requires s != [] && Visible(s[0])
    ensures TrimStart(Repeat(SPACE, n) + s) == s
    decreases n
  {
    var t := Repeat(SPACE, n) + s;
    if n == 0 {
      assert t == s;
      TrimStartVisible(s);
    } else {
      assert t[..1] == [SPACE] && SpaceAtStart(t) == 1;
      assert t[1..] == Repeat(SPACE, n - 1) + s;
      TrimStartSpaces(n - 1, s);
    }
  }

  lemma {:induction false} AsciiIsUtf8(s: Text)
    requires forall i :: 0 <= i < |s| ==> s[i] < 0x80
    ensures IsUtf8(s)
  {
    if s != [] {
      assert s[0] < 0x80;
      AsciiIsUtf8(s[1..]);
    }
  }

  // ---------------------------------------------------------------------
  // The number and its unit
  // ---------------------------------------------------------------------

  /** The written number inside a text: leading blanks belong to what comes before when no sign is shown. */
  function LayoutOf(before: Text, w: Shown, tail: Text): Layout {
    Layout(before, SignText(w), if SignText(w) == [] then [] else Repeat(SPACE, w.padding),
           IntegerPart(w), Dot(w), FractionPart(w), tail)
  }

  lemma {:induction false} UnitTextNamed(u: Unit)
    ensures FoldLabel(UnitText(u)) == UnitText(u) && UnitNamed(UnitText(u)) == u
  {
    var t := UnitText(u);
    assert forall i :: 0 <= i < |t| ==> Lower(t[i]) == t[i];
  }

  lemma {:induction false} UnitLetters(s: Text, at: nat, u: Unit)
    requires at < |s| && s[at..] == UnitText(u)
    ensures LettersEnd(s, at) == |s| && !IsBlank(s[at])
  {
    var t := UnitText(u);
    assert forall i :: at <= i < |s| ==> s[i] == t[i - at];
    LettersRun(s, at, |s|);
  }

  /** Past the blank, if there is one, only the unit is left. */
  lemma {:induction false} PastTheBlank(s: Text, e: nat, u: Text)
    requires e < |s| && s[e..] == [SPACE] + u
    ensures s[e] == SPACE && s[e + 1..] == u
  {
    var t := [SPACE] + u;
    assert s[e] == s[e..][0] == t[0];
    assert s[e + 1..] == s[e..][1..] == t[1..] == u;
  }

  lemma {:induction false} UnitAt(s: Text, e: nat, at: nat, u: Unit)
    requires e <= at < |s| && s[at..] == UnitText(u) && forall q :: e <= q < at ==> IsBlank(s[q])
    ensures UnitAfter(s, e) == u
  {
    UnitLetters(s, at, u);
    UnitTextNamed(u);
    BlanksRun(s, e, at);
    hide LettersEnd, BlanksEnd, FoldLabel, UnitNamed, UnitText;
    assert s[at..|s|] == s[at..];
  }

  lemma {:induction false} UnitStep(s: Text, e: nat, spaced: bool, u: Unit)
    requires e < |s| && s[e..] == UnitTail(spaced, u)
    ensures UnitAfter(s, e) == u
  {
    hide UnitAfter, UnitText;
    if spaced {
      PastTheBlank(s, e, UnitText(u));
      UnitAt(s, e, e + 1, u);
    } else {
      assert UnitTail(spaced, u) == UnitText(u);
      UnitAt(s, e, e, u);
    }
  }

  lemma {:induction false} DigitsOf(w: Shown)
    ensures AllDigits(IntegerPart(w)) && AllDigits(FractionPart(w)) && IntegerPart(w) != []
    ensures |FractionPart(w)| == w.decimals
    ensures Signed(SignText(w) == [MINUS], IntegerPart(w) + FractionPart(w)) == Some(w.value)
  {
    var n := Magnitude(w.value);
    PaddedValue(n, w.decimals);
    var digits := PaddedDigits(n, w.decimals);
    hide PaddedDigits, Value;
    assert IntegerPart(w) + FractionPart(w) == digits;
  }

  lemma {:induction false} UnitTailBegins(spaced: bool, u: Unit)
    ensures var t := UnitTail(spaced, u); t != [] && !IsDigit(t[0]) && t[0] != DOT && t[0] != COMMA
  {
    assert UnitText(u)[0] in [107, 103, 108];
  }

  lemma {:induction false} LayoutValid(before: Text, w: Shown, spaced: bool, scan: Scan)
    requires Writable(w) && Inert(before) && (scan == WholeLine ==> w.decimals >= 1)
    ensures LayoutOf(before, w, UnitTail(spaced, w.unit)).Valid(scan)
  {
    DigitsOf(w);
    UnitTailBegins(spaced, w.unit);
    hide IntegerPart, FractionPart, UnitTail, AllDigits, Inert, Signed;
  }

  /** The written weight, wherever it stands, is read as it was. */
  lemma {:induction false} ReadsNumber(before: Text, w: Shown, spaced: bool, scan: Scan)
    requires Writable(w) && Inert(before) && (scan == WholeLine ==> w.decimals >= 1)
    ensures var s := LayoutOf(before, w, UnitTail(spaced, w.unit)).Whole();
            exists e: nat :: Scanned(s, scan) == Some(Number(w.value, w.decimals, e)) && UnitAfter(s, e) == w.unit
  {
    LayoutValid(before, w, spaced, scan);
    DigitsOf(w);
    hide Layout.Whole, Layout.Valid, Scanned, UnitAfter, IntegerPart, FractionPart, UnitTail, AllDigits, Inert, Signed;
    var l := LayoutOf(before, w, UnitTail(spaced, w.unit));
    ScanLayout(l, scan, w.value);
    UnitStep(l.Whole(), l.TailAt(), spaced, w.unit);
  }

  // ---------------------------------------------------------------------
  // The three dialects
  // ---------------------------------------------------------------------

  /** What separates a number without a sign from the text before it. */
  function Lead(w: Shown): Text {
    if SignText(w) == [] then Repeat(SPACE, w.padding) else []
  }

  lemma {:induction false} SlotIsLayout(before: Text, w: Shown, spaced: bool)
    ensures before + Slot(w, spaced) == LayoutOf(before + Lead(w), w, UnitTail(spaced, w.unit)).Whole()
  {
    var sign, pad, i, d, f, t :=
      SignText(w), Repeat(SPACE, w.padding), IntegerPart(w), Dot(w), FractionPart(w), UnitTail(spaced, w.unit);
    hide SignText, IntegerPart, Dot, FractionPart, UnitTail, Repeat;
    if sign == [] {
      assert before + (sign + pad + i + d + f + t) == before + pad + [] + [] + i + d + f + t;
    } else {
      assert before + (sign + pad + i + d + f + t) == before + [] + sign + pad + i + d + f + t;
    }
  }

  lemma {:induction false} UnitEndsVisible(spaced: bool, u: Unit)
    ensures var t := UnitTail(spaced, u); t != [] && Visible(t[|t| - 1])
  {
  }

  lemma {:induction false} LastByte(l: Layout)
    requires l.tail != []
    ensures l.Whole() != [] && l.Whole()[|l.Whole()| - 1] == l.tail[|l.tail| - 1]
  {
    var front := l.before + l.sign + l.pad + l.digits + l.dot + l.fraction;
    assert l.Whole() == front + l.tail;
    hide Layout.Whole;
  }

  lemma {:induction false} FirstByte(l: Layout)
    requires l.digits != [] && (l.sign == [] ==> l.pad == [])
    ensures l.Whole() != []
    ensures l.Whole()[0] == if l.before != [] then l.before[0] else if l.sign != [] then l.sign[0] else l.digits[0]
  {
  }

  lemma {:induction false} EndsVisible(before: Text, w: Shown, spaced: bool)
    ensures var s := LayoutOf(before, w, UnitTail(spaced, w.unit)).Whole();
            && s != [] && Visible(s[|s| - 1])
            && (if before == [] then IsSign(s[0]) || IsDigit(s[0]) else s[0] == before[0])
  {
    var l := LayoutOf(before, w, UnitTail(spaced, w.unit));
    DigitsOf(w);
    UnitEndsVisible(spaced, w.unit);
    hide IntegerPart, FractionPart, UnitTail, Layout.Whole;
    FirstByte(l);
    LastByte(l);
  }

  lemma {:induction false} LeadMoves(before: Text, w: Shown, tail: Text)
    ensures LayoutOf(before, w, tail).Whole() == before + LayoutOf([], w, tail).Whole()
  {
    hide SignText, IntegerPart, Dot, FractionPart, Repeat;
    var l := LayoutOf([], w, tail);
    SixMove(before, l.sign, l.pad, l.digits, l.dot, l.fraction, l.tail);
  }

  lemma {:induction false} SixMove(z: Text, a: Text, b: Text, c: Text, d: Text, e: Text, f: Text)
    ensures z + a + b + c + d + e + f == z + ([] + a + b + c + d + e + f)
  {
    Sequences.Empty(a);
    Sequences.Assoc(z, a, b);
    Sequences.Assoc(z, a + b, c);
    Sequences.Assoc(z, a + b + c, d);
    Sequences.Assoc(z, a + b + c + d, e);
    Sequences.Assoc(z, a + b + c + d + e, f);
  }

  lemma {:induction false} LeadIsSpaces(n: nat, w: Shown) returns (m: nat)
    ensures Repeat(SPACE, n) + Lead(w) == Repeat(SPACE, m)
  {
    m := n + |Lead(w)|;
  }

  /** Trimming a slot leaves the number, whatever blanks were around. */
  lemma {:induction false} TrimSlot(n: nat, w: Shown, spaced: bool)
    ensures Trim(Repeat(SPACE, n) + Slot(w, spaced)) == LayoutOf([], w, UnitTail(spaced, w.unit)).Whole()
  {
    var core := LayoutOf([], w, UnitTail(spaced, w.unit)).Whole();
    SlotIsLayout(Repeat(SPACE, n), w, spaced);
    EndsVisible([], w, spaced);
    var m := LeadIsSpaces(n, w);
    hide Slot, Lead, Repeat, Visible, Trim, UnitTail, LayoutOf, Layout.Whole;
    LeadMoves(Repeat(SPACE, m), w, UnitTail(spaced, w.unit));
    TrimSpaces(m, core);
  }

  /** The number and its unit with nothing in front. */
  function Core(w: Shown, spaced: bool): Text {
    LayoutOf([], w, UnitTail(spaced, w.unit)).Whole()
  }

  lemma {:induction false} ReadsCore(w: Shown, stability: Stability, measure: Measure)
    requires Writable(w)
    ensures FieldReading(Core(w, false), stability, measure)
         == Some(Reading(w.value, w.decimals, w.unit, stability, measure))
  {
    ReadsNumber([], w, false, Field);
    hide LayoutOf, Layout.Whole, Scanned, UnitAfter;
  }

  lemma {:induction false} TrimVisible(s: Text)
    requires s != [] && Visible(s[0]) && Visible(s[|s| - 1])
    ensures Trim(s) == s
  {
    TrimStartVisible(s);
    TrimEndVisible(s);
  }

  lemma {:induction false} TrimBareSlot(w: Shown, spaced: bool)
    ensures Trim(Slot(w, spaced)) == Core(w, spaced)
    ensures Trim(Core(w, spaced)) == Core(w, spaced)
    ensures Core(w, spaced) != [] && (IsSign(Core(w, spaced)[0]) || IsDigit(Core(w, spaced)[0]))
  {
    TrimSlot(0, w, spaced);
    EndsVisible([], w, spaced);
    TrimVisible(Core(w, spaced));
    hide Trim, Slot, Layout.Whole, LayoutOf;
    assert Repeat(SPACE, 0) + Slot(w, spaced) == Slot(w, spaced);
  }

  /** A line that starts with a marker and ends with the slot is not touched by trimming. */
  lemma {:induction false} TrimMarked(before: Text, w: Shown, spaced: bool)
    requires before != [] && Visible(before[0])
    ensures Trim(before + Slot(w, spaced)) == before + Slot(w, spaced)
  {
    SlotIsLayout(before, w, spaced);
    EndsVisible(before + Lead(w), w, spaced);
    hide Trim, Slot, Layout.Whole, LayoutOf, Lead;
    TrimVisible(before + Slot(w, spaced));
  }

  lemma {:induction false} TrimOneBlank(w: Shown)
    ensures Trim([SPACE] + Slot(w, false)) == Core(w, false) != []
  {
    TrimSlot(1, w, false);
    TrimBareSlot(w, false);
    hide Trim, Slot, LayoutOf, Layout.Whole;
    assert Repeat(SPACE, 1) == [SPACE];
  }

  lemma {:induction false} ReadsMassaKSettled(w: Shown)
    requires Writable(w)
    ensures ReadMassaK([DOLLAR] + Slot(w, false)) == Some(Reading(w.value, w.decimals, w.unit, Stable, Unknown))
  {
    var line := [DOLLAR] + Slot(w, false);
    ReadsCore(w, Stable, Unknown);
    TrimBareSlot(w, false);
    hide Trim, Slot, Core, FieldReading;
    assert line[1..] == Slot(w, false);
  }

  lemma {:induction false} ReadsMassaKMoving(w: Shown)
    requires Writable(w)
    ensures ReadMassaK(Core(w, false)) == Some(Reading(w.value, w.decimals, w.unit, Unstable, Unknown))
  {
    ReadsCore(w, Unstable, Unknown);
    TrimBareSlot(w, false);
    hide Trim, Slot, Core, FieldReading;
  }

  lemma {:induction false} ReadsMassaK(w: Shown)
    requires Writable(w)
    ensures Trim(Written(MassaK, w)) != []
    ensures ReadMassaK(Trim(Written(MassaK, w))) == Some(Expected(MassaK, w))
  {
    hide Trim, Slot, Core, ReadMassaK;
    if w.settled {
      TrimMarked([DOLLAR], w, false);
      ReadsMassaKSettled(w);
    } else {
      TrimOneBlank(w);
      ReadsMassaKMoving(w);
    }
  }

  lemma {:induction false} FindCommaAt(a: Text, b: Text)
    requires COMMA !in a
    ensures FindComma(a + ([COMMA] + b)) == |a|
  {
    var s := a + ([COMMA] + b);
    assert s[|a|] == COMMA;
    assert forall j :: 0 <= j < |a| ==> s[j] == a[j];
  }

  lemma {:induction false} SplitsInThree(a: Text, b: Text, c: Text)
    requires 44 !in a && 44 !in b
    ensures SplitThree(a + ([44] + (b + ([44] + c)))) == [a, b, c]
  {
    var rest := b + ([COMMA] + c);
    var s := a + ([COMMA] + rest);
    FindCommaAt(a, rest);
    FindCommaAt(b, c);
    hide FindComma;
    CutAt(a, 44, rest);
    CutAt(b, 44, c);
  }

  lemma {:induction false} CutAt(a: Text, b: byte, c: Text)
    ensures var s := a + ([b] + c); s[..|a|] == a && s[|a| + 1..] == c
  {
  }

  lemma {:induction false} StatusesDiffer()
    ensures LabelsEqual(ST, ST) && !LabelsEqual(US, ST) && !LabelsEqual(US, OL) && !LabelsEqual(US, UL)
  {
    assert Lower(US[0]) != Lower(ST[0]) && Lower(US[0]) != Lower(OL[0]) && Lower(US[1]) != Lower(UL[1]);
  }

  lemma {:induction false} CasStatus(settled: bool)
    ensures var status := if settled then ST else US;
            44 !in status && CasStability(Trim(status)) == (if settled then Stable else Unstable)
  {
    TrimVisible(if settled then ST else US);
    StatusesDiffer();
    hide Trim, LabelsEqual;
  }

  lemma {:induction false} CasMeasured(status: Text, m: Measure, slot: Text)
    ensures 44 !in MeasureText(m) && CasMeasure([status, MeasureText(m), slot]) == m
  {
    if m != Unknown {
      TrimVisible(MeasureText(m));
    }
    assert Trim([]) == [];
    assert GS[0] != NT[0];
    hide Trim;
  }

  lemma {:induction false} CasParts(line: Text, status: Text, measure: Text, slot: Text)
    requires SplitThree(line) == [status, measure, slot]
    requires !CasStability(Trim(status)).Overload? && !CasStability(Trim(status)).Underload?
    ensures ReadCas(line)
         == FieldReading(Trim(slot), CasStability(Trim(status)), CasMeasure([status, measure, slot]))
  {
    hide Trim, CasStability, CasMeasure, FieldReading, SplitThree;
  }

  /** A status, a measure and a slot, as one line. */
  lemma {:induction false} ReadsFields(status: Text, w: Shown)
    requires Writable(w) && 44 !in status && status != [] && Visible(status[0])
    requires var s := CasStability(Trim(status)); !s.Overload? && !s.Underload?
    ensures var line := status + ([44] + (MeasureText(w.measure) + ([44] + Slot(w, false))));
            && Trim(line) == line && line != []
            && ReadCas(line) == Some(Reading(w.value, w.decimals, w.unit, CasStability(Trim(status)), w.measure))
  {
    hide *;
    var measure, slot, stability := MeasureText(w.measure), Slot(w, false), CasStability(Trim(status));
    var before := status + ([44] + (measure + [44]));
    Sequences.Assoc(measure, [44], slot);
    Sequences.Assoc([44], measure + [44], slot);
    Sequences.Assoc(status, [44] + (measure + [44]), slot);
    TrimMarked(before, w, false);
    CasMeasured(status, w.measure, slot);
    SplitsInThree(status, measure, slot);
    CasParts(before + slot, status, measure, slot);
    TrimBareSlot(w, false);
    ReadsCore(w, stability, w.measure);
  }

  lemma {:induction false} ReadsCas(w: Shown)
    requires Writable(w)
    ensures Trim(Written(Cas, w)) != []
    ensures ReadCas(Trim(Written(Cas, w))) == Some(Expected(Cas, w))
  {
    CasStatus(w.settled);
    hide Trim, ReadCas, Slot, CasStability, MeasureText;
    ReadsFields(if w.settled then ST else US, w);
  }

  // Bytes that are no marker.

  predicate Calm(b: byte) {
    b == SPACE || 43 <= b <= 57 || 97 <= b <= 122
  }

  predicate AllCalm(s: Text) {
    forall i :: 0 <= i < |s| ==> Calm(s[i])
  }

  lemma {:induction false} CalmSlot(w: Shown, spaced: bool)
    requires Writable(w)
    ensures AllCalm(Slot(w, spaced))
  {
    DigitsOf(w);
    hide IntegerPart, FractionPart;
  }

  lemma {:induction false} SlotEndsWithCore(w: Shown, spaced: bool)
    ensures Slot(w, spaced) == Lead(w) + Core(w, spaced)
  {
    SlotIsLayout([], w, spaced);
    LeadMoves(Lead(w), w, UnitTail(spaced, w.unit));
    hide Slot, LayoutOf, Layout.Whole, Lead;
    assert [] + Lead(w) == Lead(w) && [] + Slot(w, spaced) == Slot(w, spaced);
  }

  lemma {:induction false} CalmSuffix(front: Text, back: Text)
    requires AllCalm(front + back)
    ensures AllCalm(back)
  {
    hide Calm;
    forall i | 0 <= i < |back| ensures Calm(back[i]) {
      assert (front + back)[|front| + i] == back[i];
    }
  }

  lemma {:induction false} CalmCore(w: Shown, spaced: bool)
    requires Writable(w)
    ensures AllCalm(Core(w, spaced))
  {
    hide Slot, Core, Lead, AllCalm;
    CalmSlot(w, spaced);
    SlotEndsWithCore(w, spaced);
    CalmSuffix(Lead(w), Core(w, spaced));
  }

  lemma {:induction false} NoOverloadWord(s: Text)
    requires OL[0] !in s
    ensures !ContainsWord(s, OL)
  {
    forall i | 0 <= i <= |s| - |OL| ensures !WordAt(s, OL, i) {
      assert s[i..i + |OL|][0] == s[i];
    }
  }

  lemma {:induction false} GenericParts(line: Text, n: Number)
    requires OL[0] !in line && UPPER_M !in line && Scanned(line, WholeLine) == Some(n)
    ensures ReadGeneric(line)
         == Some(Reading(n.scaled, n.decimals, UnitAfter(line, n.end), if TILDE in line then Unstable else Stable,
                         Unknown))
  {
    NoOverloadWord(line);
    hide ContainsWord, Scanned, UnitAfter;
  }

  lemma {:induction false} GenericLine(before: Text, w: Shown, line: Text)
    requires Writable(w) && w.decimals >= 1 && Inert(before)
    requires line == LayoutOf(before, w, UnitTail(true, w.unit)).Whole() && OL[0] !in line && UPPER_M !in line
    ensures ReadGeneric(line)
         == Some(Reading(w.value, w.decimals, w.unit, if TILDE in line then Unstable else Stable, Unknown))
  {
    ReadsNumber(before, w, true, WholeLine);
    hide LayoutOf, Layout.Whole, Scanned, UnitAfter, ReadGeneric, Inert, UnitTail;
    var e: nat :| Scanned(line, WholeLine) == Some(Number(w.value, w.decimals, e)) && UnitAfter(line, e) == w.unit;
    GenericParts(line, Number(w.value, w.decimals, e));
  }

  lemma {:induction false} ReadsGenericSettled(w: Shown)
    requires Writable(w) && w.decimals >= 1
    ensures ReadGeneric(Core(w, true)) == Some(Reading(w.value, w.decimals, w.unit, Stable, Unknown))
  {
    CalmCore(w, true);
    GenericLine([], w, Core(w, true));
  }

  lemma {:induction false} ReadsGenericMoving(w: Shown)
    requires Writable(w) && w.decimals >= 1
    ensures ReadGeneric([TILDE] + Slot(w, true)) == Some(Reading(w.value, w.decimals, w.unit, Unstable, Unknown))
  {
    var line := [TILDE] + Slot(w, true);
    CalmSlot(w, true);
    SlotIsLayout([TILDE], w, true);
    hide Slot, LayoutOf, Layout.Whole, ReadGeneric;
    assert line[0] == TILDE;
    GenericLine([TILDE] + Lead(w), w, line);
  }

  lemma {:induction false} ReadsGeneric(w: Shown)
    requires Writable(w) && w.decimals >= 1
    ensures Trim(Written(Generic, w)) != []
    ensures ReadGeneric(Trim(Written(Generic, w))) == Some(Expected(Generic, w))
  {
    hide Trim, Slot, Core, ReadGeneric;
    if w.settled {
      TrimBareSlot(w, true);
      ReadsGenericSettled(w);
      assert [] + Slot(w, true) == Slot(w, true);
    } else {
      TrimMarked([TILDE], w, true);
      ReadsGenericMoving(w);
    }
  }

  // ---------------------------------------------------------------------
  // Whole lines
  // ---------------------------------------------------------------------

  /** Printable ASCII. */
  predicate AllPrintable(s: Text) {
    forall i :: 0 <= i < |s| ==> 32 <= s[i] <= 126
  }

  lemma {:induction false} WrittenIsPrintable(protocol: Protocol, w: Shown)
    requires Writable(w)
    ensures AllPrintable(Written(protocol, w))
  {
    CalmSlot(w, true);
    CalmSlot(w, false);
    hide Slot;
    if protocol == Cas {
      assert AllPrintable(if w.settled then ST else US) && AllPrintable(MeasureText(w.measure));
      hide MeasureText;
      assert AllPrintable([COMMA] + Slot(w, false));
      assert AllPrintable(MeasureText(w.measure) + ([COMMA] + Slot(w, false)));
      assert AllPrintable([COMMA] + (MeasureText(w.measure) + ([COMMA] + Slot(w, false))));
    }
  }

  lemma {:induction false} WrittenIsRead(protocol: Protocol, w: Shown)
    requires Writable(w) && (protocol == Generic ==> w.decimals >= 1)
    ensures ReadLine(protocol, Written(protocol, w)) == Some(Expected(protocol, w))
  {
    var line := Written(protocol, w);
    WrittenIsPrintable(protocol, w);
    AsciiIsUtf8(line);
    match protocol {
      case Generic => ReadsGeneric(w);
      case Cas => ReadsCas(w);
      case MassaK => ReadsMassaK(w);
    }
    hide Trim, Written, ReadGeneric, ReadCas, ReadMassaK, IsUtf8;
  }

  lemma {:induction false} TerminatorsRun(data: Text, i: nat, k: nat)
    requires i <= k <= |data| && (forall j :: i <= j < k ==> IsTerminator(data[j]))
    requires k == |data| || !IsTerminator(data[k])
    ensures TerminatorsEnd(data, i) == k
    decreases k - i
  {
    if i < k {
      TerminatorsRun(data, i + 1, k);
    }
  }

  lemma {:induction false} LineEndAt(data: Text, i: nat, k: nat)
    requires i <= k < |data| && IsTerminator(data[k]) && forall j :: i <= j < k ==> !IsTerminator(data[j])
    ensures LineEnd(data, i) == k
  {
  }

  /** A line and the run of terminators behind it are one frame. */
  lemma {:induction false} FirstFrame(protocol: Protocol, line: Text, ends: Text, rest: Text)
    requires forall i :: 0 <= i < |line| ==> !IsTerminator(line[i])
    requires ends != [] && (forall i :: 0 <= i < |ends| ==> IsTerminator(ends[i]))
    requires rest == [] || !IsTerminator(rest[0])
    ensures ParseFrame(protocol, line + ends + rest) == Parsed(FrameOf(protocol, line), |line| + |ends|)
  {
    var data := line + ends + rest;
    hide FrameOf, LineEnd, TerminatorsEnd;
    assert forall i :: 0 <= i < |line| ==> data[i] == line[i];
    assert forall i :: |line| <= i < |line| + |ends| ==> data[i] == ends[i - |line|];
    assert rest != [] ==> data[|line| + |ends|] == rest[0];
    LineEndAt(data, 0, |line|);
    assert data[..|line|] == line;
    TerminatorsRun(data, |line|, |line| + |ends|);
  }

  /**
   * Every weight a scale can show, written in its dialect and ended by any run of carriage returns and line feeds, is
   * the first frame of the stream and comes back exactly: same integer, same exponent, same unit, same stability.
   */
  lemma {:induction false} WeightsPrintAndParse(protocol: Protocol, w: Shown, ends: Text, rest: Text)
    requires Writable(w) && (protocol == Generic ==> w.decimals >= 1)
    requires ends != [] && (forall i :: 0 <= i < |ends| ==> IsTerminator(ends[i]))
    requires rest == [] || !IsTerminator(rest[0])
    ensures ParseFrame(protocol, Written(protocol, w) + ends + rest)
         == Parsed(ReadingFrame(Expected(protocol, w)), |Written(protocol, w)| + |ends|)
  {
    WrittenIsPrintable(protocol, w);
    WrittenIsRead(protocol, w);
    hide Written, ReadLine, Expected, ParseFrame;
    FirstFrame(protocol, Written(protocol, w), ends, rest);
  }
}
