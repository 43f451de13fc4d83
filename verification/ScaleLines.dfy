/** What a scale's line says, in octets: white space, numbers, units and fields. */
module ScaleLines {
  import opened Wire
  import opened Utf8
  import opened Decimals
  import opened Names
  import opened Scales
  import opened ScaleWeights
  import Sequences

  // ---------------------------------------------------------------------
  // White space
  // ---------------------------------------------------------------------

  /** The code points with the Unicode property White_Space. */
  predicate WhiteSpace(c: int) {
    || 9 <= c <= 13 || c == 32 || c == 133 || c == 160 || c == 5760 || 8192 <= c <= 8202
    || c == 8232 || c == 8233 || c == 8239 || c == 8287 || c == 12288
  }

  lemma {:induction false} SpaceCharIff(c: int)
    requires Scalar(c)
    ensures IsSpaceChar(Encoding(c)) <==> WhiteSpace(c)
  {
  }

  /** What `IsSpaceChar` accepts is a character. */
  lemma {:induction false} SpaceCharIsEncoded(s: Text)
    requires IsSpaceChar(s)
    ensures CharLen(s) == |s| && Scalar(FirstChar(s)) && Encoding(FirstChar(s)) == s && WhiteSpace(FirstChar(s))
  {
    FirstCharEncodes(s);
    assert s[..|s|] == s;
    SpaceCharIff(FirstChar(s));
  }

  ghost predicate StartsWithSpace(s: Text) {
    exists n :: 1 <= n <= |s| && IsSpaceChar(s[..n])
  }

  ghost predicate EndsWithSpace(s: Text) {
    exists n :: 0 <= n < |s| && IsSpaceChar(s[n..])
  }

  lemma {:induction false} AtStartIff(s: Text)
    ensures SpaceAtStart(s) > 0 <==> StartsWithSpace(s)
    ensures SpaceAtStart(s) > 0 ==> IsSpaceChar(s[..SpaceAtStart(s)])
  {
    hide IsSpaceChar;
    if n :| 1 <= n <= |s| && IsSpaceChar(s[..n]) {
      SpaceCharIsEncoded(s[..n]);
      SpaceIsShort(s[..n]);
    }
  }

  lemma {:induction false} SpaceIsShort(c: Text)
    ensures IsSpaceChar(c) ==> 1 <= |c| <= 3
  {
  }

  lemma {:induction false} AtEndIff(s: Text)
    ensures SpaceAtEnd(s) > 0 <==> EndsWithSpace(s)
    ensures SpaceAtEnd(s) > 0 ==> IsSpaceChar(s[|s| - SpaceAtEnd(s)..])
  {
    hide IsSpaceChar;
    var k := SpaceAtEnd(s);
    if k > 0 {
      assert IsSpaceChar(s[|s| - k..]);
    } else {
      forall n | 0 <= n < |s| ensures !IsSpaceChar(s[n..]) {
        if |s| - 3 <= n {
          assert n == |s| - 1 || n == |s| - 2 || n == |s| - 3;
        } else {
          SpaceIsShort(s[n..]);
        }
      }
    }
  }

  ghost predicate AllSpaces(cs: seq<int>) {
    forall i :: 0 <= i < |cs| ==> WhiteSpace(cs[i])
  }

  lemma {:induction false} SpacesCons(c: int, cs: seq<int>)
    requires WhiteSpace(c) && AllSpaces(cs)
    ensures Scalars(cs) && AllSpaces([c] + cs) && EncodeAll([c] + cs) == Encoding(c) + EncodeAll(cs)
  {
    EncodeCons(c, cs);
    hide EncodeAll, Encoding;
  }

  lemma {:induction false} EncodeSnoc(cs: seq<int>, c: int)
    requires WhiteSpace(c) && AllSpaces(cs)
    ensures Scalars(cs) && AllSpaces(cs + [c]) && EncodeAll(cs + [c]) == EncodeAll(cs) + Encoding(c)
  {
    hide Encoding;
    if cs == [] {
      assert cs + [c] == [c] && [c][1..] == [];
    } else {
      assert (cs + [c])[1..] == cs[1..] + [c];
      EncodeSnoc(cs[1..], c);
    }
  }

  lemma {:induction false} TrimSteps(s: Text)
    ensures SpaceAtStart(s) == 0 ==> TrimStart(s) == s
    ensures SpaceAtStart(s) > 0 ==> TrimStart(s) == TrimStart(s[SpaceAtStart(s)..])
    ensures SpaceAtEnd(s) == 0 ==> TrimEnd(s) == s
    ensures SpaceAtEnd(s) > 0 ==> TrimEnd(s) == TrimEnd(s[..|s| - SpaceAtEnd(s)])
  {
    hide SpaceAtStart, SpaceAtEnd;
  }

  lemma {:induction false} NoSpaces()
    ensures AllSpaces([]) && EncodeAll([]) == []
  {
  }

  lemma {:induction false} TrimStartIs(s: Text) returns (cs: seq<int>)
    ensures AllSpaces(cs) && s == EncodeAll(cs) + TrimStart(s) && !StartsWithSpace(TrimStart(s))
    decreases |s|
  {
    hide *;
    AtStartIff(s);
    TrimSteps(s);
    NoSpaces();
    cs := [];
    var n := SpaceAtStart(s);
    if n > 0 {
      SpaceCharIsEncoded(s[..n]);
      var c := FirstChar(s[..n]);
      var rest := TrimStartIs(s[n..]);
      SpacesCons(c, rest);
      cs := [c] + rest;
      Sequences.Assoc(Encoding(c), EncodeAll(rest), TrimStart(s));
      assert s == s[..n] + s[n..];
    }
  }

  lemma {:induction false} TrimEndIs(s: Text) returns (cs: seq<int>)
    ensures AllSpaces(cs) && s == TrimEnd(s) + EncodeAll(cs) && !EndsWithSpace(TrimEnd(s))
    decreases |s|
  {
    hide *;
    AtEndIff(s);
    TrimSteps(s);
    NoSpaces();
    cs := [];
    var n := |s| - SpaceAtEnd(s);
    if n < |s| {
      SpaceCharIsEncoded(s[n..]);
      var c := FirstChar(s[n..]);
      var rest := TrimEndIs(s[..n]);
      EncodeSnoc(rest, c);
      cs := rest + [c];
      Sequences.Assoc(TrimEnd(s), EncodeAll(rest), Encoding(c));
      assert s == s[..n] + s[n..];
    }
  }

  /** Trimming takes white space from both ends, and all of it. */
  lemma {:induction false} TrimIs(s: Text) returns (front: seq<int>, back: seq<int>)
    ensures AllSpaces(front) && AllSpaces(back) && s == EncodeAll(front) + Trim(s) + EncodeAll(back)
    ensures !StartsWithSpace(Trim(s)) && !EndsWithSpace(Trim(s))
  {
    front := TrimStartIs(s);
    var inner := TrimStart(s);
    back := TrimEndIs(inner);
    hide IsSpaceChar, EndsWithSpace, SpaceAtEnd, TrimStart, TrimEnd;
    PrefixStarts(TrimEnd(inner), inner);
  }

  lemma {:induction false} PrefixStarts(t: Text, s: Text)
    requires t <= s
    ensures StartsWithSpace(t) ==> StartsWithSpace(s)
  {
    hide IsSpaceChar;
    if n :| 1 <= n <= |t| && IsSpaceChar(t[..n]) {
      assert s[..n] == t[..n];
    }
  }

  // ---------------------------------------------------------------------
  // Numbers
  // ---------------------------------------------------------------------

  predicate DigitAt(s: Text, i: int) {
    0 <= i < |s| && 48 <= s[i] <= 57
  }

  /** A digit, a point or comma, a digit. */
  predicate PointAt(s: Text, i: int) {
    DigitAt(s, i) && DigitAt(s, i + 2) && (s[i + 1] == 46 || s[i + 1] == 44)
  }

  /** Without such a point a whole line has no number, whatever integers stand in it; a field needs one digit only. */
  lemma {:induction false} MatchIff(s: Text)
    ensures FirstMatch(s, WholeLine, 0) < |s| <==> exists i :: PointAt(s, i)
    ensures FirstMatch(s, Field, 0) < |s| <==> exists i :: DigitAt(s, i)
  {
    hide MatchesAt;
    var p, q := FirstMatch(s, WholeLine, 0), FirstMatch(s, Field, 0);
    if p < |s| {
      MatchHasPoint(s, p);
    }
    if i :| PointAt(s, i) {
      PointMatches(s, i);
    }
    if q < |s| {
      MatchHasDigit(s, q);
    }
    if i :| DigitAt(s, i) {
      DigitMatches(s, i);
    }
  }

  lemma {:induction false} MatchHasPoint(s: Text, p: nat)
    requires p < |s| && MatchesAt(s, WholeLine, p)
    ensures exists i :: PointAt(s, i)
  {
    var from := DigitsStart(s, p);
    var j := DigitsEnd(s, from);
    DigitsEndAll(s, from, j);
    assert IsDigit(s[j - 1]) && IsDigit(s[j + 1]);
    assert PointAt(s, j - 1);
  }

  lemma {:induction false} PointMatches(s: Text, i: nat)
    requires PointAt(s, i)
    ensures MatchesAt(s, WholeLine, i)
  {
    assert DigitsEnd(s, i + 1) == i + 1 && DigitsEnd(s, i) == i + 1;
    assert DigitsEnd(s, i + 2) > i + 2;
  }

  lemma {:induction false} MatchHasDigit(s: Text, p: nat)
    requires p < |s| && MatchesAt(s, Field, p)
    ensures exists i :: DigitAt(s, i)
  {
    var from := DigitsStart(s, p);
    assert DigitAt(s, from);
  }

  lemma {:induction false} DigitMatches(s: Text, i: nat)
    requires DigitAt(s, i)
    ensures MatchesAt(s, Field, i)
  {
  }

  /** A number that does not fit in 64 bits is none, and the scanner looks for no other. */
  lemma {:induction false} TooLargeIsNone(l: Layout, scan: Scan)
    requires l.Valid(scan)
    ensures var v := if l.sign == [45] then -Value(l.digits + l.fraction) else Value(l.digits + l.fraction);
            Scanned(l.Whole(), scan) == None <==> !(-9223372036854775808 <= v <= 9223372036854775807)
  {
    assert (l.fraction == [] <==> l.dot == []) && |l.dot| <= 1 && l.tail != [] && l.digits != [];
    var s, a := l.Whole(), l.SignAt();
    var sign := l.sign == [MINUS];
    if Signed(sign, l.digits + l.fraction).Some? {
      ScanLayout(l, scan, Signed(sign, l.digits + l.fraction).value);
    } else {
      assert Inert(l.before) && (scan == WholeLine ==> l.fraction != []);
      ScanSteps(l, scan);
      DigitsRead(l);
      AroundTheNumber(l);
      hide Layout.Whole, Layout.Valid, DigitsStart, DigitsEnd, FractionEnd, Inert, FirstMatch, NumberDigits, Value;
      InertNeverMatches(s, a, scan);
      SkipTo(s, scan, 0, a);
      assert MatchesAt(s, scan, a);
      StopsHere(s, scan, a);
    }
  }

  lemma {:induction false} StopsHere(s: Text, scan: Scan, a: nat)
    requires a < |s| && MatchesAt(s, scan, a)
    ensures FirstMatch(s, scan, a) == a
  {
  }

  // ---------------------------------------------------------------------
  // Units
  // ---------------------------------------------------------------------

  /** `g` or `gs`, capital or not. */
  predicate SpellsGram(w: Text) {
    1 <= |w| <= 2 && w[0] in {71, 103} && (|w| == 2 ==> w[1] in {83, 115})
  }

  /** `lb` or `lbs`, capital or not. */
  predicate SpellsPound(w: Text) {
    2 <= |w| <= 3 && w[0] in {76, 108} && w[1] in {66, 98} && (|w| == 3 ==> w[2] in {83, 115})
  }

  predicate LetterAt(s: Text, i: int) {
    0 <= i < |s| && (65 <= s[i] <= 90 || 97 <= s[i] <= 122)
  }

  predicate BlankAt(s: Text, i: int) {
    0 <= i < |s| && (s[i] == 32 || s[i] == 9)
  }

  /** The letters behind a number and its blanks name the unit; any others, or none, mean kilograms. */
  lemma {:induction false} UnitIs(s: Text, from: nat, at: nat, end: nat)
    requires from <= at <= end <= |s| && !BlankAt(s, at) && !LetterAt(s, end)
    requires (forall i :: from <= i < at ==> BlankAt(s, i)) && (forall i :: at <= i < end ==> LetterAt(s, i))
    ensures var w := s[at..end];
            UnitAfter(s, from) == if SpellsGram(w) then Gram else if SpellsPound(w) then Pound else Kilogram
  {
    forall i | from <= i < at ensures IsBlank(s[i]) {
      assert BlankAt(s, i);
    }
    forall i | at <= i < end ensures IsLetter(s[i]) {
      assert LetterAt(s, i);
    }
    BlanksRun(s, from, at);
    LettersRun(s, at, end);
    NamedIs(s[at..end]);
    hide UnitNamed, FoldLabel, SpellsGram, SpellsPound;
  }

  lemma {:induction false} NamedIs(w: Text)
    ensures UnitNamed(FoldLabel(w)) == if SpellsGram(w) then Gram else if SpellsPound(w) then Pound else Kilogram
  {
    var f := FoldLabel(w);
    assert |f| == |w| && forall i :: 0 <= i < |w| ==> f[i] == Lower(w[i]);
    assert f == [103] <==> |f| == 1 && f[0] == 103;
    assert f == [103, 115] <==> |f| == 2 && f[0] == 103 && f[1] == 115;
    assert f == [108, 98] <==> |f| == 2 && f[0] == 108 && f[1] == 98;
    assert f == [108, 98, 115] <==> |f| == 3 && f[0] == 108 && f[1] == 98 && f[2] == 115;
    hide FoldLabel;
  }

  // ---------------------------------------------------------------------
  // Fields
  // ---------------------------------------------------------------------

  /** Fewer than two commas leave one field or two. */
  lemma {:induction false} FewFields(a: Text, b: Text)
    requires 44 !in a && 44 !in b
    ensures SplitThree(a) == [a] && SplitThree(a + [44] + b) == [a, b]
  {
    hide FindComma;
    var s := a + [44] + b;
    assert FindComma(s) == |a| by {
      assert s[|a|] == 44 && forall i :: 0 <= i < |a| ==> s[i] == a[i];
    }
    assert s[..|a|] == a && s[|a| + 1..] == b;
  }

  /** Only the comma-separated dialect says what was weighed: `GS` or `NT` in its second field. */
  lemma {:induction false} MeasureIffMarked(protocol: Protocol, line: Text)
    requires ReadLine(protocol, line).Some?
    ensures var m, parts := ReadLine(protocol, line).value.measure, SplitThree(Trim(line));
            && (m == Gross <==> protocol == Cas && |parts| >= 2 && Trim(parts[1]) == [71, 83])
            && (m == Net <==> protocol == Cas && |parts| >= 2 && Trim(parts[1]) == [78, 84])
  {
    hide Trim, IsUtf8, Scanned, UnitAfter, ContainsWord, CasStability, SplitThree;
  }

  /** A line that is not UTF-8 or holds only white space is no reading; nor is one whose third field is missing. */
  lemma {:induction false} NoReading(protocol: Protocol, line: Text)
    ensures !IsUtf8(line) || Trim(line) == [] ==> ReadLine(protocol, line) == None
    ensures protocol == Cas && |SplitThree(Trim(line))| < 3 && !MarksOffScale(Cas, Trim(line)) ==>
              ReadLine(protocol, line) == None
  {
    if protocol == Cas {
      CasMarks(Trim(line));
    }
    hide Trim, IsUtf8, Scanned, UnitAfter, SplitThree, CasStability, IsCode, FirstField;
  }
}
