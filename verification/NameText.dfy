/** The textual form of a name: dots between labels, `\.` and `\\` escaped, `\DDD` for what does not print. */
module NameText {
  import opened Wire
  import opened Names
  import Sequences

  const DOT: byte := 46
  const BACKSLASH: byte := 92

  predicate Printable(b: byte) {
    32 <= b <= 126
  }

  predicate NonEmptyLabels(labels: seq<Label>) {
    forall i :: 0 <= i < |labels| ==> labels[i] != []
  }

  predicate AllPrintable(labels: seq<Label>) {
    forall i, j :: 0 <= i < |labels| && 0 <= j < |labels[i]| ==> Printable(labels[i][j])
  }

  // ---------------------------------------------------------------------
  // Printing
  // ---------------------------------------------------------------------

  function Digits(b: byte): (s: seq<byte>)
    ensures |s| == 3 && forall i :: 0 <= i < 3 ==> 48 <= s[i] <= 57
  {
    [48 + b / 100, 48 + b / 10 % 10, 48 + b % 10]
  }

  function EscapeByte(b: byte): (s: seq<byte>)
    ensures s != []
  {
    if b == DOT || b == BACKSLASH then [BACKSLASH, b]
    else if Printable(b) then [b]
    else [BACKSLASH] + Digits(b)
  }

  function EscapeLabel(l: Label): seq<byte> {
    if l == [] then [] else EscapeByte(l[0]) + EscapeLabel(l[1..])
  }

  function DisplayLabels(labels: seq<Label>): seq<byte> {
    if labels == [] then []
    else if |labels| == 1 then EscapeLabel(labels[0])
    else EscapeLabel(labels[0]) + [DOT] + DisplayLabels(labels[1..])
  }

  function Display(name: Name): seq<byte> {
    DisplayLabels(name.labels)
  }

  lemma {:induction false} DisplayCons(labels: seq<Label>)
    ensures DisplayLabels([]) == []
    ensures |labels| == 1 ==> DisplayLabels(labels) == EscapeLabel(labels[0])
    ensures |labels| > 1 ==> DisplayLabels(labels) == EscapeLabel(labels[0]) + [DOT] + DisplayLabels(labels[1..])
  {
  }

  lemma {:induction false} DisplaySnoc(labels: seq<Label>, i: nat)
    requires i < |labels|
    ensures DisplayLabels(labels[..i + 1])
         == DisplayLabels(labels[..i]) + (if i == 0 then [] else [DOT]) + EscapeLabel(labels[i])
  {
    hide DisplayLabels, EscapeLabel;
    Sequences.PrefixTail(labels, i + 1);
    DisplayCons(labels[..i + 1]);
    DisplayCons(labels[..i]);
    if i > 0 {
      Sequences.PrefixTail(labels, i);
      DisplaySnoc(labels[1..], i - 1);
    }
  }

  /** A dot or backslash behind a backslash, what prints as it is, anything else as its three decimal digits. */
  lemma {:induction false} EscapeOctets(b: byte)
    ensures var e := EscapeByte(b);
            if b == 46 || b == 92 then e == [92, b]
            else if 32 <= b <= 126 then e == [b]
            else && |e| == 4 && e[0] == 92 && (forall i :: 1 <= i < 4 ==> 48 <= e[i] <= 57)
                 && b == 100 * (e[1] as int - 48) + 10 * (e[2] as int - 48) + (e[3] as int - 48)
  {
    assert 100 * (b / 100) + 10 * (b / 10 % 10) + b % 10 == b;
  }

  /** One dot between two labels, and none at the end. */
  lemma {:induction false} DisplayDots(a: seq<Label>, b: seq<Label>)
    requires a != [] && b != []
    ensures DisplayLabels(a + b) == DisplayLabels(a) + [46] + DisplayLabels(b)
  {
    hide EscapeLabel;
    assert (a + b)[1..] == a[1..] + b;
    if |a| > 1 {
      DisplayDots(a[1..], b);
    } else {
      assert a[1..] + b == b;
    }
  }

  method FormatByte(b: byte, f: Buffer)
    modifies f
    ensures f.bytes == old(f.bytes) + EscapeByte(b)
  {
    if b == DOT {
      f.Extend([BACKSLASH, DOT]);
    } else if b == BACKSLASH {
      f.Extend([BACKSLASH, BACKSLASH]);
    } else if Printable(b) {
      f.Push(b);
    } else {
      f.Extend([BACKSLASH] + Digits(b));
    }
  }

  lemma {:induction false} EscapeCons(l: Label)
    ensures EscapeLabel([]) == []
    ensures l != [] ==> EscapeLabel(l) == EscapeByte(l[0]) + EscapeLabel(l[1..])
  {
  }

  lemma {:induction false} EscapeSnoc(l: Label, j: nat)
    requires j < |l|
    ensures EscapeLabel(l[..j + 1]) == EscapeLabel(l[..j]) + EscapeByte(l[j])
  {
    hide EscapeLabel, EscapeByte;
    Sequences.PrefixTail(l, j + 1);
    EscapeCons(l[..j + 1]);
    if j > 0 {
      Sequences.PrefixTail(l, j);
      EscapeCons(l[..j]);
      EscapeSnoc(l[1..], j - 1);
    }
  }

  method FormatLabel(l: Label, f: Buffer)
    modifies f
    ensures f.bytes == old(f.bytes) + EscapeLabel(l)
  {
    EscapeCons([]);
    hide EscapeLabel, EscapeByte;
    Sequences.Empty(f.bytes);
    for j := 0 to |l|
      invariant f.bytes == old(f.bytes) + EscapeLabel(l[..j])
    {
      EscapeSnoc(l, j);
      FormatByte(l[j], f);
      Sequences.Assoc(old(f.bytes), EscapeLabel(l[..j]), EscapeByte(l[j]));
    }
    Sequences.Whole(l);
  }

  method Format(name: Name, f: Buffer)
    modifies f
    ensures f.bytes == old(f.bytes) + Display(name)
  {
    DisplayCons([]);
    hide DisplayLabels, EscapeLabel;
    Sequences.Empty(f.bytes);
    var first := true;
    for i := 0 to |name.labels|
      invariant first <==> i == 0
      invariant f.bytes == old(f.bytes) + DisplayLabels(name.labels[..i])
    {
      ghost var before, gap := DisplayLabels(name.labels[..i]), if first then [] else [DOT];
      DisplaySnoc(name.labels, i);
      Sequences.Empty(f.bytes);
      if !first {
        f.Push(DOT);
      }
      first := false;
      FormatLabel(name.labels[i], f);
      Sequences.Assoc(old(f.bytes), before, gap);
      Sequences.Assoc(old(f.bytes), before + gap, EscapeLabel(name.labels[i]));
    }
    Sequences.Whole(name.labels);
  }

  // ---------------------------------------------------------------------
  // Parsing
  // ---------------------------------------------------------------------

  function Flush(current: Label): seq<Label> {
    if current == [] then [] else [current]
  }

  /** The labels a text splits into, `current` being the label under construction. */
  function Split(text: seq<byte>, current: Label): seq<Label>
    decreases |text|
  {
    if text == [] then Flush(current)
    else if text[0] == BACKSLASH && |text| > 1 then Split(text[2..], current + [text[1]])
    else if text[0] == DOT then Flush(current) + Split(text[1..], [])
    else Split(text[1..], current + [text[0]])
  }

  function FirstTooLong(labels: seq<Label>): Option<nat> {
    if labels == [] then None
    else if |labels[0]| > MAX_LABEL then Some(|labels[0]|)
    else FirstTooLong(labels[1..])
  }

  function ParseText(text: seq<byte>): Result<Name, NameError> {
    var labels := Split(text, []);
    match FirstTooLong(labels)
    case Some(n) => Err(LabelTooLong(n))
    case None =>
      if EncodedLen(Name(labels)) > MAX_NAME then Err(NameTooLong(EncodedLen(Name(labels)))) else Ok(Name(labels))
  }

  method Parse(bytes: seq<byte>) returns (r: Result<Name, NameError>)
    ensures r == ParseText(bytes)
  {
    var labels: seq<Label> := [];
    var current: Label := [];
    var i := 0;
    while i < |bytes|
      invariant 0 <= i <= |bytes|
      invariant labels + Split(bytes[i..], current) == Split(bytes, [])
    {
      ghost var rest := bytes[i..];
      assert rest[1..] == bytes[i + 1..];
      if bytes[i] == BACKSLASH && i + 1 < |bytes| {
        assert rest[2..] == bytes[i + 2..];
        current := current + [bytes[i + 1]];
        i := i + 2;
      } else if bytes[i] == DOT {
        assert labels + (Flush(current) + Split(rest[1..], [])) == (labels + Flush(current)) + Split(rest[1..], []);
        if current != [] {
          labels := labels + [current];
          current := [];
        }
        i := i + 1;
      } else {
        current := current + [bytes[i]];
        i := i + 1;
      }
    }
    assert bytes[i..] == [];
    if current != [] {
      labels := labels + [current];
    }
    assert labels == Split(bytes, []);
    for k := 0 to |labels|
      invariant FirstTooLong(labels[k..]) == FirstTooLong(labels)
    {
      if |labels[k]| > MAX_LABEL {
        return Err(LabelTooLong(|labels[k]|));
      }
      assert labels[k..][1..] == labels[k + 1..];
    }
    var name := Name(labels);
    if EncodedLen(name) > MAX_NAME {
      return Err(NameTooLong(EncodedLen(name)));
    }
    return Ok(name);
  }

  /** Splitting octet by octet: a dot ends a label, a backslash takes the next octet as it is or stands at the end. */
  lemma {:induction false} SplitSteps(b: byte, rest: seq<byte>, current: Label)
    ensures Split([], current) == if current == [] then [] else [current]
    ensures Split([46] + rest, current) == (if current == [] then [] else [current]) + Split(rest, [])
    ensures Split([92, b] + rest, current) == Split(rest, current + [b])
    ensures Split([92], current) == [current + [92]]
    ensures b != 46 && b != 92 ==> Split([b] + rest, current) == Split(rest, current + [b])
  {
    assert ([46] + rest)[1..] == rest && ([b] + rest)[1..] == rest && ([92, b] + rest)[2..] == rest;
    assert [92][1..] == [] && Split([], current + [92]) == [current + [92]];
    hide Flush;
  }

  /** What parsing answers once the text is split: the first label over 63 octets, the name over 255, or the name. */
  lemma {:induction false} ParseOutcome(text: seq<byte>, k: nat)
    ensures var labels, r := Split(text, []), ParseText(text);
            && (k < |labels| && |labels[k]| > 63 && (forall i :: 0 <= i < k ==> |labels[i]| <= 63) ==>
                  r == Err(LabelTooLong(|labels[k]|)))
            && ((forall i :: 0 <= i < |labels| ==> |labels[i]| <= 63) ==>
                  r == if WireLen(labels) + 1 > 255 then Err(NameTooLong(WireLen(labels) + 1)) else Ok(Name(labels)))
  {
    var labels := Split(text, []);
    FirstTooLongFinds(labels);
    hide Split, WireLen;
    if k < |labels| && |labels[k]| > 63 && forall i :: 0 <= i < k ==> |labels[i]| <= 63 {
      FirstTooLongIs(labels, k);
    }
  }

  lemma {:induction false} FirstTooLongIs(labels: seq<Label>, k: nat)
    requires k < |labels| && |labels[k]| > 63 && forall i :: 0 <= i < k ==> |labels[i]| <= 63
    ensures FirstTooLong(labels) == Some(|labels[k]|)
  {
    if k > 0 {
      assert forall i :: 0 <= i < k - 1 ==> labels[1..][i] == labels[i + 1];
      FirstTooLongIs(labels[1..], k - 1);
    }
  }

  lemma {:induction false} FirstTooLongFinds(labels: seq<Label>)
    ensures FirstTooLong(labels) == None <==> forall i :: 0 <= i < |labels| ==> |labels[i]| <= MAX_LABEL
  {
    if labels != [] {
      FirstTooLongFinds(labels[1..]);
      if forall i :: 0 <= i < |labels| ==> |labels[i]| <= MAX_LABEL {
        forall i | 0 <= i < |labels[1..]| ensures |labels[1..][i]| <= MAX_LABEL {
          assert labels[1..][i] == labels[i + 1];
        }
      } else {
        var i :| 0 <= i < |labels| && |labels[i]| > MAX_LABEL;
        if i > 0 {
          assert labels[1..][i - 1] == labels[i];
        }
      }
    }
  }

  lemma {:induction false} SplitNonEmpty(text: seq<byte>, current: Label)
    ensures NonEmptyLabels(Split(text, current))
    decreases |text|
  {
    if text == [] {
    } else if text[0] == BACKSLASH && |text| > 1 {
      SplitNonEmpty(text[2..], current + [text[1]]);
    } else if text[0] == DOT {
      SplitNonEmpty(text[1..], []);
    } else {
      SplitNonEmpty(text[1..], current + [text[0]]);
    }
  }

  /** A parsed name can be sent: its labels are 1 to 63 octets and it is at most 255 octets long. */
  lemma {:induction false} ParsedIsWellFormed(text: seq<byte>)
    requires ParseText(text).Ok?
    ensures WellFormed(ParseText(text).value) && EncodedLen(ParseText(text).value) <= 255
  {
    SplitNonEmpty(text, []);
    FirstTooLongFinds(Split(text, []));
  }

  // ---------------------------------------------------------------------
  // Parsing what was printed
  // ---------------------------------------------------------------------

  /** What a label turns into on its way through the text: a byte that does not print comes back as three digits. */
  function SpellOut(l: Label): Label {
    if l == [] then [] else (if Printable(l[0]) then [l[0]] else Digits(l[0])) + SpellOut(l[1..])
  }

  function SpellOutAll(labels: seq<Label>): (r: seq<Label>)
    ensures |r| == |labels|
  {
    if labels == [] then [] else [SpellOut(labels[0])] + SpellOutAll(labels[1..])
  }

  lemma {:induction false} SplitPlain(b: byte, rest: seq<byte>, current: Label)
    requires b != DOT && b != BACKSLASH
    ensures Split([b] + rest, current) == Split(rest, current + [b])
  {
    assert ([b] + rest)[1..] == rest;
  }

  lemma {:induction false} SplitEscaped(b: byte, rest: seq<byte>, current: Label)
    ensures Split([BACKSLASH, b] + rest, current) == Split(rest, current + [b])
  {
    assert ([BACKSLASH, b] + rest)[2..] == rest;
  }

  lemma {:induction false} SplitByte(b: byte, rest: seq<byte>, current: Label)
    ensures Split(EscapeByte(b) + rest, current)
         == Split(rest, current + (if Printable(b) then [b] else Digits(b)))
  {
    if b == DOT || b == BACKSLASH {
      SplitEscaped(b, rest, current);
    } else if Printable(b) {
      SplitPlain(b, rest, current);
    } else {
      var d := Digits(b);
      assert EscapeByte(b) + rest == [BACKSLASH, d[0]] + ([d[1]] + ([d[2]] + rest));
      SplitEscaped(d[0], [d[1]] + ([d[2]] + rest), current);
      SplitPlain(d[1], [d[2]] + rest, current + [d[0]]);
      SplitPlain(d[2], rest, current + [d[0]] + [d[1]]);
      assert current + [d[0]] + [d[1]] + [d[2]] == current + d;
    }
  }

  lemma {:induction false} SplitLabel(l: Label, rest: seq<byte>, current: Label)
    ensures Split(EscapeLabel(l) + rest, current) == Split(rest, current + SpellOut(l))
  {
    if l == [] {
      assert EscapeLabel(l) + rest == rest && current + [] == current;
    } else {
      var head := if Printable(l[0]) then [l[0]] else Digits(l[0]);
      hide Recover, EscapeByte;
      assert EscapeLabel(l) + rest == EscapeByte(l[0]) + (EscapeLabel(l[1..]) + rest);
      SplitByte(l[0], EscapeLabel(l[1..]) + rest, current);
      SplitLabel(l[1..], rest, current + head);
      assert current + head + SpellOut(l[1..]) == current + SpellOut(l);
    }
  }

  lemma {:induction false} SplitFirstLabel(l: Label, tail: seq<byte>)
    requires l != []
    ensures Split(EscapeLabel(l), []) == [SpellOut(l)]
    ensures Split(EscapeLabel(l) + [DOT] + tail, []) == [SpellOut(l)] + Split(tail, [])
  {
    assert SpellOut(l) != [] && [] + SpellOut(l) == SpellOut(l);
    assert EscapeLabel(l) + [] == EscapeLabel(l);
    SplitLabel(l, [], []);
    assert EscapeLabel(l) + [DOT] + tail == EscapeLabel(l) + ([DOT] + tail);
    SplitLabel(l, [DOT] + tail, []);
    assert ([DOT] + tail)[1..] == tail;
  }

  /** Splitting a printed name gives its labels back, spelled out. */
  lemma {:induction false} SplitOfDisplay(labels: seq<Label>)
    requires NonEmptyLabels(labels)
    ensures Split(DisplayLabels(labels), []) == SpellOutAll(labels)
  {
    if labels != [] {
      SplitFirstLabel(labels[0], DisplayLabels(labels[1..]));
      SplitOfDisplay(labels[1..]);
    }
  }

  lemma {:induction false} SpellOutLength(l: Label)
    ensures |SpellOut(l)| >= |l|
    ensures (forall j :: 0 <= j < |l| ==> Printable(l[j])) <==> SpellOut(l) == l
    ensures SpellOut(l) != l ==> |SpellOut(l)| > |l|
  {
    if l != [] {
      SpellOutLength(l[1..]);
      if Printable(l[0]) {
        assert l == [l[0]] + l[1..];
        if SpellOut(l) == l {
          assert SpellOut(l)[1..] == SpellOut(l[1..]);
        }
        if forall j :: 0 <= j < |l| ==> Printable(l[j]) {
          assert forall j :: 0 <= j < |l[1..]| ==> Printable(l[1..][j]);
        }
        if SpellOut(l[1..]) == l[1..] {
          forall j | 0 <= j < |l| ensures Printable(l[j]) {
            if j > 0 {
              assert l[j] == l[1..][j - 1];
            }
          }
        }
      }
    }
  }

  lemma {:induction false} SpelledSame(labels: seq<Label>)
    ensures SpellOutAll(labels) == labels <==> AllPrintable(labels)
  {
    if labels != [] {
      SpellOutLength(labels[0]);
      SpelledSame(labels[1..]);
      assert labels == [labels[0]] + labels[1..];
      if SpellOutAll(labels) == labels {
        assert SpellOutAll(labels)[0] == SpellOut(labels[0]) && SpellOutAll(labels)[1..] == SpellOutAll(labels[1..]);
        forall i, j | 0 <= i < |labels| && 0 <= j < |labels[i]| ensures Printable(labels[i][j]) {
          if i > 0 {
            assert labels[i] == labels[1..][i - 1];
          }
        }
      }
      if AllPrintable(labels) {
        forall i, j | 0 <= i < |labels[1..]| && 0 <= j < |labels[1..][i]| ensures Printable(labels[1..][i][j]) {
          assert labels[1..][i] == labels[i + 1];
        }
      }
    }
  }

  /**
   * The text form survives a round trip exactly when every byte prints: `\DDD` is written for the others and
   * read back as three digits. Dots and backslashes inside a label are covered.
   */
  lemma {:induction false} ParseInvertsDisplayIff(name: Name)
    requires LabelsFit(name.labels) && EncodedLen(name) <= 255
    ensures ParseText(Display(name)) == Ok(name) <==>
              forall i, j :: 0 <= i < |name.labels| && 0 <= j < |name.labels[i]| ==> 32 <= name.labels[i][j] <= 126
  {
    SplitOfDisplay(name.labels);
    SpelledSame(name.labels);
    FirstTooLongFinds(name.labels);
  }

  // ---------------------------------------------------------------------
  // Printing loses nothing
  // ---------------------------------------------------------------------

  predicate IsDigit(b: byte) {
    48 <= b <= 57
  }

  /** A reader that does understand `\DDD`; it exists to show that the printed text determines the name. */
  ghost function Recover(text: seq<byte>, current: Label): seq<Label>
    decreases |text|
  {
    if text == [] then Flush(current)
    else if text[0] == BACKSLASH && |text| >= 4 && IsDigit(text[1]) then
      var b: int := 100 * (text[1] as int - 48) + 10 * (text[2] as int - 48) + (text[3] as int - 48);
      if 0 <= b < 0x100 then Recover(text[4..], current + [b]) else []
    else if text[0] == BACKSLASH && |text| > 1 then Recover(text[2..], current + [text[1]])
    else if text[0] == DOT then Flush(current) + Recover(text[1..], [])
    else Recover(text[1..], current + [text[0]])
  }

  lemma {:induction false} RecoverByte(b: byte, rest: seq<byte>, current: Label)
    ensures Recover(EscapeByte(b) + rest, current) == Recover(rest, current + [b])
  {
    var t := EscapeByte(b) + rest;
    if b == DOT || b == BACKSLASH {
      assert t[2..] == rest;
    } else if Printable(b) {
      assert t[1..] == rest;
    } else {
      assert t[4..] == rest;
      assert 100 * (b / 100) + 10 * (b / 10 % 10) + b % 10 == b;
    }
  }

  lemma {:induction false} RecoverLabel(l: Label, rest: seq<byte>, current: Label)
    ensures Recover(EscapeLabel(l) + rest, current) == Recover(rest, current + l)
  {
    hide Recover, EscapeByte, EscapeLabel;
    EscapeCons(l);
    if l == [] {
      Sequences.Empty(rest);
      Sequences.Empty(current);
    } else {
      Sequences.Assoc(EscapeByte(l[0]), EscapeLabel(l[1..]), rest);
      RecoverByte(l[0], EscapeLabel(l[1..]) + rest, current);
      RecoverLabel(l[1..], rest, current + [l[0]]);
      Sequences.Assoc(current, [l[0]], l[1..]);
      assert l == [l[0]] + l[1..];
    }
  }

  lemma {:induction false} RecoverFlushes(l: Label, tail: seq<byte>)
    requires l != []
    ensures Recover([], l) == [l]
    ensures Recover([DOT] + tail, l) == [l] + Recover(tail, [])
  {
    assert ([DOT] + tail)[1..] == tail;
  }

  lemma {:induction false} RecoverOne(l: Label)
    requires l != []
    ensures Recover(EscapeLabel(l), []) == [l]
  {
    hide Recover, EscapeLabel;
    assert EscapeLabel(l) + [] == EscapeLabel(l) && [] + l == l;
    RecoverLabel(l, [], []);
    RecoverFlushes(l, []);
  }

  lemma {:induction false} RecoverFirst(l: Label, tail: seq<byte>)
    requires l != []
    ensures Recover(EscapeLabel(l) + [DOT] + tail, []) == [l] + Recover(tail, [])
  {
    hide Recover, EscapeLabel;
    assert EscapeLabel(l) + [DOT] + tail == EscapeLabel(l) + ([DOT] + tail) && [] + l == l;
    RecoverLabel(l, [DOT] + tail, []);
    RecoverFlushes(l, tail);
  }

  lemma {:induction false} RecoverOfDisplay(labels: seq<Label>)
    requires NonEmptyLabels(labels)
    ensures Recover(DisplayLabels(labels), []) == labels
  {
    if |labels| == 1 {
      RecoverOne(labels[0]);
    } else if labels != [] {
      hide Recover, EscapeLabel;
      RecoverFirst(labels[0], DisplayLabels(labels[1..]));
      RecoverOfDisplay(labels[1..]);
    }
  }

  /** Two names that print alike are the same name, whatever bytes they hold. */
  lemma {:induction false} DisplayInjective(a: Name, b: Name)
    requires NonEmptyLabels(a.labels) && NonEmptyLabels(b.labels) && Display(a) == Display(b)
    ensures a == b
  {
    RecoverOfDisplay(a.labels);
    RecoverOfDisplay(b.labels);
  }
}
