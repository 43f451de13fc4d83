/** An invite survives being read out and typed in again. */
module InviteTexts {
  import opened Wire
  import opened Invites
  import Sequences

  lemma {:induction false} NormaliseCons(s: string)
    ensures Normalise("") == ""
    ensures s != "" ==> Normalise(s) == (if Alphanumeric(s[0]) then [Upper(s[0])] else "") + Normalise(s[1..])
  {
  }

  lemma {:induction false} NormaliseConcat(a: string, b: string)
    ensures Normalise(a + b) == Normalise(a) + Normalise(b)
  {
    hide Normalise, Alphanumeric, Upper;
    NormaliseCons(a);
    if a == "" {
      Sequences.Empty(b);
      Sequences.Empty(Normalise(b));
    } else {
      Sequences.ConcatTail(a, b);
      NormaliseCons(a + b);
      NormaliseConcat(a[1..], b);
    }
  }

  predicate Canonical(s: string) {
    forall i :: 0 <= i < |s| ==> Alphanumeric(s[i]) && Upper(s[i]) == s[i]
  }

  lemma {:induction false} NormaliseCanonical(s: string)
    requires Canonical(s)
    ensures Normalise(s) == s
  {
    if s != "" {
      NormaliseCanonical(s[1..]);
    }
  }

  lemma {:induction false} NormaliseGrouped(s: string)
    requires Canonical(s)
    ensures Normalise(Grouped(s)) == s
    decreases |s|
  {
    if |s| <= 5 {
      NormaliseCanonical(s);
    } else {
      NormaliseGrouped(s[5..]);
      NormaliseConcat(s[..5] + "-", Grouped(s[5..]));
      NormaliseConcat(s[..5], "-");
      NormaliseCanonical(s[..5]);
      assert Normalise("-") == "" by {
        assert !Alphanumeric("-"[0]);
      }
      assert s[..5] + s[5..] == s;
    }
  }

  lemma {:induction false} HexIsCanonical(bytes: seq<byte>)
    ensures Canonical(Hex(bytes)) && |Hex(bytes)| == 2 * |bytes|
  {
    if bytes != [] {
      HexIsCanonical(bytes[1..]);
    }
  }

  lemma {:induction false} HexInjective(a: seq<byte>, b: seq<byte>)
    requires Hex(a) == Hex(b)
    ensures a == b
  {
    HexIsCanonical(a);
    HexIsCanonical(b);
    if a != [] {
      var x, y := Hex(a), Hex(b);
      assert x[0] == y[0] && x[1] == y[1];
      assert x[2..] == Hex(a[1..]) && y[2..] == Hex(b[1..]);
      HexInjective(a[1..], b[1..]);
      assert a == [a[0]] + a[1..] && b == [b[0]] + b[1..];
    }
  }

  /** Different random bytes never make the same invite, however it is typed. */
  lemma {:induction false} InvitesAreDistinct(a: seq<byte>, b: seq<byte>)
    ensures Normalise(Grouped(Hex(a))) == Hex(a)
    ensures Normalise(Grouped(Hex(a))) == Normalise(Grouped(Hex(b))) ==> a == b
  {
    HexIsCanonical(a);
    HexIsCanonical(b);
    NormaliseGrouped(Hex(a));
    NormaliseGrouped(Hex(b));
    if Hex(a) == Hex(b) {
      HexInjective(a, b);
    }
  }

  /** The letters and digits of a text, as they stand. */
  function Essence(text: string): string {
    if text == "" then ""
    else
      (if '0' <= text[0] <= '9' || 'A' <= text[0] <= 'Z' || 'a' <= text[0] <= 'z' then [text[0]] else "")
      + Essence(text[1..])
  }

  /** The same character, or the small and the capital form of one letter. */
  predicate SameLetter(x: char, y: char) {
    x == y || ('A' <= x <= 'Z' && y as int == x as int + 32) || ('a' <= x <= 'z' && y as int == x as int - 32)
  }

  predicate SameIgnoringCase(a: string, b: string) {
    |a| == |b| && forall i :: 0 <= i < |a| ==> SameLetter(a[i], b[i])
  }

  lemma {:induction false} EssenceDecides(text: string)
    ensures |Normalise(text)| == |Essence(text)|
    ensures forall i :: 0 <= i < |Essence(text)| ==>
              Alphanumeric(Essence(text)[i]) && Normalise(text)[i] == Upper(Essence(text)[i])
  {
    NormaliseCons(text);
    EssenceCons(text);
    hide Normalise, Essence;
    if text != "" {
      EssenceDecides(text[1..]);
    }
  }

  lemma {:induction false} EssenceCons(text: string)
    ensures Essence("") == ""
    ensures text != "" ==> Essence(text) == (if Alphanumeric(text[0]) then [text[0]] else "") + Essence(text[1..])
  {
  }

  /** Two texts are the same invite exactly when their letters and digits agree, whatever their case and spacing. */
  lemma {:induction false} SameInviteIff(a: string, b: string)
    ensures Normalise(a) == Normalise(b) <==> SameIgnoringCase(Essence(a), Essence(b))
  {
    EssenceDecides(a);
    EssenceDecides(b);
    hide Normalise, Essence;
    forall i | 0 <= i < |Essence(a)| && |Essence(a)| == |Essence(b)|
      ensures SameLetter(Essence(a)[i], Essence(b)[i]) <==> Normalise(a)[i] == Normalise(b)[i]
    {
      UpperMeans(Essence(a)[i], Essence(b)[i]);
    }
  }

  lemma {:induction false} UpperMeans(x: char, y: char)
    requires Alphanumeric(x) && Alphanumeric(y)
    ensures Upper(x) == Upper(y) <==> SameLetter(x, y)
  {
  }

  // ---------------------------------------------------------------------
  // What an invite looks like
  // ---------------------------------------------------------------------

  const DIGITS := "0123456789ABCDEF"

  lemma {:induction false} DigitOf(n: nat)
    requires n < 16
    ensures HexDigit(n) == DIGITS[n]
  {
  }

  lemma {:induction false} HexAt(bytes: seq<byte>, i: nat)
    requires i < |bytes|
    ensures |Hex(bytes)| == 2 * |bytes|
    ensures Hex(bytes)[2 * i] == DIGITS[bytes[i] / 16] && Hex(bytes)[2 * i + 1] == DIGITS[bytes[i] % 16]
  {
    HexIsCanonical(bytes);
    DigitOf(bytes[i] / 16);
    DigitOf(bytes[i] % 16);
    if i > 0 {
      HexAt(bytes[1..], i - 1);
    }
  }

  /** A hyphen behind every five characters but the last. */
  lemma {:induction false} GroupedAt(s: string, k: nat)
    requires s != "" && k < |Grouped(s)|
    ensures |Grouped(s)| == |s| + (|s| - 1) / 5
    ensures 0 <= k - k / 6 < |s| && Grouped(s)[k] == if k % 6 == 5 then '-' else s[k - k / 6]
    decreases |s|
  {
    if |s| > 5 {
      var rest := Grouped(s[5..]);
      assert Grouped(s) == s[..5] + "-" + rest;
      GroupedAt(s[5..], if k < 6 then 0 else k - 6);
    }
  }

  /** Ten random octets make four groups of five hexadecimal digits. */
  lemma {:induction false} InviteLooks(bytes: seq<byte>, k: nat)
    requires |bytes| == 10 && k < 23
    ensures |Grouped(Hex(bytes))| == 23
    ensures var d := k - k / 6;
            Grouped(Hex(bytes))[k] == if k % 6 == 5 then '-'
                                      else DIGITS[if d % 2 == 0 then bytes[d / 2] / 16 else bytes[d / 2] % 16]
  {
    HexIsCanonical(bytes);
    hide Grouped, Hex;
    GroupedLength(Hex(bytes));
    GroupedAt(Hex(bytes), k);
    var d := k - k / 6;
    if d < 20 {
      HexAt(bytes, d / 2);
    }
  }

  lemma {:induction false} GroupedLength(s: string)
    requires s != ""
    ensures |Grouped(s)| == |s| + (|s| - 1) / 5
    decreases |s|
  {
    if |s| > 5 {
      GroupedLength(s[5..]);
    }
  }
}
