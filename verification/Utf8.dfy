/** Which byte strings `str::from_utf8` accepts: the well-formed sequences of table 3-7 of the Unicode Standard. */
module Utf8 {
  import opened Wire

  predicate Tail(b: byte) {
    0x80 <= b <= 0xBF
  }

  /** The length of the character a string starts with, or 0 when it starts with none. */
  function CharLen(s: seq<byte>): (n: nat)
    ensures n <= |s| && n <= 4
  {
    if |s| >= 1 && s[0] <= 0x7F then 1
    else if |s| >= 2 && 0xC2 <= s[0] <= 0xDF && Tail(s[1]) then 2
    else if |s| >= 3 && Tail(s[1]) && Tail(s[2])
         && ((s[0] == 0xE0 && s[1] >= 0xA0) || 0xE1 <= s[0] <= 0xEC || (s[0] == 0xED && s[1] <= 0x9F)
             || 0xEE <= s[0] <= 0xEF) then 3
    else if |s| >= 4 && Tail(s[1]) && Tail(s[2]) && Tail(s[3])
         && ((s[0] == 0xF0 && s[1] >= 0x90) || 0xF1 <= s[0] <= 0xF3 || (s[0] == 0xF4 && s[1] <= 0x8F)) then 4
    else 0
  }

  predicate IsUtf8(s: seq<byte>)
    decreases |s|
  {
    s == [] || (CharLen(s) > 0 && IsUtf8(s[CharLen(s)..]))
  }

  // ---------------------------------------------------------------------
  // The characters such a string holds
  // ---------------------------------------------------------------------

  /** A Unicode scalar value: any code point but the surrogates. */
  predicate Scalar(c: int) {
    0 <= c < 55296 || 57344 <= c < 1114112
  }

  /** Table 3-6: one octet, or two to four with six bits of the character in each but the first. */
  function Encoding(c: int): (s: seq<byte>)
    requires Scalar(c)
    ensures s != []
  {
    if c < 128 then [c]
    else if c < 2048 then [192 + c / 64, 128 + c % 64]
    else if c < 65536 then [224 + c / 4096, 128 + c / 64 % 64, 128 + c % 64]
    else [240 + c / 262144, 128 + c / 4096 % 64, 128 + c / 64 % 64, 128 + c % 64]
  }

  predicate Scalars(cs: seq<int>) {
    forall i :: 0 <= i < |cs| ==> Scalar(cs[i])
  }

  function EncodeAll(cs: seq<int>): seq<byte>
    requires Scalars(cs)
  {
    if cs == [] then [] else Encoding(cs[0]) + EncodeAll(cs[1..])
  }

  lemma {:induction false} EncodeCons(c: int, cs: seq<int>)
    requires Scalar(c) && Scalars(cs)
    ensures Scalars([c] + cs) && EncodeAll([c] + cs) == Encoding(c) + EncodeAll(cs)
  {
    hide Encoding;
    assert ([c] + cs)[1..] == cs;
  }

  lemma {:induction false} CharLenOfEncoding(c: int, rest: seq<byte>)
    requires Scalar(c)
    ensures CharLen(Encoding(c) + rest) == |Encoding(c)|
  {
    OctetsOf(c);
    hide Encoding, Scalar;
    var e := Encoding(c);
    assert forall i :: 0 <= i < |e| ==> (e + rest)[i] == e[i];
  }

  /** What stands where in the encoding of a character. */
  lemma {:induction false} OctetsOf(c: int)
    requires Scalar(c)
    ensures var e := Encoding(c);
            && |e| <= 4 && (forall i :: 1 <= i < |e| ==> Tail(e[i]))
            && (|e| == 1 ==> e[0] <= 127) && (|e| == 2 ==> 194 <= e[0] <= 223)
            && (|e| == 3 ==> 224 <= e[0] <= 239 && (e[0] == 224 ==> e[1] >= 160) && (e[0] == 237 ==> e[1] <= 159))
            && (|e| == 4 ==> 240 <= e[0] <= 244 && (e[0] == 240 ==> e[1] >= 144) && (e[0] == 244 ==> e[1] <= 143))
  {
    if 2048 <= c < 65536 {
      ThreeParts(c);
    } else if c >= 65536 {
      FourParts(c);
    }
  }

  lemma {:induction false} ThreeParts(c: int)
    requires Scalar(c) && 2048 <= c < 65536
    ensures c / 4096 <= 15 && (c / 4096 == 0 ==> c / 64 % 64 >= 32) && (c / 4096 == 13 ==> c / 64 % 64 < 32)
  {
  }

  lemma {:induction false} FourParts(c: int)
    requires 65536 <= c < 1114112
    ensures c / 262144 <= 4 && (c / 262144 == 0 ==> c / 4096 % 64 >= 16) && (c / 262144 == 4 ==> c / 4096 % 64 < 16)
  {
  }

  lemma {:induction false} EncodedIsUtf8(cs: seq<int>)
    requires Scalars(cs)
    ensures IsUtf8(EncodeAll(cs))
  {
    if cs != [] {
      CharLenOfEncoding(cs[0], EncodeAll(cs[1..]));
      EncodedIsUtf8(cs[1..]);
      hide CharLen, Encoding;
      assert EncodeAll(cs)[|Encoding(cs[0])|..] == EncodeAll(cs[1..]);
    }
  }

  /** The character a string starts with. */
  function FirstChar(s: seq<byte>): (c: int)
    requires CharLen(s) > 0
  {
    if CharLen(s) == 1 then s[0]
    else if CharLen(s) == 2 then 64 * (s[0] as int - 192) + (s[1] as int - 128)
    else if CharLen(s) == 3 then 4096 * (s[0] as int - 224) + 64 * (s[1] as int - 128) + (s[2] as int - 128)
    else 262144 * (s[0] as int - 240) + 4096 * (s[1] as int - 128) + 64 * (s[2] as int - 128) + (s[3] as int - 128)
  }

  lemma {:induction false} FirstCharEncodes(s: seq<byte>)
    requires CharLen(s) > 0
    ensures Scalar(FirstChar(s)) && Encoding(FirstChar(s)) == s[..CharLen(s)]
  {
    hide Encoding, Scalar;
    if CharLen(s) == 1 {
      OneOctet(s[0]);
    } else if CharLen(s) == 2 {
      TwoOctets(s[0], s[1]);
    } else if CharLen(s) == 3 {
      ThreeOctets(s[0], s[1], s[2]);
    } else {
      FourOctets(s[0], s[1], s[2], s[3]);
    }
  }

  lemma {:induction false} OneOctet(a: byte)
    requires a <= 127
    ensures Scalar(a) && Encoding(a) == [a]
  {
  }

  lemma {:induction false} TwoOctets(a: byte, b: byte)
    requires 194 <= a <= 223 && Tail(b)
    ensures var x := 64 * (a as int - 192) + (b as int - 128); Scalar(x) && Encoding(x) == [a, b]
  {
    SixBits(a as int - 192, b as int - 128);
  }

  /** Six bits behind the rest. */
  lemma {:induction false} SixBits(rest: nat, bits: nat)
    requires bits < 64
    ensures (64 * rest + bits) / 64 == rest && (64 * rest + bits) % 64 == bits
  {
  }

  lemma {:induction false} ThreeOctets(a: byte, b: byte, c: byte)
    requires 224 <= a <= 239 && Tail(b) && Tail(c) && (a == 224 ==> b >= 160) && (a == 237 ==> b <= 159)
    ensures var x := 4096 * (a as int - 224) + 64 * (b as int - 128) + (c as int - 128);
            Scalar(x) && Encoding(x) == [a, b, c]
  {
    var high := 64 * (a as int - 224) + (b as int - 128);
    var x := 64 * high + (c as int - 128);
    SixBits(high, c as int - 128);
    SixBits(a as int - 224, b as int - 128);
    assert x / 4096 == x / 64 / 64;
  }

  lemma {:induction false} FourOctets(a: byte, b: byte, c: byte, d: byte)
    requires 240 <= a <= 244 && Tail(b) && Tail(c) && Tail(d) && (a == 240 ==> b >= 144) && (a == 244 ==> b <= 143)
    ensures var x := 262144 * (a as int - 240) + 4096 * (b as int - 128) + 64 * (c as int - 128) + (d as int - 128);
            Scalar(x) && Encoding(x) == [a, b, c, d]
  {
    FourDigits(a, b, c, d);
  }

  lemma {:induction false} FourDigits(a: byte, b: byte, c: byte, d: byte)
    requires 240 <= a <= 244 && Tail(b) && Tail(c) && Tail(d)
    ensures var x := 262144 * (a as int - 240) + 4096 * (b as int - 128) + 64 * (c as int - 128) + (d as int - 128);
            && x / 262144 == a as int - 240 && x / 4096 % 64 == b as int - 128
            && x / 64 % 64 == c as int - 128 && x % 64 == d as int - 128
  {
    var top := 64 * (a as int - 240) + (b as int - 128);
    var high := 64 * top + (c as int - 128);
    var x := 64 * high + (d as int - 128);
    SixBits(high, d as int - 128);
    SixBits(top, c as int - 128);
    SixBits(a as int - 240, b as int - 128);
    assert x / 4096 == x / 64 / 64 && x / 262144 == x / 4096 / 64;
  }

  lemma {:induction false} Utf8IsEncoded(s: seq<byte>) returns (cs: seq<int>)
    requires IsUtf8(s)
    ensures Scalars(cs)
    ensures EncodeAll(cs) == s
    decreases |s|
  {
    if s == [] {
      cs := [];
    } else {
      FirstCharEncodes(s);
      hide CharLen, FirstChar, Encoding, EncodeAll, Scalar, Scalars;
      var rest := Utf8IsEncoded(s[CharLen(s)..]);
      EncodeCons(FirstChar(s), rest);
      cs := [FirstChar(s)] + rest;
      assert s == s[..CharLen(s)] + s[CharLen(s)..];
    }
  }

  /** What is accepted is what encodes a string of Unicode scalar values, and nothing else. */
  lemma {:induction false} IsUtf8Iff(s: seq<byte>)
    ensures IsUtf8(s) <==> exists cs: seq<int> :: Scalars(cs) && EncodeAll(cs) == s
  {
    if IsUtf8(s) {
      var cs := Utf8IsEncoded(s);
    }
    if cs: seq<int> :| Scalars(cs) && EncodeAll(cs) == s {
      EncodedIsUtf8(cs);
    }
  }
}
