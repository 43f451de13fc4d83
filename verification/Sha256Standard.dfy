/** The constants of SHA-256 and the digest of "abc", as FIPS 180-4 and its examples have them. */
module Sha256Standard {
  import opened Wire
  import opened Words
  import opened Sha256
  import Sequences

  // ---------------------------------------------------------------------
  // The constants (sections 4.2.2 and 5.3.3)
  // ---------------------------------------------------------------------

  /** The first sixty-four primes. */
  const PRIMES: seq<nat> :=
    [2, 3, 5, 7, 11, 13, 17, 19]
    + [23, 29, 31, 37, 41, 43, 47, 53]
    + [59, 61, 67, 71, 73, 79, 83, 89]
    + [97, 101, 103, 107, 109, 113, 127, 131]
    + [137, 139, 149, 151, 157, 163, 167, 173]
    + [179, 181, 191, 193, 197, 199, 211, 223]
    + [227, 229, 233, 239, 241, 251, 257, 263]
    + [269, 271, 277, 281, 283, 293, 307, 311]

  /** `whole` with the 32 bits of `low` behind the point is the square root of `n`, cut off. */
  predicate IsSquareRoot(n: nat, whole: nat, low: nat) {
    var c := whole * 0x1_0000_0000 + low;
    c * c <= n * 0x1_0000_0000_0000_0000 < (c + 1) * (c + 1)
  }

  predicate IsCubeRoot(n: nat, whole: nat, low: nat) {
    var c := whole * 0x1_0000_0000 + low;
    c * c * c <= n * 0x1_0000_0000_0000_0000_0000_0000 < (c + 1) * (c + 1) * (c + 1)
  }

  ghost predicate FractionOfSquareRoot(n: nat, low: nat) {
    exists whole: nat :: IsSquareRoot(n, whole, low)
  }

  ghost predicate FractionOfCubeRoot(n: nat, low: nat) {
    exists whole: nat :: IsCubeRoot(n, whole, low)
  }

  lemma {:induction false} SquareRootAt(i: nat, prime: nat, whole: nat, low: nat)
    requires i < 8 && PRIMES[i] == prime && INITIAL[i] as int == low && IsSquareRoot(prime, whole, low)
    ensures FractionOfSquareRoot(PRIMES[i], INITIAL[i] as int)
  {
  }

  lemma {:induction false} CubeRootAt(i: nat, prime: nat, whole: nat, low: nat)
    requires i < 64 && PRIMES[i] == prime && K[i] as int == low && IsCubeRoot(prime, whole, low)
    ensures FractionOfCubeRoot(PRIMES[i], K[i] as int)
  {
  }

  lemma {:induction false} Constants0()
    ensures |K| == 64 && |PRIMES| == 64
    ensures K[0] == 0x428a2f98 && K[1] == 0x71374491 && PRIMES[0] == 2 && PRIMES[1] == 3
    ensures K[2] == 0xb5c0fbcf && K[3] == 0xe9b5dba5 && PRIMES[2] == 5 && PRIMES[3] == 7
    ensures K[4] == 0x3956c25b && K[5] == 0x59f111f1 && PRIMES[4] == 11 && PRIMES[5] == 13
    ensures K[6] == 0x923f82a4 && K[7] == 0xab1c5ed5 && PRIMES[6] == 17 && PRIMES[7] == 19
  {
  }

  lemma {:induction false} Constants8()
    ensures |K| == 64 && |PRIMES| == 64
    ensures K[8] == 0xd807aa98 && K[9] == 0x12835b01 && PRIMES[8] == 23 && PRIMES[9] == 29
    ensures K[10] == 0x243185be && K[11] == 0x550c7dc3 && PRIMES[10] == 31 && PRIMES[11] == 37
    ensures K[12] == 0x72be5d74 && K[13] == 0x80deb1fe && PRIMES[12] == 41 && PRIMES[13] == 43
    ensures K[14] == 0x9bdc06a7 && K[15] == 0xc19bf174 && PRIMES[14] == 47 && PRIMES[15] == 53
  {
  }

  lemma {:induction false} Constants16()
    ensures |K| == 64 && |PRIMES| == 64
    ensures K[16] == 0xe49b69c1 && K[17] == 0xefbe4786 && PRIMES[16] == 59 && PRIMES[17] == 61
    ensures K[18] == 0x0fc19dc6 && K[19] == 0x240ca1cc && PRIMES[18] == 67 && PRIMES[19] == 71
    ensures K[20] == 0x2de92c6f && K[21] == 0x4a7484aa && PRIMES[20] == 73 && PRIMES[21] == 79
    ensures K[22] == 0x5cb0a9dc && K[23] == 0x76f988da && PRIMES[22] == 83 && PRIMES[23] == 89
  {
  }

  lemma {:induction false} Constants24()
    ensures |K| == 64 && |PRIMES| == 64
    ensures K[24] == 0x983e5152 && K[25] == 0xa831c66d && PRIMES[24] == 97 && PRIMES[25] == 101
    ensures K[26] == 0xb00327c8 && K[27] == 0xbf597fc7 && PRIMES[26] == 103 && PRIMES[27] == 107
    ensures K[28] == 0xc6e00bf3 && K[29] == 0xd5a79147 && PRIMES[28] == 109 && PRIMES[29] == 113
    ensures K[30] == 0x06ca6351 && K[31] == 0x14292967 && PRIMES[30] == 127 && PRIMES[31] == 131
  {
  }

  lemma {:induction false} Constants32()
    ensures |K| == 64 && |PRIMES| == 64
    ensures K[32] == 0x27b70a85 && K[33] == 0x2e1b2138 && PRIMES[32] == 137 && PRIMES[33] == 139
    ensures K[34] == 0x4d2c6dfc && K[35] == 0x53380d13 && PRIMES[34] == 149 && PRIMES[35] == 151
    ensures K[36] == 0x650a7354 && K[37] == 0x766a0abb && PRIMES[36] == 157 && PRIMES[37] == 163
    ensures K[38] == 0x81c2c92e && K[39] == 0x92722c85 && PRIMES[38] == 167 && PRIMES[39] == 173
  {
  }

  lemma {:induction false} Constants40()
    ensures |K| == 64 && |PRIMES| == 64
    ensures K[40] == 0xa2bfe8a1 && K[41] == 0xa81a664b && PRIMES[40] == 179 && PRIMES[41] == 181
    ensures K[42] == 0xc24b8b70 && K[43] == 0xc76c51a3 && PRIMES[42] == 191 && PRIMES[43] == 193
    ensures K[44] == 0xd192e819 && K[45] == 0xd6990624 && PRIMES[44] == 197 && PRIMES[45] == 199
    ensures K[46] == 0xf40e3585 && K[47] == 0x106aa070 && PRIMES[46] == 211 && PRIMES[47] == 223
  {
  }

  lemma {:induction false} Constants48()
    ensures |K| == 64 && |PRIMES| == 64
    ensures K[48] == 0x19a4c116 && K[49] == 0x1e376c08 && PRIMES[48] == 227 && PRIMES[49] == 229
    ensures K[50] == 0x2748774c && K[51] == 0x34b0bcb5 && PRIMES[50] == 233 && PRIMES[51] == 239
    ensures K[52] == 0x391c0cb3 && K[53] == 0x4ed8aa4a && PRIMES[52] == 241 && PRIMES[53] == 251
    ensures K[54] == 0x5b9cca4f && K[55] == 0x682e6ff3 && PRIMES[54] == 257 && PRIMES[55] == 263
  {
  }

  lemma {:induction false} Constants56()
    ensures |K| == 64 && |PRIMES| == 64
    ensures K[56] == 0x748f82ee && K[57] == 0x78a5636f && PRIMES[56] == 269 && PRIMES[57] == 271
    ensures K[58] == 0x84c87814 && K[59] == 0x8cc70208 && PRIMES[58] == 277 && PRIMES[59] == 281
    ensures K[60] == 0x90befffa && K[61] == 0xa4506ceb && PRIMES[60] == 283 && PRIMES[61] == 293
    ensures K[62] == 0xbef9a3f7 && K[63] == 0xc67178f2 && PRIMES[62] == 307 && PRIMES[63] == 311
  {
  }

  /** The initial hash value: 32 bits of the fractions of the square roots of the first eight primes. */
  lemma {:induction false} InitialAreSquareRoots()
    ensures |INITIAL| == 8 && forall i :: 0 <= i < 8 ==> FractionOfSquareRoot(PRIMES[i], INITIAL[i] as int)
  {
    hide FractionOfSquareRoot, PRIMES;
    Constants0();
    SquareRootAt(0, 2, 1, 0x6a09e667);
    SquareRootAt(1, 3, 1, 0xbb67ae85);
    SquareRootAt(2, 5, 2, 0x3c6ef372);
    SquareRootAt(3, 7, 2, 0xa54ff53a);
    SquareRootAt(4, 11, 3, 0x510e527f);
    SquareRootAt(5, 13, 3, 0x9b05688c);
    SquareRootAt(6, 17, 4, 0x1f83d9ab);
    SquareRootAt(7, 19, 4, 0x5be0cd19);
  }

  lemma {:induction false} CubeRoots0(i: nat)
    requires 0 <= i < 8
    ensures FractionOfCubeRoot(PRIMES[i], K[i] as int)
  {
    hide FractionOfCubeRoot, K, PRIMES;
    Constants0();
    match i {
      case 0 => CubeRootAt(0, 2, 1, 0x428a2f98);
      case 1 => CubeRootAt(1, 3, 1, 0x71374491);
      case 2 => CubeRootAt(2, 5, 1, 0xb5c0fbcf);
      case 3 => CubeRootAt(3, 7, 1, 0xe9b5dba5);
      case 4 => CubeRootAt(4, 11, 2, 0x3956c25b);
      case 5 => CubeRootAt(5, 13, 2, 0x59f111f1);
      case 6 => CubeRootAt(6, 17, 2, 0x923f82a4);
      case 7 => CubeRootAt(7, 19, 2, 0xab1c5ed5);
    }
  }

  lemma {:induction false} CubeRoots8(i: nat)
    requires 8 <= i < 16
    ensures FractionOfCubeRoot(PRIMES[i], K[i] as int)
  {
    hide FractionOfCubeRoot, K, PRIMES;
    Constants8();
    match i {
      case 8 => CubeRootAt(8, 23, 2, 0xd807aa98);
      case 9 => CubeRootAt(9, 29, 3, 0x12835b01);
      case 10 => CubeRootAt(10, 31, 3, 0x243185be);
      case 11 => CubeRootAt(11, 37, 3, 0x550c7dc3);
      case 12 => CubeRootAt(12, 41, 3, 0x72be5d74);
      case 13 => CubeRootAt(13, 43, 3, 0x80deb1fe);
      case 14 => CubeRootAt(14, 47, 3, 0x9bdc06a7);
      case 15 => CubeRootAt(15, 53, 3, 0xc19bf174);
    }
  }

  lemma {:induction false} CubeRoots16(i: nat)
    requires 16 <= i < 24
    ensures FractionOfCubeRoot(PRIMES[i], K[i] as int)
  {
    hide FractionOfCubeRoot, K, PRIMES;
    Constants16();
    match i {
      case 16 => CubeRootAt(16, 59, 3, 0xe49b69c1);
      case 17 => CubeRootAt(17, 61, 3, 0xefbe4786);
      case 18 => CubeRootAt(18, 67, 4, 0x0fc19dc6);
      case 19 => CubeRootAt(19, 71, 4, 0x240ca1cc);
      case 20 => CubeRootAt(20, 73, 4, 0x2de92c6f);
      case 21 => CubeRootAt(21, 79, 4, 0x4a7484aa);
      case 22 => CubeRootAt(22, 83, 4, 0x5cb0a9dc);
      case 23 => CubeRootAt(23, 89, 4, 0x76f988da);
    }
  }

  lemma {:induction false} CubeRoots24(i: nat)
    requires 24 <= i < 32
    ensures FractionOfCubeRoot(PRIMES[i], K[i] as int)
  {
    hide FractionOfCubeRoot, K, PRIMES;
    Constants24();
    match i {
      case 24 => CubeRootAt(24, 97, 4, 0x983e5152);
      case 25 => CubeRootAt(25, 101, 4, 0xa831c66d);
      case 26 => CubeRootAt(26, 103, 4, 0xb00327c8);
      case 27 => CubeRootAt(27, 107, 4, 0xbf597fc7);
      case 28 => CubeRootAt(28, 109, 4, 0xc6e00bf3);
      case 29 => CubeRootAt(29, 113, 4, 0xd5a79147);
      case 30 => CubeRootAt(30, 127, 5, 0x06ca6351);
      case 31 => CubeRootAt(31, 131, 5, 0x14292967);
    }
  }

  lemma {:induction false} CubeRoots32(i: nat)
    requires 32 <= i < 40
    ensures FractionOfCubeRoot(PRIMES[i], K[i] as int)
  {
    hide FractionOfCubeRoot, K, PRIMES;
    Constants32();
    match i {
      case 32 => CubeRootAt(32, 137, 5, 0x27b70a85);
      case 33 => CubeRootAt(33, 139, 5, 0x2e1b2138);
      case 34 => CubeRootAt(34, 149, 5, 0x4d2c6dfc);
      case 35 => CubeRootAt(35, 151, 5, 0x53380d13);
      case 36 => CubeRootAt(36, 157, 5, 0x650a7354);
      case 37 => CubeRootAt(37, 163, 5, 0x766a0abb);
      case 38 => CubeRootAt(38, 167, 5, 0x81c2c92e);
      case 39 => CubeRootAt(39, 173, 5, 0x92722c85);
    }
  }

  lemma {:induction false} CubeRoots40(i: nat)
    requires 40 <= i < 48
    ensures FractionOfCubeRoot(PRIMES[i], K[i] as int)
  {
    hide FractionOfCubeRoot, K, PRIMES;
    Constants40();
    match i {
      case 40 => CubeRootAt(40, 179, 5, 0xa2bfe8a1);
      case 41 => CubeRootAt(41, 181, 5, 0xa81a664b);
      case 42 => CubeRootAt(42, 191, 5, 0xc24b8b70);
      case 43 => CubeRootAt(43, 193, 5, 0xc76c51a3);
      case 44 => CubeRootAt(44, 197, 5, 0xd192e819);
      case 45 => CubeRootAt(45, 199, 5, 0xd6990624);
      case 46 => CubeRootAt(46, 211, 5, 0xf40e3585);
      case 47 => CubeRootAt(47, 223, 6, 0x106aa070);
    }
  }

  lemma {:induction false} CubeRoots48(i: nat)
    requires 48 <= i < 56
    ensures FractionOfCubeRoot(PRIMES[i], K[i] as int)
  {
    hide FractionOfCubeRoot, K, PRIMES;
    Constants48();
    match i {
      case 48 => CubeRootAt(48, 227, 6, 0x19a4c116);
      case 49 => CubeRootAt(49, 229, 6, 0x1e376c08);
      case 50 => CubeRootAt(50, 233, 6, 0x2748774c);
      case 51 => CubeRootAt(51, 239, 6, 0x34b0bcb5);
      case 52 => CubeRootAt(52, 241, 6, 0x391c0cb3);
      case 53 => CubeRootAt(53, 251, 6, 0x4ed8aa4a);
      case 54 => CubeRootAt(54, 257, 6, 0x5b9cca4f);
      case 55 => CubeRootAt(55, 263, 6, 0x682e6ff3);
    }
  }

  lemma {:induction false} CubeRoots56(i: nat)
    requires 56 <= i < 64
    ensures FractionOfCubeRoot(PRIMES[i], K[i] as int)
  {
    hide FractionOfCubeRoot, K, PRIMES;
    Constants56();
    match i {
      case 56 => CubeRootAt(56, 269, 6, 0x748f82ee);
      case 57 => CubeRootAt(57, 271, 6, 0x78a5636f);
      case 58 => CubeRootAt(58, 277, 6, 0x84c87814);
      case 59 => CubeRootAt(59, 281, 6, 0x8cc70208);
      case 60 => CubeRootAt(60, 283, 6, 0x90befffa);
      case 61 => CubeRootAt(61, 293, 6, 0xa4506ceb);
      case 62 => CubeRootAt(62, 307, 6, 0xbef9a3f7);
      case 63 => CubeRootAt(63, 311, 6, 0xc67178f2);
    }
  }

  /** The round constants: 32 bits of the fractions of the cube roots of the first sixty-four primes. */
  lemma {:induction false} ConstantsAreCubeRoots()
    ensures |K| == 64 && forall i :: 0 <= i < 64 ==> FractionOfCubeRoot(PRIMES[i], K[i] as int)
  {
    hide FractionOfCubeRoot;
    forall i: nat | 0 <= i < 64 ensures FractionOfCubeRoot(PRIMES[i], K[i] as int) {
      if i < 8 {
        CubeRoots0(i);
      } else if i < 16 {
        CubeRoots8(i);
      } else if i < 24 {
        CubeRoots16(i);
      } else if i < 32 {
        CubeRoots24(i);
      } else if i < 40 {
        CubeRoots32(i);
      } else if i < 48 {
        CubeRoots40(i);
      } else if i < 56 {
        CubeRoots48(i);
      } else {
        CubeRoots56(i);
      }
    }
  }

  // ---------------------------------------------------------------------
  // The digest of "abc", word by word and round by round
  // ---------------------------------------------------------------------

  /** The three octets, the marker, zeros and the length of twenty-four bits. */
  const ABC: seq<byte> := [97, 98, 99, 128] + Zeros(59) + [24]

  lemma {:induction false} AbcPadded()
    ensures [97, 98, 99] + Padding(3, 24) == ABC
  {
    LengthOfZero(7);
    ZerosJoin(52, 7);
    hide Zeros, LengthOctets;
    assert LengthOctets(24, 8) == LengthOctets(0, 7) + [24] by { LastOctet(24, 8); }
    assert [97, 98, 99] + ([128] + Zeros(52) + (Zeros(7) + [24])) == [97, 98, 99, 128] + (Zeros(52) + Zeros(7)) + [24];
  }

  lemma {:induction false} LastOctet(x: nat, n: nat)
    requires n > 0
    ensures LengthOctets(x, n) == LengthOctets(x / 256, n - 1) + [x % 256]
  {
  }

  lemma {:induction false} ZerosJoin(m: nat, n: nat)
    ensures Zeros(m) + Zeros(n) == Zeros(m + n)
  {
  }

  lemma {:induction false} LengthOfZero(n: nat)
    ensures LengthOctets(0, n) == Zeros(n)
  {
    if n > 0 {
      LengthOfZero(n - 1);
      ZerosBehind(n - 1);
    }
  }

  lemma {:induction false} ZerosBehind(n: nat)
    ensures Zeros(n) + [0] == Zeros(n + 1)
  {
  }

  lemma {:induction false} WordIs(i: nat, w: Word)
    requires i + 4 <= 64 && ReadU32(ABC, i) == w as int
    ensures WordAt(ABC, i) == w
  {
    hide ReadU32, ABC;
    ThereAndBack(w);
  }

  lemma {:induction false} ThereAndBack(w: Word)
    ensures (w as u32) as Word == w
  {
  }

  lemma {:induction false} ZeroWord(t: nat)
    requires 0 < t < 15
    ensures Schedule(ABC, t) == 0
  {
    assert forall i :: 4 <= i < 63 ==> ABC[i] == 0;
    hide WordAt;
    WordIs(4 * t, 0);
  }

  lemma {:induction false} AbcWords()
    ensures |ABC| == 64 && ReadU32(ABC, 0) == 0x61626380 && ReadU32(ABC, 60) == 0x18
  {
  }

  lemma {:induction false} OuterWords()
    ensures Schedule(ABC, 0) == 0x61626380 && Schedule(ABC, 15) == 0x18
  {
    AbcWords();
    hide WordAt, ReadU32, ABC;
    WordIs(0, 0x61626380);
    WordIs(60, 0x18);
  }

  lemma {:induction false} Words0()
    ensures Schedule(ABC, 0) == 0x61626380 && Schedule(ABC, 1) == 0x00000000
    ensures Schedule(ABC, 2) == 0x00000000 && Schedule(ABC, 3) == 0x00000000
    ensures Schedule(ABC, 4) == 0x00000000 && Schedule(ABC, 5) == 0x00000000
    ensures Schedule(ABC, 6) == 0x00000000 && Schedule(ABC, 7) == 0x00000000
    ensures Schedule(ABC, 8) == 0x00000000 && Schedule(ABC, 9) == 0x00000000
    ensures Schedule(ABC, 10) == 0x00000000 && Schedule(ABC, 11) == 0x00000000
    ensures Schedule(ABC, 12) == 0x00000000 && Schedule(ABC, 13) == 0x00000000
    ensures Schedule(ABC, 14) == 0x00000000 && Schedule(ABC, 15) == 0x00000018
  {
    hide Schedule;
    OuterWords();
    ZeroWord(1);
    ZeroWord(2);
    ZeroWord(3);
    ZeroWord(4);
    ZeroWord(5);
    ZeroWord(6);
    ZeroWord(7);
    ZeroWord(8);
    ZeroWord(9);
    ZeroWord(10);
    ZeroWord(11);
    ZeroWord(12);
    ZeroWord(13);
    ZeroWord(14);
  }

  lemma {:induction false} NextWord(t: nat, w2: Word, w7: Word, w15: Word, w16: Word, w: Word)
    requires 16 <= t < 64 && Schedule(ABC, t - 2) == w2 && Schedule(ABC, t - 7) == w7
    requires Schedule(ABC, t - 15) == w15 && Schedule(ABC, t - 16) == w16
    requires Plus(Plus(Plus(SmallSigma1(w2), w7), SmallSigma0(w15)), w16) == w
    ensures Schedule(ABC, t) == w
  {
    hide SmallSigma0, SmallSigma1, Plus;
  }

  lemma {:induction false} Words16()
    ensures Schedule(ABC, 16) == 0x61626380 && Schedule(ABC, 17) == 0x000f0000
    ensures Schedule(ABC, 18) == 0x7da86405 && Schedule(ABC, 19) == 0x600003c6
    ensures Schedule(ABC, 20) == 0x3e9d7b78 && Schedule(ABC, 21) == 0x0183fc00
    ensures Schedule(ABC, 22) == 0x12dcbfdb && Schedule(ABC, 23) == 0xe2e2c38e
    ensures Schedule(ABC, 24) == 0xc8215c1a && Schedule(ABC, 25) == 0xb73679a2
    ensures Schedule(ABC, 26) == 0xe5bc3909 && Schedule(ABC, 27) == 0x32663c5b
    ensures Schedule(ABC, 28) == 0x9d209d67 && Schedule(ABC, 29) == 0xec8726cb
    ensures Schedule(ABC, 30) == 0x702138a4 && Schedule(ABC, 31) == 0xd3b7973b
  {
    hide Schedule;
    Words0();
    NextWord(16, 0x00000000, 0x00000000, 0x00000000, 0x61626380, 0x61626380);
    NextWord(17, 0x00000018, 0x00000000, 0x00000000, 0x00000000, 0x000f0000);
    NextWord(18, 0x61626380, 0x00000000, 0x00000000, 0x00000000, 0x7da86405);
    NextWord(19, 0x000f0000, 0x00000000, 0x00000000, 0x00000000, 0x600003c6);
    NextWord(20, 0x7da86405, 0x00000000, 0x00000000, 0x00000000, 0x3e9d7b78);
    NextWord(21, 0x600003c6, 0x00000000, 0x00000000, 0x00000000, 0x0183fc00);
    NextWord(22, 0x3e9d7b78, 0x00000018, 0x00000000, 0x00000000, 0x12dcbfdb);
    NextWord(23, 0x0183fc00, 0x61626380, 0x00000000, 0x00000000, 0xe2e2c38e);
    NextWord(24, 0x12dcbfdb, 0x000f0000, 0x00000000, 0x00000000, 0xc8215c1a);
    NextWord(25, 0xe2e2c38e, 0x7da86405, 0x00000000, 0x00000000, 0xb73679a2);
    NextWord(26, 0xc8215c1a, 0x600003c6, 0x00000000, 0x00000000, 0xe5bc3909);
    NextWord(27, 0xb73679a2, 0x3e9d7b78, 0x00000000, 0x00000000, 0x32663c5b);
    NextWord(28, 0xe5bc3909, 0x0183fc00, 0x00000000, 0x00000000, 0x9d209d67);
    NextWord(29, 0x32663c5b, 0x12dcbfdb, 0x00000000, 0x00000000, 0xec8726cb);
    NextWord(30, 0x9d209d67, 0xe2e2c38e, 0x00000018, 0x00000000, 0x702138a4);
    NextWord(31, 0xec8726cb, 0xc8215c1a, 0x61626380, 0x00000018, 0xd3b7973b);
  }

  lemma {:induction false} Words32()
    ensures Schedule(ABC, 32) == 0x93f5997f && Schedule(ABC, 33) == 0x3b68ba73
    ensures Schedule(ABC, 34) == 0xaff4ffc1 && Schedule(ABC, 35) == 0xf10a5c62
    ensures Schedule(ABC, 36) == 0x0a8b3996 && Schedule(ABC, 37) == 0x72af830a
    ensures Schedule(ABC, 38) == 0x9409e33e && Schedule(ABC, 39) == 0x24641522
    ensures Schedule(ABC, 40) == 0x9f47bf94 && Schedule(ABC, 41) == 0xf0a64f5a
    ensures Schedule(ABC, 42) == 0x3e246a79 && Schedule(ABC, 43) == 0x27333ba3
    ensures Schedule(ABC, 44) == 0x0c4763f2 && Schedule(ABC, 45) == 0x840abf27
    ensures Schedule(ABC, 46) == 0x7a290d5d && Schedule(ABC, 47) == 0x065c43da
  {
    hide Schedule;
    Words16();
    NextWord(32, 0x702138a4, 0xb73679a2, 0x000f0000, 0x61626380, 0x93f5997f);
    NextWord(33, 0xd3b7973b, 0xe5bc3909, 0x7da86405, 0x000f0000, 0x3b68ba73);
    NextWord(34, 0x93f5997f, 0x32663c5b, 0x600003c6, 0x7da86405, 0xaff4ffc1);
    NextWord(35, 0x3b68ba73, 0x9d209d67, 0x3e9d7b78, 0x600003c6, 0xf10a5c62);
    NextWord(36, 0xaff4ffc1, 0xec8726cb, 0x0183fc00, 0x3e9d7b78, 0x0a8b3996);
    NextWord(37, 0xf10a5c62, 0x702138a4, 0x12dcbfdb, 0x0183fc00, 0x72af830a);
    NextWord(38, 0x0a8b3996, 0xd3b7973b, 0xe2e2c38e, 0x12dcbfdb, 0x9409e33e);
    NextWord(39, 0x72af830a, 0x93f5997f, 0xc8215c1a, 0xe2e2c38e, 0x24641522);
    NextWord(40, 0x9409e33e, 0x3b68ba73, 0xb73679a2, 0xc8215c1a, 0x9f47bf94);
    NextWord(41, 0x24641522, 0xaff4ffc1, 0xe5bc3909, 0xb73679a2, 0xf0a64f5a);
    NextWord(42, 0x9f47bf94, 0xf10a5c62, 0x32663c5b, 0xe5bc3909, 0x3e246a79);
    NextWord(43, 0xf0a64f5a, 0x0a8b3996, 0x9d209d67, 0x32663c5b, 0x27333ba3);
    NextWord(44, 0x3e246a79, 0x72af830a, 0xec8726cb, 0x9d209d67, 0x0c4763f2);
    NextWord(45, 0x27333ba3, 0x9409e33e, 0x702138a4, 0xec8726cb, 0x840abf27);
    NextWord(46, 0x0c4763f2, 0x24641522, 0xd3b7973b, 0x702138a4, 0x7a290d5d);
    NextWord(47, 0x840abf27, 0x9f47bf94, 0x93f5997f, 0xd3b7973b, 0x065c43da);
  }

  lemma {:induction false} Words48()
    ensures Schedule(ABC, 48) == 0xfb3e89cb && Schedule(ABC, 49) == 0xcc7617db
    ensures Schedule(ABC, 50) == 0xb9e66c34 && Schedule(ABC, 51) == 0xa9993667
    ensures Schedule(ABC, 52) == 0x84badedd && Schedule(ABC, 53) == 0xc21462bc
    ensures Schedule(ABC, 54) == 0x1487472c && Schedule(ABC, 55) == 0xb20f7a99
    ensures Schedule(ABC, 56) == 0xef57b9cd && Schedule(ABC, 57) == 0xebe6b238
    ensures Schedule(ABC, 58) == 0x9fe3095e && Schedule(ABC, 59) == 0x78bc8d4b
    ensures Schedule(ABC, 60) == 0xa43fcf15 && Schedule(ABC, 61) == 0x668b2ff8
    ensures Schedule(ABC, 62) == 0xeeaba2cc && Schedule(ABC, 63) == 0x12b1edeb
  {
    hide Schedule;
    Words32();
    NextWord(48, 0x7a290d5d, 0xf0a64f5a, 0x3b68ba73, 0x93f5997f, 0xfb3e89cb);
    NextWord(49, 0x065c43da, 0x3e246a79, 0xaff4ffc1, 0x3b68ba73, 0xcc7617db);
    NextWord(50, 0xfb3e89cb, 0x27333ba3, 0xf10a5c62, 0xaff4ffc1, 0xb9e66c34);
    NextWord(51, 0xcc7617db, 0x0c4763f2, 0x0a8b3996, 0xf10a5c62, 0xa9993667);
    NextWord(52, 0xb9e66c34, 0x840abf27, 0x72af830a, 0x0a8b3996, 0x84badedd);
    NextWord(53, 0xa9993667, 0x7a290d5d, 0x9409e33e, 0x72af830a, 0xc21462bc);
    NextWord(54, 0x84badedd, 0x065c43da, 0x24641522, 0x9409e33e, 0x1487472c);
    NextWord(55, 0xc21462bc, 0xfb3e89cb, 0x9f47bf94, 0x24641522, 0xb20f7a99);
    NextWord(56, 0x1487472c, 0xcc7617db, 0xf0a64f5a, 0x9f47bf94, 0xef57b9cd);
    NextWord(57, 0xb20f7a99, 0xb9e66c34, 0x3e246a79, 0xf0a64f5a, 0xebe6b238);
    NextWord(58, 0xef57b9cd, 0xa9993667, 0x27333ba3, 0x3e246a79, 0x9fe3095e);
    NextWord(59, 0xebe6b238, 0x84badedd, 0x0c4763f2, 0x27333ba3, 0x78bc8d4b);
    NextWord(60, 0x9fe3095e, 0xc21462bc, 0x840abf27, 0x0c4763f2, 0xa43fcf15);
    NextWord(61, 0x78bc8d4b, 0x1487472c, 0x7a290d5d, 0x840abf27, 0x668b2ff8);
    NextWord(62, 0xa43fcf15, 0xb20f7a99, 0x065c43da, 0x7a290d5d, 0xeeaba2cc);
    NextWord(63, 0x668b2ff8, 0xef57b9cd, 0xfb3e89cb, 0x065c43da, 0x12b1edeb);
  }

  /** The sum a round adds to `d` and, with the other, makes the new `a`. */
  function T1(e: Word, f: Word, g: Word, h: Word, k: Word, w: Word): Word {
    Plus(Plus(Plus(Plus(h, BigSigma1(e)), Ch(e, f, g)), k), w)
  }

  function T2(a: Word, b: Word, c: Word): Word {
    Plus(BigSigma0(a), Maj(a, b, c))
  }

  lemma {:induction false} NextRound(t: nat, k: Word, w: Word, a: Word, b: Word, c: Word, d: Word,
          e: Word, f: Word, g: Word, h: Word, t1: Word, t2: Word, a1: Word, e1: Word)
    requires t < 64 && K[t] == k && Schedule(ABC, t) == w
    requires Rounds(Working(INITIAL), ABC, t) == Vars(a, b, c, d, e, f, g, h)
    requires T1(e, f, g, h, k, w) == t1 && T2(a, b, c) == t2 && Plus(t1, t2) == a1 && Plus(d, t1) == e1
    ensures Rounds(Working(INITIAL), ABC, t + 1) == Vars(a1, a, b, c, e1, e, f, g)
  {
    hide BigSigma0, BigSigma1, Ch, Maj, Plus, Schedule, K;
  }

  lemma {:induction false} Rounds0()
    ensures Rounds(Working(INITIAL), ABC, 8)
         == Vars(0x85a07b5f, 0xe5030380, 0x2b4209f5, 0x04409a6a,
                 0x0c657a79, 0x9b27a401, 0x714260ad, 0x43ada245)
  {
    hide Schedule, Rounds, K;
    Constants0();
    Words0();
    RoundsStep(Working(INITIAL), ABC, 0);
    NextRound(0, 0x428a2f98, 0x61626380, 0x6a09e667, 0xbb67ae85, 0x3c6ef372, 0xa54ff53a,
              0x510e527f, 0x9b05688c, 0x1f83d9ab, 0x5be0cd19,
              0x54da50e8, 0x08909ae5, 0x5d6aebcd, 0xfa2a4622);
    NextRound(1, 0x71374491, 0x00000000, 0x5d6aebcd, 0x6a09e667, 0xbb67ae85, 0x3c6ef372,
              0xfa2a4622, 0x510e527f, 0x9b05688c, 0x1f83d9ab,
              0x3c5f8617, 0x1e0b5396, 0x5a6ad9ad, 0x78ce7989);
    NextRound(2, 0xb5c0fbcf, 0x00000000, 0x5a6ad9ad, 0x5d6aebcd, 0x6a09e667, 0xbb67ae85,
              0x78ce7989, 0xfa2a4622, 0x510e527f, 0x9b05688c,
              0x3dc18b66, 0x8b01bc41, 0xc8c347a7, 0xf92939eb);
    NextRound(3, 0xe9b5dba5, 0x00000000, 0xc8c347a7, 0x5a6ad9ad, 0x5d6aebcd, 0x6a09e667,
              0xf92939eb, 0x78ce7989, 0xfa2a4622, 0x510e527f,
              0xbad621e9, 0x1a7ad47d, 0xd550f666, 0x24e00850);
    NextRound(4, 0x3956c25b, 0x00000000, 0xd550f666, 0xc8c347a7, 0x5a6ad9ad, 0x5d6aebcd,
              0x24e00850, 0xf92939eb, 0x78ce7989, 0xfa2a4622,
              0xe642b678, 0x1dfde3f2, 0x04409a6a, 0x43ada245);
    NextRound(5, 0x59f111f1, 0x00000000, 0x04409a6a, 0xd550f666, 0xc8c347a7, 0x5a6ad9ad,
              0x43ada245, 0x24e00850, 0xf92939eb, 0x78ce7989,
              0x16d78700, 0x146a82f5, 0x2b4209f5, 0x714260ad);
    NextRound(6, 0x923f82a4, 0x00000000, 0x2b4209f5, 0x04409a6a, 0xd550f666, 0xc8c347a7,
              0x714260ad, 0x43ada245, 0x24e00850, 0xf92939eb,
              0xd2645c5a, 0x129ea726, 0xe5030380, 0x9b27a401);
    NextRound(7, 0xab1c5ed5, 0x00000000, 0xe5030380, 0x2b4209f5, 0x04409a6a, 0xd550f666,
              0x9b27a401, 0x714260ad, 0x43ada245, 0x24e00850,
              0x37148413, 0x4e8bf74c, 0x85a07b5f, 0x0c657a79);
  }

  lemma {:induction false} Rounds8()
    ensures Rounds(Working(INITIAL), ABC, 16)
         == Vars(0xb0fa238e, 0xc0645fde, 0xd932eb16, 0x87912990,
                 0x07590dcd, 0x0b92f20c, 0x745a48de, 0x1e578218)
  {
    hide Schedule, Rounds, K;
    Constants8();
    Words0();
    Rounds0();
    NextRound(8, 0xd807aa98, 0x00000000, 0x85a07b5f, 0xe5030380, 0x2b4209f5, 0x04409a6a,
              0x0c657a79, 0x9b27a401, 0x714260ad, 0x43ada245,
              0x2e899322, 0x5f7b5997, 0x8e04ecb9, 0x32ca2d8c);
    NextRound(9, 0x12835b01, 0x00000000, 0x8e04ecb9, 0x85a07b5f, 0xe5030380, 0x2b4209f5,
              0x32ca2d8c, 0x0c657a79, 0x9b27a401, 0x714260ad,
              0xf1871ba1, 0x9b0018ca, 0x8c87346b, 0x1cc92596);
    NextRound(10, 0x243185be, 0x00000000, 0x8c87346b, 0x8e04ecb9, 0x85a07b5f, 0xe5030380,
              0x1cc92596, 0x32ca2d8c, 0x0c657a79, 0x9b27a401,
              0x5e682068, 0xe930838c, 0x4798a3f4, 0x436b23e8);
    NextRound(11, 0x550c7dc3, 0x00000000, 0x4798a3f4, 0x8c87346b, 0x8e04ecb9, 0x85a07b5f,
              0x436b23e8, 0x1cc92596, 0x32ca2d8c, 0x0c657a79,
              0xfbcf5b8a, 0xfb506a1f, 0xf71fc5a9, 0x816fd6e9);
    NextRound(12, 0x72be5d74, 0x00000000, 0xf71fc5a9, 0x4798a3f4, 0x8c87346b, 0x8e04ecb9,
              0x816fd6e9, 0x436b23e8, 0x1cc92596, 0x32ca2d8c,
              0x9052955f, 0xf73e9431, 0x87912990, 0x1e578218);
    NextRound(13, 0x80deb1fe, 0x00000000, 0x87912990, 0xf71fc5a9, 0x4798a3f4, 0x8c87346b,
              0x1e578218, 0x816fd6e9, 0x436b23e8, 0x1cc92596,
              0xe7d31473, 0xf15fd6a3, 0xd932eb16, 0x745a48de);
    NextRound(14, 0x9bdc06a7, 0x00000000, 0xd932eb16, 0x87912990, 0xf71fc5a9, 0x4798a3f4,
              0x745a48de, 0x1e578218, 0x816fd6e9, 0x436b23e8,
              0xc3fa4e18, 0xfc6a11c6, 0xc0645fde, 0x0b92f20c);
    NextRound(15, 0xc19bf174, 0x00000018, 0xc0645fde, 0xd932eb16, 0x87912990, 0xf71fc5a9,
              0x0b92f20c, 0x745a48de, 0x1e578218, 0x816fd6e9,
              0x10394824, 0xa0c0db6a, 0xb0fa238e, 0x07590dcd);
  }

  lemma {:induction false} Rounds16()
    ensures Rounds(Working(INITIAL), ABC, 24)
         == Vars(0xc5d53d8d, 0xa7a3623f, 0xc2606d6d, 0x9dc68b63,
                 0xaa47c347, 0x49f5114a, 0xe1257970, 0x8ada8930)
  {
    hide Schedule, Rounds, K;
    Constants16();
    Words16();
    Rounds8();
    NextRound(16, 0xe49b69c1, 0x61626380, 0xb0fa238e, 0xc0645fde, 0xd932eb16, 0x87912990,
              0x07590dcd, 0x0b92f20c, 0x745a48de, 0x1e578218,
              0xf8a2f90c, 0x2937a18f, 0x21da9a9b, 0x8034229c);
    NextRound(17, 0xefbe4786, 0x000f0000, 0x21da9a9b, 0xb0fa238e, 0xc0645fde, 0xd932eb16,
              0x8034229c, 0x07590dcd, 0x0b92f20c, 0x745a48de,
              0xab3bf93e, 0x17bfe093, 0xc2fbd9d1, 0x846ee454);
    NextRound(18, 0x0fc19dc6, 0x7da86405, 0xc2fbd9d1, 0x21da9a9b, 0xb0fa238e, 0xc0645fde,
              0x846ee454, 0x8034229c, 0x07590dcd, 0x0b92f20c,
              0x0c253983, 0xf252423c, 0xfe777bbf, 0xcc899961);
    NextRound(19, 0x240ca1cc, 0x600003c6, 0xfe777bbf, 0xc2fbd9d1, 0x21da9a9b, 0xb0fa238e,
              0xcc899961, 0x846ee454, 0x8034229c, 0x07590dcd,
              0xff695deb, 0xe288ae48, 0xe1f20c33, 0xb0638179);
    NextRound(20, 0x2de92c6f, 0x3e9d7b78, 0xe1f20c33, 0xfe777bbf, 0xc2fbd9d1, 0x21da9a9b,
              0xb0638179, 0xcc899961, 0x846ee454, 0x8034229c,
              0x68ffee95, 0x34c69cce, 0x9dc68b63, 0x8ada8930);
    NextRound(21, 0x4a7484aa, 0x0183fc00, 0x9dc68b63, 0xe1f20c33, 0xfe777bbf, 0xc2fbd9d1,
              0x8ada8930, 0xb0638179, 0xcc899961, 0x846ee454,
              0x1e299f9f, 0xa436cdce, 0xc2606d6d, 0xe1257970);
    NextRound(22, 0x5cb0a9dc, 0x12dcbfdb, 0xc2606d6d, 0x9dc68b63, 0xe1f20c33, 0xfe777bbf,
              0xe1257970, 0x8ada8930, 0xb0638179, 0xcc899961,
              0x4b7d958b, 0x5c25ccb4, 0xa7a3623f, 0x49f5114a);
    NextRound(23, 0x76f988da, 0xe2e2c38e, 0xa7a3623f, 0xc2606d6d, 0x9dc68b63, 0xe1f20c33,
              0x49f5114a, 0xe1257970, 0x8ada8930, 0xb0638179,
              0xc855b714, 0xfd7f8679, 0xc5d53d8d, 0xaa47c347);
  }

  lemma {:induction false} Rounds24()
    ensures Rounds(Working(INITIAL), ABC, 32)
         == Vars(0x73b33bf5, 0xea992a22, 0xa0060b30, 0x363482c9,
                 0xba591112, 0x0109ab3a, 0xade79437, 0x6112a3b7)
  {
    hide Schedule, Rounds, K;
    Constants24();
    Words16();
    Rounds16();
    NextRound(24, 0x983e5152, 0xc8215c1a, 0xc5d53d8d, 0xa7a3623f, 0xc2606d6d, 0x9dc68b63,
              0xaa47c347, 0x49f5114a, 0xe1257970, 0x8ada8930,
              0x8a5d642e, 0x91cec40a, 0x1c2c2838, 0x2823ef91);
    NextRound(25, 0xa831c66d, 0xb73679a2, 0x1c2c2838, 0xc5d53d8d, 0xa7a3623f, 0xc2606d6d,
              0x2823ef91, 0xaa47c347, 0x49f5114a, 0xe1257970,
              0x51d7d021, 0x7c10335c, 0xcde8037d, 0x14383d8e);
    NextRound(26, 0xb00327c8, 0xe5bc3909, 0xcde8037d, 0x1c2c2838, 0xc5d53d8d, 0xa7a3623f,
              0x14383d8e, 0x2823ef91, 0xaa47c347, 0x49f5114a,
              0x1fa902d7, 0x9685c1e5, 0xb62ec4bc, 0xc74c6516);
    NextRound(27, 0xbf597fc7, 0x32663c5b, 0xb62ec4bc, 0xcde8037d, 0x1c2c2838, 0xc5d53d8d,
              0xc74c6516, 0x14383d8e, 0x2823ef91, 0xaa47c347,
              0x282a826b, 0x4fa8f2bd, 0x77d37528, 0xedffbff8);
    NextRound(28, 0xc6e00bf3, 0x9d209d67, 0x77d37528, 0xb62ec4bc, 0xcde8037d, 0x1c2c2838,
              0xedffbff8, 0xc74c6516, 0x14383d8e, 0x2823ef91,
              0x44e67b7f, 0xf14e074a, 0x363482c9, 0x6112a3b7);
    NextRound(29, 0xd5a79147, 0xec8726cb, 0x363482c9, 0x77d37528, 0xb62ec4bc, 0xcde8037d,
              0x6112a3b7, 0xedffbff8, 0xc74c6516, 0x14383d8e,
              0xdfff90ba, 0xc0067a76, 0xa0060b30, 0xade79437);
    NextRound(30, 0x06ca6351, 0x702138a4, 0xa0060b30, 0x363482c9, 0x77d37528, 0xb62ec4bc,
              0xade79437, 0x6112a3b7, 0xedffbff8, 0xc74c6516,
              0x4adae67e, 0x9fbe43a4, 0xea992a22, 0x0109ab3a);
    NextRound(31, 0x14292967, 0xd3b7973b, 0xea992a22, 0xa0060b30, 0x363482c9, 0x77d37528,
              0x0109ab3a, 0xade79437, 0x6112a3b7, 0xedffbff8,
              0x42859bea, 0x312da00b, 0x73b33bf5, 0xba591112);
  }

  lemma {:induction false} Rounds32()
    ensures Rounds(Working(INITIAL), ABC, 40)
         == Vars(0x79ea687a, 0x6dc57a8a, 0x34df1604, 0x41a65cb1,
                 0x1efbc0a0, 0xf0781bc8, 0xa507a53d, 0x0772a26b)
  {
    hide Schedule, Rounds, K;
    Constants32();
    Words32();
    Rounds24();
    NextRound(32, 0x27b70a85, 0x93f5997f, 0x73b33bf5, 0xea992a22, 0xa0060b30, 0x363482c9,
              0xba591112, 0x0109ab3a, 0xade79437, 0x6112a3b7,
              0x66a5732d, 0x323bb1da, 0x98e12507, 0x9cd9f5f6);
    NextRound(33, 0x2e1b2138, 0x3b68ba73, 0x98e12507, 0x73b33bf5, 0xea992a22, 0xa0060b30,
              0x9cd9f5f6, 0xba591112, 0x0109ab3a, 0xade79437,
              0xb91e92a3, 0x4541bb52, 0xfe604df5, 0x59249dd3);
    NextRound(34, 0x4d2c6dfc, 0xaff4ffc1, 0xfe604df5, 0x98e12507, 0x73b33bf5, 0xea992a22,
              0x59249dd3, 0x9cd9f5f6, 0xba591112, 0x0109ab3a,
              0x1dc60e11, 0x8be1657b, 0xa9a7738c, 0x085f3833);
    NextRound(35, 0x53380d13, 0xf10a5c62, 0xa9a7738c, 0xfe604df5, 0x98e12507, 0x73b33bf5,
              0x085f3833, 0x59249dd3, 0x9cd9f5f6, 0xba591112,
              0x80fcc6e1, 0xe4a40903, 0x65a0cfe4, 0xf4b002d6);
    NextRound(36, 0x650a7354, 0x0a8b3996, 0x65a0cfe4, 0xa9a7738c, 0xfe604df5, 0x98e12507,
              0xf4b002d6, 0x085f3833, 0x59249dd3, 0x9cd9f5f6,
              0x6e917d64, 0xd314df4d, 0x41a65cb1, 0x0772a26b);
    NextRound(37, 0x766a0abb, 0x72af830a, 0x41a65cb1, 0x65a0cfe4, 0xa9a7738c, 0xfe604df5,
              0x0772a26b, 0xf4b002d6, 0x085f3833, 0x59249dd3,
              0xa6a75748, 0x8e37bebc, 0x34df1604, 0xa507a53d);
    NextRound(38, 0x81c2c92e, 0x9409e33e, 0x34df1604, 0x41a65cb1, 0x65a0cfe4, 0xa9a7738c,
              0xa507a53d, 0x0772a26b, 0xf4b002d6, 0x085f3833,
              0x46d0a83c, 0x26f4d24e, 0x6dc57a8a, 0xf0781bc8);
    NextRound(39, 0x92722c85, 0x24641522, 0x6dc57a8a, 0x34df1604, 0x41a65cb1, 0x65a0cfe4,
              0xf0781bc8, 0xa507a53d, 0x0772a26b, 0xf4b002d6,
              0xb95af0bc, 0xc08f77be, 0x79ea687a, 0x1efbc0a0);
  }

  lemma {:induction false} Rounds40()
    ensures Rounds(Working(INITIAL), ABC, 48)
         == Vars(0x4172328d, 0xa14c14b0, 0x72ab4b91, 0x26628815,
                 0xfecf0bc6, 0xd57b94a9, 0xb7755da1, 0xa80f11f0)
  {
    hide Schedule, Rounds, K;
    Constants40();
    Words32();
    Rounds32();
    NextRound(40, 0xa2bfe8a1, 0x9f47bf94, 0x79ea687a, 0x6dc57a8a, 0x34df1604, 0x41a65cb1,
              0x1efbc0a0, 0xf0781bc8, 0xa507a53d, 0x0772a26b,
              0xe48ed0b2, 0xf1d836b4, 0xd6670766, 0x26352d63);
    NextRound(41, 0xa81a664b, 0xf0a64f5a, 0xd6670766, 0x79ea687a, 0x6dc57a8a, 0x34df1604,
              0x26352d63, 0x1efbc0a0, 0xf0781bc8, 0xa507a53d,
              0x4eac110d, 0x909a5422, 0xdf46652f, 0x838b2711);
    NextRound(42, 0xc24b8b70, 0x3e246a79, 0xdf46652f, 0xd6670766, 0x79ea687a, 0x6dc57a8a,
              0x838b2711, 0x26352d63, 0x1efbc0a0, 0xf0781bc8,
              0x7107cc8b, 0xa6a24173, 0x17aa0dfe, 0xdecd4715);
    NextRound(43, 0xc76c51a3, 0x27333ba3, 0x17aa0dfe, 0xdf46652f, 0xd6670766, 0x79ea687a,
              0xdecd4715, 0x838b2711, 0x26352d63, 0x1efbc0a0,
              0x83b7e3b4, 0x1993cbdf, 0x9d4baf93, 0xfda24c2e);
    NextRound(44, 0xd192e819, 0x0c4763f2, 0x9d4baf93, 0x17aa0dfe, 0xdf46652f, 0xd6670766,
              0xfda24c2e, 0xdecd4715, 0x838b2711, 0x26352d63,
              0xd1a80a8a, 0x54ba7d8b, 0x26628815, 0xa80f11f0);
    NextRound(45, 0xd6990624, 0x840abf27, 0x26628815, 0x9d4baf93, 0x17aa0dfe, 0xdf46652f,
              0xa80f11f0, 0xfda24c2e, 0xdecd4715, 0x838b2711,
              0xd82ef872, 0x9a7c531f, 0x72ab4b91, 0xb7755da1);
    NextRound(46, 0xf40e3585, 0x7a290d5d, 0x72ab4b91, 0x26628815, 0x9d4baf93, 0x17aa0dfe,
              0xb7755da1, 0xa80f11f0, 0xfda24c2e, 0xdecd4715,
              0xbdd186ab, 0xe37a8e05, 0xa14c14b0, 0xd57b94a9);
    NextRound(47, 0x106aa070, 0x065c43da, 0xa14c14b0, 0x72ab4b91, 0x26628815, 0x9d4baf93,
              0xd57b94a9, 0xb7755da1, 0xa80f11f0, 0xfda24c2e,
              0x61835c33, 0xdfeed65a, 0x4172328d, 0xfecf0bc6);
  }

  lemma {:induction false} Rounds48()
    ensures Rounds(Working(INITIAL), ABC, 56)
         == Vars(0x38cc9913, 0x3ec45cdb, 0xf5702fdb, 0x101fd28f,
                 0x54cb266b, 0xe50e1b4f, 0x9f4787c3, 0x529e7d00)
  {
    hide Schedule, Rounds, K;
    Constants48();
    Words48();
    Rounds40();
    NextRound(48, 0x19a4c116, 0xfb3e89cb, 0x4172328d, 0xa14c14b0, 0x72ab4b91, 0x26628815,
              0xfecf0bc6, 0xd57b94a9, 0xb7755da1, 0xa80f11f0,
              0x970eb823, 0x6e66c4c8, 0x05757ceb, 0xbd714038);
    NextRound(49, 0x1e376c08, 0xcc7617db, 0x05757ceb, 0x4172328d, 0xa14c14b0, 0x72ab4b91,
              0xbd714038, 0xfecf0bc6, 0xd57b94a9, 0xb7755da1,
              0xfbb0ed7b, 0xf56b0d2d, 0xf11bfaa8, 0x6e5c390c);
    NextRound(50, 0x2748774c, 0xb9e66c34, 0xf11bfaa8, 0x05757ceb, 0x4172328d, 0xa14c14b0,
              0x6e5c390c, 0xbd714038, 0xfecf0bc6, 0xd57b94a9,
              0xb1a5b847, 0xc85f505a, 0x7a0508a1, 0x52f1ccf7);
    NextRound(51, 0x34b0bcb5, 0xa9993667, 0x7a0508a1, 0xf11bfaa8, 0x05757ceb, 0x4172328d,
              0x52f1ccf7, 0x6e5c390c, 0xbd714038, 0xfecf0bc6,
              0x07b0e991, 0x80bd9091, 0x886e7a22, 0x49231c1e);
    NextRound(52, 0x391c0cb3, 0x84badedd, 0x886e7a22, 0x7a0508a1, 0xf11bfaa8, 0x05757ceb,
              0x49231c1e, 0x52f1ccf7, 0x6e5c390c, 0xbd714038,
              0x4d290015, 0xc2f6d27a, 0x101fd28f, 0x529e7d00);
    NextRound(53, 0x4ed8aa4a, 0xc21462bc, 0x101fd28f, 0x886e7a22, 0x7a0508a1, 0xf11bfaa8,
              0x529e7d00, 0x49231c1e, 0x52f1ccf7, 0x6e5c390c,
              0xae2b8d1b, 0x4744a2c0, 0xf5702fdb, 0x9f4787c3);
    NextRound(54, 0x5b9cca4f, 0x1487472c, 0xf5702fdb, 0x101fd28f, 0x886e7a22, 0x7a0508a1,
              0x9f4787c3, 0x529e7d00, 0x49231c1e, 0x52f1ccf7,
              0x6b0912ae, 0xd3bb4a2d, 0x3ec45cdb, 0xe50e1b4f);
    NextRound(55, 0x682e6ff3, 0xb20f7a99, 0x3ec45cdb, 0xf5702fdb, 0x101fd28f, 0x886e7a22,
              0xe50e1b4f, 0x9f4787c3, 0x529e7d00, 0x49231c1e,
              0xcc5cac49, 0x6c6fecca, 0x38cc9913, 0x54cb266b);
  }

  lemma {:induction false} Rounds56()
    ensures Rounds(Working(INITIAL), ABC, 64)
         == Vars(0x506e3058, 0xd39a2165, 0x04d24d6c, 0xb85e2ce9,
                 0x5ef50f24, 0xfb121210, 0x948d25b6, 0x961f4894)
  {
    hide Schedule, Rounds, K;
    Constants56();
    Words48();
    Rounds48();
    NextRound(56, 0x748f82ee, 0xef57b9cd, 0x38cc9913, 0x3ec45cdb, 0xf5702fdb, 0x101fd28f,
              0x54cb266b, 0xe50e1b4f, 0x9f4787c3, 0x529e7d00,
              0x8b3ebddd, 0x7192ca9e, 0xfcd1887b, 0x9b5e906c);
    NextRound(57, 0x78a5636f, 0xebe6b238, 0xfcd1887b, 0x38cc9913, 0x3ec45cdb, 0xf5702fdb,
              0x9b5e906c, 0x54cb266b, 0xe50e1b4f, 0x9f4787c3,
              0x88d3d0b3, 0x378f03bc, 0xc062d46f, 0x7e44008e);
    NextRound(58, 0x84c87814, 0x9fe3095e, 0xc062d46f, 0xfcd1887b, 0x38cc9913, 0x3ec45cdb,
              0x7e44008e, 0x9b5e906c, 0x54cb266b, 0xe50e1b4f,
              0x2ebf62eb, 0xd0f7a187, 0xffb70472, 0x6d83bfc6);
    NextRound(59, 0x8cc70208, 0x78bc8d4b, 0xffb70472, 0xc062d46f, 0xfcd1887b, 0x38cc9913,
              0x6d83bfc6, 0x7e44008e, 0x9b5e906c, 0x54cb266b,
              0x794f142a, 0x3d5f7bd5, 0xb6ae8fff, 0xb21bad3d);
    NextRound(60, 0x90befffa, 0xa43fcf15, 0xb6ae8fff, 0xffb70472, 0xc062d46f, 0xfcd1887b,
              0xb21bad3d, 0x6d83bfc6, 0x7e44008e, 0x9b5e906c,
              0x994dc019, 0x1f106cd0, 0xb85e2ce9, 0x961f4894);
    NextRound(61, 0xa4506ceb, 0x668b2ff8, 0xb85e2ce9, 0xb6ae8fff, 0xffb70472, 0xc062d46f,
              0x961f4894, 0xb21bad3d, 0x6d83bfc6, 0x7e44008e,
              0xd42a5147, 0x30a7fc25, 0x04d24d6c, 0x948d25b6);
    NextRound(62, 0xbef9a3f7, 0xeeaba2cc, 0x04d24d6c, 0xb85e2ce9, 0xb6ae8fff, 0xffb70472,
              0x948d25b6, 0x961f4894, 0xb21bad3d, 0x6d83bfc6,
              0xfb5b0d9e, 0xd83f13c7, 0xd39a2165, 0xfb121210);
    NextRound(63, 0xc67178f2, 0x12b1edeb, 0xd39a2165, 0x04d24d6c, 0xb85e2ce9, 0xb6ae8fff,
              0xfb121210, 0x948d25b6, 0x961f4894, 0xb21bad3d,
              0xa8467f25, 0xa827b133, 0x506e3058, 0x5ef50f24);
  }

  lemma {:induction false} AbcCompressed()
    ensures Compress(INITIAL, ABC) == [
              0xba7816bf, 0x8f01cfea, 0x414140de, 0x5dae2223,
              0xb00361a3, 0x96177a9c, 0xb410ff61, 0xf20015ad]
  {
    hide Rounds;
    Rounds56();
    assert Plus(0x6a09e667, 0x506e3058) == 0xba7816bf;
    assert Plus(0xbb67ae85, 0xd39a2165) == 0x8f01cfea;
    assert Plus(0x3c6ef372, 0x04d24d6c) == 0x414140de;
    assert Plus(0xa54ff53a, 0xb85e2ce9) == 0x5dae2223;
    assert Plus(0x510e527f, 0x5ef50f24) == 0xb00361a3;
    assert Plus(0x9b05688c, 0xfb121210) == 0x96177a9c;
    assert Plus(0x1f83d9ab, 0x948d25b6) == 0xb410ff61;
    assert Plus(0x5be0cd19, 0x961f4894) == 0xf20015ad;
  }

  lemma {:induction false} AppendOctets(ws: seq<Word>, w: Word)
    ensures WordsOctets([]) == [] && WordsOctets(ws + [w]) == WordsOctets(ws) + WordOctets(w)
  {
    hide WordOctets;
    assert (ws + [w])[..|ws|] == ws;
  }

  lemma {:induction false} EightOctets(a: Word, b: Word, c: Word, d: Word, e: Word, f: Word, g: Word, h: Word)
    ensures WordsOctets([a, b, c, d, e, f, g, h])
         == WordOctets(a) + WordOctets(b) + WordOctets(c) + WordOctets(d)
            + WordOctets(e) + WordOctets(f) + WordOctets(g) + WordOctets(h)
  {
    hide WordOctets, WordsOctets;
    AppendOctets([], a);
    Sequences.Empty(WordOctets(a));
    assert [] + [a] == [a];
    AppendOctets([a], b);
    assert [a] + [b] == [a, b];
    AppendOctets([a, b], c);
    assert [a, b] + [c] == [a, b, c];
    AppendOctets([a, b, c], d);
    assert [a, b, c] + [d] == [a, b, c, d];
    AppendOctets([a, b, c, d], e);
    assert [a, b, c, d] + [e] == [a, b, c, d, e];
    AppendOctets([a, b, c, d, e], f);
    assert [a, b, c, d, e] + [f] == [a, b, c, d, e, f];
    AppendOctets([a, b, c, d, e, f], g);
    assert [a, b, c, d, e, f] + [g] == [a, b, c, d, e, f, g];
    AppendOctets([a, b, c, d, e, f, g], h);
    assert [a, b, c, d, e, f, g] + [h] == [a, b, c, d, e, f, g, h];
  }

  lemma {:induction false} FirstHalf()
    ensures WordOctets(0xba7816bf) == [0xba, 0x78, 0x16, 0xbf]
    ensures WordOctets(0x8f01cfea) == [0x8f, 0x01, 0xcf, 0xea]
    ensures WordOctets(0x414140de) == [0x41, 0x41, 0x40, 0xde]
    ensures WordOctets(0x5dae2223) == [0x5d, 0xae, 0x22, 0x23]
  {
  }

  lemma {:induction false} SecondHalf()
    ensures WordOctets(0xb00361a3) == [0xb0, 0x03, 0x61, 0xa3]
    ensures WordOctets(0x96177a9c) == [0x96, 0x17, 0x7a, 0x9c]
    ensures WordOctets(0xb410ff61) == [0xb4, 0x10, 0xff, 0x61]
    ensures WordOctets(0xf20015ad) == [0xf2, 0x00, 0x15, 0xad]
  {
  }

  lemma {:induction false} DigestOctets()
    ensures WordsOctets([
              0xba7816bf, 0x8f01cfea, 0x414140de, 0x5dae2223,
              0xb00361a3, 0x96177a9c, 0xb410ff61, 0xf20015ad]) ==
            [0xba, 0x78, 0x16, 0xbf] + [0x8f, 0x01, 0xcf, 0xea]
            + [0x41, 0x41, 0x40, 0xde] + [0x5d, 0xae, 0x22, 0x23]
            + [0xb0, 0x03, 0x61, 0xa3] + [0x96, 0x17, 0x7a, 0x9c]
            + [0xb4, 0x10, 0xff, 0x61] + [0xf2, 0x00, 0x15, 0xad]
  {
    FirstHalf();
    SecondHalf();
    hide WordOctets, WordsOctets;
    EightOctets(0xba7816bf, 0x8f01cfea, 0x414140de, 0x5dae2223,
                0xb00361a3, 0x96177a9c, 0xb410ff61, 0xf20015ad);
  }

  /** The first example of the standard: one block, the three letters "abc". */
  lemma {:induction false} DigestOfAbc()
    ensures Digest([97, 98, 99]) ==
            [0xba, 0x78, 0x16, 0xbf] + [0x8f, 0x01, 0xcf, 0xea]
            + [0x41, 0x41, 0x40, 0xde] + [0x5d, 0xae, 0x22, 0x23]
            + [0xb0, 0x03, 0x61, 0xa3] + [0x96, 0x17, 0x7a, 0x9c]
            + [0xb4, 0x10, 0xff, 0x61] + [0xf2, 0x00, 0x15, 0xad]
  {
    AbcPadded();
    AbcCompressed();
    hide Compress, Padding, WordOctets, WordsOctets;
    DigestedBlock(INITIAL, [], ABC);
    assert [] + ABC == ABC;
    DigestOctets();
  }
}
