/** 32-bit words: addition that wraps, the bitwise operations, shifts and rotations. */
module Words {
  type Word = bv32

  /** Modulo two to the thirty-second, like all arithmetic on words. */
  function Plus(x: Word, y: Word): Word {
    x + y
  }

  function Xor(x: Word, y: Word): Word {
    x ^ y
  }

  function And(x: Word, y: Word): Word {
    x & y
  }

  function Not(x: Word): Word {
    !x
  }

  function Shr(x: Word, n: Word): Word
    requires n < 32
  {
    x >> n
  }

  function Rotr(x: Word, n: Word): Word
    requires 0 < n < 32
  {
    (x >> n) | (x << (32 - n))
  }

  /** Turning to the right, as arithmetic: what falls out at the bottom comes back at the top. */
  lemma {:induction false} RotrTurns(x: Word)
    ensures Rotr(x, 2) == x / 0x4 + x % 0x4 * 0x4000_0000 && Rotr(x, 6) == x / 0x40 + x % 0x40 * 0x400_0000
    ensures Rotr(x, 7) == x / 0x80 + x % 0x80 * 0x200_0000 && Rotr(x, 11) == x / 0x800 + x % 0x800 * 0x20_0000
    ensures Rotr(x, 13) == x / 0x2000 + x % 0x2000 * 0x8_0000 && Rotr(x, 17) == x / 0x2_0000 + x % 0x2_0000 * 0x8000
    ensures Rotr(x, 18) == x / 0x4_0000 + x % 0x4_0000 * 0x4000 && Rotr(x, 19) == x / 0x8_0000 + x % 0x8_0000 * 0x2000
    ensures Rotr(x, 22) == x / 0x40_0000 + x % 0x40_0000 * 0x400
    ensures Rotr(x, 25) == x / 0x200_0000 + x % 0x200_0000 * 0x80
    ensures Shr(x, 3) == x / 0x8 && Shr(x, 10) == x / 0x400
  {
    Turn2(x);
    Turn6(x);
    Turn7(x);
    Turn11(x);
    Turn13(x);
    Turn17(x);
    Turn18(x);
    Turn19(x);
    Turn22(x);
    Turn25(x);
    Shifts(x);
    hide Rotr, Shr;
  }

  lemma {:induction false} Turn2(x: Word)
    ensures Rotr(x, 2) == x / 0x4 + x % 0x4 * 0x4000_0000
  {
  }

  lemma {:induction false} Turn6(x: Word)
    ensures Rotr(x, 6) == x / 0x40 + x % 0x40 * 0x400_0000
  {
  }

  lemma {:induction false} Turn7(x: Word)
    ensures Rotr(x, 7) == x / 0x80 + x % 0x80 * 0x200_0000
  {
  }

  lemma {:induction false} Turn11(x: Word)
    ensures Rotr(x, 11) == x / 0x800 + x % 0x800 * 0x20_0000
  {
  }

  lemma {:induction false} Turn13(x: Word)
    ensures Rotr(x, 13) == x / 0x2000 + x % 0x2000 * 0x8_0000
  {
  }

  lemma {:induction false} Turn17(x: Word)
    ensures Rotr(x, 17) == x / 0x2_0000 + x % 0x2_0000 * 0x8000
  {
  }

  lemma {:induction false} Turn18(x: Word)
    ensures Rotr(x, 18) == x / 0x4_0000 + x % 0x4_0000 * 0x4000
  {
  }

  lemma {:induction false} Turn19(x: Word)
    ensures Rotr(x, 19) == x / 0x8_0000 + x % 0x8_0000 * 0x2000
  {
  }

  lemma {:induction false} Turn22(x: Word)
    ensures Rotr(x, 22) == x / 0x40_0000 + x % 0x40_0000 * 0x400
  {
  }

  lemma {:induction false} Turn25(x: Word)
    ensures Rotr(x, 25) == x / 0x200_0000 + x % 0x200_0000 * 0x80
  {
  }

  lemma {:induction false} Shifts(x: Word)
    ensures Shr(x, 3) == x / 0x8 && Shr(x, 10) == x / 0x400
  {
  }

  lemma {:induction false} PlusCommutes(x: Word, y: Word)
    ensures Plus(x, y) == Plus(y, x)
  {
  }

  lemma {:induction false} SumAssociates(x: Word, y: Word, z: Word)
    ensures x + y + z == x + (y + z)
  {
  }

  lemma {:induction false} PlusAssociates(x: Word, y: Word, z: Word)
    ensures Plus(Plus(x, y), z) == Plus(x, Plus(y, z))
  {
    calc {
      Plus(Plus(x, y), z);
    ==
      Plus(x, y) + z;
    ==
      x + y + z;
    ==  { SumAssociates(x, y, z); }
      x + (y + z);
    ==
      x + Plus(y, z);
    ==
      Plus(x, Plus(y, z));
    }
  }

  lemma {:induction false} PlusReverses(a: Word, b: Word, c: Word, d: Word)
    ensures Plus(Plus(Plus(a, b), c), d) == Plus(Plus(Plus(d, c), b), a)
  {
    hide Plus;
    PlusCommutes(a, b);
    PlusCommutes(Plus(b, a), c);
    PlusAssociates(c, b, a);
    PlusCommutes(Plus(Plus(c, b), a), d);
    PlusAssociates(d, Plus(c, b), a);
    PlusAssociates(d, c, b);
  }
}
