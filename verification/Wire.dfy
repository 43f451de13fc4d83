/** Fixed-width integers, big-endian fields and the growing byte buffer every encoder appends to. */
module Wire {
  type byte = x: int | 0 <= x < 0x100
  type u16 = x: int | 0 <= x < 0x1_0000
  type u32 = x: int | 0 <= x < 0x1_0000_0000
  type i64 = x: int | -0x8000_0000_0000_0000 <= x < 0x8000_0000_0000_0000

  datatype Option<+T> = None | Some(value: T)

  /** Rust's `Result`; usable with `:-`. */
  datatype Result<+T, +E> = Ok(value: T) | Err(error: E) {
    predicate IsFailure() {
      Err?
    }

    function PropagateFailure<U>(): Result<U, E>
      requires Err?
    {
      Err(error)
    }

    function Extract(): T
      requires Ok?
    {
      value
    }
  }

  function U16(x: u16): (s: seq<byte>)
    ensures |s| == 2
  {
    [x / 0x100, x % 0x100]
  }

  function U32(x: u32): (s: seq<byte>)
    ensures |s| == 4
  {
    U16(x / 0x1_0000) + U16(x % 0x1_0000)
  }

  function ReadU16(m: seq<byte>, at: nat): u16
    requires at + 2 <= |m|
  {
    (m[at] as int) * 0x100 + m[at + 1]
  }

  function ReadU32(m: seq<byte>, at: nat): u32
    requires at + 4 <= |m|
  {
    ReadU16(m, at) * 0x1_0000 + ReadU16(m, at + 2)
  }

  /** `s` lies in `m` at offset `at`. */
  ghost predicate At(m: seq<byte>, at: nat, s: seq<byte>) {
    at + |s| <= |m| && m[at..at + |s|] == s
  }

  lemma {:induction false} AtSplit(m: seq<byte>, at: nat, s: seq<byte>, t: seq<byte>)
    ensures At(m, at, s + t) <==> At(m, at, s) && At(m, at + |s|, t)
  {
    if at + |s| + |t| <= |m| {
      assert m[at..at + |s + t|] == m[at..at + |s|] + m[at + |s|..at + |s| + |t|];
      if At(m, at, s + t) {
        assert m[at..at + |s|] == (s + t)[..|s|];
        assert m[at + |s|..at + |s| + |t|] == (s + t)[|s|..];
      }
    }
  }

  lemma {:induction false} ReadBackU16(m: seq<byte>, at: nat, x: u16)
    requires At(m, at, U16(x))
    ensures ReadU16(m, at) == x
  {
    assert m[at] == m[at..at + 2][0] && m[at + 1] == m[at..at + 2][1];
  }

  lemma {:induction false} ReadBackU32(m: seq<byte>, at: nat, x: u32)
    requires At(m, at, U32(x))
    ensures ReadU32(m, at) == x
  {
    AtSplit(m, at, U16(x / 0x1_0000), U16(x % 0x1_0000));
    ReadBackU16(m, at, x / 0x1_0000);
    ReadBackU16(m, at + 2, x % 0x1_0000);
  }

  /** A `Vec<u8>` handed down by mutable reference. */
  class Buffer {
    var bytes: seq<byte>

    constructor ()
      ensures bytes == []
    {
      bytes := [];
    }

    method Push(b: byte)
      modifies this
      ensures bytes == old(bytes) + [b]
    {
      bytes := bytes + [b];
    }

    method Extend(s: seq<byte>)
      modifies this
      ensures bytes == old(bytes) + s
    {
      bytes := bytes + s;
    }

    /** Overwrites what stands at `at` without moving anything else. */
    method Patch(at: nat, s: seq<byte>)
      requires at + |s| <= |bytes|
      modifies this
      ensures bytes == old(bytes)[..at] + s + old(bytes)[at + |s|..]
    {
      bytes := bytes[..at] + s + bytes[at + |s|..];
    }
  }
}
