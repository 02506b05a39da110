/**
 * The emulator's view of memory: byte-addressed, 32-bit addresses, little
 * endian (ARM as used by the runtime). The C code reads and writes memory
 * through `uint32*` and `uint64*` casts; here those accesses are loads
 * and stores of four or eight consecutive bytes. Addresses wrap modulo 2^32.
 */
module Mem {

  /** The contents of memory. */
  type Bytes = bv32 -> bv8

  /** Memory with byte `a` replaced by `v`. */
  function Put(m: Bytes, a: bv32, v: bv8): Bytes {
    b => if b == a then v else m(b)
  }

  /** Byte `k` (0 = least significant) of a word. */
  function Byte32(w: bv32, k: bv32): bv8
    requires k < 4
  {
    ((w >> (8 * k)) & 0xff) as bv8
  }

  /** Byte `k` (0 = least significant) of a doubleword. */
  function Byte64(d: bv64, k: bv64): bv8
    requires k < 8
  {
    ((d >> (8 * k)) & 0xff) as bv8
  }

  /** `*(uint32*)a`. */
  function Load32(m: Bytes, a: bv32): bv32 {
    (m(a) as bv32) | ((m(a + 1) as bv32) << 8) | ((m(a + 2) as bv32) << 16) | ((m(a + 3) as bv32) << 24)
  }

  /** `*(uint32*)a = w`. */
  function Store32(m: Bytes, a: bv32, w: bv32): Bytes {
    Put(Put(Put(Put(m, a, Byte32(w, 0)), a + 1, Byte32(w, 1)), a + 2, Byte32(w, 2)), a + 3, Byte32(w, 3))
  }

  /** `*(uint64*)a`. */
  function Load64(m: Bytes, a: bv32): bv64 {
    (m(a) as bv64) | ((m(a + 1) as bv64) << 8) | ((m(a + 2) as bv64) << 16) | ((m(a + 3) as bv64) << 24)
    | ((m(a + 4) as bv64) << 32) | ((m(a + 5) as bv64) << 40) | ((m(a + 6) as bv64) << 48) | ((m(a + 7) as bv64) << 56)
  }

  /** `*(uint64*)a = d`. */
  function Store64(m: Bytes, a: bv32, d: bv64): Bytes {
    Put(Put(Put(Put(Put(Put(Put(Put(m,
      a, Byte64(d, 0)), a + 1, Byte64(d, 1)), a + 2, Byte64(d, 2)), a + 3, Byte64(d, 3)),
      a + 4, Byte64(d, 4)), a + 5, Byte64(d, 5)), a + 6, Byte64(d, 6)), a + 7, Byte64(d, 7))
  }

  /** A word reads back as stored. */
  lemma Load32Store32(m: Bytes, a: bv32, w: bv32)
    ensures Load32(Store32(m, a, w), a) == w
  {
  }

  /** A doubleword reads back as stored. */
  lemma Load64Store64(m: Bytes, a: bv32, d: bv64)
    ensures Load64(Store64(m, a, d), a) == d
  {
  }

  /** A word store changes only its own four bytes. */
  lemma Store32Frame(m: Bytes, a: bv32, w: bv32, b: bv32)
    requires b != a && b != a + 1 && b != a + 2 && b != a + 3
    ensures Store32(m, a, w)(b) == m(b)
  {
  }

  /** A doubleword store changes only its own eight bytes. */
  lemma Store64Frame(m: Bytes, a: bv32, d: bv64, b: bv32)
    requires b != a && b != a + 1 && b != a + 2 && b != a + 3
    requires b != a + 4 && b != a + 5 && b != a + 6 && b != a + 7
    ensures Store64(m, a, d)(b) == m(b)
  {
  }

  /** Little endian: a doubleword is the word at its address below the word four bytes up. */
  lemma Load64Words(m: Bytes, a: bv32)
    ensures Load64(m, a) == ((Load32(m, a + 4) as bv64) << 32) | (Load32(m, a) as bv64)
  {
  }
}
