/** Fixed-width machine integers of the interpreter, modelled on unbounded
    integers with every truncation written out explicitly. */
module Bytes {

  /** An `uint8_t` value. */
  type Byte = b: int | 0 <= b < 0x100

  /** An `uint16_t` value. */
  type Word = w: int | 0 <= w < 0x1_0000

  /** Conversion of an `int` to `uint8_t` (keeps the low 8 bits). */
  function Wrap8(n: int): (r: Byte)
    ensures 0 <= n < 0x100 ==> r == n
    ensures (r - n) % 0x100 == 0
  {
    n % 0x100
  }

  /** Conversion of an `int` to `uint16_t` (keeps the low 16 bits). */
  function Wrap16(n: int): (r: Word)
    ensures 0 <= n < 0x1_0000 ==> r == n
    ensures (r - n) % 0x1_0000 == 0
  {
    n % 0x1_0000
  }

  /** Bitwise `&` on two bytes. */
  function And8(a: Byte, b: Byte): Byte
  {
    ((a as bv8) & (b as bv8)) as int
  }

  /** Bitwise `|` on two bytes. */
  function Or8(a: Byte, b: Byte): Byte
  {
    ((a as bv8) | (b as bv8)) as int
  }

  /** Bitwise `^` on two bytes. */
  function Xor8(a: Byte, b: Byte): Byte
  {
    ((a as bv8) ^ (b as bv8)) as int
  }

  /** Bit `c` of a sprite row, counted from the most significant bit, as the
      test `row & (0x80 >> c)` reads it. */
  predicate SpriteBit(row: Byte, c: nat)
    requires c < 8
  {
    (row as bv8) & ((0x80 as bv8) >> c) != 0
  }

  /** Adding a multiple of 256 leaves the low byte alone. */
  lemma ModOfMultipleAdd(k: int, b: int)
    requires 0 <= b < 0x100
    ensures (0x100 * k + b) % 0x100 == b
  {
    var n := 0x100 * k + b;
    assert n == 0x100 * (n / 0x100) + n % 0x100;
    assert n / 0x100 == k;
  }

  /** Truncating a wrapped 16-bit value to 8 bits is the same as truncating
      the original value to 8 bits. */
  lemma Wrap8OfWrap16(n: int)
    ensures Wrap8(Wrap16(n)) == Wrap8(n)
  {
    var w := n % 0x1_0000;
    var q := n / 0x1_0000;
    var lo := w % 0x100;
    var hi := w / 0x100;
    assert n == 0x1_0000 * q + w;
    assert w == 0x100 * hi + lo;
    assert n == 0x100 * (0x100 * q + hi) + lo;
    ModOfMultipleAdd(0x100 * q + hi, lo);
  }

  /** The mask 0x1 selects the least significant bit. */
  lemma AndOne(a: Byte)
    ensures And8(a, 0x1) == a % 2
  {
  }

  /** The mask 0x8 selects bit 3. */
  lemma AndEight(a: Byte)
    ensures And8(a, 0x8) != 0 <==> (a / 8) % 2 == 1
  {
  }
}
