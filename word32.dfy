/** Go's fixed-width integers, as the toolchain uses them.

    A `uint32` is a `bv32`. A Go `int32` is an integer in `Int32`; its bit
    pattern is `FromInt(v)` (Go's `uint32(v)`), and the integer a pattern
    stands for is `Signed(b)` (Go's `int32(b)`). Both conversions go
    through the four little-endian bytes of the word, and a byte's value
    is the sum of its set bits, so no step mixes bit-vector and integer
    reasoning more than one byte at a time. */
module Word32 {

  const TWO32: int := 0x1_0000_0000
  const TWO31: int := 0x8000_0000

  type Int32 = x: int | -0x8000_0000 <= x < 0x8000_0000

  /** Byte k of a word, least significant first. */
  function B0(b: bv32): bv8 { (b & 0xFF) as bv8 }
  function B1(b: bv32): bv8 { ((b >> 8) & 0xFF) as bv8 }
  function B2(b: bv32): bv8 { ((b >> 16) & 0xFF) as bv8 }
  function B3(b: bv32): bv8 { (b >> 24) as bv8 }

  /** The word whose bytes, most significant first, are x3, x2, x1, x0. */
  function FromBytes(x3: bv8, x2: bv8, x1: bv8, x0: bv8): bv32 {
    (x3 as bv32 << 24) | (x2 as bv32 << 16) | (x1 as bv32 << 8) | x0 as bv32
  }

  lemma BytesOf(x3: bv8, x2: bv8, x1: bv8, x0: bv8)
    ensures var b := FromBytes(x3, x2, x1, x0); B3(b) == x3 && B2(b) == x2 && B1(b) == x1 && B0(b) == x0
  {}

  lemma FromBytesOf(b: bv32)
    ensures FromBytes(B3(b), B2(b), B1(b), B0(b)) == b
  {}

  function BitVal(x: bv8, m: bv8, w: nat): nat { if x & m != 0 then w else 0 }

  /** The value of a byte: the sum of the weights of its set bits. */
  function ByteVal(x: bv8): (n: nat)
    ensures n < 256
  {
    BitVal(x, 1, 1) + BitVal(x, 2, 2) + BitVal(x, 4, 4) + BitVal(x, 8, 8)
      + BitVal(x, 16, 16) + BitVal(x, 32, 32) + BitVal(x, 64, 64) + BitVal(x, 128, 128)
  }

  /** The byte whose value is n, built from the most significant bit down. */
  function ByteOf(n: int): bv8
    requires 0 <= n < 256
  {
    var h7 := n >= 128; var n7 := if h7 then n - 128 else n;
    var h6 := n7 >= 64; var n6 := if h6 then n7 - 64 else n7;
    var h5 := n6 >= 32; var n5 := if h5 then n6 - 32 else n6;
    var h4 := n5 >= 16; var n4 := if h4 then n5 - 16 else n5;
    var h3 := n4 >= 8; var n3 := if h3 then n4 - 8 else n4;
    var h2 := n3 >= 4; var n2 := if h2 then n3 - 4 else n3;
    var h1 := n2 >= 2; var n1 := if h1 then n2 - 2 else n2;
    (if h7 then 128 else 0) | (if h6 then 64 else 0) | (if h5 then 32 else 0) | (if h4 then 16 else 0)
      | (if h3 then 8 else 0) | (if h2 then 4 else 0) | (if h1 then 2 else 0) | (if n1 == 1 then 1 else 0)
  }

  lemma ByteValOf(n: int)
    requires 0 <= n < 256
    ensures ByteVal(ByteOf(n)) == n
  {
    if n >= 128 {
      ByteValOfHigh(n);
    } else {
      ByteValOfLow(n);
    }
  }

  lemma ByteValOfHigh(n: int)
    requires 128 <= n < 256
    ensures ByteVal(ByteOf(n)) == n
  {}

  lemma ByteValOfLow(n: int)
    requires 0 <= n < 128
    ensures ByteVal(ByteOf(n)) == n
  {}

  lemma ByteLt(x: bv8, c: bv8)
    ensures x < c <==> ByteVal(x) < ByteVal(c)
    ensures x == c <==> ByteVal(x) == ByteVal(c)
  {}

  lemma ByteOfVal(x: bv8)
    ensures ByteOf(ByteVal(x)) == x
  {
    ByteValOf(ByteVal(x));
    ByteLt(ByteOf(ByteVal(x)), x);
  }

  /** The value of a word read as an unsigned number (Go's `uint32`). */
  function Unsigned(b: bv32): (n: nat)
    ensures n < TWO32
  {
    BytesVal(B3(b), B2(b), B1(b), B0(b))
  }

  /** Truncation of an integer to 32 bits (Go's `uint32(x)`), two's complement. */
  function FromInt(v: int): bv32 {
    var u := v % TWO32;
    FromBytes(ByteOf(u / 256 / 256 / 256 % 256), ByteOf(u / 256 / 256 % 256), ByteOf(u / 256 % 256), ByteOf(u % 256))
  }

  lemma TopBit(b: bv32)
    ensures b < 0x8000_0000 <==> B3(b) < 0x80
  {}

  /** The value of a word read as a two's-complement `int32` (Go's `int32(x)`). */
  function Signed(b: bv32): (v: Int32)
  {
    TopBit(b);
    ByteLt(B3(b), 0x80);
    if b < 0x8000_0000 then Unsigned(b) else Unsigned(b) - TWO32
  }

  lemma DivMod256(q: int, r: int)
    requires 0 <= r < 256
    ensures (q * 256 + r) / 256 == q && (q * 256 + r) % 256 == r
  {}

  /** The base-256 digits of a 32-bit value, most significant first. */
  lemma Digits(u: int)
    requires 0 <= u < TWO32
    ensures u == ((u / 256 / 256 / 256 * 256 + u / 256 / 256 % 256) * 256 + u / 256 % 256) * 256 + u % 256
    ensures u / 256 / 256 / 256 % 256 == u / 256 / 256 / 256
  {
    var a := u / 256;
    assert u == a * 256 + u % 256;
    var b := a / 256;
    assert a == b * 256 + a % 256;
    var c := b / 256;
    assert b == c * 256 + b % 256;
  }

  lemma DigitsUnique(y3: int, y2: int, y1: int, y0: int)
    requires 0 <= y3 < 256 && 0 <= y2 < 256 && 0 <= y1 < 256 && 0 <= y0 < 256
    ensures var u := ((y3 * 256 + y2) * 256 + y1) * 256 + y0;
      u / 256 / 256 / 256 % 256 == y3 && u / 256 / 256 % 256 == y2 && u / 256 % 256 == y1 && u % 256 == y0
  {
    DivMod256((y3 * 256 + y2) * 256 + y1, y0);
    DivMod256(y3 * 256 + y2, y1);
    DivMod256(y3, y2);
    DivMod256(0, y3);
  }

  /** Truncating an integer and reading it back unsigned is reduction mod 2^32. */
  lemma UnsignedFromInt(v: int)
    ensures Unsigned(FromInt(v)) == v % TWO32
  {
    var u := v % TWO32;
    Digits(u);
    var y3, y2, y1, y0 := u / 256 / 256 / 256 % 256, u / 256 / 256 % 256, u / 256 % 256, u % 256;
    BytesOf(ByteOf(y3), ByteOf(y2), ByteOf(y1), ByteOf(y0));
    ByteValOf(y3); ByteValOf(y2); ByteValOf(y1); ByteValOf(y0);
  }

  lemma FromIntDigits(y3: int, y2: int, y1: int, y0: int)
    requires 0 <= y3 < 256 && 0 <= y2 < 256 && 0 <= y1 < 256 && 0 <= y0 < 256
    ensures FromInt(((y3 * 256 + y2) * 256 + y1) * 256 + y0) == FromBytes(ByteOf(y3), ByteOf(y2), ByteOf(y1), ByteOf(y0))
  {
    var u := ((y3 * 256 + y2) * 256 + y1) * 256 + y0;
    assert u % TWO32 == u by {
      DigitsRange(y3, y2, y1, y0);
    }
    assert u / 256 / 256 / 256 % 256 == y3 && u / 256 / 256 % 256 == y2 && u / 256 % 256 == y1 && u % 256 == y0 by {
      DigitsUnique(y3, y2, y1, y0);
    }
  }

  lemma DigitsRange(y3: int, y2: int, y1: int, y0: int)
    requires 0 <= y3 < 256 && 0 <= y2 < 256 && 0 <= y1 < 256 && 0 <= y0 < 256
    ensures var u := ((y3 * 256 + y2) * 256 + y1) * 256 + y0; 0 <= u < TWO32 && u % TWO32 == u
  {
    var a := y3 * 256 + y2;
    assert 0 <= a < 256 * 256;
    var b := a * 256 + y1;
    assert 0 <= b < 256 * 256 * 256;
  }

  /** Reading a word unsigned and truncating it again gives the word back. */
  lemma FromIntUnsigned(b: bv32)
    ensures FromInt(Unsigned(b)) == b
  {
    FromIntDigits(ByteVal(B3(b)), ByteVal(B2(b)), ByteVal(B1(b)), ByteVal(B0(b)));
    ByteOfVal(B3(b)); ByteOfVal(B2(b)); ByteOfVal(B1(b)); ByteOfVal(B0(b));
    FromBytesOf(b);
  }

  /** FromInt only depends on its argument modulo 2^32. */
  lemma FromIntMod(x: int, y: int)
    requires x % TWO32 == y % TWO32
    ensures FromInt(x) == FromInt(y)
  {}

  lemma LexTop(b: bv32, c: bv32)
    ensures b < c <==> (B3(b) < B3(c) || (B3(b) == B3(c) && (b & 0xFF_FFFF) < (c & 0xFF_FFFF)))
  {}

  lemma LexTwo(b: bv32, c: bv32)
    ensures (b & 0xFF_FFFF) < (c & 0xFF_FFFF) <==> (B2(b) < B2(c) || (B2(b) == B2(c) && (b & 0xFFFF) < (c & 0xFFFF)))
  {}

  lemma LexOne(b: bv32, c: bv32)
    ensures (b & 0xFFFF) < (c & 0xFFFF) <==> (B1(b) < B1(c) || (B1(b) == B1(c) && (b & 0xFF) < (c & 0xFF)))
  {}

  lemma LexZero(b: bv32, c: bv32)
    ensures (b & 0xFF) < (c & 0xFF) <==> B0(b) < B0(c)
  {}

  /** Lexicographic order on four bytes, most significant first. */
  predicate LexBytes(x3: bv8, x2: bv8, x1: bv8, x0: bv8, z3: bv8, z2: bv8, z1: bv8, z0: bv8) {
    x3 < z3 || (x3 == z3 && (x2 < z2 || (x2 == z2 && (x1 < z1 || (x1 == z1 && x0 < z0)))))
  }

  /** Lexicographic order on four digits, most significant first. */
  predicate LexDigits(y3: int, y2: int, y1: int, y0: int, z3: int, z2: int, z1: int, z0: int) {
    y3 < z3 || (y3 == z3 && (y2 < z2 || (y2 == z2 && (y1 < z1 || (y1 == z1 && y0 < z0)))))
  }

  lemma LexStep(a: int, x: int, b: int, z: int)
    requires 0 <= x < 256 && 0 <= z < 256
    ensures a * 256 + x < b * 256 + z <==> a < b || (a == b && x < z)
  {}

  lemma LexInt(y3: int, y2: int, y1: int, y0: int, z3: int, z2: int, z1: int, z0: int)
    requires 0 <= y3 < 256 && 0 <= y2 < 256 && 0 <= y1 < 256 && 0 <= y0 < 256
    requires 0 <= z3 < 256 && 0 <= z2 < 256 && 0 <= z1 < 256 && 0 <= z0 < 256
    ensures ((y3 * 256 + y2) * 256 + y1) * 256 + y0 < ((z3 * 256 + z2) * 256 + z1) * 256 + z0
      <==> LexDigits(y3, y2, y1, y0, z3, z2, z1, z0)
  {
    LexStep((y3 * 256 + y2) * 256 + y1, y0, (z3 * 256 + z2) * 256 + z1, z0);
    LexStep(y3 * 256 + y2, y1, z3 * 256 + z2, z1);
    LexStep(y3, y2, z3, z2);
  }

  lemma LexWord(b: bv32, c: bv32)
    ensures b < c <==> LexBytes(B3(b), B2(b), B1(b), B0(b), B3(c), B2(c), B1(c), B0(c))
  {
    LexTop(b, c); LexTwo(b, c); LexOne(b, c); LexZero(b, c);
  }

  lemma LexConv(x3: bv8, x2: bv8, x1: bv8, x0: bv8, z3: bv8, z2: bv8, z1: bv8, z0: bv8)
    ensures LexBytes(x3, x2, x1, x0, z3, z2, z1, z0)
        <==> LexDigits(ByteVal(x3), ByteVal(x2), ByteVal(x1), ByteVal(x0), ByteVal(z3), ByteVal(z2), ByteVal(z1), ByteVal(z0))
  {
    ByteLt(x3, z3); ByteLt(x2, z2); ByteLt(x1, z1); ByteLt(x0, z0);
  }

  lemma LexUnsigned(b: bv32, c: bv32)
    ensures Unsigned(b) < Unsigned(c)
        <==> LexDigits(ByteVal(B3(b)), ByteVal(B2(b)), ByteVal(B1(b)), ByteVal(B0(b)),
                       ByteVal(B3(c)), ByteVal(B2(c)), ByteVal(B1(c)), ByteVal(B0(c)))
  {
    LexInt(ByteVal(B3(b)), ByteVal(B2(b)), ByteVal(B1(b)), ByteVal(B0(b)),
           ByteVal(B3(c)), ByteVal(B2(c)), ByteVal(B1(c)), ByteVal(B0(c)));
  }

  /** Unsigned comparison of words is comparison of their values. */
  lemma UnsignedLt(b: bv32, c: bv32)
    ensures b < c <==> Unsigned(b) < Unsigned(c)
  {
    assert b < c <==> LexBytes(B3(b), B2(b), B1(b), B0(b), B3(c), B2(c), B1(c), B0(c)) by {
      LexWord(b, c);
    }
    assert LexBytes(B3(b), B2(b), B1(b), B0(b), B3(c), B2(c), B1(c), B0(c))
        <==> LexDigits(ByteVal(B3(b)), ByteVal(B2(b)), ByteVal(B1(b)), ByteVal(B0(b)),
                       ByteVal(B3(c)), ByteVal(B2(c)), ByteVal(B1(c)), ByteVal(B0(c))) by {
      LexConv(B3(b), B2(b), B1(b), B0(b), B3(c), B2(c), B1(c), B0(c));
    }
    LexUnsigned(b, c);
  }

  /** Two words are equal exactly when their values are. */
  lemma UnsignedEq(b: bv32, c: bv32)
    ensures b == c <==> Unsigned(b) == Unsigned(c)
  {
    FromIntUnsigned(b);
    FromIntUnsigned(c);
  }

  /** An int32 survives the round trip through its bit pattern. */
  lemma SignedFromInt(v: int)
    requires -TWO31 <= v < TWO31
    ensures Signed(FromInt(v)) == v
  {
    UnsignedFromInt(v);
    UnsignedLt(FromInt(v), 0x8000_0000);
  }

  /** A bit pattern survives the round trip through its int32 value. */
  lemma FromIntSigned(b: bv32)
    ensures FromInt(Signed(b)) == b
  {
    FromIntUnsigned(b);
    assert Signed(b) % TWO32 == Unsigned(b) % TWO32 by {
      if b >= 0x8000_0000 {
        ModShift(Unsigned(b));
      }
    }
    FromIntMod(Signed(b), Unsigned(b));
  }

  lemma ClearLowByte(x: bv8)
    ensures ByteVal(x & 0xFE) == ByteVal(x) - ByteVal(x) % 2
  {}

  lemma ClearLowB0(b: bv32)
    ensures B0(b & !1) == B0(b) & 0xFE
  {}

  lemma ClearLowB1(b: bv32)
    ensures B1(b & !1) == B1(b)
  {}

  lemma ClearLowB2(b: bv32)
    ensures B2(b & !1) == B2(b)
  {}

  lemma ClearLowB3(b: bv32)
    ensures B3(b & !1) == B3(b)
  {}

  lemma ClearLowTop(b: bv32)
    ensures (b & !1) < 0x8000_0000 <==> b < 0x8000_0000
  {}

  /** The value of the word with bytes x3, x2, x1, x0. */
  function BytesVal(x3: bv8, x2: bv8, x1: bv8, x0: bv8): nat {
    ((ByteVal(x3) * 256 + ByteVal(x2)) * 256 + ByteVal(x1)) * 256 + ByteVal(x0)
  }

  lemma ClearLowArith(hi: int, d: int, e: int)
    requires e == d - d % 2
    ensures hi * 256 + e == (hi * 256 + d) - (hi * 256 + d) % 2
  {
    var k := hi * 128 + d / 2;
    assert hi * 256 + d == 2 * k + d % 2;
  }

  lemma BytesValClearLow(x3: bv8, x2: bv8, x1: bv8, x0: bv8)
    ensures BytesVal(x3, x2, x1, x0 & 0xFE) == BytesVal(x3, x2, x1, x0) - BytesVal(x3, x2, x1, x0) % 2
  {
    var hi := (ByteVal(x3) * 256 + ByteVal(x2)) * 256 + ByteVal(x1);
    assert BytesVal(x3, x2, x1, x0) == hi * 256 + ByteVal(x0);
    assert BytesVal(x3, x2, x1, x0 & 0xFE) == hi * 256 + ByteVal(x0 & 0xFE);
    ClearLowByte(x0);
    ClearLowArith(hi, ByteVal(x0), ByteVal(x0 & 0xFE));
  }

  lemma UnsignedClearLow(b: bv32)
    ensures Unsigned(b & !1) == Unsigned(b) - Unsigned(b) % 2
  {
    var c := b & !1;
    ClearLowB0(b); ClearLowB1(b); ClearLowB2(b); ClearLowB3(b);
    var x3, x2, x1, x0 := B3(b), B2(b), B1(b), B0(b);
    assert Unsigned(c) == BytesVal(x3, x2, x1, x0 & 0xFE);
    assert Unsigned(b) == BytesVal(x3, x2, x1, x0);
    BytesValClearLow(x3, x2, x1, x0);
  }

  lemma ClearLowNonNeg(b: bv32)
    requires b < 0x8000_0000
    ensures Signed(b & !1) == Signed(b) - Signed(b) % 2
  {
    UnsignedClearLow(b);
    ClearLowTop(b);
  }

  lemma ClearLowNeg(b: bv32)
    requires b >= 0x8000_0000
    ensures Signed(b & !1) == Signed(b) - Signed(b) % 2
  {
    UnsignedClearLow(b);
    ClearLowTop(b);
    ParityShift(Unsigned(b));
  }

  /** Clearing the lowest bit of a word rounds its int32 value down to an even number. */
  lemma ClearLowBit(b: bv32)
    ensures Signed(b & !1) == Signed(b) - Signed(b) % 2
  {
    if b < 0x8000_0000 {
      ClearLowNonNeg(b);
    } else {
      ClearLowNeg(b);
    }
  }

  lemma ModShift(u: int)
    ensures (u - TWO32) % TWO32 == u % TWO32
  {
    var k := u / TWO32 - 1;
    assert u - TWO32 == TWO32 * k + u % TWO32;
  }

  lemma ParityShift(u: int)
    ensures (u - TWO32) % 2 == u % 2
  {
    var k := u / 2 - TWO31;
    assert u - TWO32 == 2 * k + u % 2;
  }

  lemma Low5Byte(x: bv8)
    ensures ByteVal(x & 0x1F) == ByteVal(x) % 32
  {
    var lo := BitVal(x, 1, 1) + BitVal(x, 2, 2) + BitVal(x, 4, 4) + BitVal(x, 8, 8) + BitVal(x, 16, 16);
    var hi := BitVal(x, 32, 1) + BitVal(x, 64, 2) + BitVal(x, 128, 4);
    assert ByteVal(x) == lo + 32 * hi;
    Low5Bits(x);
    Low5Mod(lo, hi);
  }

  lemma Low5Bits(x: bv8)
    ensures ByteVal(x & 0x1F) == BitVal(x, 1, 1) + BitVal(x, 2, 2) + BitVal(x, 4, 4) + BitVal(x, 8, 8) + BitVal(x, 16, 16)
  {
    var y := x & 0x1F;
    assert y & 1 == x & 1 && y & 2 == x & 2 && y & 4 == x & 4 && y & 8 == x & 8 && y & 16 == x & 16;
    assert y & 32 == 0 && y & 64 == 0 && y & 128 == 0;
  }

  lemma Low5Mod(lo: int, hi: int)
    requires 0 <= lo < 32
    ensures (lo + 32 * hi) % 32 == lo
  {
  }

  lemma Low5B0(b: bv32)
    ensures B0(b & 0x1F) == B0(b) & 0x1F
  {}

  lemma Low5B1(b: bv32)
    ensures B1(b & 0x1F) == 0
  {}

  lemma Low5B2(b: bv32)
    ensures B2(b & 0x1F) == 0
  {}

  lemma Low5B3(b: bv32)
    ensures B3(b & 0x1F) == 0
  {}

  lemma Low5Arith(hi: int, d: int)
    requires hi >= 0 && d >= 0
    ensures (hi * 256 + d) % 32 == d % 32
  {
    assert hi * 256 + d == 32 * (hi * 8) + d;
  }

  /** The low five bits of a word (a register number) are its value modulo 32. */
  lemma UnsignedLow5(b: bv32)
    ensures Unsigned(b & 0x1F) == Unsigned(b) % 32
  {
    var c := b & 0x1F;
    Low5B0(b); Low5B1(b); Low5B2(b); Low5B3(b);
    assert Unsigned(c) == ByteVal(B0(b) & 0x1F);
    Low5Byte(B0(b));
    var hi := (ByteVal(B3(b)) * 256 + ByteVal(B2(b))) * 256 + ByteVal(B1(b));
    assert Unsigned(b) == hi * 256 + ByteVal(B0(b));
    Low5Arith(hi, ByteVal(B0(b)));
  }

  /** A value below 2^32 is its own 32-bit truncation. */
  lemma UnsignedOfNat(v: int)
    requires 0 <= v < TWO32
    ensures Unsigned(FromInt(v)) == v
  {
    UnsignedFromInt(v);
  }

  // Stepping a word by 4, as a program counter or a load address is.

  lemma ByteAddFour(x: bv8)
    ensures x < 252 ==> ByteVal(x + 4) == ByteVal(x) + 4
    ensures x >= 252 ==> ByteVal(x + 4) == ByteVal(x) - 252
  {}

  lemma ByteAddOne(x: bv8)
    requires x < 255
    ensures ByteVal(x + 1) == ByteVal(x) + 1
  {}

  lemma ByteEnds()
    ensures ByteVal(0) == 0 && ByteVal(255) == 255 && ByteVal(252) == 252
  {}

  /** The bytes of b + 4, by how far the carry runs. */
  lemma CarryBytes(b: bv32)
    ensures var c := b + 4;
      if B0(b) < 252 then B0(c) == B0(b) + 4 && B1(c) == B1(b) && B2(c) == B2(b) && B3(c) == B3(b)
      else if B1(b) < 255 then B0(c) == B0(b) + 4 && B1(c) == B1(b) + 1 && B2(c) == B2(b) && B3(c) == B3(b)
      else if B2(b) < 255 then B0(c) == B0(b) + 4 && B1(c) == 0 && B2(c) == B2(b) + 1 && B3(c) == B3(b)
      else B0(c) == B0(b) + 4 && B1(c) == 0 && B2(c) == 0 && B3(c) == B3(b) + 1
  {}

  lemma CarryArith(a3: int, a2: int, a1: int, a0: int, c3: int, c2: int, c1: int, c0: int)
    requires (c0 == a0 + 4 && c1 == a1 && c2 == a2 && c3 == a3)
      || (c0 == a0 - 252 && c1 == a1 + 1 && c2 == a2 && c3 == a3)
      || (c0 == a0 - 252 && a1 == 255 && c1 == 0 && c2 == a2 + 1 && c3 == a3)
      || (c0 == a0 - 252 && a1 == 255 && c1 == 0 && a2 == 255 && c2 == 0 && c3 == a3 + 1)
    ensures ((c3 * 256 + c2) * 256 + c1) * 256 + c0 == ((a3 * 256 + a2) * 256 + a1) * 256 + a0 + 4
  {}

  lemma BelowTop(b: bv32)
    requires Unsigned(b) + 4 < TWO32
    ensures B0(b) < 252 || B1(b) < 255 || B2(b) < 255 || B3(b) < 255
  {
    ByteEnds();
    ByteLt(B0(b), 252);
    ByteLt(B1(b), 255);
    ByteLt(B2(b), 255);
    ByteLt(B3(b), 255);
  }

  /** Adding 4 to a word below 2^32 - 4 adds 4 to its value. */
  lemma UnsignedAddFour(b: bv32)
    requires Unsigned(b) + 4 < TWO32
    ensures Unsigned(b + 4) == Unsigned(b) + 4
  {
    var c := b + 4;
    CarryBytes(b);
    BelowTop(b);
    ByteEnds();
    ByteAddFour(B0(b));
    ByteLt(B0(b), 252);
    if B0(b) >= 252 && B1(b) < 255 {
      ByteAddOne(B1(b));
    } else if B0(b) >= 252 && B2(b) < 255 {
      ByteAddOne(B2(b));
    } else if B0(b) >= 252 {
      ByteAddOne(B3(b));
    }
    CarryArith(ByteVal(B3(b)), ByteVal(B2(b)), ByteVal(B1(b)), ByteVal(B0(b)),
      ByteVal(B3(c)), ByteVal(B2(c)), ByteVal(B1(c)), ByteVal(B0(c)));
  }

  /** Adding 4 to a word at or above 2^32 - 4 wraps around to the bottom. */
  lemma UnsignedAddFourWrap(b: bv32)
    requires Unsigned(b) + 4 >= TWO32
    ensures Unsigned(b + 4) == Unsigned(b) + 4 - TWO32
  {
    var c := b + 4;
    CarryBytes(b);
    ByteEnds();
    ByteAddFour(B0(b));
    ByteLt(B0(b), 252);
    ByteLt(B1(b), 255);
    ByteLt(B2(b), 255);
    ByteLt(B3(b), 255);
    assert B0(c) == B0(b) + 4 && B1(c) == 0 && B2(c) == 0 && B3(c) == 0;
  }
}
