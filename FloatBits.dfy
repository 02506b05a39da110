/**
 * Bit-level helpers of the ARM FPA floating-point emulator: the constant
 * table, operand resolution, the IEEE 754 binary64 field extractors, the
 * single/double converters and the two arithmetic kernels (the significand
 * product of `muf` and the flag computation of `cmf`).
 *
 * Every machine word is a bit-vector. A C `int32` value is represented by
 * its two's-complement pattern in a `bv32`: the int32 additions in this code
 * never overflow, so they coincide with `bv32` additions, and the casts
 * `(uint32)` and `(uint64)` of an int32 are the identity and sign extension.
 */
module FloatBits {

  datatype Option<T> = None | Some(value: T)

  /** Exponent biases of binary64 and binary32. */
  const DoubleExpBias: bv32 := 1023
  const SingleExpBias: bv32 := 127

  /** The eight immediate operands of the FPA instruction set, as binary64 patterns. */
  const FpdConst: seq<bv64> := [
    0x0000_0000_0000_0000,  // 0.0
    0x3ff0_0000_0000_0000,  // 1.0
    0x4000_0000_0000_0000,  // 2.0
    0x4008_0000_0000_0000,  // 3.0
    0x4010_0000_0000_0000,  // 4.0
    0x4014_0000_0000_0000,  // 5.0
    0x3fe0_0000_0000_0000,  // 0.5
    0x4024_0000_0000_0000   // 10.0
  ]

  /** The binary64 fraction mask, bits 0..51. */
  const MantissaMask: bv64 := 0x000f_ffff_ffff_ffff

  /** A C truth value as the int it evaluates to. */
  function CBool(b: bool): bv32 {
    if b then 1 else 0
  }

  /** The conversion `(uint32)` of a `uint64`: the low word. */
  function Low32(x: bv64): bv32 {
    (x & 0xffff_ffff) as bv32
  }

  /**
   * The conversion `(uint64)` of an `int32`: sign extension, written as the
   * usual flip-and-subtract of the sign bit.
   */
  function Int32ToUint64(x: bv32): bv64 {
    ((x ^ 0x8000_0000) as bv64) - 0x8000_0000
  }

  /** A non-negative int32 is zero-extended. */
  lemma Int32ToUint64NonNegative(x: bv32)
    requires x < 0x8000_0000
    ensures Int32ToUint64(x) == x as bv64
  {
  }

  /** A negative int32 gets the high word all ones. */
  lemma Int32ToUint64Negative(x: bv32)
    requires x >= 0x8000_0000
    ensures Int32ToUint64(x) == (x as bv64) | 0xffff_ffff_0000_0000
  {
  }

  /** Signed `>` on int32 patterns: flipping the sign bit maps two's-complement order onto unsigned order. */
  predicate Int32Greater(a: bv32, b: bv32) {
    (a ^ 0x8000_0000) > (b ^ 0x8000_0000)
  }

  /** Signed `<` on int32 patterns. */
  predicate Int32Less(a: bv32, b: bv32) {
    Int32Greater(b, a)
  }

  /** Sign extension leaves the low 11 bits alone, so `(uint64)v & 0x7ff` is the low 11 bits of `v`. */
  lemma WidenLowBits(v: bv32)
    ensures Int32ToUint64(v) & 0x7ff == (v & 0x7ff) as bv64
  {
  }

  /**
   * `precision`: bits 19 and 7 of the instruction select the precision;
   * single (0) and double (1) are accepted, everything else is the fault path.
   */
  function Precision(i: bv32): (r: Option<bv32>)
    ensures r == Some(0) <==> (i >> 19) & 1 == 0 && (i >> 7) & 1 == 0
    ensures r == Some(1) <==> (i >> 19) & 1 == 0 && (i >> 7) & 1 == 1
    ensures r == None <==> (i >> 19) & 1 == 1
  {
    var p := i & 0x0008_0080;
    if p == 0 then Some(0)
    else if p == 0x80 then Some(1)
    else None
  }

  /**
   * `frhs`: the right-hand operand field names an immediate constant when
   * its bit 3 is set and a register otherwise; bits 0..2 index the table or
   * the register file.
   */
  function Frhs(freg: seq<bv64>, rhs: bv32): (r: bv64)
    requires |freg| == 8
    ensures (rhs >> 3) & 1 == 1 ==> r in FpdConst && r == FpdConst[(rhs % 8) as int]
    ensures (rhs >> 3) & 1 == 0 ==> r == freg[(rhs % 8) as int]
  {
    if rhs & 0x8 != 0 then FpdConst[(rhs & 0x7) as int] else freg[(rhs & 0x7) as int]
  }

  /** The biased exponent field, bits 52..62. */
  function ExpField(f: bv64): bv64 {
    (f >> 52) & 0x7ff
  }

  /** `fexp`: the exponent field with its bias removed, an int32. */
  function Fexp(f: bv64): bv32 {
    (ExpField(f) as bv32) - DoubleExpBias
  }

  /** Adding the bias back gives the exponent field: `fexp` is the field shifted down by 1023. */
  lemma FexpRebias(f: bv64)
    ensures Fexp(f) + DoubleExpBias == ExpField(f) as bv32
  {
  }

  /** `fexp` lies in [-1023, 1024], and is -1023 exactly when the exponent field is zero. */
  lemma FexpRange(f: bv64)
    ensures !Int32Less(Fexp(f), 0 - DoubleExpBias) && !Int32Greater(Fexp(f), 1024)
    ensures Fexp(f) == 0 - DoubleExpBias <==> ExpField(f) == 0
  {
  }

  /** `fsign`: the sign bit. */
  function Fsign(f: bv64): bv32 {
    ((f >> 63) as bv32) & 0x1
  }

  /** The sign is a single bit, set exactly for the upper half of the patterns. */
  lemma FsignBit(f: bv64)
    ensures Fsign(f) <= 1
    ensures Fsign(f) == 1 <==> f >= 0x8000_0000_0000_0000
  {
  }

  /** `fmantissa`: the 52 fraction bits. */
  function Fmantissa(f: bv64): bv64 {
    f & MantissaMask
  }

  /** Sign, exponent field and fraction are disjoint and together make up the whole pattern. */
  lemma FieldsReassemble(f: bv64)
    ensures Fmantissa(f) <= MantissaMask && ExpField(f) <= 0x7ff
    ensures ((Fsign(f) as bv64) << 63) | (ExpField(f) << 52) | Fmantissa(f) == f
  {
  }

  /**
   * `d2s`: binary64 to binary32 by truncation. The sign moves from bit 63
   * to bit 31, the exponent is rebiased to 127 and cut to 8 bits, and the
   * top 23 fraction bits are kept. The C function returns the low word of
   * the assembled doubleword.
   */
  function D2S(d: bv64): bv32 {
    Low32(((d >> 32) & 0x8000_0000) | ((((Fexp(d) + SingleExpBias) & 0xff) << 23) as bv64) | ((d >> 29) & 0x7f_ffff))
  }

  /**
   * `s2d`: binary32 to binary64. The sign term shifts bit 31 left by 63,
   * which moves it out of the doubleword, so the result's sign is always 0.
   * The exponent is rebiased by 1023 - 127 and the fraction moved up 29 bits.
   */
  function S2D(s: bv32): bv64 {
    (((s & 0x8000_0000) as bv64) << 63)
    | (((((s >> 23) & 0xff) + (DoubleExpBias - SingleExpBias)) as bv64) << 52)
    | (((s & 0x7f_ffff) as bv64) << 29)
  }

  /** The three fields of a converted single: sign lost, exponent rebiased by 896, fraction moved up 29 bits. */
  lemma S2DFields(s: bv32)
    ensures Fsign(S2D(s)) == 0
    ensures ExpField(S2D(s)) == (((s >> 23) & 0xff) as bv64) + 896
    ensures Fmantissa(S2D(s)) == ((s & 0x7f_ffff) as bv64) << 29
  {
  }

  /** A truncated double keeps the sign bit, in bit 31. */
  lemma D2SSign(d: bv64)
    ensures D2S(d) >> 31 == Fsign(d)
  {
  }

  /** A truncated double's exponent field is the unbiased exponent rebiased to 127, modulo 256. */
  lemma D2SExponent(d: bv64)
    ensures (D2S(d) >> 23) & 0xff == (Fexp(d) + SingleExpBias) & 0xff
  {
  }

  /** A truncated double keeps the top 23 fraction bits, bits 29..51 of the double. */
  lemma D2SMantissa(d: bv64)
    ensures D2S(d) & 0x7f_ffff == ((d >> 29) & 0x7f_ffff) as bv32
  {
  }

  /**
   * Round trip single → double → single: everything but the sign comes back,
   * since the exponent e + 896 fits in 11 bits and the fraction shift is undone.
   */
  lemma SingleRoundTrip(s: bv32)
    ensures D2S(S2D(s)) == s & 0x7fff_ffff
  {
  }

  /** A single without its sign bit survives the round trip unchanged. */
  lemma SingleRoundTripPositive(s: bv32)
    requires s < 0x8000_0000
    ensures D2S(S2D(s)) == s
  {
    SingleRoundTrip(s);
  }

  /**
   * Round trip double → single → double: the sign is cleared, the low 29
   * fraction bits are dropped, and the exponent comes back whenever it is in
   * the binary32 range (unbiased -128..127).
   */
  lemma DoubleRoundTrip(d: bv64)
    ensures Fsign(S2D(D2S(d))) == 0
    ensures Fmantissa(S2D(D2S(d))) == Fmantissa(d) & 0x000f_ffff_e000_0000
    ensures 896 <= ExpField(d) <= 1151 ==> ExpField(S2D(D2S(d))) == ExpField(d)
  {
    S2DFields(D2S(d));
  }

  /** The 32-bit significand used by `muf`: fraction bits 21..51 under an explicit leading one. */
  function Significand(f: bv64): (r: bv64)
    ensures 0x8000_0000 <= r < 0x1_0000_0000
  {
    ((f >> 21) & 0xffff_ffff) | 0x8000_0000
  }

  /** `fd = f0*f1`: the uint64 product of the two significands. */
  function Product(x: bv64, y: bv64): bv64 {
    Significand(x) * Significand(y)
  }

  lemma MulLe(a: int, b: int, c: int)
    requires 0 <= c && a <= b
    ensures a * c <= b * c
  {
  }

  lemma MulBounds(a: int, b: int)
    requires 0x8000_0000 <= a < 0x1_0000_0000 && 0x8000_0000 <= b < 0x1_0000_0000
    ensures 0x4000_0000_0000_0000 <= a * b < 0x1_0000_0000_0000_0000
  {
    MulLe(0x8000_0000, a, b);
    MulLe(0x8000_0000, b, 0x8000_0000);
    MulLe(a, 0xffff_ffff, b);
    MulLe(b, 0xffff_ffff, 0xffff_ffff);
    assert a * b == b * a;
  }

  /**
   * The exact product of two significands lies in [2^62, 2^64): it never
   * wraps in 64 bits, and its leading one is bit 62 or bit 63.
   */
  lemma ProductFits(x: bv64, y: bv64)
    ensures 0x4000_0000_0000_0000 <= (Significand(x) as int) * (Significand(y) as int) < 0x1_0000_0000_0000_0000
  {
    MulBounds(Significand(x) as int, Significand(y) as int);
  }

  /** `high = fd >> 63`: 1 when the product's leading one is bit 63. */
  function High(fd: bv64): bv32 {
    (fd >> 63) as bv32
  }

  /** The 64-bit product `f0*f1` is at least 2^62. */
  lemma ProductAtLeast(x: bv64, y: bv64)
    ensures Product(x, y) >= 0x4000_0000_0000_0000
  {
  }

  /** A doubleword of at least 2^62 with bit 63 clear has its leading one in bit 62. */
  lemma LeadingOne(fd: bv64)
    requires fd >= 0x4000_0000_0000_0000
    ensures High(fd) == 0 ==> (fd >> 62) & 1 == 1
  {
  }

  /** The leading one of the significand product is bit 63 (`high`) or else bit 62. */
  lemma ProductLeadingOne(x: bv64, y: bv64)
    ensures High(Product(x, y)) == 0 ==> (Product(x, y) >> 62) & 1 == 1
  {
    ProductAtLeast(x, y);
    LeadingOne(Product(x, y));
  }

  /** The fraction of the `muf` result: the 52 bits below the product's leading one, bit 63 or 62 (`ProductLeadingOne`). */
  function Fraction(fd: bv64): (r: bv64)
    ensures r & MantissaMask == r
  {
    (if High(fd) != 0 then fd >> 11 else fd >> 10) & MantissaMask
  }

  /** The three fields or-ed into one pattern, each cut to its width. */
  function Pack(sign: bv64, exp: bv64, frac: bv64): (r: bv64)
    ensures Fsign(r) == (sign & 1) as bv32
    ensures ExpField(r) == exp & 0x7ff
    ensures Fmantissa(r) == frac & MantissaMask
  {
    ((sign & 1) << 63) | ((exp & 0x7ff) << 52) | (frac & MantissaMask)
  }

  /**
   * The second half of `muf`, once the significand product `fd` is known:
   * the exponent `fexp(x) + fexp(y) + !!high + 1023` cut to 11 bits, the
   * sign `x >> 63 ^ y >> 63`, and the three fields or-ed together. The int32
   * sum is cast to uint64 (a sign extension) before it is masked.
   */
  function Normalise(x: bv64, y: bv64, fd: bv64): bv64 {
    var exp := Int32ToUint64(Fexp(x) + Fexp(y) + CBool(High(fd) != 0) + DoubleExpBias) & 0x7ff;
    var sign := (x >> 63) ^ (y >> 63);
    Pack(sign, exp, Fraction(fd))
  }

  /** `muf` on two binary64 patterns: the product of their 32-bit significands, normalised. */
  function Muf(x: bv64, y: bv64): bv64 {
    Normalise(x, y, Product(x, y))
  }

  lemma NormaliseSign(x: bv64, y: bv64, fd: bv64)
    ensures Fsign(Normalise(x, y, fd)) == Fsign(x) ^ Fsign(y)
  {
  }

  /** The 11 low bits of a word, widened, masked again and narrowed back, are unchanged. */
  lemma NarrowLowBits(v: bv32)
    ensures (((v & 0x7ff) as bv64) & 0x7ff) as bv32 == v & 0x7ff
  {
  }

  lemma NormaliseExponent(x: bv64, y: bv64, fd: bv64)
    ensures ExpField(Normalise(x, y, fd)) as bv32 == (Fexp(x) + Fexp(y) + CBool(High(fd) != 0) + DoubleExpBias) & 0x7ff
  {
    var sum := Fexp(x) + Fexp(y) + CBool(High(fd) != 0) + DoubleExpBias;
    WidenLowBits(sum);
    NarrowLowBits(sum);
  }

  lemma NormaliseMantissa(x: bv64, y: bv64, fd: bv64)
    ensures Fmantissa(Normalise(x, y, fd)) == Fraction(fd)
  {
  }

  /** The sign of a product is the exclusive or of the operands' signs. */
  lemma MufSign(x: bv64, y: bv64)
    ensures Fsign(Muf(x, y)) == Fsign(x) ^ Fsign(y)
  {
    NormaliseSign(x, y, Product(x, y));
  }

  /**
   * The biased exponent of a product is the sum of the operands' unbiased
   * exponents, plus one when the significand product carried into bit 63,
   * plus the bias, modulo 2048.
   */
  lemma MufExponent(x: bv64, y: bv64)
    ensures ExpField(Muf(x, y)) as bv32 == (Fexp(x) + Fexp(y) + CBool(High(Product(x, y)) != 0) + DoubleExpBias) & 0x7ff
  {
    NormaliseExponent(x, y, Product(x, y));
  }

  /** The fraction of a product is the 52 bits below the leading one of the significand product. */
  lemma MufMantissa(x: bv64, y: bv64)
    ensures Fmantissa(Muf(x, y)) == Fraction(Product(x, y))
    ensures High(Product(x, y)) == 0 ==> (Product(x, y) >> 62) & 1 == 1
  {
    NormaliseMantissa(x, y, Product(x, y));
    ProductLeadingOne(x, y);
  }

  /** Multiplying by the constant #1.0 keeps the operand except its low 21 fraction bits, which the 32-bit significand drops. */
  lemma MufByOne(x: bv64)
    ensures Muf(x, FpdConst[1]) == x & 0xffff_ffff_ffe0_0000
  {
  }

  lemma ProductCommutes(x: bv64, y: bv64)
    ensures Product(x, y) == Product(y, x)
  {
  }

  lemma NormaliseCommutes(x: bv64, y: bv64, fd: bv64)
    ensures Normalise(x, y, fd) == Normalise(y, x, fd)
  {
  }

  /** `muf` is commutative. */
  lemma MufCommutes(x: bv64, y: bv64)
    ensures Muf(x, y) == Muf(y, x)
  {
    ProductCommutes(x, y);
    NormaliseCommutes(x, y, Product(x, y));
  }

  /** The condition flags of the CPSR that `cmf` writes. */
  const FlagN: bv32 := 0x8000_0000
  const FlagZ: bv32 := 0x4000_0000
  const FlagC: bv32 := 0x2000_0000

  /** The last step of `cmf`: exponents compared as int32, then mantissas as uint32. */
  function Magnitude(exp0: bv32, exp1: bv32, mant0: bv32, mant1: bv32): bv32 {
    if Int32Greater(exp0, exp1) then FlagC
    else if Int32Less(exp0, exp1) then FlagN
    else if mant0 > mant1 then FlagC
    else FlagN
  }

  /**
   * `cmf` on two unequal uint32 operands: a sign test, then the magnitude
   * comparison with the operands swapped when both are negative. The helpers
   * take a uint64, so each operand is zero-extended first.
   */
  function SignedCompare(f0: bv32, f1: bv32): bv32 {
    var sign0 := Fsign(f0 as bv64);
    var sign1 := Fsign(f1 as bv64);
    if sign0 == 1 && sign1 == 0 then FlagN
    else if sign0 == 0 && sign1 == 1 then FlagC
    else if sign0 == 0 then
      Magnitude(Fexp(f0 as bv64), Fexp(f1 as bv64), Low32(Fmantissa(f0 as bv64)), Low32(Fmantissa(f1 as bv64)))
    else
      Magnitude(Fexp(f1 as bv64), Fexp(f0 as bv64), Low32(Fmantissa(f1 as bv64)), Low32(Fmantissa(f0 as bv64)))
  }

  /** `cmf` on its two uint32 variables: equal operands give Z and C. */
  function CompareWords(f0: bv32, f1: bv32): bv32 {
    if f0 == f1 then FlagZ | FlagC else SignedCompare(f0, f1)
  }

  /** The flags `cmf` computes. Its operands are assigned to uint32 variables, so only their low words take part. */
  function CompareFlags(lhs: bv64, rhs: bv64): bv32 {
    CompareWords(Low32(lhs), Low32(rhs))
  }

  /** A zero-extended word has sign 0, exponent -1023 and itself as mantissa. */
  lemma WidenedSign(w: bv32)
    ensures Fsign(w as bv64) == 0
  {
  }

  lemma WidenedExponent(w: bv32)
    ensures Fexp(w as bv64) == 0 - DoubleExpBias
  {
  }

  lemma WidenedMantissa(w: bv32)
    ensures Low32(Fmantissa(w as bv64)) == w
  {
  }

  lemma MagnitudeEqualExponents(e: bv32, mant0: bv32, mant1: bv32)
    ensures Magnitude(e, e, mant0, mant1) == if mant0 > mant1 then FlagC else FlagN
  {
  }

  /** With both signs clear, `cmf` goes straight to the magnitude comparison, unswapped. */
  lemma SignedComparePositive(f0: bv32, f1: bv32)
    requires Fsign(f0 as bv64) == 0 && Fsign(f1 as bv64) == 0
    ensures SignedCompare(f0, f1) == Magnitude(Fexp(f0 as bv64), Fexp(f1 as bv64), Low32(Fmantissa(f0 as bv64)), Low32(Fmantissa(f1 as bv64)))
  {
  }

  /** On zero-extended words the exponents are equal, so the mantissa, which is the word itself, decides. */
  lemma MagnitudeOfWords(f0: bv32, f1: bv32)
    ensures Magnitude(Fexp(f0 as bv64), Fexp(f1 as bv64), Low32(Fmantissa(f0 as bv64)), Low32(Fmantissa(f1 as bv64))) == if f0 > f1 then FlagC else FlagN
  {
    WidenedExponent(f0);
    WidenedExponent(f1);
    WidenedMantissa(f0);
    WidenedMantissa(f1);
    MagnitudeEqualExponents(0 - DoubleExpBias, f0, f1);
  }

  /** On zero-extended words the sign and exponent steps never decide. */
  lemma SignedCompareUnsigned(f0: bv32, f1: bv32)
    ensures SignedCompare(f0, f1) == if f0 > f1 then FlagC else FlagN
  {
    WidenedSign(f0);
    WidenedSign(f1);
    SignedComparePositive(f0, f1);
    MagnitudeOfWords(f0, f1);
  }

  /**
   * An unsigned three-way comparison of two words, in the flag encoding of
   * `cmf`: Z|C for equal, C for greater, N for less.
   */
  function UnsignedFlags(f0: bv32, f1: bv32): bv32 {
    if f0 == f1 then FlagZ | FlagC else if f0 > f1 then FlagC else FlagN
  }

  /** The encoding takes one of three values. */
  lemma UnsignedFlagsCases(f0: bv32, f1: bv32)
    ensures UnsignedFlags(f0, f1) in {FlagZ | FlagC, FlagC, FlagN}
  {
  }

  /** Equality is symmetric: Z|C one way round is Z|C the other way round. */
  lemma UnsignedFlagsSwapEqual(f0: bv32, f1: bv32)
    ensures UnsignedFlags(f0, f1) == FlagZ | FlagC <==> UnsignedFlags(f1, f0) == FlagZ | FlagC
  {
  }

  /** Swapping the operands of a strictly greater comparison (C) gives a less comparison (N). */
  lemma UnsignedFlagsSwap(f0: bv32, f1: bv32)
    requires UnsignedFlags(f0, f1) == FlagC
    ensures UnsignedFlags(f1, f0) == FlagN
  {
  }

  /** `cmf` as written on its uint32 variables is the unsigned comparison. */
  lemma CompareWordsUnsigned(f0: bv32, f1: bv32)
    ensures CompareWords(f0, f1) == UnsignedFlags(f0, f1)
  {
    if f0 != f1 {
      SignedCompareUnsigned(f0, f1);
    }
  }

  /**
   * The flags of `cmf` are the unsigned comparison of the two low words:
   * Z|C exactly when they are equal, C when the left one is larger, N otherwise.
   */
  lemma CompareFlagsLowWords(lhs: bv64, rhs: bv64)
    ensures CompareFlags(lhs, rhs) == UnsignedFlags(Low32(lhs), Low32(rhs))
  {
    CompareWordsUnsigned(Low32(lhs), Low32(rhs));
  }

  /** Swapping the operands of `cmf` turns a C result into an N result. */
  lemma CompareFlagsSwap(lhs: bv64, rhs: bv64)
    requires CompareFlags(lhs, rhs) == FlagC
    ensures CompareFlags(rhs, lhs) == FlagN
  {
    CompareFlagsLowWords(lhs, rhs);
    CompareFlagsLowWords(rhs, lhs);
    UnsignedFlagsSwap(Low32(lhs), Low32(rhs));
  }

  /** Because the high words are dropped, 1.0 and 0.0 (low words both 0) compare equal. */
  lemma CompareOneWithZero()
    ensures CompareFlags(FpdConst[1], FpdConst[0]) == FlagZ | FlagC
  {
    CompareFlagsLowWords(FpdConst[1], FpdConst[0]);
  }
}
