/**
 * IEEE 754-2008 binary64 values as their 64-bit patterns (section 3.4 of IEEE 754-2008:
 * sign bit 63, biased exponent field bits 52..62, trailing significand bits 0..51).
 *
 * A Rust `f64` is represented by its own bit pattern, so `mem::transmute` between `f64` and
 * `u64` is the identity here. The floating-point comparisons, the `Display` formatting and
 * `num_traits::Float::integer_decode` are library behaviour outside this model; they are given
 * by an `Ops` value of uninterpreted functions.
 */
module Float64 {

  type Bits = bv64

  /** A Rust `i16`, the exponent type returned by `integer_decode`. */
  newtype I16 = x: int | -0x8000 <= x < 0x8000

  const SIGN_MASK: Bits := 0x8000_0000_0000_0000
  const EXPONENT_MASK: Bits := 0x7FF0_0000_0000_0000
  const MANTISSA_MASK: Bits := 0x000F_FFFF_FFFF_FFFF

  /** `std::f64::NEG_INFINITY`: sign 1, exponent field all ones, mantissa 0. */
  const NEG_INFINITY: Bits := 0xFFF0_0000_0000_0000
  /** `0.0` */
  const POS_ZERO: Bits := 0

  function SignBit(x: Bits): (r: Bits)
    ensures r <= 1
  {
    x >> 63
  }

  function ExponentField(x: Bits): (r: Bits)
    ensures r <= 0x7FF
  {
    (x >> 52) & 0x7FF
  }

  function MantissaField(x: Bits): (r: Bits)
    ensures r <= MANTISSA_MASK
  {
    x & MANTISSA_MASK
  }

  /** A pattern is determined by its three fields. */
  lemma FieldsDetermine(x: Bits, y: Bits)
    requires SignBit(x) == SignBit(y)
    requires ExponentField(x) == ExponentField(y)
    requires MantissaField(x) == MantissaField(y)
    ensures x == y
  {
  }

  /** The host's floating-point library: comparisons, formatting and decoding of `f64`. */
  datatype Ops = Ops(
    lt: (Bits, Bits) -> bool,          // `a < b`
    le: (Bits, Bits) -> bool,          // `a <= b`
    eq: (Bits, Bits) -> bool,          // `a == b`
    show: Bits -> string,              // `format!("{}", a)` / `a.to_string()`
    decodeExponent: Bits -> I16        // the exponent of `Float::integer_decode(a)`
  )
}
