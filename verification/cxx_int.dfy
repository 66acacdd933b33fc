/**
 * The C++ integer semantics the event builder relies on: conversion of an
 * integer to a narrower unsigned or signed type (reduction modulo a power of
 * two) and integer division, which in C++ truncates toward zero while Dafny's
 * `/` and `%` are Euclidean. Also fabs and the nearest-integer relation that the
 * clamp of the VPD vertex uses.
 */
module CxxInt {

  /** std::numeric_limits<short>::max() */
  const ShortMax: int := 32767
  /** std::numeric_limits<short>::min() */
  const ShortMin: int := -32768

  /** Conversion of an integer to UShort_t: the value modulo 2^16. */
  function UShort(x: int): (r: int)
    ensures 0 <= r < 65536
    ensures 0 <= x < 65536 ==> r == x
    ensures (x - r) % 65536 == 0
  {
    x % 65536
  }

  /** Conversion of an integer to UChar_t: the value modulo 2^8. */
  function UChar(x: int): (r: int)
    ensures 0 <= r < 256
    ensures 0 <= x < 256 ==> r == x
    ensures (x - r) % 256 == 0
  {
    x % 256
  }

  /** Conversion of an integer to Short_t: the two's-complement reading of its low 16 bits. */
  function Short(x: int): (r: int)
    ensures ShortMin <= r <= ShortMax
    ensures ShortMin <= x <= ShortMax ==> r == x
    ensures (x - r) % 65536 == 0
  {
    var u := x % 65536;
    if u > ShortMax then u - 65536 else u
  }

  /** Storing a value into a short after a round trip through UShort_t loses nothing
      that a direct conversion would keep: in particular every short survives it. */
  lemma ShortOfUShort(x: int)
    ensures Short(UShort(x)) == Short(x)
    ensures ShortMin <= x <= ShortMax ==> Short(UShort(x)) == x
  {
  }

  /** fabs on the scaled vertex position. */
  function FAbs(x: real): (r: real)
    ensures r >= 0.0
    ensures r == x || r == -x
  {
    if x < 0.0 then -x else x
  }

  /** `n` is a nearest integer to `x`, as TMath::Nint returns: at most one half away. */
  predicate IsNearest(n: int, x: real)
  {
    -0.5 <= x - n as real <= 0.5
  }

  /** 2^32, the modulus of unsigned int. */
  const UIntModulus: int := 0x1_0000_0000

  /** A value of unsigned int. */
  type UInt32 = x: int | 0 <= x < UIntModulus

  /** Conversion of an integer to unsigned int: the value modulo 2^32. */
  function UInt(x: int): (r: int)
    ensures 0 <= r < UIntModulus
    ensures 0 <= x < UIntModulus ==> r == x
    ensures (x - r) % UIntModulus == 0
  {
    x % UIntModulus
  }

  /** C++ `a / b` for a positive divisor: the quotient truncated toward zero. */
  function Quot(a: int, b: int): (q: int)
    requires b > 0
    ensures a >= 0 ==> 0 <= a - q * b < b
    ensures a < 0 ==> -b < a - q * b <= 0
  {
    if a >= 0 then a / b else -((-a) / b)
  }

  /** C++ `a % b` for a positive divisor: the remainder takes the sign of `a`. */
  function Rem(a: int, b: int): (r: int)
    requires b > 0
    ensures Quot(a, b) * b + r == a
    ensures a >= 0 ==> 0 <= r < b
    ensures a < 0 ==> -b < r <= 0
  {
    a - Quot(a, b) * b
  }

  /** For a nonnegative dividend the C++ operators agree with Dafny's. */
  lemma QuotRemOfNatural(a: int, b: int)
    requires a >= 0 && b > 0
    ensures Quot(a, b) == a / b
    ensures Rem(a, b) == a % b
  {
  }

  /** Euclidean division is determined by its defining inequalities. */
  lemma EuclideanUnique(a: int, b: int, q: int)
    requires b > 0 && 0 <= a - q * b < b
    ensures q == a / b
  {
    var e := a / b;
    var d := q - e;
    assert d * b == q * b - e * b;
    assert -b < d * b < b;
  }

  /** For a negative dividend they differ: when the division is not exact the C++ quotient
      is one more than the Euclidean one and the remainder is negative. */
  lemma QuotOfNegative(a: int, b: int)
    requires a < 0 && b > 0 && a % b != 0
    ensures Quot(a, b) == a / b + 1
    ensures Rem(a, b) == a % b - b
  {
    var p := (-a) / b;
    var m := (-a) % b;
    assert -a == p * b + m;
    if m == 0 {
      assert a == (-p) * b;
      EuclideanUnique(a, b, -p);
      assert false;
    }
    assert a == (-p - 1) * b + (b - m);
    EuclideanUnique(a, b, -p - 1);
  }
}
