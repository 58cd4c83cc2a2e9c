/** Java's 32-bit `int` and its wrapping subtraction. */
module JavaInt {

  /** A Java `int`: a 32-bit two's-complement integer. */
  newtype int32 = x: int | -0x8000_0000 <= x < 0x8000_0000

  const Modulus: int := 0x1_0000_0000

  /** `x` reduced into the range of `int32`, as Java's int arithmetic does on overflow. */
  function Wrap(x: int): (r: int32)
    ensures (r as int - x) % Modulus == 0
  {
    if -0x8000_0000 <= x < 0x8000_0000 then x as int32
    else ((x + 0x8000_0000) % Modulus - 0x8000_0000) as int32
  }

  /** Java's `a - b` on two ints. */
  function Sub(a: int32, b: int32): (r: int32)
    ensures (r as int - (a as int - b as int)) % Modulus == 0
  {
    Wrap(a as int - b as int)
  }

  /** Two ints that agree modulo 2^32 are equal. */
  lemma WrapUnique(r: int32, s: int32)
    requires (r as int - s as int) % Modulus == 0
    ensures r == s
  {
  }

  /** Wrapping leaves every value already in range unchanged. */
  lemma WrapInRange(x: int)
    requires -0x8000_0000 <= x < 0x8000_0000
    ensures Wrap(x) as int == x
  {
    WrapUnique(Wrap(x), x as int32);
  }

  /** Subtracting the difference gives back the subtrahend, even when `a - b` overflows. */
  lemma SubSub(a: int32, b: int32)
    ensures Sub(a, Sub(a, b)) == b
  {
    var d := Sub(a, b);
    assert (d as int - (a as int - b as int)) % Modulus == 0;
    var e := Sub(a, d);
    assert (e as int - (a as int - d as int)) % Modulus == 0;
    assert ((e as int - b as int) - (e as int - (a as int - d as int)) + (d as int - (a as int - b as int))) == 0;
    WrapUnique(e, b);
  }

  /** The difference of two ints is zero exactly when they are equal. */
  lemma SubZero(a: int32, b: int32)
    ensures Sub(a, b) == 0 <==> a == b
  {
    if Sub(a, b) == 0 {
      assert (a as int - b as int) % Modulus == 0;
    }
  }

  /** `a - b` and `b - a` have the same square, also when one of them overflows. */
  lemma SubSquareSymmetric(a: int32, b: int32)
    ensures Sub(a, b) as int * Sub(a, b) as int == Sub(b, a) as int * Sub(b, a) as int
  {
    var d, e := Sub(a, b) as int, Sub(b, a) as int;
    assert (d + e) % Modulus == 0 by {
      assert (d - (a as int - b as int)) % Modulus == 0;
      assert (e - (b as int - a as int)) % Modulus == 0;
    }
    if d == -0x8000_0000 {
      assert e == -0x8000_0000;
    } else {
      WrapUnique(Sub(b, a), (-d) as int32);
    }
  }

  /** For non-negative operands Java's subtraction cannot overflow. */
  lemma SubExact(a: int32, b: int32)
    requires a >= 0 && b >= 0
    ensures Sub(a, b) as int == a as int - b as int
  {
    WrapInRange(a as int - b as int);
  }
}
