/** is_prime of main/main.cpp:89-95 exactly as written for uint32_t: the loop
    guard i * i <= n is evaluated modulo 2^32. Below 65535^2 the guard never
    wraps and the answer is exact. Once i reaches 65536 the product wraps; for
    a prime n >= 2^32 - 5 the guard then never stops the loop and the first
    divisor found is n itself. */
module Uint32Primality {
  import opened Primality

  const Modulus: nat := 0x1_0000_0000

  type uint32 = x: nat | x < 0x1_0000_0000

  /** i * i in uint32_t arithmetic: the true square as long as i <= 65535. */
  function WrappedSquare(i: uint32): (r: uint32)
    ensures i <= 65535 ==> r == i * i
  {
    if i <= 65535 then
      MulMonotone(i, i, 65535, 65535);
      (i * i) % Modulus
    else (i * i) % Modulus
  }

  lemma SquareMod16(i: nat)
    ensures (i * i) % 16 in {0, 1, 4, 9}
  {
    var q, r := i / 16, i % 16;
    assert i == 16 * q + r;
    assert i * i == 16 * (16 * q * q + 2 * q * r) + r * r by {
      assert i * i == (16 * q + r) * (16 * q + r);
    }
    assert (i * i) % 16 == (r * r) % 16;
    assert r == 0 || r == 1 || r == 2 || r == 3 || r == 4 || r == 5 || r == 6 || r == 7 ||
           r == 8 || r == 9 || r == 10 || r == 11 || r == 12 || r == 13 || r == 14 || r == 15;
  }

  /** No square, reduced modulo 2^32, lies in the top four values
      2^32 - 4 .. 2^32 - 1: they are 12 .. 15 modulo 16, squares are
      0, 1, 4 or 9. */
  lemma WrappedSquareBelowTop(i: uint32)
    ensures WrappedSquare(i) <= Modulus - 5
  {
    var x := i * i;
    SquareMod16(i);
    var a := x / Modulus;
    assert x == Modulus * a + x % Modulus;
    assert Modulus * a == 16 * (0x1000_0000 * a);
    assert (x % Modulus) % 16 == x % 16;
  }

  /** While i * i, computed modulo 2^32, is at most n < 65535^2, it is the true
      square: so i < 65535 and the next i still has its predecessor's square
      at most n. */
  lemma NoWrapBelowRoot(i: uint32, n: uint32)
    requires 2 <= i <= 65535 && n < 0xFFFE_0001
    requires WrappedSquare(i) <= n
    ensures i < 65535 && i * i <= n
  {
    MulMonotone(i, i, 65535, 65535);
    assert i * i < Modulus;
    assert WrappedSquare(i) == i * i;
  }

  /** is_prime as written. It is exact for every n below 65535^2 = 0xFFFE_0001,
      which covers every count up to MAX_NUM = 2^24, and returning true is
      always sound; but every n from 2^32 - 5 up is reported not prime,
      the prime 4294967291 = 2^32 - 5 included. */
  method IsPrimeAsWritten(n: uint32) returns (p: bool)
    ensures p ==> Prime(n)
    ensures n < 0xFFFE_0001 ==> p == Prime(n)
    ensures n >= Modulus - 5 ==> !p
  {
    if n <= 1 {
      return false;
    }
    var i: uint32 := 2;
    while WrappedSquare(i) <= n
      invariant 2 <= i <= n
      invariant forall d :: 2 <= d < i ==> n % d != 0
      invariant n < 0xFFFE_0001 ==> i <= 65535 && (i - 1) * (i - 1) <= n
      decreases n - i
    {
      if n < 0xFFFE_0001 {
        NoWrapBelowRoot(i, n);
      }
      if n % i == 0 {
        PrimeMeans(n);
        return false;
      }
      assert i != n by {
        assert n % n == 0;
      }
      i := i + 1;
    }
    assert n < Modulus - 5 by {
      WrappedSquareBelowTop(i);
    }
    assert i * i > n by {
      assert WrappedSquare(i) <= i * i;
    }
    NoDivisorBelowRoot(n, i);
    PrimeMeans(n);
    return true;
  }
}
